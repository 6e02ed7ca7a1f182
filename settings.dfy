/** The configuration fields the core reads (Config.cs). Reading and writing
    the JSON file is not part of this model; a `Config` value is passed in. */
module Settings {

  datatype Config = Config(
    useShortName: bool,
    currencyNameShort: string,
    currencyName: string,
    currencyNamePlural: string,
    storageType: string,
    mySqlHost: string)
}
