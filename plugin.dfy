/** The plugin's entry points (BankMain.cs): money formatting, the choice of
    store from the configuration, and account creation at login. */
module Plugin {
  import opened DotNet
  import opened Settings
  import opened Accounts
  import opened Ledger

  /** `BankMain.FormatMoney`: with `UseShortName` the short name and then the
      number; otherwise the number, a space, and the singular name for
      exactly 1 or the plural name for anything else. */
  function FormatMoney(config: Config, money: Int64): (r: string)
    ensures config.useShortName ==> r == config.currencyNameShort + LongToString(money)
    ensures !config.useShortName ==>
      r == LongToString(money) + " " + (if money == 1 then config.currencyName else config.currencyNamePlural)
  {
    (if config.useShortName then config.currencyNameShort else "")
    + LongToString(money)
    + (if config.useShortName then ""
       else " " + (if money != 1 then config.currencyNamePlural else config.currencyName))
  }

  /** The number can be read back from the formatted text: after the short
      name in the short form, before the space in the long form. The
      singular name is used for 1 alone; 0 and negative amounts are
      plural. */
  lemma FormatMoneyReadsBack(config: Config, money: Int64)
    ensures var r := FormatMoney(config, money);
      var digits := LongToString(money);
      var p := |config.currencyNameShort|;
      config.useShortName ==>
        r[..p] == config.currencyNameShort && TryParseInteger(r[p..], LongMin, LongMax) == Some(money)
    ensures var r := FormatMoney(config, money);
      var q := |LongToString(money)|;
      !config.useShortName ==>
        && TryParseInteger(r[..q], LongMin, LongMax) == Some(money)
        && r[q] == ' '
        && r[q + 1..] == if money == 1 then config.currencyName else config.currencyNamePlural
  {
    var r := FormatMoney(config, money);
    var digits := LongToString(money);
    if config.useShortName {
      var p := |config.currencyNameShort|;
      assert r == config.currencyNameShort + digits;
      assert r[..p] == config.currencyNameShort;
      assert r[p..] == digits;
    } else {
      var q := |digits|;
      var unit := if money == 1 then config.currencyName else config.currencyNamePlural;
      assert r == digits + [' '] + unit;
      assert r[..q] == digits;
      assert r[q] == ' ';
      assert r[q + 1..] == unit;
    }
    ParseRoundTrip(money, LongMin, LongMax);
  }

  /** The store the plugin connects to. */
  datatype Storage = MySql(server: string, port: string) | Sqlite

  /** The result of the storage-type switch: a store, or the
      InvalidOperationException "Invalid storage type!". */
  datatype StorageChoice = Chosen(storage: Storage) | InvalidStorageType

  /** `OnInitialize`'s storage switch: "mysql" or "sqlite" in any letter
      case; for MySQL the host setting is split on ':' into the server and
      the port, which defaults to "3306". */
  function ChooseStorage(config: Config): (r: StorageChoice)
    ensures r != InvalidStorageType <==>
      EqualsIgnoreCase(config.storageType, "mysql") || EqualsIgnoreCase(config.storageType, "sqlite")
    ensures r.Chosen? && r.storage.MySql? ==> ':' !in r.storage.server && ':' !in r.storage.port
  {
    if EqualsIgnoreCase(config.storageType, "mysql") then
      var host := Split(config.mySqlHost, ':');
      Chosen(MySql(host[0], if |host| == 1 then "3306" else host[1]))
    else if EqualsIgnoreCase(config.storageType, "sqlite") then Chosen(Sqlite)
    else InvalidStorageType
  }

  /** A host setting without ':' is the server on the default port 3306; a
      setting "server:port" gives that server and that port. */
  lemma HostAndPort(config: Config, server: string, port: string)
    requires EqualsIgnoreCase(config.storageType, "mysql")
    requires ':' !in server && ':' !in port
    ensures config.mySqlHost == server ==> ChooseStorage(config) == Chosen(MySql(server, "3306"))
    ensures config.mySqlHost == server + ":" + port ==> ChooseStorage(config) == Chosen(MySql(server, port))
  {
    SplitWithoutSeparator(server, ':');
    SplitAfterPiece(server, port, ':');
    SplitWithoutSeparator(port, ':');
  }

  /** The storage type is matched regardless of the case of its ASCII
      letters, and only the two known names are accepted. */
  lemma StorageTypeIgnoresCase(config: Config)
    ensures ChooseStorage(config) == ChooseStorage(config.(storageType := ToUpperAscii(config.storageType)))
    ensures ChooseStorage(config) != InvalidStorageType <==>
      ToUpperAscii(config.storageType) == "MYSQL" || ToUpperAscii(config.storageType) == "SQLITE"
  {
    var t := config.storageType;
    var u := ToUpperAscii(t);
    assert forall c :: UpperAscii(UpperAscii(c)) == UpperAscii(c);
    assert EqualsIgnoreCase(t, "mysql") <==> u == "MYSQL" by {
      if EqualsIgnoreCase(t, "mysql") {
        assert forall i :: 0 <= i < 5 ==> u[i] == "MYSQL"[i];
      }
    }
    assert EqualsIgnoreCase(t, "sqlite") <==> u == "SQLITE" by {
      if EqualsIgnoreCase(t, "sqlite") {
        assert forall i :: 0 <= i < 6 ==> u[i] == "SQLITE"[i];
      }
    }
    assert EqualsIgnoreCase(u, "mysql") <==> EqualsIgnoreCase(t, "mysql");
    assert EqualsIgnoreCase(u, "sqlite") <==> EqualsIgnoreCase(t, "sqlite");
  }

  /** The post-login rule: an account is created only when the lookup
      finds none and the player holds the permit permission. */
  predicate CreatesAccountAtLogin(found: bool, hasPermit: bool)
  {
    !found && hasPermit
  }

  /** `OnPlayerPostLogin`: look the user up and, when the rule allows it,
      add a new account under the user's name with balance 0. `generated`
      is the ID the new account carries; the result is None when no account
      is created, otherwise whether the add succeeded. */
  method OnPlayerPostLogin(bank: BankAccountManager, userName: string, hasPermit: bool,
                           generated: Int32, reply: StoreReply)
    returns (created: Option<bool>)
    requires bank.Valid()
    modifies bank
    ensures bank.Valid()
    ensures !CreatesAccountAtLogin(old(bank.FindAccount(userName)).Some?, hasPermit) ==>
      created.None? && bank.accounts == old(bank.accounts)
    ensures CreatesAccountAtLogin(old(bank.FindAccount(userName)).Some?, hasPermit) ==>
      created.Some? &&
      (if |old(bank.accounts)| >= MaxAccounts then
         !created.value && bank.accounts == old(bank.accounts)
       else
         bank.Rows() == old(bank.Rows()) + [Row(generated, userName, 0)]
         && (created.value <==> reply == Affected(1)))
  {
    var account := bank.FindAccount(userName);
    if !CreatesAccountAtLogin(account.Some?, hasPermit) {
      return None;
    }
    var newAccount := new BankAccount.Open(generated, userName);
    var ok := bank.Add(newAccount, reply);
    created := Some(ok);
  }
}
