# CurrencyBank ledger in Dafny

CurrencyBank is a TShock server plugin that keeps one bank account per
player (an ID, a name and a `long` balance) in a SQL table, mirrors the
table in an in-memory list, logs transactions to a file and exposes the
`cbank` chat command. This project models:

- the account entity `BankAccount` (`accounts.dfy`, module `Accounts`): a
  class whose ID only the constructors set and whose name and balance the
  ledger writes;
- the ledger `BankAccountManager` (`ledger.dfy`, module `Ledger`): a class
  holding the list of account objects, with add (capacity 999999), lookup
  by ID or by name (first match wins), the clamped balance change, delete
  by name, reload and bounded random ID generation. The SQL store is an
  oracle: each statement's reply (an affected-row count or a fault) and the
  rows a reload reads are parameters, and so are GenID's random draws;
- the audit log `BankLog` (`bank_log.dfy`, module `Log`): the line format,
  the append-only file (a sequence of lines) and the three sentence
  templates;
- the plugin entry points of `BankMain` (`plugin.dfy`, module `Plugin`):
  money formatting, the storage-type and host/port choice, and account
  creation at login;
- the `give`, `pay` and `take` paths of the `cbank` command
  (`commands.dfy`, module `Commands`): their checks in source order, the
  balance changes they make through the ledger, and the notice sent to the
  affected player;
- the .NET behaviour these rely on (`dotnet.dfy`, module `DotNet`):
  `long` wrap-around, decimal formatting of integers, `int.TryParse` and
  `ulong.TryParse`, `string.IsNullOrWhiteSpace`, `string.Split`, and
  ordinal case-insensitive comparison; the configuration record is in
  `settings.dfy`.

Several behaviours of the code are modelled as written, not corrected:

- `ChangeByAsync` sends the store the delta `value` in the `Balance`
  column, not the new balance (`Ledger.StoreGetsDelta` shows that the two
  disagree whenever the account held a positive balance);
- it changes the in-memory balance before it checks the UPDATE's row
  count, so a failed UPDATE still leaves the new balance in memory
  (`Ledger.BankAccountManager.ChangeBy`);
- the sum `balance + value` is C#'s unchecked 64-bit addition, so a credit
  that overflows wraps to a negative number and the clamp empties the
  account (`Ledger.OverflowEmptiesAccount`);
- because the store holds deltas, a reload can bring back a negative
  balance, and a debit from it that passes `long.MinValue` wraps to a
  large positive balance, which the clamp keeps: taking enough from such
  an account makes it rich (`Ledger.DebitFromNegativeWraps`);
- a reload that faults part-way keeps the rows read before the fault;
- `pay` debits and credits with two separate calls, so a failed credit
  leaves the debit in place (`Commands.Pay`);
- the `take` notice reads "Paid <money> to <taker>".

## Model

| member | source | states |
|---|---|---|
| Accounts.BankAccount.constructor | CurrencyBank/DB/BankAccount.cs:13-16 | the account carries the given ID (0 by default) and nothing else is set |
| Accounts.BankAccount.Open | CurrencyBank/DB/BankAccount.cs:18-23 | the account carries the given name and starting money (0 by default) and the ID that GenID produced |
| Accounts.Server | CurrencyBank/DB/BankAccount.cs:25-29 | the Server account (the object the static field holds) has ID 0, the name "Server" and balance 0 |
| Ledger.FindIn | CurrencyBank/DB/BankAccountManager.cs:145-147 | `List.Find`: the result is the first row matching the key; none exactly when no row matches |
| Ledger.NumericNameMeansId | CurrencyBank/DB/BankAccountManager.cs:143-147 | an identifier that is the decimal text of an `int` always looks up that ID, so an account whose name is the decimal text of an `int` is never found by that name (a digit string outside `int`'s range is still looked up by name) |
| Ledger.BankAccountManager.constructor | CurrencyBank/DB/BankAccountManager.cs:21-35 | the ledger starts with an empty list |
| Ledger.BankAccountManager.FindAccount | CurrencyBank/DB/BankAccountManager.cs:141-148 | by ID when the identifier parses as an `int`, else by exact name; the first matching account, or none exactly when nothing matches |
| Ledger.BankAccountManager.Add | CurrencyBank/DB/BankAccountManager.cs:38-57 | at 999999 accounts the add is refused and the list is unchanged; below it the account is appended whatever the store says, and the result is true exactly when the INSERT affected one row |
| Ledger.NewBalance | CurrencyBank/DB/BankAccountManager.cs:67-68 | the new balance is never negative |
| Ledger.BankAccountManager.ChangeBy | CurrencyBank/DB/BankAccountManager.cs:59-72 | no match: AccountMissing and no change; otherwise the first match's balance becomes `max(0, balance + value)` before the store replies, the UPDATE carries the account's ID and the delta, and a row count other than 1 fails with RowCountMismatch |
| Ledger.Changed | CurrencyBank/DB/BankAccountManager.cs:61-68 | a balance change never adds or removes an account; what it does to the balances is stated by ChangedSpec and ChangedExact |
| Ledger.ChangedSpec | CurrencyBank/DB/BankAccountManager.cs:61-68 | a change keeps balances at 0 or above, changes only the found account (to `max(0, balance + value)` when the sum fits), and changes nothing when no account matches |
| Ledger.ChangedKeepsLookups | CurrencyBank/DB/BankAccountManager.cs:61-68 | a balance change never changes which account any identifier finds |
| Ledger.FindInSameKeys | CurrencyBank/DB/BankAccountManager.cs:145-147 | two lists with the same IDs and names answer every lookup alike |
| Ledger.ChangedExact | CurrencyBank/DB/BankAccountManager.cs:68 | a change whose sum stays in [0, `long.MaxValue`] sets the found account's balance to that sum and leaves every other row as it was |
| Ledger.ChangesCompose | CurrencyBank/DB/BankAccountManager.cs:68 | two successive changes whose running sums stay in range and non-negative equal one change by their sum |
| Ledger.OverflowEmptiesAccount | CurrencyBank/DB/BankAccountManager.cs:68 | a credit whose sum overflows a `long` leaves a balance of 0 |
| Ledger.DebitFromNegativeWraps | CurrencyBank/DB/BankAccountManager.cs:68 | a debit from a negative balance whose sum falls below `long.MinValue` wraps by 2^64, and for any debit other than `long.MinValue` leaves a positive balance |
| Ledger.StoreGetsDelta | CurrencyBank/DB/BankAccountManager.cs:68-69 | the stored value (the delta) differs from the in-memory balance whenever the account held a positive balance |
| Ledger.BankAccountManager.Delete | CurrencyBank/DB/BankAccountManager.cs:74-89 | every account with exactly that name leaves the list, every account object with another name stays, the same objects in their old order (the new list is `Kept` of the old one), and no object is added; true exactly when the DELETE affected one row |
| Ledger.WithoutName | CurrencyBank/DB/BankAccountManager.cs:80 | `RemoveAll`: the kept objects are, in order, those whose name differs; every object with another name is kept and every kept object comes from the input, with no repeats when the input has none |
| Ledger.KeptRows | CurrencyBank/DB/BankAccountManager.cs:80 | the values of the objects RemoveAll keeps are the rows a removal by name keeps |
| Ledger.KeptMembers | CurrencyBank/DB/BankAccountManager.cs:80 | RemoveAll keeps only objects of the list, keeps every object with another name, and repeats none |
| Ledger.RemovedAppend | CurrencyBank/DB/BankAccountManager.cs:80 | removing by name distributes over concatenation |
| Ledger.RemovedSpec | CurrencyBank/DB/BankAccountManager.cs:80 | after the removal no account has the name, every account with another name is kept, and none is added |
| Ledger.BankAccountManager.Reload | CurrencyBank/DB/BankAccountManager.cs:91-117 | the list becomes exactly the rows read, in read order, as new objects; the result is false exactly when the read faults |
| Ledger.BankAccountManager.GenID | CurrencyBank/DB/BankAccountManager.cs:119-139 | -1 exactly at 999999 accounts; otherwise -2 when all 10000 draws collide, or the first draw plus one that no account uses, in [1, 999999] |
| Log.LogName | CurrencyBank/BankLog.cs:20-23 | the file name is "BankLog_", the stamp, ".log" |
| Log.Line | CurrencyBank/BankLog.cs:43-50 | a line starts with the stamp and " - " and always ends with '.' |
| Log.LineSpec | CurrencyBank/BankLog.cs:43-50 | a line is the stamp, " - ", the data, and '.' exactly when the data does not end with one; every line ends with '.', and empty data gives "<stamp> - ." |
| Log.MessageEndsLine | CurrencyBank/BankLog.cs:80-81 | the message suffix appears only for a message that is not blank, and the line then ends with the closing quote and one period |
| Log.BankLog.constructor | CurrencyBank/BankLog.cs:25-31 | the file is opened for appending: the lines already there stay |
| Log.BankLog.Write | CurrencyBank/BankLog.cs:37-60 | one line is appended after all earlier lines, which stay unchanged; a failure surfaces as BankLogException wrapping the cause and appends nothing |
| Log.BankLog.Gain | CurrencyBank/BankLog.cs:78-82 | appends the line "<name> received <money>" with the optional message suffix |
| Log.BankLog.Loss | CurrencyBank/BankLog.cs:90-94 | appends the line "<name> lost <money>" with the optional message suffix |
| Log.BankLog.Payment | CurrencyBank/BankLog.cs:103-107 | appends the line "<sender> paid <money> to <receiver>" with the optional message suffix |
| Plugin.FormatMoney | CurrencyBank/BankMain.cs:160-178 | short form: the short name and the amount's decimal text; long form: the decimal text, a space, and the singular name exactly when the amount is 1, the plural name otherwise |
| Plugin.FormatMoneyReadsBack | CurrencyBank/BankMain.cs:160-178 | short form: the short name followed by digits that parse back to the amount; long form: those digits, a space, and the singular name exactly when the amount is 1 (0 and negatives are plural) |
| Plugin.HostAndPort | CurrencyBank/BankMain.cs:106-111 | a host without ':' gives that server on port "3306"; "server:port" gives that server and port |
| Plugin.ChooseStorage | CurrencyBank/BankMain.cs:104-121 | a storage is chosen exactly when the type is "mysql" or "sqlite" in any ASCII letter case; the MySQL server and port never contain ':' |
| Plugin.StorageTypeIgnoresCase | CurrencyBank/BankMain.cs:104-121 | the storage type is matched without regard to letter case, and only "mysql" and "sqlite" are accepted; anything else is the invalid-storage error |
| Plugin.OnPlayerPostLogin | CurrencyBank/BankMain.cs:135-146 | an account is created only when the lookup finds none and the player holds the permit permission; it is the user's name with balance 0, added under the ledger's add rules |
| Commands.FormatMoney | CurrencyBank/Commands.cs:663-681 | the command's FormatMoney equals BankMain's on every input |
| Commands.TargetIdent | CurrencyBank/Commands.cs:68-69 | the quoted group when it is not blank, otherwise the bare group |
| Commands.ParseAmount | CurrencyBank/Commands.cs:76 | an accepted amount lies in [1, `long.MaxValue`] |
| Commands.AmountRange | CurrencyBank/Commands.cs:76 | every decimal `ulong` is accepted exactly when it lies in [1, `long.MaxValue`] |
| Commands.NoticeDirection | CurrencyBank/Commands.cs:643-661 | the whole text of NoticeText: "[CurrencyBank] Received <money> from <sender>" for a credit and "... Paid <money> to <sender>" for a debit of the same amount, the sender clause only with `showSender`, " (<message>)" only for a message that is not blank |
| Commands.CheckTarget | CurrencyBank/Commands.cs:61-77 | give and take proceed only with the permission, a named account that is found, and a valid amount, and then with that account and that amount |
| Commands.CheckTargetProceeds | CurrencyBank/Commands.cs:61-83 | the converse of CheckTarget: a permitted call naming an account that is found, with a valid amount, proceeds with that account and amount, so give and take proceed exactly when every check passes |
| Commands.CheckPay | CurrencyBank/Commands.cs:196-216 | pay proceeds only when the caller and recipient are found and the caller holds at least the amount; once the earlier checks pass, it is refused as short exactly when the caller's balance is below the amount, with shortfall amount − balance |
| Commands.CheckPayProceeds | CurrencyBank/Commands.cs:196-222 | the converse of CheckPay: a permitted in-game caller with an account, naming an account that is found, with a valid amount the caller's balance covers, proceeds with those two accounts and that amount, so pay proceeds exactly when every check passes |
| Commands.Give | CurrencyBank/Commands.cs:60-103 | refusals change nothing; otherwise (predicate Adjusted) ChangeBy with +amount on the recipient's name, its failure reported, and on success a "Received" notice without a sender clause when the recipient is online |
| Commands.Adjust | CurrencyBank/Commands.cs:83-90 | after the checks of give and take: the ledger ends as ChangeBy of +amount (give) or −amount (take) through the account's name leaves it, a failure is reported with no notice, and success answers the given reply and sends the notice with the caller's account name (or "Server") as the sender |
| Commands.Take | CurrencyBank/Commands.cs:247-288 | refusals change nothing; otherwise (predicate Adjusted) ChangeBy with −amount on the target's name, and on success a "Paid ... to <caller>" notice when the target is online |
| Commands.Pay | CurrencyBank/Commands.cs:195-241 | refusals change nothing; otherwise (predicate Settled) a debit of the caller, and only if it succeeds a credit of the recipient; a failed credit leaves the debit |
| Commands.Settle | CurrencyBank/Commands.cs:220-229 | after the checks of pay: the debit and credit through the two names, an error reply for the first failure, and on success "Paid" with a "Received ... from <caller>" notice when the recipient is online |
| Commands.Transfer | CurrencyBank/Commands.cs:222-223 | the debit through the sender's name comes first; the credit through the recipient's name follows only when the debit succeeds, so a failed credit leaves the debit in place |
| Commands.TotalUpdate | CurrencyBank/Commands.cs:222-223 | replacing one account's row changes the sum of all balances by exactly that row's change |
| Commands.PayConserves | CurrencyBank/Commands.cs:222-223 | a completed payment between two accounts moves exactly the amount and preserves the sum of all balances |
| Ledger.NameFindsItself | CurrencyBank/DB/BankAccountManager.cs:147 | a non-numeric name that no earlier account carries finds its own account |
| DotNet.AddInt64 | CurrencyBank/DB/BankAccountManager.cs:68 | the unchecked `long` sum equals the true sum whenever that fits |
| DotNet.DigitsRoundTrip | CurrencyBank/BankMain.cs:166 | the decimal text of a number reads back as that number |
| DotNet.ParseRoundTrip | CurrencyBank/DB/BankAccountManager.cs:144 | `TryParse` accepts the decimal text of every value in its range and returns that value |
| DotNet.ParseRejectsOtherCharacters | CurrencyBank/Commands.cs:76 | `TryParse` refuses any text holding a character that is not white space, a sign, a digit or NUL |
| DotNet.ParseIgnoresTrailingNul | CurrencyBank/DB/BankAccountManager.cs:144 | a NUL character at the end of the text changes nothing: the text parses to the same value, or still fails |
| DotNet.TrimEndNulSpec | CurrencyBank/Commands.cs:76 | the NUL characters `TryParse` skips at the end are exactly a trailing run of NULs, and the rest of the text is kept |
| DotNet.SplitJoin | CurrencyBank/BankMain.cs:106 | joining the pieces of `Split` with the separator gives back the text |

## Left out

- The SQL store (`db.Query`, `QueryReader`, table creation, the MySQL and SQLite connections): each statement's reply and the rows read are parameters.
- Concurrency: `Task.Run`, `async`/`await` and the lock in `BankLog.Write`. Every operation runs sequentially. ChangeBy's read-modify-write holds no lock, so no lost-update property is claimed.
- `ChangeByAsync` is `async void`, so its callers cannot observe its exceptions; the model hands its outcome to the command handlers as their `catch` blocks expect.
- `System.Random` and `DateTime.Now`: GenID's draws and the log's time stamps are parameters.
- Ledger.BankAccountManager.Add: requires that the object is not already in the list. The source appends any object; an object listed twice would make one balance change show in two places.
- Ledger.BankAccountManager.constructor: the table creation and the background reload the source starts are left out; Reload is a separate call.
- Accounts.BankAccount.constructor: the name, null in the source, is the empty string.
- Accounts.BankAccount.Open: the source assigns the ID later, from a background task that calls GenID; the model takes the generated ID as a parameter.
- Plugin.OnPlayerPostLogin: the lookup the source calls (`GetAsync`) is not part of this model; it is taken to be FindAccount. Console messages are left out.
- Plugin.StorageTypeIgnoresCase: folds ASCII letters only; ordinal case-insensitive comparison also maps a few non-ASCII letters to ASCII ones.
- Plugin.ChooseStorage (through `DotNet.EqualsIgnoreCase`): compares the storage type folding ASCII letters only, while BankMain.cs:104 and :117 use ordinal case-insensitive comparison, which also folds, for example, 'ı' to 'I' and 'ſ' to 'S'; such a spelling of "mysql" or "sqlite" is refused by the model.
- The source as it stands does not compile in three kinds of place: it awaits the `async void` ChangeByAsync (Commands.cs:83, 222, 223, 269), it awaits the `int` returned by GenID (BankAccount.cs:20), and it calls a `GetAsync` that no class here defines (BankMain.cs:139). The model gives each a meaning, as the lines above and the lines on ChangeByAsync, BankAccount.Open and OnPlayerPostLogin say.
- `TryParse` reads the sign as '+' or '-'; the current culture's own sign strings are not modelled.
- Decimal formatting uses the invariant culture's '-' sign; other cultures are not modelled.
- `string.IsNullOrWhiteSpace` and the other string helpers never see `null`: the regular expression's groups are empty strings, never null.
- `OnInitialize`'s other work (reading Config.json, registering the command, opening the log), `OnAccountDelete` and `OnReload`: plumbing that forwards to Delete and Reload and prints their outcome.
- Config.cs (JSON read and write, the conversion rate) and Permissions.cs (constant strings) are not part of this model; the configuration is a record of the fields used.
- JistCommands.cs: a script-engine bridge, not part of this model.
- In Commands.cs: the regular expression that splits the command (its groups are parameters), the player messages and `TShock.Utils.FindPlayer` (whether the notice's addressee is online is a parameter), the `bal`, `info` and `help` subcommands, and the commented-out old code.
- Log.BankLog.Write: a fault is taken to append nothing. In the source a fault in `Flush` after `WriteLine` has buffered the line could still let the line, or part of it, reach the file later.
- Accounts.Server: stands for the static field `BankAccount.Server`; the model builds an equal object on each call rather than sharing one object.
- The `Log.Error` and `Log.ConsoleError` calls in the `catch` blocks of Add, Delete and Reload (CurrencyBank/DB/BankAccountManager.cs:54, 85, 112-113): console and TShock log output.
- `BankLog.Write(format, args)`: `string.Format` is left out; the templates build the formatted text directly.
