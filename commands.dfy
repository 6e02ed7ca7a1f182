/** The `cbank` command's give, pay and take paths (Commands.cs): the checks
    each makes, in order, before it changes a balance, the balance changes
    themselves, and the notice text sent to the affected player. Parsing the
    command line (a regular expression) is not modelled: its groups arrive
    as parameters. Whether the affected player is online is a parameter. */
module Commands {
  import opened DotNet
  import opened Settings
  import opened Accounts
  import opened Ledger
  import Plugin

  /** The command's own copy of FormatMoney, which agrees with BankMain's
      on every input. */
  function FormatMoney(config: Config, money: Int64): (r: string)
    ensures r == Plugin.FormatMoney(config, money)
  {
    (if config.useShortName then config.currencyNameShort else "")
    + LongToString(money)
    + (if config.useShortName then ""
       else " " + (if money != 1 then config.currencyNamePlural else config.currencyName))
  }

  /** The account named by the command: the quoted group unless it is blank,
      otherwise the bare group. */
  function TargetIdent(quoted: string, bare: string): (r: string)
    ensures !IsNullOrWhiteSpace(quoted) ==> r == quoted
    ensures IsNullOrWhiteSpace(quoted) ==> r == bare
  {
    if IsNullOrWhiteSpace(quoted) then bare else quoted
  }

  /** The amount check: the text parses as a `ulong`, is not 0 and is at
      most `long.MaxValue`. */
  function ParseAmount(text: string): (r: Option<int>)
    ensures r.Some? ==> 1 <= r.value <= LongMax
  {
    match TryParseUInt64(text)
    case None => None
    case Some(v) => if v == 0 || v > LongMax then None else Some(v)
  }

  /** Exactly the amounts from 1 to `long.MaxValue` are accepted, when
      written in decimal; 0 and the `ulong` values above `long.MaxValue`
      are refused. */
  lemma AmountRange(v: nat)
    requires v <= ULongMax
    ensures ParseAmount(NatToString(v)) == if 1 <= v <= LongMax then Some(v) else None
  {
    ParseRoundTrip(v, 0, ULongMax);
  }

  /** What the player is told. */
  datatype Reply =
    | NoAccess              // the permission is missing
    | NotInGame             // pay used from the console
    | NoBankAccount         // the caller has no account
    | Usage                 // no account named
    | InvalidAccount        // no account found, or ChangeBy found none
    | InvalidAmount
    | Short(shortfall: Int64)
    | DatabaseCorruption    // ChangeBy's InvalidOperationException
    | Unhandled             // a store exception no handler catches
    | Gave(amount: Int64)
    | Paid(amount: Int64)
    | Took(amount: Int64)

  /** How the handlers report a failed ChangeBy. */
  function ErrorReply(e: ChangeError): Reply
  {
    match e
    case AccountMissing => InvalidAccount
    case RowCountMismatch => DatabaseCorruption
    case StoreFault => Unhandled
  }

  /** The text `SendNotice` sends: "[CurrencyBank] ", "Paid" for a negative
      value and "Received" otherwise, the absolute amount, " to/from
      <sender>" when `showSender`, and " (<message>)" for a message that is
      not blank. `Math.Abs` throws on `long.MinValue`; no handler passes it. */
  function NoticeText(config: Config, senderName: string, value: Int64, message: string,
                      showSender: bool): (r: string)
    requires value != LongMin
  {
    var payment := value < 0;
    var head := if payment then "[CurrencyBank] Paid " else "[CurrencyBank] Received ";
    var money := FormatMoney(config, if value < 0 then -value else value);
    var senderClause := if showSender then " " + (if payment then "to" else "from") + " " + senderName else "";
    var messageClause := if IsNullOrWhiteSpace(message) then "" else " (" + message + ")";
    head + money + senderClause + messageClause
  }

  /** A debit and a credit of the same amount are told with the same money
      text: "Paid <money> to <sender>" and "Received <money> from
      <sender>"; the sender clause and the message appear only when asked
      for. */
  lemma NoticeDirection(config: Config, senderName: string, amount: Int64, message: string, showSender: bool)
    requires amount >= 0
    ensures var money := FormatMoney(config, amount);
      var tail := if IsNullOrWhiteSpace(message) then "" else " (" + message + ")";
      && NoticeText(config, senderName, amount, message, showSender)
         == "[CurrencyBank] Received " + money + (if showSender then " from " + senderName else "") + tail
      && NoticeText(config, senderName, -amount, message, showSender)
         == (if amount == 0 then NoticeText(config, senderName, amount, message, showSender)
             else "[CurrencyBank] Paid " + money + (if showSender then " to " + senderName else "") + tail)
  {
    assert " " + "from" + " " + senderName == " from " + senderName;
    if amount != 0 {
      assert -(-amount) == amount;
      assert " " + "to" + " " + senderName == " to " + senderName;
    }
  }

  /** The name shown as the sender when the caller has an account, or the
      Server account's name when not. */
  function SenderName(rows: seq<Row>, caller: string): string
  {
    match FindIn(rows, KeyOf(caller))
    case None => ServerName
    case Some(i) => rows[i].name
  }

  /** The checks of give and take, in source order: permission, an account
      named, the account found, a valid amount. */
  datatype Check = Refused(reply: Reply) | Proceed(target: nat, amount: int)

  function CheckTarget(rows: seq<Row>, allowed: bool, ident: string, amountText: string): (c: Check)
    ensures c.Proceed? ==> c.target < |rows| && 1 <= c.amount <= LongMax
    ensures c.Proceed? ==>
      allowed && !IsNullOrWhiteSpace(ident) && FindIn(rows, KeyOf(ident)) == Some(c.target)
      && ParseAmount(amountText) == Some(c.amount)
  {
    if !allowed then Refused(NoAccess)
    else if IsNullOrWhiteSpace(ident) then Refused(Usage)
    else match FindIn(rows, KeyOf(ident))
      case None => Refused(InvalidAccount)
      case Some(t) =>
        match ParseAmount(amountText)
        case None => Refused(InvalidAmount)
        case Some(v) => Proceed(t, v)
  }

  /** The converse of CheckTarget's contract: a permitted call that names
      an account the ledger finds, with a valid amount, proceeds with that
      account and amount. */
  lemma CheckTargetProceeds(rows: seq<Row>, allowed: bool, ident: string, amountText: string)
    requires allowed && !IsNullOrWhiteSpace(ident)
    requires FindIn(rows, KeyOf(ident)).Some? && ParseAmount(amountText).Some?
    ensures CheckTarget(rows, allowed, ident, amountText)
      == Proceed(FindIn(rows, KeyOf(ident)).value, ParseAmount(amountText).value)
  {
  }

  /** The checks of pay, in source order: permission, in game, the caller's
      account, an account named, the recipient found, a valid amount, and
      enough money. */
  datatype PayCheck = PayRefused(reply: Reply) | PayProceed(sender: nat, recipient: nat, amount: int)

  function CheckPay(rows: seq<Row>, allowed: bool, realPlayer: bool, caller: string, ident: string,
                    amountText: string): (c: PayCheck)
    ensures c.PayProceed? ==>
      c.sender < |rows| && c.recipient < |rows| && 1 <= c.amount <= LongMax
      && FindIn(rows, KeyOf(caller)) == Some(c.sender) && FindIn(rows, KeyOf(ident)) == Some(c.recipient)
      && rows[c.sender].balance >= c.amount
    ensures c.PayRefused? && c.reply.Short? ==>
      FindIn(rows, KeyOf(caller)).Some? && ParseAmount(amountText).Some?
      && var b := rows[FindIn(rows, KeyOf(caller)).value].balance;
      && var v := ParseAmount(amountText).value;
      && b < v && (b >= 0 ==> c.reply.shortfall == v - b)
    ensures allowed && realPlayer && !IsNullOrWhiteSpace(ident)
      && FindIn(rows, KeyOf(caller)).Some? && FindIn(rows, KeyOf(ident)).Some? && ParseAmount(amountText).Some?
      && rows[FindIn(rows, KeyOf(caller)).value].balance < ParseAmount(amountText).value
      ==> c == PayRefused(Short(SubInt64(ParseAmount(amountText).value, rows[FindIn(rows, KeyOf(caller)).value].balance)))
  {
    if !allowed then PayRefused(NoAccess)
    else if !realPlayer then PayRefused(NotInGame)
    else match FindIn(rows, KeyOf(caller))
      case None => PayRefused(NoBankAccount)
      case Some(s) =>
        if IsNullOrWhiteSpace(ident) then PayRefused(Usage)
        else match FindIn(rows, KeyOf(ident))
          case None => PayRefused(InvalidAccount)
          case Some(t) =>
            match ParseAmount(amountText)
            case None => PayRefused(InvalidAmount)
            case Some(v) =>
              if rows[s].balance < v then PayRefused(Short(SubInt64(v, rows[s].balance)))
              else PayProceed(s, t, v)
  }

  /** The converse of CheckPay's contract: a permitted in-game caller with
      an account, naming an account the ledger finds, with a valid amount
      the caller's balance covers, proceeds with those two accounts and
      that amount. */
  lemma CheckPayProceeds(rows: seq<Row>, allowed: bool, realPlayer: bool, caller: string, ident: string,
                         amountText: string)
    requires allowed && realPlayer && !IsNullOrWhiteSpace(ident)
    requires FindIn(rows, KeyOf(caller)).Some? && FindIn(rows, KeyOf(ident)).Some? && ParseAmount(amountText).Some?
    requires rows[FindIn(rows, KeyOf(caller)).value].balance >= ParseAmount(amountText).value
    ensures CheckPay(rows, allowed, realPlayer, caller, ident, amountText)
      == PayProceed(FindIn(rows, KeyOf(caller)).value, FindIn(rows, KeyOf(ident)).value, ParseAmount(amountText).value)
  {
  }

  /** How a credit of `amount` (a debit when `debit`) to the account at
      `t`, made through the
      account's name, leaves the ledger (`after`), the reply and the
      notice: a failed change is reported as an error and nobody is told;
      a change that goes through answers `done` and, when the account's
      owner is online, tells them with the caller's account name as the
      sender. */
  ghost predicate Adjusted(config: Config, rows: seq<Row>, t: nat, amount: int, debit: bool, done: Reply,
                           caller: string, message: string, showSender: bool, reply: StoreReply, online: bool,
                           after: seq<Row>, r: Reply, notice: Option<string>)
    requires t < |rows| && 1 <= amount <= LongMax
  {
    var key := KeyOf(rows[t].name);
    var delta: Int64 := if debit then -amount else amount;
    && after == Changed(rows, key, delta)
    && match ChangeOutcome(rows, key, reply)
       case Fail(e) => r == ErrorReply(e) && notice.None?
       case Pass => (r == done
         && notice == if online then Some(NoticeText(config, SenderName(after, caller), delta, message, showSender)) else None)
  }

  /** The part of `cbank give` and `cbank take` after their checks: the
      change through the account's name, then the reply and the notice. */
  method Adjust(bank: BankAccountManager, config: Config, t: nat, amount: int, debit: bool, done: Reply,
                caller: string, message: string, showSender: bool, reply: StoreReply, online: bool)
    returns (r: Reply, notice: Option<string>)
    requires bank.Valid() && t < |bank.accounts| && 1 <= amount <= LongMax
    modifies bank.accounts
    ensures bank.Valid() && bank.accounts == old(bank.accounts)
    ensures Adjusted(config, old(bank.Rows()), t, amount, debit, done, caller, message, showSender, reply, online,
                     bank.Rows(), r, notice)
  {
    var delta: Int64 := if debit then -amount else amount;
    var name := bank.accounts[t].accountName;
    var outcome, _ := bank.ChangeBy(name, delta, reply);
    if outcome.Fail? {
      return ErrorReply(outcome.error), None;
    }
    r := done;
    notice := if online then Some(NoticeText(config, SenderName(bank.Rows(), caller), delta, message, showSender)) else None;
  }

  /** `cbank give`: credit the named account by the amount. The change is
      made through the account's name, which ChangeBy looks up again. */
  method Give(bank: BankAccountManager, config: Config, caller: string, allowed: bool,
              quoted: string, bare: string, amountText: string, message: string,
              reply: StoreReply, recipientOnline: bool)
    returns (r: Reply, notice: Option<string>)
    requires bank.Valid()
    modifies bank.accounts
    ensures bank.Valid() && bank.accounts == old(bank.accounts)
    ensures var c := CheckTarget(old(bank.Rows()), allowed, TargetIdent(quoted, bare), amountText);
      c.Refused? ==> r == c.reply && bank.Rows() == old(bank.Rows()) && notice.None?
    ensures var c := CheckTarget(old(bank.Rows()), allowed, TargetIdent(quoted, bare), amountText);
      c.Proceed? ==>
        Adjusted(config, old(bank.Rows()), c.target, c.amount, false, Gave(c.amount), caller, message, false, reply,
                 recipientOnline, bank.Rows(), r, notice)
  {
    var check := CheckTarget(bank.Rows(), allowed, TargetIdent(quoted, bare), amountText);
    if check.Refused? {
      return check.reply, None;
    }
    r, notice := Adjust(bank, config, check.target, check.amount, false, Gave(check.amount), caller, message, false,
                        reply, recipientOnline);
  }

  /** `cbank take`: debit the named account by the amount (clamped at 0 by
      ChangeBy); the notice tells the target who took it. */
  method Take(bank: BankAccountManager, config: Config, caller: string, allowed: bool,
              quoted: string, bare: string, amountText: string, message: string,
              reply: StoreReply, targetOnline: bool)
    returns (r: Reply, notice: Option<string>)
    requires bank.Valid()
    modifies bank.accounts
    ensures bank.Valid() && bank.accounts == old(bank.accounts)
    ensures var c := CheckTarget(old(bank.Rows()), allowed, TargetIdent(quoted, bare), amountText);
      c.Refused? ==> r == c.reply && bank.Rows() == old(bank.Rows()) && notice.None?
    ensures var c := CheckTarget(old(bank.Rows()), allowed, TargetIdent(quoted, bare), amountText);
      c.Proceed? ==>
        Adjusted(config, old(bank.Rows()), c.target, c.amount, true, Took(c.amount), caller, message, true, reply,
                 targetOnline, bank.Rows(), r, notice)
  {
    var check := CheckTarget(bank.Rows(), allowed, TargetIdent(quoted, bare), amountText);
    if check.Refused? {
      return check.reply, None;
    }
    r, notice := Adjust(bank, config, check.target, check.amount, true, Took(check.amount), caller, message, true,
                        reply, targetOnline);
  }

  /** The two calls a payment makes: a debit through the sender's name and,
      only when it succeeds, a credit through the recipient's name. */
  method Transfer(bank: BankAccountManager, senderName: string, recipientName: string, value: Int64,
                  debitReply: StoreReply, creditReply: StoreReply)
    returns (r: Outcome<ChangeError>)
    requires bank.Valid() && value != LongMin
    modifies bank.accounts
    ensures bank.Valid() && bank.accounts == old(bank.accounts)
    ensures var debit := ChangeOutcome(old(bank.Rows()), KeyOf(senderName), debitReply);
      debit.Fail? ==> r == debit && bank.Rows() == Changed(old(bank.Rows()), KeyOf(senderName), -value)
    ensures var afterDebit := Changed(old(bank.Rows()), KeyOf(senderName), -value);
      ChangeOutcome(old(bank.Rows()), KeyOf(senderName), debitReply).Pass? ==>
        && bank.Rows() == Changed(afterDebit, KeyOf(recipientName), value)
        && r == ChangeOutcome(afterDebit, KeyOf(recipientName), creditReply)
  {
    ghost var before := bank.Rows();
    var debit, _ := bank.ChangeBy(senderName, -value, debitReply);
    if debit.Fail? {
      return debit;
    }
    ghost var afterDebit := bank.Rows();
    assert afterDebit == Changed(before, KeyOf(senderName), -value);
    var credit, _ := bank.ChangeBy(recipientName, value, creditReply);
    r := credit;
  }

  /** `cbank pay`: two separate ChangeBy calls, a debit of the caller and
      then a credit of the recipient, each through the account's name. The
      pair is not atomic: when the credit fails, the debit stays. */
  method Pay(bank: BankAccountManager, config: Config, caller: string, allowed: bool, realPlayer: bool,
             quoted: string, bare: string, amountText: string, message: string,
             debitReply: StoreReply, creditReply: StoreReply, recipientOnline: bool)
    returns (r: Reply, notice: Option<string>)
    requires bank.Valid()
    modifies bank.accounts
    ensures bank.Valid() && bank.accounts == old(bank.accounts)
    ensures var c := CheckPay(old(bank.Rows()), allowed, realPlayer, caller, TargetIdent(quoted, bare), amountText);
      c.PayRefused? ==> r == c.reply && bank.Rows() == old(bank.Rows()) && notice.None?
    ensures var c := CheckPay(old(bank.Rows()), allowed, realPlayer, caller, TargetIdent(quoted, bare), amountText);
      c.PayProceed? ==>
        Settled(config, old(bank.Rows()), c.sender, c.recipient, c.amount, message, debitReply, creditReply,
                recipientOnline, bank.Rows(), r, notice)
  {
    var check := CheckPay(bank.Rows(), allowed, realPlayer, caller, TargetIdent(quoted, bare), amountText);
    if check.PayRefused? {
      return check.reply, None;
    }
    r, notice := Settle(bank, config, check.sender, check.recipient, check.amount, message,
                        debitReply, creditReply, recipientOnline);
  }

  /** How a payment from the account at `s` to the account at `t` that has
      passed its checks leaves the ledger (`after`), the reply and the
      notice: the debit goes through the sender's name; when it fails,
      nothing else happens; otherwise the credit goes through the
      recipient's name, and only when it succeeds is the payment reported
      and the recipient told. */
  ghost predicate Settled(config: Config, rows: seq<Row>, s: nat, t: nat, v: Int64, message: string,
                          debitReply: StoreReply, creditReply: StoreReply, recipientOnline: bool,
                          after: seq<Row>, r: Reply, notice: Option<string>)
    requires s < |rows| && t < |rows| && v >= 1
  {
    var debitKey := KeyOf(rows[s].name);
    var creditKey := KeyOf(rows[t].name);
    var afterDebit := Changed(rows, debitKey, -v);
    match ChangeOutcome(rows, debitKey, debitReply)
    case Fail(e) => r == ErrorReply(e) && after == afterDebit && notice.None?
    case Pass =>
      && after == Changed(afterDebit, creditKey, v)
      && match ChangeOutcome(afterDebit, creditKey, creditReply)
         case Fail(e) => r == ErrorReply(e) && notice.None?
         case Pass => (r == Paid(v)
           && notice == if recipientOnline then Some(NoticeText(config, rows[s].name, v, message, true)) else None)
  }

  /** The part of `cbank pay` after its checks. */
  method Settle(bank: BankAccountManager, config: Config, s: nat, t: nat, v: Int64, message: string,
                debitReply: StoreReply, creditReply: StoreReply, recipientOnline: bool)
    returns (r: Reply, notice: Option<string>)
    requires bank.Valid() && s < |bank.accounts| && t < |bank.accounts| && v >= 1
    modifies bank.accounts
    ensures bank.Valid() && bank.accounts == old(bank.accounts)
    ensures Settled(config, old(bank.Rows()), s, t, v, message, debitReply, creditReply, recipientOnline,
                    bank.Rows(), r, notice)
  {
    var senderName := bank.accounts[s].accountName;
    var recipientName := bank.accounts[t].accountName;
    var transfer := Transfer(bank, senderName, recipientName, v, debitReply, creditReply);
    if transfer.Fail? {
      return ErrorReply(transfer.error), None;
    }
    r := Paid(v);
    notice := if recipientOnline then Some(NoticeText(config, senderName, v, message, true)) else None;
  }

  // -----------------------------------------------------------------------
  // What a payment does to the ledger

  /** The sum of all balances. */
  function Total(rows: seq<Row>): int
    decreases |rows|
  {
    if rows == [] then 0 else rows[0].balance + Total(rows[1..])
  }

  /** Replacing one row changes the total by the change in its balance. */
  lemma {:induction false} TotalUpdate(rows: seq<Row>, i: nat, r: Row)
    requires i < |rows|
    ensures Total(rows[i := r]) == Total(rows) - rows[i].balance + r.balance
    decreases |rows|
  {
    if i > 0 {
      assert rows[i := r][1..] == rows[1..][i - 1 := r];
      TotalUpdate(rows[1..], i - 1, r);
    } else {
      assert rows[i := r][1..] == rows[1..];
    }
  }

  /** When the debit finds the sender's row and the credit the recipient's
      (distinct rows), and the credit fits in a `long`, a completed payment
      moves exactly the amount: the sender loses it, the recipient gains it,
      no other balance changes and the total is preserved. The checks of
      pay make the debit exact, never clamped. */
  lemma PayConserves(rows: seq<Row>, debitKey: Key, creditKey: Key, s: nat, t: nat, v: int)
    requires s < |rows| && t < |rows| && s != t
    requires FindIn(rows, debitKey) == Some(s) && FindIn(rows, creditKey) == Some(t)
    requires 1 <= v <= rows[s].balance && 0 <= rows[t].balance && rows[t].balance + v <= LongMax
    ensures var after := Changed(Changed(rows, debitKey, -v), creditKey, v);
      && Total(after) == Total(rows)
      && after[s].balance == rows[s].balance - v
      && after[t].balance == rows[t].balance + v
      && forall j :: 0 <= j < |rows| && j != s && j != t ==> after[j] == rows[j]
  {
    var mid := Changed(rows, debitKey, -v);
    ChangedExact(rows, debitKey, s, -v);
    ChangedKeepsLookups(rows, debitKey, -v, creditKey);
    ChangedExact(mid, creditKey, t, v);
    TotalUpdate(rows, s, mid[s]);
    TotalUpdate(mid, t, Changed(mid, creditKey, v)[t]);
  }
}
