/** The audit-log writer (BankLog.cs): one line per event, appended to a
    file that stays open for the process's lifetime. The clock readings are
    parameters (`stamp`), already formatted as the source formats them. */
module Log {
  import opened DotNet
  import opened Settings
  import opened Accounts
  import Plugin

  /** `GetLogName()`: the file name for a log opened at `stamp` (the clock
      formatted as yyyy-MM-dd_HH-mm-ss). */
  function LogName(stamp: string): (r: string)
    ensures |r| == |stamp| + 12
    ensures r[..8] == "BankLog_" && r[8..|r| - 4] == stamp && r[|r| - 4..] == ".log"
  {
    "BankLog_" + stamp + ".log"
  }

  predicate EndsWithPeriod(s: string)
  {
    |s| > 0 && s[|s| - 1] == '.'
  }

  /** The line `Write` builds: the time stamp, " - ", the data, and a '.'
      when the text built so far does not already end with one. */
  function Line(stamp: string, data: string): (r: string)
    ensures |r| > |stamp| + 3 && r[..|stamp| + 3] == stamp + " - "
    ensures EndsWithPeriod(r)
  {
    var built := stamp + " - " + data;
    if built[|built| - 1] != '.' then built + "." else built
  }

  /** A line is the stamp, " - ", the data unchanged, and one '.' exactly
      when the data does not already end with one; so every line ends with
      a period, data ending with '.' gets no second one, and empty data
      gives "<stamp> - .". */
  lemma LineSpec(stamp: string, data: string)
    ensures Line(stamp, data) == stamp + " - " + data + (if EndsWithPeriod(data) then "" else ".")
    ensures EndsWithPeriod(Line(stamp, data))
    ensures Line(stamp, "") == stamp + " - ."
  {
    var built := stamp + " - " + data;
    if data == [] {
      assert built == stamp + " - ";
    } else {
      assert built[|built| - 1] == data[|data| - 1];
    }
  }

  /** The failure of a write: `BankLogException` wrapping the cause. */
  datatype LogError = BankLogException(cause: string)

  /** ` with the message "<message>"` for a message that is not blank. */
  function MessageSuffix(message: string): string
  {
    if IsNullOrWhiteSpace(message) then "" else " with the message \"" + message + "\""
  }

  /** The text `Gain` logs: "<name> received <money>[ with the message ...]". */
  function GainText(config: Config, name: string, amount: Int64, message: string): string
  {
    name + " received " + Plugin.FormatMoney(config, amount) + MessageSuffix(message)
  }

  /** The text `Loss` logs: "<name> lost <money>[ with the message ...]". */
  function LossText(config: Config, name: string, amount: Int64, message: string): string
  {
    name + " lost " + Plugin.FormatMoney(config, amount) + MessageSuffix(message)
  }

  /** The text `Payment` logs: "<sender> paid <money> to <receiver>[ with the message ...]". */
  function PaymentText(config: Config, sender: string, receiver: string, amount: Int64, message: string): string
  {
    sender + " paid " + Plugin.FormatMoney(config, amount) + " to " + receiver + MessageSuffix(message)
  }

  /** A message that is not blank ends the text with a quote, so its line
      gets exactly one period after the closing quote; a blank message adds
      nothing. */
  lemma MessageEndsLine(stamp: string, text: string, message: string)
    ensures IsNullOrWhiteSpace(message) ==> text + MessageSuffix(message) == text
    ensures !IsNullOrWhiteSpace(message) ==>
      Line(stamp, text + MessageSuffix(message)) == stamp + " - " + text + " with the message \"" + message + "\"."
  {
    if !IsNullOrWhiteSpace(message) {
      var quoted := " with the message \"" + message + "\"";
      var data := text + quoted;
      assert MessageSuffix(message) == quoted;
      assert data[|data| - 1] == '"';
      LineSpec(stamp, data);
      assert stamp + " - " + data + "." == stamp + " - " + text + quoted + ".";
    }
  }

  /** The writer: `lines` is what the log file holds, one entry per line. */
  class BankLog {
    var lines: seq<string>

    /** The file is opened for appending, so lines already in it stay. */
    constructor (existing: seq<string>)
      ensures lines == existing
    {
      lines := existing;
    }

    /** `Write`: append one line after every earlier line; a failure of the
        underlying writer (`fault`) surfaces as BankLogException wrapping
        it and adds no line. */
    method Write(stamp: string, data: string, fault: Option<string>) returns (r: Outcome<LogError>)
      modifies this
      ensures old(lines) <= lines && |lines| <= |old(lines)| + 1
      ensures fault.None? ==> r == Pass && lines == old(lines) + [Line(stamp, data)]
      ensures fault.Some? ==> r == Fail(BankLogException(fault.value)) && lines == old(lines)
    {
      if fault.Some? {
        return Fail(BankLogException(fault.value));
      }
      var built := stamp + " - " + data;
      if built[|built| - 1] != '.' {
        built := built + ".";
      }
      lines := lines + [built];
      r := Pass;
    }

    /** `Gain`: log that an account received an amount. */
    method Gain(stamp: string, config: Config, account: BankAccount, amount: Int64, message: string,
                fault: Option<string>)
      returns (r: Outcome<LogError>)
      modifies this
      ensures fault.None? ==>
        r == Pass && lines == old(lines) + [Line(stamp, GainText(config, account.accountName, amount, message))]
      ensures fault.Some? ==> r.Fail? && lines == old(lines)
    {
      r := Write(stamp, GainText(config, account.accountName, amount, message), fault);
    }

    /** `Loss`: log that an account lost an amount. */
    method Loss(stamp: string, config: Config, account: BankAccount, amount: Int64, message: string,
                fault: Option<string>)
      returns (r: Outcome<LogError>)
      modifies this
      ensures fault.None? ==>
        r == Pass && lines == old(lines) + [Line(stamp, LossText(config, account.accountName, amount, message))]
      ensures fault.Some? ==> r.Fail? && lines == old(lines)
    {
      r := Write(stamp, LossText(config, account.accountName, amount, message), fault);
    }

    /** `Payment`: log a transfer between two accounts. */
    method Payment(stamp: string, config: Config, sender: BankAccount, receiver: BankAccount, amount: Int64,
                   message: string, fault: Option<string>)
      returns (r: Outcome<LogError>)
      modifies this
      ensures fault.None? ==>
        r == Pass
        && lines == old(lines) + [Line(stamp, PaymentText(config, sender.accountName, receiver.accountName, amount, message))]
      ensures fault.Some? ==> r.Fail? && lines == old(lines)
    {
      r := Write(stamp, PaymentText(config, sender.accountName, receiver.accountName, amount, message), fault);
    }
  }
}
