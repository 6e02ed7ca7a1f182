/** The in-memory account ledger (DB/BankAccountManager.cs).

    The manager keeps the list `BankAccounts` of account objects and mirrors
    each change to the SQL store. The store is not modelled: each statement's
    reply (the number of rows it affected, or a fault) is a parameter, and a
    reload receives the rows the store delivered. Random draws are a
    parameter too. */
module Ledger {
  import opened DotNet
  import opened Accounts

  /** The ceiling on the number of accounts. */
  const MaxAccounts: int := 999999

  /** How many random draws GenID makes before giving up. */
  const MaxTries: int := 10000

  /** What the store answered to a statement: the affected-row count, or an
      exception. */
  datatype StoreReply = Affected(count: int) | Fault

  /** The statement `UPDATE BankAccounts SET Balance = @1 WHERE ID = @0` with
      the two values ChangeByAsync binds to it. */
  datatype Update = Update(id: Int32, balance: Int64)

  /** The ways ChangeByAsync fails: no account matches the identifier
      (NullReferenceException), the update did not affect exactly one row
      (InvalidOperationException), or the store raised. */
  datatype ChangeError = AccountMissing | RowCountMismatch | StoreFault

  /** How FindAccount reads an identifier: by numeric ID or by name. */
  datatype Key = ById(id: int) | ByName(name: string)

  /** An identifier that `int.TryParse` accepts is an ID; anything else is a
      name. */
  function KeyOf(ident: string): Key
  {
    match TryParseInt32(ident)
    case Some(n) => ById(n)
    case None => ByName(ident)
  }

  predicate Matches(r: Row, k: Key)
  {
    match k
    case ById(n) => r.id == n
    case ByName(s) => r.name == s
  }

  /** `List.Find`: the position of the first row that matches the key. */
  function FindIn(rows: seq<Row>, k: Key): (r: Option<nat>)
    ensures r.Some? ==> r.value < |rows| && Matches(rows[r.value], k)
    ensures r.Some? ==> forall j :: 0 <= j < r.value ==> !Matches(rows[j], k)
    ensures r.None? ==> forall j :: 0 <= j < |rows| ==> !Matches(rows[j], k)
    decreases |rows|
  {
    if rows == [] then None
    else if Matches(rows[0], k) then Some(0)
    else match FindIn(rows[1..], k)
      case None => None
      case Some(i) => Some(i + 1)
  }

  /** The IDs in use, in list order. */
  function Ids(rows: seq<Row>): seq<int>
  {
    seq(|rows|, i requires 0 <= i < |rows| => rows[i].id)
  }

  /** `Math.Max(0, balance + value)`, where the addition is C#'s unchecked
      64-bit addition. */
  function NewBalance(balance: Int64, value: Int64): (r: Int64)
    ensures r >= 0
  {
    var sum := AddInt64(balance, value);
    if sum < 0 then 0 else sum
  }

  /** The in-memory effect of ChangeByAsync: the first account the
      identifier finds gets NewBalance; nothing else changes. */
  function Changed(rows: seq<Row>, k: Key, value: Int64): (r: seq<Row>)
    ensures |r| == |rows|
  {
    match FindIn(rows, k)
    case None => rows
    case Some(i) => rows[i := rows[i].(balance := NewBalance(rows[i].balance, value))]
  }

  /** The UPDATE that ChangeByAsync sends: the account's ID and the delta
      `value` (not the new balance). */
  function SentUpdate(rows: seq<Row>, k: Key, value: Int64): Option<Update>
  {
    match FindIn(rows, k)
    case None => None
    case Some(i) => Some(Update(rows[i].id, value))
  }

  /** How ChangeByAsync ends, given the store's reply to the UPDATE. */
  function ChangeOutcome(rows: seq<Row>, k: Key, reply: StoreReply): Outcome<ChangeError>
  {
    if FindIn(rows, k).None? then Fail(AccountMissing)
    else match reply
      case Fault => Fail(StoreFault)
      case Affected(n) => if n == 1 then Pass else Fail(RowCountMismatch)
  }

  /** `List.RemoveAll(a => a.AccountName == name)` on values. */
  function Removed(rows: seq<Row>, name: string): seq<Row>
    decreases |rows|
  {
    if rows == [] then []
    else (if rows[0].name == name then [] else [rows[0]]) + Removed(rows[1..], name)
  }

  /** The values of a list of account objects. */
  function RowsOf(objs: seq<BankAccount>): (r: seq<Row>)
    reads objs
    ensures |r| == |objs|
    ensures forall i :: 0 <= i < |objs| ==> r[i] == objs[i].Value()
  {
    seq(|objs|, i reads objs requires 0 <= i < |objs| => objs[i].Value())
  }

  predicate Distinct(objs: seq<BankAccount>)
  {
    forall i, j :: 0 <= i < j < |objs| ==> objs[i] != objs[j]
  }

  /** The objects of `objs` whose name differs from `name`, in order. */
  function Kept(objs: seq<BankAccount>, name: string): seq<BankAccount>
    reads objs
    decreases |objs|
  {
    if objs == [] then []
    else
      var last := objs[|objs| - 1];
      Kept(objs[..|objs| - 1], name) + (if last.accountName != name then [last] else [])
  }

  /** The filtering loop of `List.RemoveAll(a => a.AccountName == name)`:
      the objects whose name differs, in order. */
  method WithoutName(objs: seq<BankAccount>, name: string) returns (kept: seq<BankAccount>)
    ensures kept == Kept(objs, name)
    ensures RowsOf(kept) == Removed(RowsOf(objs), name)
    ensures forall a :: a in kept ==> a in objs
    ensures forall a :: a in objs && a.accountName != name ==> a in kept
    ensures Distinct(objs) ==> Distinct(kept)
  {
    kept := [];
    var i := 0;
    while i < |objs|
      invariant 0 <= i <= |objs|
      invariant kept == Kept(objs[..i], name)
    {
      assert objs[..i + 1][..i] == objs[..i];
      if objs[i].accountName != name {
        kept := kept + [objs[i]];
      }
      i := i + 1;
    }
    assert objs[..i] == objs;
    KeptRows(objs, name);
    KeptMembers(objs, name);
  }

  /** The values of the kept objects are the rows RemoveAll keeps. */
  lemma {:induction false} KeptRows(objs: seq<BankAccount>, name: string)
    ensures RowsOf(Kept(objs, name)) == Removed(RowsOf(objs), name)
    decreases |objs|
  {
    if objs != [] {
      var p := objs[..|objs| - 1];
      var last := objs[|objs| - 1];
      var tail := if last.accountName != name then [last] else [];
      KeptRows(p, name);
      assert objs == p + [last];
      RowsOfAppend(p, last);
      RemovedAppend(RowsOf(p), [last.Value()], name);
      assert RowsOf(tail) == Removed([last.Value()], name);
      RowsOfConcat(Kept(p, name), tail);
    }
  }

  /** Kept holds only objects of the list, holds every object with another
      name, and repeats none when the list repeats none. */
  lemma {:induction false} KeptMembers(objs: seq<BankAccount>, name: string)
    ensures forall a :: a in Kept(objs, name) ==> a in objs
    ensures forall a :: a in objs && a.accountName != name ==> a in Kept(objs, name)
    ensures Distinct(objs) ==> Distinct(Kept(objs, name))
    decreases |objs|
  {
    if objs != [] {
      var p := objs[..|objs| - 1];
      var last := objs[|objs| - 1];
      KeptMembers(p, name);
      assert objs == p + [last];
      if Distinct(objs) && last.accountName != name {
        assert last !in p;
        DistinctAppend(Kept(p, name), last);
      }
    }
  }

  /** RowsOf distributes over concatenation. */
  lemma RowsOfConcat(a: seq<BankAccount>, b: seq<BankAccount>)
    ensures RowsOf(a + b) == RowsOf(a) + RowsOf(b)
  {
  }

  /** Appending an object appends its value. */
  lemma RowsOfAppend(objs: seq<BankAccount>, o: BankAccount)
    ensures RowsOf(objs + [o]) == RowsOf(objs) + [o.Value()]
  {
    assert RowsOf(objs + [o])[|objs|] == o.Value();
  }

  /** Appending an object the list does not hold keeps it free of repeats. */
  lemma DistinctAppend(objs: seq<BankAccount>, o: BankAccount)
    requires Distinct(objs) && o !in objs
    ensures Distinct(objs + [o])
  {
  }

  /** The manager: the list of account objects. */
  class BankAccountManager {
    var accounts: seq<BankAccount>

    /** The list never holds the same object twice: every account in it was
        built by a reload or by a caller that just created it. */
    ghost predicate Valid()
      reads this
    {
      Distinct(accounts)
    }

    /** The values of the accounts, in list order. */
    function Rows(): seq<Row>
      reads this, accounts
    {
      RowsOf(accounts)
    }

    /** The source's constructor also creates the table and starts a reload
        in the background; here the list starts empty and Reload is a
        separate call. */
    constructor ()
      ensures Valid() && accounts == []
    {
      accounts := [];
    }

    /** `FindAccount`: the first account whose ID equals the identifier when
        it parses as an `int`, otherwise the first whose name equals it. */
    function FindAccount(ident: string): (r: Option<BankAccount>)
      reads this, accounts
      ensures r.None? <==> forall j :: 0 <= j < |accounts| ==> !Matches(accounts[j].Value(), KeyOf(ident))
      ensures r.Some? ==>
        exists j :: 0 <= j < |accounts| && accounts[j] == r.value
          && Matches(accounts[j].Value(), KeyOf(ident))
          && forall i :: 0 <= i < j ==> !Matches(accounts[i].Value(), KeyOf(ident))
    {
      match FindIn(Rows(), KeyOf(ident))
      case None => None
      case Some(i) => Some(accounts[i])
    }

    /** `AddAsync`: refused at the ceiling; below it the account is appended
        whatever the store answers, and the result says whether the INSERT
        affected exactly one row. */
    method Add(account: BankAccount, reply: StoreReply) returns (ok: bool)
      requires Valid() && account !in accounts
      modifies this
      ensures Valid()
      ensures |old(accounts)| >= MaxAccounts ==> !ok && accounts == old(accounts)
      ensures |old(accounts)| < MaxAccounts ==>
        accounts == old(accounts) + [account] && Rows() == old(Rows()) + [account.Value()]
      ensures |old(accounts)| < MaxAccounts ==> (ok <==> reply == Affected(1))
    {
      if |accounts| >= MaxAccounts {
        return false;
      }
      accounts := accounts + [account];
      ok := reply == Affected(1);
    }

    /** `ChangeByAsync`: the matched account's balance becomes
        `max(0, balance + value)` before the store is asked, so a failed
        UPDATE leaves the new balance in memory; the UPDATE carries `value`. */
    method ChangeBy(ident: string, value: Int64, reply: StoreReply) returns (r: Outcome<ChangeError>, sent: Option<Update>)
      requires Valid()
      modifies accounts
      ensures Valid() && accounts == old(accounts)
      ensures Rows() == Changed(old(Rows()), KeyOf(ident), value)
      ensures sent == SentUpdate(old(Rows()), KeyOf(ident), value)
      ensures r == ChangeOutcome(old(Rows()), KeyOf(ident), reply)
    {
      var key := KeyOf(ident);
      var found := FindAccount(ident);
      if found.None? {
        return Fail(AccountMissing), None;
      }
      var k := FindIn(Rows(), key).value;
      var account := found.value;
      ghost var before := Rows();
      account.balance := NewBalance(account.balance, value);
      forall j | 0 <= j < |accounts|
        ensures Rows()[j] == before[k := before[k].(balance := account.balance)][j]
      {
        if j != k {
          assert accounts[j] != account;
        }
      }
      sent := Some(Update(account.id, value));
      match reply
      case Fault => r := Fail(StoreFault);
      case Affected(n) => r := if n == 1 then Pass else Fail(RowCountMismatch);
    }

    /** `DelAsync`: every account with exactly that name leaves the list, the
        others stay in order; the result says whether the DELETE affected
        exactly one row. */
    method Delete(name: string, reply: StoreReply) returns (ok: bool)
      requires Valid()
      modifies this
      ensures Valid()
      ensures Rows() == Removed(old(Rows()), name)
      ensures accounts == Kept(old(accounts), name)
      ensures forall a :: a in accounts ==> a in old(accounts)
      ensures forall a :: a in old(accounts) && a.accountName != name ==> a in accounts
      ensures ok <==> reply == Affected(1)
    {
      var kept := WithoutName(accounts, name);
      accounts := kept;
      ok := reply == Affected(1);
    }

    /** `Reload`: the list is cleared and refilled with one new account per
        row the store delivers, in delivery order. If the read faults, the
        rows delivered before the fault stay (the reload is not atomic) and
        the result is false. */
    method Reload(read: seq<Row>, fault: bool) returns (ok: bool)
      modifies this
      ensures Valid() && Rows() == read
      ensures forall a :: a in accounts ==> fresh(a)
      ensures ok <==> !fault
    {
      accounts := [];
      var i := 0;
      while i < |read|
        invariant 0 <= i <= |read|
        invariant Valid() && Rows() == read[..i]
        invariant forall a :: a in accounts ==> fresh(a)
      {
        var account := new BankAccount(read[i].id);
        account.accountName := read[i].name;
        account.balance := read[i].balance;
        assert read[..i + 1] == read[..i] + [read[i]];
        accounts := accounts + [account];
        i := i + 1;
      }
      assert read[..i] == read;
      ok := !fault;
    }

    /** `GenID`: -1 at the ceiling; otherwise the first of at most MaxTries
        draws (each `Random.Next(0, MaxAccounts) + 1`) that no account uses,
        or -2 when every draw collides. */
    method GenID(draws: seq<int>) returns (id: int)
      requires |draws| >= MaxTries
      requires forall k :: 0 <= k < |draws| ==> 0 <= draws[k] < MaxAccounts
      ensures id == -1 <==> |accounts| >= MaxAccounts
      ensures id != -1 ==> id == -2 || (1 <= id <= MaxAccounts && id !in Ids(Rows()))
      ensures id == -2 ==> forall k :: 0 <= k < MaxTries ==> draws[k] + 1 in Ids(Rows())
      ensures id >= 1 ==>
        exists k :: 0 <= k < MaxTries && id == draws[k] + 1
          && forall j :: 0 <= j < k ==> draws[j] + 1 in Ids(Rows())
    {
      var used := Ids(Rows());
      if |accounts| >= MaxAccounts {
        return -1;
      }
      var i := 0;
      while i < MaxTries
        invariant 0 <= i <= MaxTries
        invariant forall k :: 0 <= k < i ==> draws[k] + 1 in used
      {
        var container := draws[i] + 1;
        if container !in used {
          return container;
        }
        i := i + 1;
      }
      return -2;
    }
  }

  // -----------------------------------------------------------------------
  // Properties of the ledger's operations on values

  /** RemoveAll over a concatenation is the concatenation of the two. */
  lemma {:induction false} RemovedAppend(a: seq<Row>, b: seq<Row>, name: string)
    ensures Removed(a + b, name) == Removed(a, name) + Removed(b, name)
    decreases |a|
  {
    if a != [] {
      var head := if a[0].name == name then [] else [a[0]];
      assert (a + b)[0] == a[0];
      assert (a + b)[1..] == a[1..] + b;
      RemovedAppend(a[1..], b, name);
      calc {
        Removed(a + b, name);
        head + Removed(a[1..] + b, name);
        head + (Removed(a[1..], name) + Removed(b, name));
        (head + Removed(a[1..], name)) + Removed(b, name);
        Removed(a, name) + Removed(b, name);
      }
    } else {
      assert a + b == b;
    }
  }

  /** After a delete no row carries the name, every row with another name
      is still there, and nothing new appears. */
  lemma {:induction false} RemovedSpec(rows: seq<Row>, name: string)
    ensures forall r :: r in Removed(rows, name) ==> r in rows && r.name != name
    ensures forall r :: r in rows && r.name != name ==> r in Removed(rows, name)
    ensures FindIn(Removed(rows, name), ByName(name)).None?
    decreases |rows|
  {
    if rows != [] {
      RemovedSpec(rows[1..], name);
    }
  }

  /** Rows that agree on IDs and names are searched alike. */
  lemma {:induction false} FindInSameKeys(a: seq<Row>, b: seq<Row>, k: Key)
    requires |a| == |b|
    requires forall i :: 0 <= i < |a| ==> a[i].id == b[i].id && a[i].name == b[i].name
    ensures FindIn(a, k) == FindIn(b, k)
    decreases |a|
  {
    if a != [] {
      FindInSameKeys(a[1..], b[1..], k);
    }
  }

  /** A balance change never changes which account any key finds. */
  lemma ChangedKeepsLookups(rows: seq<Row>, target: Key, value: Int64, k: Key)
    ensures FindIn(Changed(rows, target, value), k) == FindIn(rows, k)
  {
    FindInSameKeys(Changed(rows, target, value), rows, k);
  }

  /** A change whose sum stays in [0, `long.MaxValue`] replaces the found
      row's balance by that sum and touches nothing else. */
  lemma ChangedExact(rows: seq<Row>, k: Key, i: nat, value: Int64)
    requires FindIn(rows, k) == Some(i)
    requires 0 <= rows[i].balance + value <= LongMax
    ensures Changed(rows, k, value) == rows[i := rows[i].(balance := rows[i].balance + value)]
  {
  }

  /** Clamp to zero: balances that start at zero or above stay there, the
      found account gets `max(0, balance + value)` when the sum fits in a
      `long`, and every other account keeps its value. */
  lemma ChangedSpec(rows: seq<Row>, k: Key, value: Int64)
    ensures |Changed(rows, k, value)| == |rows|
    ensures (forall j :: 0 <= j < |rows| ==> rows[j].balance >= 0) ==>
      forall j :: 0 <= j < |rows| ==> Changed(rows, k, value)[j].balance >= 0
    ensures FindIn(rows, k).None? ==> Changed(rows, k, value) == rows
    ensures FindIn(rows, k).Some? ==>
      var i := FindIn(rows, k).value;
      var sum := rows[i].balance + value;
      && (forall j :: 0 <= j < |rows| && j != i ==> Changed(rows, k, value)[j] == rows[j])
      && Changed(rows, k, value)[i].id == rows[i].id
      && Changed(rows, k, value)[i].name == rows[i].name
      && (LongMin <= sum <= LongMax ==> Changed(rows, k, value)[i].balance == if sum < 0 then 0 else sum)
  {
  }

  /** Two successive changes whose running sums stay non-negative and fit
      in a `long` add up: 50, then +30, then -20 gives 60. */
  lemma ChangesCompose(rows: seq<Row>, k: Key, x: Int64, y: Int64)
    requires FindIn(rows, k).Some?
    requires var b := rows[FindIn(rows, k).value].balance;
      0 <= b + x <= LongMax && 0 <= b + x + y <= LongMax && LongMin <= x + y <= LongMax
    ensures Changed(Changed(rows, k, x), k, y) == Changed(rows, k, x + y)
  {
    var i := FindIn(rows, k).value;
    var b := rows[i].balance;
    var once := Changed(rows, k, x);
    ChangedExact(rows, k, i, x);
    ChangedKeepsLookups(rows, k, x, k);
    ChangedExact(once, k, i, y);
    ChangedExact(rows, k, i, x + y);
  }

  /** An addition that overflows a `long` wraps to a negative sum, which
      the clamp turns into 0: a large enough credit empties the account. */
  lemma OverflowEmptiesAccount(balance: Int64, value: Int64)
    requires balance >= 0 && value >= 0 && balance + value > LongMax
    ensures NewBalance(balance, value) == 0
  {
  }

  /** A reload can bring back a negative balance (the store holds deltas),
      and a debit from it that passes `long.MinValue` wraps to a large
      positive balance, which the clamp keeps: taking enough from such an
      account makes it rich. */
  lemma DebitFromNegativeWraps(balance: Int64, value: Int64)
    requires balance < 0 && value < 0 && balance + value < LongMin
    ensures NewBalance(balance, value) == balance + value + 0x1_0000_0000_0000_0000
    ensures value != LongMin ==> NewBalance(balance, value) > 0
  {
  }

  /** The store is told the delta, so whenever the account held a positive
      balance the stored value and the in-memory balance disagree: a sum
      that fits differs from the delta by the balance, a debit clamped to 0
      had a negative delta, and an overflowing credit (emptied to 0) had a
      positive one. */
  lemma StoreGetsDelta(rows: seq<Row>, k: Key, value: Int64)
    requires FindIn(rows, k).Some?
    requires rows[FindIn(rows, k).value].balance > 0
    ensures var i := FindIn(rows, k).value;
      SentUpdate(rows, k, value).value.balance != Changed(rows, k, value)[i].balance
  {
  }

  /** A name that is not a number and that no earlier account carries finds
      its own account. */
  lemma NameFindsItself(rows: seq<Row>, i: nat)
    requires i < |rows| && TryParseInt32(rows[i].name).None?
    requires forall j :: 0 <= j < i ==> rows[j].name != rows[i].name
    ensures FindIn(rows, KeyOf(rows[i].name)) == Some(i)
  {
    var k := KeyOf(rows[i].name);
    assert k == ByName(rows[i].name);
    assert Matches(rows[i], k);
    var r := FindIn(rows, k);
    assert r.Some? && r.value <= i;
  }

  /** An identifier that is the decimal text of an `int` always means that
      ID, so an account whose name is such a number is never found by its
      name: the lookup yields no account or one with that ID. */
  lemma NumericNameMeansId(rows: seq<Row>, n: Int32)
    ensures KeyOf(LongToString(n)) == ById(n)
    ensures var r := FindIn(rows, KeyOf(LongToString(n)));
      r.None? || rows[r.value].id == n
  {
    ParseRoundTrip(n, IntMin, IntMax);
  }
}
