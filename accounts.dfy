/** The account entity (DB/BankAccount.cs). */
module Accounts {
  import opened DotNet

  /** The value an account holds at one moment: one row of the store's
      `BankAccounts(ID, AccountName, Balance)` table. */
  datatype Row = Row(id: Int32, name: string, balance: Int64)

  /** A bank account. `id` has a private setter in the source, so only the
      constructors assign it (a `const` here); the name and the balance are
      freely settable and are written by the ledger. */
  class BankAccount {
    const id: Int32
    var accountName: string
    var balance: Int64

    /** The account's current value. */
    function Value(): Row
      reads this
    {
      Row(id, accountName, balance)
    }

    /** `BankAccount(int id = 0)`, used when hydrating an account from the
        store: only the ID is set. */
    constructor (id: Int32 := 0)
      ensures Value() == Row(id, "", 0)
    {
      this.id := id;
      accountName := "";
      balance := 0;
    }

    /** `BankAccount(string accountName, long startingMoney = 0)`: the ID is
        the one the ledger's GenID produced, passed in as `generated`. */
    constructor Open(generated: Int32, accountName: string, startingMoney: Int64 := 0)
      ensures Value() == Row(generated, accountName, startingMoney)
    {
      id := generated;
      this.accountName := accountName;
      balance := startingMoney;
    }
  }

  /** The name of the well-known `Server` account. */
  const ServerName: string := "Server"

  /** Builds the object the static `Server` field holds: the sender shown in
      notices when the caller has no account of its own. */
  method Server() returns (server: BankAccount)
    ensures fresh(server)
    ensures server.Value() == Row(0, ServerName, 0)
  {
    server := new BankAccount();
    server.accountName := ServerName;
  }
}
