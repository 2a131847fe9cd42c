/** The relational store as the core sees it: an accounts table, an append-only
    transactions (ledger) table and units of work over them. A unit of work reads and
    writes its own snapshot of both tables; Commit installs the snapshot and Rollback
    drops it. Which round trips fail, and how, is given by a fault schedule. */
module Store {
  import opened Money
  import opened AppErrors

  /** What the store does with one round trip. */
  datatype Fault = NoFault | SerializationFault | OtherFault

  /** model.Account without its timestamps. */
  datatype Account = Account(accountID: int, balance: Decimal)

  /** model.Transaction without its serial id and timestamp. */
  datatype LedgerEntry = LedgerEntry(sourceID: int, destID: int, amount: Decimal)

  /** Committed tables, the faults still to come and the ids of all lock requests so far. */
  datatype DbState = DbState(
    accounts: map<int, Decimal>,
    ledger: seq<LedgerEntry>,
    faults: seq<Fault>,
    locks: seq<int>)

  /** The result of an operation together with the state it leaves. */
  datatype Outcome = Outcome(err: Option<Error>, state: DbState)

  datatype Result<T> = Success(value: T) | Failure(error: Error)

  /** The fault of the next round trip; once the schedule is used up, none. */
  function Head(q: seq<Fault>): Fault { if q == [] then NoFault else q[0] }

  function Tail(q: seq<Fault>): seq<Fault> { if q == [] then [] else q[1..] }

  /** The error the driver reports for a fault. */
  function FaultError(f: Fault): (e: Error)
    requires f != NoFault
    ensures e.AsAppError().None? && !e.IsNoRows()
    ensures IsSerializationFailure(e) <==> f == SerializationFault
    ensures e.PgCode() != Some(UniqueViolationCode)
  {
    if f == SerializationFault then Pg(SerializationFailureCode) else ConnFailure
  }

  /** No id is listed twice. */
  predicate Distinct(ids: seq<int>)
  {
    forall i, j :: 0 <= i < j < |ids| ==> ids[i] != ids[j]
  }

  /** ids lists every account of the table exactly once. */
  ghost predicate Lists(ids: seq<int>, m: map<int, Decimal>)
  {
    Distinct(ids) && forall k :: k in m <==> k in ids
  }

  /** The sum of the values of the balances of the listed accounts. */
  function Total(m: map<int, Decimal>, ids: seq<int>): real
  {
    if ids == [] then 0.0
    else (if ids[0] in m then Value(m[ids[0]]) else 0.0) + Total(m, ids[1..])
  }

  /** Overwriting one listed balance changes the total by exactly the difference. */
  lemma {:induction false} TotalUpdate(m: map<int, Decimal>, ids: seq<int>, k: int, d: Decimal)
    requires Distinct(ids) && k in m && k in ids
    ensures Total(m[k := d], ids) == Total(m, ids) - Value(m[k]) + Value(d)
  {
    var rest := ids[1..];
    assert Distinct(rest) by {
      forall i, j | 0 <= i < j < |rest| ensures rest[i] != rest[j] { assert ids[i + 1] != ids[j + 1]; }
    }
    if ids[0] == k {
      assert k !in rest by {
        forall j | 0 <= j < |rest| ensures rest[j] != k { assert ids[0] != ids[j + 1]; }
      }
      TotalUnlisted(m, rest, k, d);
    } else {
      TotalUpdate(m, rest, k, d);
    }
  }

  /** Overwriting a balance that is not listed leaves the total alone. */
  lemma {:induction false} TotalUnlisted(m: map<int, Decimal>, ids: seq<int>, k: int, d: Decimal)
    requires k !in ids
    ensures Total(m[k := d], ids) == Total(m, ids)
  {
    if ids != [] {
      TotalUnlisted(m, ids[1..], k, d);
    }
  }

  /** Every balance in the table has a non-negative value. */
  ghost predicate NonNegative(m: map<int, Decimal>)
  {
    forall k :: k in m ==> Value(m[k]) >= 0.0
  }

  /** The Postgres database: committed tables, the fault schedule and a log of lock requests. */
  class Database {
    var accounts: map<int, Decimal>
    var ledger: seq<LedgerEntry>
    var faults: seq<Fault>
    ghost var lockLog: seq<int>

    ghost function State(): DbState
      reads this
    {
      DbState(accounts, ledger, faults, lockLog)
    }

    constructor (accounts: map<int, Decimal>, ledger: seq<LedgerEntry>, faults: seq<Fault>)
      ensures State() == DbState(accounts, ledger, faults, [])
    {
      this.accounts := accounts;
      this.ledger := ledger;
      this.faults := faults;
      lockLog := [];
    }

    /** One round trip: take the next fault off the schedule. */
    method Draw() returns (f: Fault)
      modifies this
      ensures f == Head(old(faults))
      ensures State() == old(State()).(faults := Tail(old(faults)))
    {
      f := Head(faults);
      faults := Tail(faults);
    }

    /** pool.Exec of INSERT INTO accounts: a duplicate key violates the primary key. */
    method InsertAccount(id: int, balance: Decimal) returns (err: Option<Error>)
      modifies this
      ensures var f := Head(old(faults));
        err == if f != NoFault then Some(FaultError(f))
               else if id in old(accounts) then Some(Pg(UniqueViolationCode))
               else None
      ensures State() == old(State()).(faults := Tail(old(faults)),
                                       accounts := if err.None? then old(accounts)[id := balance] else old(accounts))
    {
      var f := Draw();
      if f != NoFault {
        err := Some(FaultError(f));
      } else if id in accounts {
        err := Some(Pg(UniqueViolationCode));
      } else {
        accounts := accounts[id := balance];
        err := None;
      }
    }

    /** pool.QueryRow of SELECT ... FROM accounts WHERE account_id = id. */
    method QueryAccount(id: int) returns (r: Result<Account>)
      modifies this
      ensures var f := Head(old(faults));
        r == if f != NoFault then Failure(FaultError(f))
             else if id in accounts then Success(Account(id, accounts[id]))
             else Failure(NoRows)
      ensures State() == old(State()).(faults := Tail(old(faults)))
    {
      var f := Draw();
      if f != NoFault {
        r := Failure(FaultError(f));
      } else if id in accounts {
        r := Success(Account(id, accounts[id]));
      } else {
        r := Failure(NoRows);
      }
    }

    /** TxManager.BeginTx: a new unit of work over a snapshot of the committed tables. */
    method BeginTx() returns (tx: Tx?, err: Option<Error>)
      modifies this
      ensures var f := Head(old(faults));
        err == if f != NoFault then Some(Wrapped("beginning transaction", FaultError(f))) else None
      ensures err.Some? ==> tx == null
      ensures err.None? ==> tx != null && fresh(tx) && tx.db == this && tx.open
                            && tx.accounts == accounts && tx.ledger == ledger
      ensures State() == old(State()).(faults := Tail(old(faults)))
    {
      var f := Draw();
      if f != NoFault {
        tx, err := null, Some(Wrapped("beginning transaction", FaultError(f)));
      } else {
        tx := new Tx(this);
        err := None;
      }
    }
  }

  /** A pgx.Tx handle: the unit of work's own view of both tables. */
  class Tx {
    const db: Database
    var accounts: map<int, Decimal>
    var ledger: seq<LedgerEntry>
    var open: bool

    constructor (db: Database)
      ensures this.db == db && open
      ensures accounts == db.accounts && ledger == db.ledger
    {
      this.db := db;
      accounts := db.accounts;
      ledger := db.ledger;
      open := true;
    }

    /** tx.QueryRow of SELECT ... FOR UPDATE: the lock request is logged whatever the answer. */
    method QueryForUpdate(id: int) returns (r: Result<Account>)
      requires open
      modifies db
      ensures var f := Head(old(db.faults));
        r == if f != NoFault then Failure(FaultError(f))
             else if id in accounts then Success(Account(id, accounts[id]))
             else Failure(NoRows)
      ensures db.State() == old(db.State()).(faults := Tail(old(db.faults)), locks := old(db.lockLog) + [id])
    {
      var f := db.Draw();
      db.lockLog := db.lockLog + [id];
      if f != NoFault {
        r := Failure(FaultError(f));
      } else if id in accounts {
        r := Success(Account(id, accounts[id]));
      } else {
        r := Failure(NoRows);
      }
    }

    /** tx.Exec of UPDATE accounts SET balance = ... WHERE account_id = id, with the
        command tag's count of affected rows. */
    method ExecUpdateBalance(id: int, balance: Decimal) returns (rowsAffected: nat, err: Option<Error>)
      requires open
      modifies this, db
      ensures var f := Head(old(db.faults));
        err == (if f != NoFault then Some(FaultError(f)) else None)
      ensures rowsAffected == (if err.None? && id in old(accounts) then 1 else 0)
      ensures accounts == if rowsAffected == 1 then old(accounts)[id := balance] else old(accounts)
      ensures ledger == old(ledger) && open
      ensures db.State() == old(db.State()).(faults := Tail(old(db.faults)))
    {
      var f := db.Draw();
      if f != NoFault {
        rowsAffected, err := 0, Some(FaultError(f));
      } else if id in accounts {
        accounts := accounts[id := balance];
        rowsAffected, err := 1, None;
      } else {
        rowsAffected, err := 0, None;
      }
    }

    /** tx.Exec of INSERT INTO transactions: one row at the end of the ledger. */
    method ExecInsertEntry(entry: LedgerEntry) returns (err: Option<Error>)
      requires open
      modifies this, db
      ensures var f := Head(old(db.faults));
        err == (if f != NoFault then Some(FaultError(f)) else None)
      ensures ledger == if err.None? then old(ledger) + [entry] else old(ledger)
      ensures accounts == old(accounts) && open
      ensures db.State() == old(db.State()).(faults := Tail(old(db.faults)))
    {
      var f := db.Draw();
      if f != NoFault {
        err := Some(FaultError(f));
      } else {
        ledger := ledger + [entry];
        err := None;
      }
    }

    /** tx.Commit: installs the snapshot unless the store fails it; the handle is closed either way. */
    method Commit() returns (err: Option<Error>)
      requires open
      modifies this, db
      ensures var f := Head(old(db.faults));
        err == (if f != NoFault then Some(FaultError(f)) else None)
      ensures !open
      ensures db.State() == old(db.State()).(faults := Tail(old(db.faults)),
                                             accounts := if err.None? then old(accounts) else old(db.accounts),
                                             ledger := if err.None? then old(ledger) else old(db.ledger))
    {
      var f := db.Draw();
      if f != NoFault {
        err := Some(FaultError(f));
      } else {
        db.accounts := accounts;
        db.ledger := ledger;
        err := None;
      }
      open := false;
    }

    /** tx.Rollback: drops the snapshot; on a closed handle it does nothing. */
    method Rollback()
      modifies this
      ensures !open
    {
      open := false;
    }
  }
}
