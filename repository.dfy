/** internal/repository: the SQL wrappers, classifying what the database reports into the
    application's error kinds. Each wrapper makes one round trip; the functions below give
    its answer for the fault that round trip meets. */
module Repository {
  import opened Money
  import opened AppErrors
  import opened Store

  /** AccountRepository.Create: INSERT, with a unique violation reported as a conflict. */
  function CreateResult(accounts: map<int, Decimal>, id: int, f: Fault): (r: Option<Error>)
    ensures r.None? <==> f == NoFault && id !in accounts
    ensures f == NoFault && id in accounts ==> r == Some(App(ErrConflict("account", id)))
    ensures f != NoFault ==> r.Some? && r.value.AsAppError().None?
                             && (IsSerializationFailure(r.value) <==> f == SerializationFault)
    // a store failure is wrapped with what the insert was doing
    ensures f != NoFault ==> r.value.Wrapped? && r.value.context == "inserting account"
  {
    if f != NoFault then Some(Wrapped("inserting account", FaultError(f)))
    else if id in accounts then Some(App(ErrConflict("account", id)))
    else None
  }

  /** GetByID and GetByIDForUpdate: the row, not-found for a missing row, otherwise the
      store's failure wrapped with what the query was doing. */
  function ReadResult(accounts: map<int, Decimal>, id: int, f: Fault, context: string): (r: Result<Account>)
    ensures r.Success? <==> f == NoFault && id in accounts
    ensures r.Success? ==> r.value == Account(id, accounts[id])
    ensures f == NoFault && id !in accounts ==> r == Failure(App(ErrNotFound("account", id)))
    ensures f != NoFault ==> r.Failure? && r.error.AsAppError().None?
                             && (IsSerializationFailure(r.error) <==> f == SerializationFault)
    ensures f != NoFault ==> r.error.Wrapped? && r.error.context == context
  {
    if f != NoFault then Failure(Wrapped(context, FaultError(f)))
    else if id in accounts then Success(Account(id, accounts[id]))
    else Failure(App(ErrNotFound("account", id)))
  }

  /** UpdateBalance: the table with exactly that row's balance replaced, not-found when no
      row was affected. */
  function UpdateResult(accounts: map<int, Decimal>, id: int, balance: Decimal, f: Fault)
    : (r: Result<map<int, Decimal>>)
    ensures r.Success? <==> f == NoFault && id in accounts
    ensures r.Success? ==> r.value.Keys == accounts.Keys && r.value[id] == balance
                           && forall k :: k in accounts && k != id ==> r.value[k] == accounts[k]
    ensures f == NoFault && id !in accounts ==> r == Failure(App(ErrNotFound("account", id)))
    ensures f != NoFault ==> r.Failure? && r.error.AsAppError().None?
                             && (IsSerializationFailure(r.error) <==> f == SerializationFault)
    ensures f != NoFault ==> r.error.Wrapped? && r.error.context == "updating balance"
  {
    if f != NoFault then Failure(Wrapped("updating balance", FaultError(f)))
    else if id !in accounts then Failure(App(ErrNotFound("account", id)))
    else Success(accounts[id := balance])
  }

  /** TransactionRepository.Create: the ledger with one entry appended. */
  function AppendResult(ledger: seq<LedgerEntry>, entry: LedgerEntry, f: Fault)
    : (r: Result<seq<LedgerEntry>>)
    ensures r.Success? <==> f == NoFault
    ensures r.Success? ==> |r.value| == |ledger| + 1 && r.value[..|ledger|] == ledger
                           && r.value[|ledger|] == entry
    ensures r.Failure? ==> r.error.AsAppError().None?
                           && (IsSerializationFailure(r.error) <==> f == SerializationFault)
    ensures r.Failure? ==> r.error.Wrapped? && r.error.context == "inserting transaction"
  {
    if f != NoFault then Failure(Wrapped("inserting transaction", FaultError(f)))
    else Success(ledger + [entry])
  }

  /** A row read back after a successful insert holds the inserted balance, and a second
      insert of the same id conflicts. */
  lemma CreateThenRead(accounts: map<int, Decimal>, id: int, balance: Decimal, f: Fault, context: string)
    requires CreateResult(accounts, id, f).None?
    ensures ReadResult(accounts[id := balance], id, NoFault, context) == Success(Account(id, balance))
    ensures CreateResult(accounts[id := balance], id, NoFault) == Some(App(ErrConflict("account", id)))
  {
  }

  /** A row read back after a successful update holds the new balance, and the update
      touched that row only. */
  lemma UpdateThenRead(accounts: map<int, Decimal>, id: int, balance: Decimal, f: Fault, other: int, context: string)
    requires UpdateResult(accounts, id, balance, f).Success?
    ensures ReadResult(UpdateResult(accounts, id, balance, f).value, id, NoFault, context)
            == Success(Account(id, balance))
    ensures other != id ==> ReadResult(UpdateResult(accounts, id, balance, f).value, other, NoFault, context)
                            == ReadResult(accounts, other, NoFault, context)
  {
  }

  class AccountRepository {
    const db: Database

    constructor (db: Database)
      ensures this.db == db
    {
      this.db := db;
    }

    method Create(accountID: int, initialBalance: Decimal) returns (err: Option<Error>)
      modifies db
      ensures err == CreateResult(old(db.accounts), accountID, Head(old(db.faults)))
      ensures db.State() == old(db.State()).(
        faults := Tail(old(db.faults)),
        accounts := if err.None? then old(db.accounts)[accountID := initialBalance] else old(db.accounts))
    {
      var e := db.InsertAccount(accountID, initialBalance);
      if e.Some? {
        if e.value.PgCode() == Some(UniqueViolationCode) {
          return Some(App(ErrConflict("account", accountID)));
        }
        return Some(Wrapped("inserting account", e.value));
      }
      return None;
    }

    method GetByID(accountID: int) returns (r: Result<Account>)
      modifies db
      ensures r == ReadResult(old(db.accounts), accountID, Head(old(db.faults)), "querying account")
      ensures db.State() == old(db.State()).(faults := Tail(old(db.faults)))
    {
      r := db.QueryAccount(accountID);
      if r.Failure? {
        if r.error.IsNoRows() {
          return Failure(App(ErrNotFound("account", accountID)));
        }
        return Failure(Wrapped("querying account", r.error));
      }
    }

    /** Reads the row through the unit of work, locking it. */
    method GetByIDForUpdate(tx: Tx, accountID: int) returns (r: Result<Account>)
      requires tx.open
      modifies tx.db
      ensures r == ReadResult(tx.accounts, accountID, Head(old(tx.db.faults)), "locking account")
      ensures tx.db.State() == old(tx.db.State()).(faults := Tail(old(tx.db.faults)),
                                                   locks := old(tx.db.lockLog) + [accountID])
    {
      r := tx.QueryForUpdate(accountID);
      if r.Failure? {
        if r.error.IsNoRows() {
          return Failure(App(ErrNotFound("account", accountID)));
        }
        return Failure(Wrapped("locking account", r.error));
      }
    }

    /** Writes the balance through the unit of work. */
    method UpdateBalance(tx: Tx, accountID: int, newBalance: Decimal) returns (err: Option<Error>)
      requires tx.open
      modifies tx, tx.db
      ensures var u := UpdateResult(old(tx.accounts), accountID, newBalance, Head(old(tx.db.faults)));
        && err == (if u.Failure? then Some(u.error) else None)
        && tx.accounts == (if u.Success? then u.value else old(tx.accounts))
      ensures tx.ledger == old(tx.ledger) && tx.open
      ensures tx.db.State() == old(tx.db.State()).(faults := Tail(old(tx.db.faults)))
    {
      var rows, e := tx.ExecUpdateBalance(accountID, newBalance);
      if e.Some? {
        return Some(Wrapped("updating balance", e.value));
      }
      if rows == 0 {
        return Some(App(ErrNotFound("account", accountID)));
      }
      return None;
    }
  }

  class TransactionRepository {
    const db: Database

    constructor (db: Database)
      ensures this.db == db
    {
      this.db := db;
    }

    /** Appends the ledger row through the unit of work. */
    method Create(tx: Tx, sourceID: int, destID: int, amount: Decimal) returns (err: Option<Error>)
      requires tx.open
      modifies tx, tx.db
      ensures var a := AppendResult(old(tx.ledger), LedgerEntry(sourceID, destID, amount), Head(old(tx.db.faults)));
        && err == (if a.Failure? then Some(a.error) else None)
        && tx.ledger == (if a.Success? then a.value else old(tx.ledger))
      ensures tx.accounts == old(tx.accounts) && tx.open
      ensures tx.db.State() == old(tx.db.State()).(faults := Tail(old(tx.db.faults)))
    {
      var e := tx.ExecInsertEntry(LedgerEntry(sourceID, destID, amount));
      if e.Some? {
        return Some(Wrapped("inserting transaction", e.value));
      }
      return None;
    }
  }
}
