/** internal/service/account_service.go: the guards on opening and reading an account, then
    delegation to the account repository with the repository's error wrapped. */
module Accounts {
  import opened Money
  import opened AppErrors
  import opened Store
  import opened Repository
  import opened Handler

  const InvalidAccountMessage: string := "Please provide a valid account number"
  const NegativeBalanceMessage: string := "Initial balance cannot be negative"
  const BalancePrecisionMessage: string :=
    "Initial balance can only have up to 2 decimal places (e.g., 100.50)"

  /** The three guards of Create, in their order; None when the request passes them all. */
  function ValidateCreate(accountID: int, initialBalance: Decimal): (r: Option<AppError>)
    ensures r.Some? ==> r.value.ErrValidation?
    ensures r.None? <==> accountID > 0 && Value(initialBalance) >= 0.0 && initialBalance.exp >= -2
    ensures accountID <= 0 ==> r == Some(ErrValidation(InvalidAccountMessage))
    ensures accountID > 0 && Value(initialBalance) < 0.0 ==> r == Some(ErrValidation(NegativeBalanceMessage))
    ensures accountID > 0 && Value(initialBalance) >= 0.0 && initialBalance.exp < -2
            ==> r == Some(ErrValidation(BalancePrecisionMessage))
  {
    if accountID <= 0 then Some(ErrValidation(InvalidAccountMessage))
    else if IsNegative(initialBalance) then Some(ErrValidation(NegativeBalanceMessage))
    else if initialBalance.exp < -2 then Some(ErrValidation(BalancePrecisionMessage))
    else None
  }

  /** AccountService.Create on the store state s. */
  function CreateRun(s: DbState, accountID: int, initialBalance: Decimal): (r: Outcome)
    // a refused request never reaches the store
    ensures ValidateCreate(accountID, initialBalance).Some? ==>
              r == Outcome(Some(App(ValidateCreate(accountID, initialBalance).value)), s)
    ensures r.err.None? <==> ValidateCreate(accountID, initialBalance).None?
                             && accountID !in s.accounts && Head(s.faults) == NoFault
    // success adds exactly the one row; any error leaves both tables as they were
    ensures r.err.None? ==> r.state.accounts == s.accounts[accountID := initialBalance]
                            && r.state.ledger == s.ledger
    ensures r.err.Some? ==> r.state.accounts == s.accounts && r.state.ledger == s.ledger
    // the repository's error keeps its kind through the wrapping
    ensures ValidateCreate(accountID, initialBalance).None? && accountID in s.accounts && Head(s.faults) == NoFault
            ==> r.err.Some? && r.err.value.AsAppError() == Some(ErrConflict("account", accountID))
    ensures ValidateCreate(accountID, initialBalance).None? && Head(s.faults) != NoFault
            ==> r.err.Some? && r.err.value.AsAppError().None?
  {
    var invalid := ValidateCreate(accountID, initialBalance);
    if invalid.Some? then Outcome(Some(App(invalid.value)), s)
    else
      var e := CreateResult(s.accounts, accountID, Head(s.faults));
      Outcome(if e.Some? then Some(Wrapped("creating account", e.value)) else None,
              s.(faults := Tail(s.faults),
                 accounts := if e.None? then s.accounts[accountID := initialBalance] else s.accounts))
  }

  /** The answer of a lookup together with the state it leaves. */
  datatype Lookup = Lookup(result: Result<Account>, state: DbState)

  /** AccountService.GetByID on the store state s. */
  function GetRun(s: DbState, accountID: int): (r: Lookup)
    ensures accountID <= 0 ==> r == Lookup(Failure(App(ErrValidation(InvalidAccountMessage))), s)
    // a lookup never changes either table
    ensures r.state.accounts == s.accounts && r.state.ledger == s.ledger
    ensures r.result.Success? <==> accountID > 0 && accountID in s.accounts && Head(s.faults) == NoFault
    ensures r.result.Success? ==> r.result.value == Account(accountID, s.accounts[accountID])
    ensures accountID > 0 && accountID !in s.accounts && Head(s.faults) == NoFault
            ==> r.result.Failure? && r.result.error.AsAppError() == Some(ErrNotFound("account", accountID))
    ensures accountID > 0 && Head(s.faults) != NoFault
            ==> r.result.Failure? && r.result.error.AsAppError().None?
  {
    if accountID <= 0 then Lookup(Failure(App(ErrValidation(InvalidAccountMessage))), s)
    else
      var q := ReadResult(s.accounts, accountID, Head(s.faults), "querying account");
      Lookup(if q.Failure? then Failure(Wrapped("fetching account", q.error)) else q,
             s.(faults := Tail(s.faults)))
  }

  class AccountService {
    const accountRepo: AccountRepository

    constructor (accountRepo: AccountRepository)
      ensures this.accountRepo == accountRepo
    {
      this.accountRepo := accountRepo;
    }

    method Create(accountID: int, initialBalance: Decimal) returns (err: Option<Error>)
      modifies accountRepo.db
      ensures Outcome(err, accountRepo.db.State()) == CreateRun(old(accountRepo.db.State()), accountID, initialBalance)
    {
      if accountID <= 0 {
        return Some(App(ErrValidation(InvalidAccountMessage)));
      }
      if IsNegative(initialBalance) {
        return Some(App(ErrValidation(NegativeBalanceMessage)));
      }
      if initialBalance.exp < -2 {
        return Some(App(ErrValidation(BalancePrecisionMessage)));
      }

      err := accountRepo.Create(accountID, initialBalance);
      if err.Some? {
        return Some(Wrapped("creating account", err.value));
      }
      return None;
    }

    method GetByID(accountID: int) returns (r: Result<Account>)
      modifies accountRepo.db
      ensures Lookup(r, accountRepo.db.State()) == GetRun(old(accountRepo.db.State()), accountID)
    {
      if accountID <= 0 {
        return Failure(App(ErrValidation(InvalidAccountMessage)));
      }

      r := accountRepo.GetByID(accountID);
      if r.Failure? {
        return Failure(Wrapped("fetching account", r.error));
      }
    }
  }

  /** Opening an account and then reading it back returns the balance it was opened with. */
  lemma CreateThenGet(s: DbState, accountID: int, initialBalance: Decimal)
    requires CreateRun(s, accountID, initialBalance).err.None?
    requires Head(CreateRun(s, accountID, initialBalance).state.faults) == NoFault
    ensures GetRun(CreateRun(s, accountID, initialBalance).state, accountID).result
            == Success(Account(accountID, initialBalance))
  {
  }

  /** Opening an account never brings a negative balance into the table. */
  lemma CreateKeepsNonNegative(s: DbState, accountID: int, initialBalance: Decimal)
    requires NonNegative(s.accounts)
    ensures NonNegative(CreateRun(s, accountID, initialBalance).state.accounts)
  {
  }

  /** Opening an account that already exists is answered 409 CONFLICT with the conflict text. */
  lemma DuplicateCreateResponse(s: DbState, accountID: int, initialBalance: Decimal)
    requires ValidateCreate(accountID, initialBalance).None?
    requires accountID in s.accounts && Head(s.faults) == NoFault
    ensures CreateRun(s, accountID, initialBalance).err.Some?
    ensures MapErrorToResponse(CreateRun(s, accountID, initialBalance).err.value)
            == Response(StatusConflict, CodeConflict, ConflictPrefix + "account" + ConflictSuffix)
  {
    AppErrorResponse(CreateRun(s, accountID, initialBalance).err.value, ErrConflict("account", accountID));
  }

  /** Reading an absent account is answered 404 NOT_FOUND with the not-found text. */
  lemma MissingAccountResponse(s: DbState, accountID: int)
    requires accountID > 0 && accountID !in s.accounts && Head(s.faults) == NoFault
    ensures GetRun(s, accountID).result.Failure?
    ensures MapErrorToResponse(GetRun(s, accountID).result.error)
            == Response(StatusNotFound, CodeNotFound, "account" + NotFoundSuffix)
  {
    AppErrorResponse(GetRun(s, accountID).result.error, ErrNotFound("account", accountID));
  }

  /** The guards on sample balances: zero is accepted at any precision up to cents, and the
      negativity guard comes before the precision guard. */
  lemma CreateGuardExamples()
    ensures ValidateCreate(1, Decimal(0, 0)).None?
    ensures ValidateCreate(1, Decimal(0, -2)).None?
    ensures ValidateCreate(1, Decimal(10050, -2)).None?
    ensures ValidateCreate(0, Decimal(100, 0)) == Some(ErrValidation(InvalidAccountMessage))
    ensures ValidateCreate(1, Decimal(-1005, -3)) == Some(ErrValidation(NegativeBalanceMessage))
    ensures ValidateCreate(1, Decimal(100500, -3)) == Some(ErrValidation(BalancePrecisionMessage))
  {
  }
}
