/** internal/service/transfer_service.go: validation of a transfer request, one attempt of the
    transfer inside a unit of work, and the bounded retry of attempts that fail with a
    serialization failure. */
module Transfers {
  import opened Money
  import opened AppErrors
  import opened Store
  import opened Repository

  /** minTransferAmount. */
  const MinTransferAmount: Decimal := NewFromInt(1)
  /** maxRetries: the most attempts one Transfer makes. */
  const MaxRetries: nat := 3
  /** config.DefaultMaxTransferAmount, the ceiling the server is configured with. */
  const DefaultMaxTransferAmount: int := 200000

  const InvalidAccountsMessage: string := "Please provide valid account numbers"
  const SameAccountMessage: string :=
    "Cannot transfer to the same account. Please choose a different destination account"
  /** An exponent-0 decimal prints as its integer, so minTransferAmount prints as "1". */
  const BelowMinimumMessage: string := "Transfer amount must be at least $" + IntString(MinTransferAmount.coef)
  const PrecisionMessage: string :=
    "Transfer amount can only have up to 2 decimal places (e.g., 10.50)"
  const HighLoadMessage: string :=
    "unable to complete transfer due to high system load. Please try again in a few moments"

  function AboveMaximumMessage(maxAmount: int): string
  {
    "Transfer amount cannot exceed $" + IntString(maxAmount)
  }

  /** The five guards of Transfer, in their order; None when the request passes them all.
      The ceiling is decimal.NewFromInt(maxAmount). */
  function ValidateTransfer(sourceID: int, destID: int, amount: Decimal, maxAmount: int): (r: Option<AppError>)
    ensures r.Some? ==> r.value.ErrValidation?
    ensures r.None? <==> sourceID > 0 && destID > 0 && sourceID != destID
                         && 1.0 <= Value(amount) <= maxAmount as real && amount.exp >= -2
    ensures sourceID <= 0 || destID <= 0 ==> r == Some(ErrValidation(InvalidAccountsMessage))
    ensures sourceID > 0 && destID > 0 && sourceID == destID ==> r == Some(ErrValidation(SameAccountMessage))
    ensures sourceID > 0 && destID > 0 && sourceID != destID && Value(amount) < 1.0
            ==> r == Some(ErrValidation(BelowMinimumMessage))
    ensures sourceID > 0 && destID > 0 && sourceID != destID && 1.0 <= Value(amount) && Value(amount) > maxAmount as real
            ==> r == Some(ErrValidation(AboveMaximumMessage(maxAmount)))
    ensures sourceID > 0 && destID > 0 && sourceID != destID && 1.0 <= Value(amount) <= maxAmount as real
            && amount.exp < -2
            ==> r == Some(ErrValidation(PrecisionMessage))
  {
    if sourceID <= 0 || destID <= 0 then Some(ErrValidation(InvalidAccountsMessage))
    else if sourceID == destID then Some(ErrValidation(SameAccountMessage))
    else if LessThan(amount, MinTransferAmount) then Some(ErrValidation(BelowMinimumMessage))
    else if GreaterThan(amount, NewFromInt(maxAmount)) then Some(ErrValidation(AboveMaximumMessage(maxAmount)))
    else if amount.exp < -2 then Some(ErrValidation(PrecisionMessage))
    else None
  }

  /** The reference effect of a transfer on the balances: the source loses the amount and the
      destination gains it, both computed from the balances read before either write. */
  function Moved(accounts: map<int, Decimal>, sourceID: int, destID: int, amount: Decimal): map<int, Decimal>
    requires sourceID in accounts && destID in accounts
  {
    accounts[sourceID := Sub(accounts[sourceID], amount)][destID := Add(accounts[destID], amount)]
  }

  /** The id locked first, and the one locked second. */
  function Lower(a: int, b: int): int { Min(a, b) }
  function Upper(a: int, b: int): int { if a > b then a else b }

  /** executeTransfer on the store state s: begin, lock the lower then the higher id, check
      funds, write both balances, append the ledger entry, commit. Every failure after the
      begin rolls the unit of work back, so only the faults drawn and the lock requests made
      survive it. */
  function ExecuteAttempt(s: DbState, sourceID: int, destID: int, amount: Decimal): (r: Outcome)
    // atomicity: a failed attempt leaves both tables exactly as they were
    ensures r.err.Some? ==> r.state.accounts == s.accounts && r.state.ledger == s.ledger
    // a successful attempt moves the amount once and appends exactly one ledger entry
    ensures r.err.None? ==> sourceID in s.accounts && destID in s.accounts
                            && !LessThan(s.accounts[sourceID], amount)
                            && r.state.accounts == Moved(s.accounts, sourceID, destID, amount)
                            && r.state.ledger == s.ledger + [LedgerEntry(sourceID, destID, amount)]
    // lock order: the requests made are a prefix of [lower id, higher id], and all of it on success
    ensures s.locks <= r.state.locks
            && r.state.locks[|s.locks|..] <= [Lower(sourceID, destID), Upper(sourceID, destID)]
    ensures r.err.None? ==> r.state.locks == s.locks + [Lower(sourceID, destID), Upper(sourceID, destID)]
    // insufficient funds is reported for the source, and only when its balance is below the amount
    ensures r.err == Some(App(ErrInsufficientBalance(sourceID))) ==>
              sourceID in s.accounts && LessThan(s.accounts[sourceID], amount)
    ensures r.err.Some? ==> !r.err.value.Plain?
  {
    var f0, q1 := Head(s.faults), Tail(s.faults);
    if f0 != NoFault then
      Outcome(Some(Wrapped("starting transaction", Wrapped("beginning transaction", FaultError(f0)))),
              s.(faults := q1))
    else
      var firstID := if sourceID > destID then destID else sourceID;
      var secondID := if sourceID > destID then sourceID else destID;
      var first, q2, l1 := ReadResult(s.accounts, firstID, Head(q1), "locking account"), Tail(q1), s.locks + [firstID];
      if first.Failure? then Outcome(Some(first.error), s.(faults := q2, locks := l1))
      else
        var second, q3, l2 := ReadResult(s.accounts, secondID, Head(q2), "locking account"), Tail(q2), l1 + [secondID];
        assert l2 == s.locks + [Lower(sourceID, destID), Upper(sourceID, destID)];
        if second.Failure? then Outcome(Some(second.error), s.(faults := q3, locks := l2))
        else
          var sourceAccount := if sourceID != firstID then second.value else first.value;
          var destAccount := if sourceID != firstID then first.value else second.value;
          if LessThan(sourceAccount.balance, amount) then
            Outcome(Some(App(ErrInsufficientBalance(sourceID))), s.(faults := q3, locks := l2))
          else
            var newSourceBal, newDestBal := Sub(sourceAccount.balance, amount), Add(destAccount.balance, amount);
            var u1, q4 := UpdateResult(s.accounts, sourceID, newSourceBal, Head(q3)), Tail(q3);
            if u1.Failure? then Outcome(Some(u1.error), s.(faults := q4, locks := l2))
            else
              var u2, q5 := UpdateResult(u1.value, destID, newDestBal, Head(q4)), Tail(q4);
              if u2.Failure? then Outcome(Some(u2.error), s.(faults := q5, locks := l2))
              else
                var a, q6 := AppendResult(s.ledger, LedgerEntry(sourceID, destID, amount), Head(q5)), Tail(q5);
                if a.Failure? then Outcome(Some(a.error), s.(faults := q6, locks := l2))
                else
                  var fc, q7 := Head(q6), Tail(q6);
                  if fc != NoFault then
                    Outcome(Some(Wrapped("committing transfer", FaultError(fc))), s.(faults := q7, locks := l2))
                  else
                    Outcome(None, DbState(u2.value, a.value, q7, l2))
  }

  /** The result of a run of attempts: the error Transfer returns, the store it leaves and
      the error of each attempt made, in order. */
  datatype Run = Run(err: Option<Error>, state: DbState, attempts: seq<Option<Error>>)

  predicate Retryable(e: Option<Error>)
  {
    e.Some? && IsSerializationFailure(e.value)
  }

  /** The retry loop of Transfer with n attempts still allowed. */
  function RetryLoop(s: DbState, sourceID: int, destID: int, amount: Decimal, n: nat): (r: Run)
    // retry bound
    ensures |r.attempts| <= n && (n > 0 <==> |r.attempts| > 0)
    // a serialization failure never reaches the caller
    ensures !Retryable(r.err)
    // failures, retried or not, leave both tables unchanged; success is one transfer
    ensures r.err.Some? ==> r.state.accounts == s.accounts && r.state.ledger == s.ledger
    ensures r.err.None? ==> sourceID in s.accounts && destID in s.accounts
                            && r.state.accounts == Moved(s.accounts, sourceID, destID, amount)
                            && r.state.ledger == s.ledger + [LedgerEntry(sourceID, destID, amount)]
    decreases n
  {
    if n == 0 then
      Run(Some(Plain(HighLoadMessage)), s, [])
    else
      var o := ExecuteAttempt(s, sourceID, destID, amount);
      if Retryable(o.err) then
        var rest := RetryLoop(o.state, sourceID, destID, amount, n - 1);
        Run(rest.err, rest.state, [o.err] + rest.attempts)
      else
        Run(o.err, o.state, [o.err])
  }

  /** After a retryable attempt the loop starts over on the state that attempt left. */
  lemma RetryStep(s: DbState, s1: DbState, e: Error, sourceID: int, destID: int, amount: Decimal, n: nat)
    requires n > 0 && ExecuteAttempt(s, sourceID, destID, amount) == Outcome(Some(e), s1)
    requires IsSerializationFailure(e)
    ensures RetryLoop(s, sourceID, destID, amount, n)
            == var rest := RetryLoop(s1, sourceID, destID, amount, n - 1);
               Run(rest.err, rest.state, [Some(e)] + rest.attempts)
  {
  }

  /** An attempt that succeeds or fails otherwise than by a serialization failure ends the loop. */
  lemma RetryStop(s: DbState, o: Outcome, sourceID: int, destID: int, amount: Decimal, n: nat)
    requires n > 0 && ExecuteAttempt(s, sourceID, destID, amount) == o
    requires !Retryable(o.err)
    ensures RetryLoop(s, sourceID, destID, amount, n) == Run(o.err, o.state, [o.err])
  {
  }

  /** Transfer: the guards, then at most MaxRetries attempts. */
  function TransferRun(s: DbState, sourceID: int, destID: int, amount: Decimal, maxAmount: int): (r: Run)
    // an invalid request is refused before any unit of work begins
    ensures r.attempts == [] <==> ValidateTransfer(sourceID, destID, amount, maxAmount).Some?
    ensures r.attempts == [] ==> r.state == s
                                 && r.err == Some(App(ValidateTransfer(sourceID, destID, amount, maxAmount).value))
    ensures |r.attempts| <= MaxRetries
    ensures !Retryable(r.err)
    ensures r.err.Some? ==> r.state.accounts == s.accounts && r.state.ledger == s.ledger
    ensures r.err.None? ==> ValidateTransfer(sourceID, destID, amount, maxAmount).None?
                            && sourceID in s.accounts && destID in s.accounts
                            && r.state.accounts == Moved(s.accounts, sourceID, destID, amount)
                            && r.state.ledger == s.ledger + [LedgerEntry(sourceID, destID, amount)]
  {
    var v := ValidateTransfer(sourceID, destID, amount, maxAmount);
    if v.Some? then Run(Some(App(v.value)), s, [])
    else RetryLoop(s, sourceID, destID, amount, MaxRetries)
  }

  class TransferService {
    const accountRepo: AccountRepository
    const transactionRepo: TransactionRepository
    const txBeginner: Database
    /** TransferService stores it as decimal.NewFromInt(maxTransferAmount). */
    const maxTransferAmount: int

    constructor (accountRepo: AccountRepository, transactionRepo: TransactionRepository,
                 txBeginner: Database, maxTransferAmount: int)
      ensures this.accountRepo == accountRepo && this.transactionRepo == transactionRepo
      ensures this.txBeginner == txBeginner && this.maxTransferAmount == maxTransferAmount
    {
      this.accountRepo := accountRepo;
      this.transactionRepo := transactionRepo;
      this.txBeginner := txBeginner;
      this.maxTransferAmount := maxTransferAmount;
    }

    method Transfer(sourceID: int, destID: int, amount: Decimal) returns (err: Option<Error>)
      modifies txBeginner
      ensures var r := TransferRun(old(txBeginner.State()), sourceID, destID, amount, maxTransferAmount);
        err == r.err && txBeginner.State() == r.state
    {
      var invalid := ValidateTransfer(sourceID, destID, amount, maxTransferAmount);
      if invalid.Some? {
        return Some(App(invalid.value));
      }
      ghost var s0 := txBeginner.State();
      ghost var attempts: seq<Option<Error>> := [];
      var lastErr: Option<Error> := None;
      for i := 0 to MaxRetries
        invariant var rest := RetryLoop(txBeginner.State(), sourceID, destID, amount, MaxRetries - i);
          RetryLoop(s0, sourceID, destID, amount, MaxRetries) == Run(rest.err, rest.state, attempts + rest.attempts)
      {
        ghost var before := txBeginner.State();
        lastErr := ExecuteTransfer(sourceID, destID, amount);
        if lastErr.None? {
          RetryStop(before, Outcome(lastErr, txBeginner.State()), sourceID, destID, amount, MaxRetries - i);
          return None;
        }
        if lastErr.value.PgCode() == Some(SerializationFailureCode) {
          RetryStep(before, txBeginner.State(), lastErr.value, sourceID, destID, amount, MaxRetries - i);
          ghost var rest := RetryLoop(txBeginner.State(), sourceID, destID, amount, MaxRetries - i - 1);
          assert attempts + ([lastErr] + rest.attempts) == (attempts + [lastErr]) + rest.attempts;
          attempts := attempts + [lastErr];
          continue;
        }
        RetryStop(before, Outcome(lastErr, txBeginner.State()), sourceID, destID, amount, MaxRetries - i);
        return lastErr;
      }
      return Some(Plain(HighLoadMessage));
    }

    /** One attempt; the deferred tx.Rollback is the Rollback before each return. */
    method ExecuteTransfer(sourceID: int, destID: int, amount: Decimal) returns (err: Option<Error>)
      modifies txBeginner
      ensures Outcome(err, txBeginner.State()) == ExecuteAttempt(old(txBeginner.State()), sourceID, destID, amount)
    {
      var tx, e := txBeginner.BeginTx();
      if e.Some? {
        return Some(Wrapped("starting transaction", e.value));
      }

      var firstID, secondID := sourceID, destID;
      if sourceID > destID {
        firstID, secondID := destID, sourceID;
      }

      var first := accountRepo.GetByIDForUpdate(tx, firstID);
      if first.Failure? {
        tx.Rollback();
        return Some(first.error);
      }
      var second := accountRepo.GetByIDForUpdate(tx, secondID);
      if second.Failure? {
        tx.Rollback();
        return Some(second.error);
      }

      var sourceAccount, destAccount := first.value, second.value;
      if sourceID != firstID {
        sourceAccount, destAccount := second.value, first.value;
      }

      if LessThan(sourceAccount.balance, amount) {
        tx.Rollback();
        return Some(App(ErrInsufficientBalance(sourceID)));
      }

      var newSourceBal := Sub(sourceAccount.balance, amount);
      var newDestBal := Add(destAccount.balance, amount);

      err := accountRepo.UpdateBalance(tx, sourceID, newSourceBal);
      if err.Some? {
        tx.Rollback();
        return;
      }
      err := accountRepo.UpdateBalance(tx, destID, newDestBal);
      if err.Some? {
        tx.Rollback();
        return;
      }

      err := transactionRepo.Create(tx, sourceID, destID, amount);
      if err.Some? {
        tx.Rollback();
        return;
      }

      e := tx.Commit();
      tx.Rollback();
      if e.Some? {
        return Some(Wrapped("committing transfer", e.value));
      }
      return None;
    }
  }
}
