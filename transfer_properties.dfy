/** What a transfer promises, stated over the pure model of internal/service/transfer_service.go:
    the effect on balances, conservation of the total, non-negativity and the retry rules,
    with sample requests. */
module TransferProperties {
  import opened Money
  import opened AppErrors
  import opened Store
  import opened Handler
  import opened Transfers

  /** The reference effect, balance by balance: the source loses the amount, the destination
      gains it, every other account and the set of accounts are untouched. */
  lemma MovedEffect(accounts: map<int, Decimal>, sourceID: int, destID: int, amount: Decimal)
    requires sourceID in accounts && destID in accounts && sourceID != destID
    ensures Moved(accounts, sourceID, destID, amount).Keys == accounts.Keys
    ensures Value(Moved(accounts, sourceID, destID, amount)[sourceID]) == Value(accounts[sourceID]) - Value(amount)
    ensures Value(Moved(accounts, sourceID, destID, amount)[destID]) == Value(accounts[destID]) + Value(amount)
    ensures forall k :: k in accounts && k != sourceID && k != destID ==>
              Moved(accounts, sourceID, destID, amount)[k] == accounts[k]
  {
  }

  /** Moving money between two listed accounts keeps the sum of all balances. */
  lemma MovedConserves(accounts: map<int, Decimal>, ids: seq<int>, sourceID: int, destID: int, amount: Decimal)
    requires Lists(ids, accounts)
    requires sourceID in accounts && destID in accounts && sourceID != destID
    ensures Lists(ids, Moved(accounts, sourceID, destID, amount))
    ensures Total(Moved(accounts, sourceID, destID, amount), ids) == Total(accounts, ids)
  {
    var m1 := accounts[sourceID := Sub(accounts[sourceID], amount)];
    TotalUpdate(accounts, ids, sourceID, Sub(accounts[sourceID], amount));
    TotalUpdate(m1, ids, destID, Add(accounts[destID], amount));
  }

  /** A move the funds check let through keeps every balance non-negative. */
  lemma MovedNonNegative(accounts: map<int, Decimal>, sourceID: int, destID: int, amount: Decimal)
    requires NonNegative(accounts) && Value(amount) >= 0.0
    requires sourceID in accounts && destID in accounts && sourceID != destID
    requires !LessThan(accounts[sourceID], amount)
    ensures NonNegative(Moved(accounts, sourceID, destID, amount))
  {
    MovedEffect(accounts, sourceID, destID, amount);
  }

  /** A successful transfer of the whole source balance leaves the source at zero. */
  lemma WholeBalanceLeavesZero(s: DbState, sourceID: int, destID: int, amount: Decimal, maxAmount: int)
    requires TransferRun(s, sourceID, destID, amount, maxAmount).err.None?
    requires Value(s.accounts[sourceID]) == Value(amount)
    ensures Value(TransferRun(s, sourceID, destID, amount, maxAmount).state.accounts[sourceID]) == 0.0
  {
    MovedEffect(s.accounts, sourceID, destID, amount);
  }

  /** With no store failure, a valid transfer of exactly the source's balance succeeds at its
      first attempt and leaves the source at zero. */
  lemma WholeBalanceTransferSucceeds(s: DbState, sourceID: int, destID: int, amount: Decimal, maxAmount: int)
    requires s.faults == []
    requires ValidateTransfer(sourceID, destID, amount, maxAmount).None?
    requires sourceID in s.accounts && destID in s.accounts
    requires Value(s.accounts[sourceID]) == Value(amount)
    ensures TransferRun(s, sourceID, destID, amount, maxAmount).err.None?
    ensures |TransferRun(s, sourceID, destID, amount, maxAmount).attempts| == 1
    ensures Value(TransferRun(s, sourceID, destID, amount, maxAmount).state.accounts[sourceID]) == 0.0
  {
    FaultFreeAttempt(s, sourceID, destID, amount);
    RetryStop(s, ExecuteAttempt(s, sourceID, destID, amount), sourceID, destID, amount, MaxRetries);
    WholeBalanceLeavesZero(s, sourceID, destID, amount, maxAmount);
  }

  /** Transfer, whatever its outcome and however many attempts it makes, keeps the sum of
      all balances and the set of accounts. */
  lemma TransferConserves(s: DbState, ids: seq<int>, sourceID: int, destID: int, amount: Decimal, maxAmount: int)
    requires Lists(ids, s.accounts)
    ensures Lists(ids, TransferRun(s, sourceID, destID, amount, maxAmount).state.accounts)
    ensures Total(TransferRun(s, sourceID, destID, amount, maxAmount).state.accounts, ids) == Total(s.accounts, ids)
  {
    if TransferRun(s, sourceID, destID, amount, maxAmount).err.None? {
      MovedConserves(s.accounts, ids, sourceID, destID, amount);
    }
  }

  /** Transfer never makes a balance negative. */
  lemma TransferKeepsNonNegative(s: DbState, sourceID: int, destID: int, amount: Decimal, maxAmount: int)
    requires NonNegative(s.accounts)
    ensures NonNegative(TransferRun(s, sourceID, destID, amount, maxAmount).state.accounts)
  {
    if TransferRun(s, sourceID, destID, amount, maxAmount).err.None? {
      LastAttemptFundsChecked(s, sourceID, destID, amount, MaxRetries);
      MovedNonNegative(s.accounts, sourceID, destID, amount);
    }
  }

  /** A successful run passed the funds check against the balance it started from: retried
      attempts change no balance. */
  lemma {:induction false} LastAttemptFundsChecked(s: DbState, sourceID: int, destID: int, amount: Decimal, n: nat)
    requires RetryLoop(s, sourceID, destID, amount, n).err.None?
    ensures sourceID in s.accounts && !LessThan(s.accounts[sourceID], amount)
    decreases n
  {
    var o := ExecuteAttempt(s, sourceID, destID, amount);
    if Retryable(o.err) {
      RetryStep(s, o.state, o.err.value, sourceID, destID, amount, n);
      LastAttemptFundsChecked(o.state, sourceID, destID, amount, n - 1);
    } else {
      RetryStop(s, o, sourceID, destID, amount, n);
    }
  }

  /** Every attempt but the last ended in a serialization failure. */
  predicate RetriedOnlyOnSerialization(attempts: seq<Option<Error>>)
  {
    forall i :: 0 <= i < |attempts| - 1 ==> Retryable(attempts[i])
  }

  /** What a run of at most n attempts returns is decided by its last attempt: its success,
      its own error when that is not a serialization failure, and otherwise, after all n
      attempts, the plain high-load error. */
  predicate DecidedByLastAttempt(r: Run, n: nat)
  {
    && (r.err.None? <==> |r.attempts| > 0 && r.attempts[|r.attempts| - 1].None?)
    && (|r.attempts| > 0 && r.attempts[|r.attempts| - 1].Some? && !Retryable(r.attempts[|r.attempts| - 1])
        ==> r.err == r.attempts[|r.attempts| - 1])
    && (r.attempts == [] || Retryable(r.attempts[|r.attempts| - 1])
        ==> r.err == Some(Plain(HighLoadMessage)) && |r.attempts| == n)
  }

  /** Putting a serialization failure in front of a run keeps both facts about it. */
  lemma RetriedAttemptFirst(e: Option<Error>, rest: Run, n: nat)
    requires Retryable(e) && n > 0
    requires RetriedOnlyOnSerialization(rest.attempts) && DecidedByLastAttempt(rest, n - 1)
    ensures RetriedOnlyOnSerialization([e] + rest.attempts)
    ensures DecidedByLastAttempt(Run(rest.err, rest.state, [e] + rest.attempts), n)
  {
    var attempts := [e] + rest.attempts;
    forall i | 0 <= i < |attempts| - 1 ensures Retryable(attempts[i]) {
      if i > 0 {
        assert attempts[i] == rest.attempts[i - 1];
      }
    }
    if rest.attempts != [] {
      assert attempts[|attempts| - 1] == rest.attempts[|rest.attempts| - 1];
    }
  }

  /** Only a serialization failure is followed by another attempt, and the loop's answer is
      the one its last attempt decides. */
  lemma {:induction false} RetryOutcome(s: DbState, sourceID: int, destID: int, amount: Decimal, n: nat)
    ensures RetriedOnlyOnSerialization(RetryLoop(s, sourceID, destID, amount, n).attempts)
    ensures DecidedByLastAttempt(RetryLoop(s, sourceID, destID, amount, n), n)
    decreases n
  {
    if n > 0 {
      var o := ExecuteAttempt(s, sourceID, destID, amount);
      if Retryable(o.err) {
        RetryOutcome(o.state, sourceID, destID, amount, n - 1);
        RetriedAttemptFirst(o.err, RetryLoop(o.state, sourceID, destID, amount, n - 1), n);
      }
    }
  }

  /** With no store failures an attempt's answer depends on the table alone: a missing
      account is reported in lock order, then insufficient funds, else the move succeeds. */
  lemma FaultFreeAttempt(s: DbState, sourceID: int, destID: int, amount: Decimal)
    requires s.faults == []
    ensures Lower(sourceID, destID) !in s.accounts ==>
              ExecuteAttempt(s, sourceID, destID, amount).err
              == Some(App(ErrNotFound("account", Lower(sourceID, destID))))
    ensures Lower(sourceID, destID) in s.accounts && Upper(sourceID, destID) !in s.accounts ==>
              ExecuteAttempt(s, sourceID, destID, amount).err
              == Some(App(ErrNotFound("account", Upper(sourceID, destID))))
    ensures sourceID in s.accounts && destID in s.accounts && Value(s.accounts[sourceID]) < Value(amount) ==>
              ExecuteAttempt(s, sourceID, destID, amount).err == Some(App(ErrInsufficientBalance(sourceID)))
    ensures sourceID in s.accounts && destID in s.accounts && Value(s.accounts[sourceID]) >= Value(amount) ==>
              ExecuteAttempt(s, sourceID, destID, amount).err.None?
  {
  }

  /** The high-load error reaches a caller as the generic 500 answer. */
  lemma HighLoadIsInternal()
    ensures MapErrorToResponse(Plain(HighLoadMessage))
            == Response(StatusInternalServerError, CodeInternal, InternalServerErrorMessage)
  {
    InternalResponse(Plain(HighLoadMessage));
  }

  /** Three serialization failures in a row exhaust the retries: the caller gets the plain
      high-load error, answered 500, and no balance or ledger entry changes. */
  lemma ExhaustedRetries(s: DbState, sourceID: int, destID: int, amount: Decimal, maxAmount: int)
    requires ValidateTransfer(sourceID, destID, amount, maxAmount).None?
    requires |s.faults| >= 3
    requires s.faults[0] == SerializationFault && s.faults[1] == SerializationFault
             && s.faults[2] == SerializationFault
    ensures TransferRun(s, sourceID, destID, amount, maxAmount).err == Some(Plain(HighLoadMessage))
    ensures |TransferRun(s, sourceID, destID, amount, maxAmount).attempts| == MaxRetries
    ensures TransferRun(s, sourceID, destID, amount, maxAmount).state.accounts == s.accounts
    ensures TransferRun(s, sourceID, destID, amount, maxAmount).state.ledger == s.ledger
    ensures MapErrorToResponse(TransferRun(s, sourceID, destID, amount, maxAmount).err.value).status
            == StatusInternalServerError
  {
    var s1 := s.(faults := s.faults[1..]);
    var s2 := s1.(faults := s1.faults[1..]);
    var s3 := s2.(faults := s2.faults[1..]);
    RetryOutcome(s, sourceID, destID, amount, MaxRetries);
    assert ExecuteAttempt(s, sourceID, destID, amount).state == s1;
    assert ExecuteAttempt(s1, sourceID, destID, amount).state == s2;
    assert ExecuteAttempt(s2, sourceID, destID, amount).state == s3;
    HighLoadIsInternal();
  }

  /** Any other failure is not retried: one attempt, and its error is returned as it was. */
  lemma OtherFailureNotRetried(s: DbState, sourceID: int, destID: int, amount: Decimal, maxAmount: int)
    requires ValidateTransfer(sourceID, destID, amount, maxAmount).None?
    requires s.faults != [] && s.faults[0] == OtherFault
    ensures TransferRun(s, sourceID, destID, amount, maxAmount).attempts
            == [TransferRun(s, sourceID, destID, amount, maxAmount).err]
    ensures TransferRun(s, sourceID, destID, amount, maxAmount).err
            == Some(Wrapped("starting transaction", Wrapped("beginning transaction", ConnFailure)))
    ensures InternalServerErrorMessage
            == MapErrorToResponse(TransferRun(s, sourceID, destID, amount, maxAmount).err.value).message
  {
    InternalResponse(Wrapped("starting transaction", Wrapped("beginning transaction", ConnFailure)));
  }

  /** Two accounts 1 and 2 holding 100.00 and 50.00. */
  function SampleAccounts(): map<int, Decimal>
  {
    map[1 := Decimal(10000, -2), 2 := Decimal(5000, -2)]
  }

  /** The faults of a run whose first commit meets a serialization failure. */
  function CommitConflictFaults(): seq<Fault>
  {
    [NoFault, NoFault, NoFault, NoFault, NoFault, NoFault, SerializationFault]
  }

  /** An attempt that gets through every step and then fails at commit loses all its work:
      both tables are as they were, and only the seven faults drawn and the two lock requests
      remain. */
  lemma CommitFailureAttempt(s: DbState, sourceID: int, destID: int, amount: Decimal)
    requires |s.faults| >= 7 && s.faults[..6] == [NoFault, NoFault, NoFault, NoFault, NoFault, NoFault]
    requires s.faults[6] != NoFault
    requires sourceID in s.accounts && destID in s.accounts && !LessThan(s.accounts[sourceID], amount)
    ensures ExecuteAttempt(s, sourceID, destID, amount)
            == Outcome(Some(Wrapped("committing transfer", FaultError(s.faults[6]))),
                       s.(faults := s.faults[7..],
                          locks := s.locks + [Lower(sourceID, destID), Upper(sourceID, destID)]))
  {
    var q := s.faults;
    assert q[0] == NoFault && q[1] == NoFault && q[2] == NoFault;
    assert q[3] == NoFault && q[4] == NoFault && q[5] == NoFault;
    assert Tail(q) == q[1..] && Tail(q[1..]) == q[2..] && Tail(q[2..]) == q[3..];
    assert Tail(q[3..]) == q[4..] && Tail(q[4..]) == q[5..] && Tail(q[5..]) == q[6..];
    assert Tail(q[6..]) == q[7..] && Head(q[6..]) == q[6];
  }

  /** The first attempt does all its work and then loses it at commit. */
  lemma CommitConflictFirstAttempt()
    ensures ExecuteAttempt(DbState(SampleAccounts(), [], CommitConflictFaults(), []), 1, 2, Decimal(4000, -2))
            == Outcome(Some(Wrapped("committing transfer", Pg(SerializationFailureCode))),
                       DbState(SampleAccounts(), [], [], [1, 2]))
  {
    assert Value(Decimal(4000, -2)) == 40.0;
    assert Value(Decimal(10000, -2)) == 100.0;
    CommitFailureAttempt(DbState(SampleAccounts(), [], CommitConflictFaults(), []), 1, 2, Decimal(4000, -2));
  }

  /** With the conflict gone, the retry moves 40.00 from account 1 to account 2. */
  lemma CommitConflictSecondAttempt()
    ensures var o := ExecuteAttempt(DbState(SampleAccounts(), [], [], [1, 2]), 1, 2, Decimal(4000, -2));
      && o.err.None?
      && Value(o.state.accounts[1]) == 60.0 && Value(o.state.accounts[2]) == 90.0
      && o.state.ledger == [LedgerEntry(1, 2, Decimal(4000, -2))]
      && o.state.locks == [1, 2, 1, 2]
  {
    var amount := Decimal(4000, -2);
    assert Value(amount) == 40.0;
    assert Value(Decimal(10000, -2)) == 100.0;
    assert Value(Decimal(5000, -2)) == 50.0;
    FaultFreeAttempt(DbState(SampleAccounts(), [], [], [1, 2]), 1, 2, amount);
    MovedEffect(SampleAccounts(), 1, 2, amount);
  }

  /** The retry loop on the commit-conflict sample: two attempts, the second succeeds. */
  lemma CommitConflictLoop(s: DbState, amount: Decimal)
    requires s == DbState(SampleAccounts(), [], CommitConflictFaults(), [])
    requires amount == Decimal(4000, -2)
    ensures var r := RetryLoop(s, 1, 2, amount, MaxRetries);
      && r.err.None? && |r.attempts| == 2
      && Value(r.state.accounts[1]) == 60.0 && Value(r.state.accounts[2]) == 90.0
      && r.state.ledger == [LedgerEntry(1, 2, amount)]
      && r.state.locks == [1, 2, 1, 2]
  {
    var s1 := DbState(SampleAccounts(), [], [], [1, 2]);
    CommitConflictFirstAttempt();
    RetryStep(s, s1, Wrapped("committing transfer", Pg(SerializationFailureCode)), 1, 2, amount, MaxRetries);
    CommitConflictSecondAttempt();
    var o1 := ExecuteAttempt(s1, 1, 2, amount);
    assert RetryLoop(s1, 1, 2, amount, MaxRetries - 1) == Run(None, o1.state, [None]);
  }

  /** A serialization failure at commit is retried, and the second attempt moves 40.00 once. */
  lemma CommitConflictRetried(s: DbState, amount: Decimal)
    requires s == DbState(SampleAccounts(), [], CommitConflictFaults(), [])
    requires amount == Decimal(4000, -2)
    ensures var r := TransferRun(s, 1, 2, amount, DefaultMaxTransferAmount);
      && r.err.None? && |r.attempts| == 2
      && Value(r.state.accounts[1]) == 60.0 && Value(r.state.accounts[2]) == 90.0
      && r.state.ledger == [LedgerEntry(1, 2, amount)]
      && r.state.locks == [1, 2, 1, 2]
  {
    assert ValidateTransfer(1, 2, amount, DefaultMaxTransferAmount).None? by {
      assert Value(amount) == 40.0;
    }
    CommitConflictLoop(s, amount);
  }

  /** Transfers from 2 to 1 lock 1 first, and a missing destination is reported by id. */
  lemma LockOrderAndMissingAccount()
    ensures var s := DbState(SampleAccounts(), [], [], []);
      TransferRun(s, 2, 1, Decimal(1000, -2), DefaultMaxTransferAmount).state.locks == [1, 2]
    ensures var s := DbState(SampleAccounts(), [], [], []);
      var r := TransferRun(s, 1, 999, Decimal(1000, -2), DefaultMaxTransferAmount);
      r.err == Some(App(ErrNotFound("account", 999))) && r.state.locks == [1, 999]
      && r.state.accounts == s.accounts && r.state.ledger == []
  {
    assert Value(Decimal(1000, -2)) == 10.0;
  }

  /** More than the balance is refused for the source, with nothing written. */
  lemma InsufficientSample()
    ensures var s := DbState(SampleAccounts(), [], [], []);
      var r := TransferRun(s, 2, 1, Decimal(5001, -2), DefaultMaxTransferAmount);
      r.err == Some(App(ErrInsufficientBalance(2))) && r.state.accounts == s.accounts && r.state.ledger == []
  {
    assert Value(Decimal(5001, -2)) == 50.01;
    assert Value(Decimal(5000, -2)) == 50.0;
  }

  /** Two transfers of 50.00 in turn out of an account holding 50.00: the first empties it,
      the second is refused for insufficient funds and changes nothing. */
  lemma DrainTwice(s: DbState, amount: Decimal)
    requires s == DbState(map[1 := Decimal(5000, -2), 2 := Decimal(0, 0)], [], [], [])
    requires amount == Decimal(5000, -2)
    ensures var r1 := TransferRun(s, 1, 2, amount, DefaultMaxTransferAmount);
      var r2 := TransferRun(r1.state, 1, 2, amount, DefaultMaxTransferAmount);
      && r1.err.None? && Value(r1.state.accounts[1]) == 0.0
      && r2.err == Some(App(ErrInsufficientBalance(1)))
      && r2.state.accounts == r1.state.accounts && r2.state.ledger == [LedgerEntry(1, 2, amount)]
  {
    assert Value(amount) == 50.0;
    assert ValidateTransfer(1, 2, amount, DefaultMaxTransferAmount).None?;
    FaultFreeAttempt(s, 1, 2, amount);
    var r1 := TransferRun(s, 1, 2, amount, DefaultMaxTransferAmount);
    assert r1 == Run(None, ExecuteAttempt(s, 1, 2, amount).state, [None]);
    MovedEffect(s.accounts, 1, 2, amount);
    var s1 := r1.state;
    assert s1.faults == [] by {
      assert ExecuteAttempt(s, 1, 2, amount).state.faults == [];
    }
    assert Value(s1.accounts[1]) == 0.0;
    FaultFreeAttempt(s1, 1, 2, amount);
  }

  /** The guards on sample requests, showing their order and the boundaries. */
  lemma TransferGuardExamples(maxAmount: int)
    requires maxAmount == DefaultMaxTransferAmount
    // 0.999 is below the minimum before its three decimals matter
    ensures ValidateTransfer(1, 2, Decimal(999, -3), maxAmount)
            == Some(ErrValidation(BelowMinimumMessage))
    // 1.005 passes the minimum and fails the precision guard
    ensures ValidateTransfer(1, 2, Decimal(1005, -3), maxAmount)
            == Some(ErrValidation(PrecisionMessage))
    // 10.500 is refused for its stored exponent although 10.50 is accepted
    ensures ValidateTransfer(1, 2, Decimal(10500, -3), maxAmount)
            == Some(ErrValidation(PrecisionMessage))
    ensures ValidateTransfer(1, 2, Decimal(1050, -2), maxAmount).None?
    // exactly the ceiling passes, one cent more does not
    ensures ValidateTransfer(1, 2, NewFromInt(maxAmount), maxAmount).None?
    ensures ValidateTransfer(1, 2, Decimal(20000001, -2), maxAmount)
            == Some(ErrValidation(AboveMaximumMessage(maxAmount)))
    ensures ValidateTransfer(1, 2, Decimal(100000000, -2), maxAmount)
            == Some(ErrValidation(AboveMaximumMessage(maxAmount)))
    ensures ValidateTransfer(1, 2, Decimal(0, 0), maxAmount)
            == Some(ErrValidation(BelowMinimumMessage))
    ensures ValidateTransfer(0, 2, Decimal(1, 0), maxAmount)
            == Some(ErrValidation(InvalidAccountsMessage))
    ensures ValidateTransfer(7, 7, Decimal(1, 0), maxAmount)
            == Some(ErrValidation(SameAccountMessage))
  {
    assert Value(Decimal(999, -3)) == 0.999;
    assert Value(Decimal(1005, -3)) == 1.005;
    assert Value(Decimal(10500, -3)) == 10.5;
    assert Value(Decimal(1050, -2)) == 10.5;
    assert Value(Decimal(20000001, -2)) == 200000.01;
    assert Value(Decimal(100000000, -2)) == 1000000.0;
  }
}
