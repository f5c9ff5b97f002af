/** What one turn of the validation worker does to a submission, and what others may do, field by field. */
module QueueMeaning {
  import opened Results
  import opened LeaseQueue
  import opened ValidateWorker

  /** The last attempt ended like this, and nothing but it, the progress and the retries changed. */
  predicate EndsAs(s: Submission, s': Submission, state: AttemptState, progress: Progress, retryCount: nat) {
    && s'.hotkey == s.hotkey && s'.rank == s.rank && s'.progress == progress && s'.retryCount == retryCount
    && |s'.attempts| == |s.attempts| > 0
    && (forall k :: 0 <= k < |s.attempts| - 1 ==> s'.attempts[k] == s.attempts[k])
    && var a, a' := s.attempts[|s.attempts| - 1], s'.attempts[|s.attempts| - 1];
       a'.number == a.number && a'.expiry == a.expiry && a'.state == state
  }

  /** A submission of the hotkey ended as a duplicate by its miner's fault. */
  ghost predicate WasDuplicate(table: Table, hotkey: string) {
    exists id :: id in table && table[id].hotkey == hotkey && table[id].progress == TerminalInvalid(true, Duplicate)
  }

  /** The gates in their order. */
  ghost predicate IsRefusedWith(table: Table, hotkey: string, f: Facts, maxFails: nat, code: Code) {
    match code
    case Reregistered => f.reregistered
    case SanityBlocked => !f.reregistered && f.sanityBlocked
    case DuplicateBlocked => !f.reregistered && !f.sanityBlocked && WasDuplicate(table, hotkey)
    case PreevalBlocked =>
      !f.reregistered && !f.sanityBlocked && !WasDuplicate(table, hotkey) && |Faults(table, hotkey)| >= maxFails
    case AlreadyValidated =>
      && !f.reregistered && !f.sanityBlocked && !WasDuplicate(table, hotkey) && |Faults(table, hotkey)| < maxFails
      && f.validated
    case _ => false
  }

  lemma RefusalIs(table: Table, hotkey: string, f: Facts, maxFails: nat, code: Code)
    ensures Refusal(table, hotkey, f, maxFails) == Some(code) <==> IsRefusedWith(table, hotkey, f, maxFails, code)
  {
    StrikesAre(table, hotkey);
    DuplicatesAre(table, hotkey);
  }

  lemma DuplicatesAre(table: Table, hotkey: string)
    ensures HasDuplicate(table, hotkey) <==> WasDuplicate(table, hotkey)
  {
    if WasDuplicate(table, hotkey) {
      var id :| id in table && table[id].hotkey == hotkey && table[id].progress == TerminalInvalid(true, Duplicate);
      assert IsDuplicate(table[id], hotkey);
    }
  }

  /**
   * A claimed submission that a gate refuses ends as its miner's fault with the code of the gate. One whose hash is
   * held is a duplicate. Any other ends as its validation came out: an infrastructure fault is tried again below the
   * limit.
   */
  lemma SettledIs(table: Table, id: nat, f: Facts, c: Config)
    requires id in table && table[id].attempts != []
    ensures var s, s' := table[id], Settled(table, id, f, c);
            && (forall code :: IsRefusedWith(table, s.hotkey, f, c.maxFails, code) ==>
                  EndsAs(s, s', FailedTerminal, TerminalInvalid(true, code), s.retryCount))
            && ((forall code :: !IsRefusedWith(table, s.hotkey, f, c.maxFails, code)) ==>
                  if f.hashHeld then EndsAs(s, s', FailedTerminal, TerminalInvalid(true, Duplicate), s.retryCount)
                  else IsOutcome(s, s', f.outcome, c.maxAttempts))
  {
    var s := table[id];
    var refusal := Refusal(table, s.hotkey, f, c.maxFails);
    forall code ensures refusal == Some(code) <==> IsRefusedWith(table, s.hotkey, f, c.maxFails, code) {
      RefusalIs(table, s.hotkey, f, c.maxFails, code);
    }
    if refusal.Some? { assert IsRefusedWith(table, s.hotkey, f, c.maxFails, refusal.value); }
    OutcomeIs(s, f.outcome, c.maxAttempts);
  }

  predicate IsOutcome(s: Submission, s': Submission, outcome: Outcome, maxAttempts: nat)
    requires s.attempts != []
  {
    match outcome
    case Stored => EndsAs(s, s', Succeeded, HippiusValidated, 0)
    case HashTaken => EndsAs(s, s', FailedTerminal, TerminalInvalid(true, Duplicate), s.retryCount)
    case MinerFault(code) => EndsAs(s, s', FailedTerminal, TerminalInvalid(true, code), s.retryCount)
    case OtherFault(code) => EndsAs(s, s', FailedTerminal, TerminalInvalid(false, code), s.retryCount)
    case Infra =>
      if s.attempts[|s.attempts| - 1].number < maxAttempts
      then EndsAs(s, s', FailedRetryable, HippiusRetryable, s.retryCount + 1)
      else EndsAs(s, s', FailedTerminal, TerminalInfraFailed, s.retryCount + 1)
  }

  lemma OutcomeIs(s: Submission, outcome: Outcome, maxAttempts: nat)
    requires s.attempts != []
    ensures IsOutcome(s, Finished(s, outcome, maxAttempts), outcome, maxAttempts)
  {
  }

  /**
   * Other services may touch a submission that validation is done with, and insert one; they leave it validated, at a
   * later stage, or at an end, and never touch its attempts or its hotkey.
   */
  lemma OthersMay(c: Config, x: State, id: nat, s: Submission, y: State)
    ensures Next(c, x, Elsewhere(id, s), y) <==>
            && y == State(x.table[id := s], x.phase)
            && s.progress !in {Submitted, HippiusRunning, HippiusRetryable}
            && (id !in x.table ==> s.attempts == [])
            && (id in x.table ==>
                  && x.table[id].progress in {HippiusValidated, Later}
                  && s.hotkey == x.table[id].hotkey && s.attempts == x.table[id].attempts)
  {
  }
}
