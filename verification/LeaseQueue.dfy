/** The validation queue: submissions, their attempts and strikes, `src/model_validation/db.py`. */
module LeaseQueue {
  import opened Results

  datatype AttemptState = Running | Succeeded | FailedTerminal | FailedRetryable | Abandoned

  datatype Attempt = Attempt(number: nat, state: AttemptState, expiry: int)

  datatype Code =
    | Reregistered
    | SanityBlocked
    | DuplicateBlocked
    | AlreadyValidated
    | PreevalBlocked
    | Duplicate
    | OtherCode(name: string)

  /** A submission's state; `Later` stands for the states of the stages after this one. */
  datatype Progress =
    | Submitted
    | HippiusRunning
    | HippiusRetryable
    | HippiusValidated
    | TerminalInvalid(minerFault: bool, code: Code)
    | TerminalInfraFailed
    | Later

  /** `rank` is the order submissions are claimed in: by block, priority and age. */
  datatype Submission = Submission(
    hotkey: string, rank: int, progress: Progress, attempts: seq<Attempt>, retryCount: nat)

  type Table = map<nat, Submission>

  // ---------------------------------------------------------------- one submission

  predicate IsClaimable(s: Submission) { s.progress.Submitted? || s.progress.HippiusRetryable? }

  /** `COALESCE(MAX(attempt_number), 0)`. */
  function HighestNumber(attempts: seq<Attempt>): nat {
    if attempts == [] then 0
    else
      var before, last := HighestNumber(attempts[..|attempts| - 1]), attempts[|attempts| - 1].number;
      if last > before then last else before
  }

  function Claimed(s: Submission, expiry: int): Submission {
    s.(progress := HippiusRunning, attempts := s.attempts + [Attempt(HighestNumber(s.attempts) + 1, Running, expiry)])
  }

  /** A claimed submission runs, with one attempt more, whose number is one above those before it. */
  predicate IsClaimedAs(s: Submission, s': Submission, expiry: int) {
    var n := |s.attempts|;
    && s'.hotkey == s.hotkey && s'.rank == s.rank && s'.retryCount == s.retryCount && s'.progress.HippiusRunning?
    && |s'.attempts| == n + 1 && (forall k :: 0 <= k < n ==> s'.attempts[k] == s.attempts[k])
    && s'.attempts[n].state.Running? && s'.attempts[n].expiry == expiry
    && (forall k :: 0 <= k < n ==> s.attempts[k].number < s'.attempts[n].number)
    && (if n == 0 then s'.attempts[n].number == 1
        else exists k :: 0 <= k < n && s.attempts[k].number + 1 == s'.attempts[n].number)
  }

  lemma ClaimedIs(s: Submission, expiry: int)
    ensures IsClaimedAs(s, Claimed(s, expiry), expiry)
  {
    HighestIs(s.attempts);
  }

  lemma {:induction false} HighestIs(attempts: seq<Attempt>)
    ensures forall k :: 0 <= k < |attempts| ==> attempts[k].number <= HighestNumber(attempts)
    ensures if attempts == [] then HighestNumber(attempts) == 0
            else exists k :: 0 <= k < |attempts| && attempts[k].number == HighestNumber(attempts)
  {
    if attempts != [] {
      var n := |attempts| - 1;
      HighestIs(attempts[..n]);
      if HighestNumber(attempts) == attempts[n].number { }
      else {
        var k :| 0 <= k < n && attempts[..n][k].number == HighestNumber(attempts[..n]);
        assert attempts[k].number == HighestNumber(attempts);
      }
    }
  }

  /** The attempt at `i` ended. */
  function Ended(s: Submission, i: nat, state: AttemptState, progress: Progress, retryCount: nat): Submission
    requires i < |s.attempts|
  {
    s.(attempts := s.attempts[i := s.attempts[i].(state := state)], progress := progress, retryCount := retryCount)
  }

  function Done(s: Submission, i: nat): Submission
    requires i < |s.attempts|
  {
    Ended(s, i, Succeeded, HippiusValidated, 0)
  }

  function Failed(s: Submission, i: nat, minerFault: bool, code: Code): Submission
    requires i < |s.attempts|
  {
    Ended(s, i, FailedTerminal, TerminalInvalid(minerFault, code), s.retryCount)
  }

  function Retried(s: Submission, i: nat, maxAttempts: nat): Submission
    requires i < |s.attempts|
  {
    if s.attempts[i].number >= maxAttempts then Ended(s, i, FailedTerminal, TerminalInfraFailed, s.retryCount + 1)
    else Ended(s, i, FailedRetryable, HippiusRetryable, s.retryCount + 1)
  }

  predicate IsExpired(s: Submission, i: nat, now: int)
    requires i < |s.attempts|
  {
    s.progress == HippiusRunning && s.attempts[i].state == Running && s.attempts[i].expiry < now
  }

  /** The sweep abandons every attempt whose lease has run out. */
  function Swept(s: Submission, now: int): Submission {
    if exists i :: 0 <= i < |s.attempts| && IsExpired(s, i, now) then
      s.(progress := HippiusRetryable,
         retryCount := s.retryCount + |set i | 0 <= i < |s.attempts| && IsExpired(s, i, now)|,
         attempts := seq(|s.attempts|, i requires 0 <= i < |s.attempts| =>
           if IsExpired(s, i, now) then s.attempts[i].(state := Abandoned) else s.attempts[i]))
    else s
  }

  /** Whether the sweep at `now` abandons this attempt. */
  predicate IsOverdue(s: Submission, i: nat, now: int)
    requires i < |s.attempts|
  {
    s.progress.HippiusRunning? && s.attempts[i].state.Running? && now - s.attempts[i].expiry > 0
  }

  function Overdue(s: Submission, now: int): set<nat> {
    set i: nat | i < |s.attempts| && IsOverdue(s, i, now)
  }

  /** A sound submission has at most one attempt to abandon, its last. */
  lemma SoundSweepsOne(s: Submission, now: int, maxAttempts: nat)
    requires IsSound(s, maxAttempts)
    ensures Overdue(s, now) <= {|s.attempts| - 1} && |Overdue(s, now)| <= 1
  {
    forall i | i in Overdue(s, now) ensures i == |s.attempts| - 1 {}
    if Overdue(s, now) != {} { assert Overdue(s, now) == {|s.attempts| - 1}; }
  }

  /** What the sweep makes of one submission. */
  ghost predicate IsSwept(s: Submission, s': Submission, now: int) {
    && s'.hotkey == s.hotkey && s'.rank == s.rank && |s'.attempts| == |s.attempts|
    && (forall i :: 0 <= i < |s.attempts| ==>
          && s'.attempts[i].number == s.attempts[i].number && s'.attempts[i].expiry == s.attempts[i].expiry
          && s'.attempts[i].state == if IsOverdue(s, i, now) then Abandoned else s.attempts[i].state)
    && (if exists i :: 0 <= i < |s.attempts| && IsOverdue(s, i, now)
        then s'.progress == HippiusRetryable && s'.retryCount == s.retryCount + |Overdue(s, now)|
        else s' == s)
  }

  lemma SweptIs(s: Submission, now: int)
    ensures IsSwept(s, Swept(s, now), now)
  {
    forall i | 0 <= i < |s.attempts| ensures IsExpired(s, i, now) <==> IsOverdue(s, i, now) {}
    assert (set i | 0 <= i < |s.attempts| && IsExpired(s, i, now)) == Overdue(s, now);
  }

  /**
   * Attempts are numbered 1 to k; the last one is running exactly when the submission is, and no other ever is; and an
   * attempt that ended retryable had a number below the limit.
   */
  ghost predicate IsSound(s: Submission, maxAttempts: nat) {
    && (forall i :: 0 <= i < |s.attempts| ==> s.attempts[i].number == i + 1)
    && (forall i :: 0 <= i < |s.attempts| ==>
          (s.attempts[i].state == Running <==> s.progress == HippiusRunning && i == |s.attempts| - 1))
    && (s.progress == HippiusRunning ==> s.attempts != [])
    && (forall i :: 0 <= i < |s.attempts| && s.attempts[i].state == FailedRetryable ==>
       s.attempts[i].number < maxAttempts)
  }

  lemma {:induction false} HighestIsLast(attempts: seq<Attempt>)
    requires forall i :: 0 <= i < |attempts| ==> attempts[i].number == i + 1
    ensures HighestNumber(attempts) == |attempts|
  {
    if attempts != [] { HighestIsLast(attempts[..|attempts| - 1]); }
  }

  lemma ClaimKeeps(s: Submission, expiry: int, maxAttempts: nat)
    requires IsSound(s, maxAttempts) && IsClaimable(s)
    ensures IsSound(Claimed(s, expiry), maxAttempts)
  {
    HighestIsLast(s.attempts);
  }

  /** Ending the running attempt keeps a submission sound. */
  lemma EndKeeps(s: Submission, minerFault: bool, code: Code, maxAttempts: nat)
    requires IsSound(s, maxAttempts) && s.progress == HippiusRunning
    ensures var i := |s.attempts| - 1;
            && IsSound(Done(s, i), maxAttempts) && IsSound(Failed(s, i, minerFault, code), maxAttempts)
            && IsSound(Retried(s, i, maxAttempts), maxAttempts)
  {
  }

  lemma SweepKeeps(s: Submission, now: int, maxAttempts: nat)
    requires IsSound(s, maxAttempts)
    ensures IsSound(Swept(s, now), maxAttempts)
    ensures Swept(s, now) == s || (s.progress == HippiusRunning && Swept(s, now).progress == HippiusRetryable)
  {
    if exists i :: 0 <= i < |s.attempts| && IsExpired(s, i, now) {
      var i :| 0 <= i < |s.attempts| && IsExpired(s, i, now);
      assert i == |s.attempts| - 1;
    }
  }

  function Count(attempts: seq<Attempt>, state: AttemptState): nat {
    if attempts == [] then 0
    else Count(attempts[..|attempts| - 1], state) + if attempts[|attempts| - 1].state == state then 1 else 0
  }

  /** At most one attempt for each number below `limit` is in a state that only such numbers have. */
  lemma {:induction false} CountBelow(attempts: seq<Attempt>, state: AttemptState, limit: nat)
    requires forall i :: 0 <= i < |attempts| ==> attempts[i].number == i + 1
    requires forall i :: 0 <= i < |attempts| && attempts[i].state == state ==> attempts[i].number < limit
    ensures Count(attempts, state) <= if limit == 0 then 0 else if |attempts| < limit then |attempts| else limit - 1
  {
    if attempts != [] { CountBelow(attempts[..|attempts| - 1], state, limit); }
  }

  lemma {:induction false} CountRunning(attempts: seq<Attempt>, last: bool)
    requires forall i :: 0 <= i < |attempts| ==> (attempts[i].state == Running <==> last && i == |attempts| - 1)
    ensures Count(attempts, Running) == if last && attempts != [] then 1 else 0
  {
    if attempts != [] { CountRunning(attempts[..|attempts| - 1], false); }
  }

  /**
   * Exactly one attempt is running when the submission is and none otherwise, and fewer than the limit ended retryable.
   */
  lemma SoundCounts(s: Submission, maxAttempts: nat)
    requires IsSound(s, maxAttempts) && maxAttempts > 0
    ensures Count(s.attempts, Running) == if s.progress == HippiusRunning then 1 else 0
    ensures Count(s.attempts, FailedRetryable) < maxAttempts
  {
    CountRunning(s.attempts, s.progress == HippiusRunning);
    CountBelow(s.attempts, FailedRetryable, maxAttempts);
  }

  // ---------------------------------------------------------------- strikes

  /** Refusals for what a hotkey did before do not count again. */
  predicate IsExcluded(code: Code) {
    code.Reregistered? || code.SanityBlocked? || code.DuplicateBlocked? || code.AlreadyValidated?
        || code.PreevalBlocked?
  }

  predicate IsStrike(s: Submission, hotkey: string) {
    s.hotkey == hotkey && s.progress.TerminalInvalid? && s.progress.minerFault && !IsExcluded(s.progress.code)
  }

  function StrikeSet(table: Table, hotkey: string): set<nat> {
    set id | id in table && IsStrike(table[id], hotkey)
  }

  /** `hotkey_preeval_fail_count`. */
  function Strikes(table: Table, hotkey: string): nat { |StrikeSet(table, hotkey)| }

  /** The submissions of a hotkey that ended by its miner's fault, but for the five refusals. */
  function Faults(table: Table, hotkey: string): set<nat> {
    set id | id in table && table[id].hotkey == hotkey && table[id].progress.TerminalInvalid?
             && table[id].progress.minerFault
             && table[id].progress.code !in
                {Reregistered, SanityBlocked, DuplicateBlocked, AlreadyValidated, PreevalBlocked}
  }

  lemma StrikesAre(table: Table, hotkey: string)
    ensures Strikes(table, hotkey) == |Faults(table, hotkey)|
  {
    assert StrikeSet(table, hotkey) == Faults(table, hotkey);
  }

  lemma StrikesAfter(table: Table, id: nat, s: Submission, hotkey: string)
    requires id in table ==> !IsStrike(table[id], hotkey)
    ensures Strikes(table[id := s], hotkey) == Strikes(table, hotkey) + if IsStrike(s, hotkey) then 1 else 0
  {
    assert StrikeSet(table[id := s], hotkey) == StrikeSet(table, hotkey) + if IsStrike(s, hotkey) then {id} else {};
  }

  // ---------------------------------------------------------------- the table

  class Queue {
    var table: Table
    const maxAttempts: nat
    const maxFails: nat

    constructor (maxAttempts: nat, maxFails: nat)
      ensures table == map[] && this.maxAttempts == maxAttempts && this.maxFails == maxFails
    {
      table, this.maxAttempts, this.maxFails := map[], maxAttempts, maxFails;
    }

    /** Claims the first claimable submission of those that may be claimed yet, if there is one. */
    method ClaimNext(due: set<nat>, expiry: int) returns (claimed: Option<nat>)
      modifies this`table
      ensures claimed.None? ==> table == old(table) && forall id :: id in due && id in table ==>
                !(table[id].progress.Submitted? || table[id].progress.HippiusRetryable?)
      ensures claimed.Some? ==>
                && claimed.value in due && claimed.value in old(table)
                && var s := old(table)[claimed.value];
                && (s.progress.Submitted? || s.progress.HippiusRetryable?)
                && (forall id | id in due && id in old(table)
                      && (old(table)[id].progress.Submitted? || old(table)[id].progress.HippiusRetryable?) ::
                      s.rank <= old(table)[id].rank)
                && table.Keys == old(table).Keys && IsClaimedAs(s, table[claimed.value], expiry)
                && (forall id :: id in table && id != claimed.value ==> table[id] == old(table)[id])
                && table == old(table)[claimed.value := Claimed(s, expiry)]
    {
      claimed := None;
      var left := table.Keys * due;
      while left != {}
        invariant left <= table.Keys * due
        invariant claimed.None? ==> forall id :: id in table.Keys * due - left ==> !IsClaimable(table[id])
        invariant claimed.Some? ==>
                    && claimed.value in table.Keys * due && IsClaimable(table[claimed.value])
                    && forall id :: id in table.Keys * due - left && IsClaimable(table[id]) ==>
                       table[claimed.value].rank <= table[id].rank
        decreases left
      {
        var id :| id in left;
        left := left - {id};
        if IsClaimable(table[id]) && (claimed.None? || table[id].rank < table[claimed.value].rank) {
          claimed := Some(id);
        }
      }
      if claimed.Some? {
        ClaimedIs(table[claimed.value], expiry);
        table := table[claimed.value := Claimed(table[claimed.value], expiry)];
      }
    }

    /**
     * The running attempt succeeds: a sound submission stays sound, nobody gains a strike, and no other row changes.
     */
    method MarkDone(id: nat, i: nat)
      requires id in table && i < |table[id].attempts|
      modifies this`table
      ensures table.Keys == old(table).Keys && table[id].progress == HippiusValidated && table[id].retryCount == 0
      ensures IsEnded(old(table), table, id, i, Succeeded)
      ensures old(IsAttemptOf(table[id], i, maxAttempts)) ==> IsSound(table[id], maxAttempts)
      ensures old(table)[id].progress == HippiusRunning ==>
                forall hotkey :: Strikes(table, hotkey) == Strikes(old(table), hotkey)
      ensures table == old(table)[id := Done(old(table)[id], i)]
    {
      ghost var was, s := table, table[id];
      table := table[id := Done(table[id], i)];
      if IsAttemptOf(s, i, maxAttempts) { EndKeeps(s, false, PreevalBlocked, maxAttempts); }
      if s.progress == HippiusRunning {
        forall hotkey ensures Strikes(table, hotkey) == Strikes(was, hotkey) {
          StrikesAfter(was, id, table[id], hotkey);
        }
      }
    }

    /**
     * The running attempt fails for good. Its hotkey gains a strike exactly if the fault is the miner's own and counts.
     */
    method MarkFailed(id: nat, i: nat, minerFault: bool, code: Code)
      requires id in table && i < |table[id].attempts|
      modifies this`table
      ensures table.Keys == old(table).Keys && table[id].progress == TerminalInvalid(minerFault, code)
      ensures table[id].retryCount == old(table)[id].retryCount
      ensures IsEnded(old(table), table, id, i, FailedTerminal)
      ensures old(IsAttemptOf(table[id], i, maxAttempts)) ==> IsSound(table[id], maxAttempts)
      ensures old(table)[id].progress == HippiusRunning ==>
                forall hotkey :: Strikes(table, hotkey) == Strikes(old(table), hotkey)
                  + if minerFault && !IsExcluded(code) && hotkey == old(table)[id].hotkey then 1 else 0
      ensures table == old(table)[id := Failed(old(table)[id], i, minerFault, code)]
    {
      ghost var was, s := table, table[id];
      table := table[id := Failed(table[id], i, minerFault, code)];
      if IsAttemptOf(s, i, maxAttempts) { EndKeeps(s, minerFault, code, maxAttempts); }
      if s.progress == HippiusRunning {
        forall hotkey ensures Strikes(table, hotkey) == Strikes(was, hotkey)
                                + if minerFault && !IsExcluded(code) && hotkey == s.hotkey then 1 else 0
        {
          StrikesAfter(was, id, table[id], hotkey);
        }
      }
    }

    /** The running attempt may be tried again, unless it was the last one allowed; that is never a strike. */
    method MarkRetry(id: nat, i: nat)
      requires id in table && i < |table[id].attempts|
      modifies this`table
      ensures table.Keys == old(table).Keys && table[id].retryCount == old(table)[id].retryCount + 1
      ensures var again := old(table)[id].attempts[i].number < maxAttempts;
              && table[id].progress == (if again then HippiusRetryable else TerminalInfraFailed)
              && IsEnded(old(table), table, id, i, if again then FailedRetryable else FailedTerminal)
      ensures old(IsAttemptOf(table[id], i, maxAttempts)) ==> IsSound(table[id], maxAttempts)
      ensures old(table)[id].progress == HippiusRunning ==>
                forall hotkey :: Strikes(table, hotkey) == Strikes(old(table), hotkey)
      ensures table == old(table)[id := Retried(old(table)[id], i, maxAttempts)]
    {
      ghost var was := table;
      var s := table[id];
      var terminal := s.attempts[i].number >= maxAttempts;
      table := table[id := Ended(s, i, if terminal then FailedTerminal else FailedRetryable,
                                 if terminal then TerminalInfraFailed else HippiusRetryable, s.retryCount + 1)];
      if IsAttemptOf(s, i, maxAttempts) { EndKeeps(s, false, PreevalBlocked, maxAttempts); }
      if s.progress == HippiusRunning {
        forall hotkey ensures Strikes(table, hotkey) == Strikes(was, hotkey) {
          StrikesAfter(was, id, table[id], hotkey);
        }
      }
    }

    /**
     * An attempt is abandoned exactly if it was running in a running submission and its lease ended before `now`; its
     * submission becomes retryable and counts one retry more. Nothing else changes, and no such lease is left.
     */
    method SweepExpired(now: int)
      modifies this`table
      ensures table == SweptTable(old(table), now)
      ensures table.Keys == old(table).Keys
      ensures forall id :: id in table ==> IsSwept(old(table)[id], table[id], now)
      ensures forall id, i :: id in table && 0 <= i < |table[id].attempts| && table[id].attempts[i].state == Running ==>
                table[id].progress != HippiusRunning || now <= table[id].attempts[i].expiry
    {
      forall id | id in table ensures IsSwept(table[id], Swept(table[id], now), now) { SweptIs(table[id], now); }
      var left := table.Keys;
      while left != {}
        invariant left <= table.Keys == old(table).Keys
        invariant forall id :: id in table ==> table[id] == if id in left then old(table)[id]
                  else Swept(old(table)[id], now)
        decreases left
      {
        var id :| id in left;
        left := left - {id};
        table := table[id := Swept(table[id], now)];
      }
    }
  }

  /** The attempt a sound submission is running. */
  ghost predicate IsAttemptOf(s: Submission, i: nat, maxAttempts: nat) {
    IsSound(s, maxAttempts) && s.progress == HippiusRunning && i == |s.attempts| - 1
  }

  /** Of all attempts of all submissions exactly this one changed, and ended in `state`. */
  predicate IsEnded(before: Table, after: Table, id: nat, i: nat, state: AttemptState)
    requires id in before && i < |before[id].attempts|
  {
    && (forall other :: other in before && other != id ==> other in after && after[other] == before[other])
    && id in after && after[id].hotkey == before[id].hotkey && after[id].rank == before[id].rank
    && |after[id].attempts| == |before[id].attempts|
    && after[id].attempts[i] == before[id].attempts[i].(state := state)
    && (forall j :: 0 <= j < |before[id].attempts| && j != i ==> after[id].attempts[j] == before[id].attempts[j])
  }

  function SweptTable(table: Table, now: int): Table {
    map id | id in table :: Swept(table[id], now)
  }
}
