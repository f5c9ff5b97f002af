/**
 * The validation worker's loop against everything else that writes submissions: `run` and `_finalize` of
 * `src/model_validation/validate_worker.py`.
 */
module ValidateWorker {
  import opened Results
  import opened LeaseQueue

  /**
   * What processing a model came to: stored, stored but for a hash another submission holds, an infrastructure fault,
   * or a fault of the miner.
   */
  datatype Outcome = Stored | HashTaken | Infra | MinerFault(code: Code) | OtherFault(code: Code)

  /** The worker between iterations, holding a claim, or past the strike gate with the count it saw there. */
  datatype Phase = Idle | Holding(id: nat, seen: Option<nat>)

  datatype State = State(table: Table, phase: Phase)

  datatype Config = Config(maxAttempts: nat, maxFails: nat)

  datatype Step =
    | Sweep(now: int)
    | Claim(id: nat, expiry: int)
    | Refuse(code: Code)
    | PassGate
    | Finish(outcome: Outcome)
    | Lose
    | Heartbeat(expiry: int)
    | Enqueue(id: nat, hotkey: string, rank: int)
    | Elsewhere(id: nat, s: Submission)

  function LastOf(s: Submission): nat
    requires s.attempts != []
  {
    |s.attempts| - 1
  }

  /** What `_finalize` makes of the claimed submission. */
  function Finished(s: Submission, outcome: Outcome, maxAttempts: nat): Submission
    requires s.attempts != []
  {
    match outcome
    case Stored => Done(s, LastOf(s))
    case HashTaken => Failed(s, LastOf(s), true, Duplicate)
    case Infra => Retried(s, LastOf(s), maxAttempts)
    case MinerFault(code) => Failed(s, LastOf(s), true, code)
    case OtherFault(code) => Failed(s, LastOf(s), false, code)
  }

  /**
   * One atomic step. Elsewhere is another service: it inserts a submission that is already over, or moves one this
   * stage is done with, on, to its end, or back to validated.
   */
  ghost predicate Next(c: Config, x: State, step: Step, y: State) {
    match step
    case Sweep(now) => x.phase == Idle && y == State(SweptTable(x.table, now), Idle)
    case Claim(id, expiry) =>
      && x.phase == Idle && id in x.table && IsClaimable(x.table[id])
      && y == State(x.table[id := Claimed(x.table[id], expiry)], Holding(id, None))
    case Refuse(code) =>
      && x.phase.Holding? && x.phase.seen.None? && IsExcluded(code) && IsHeld(x)
      && (code.PreevalBlocked? ==> Strikes(x.table, x.table[x.phase.id].hotkey) >= c.maxFails)
      && var s := x.table[x.phase.id];
         y == State(x.table[x.phase.id := Failed(s, LastOf(s), true, code)], Idle)
    case PassGate =>
      && x.phase.Holding? && x.phase.seen.None? && IsHeld(x)
      && var strikes := Strikes(x.table, x.table[x.phase.id].hotkey);
         strikes < c.maxFails && y == x.(phase := Holding(x.phase.id, Some(strikes)))
    case Finish(outcome) =>
      && x.phase.Holding? && x.phase.seen.Some? && IsHeld(x)
      && y == State(x.table[x.phase.id := Finished(x.table[x.phase.id], outcome, c.maxAttempts)], Idle)
    case Lose => x.phase.Holding? && y == x.(phase := Idle)
    case Heartbeat(expiry) =>
      && x.phase.Holding? && IsHeld(x)
      && var s := x.table[x.phase.id];
         var attempt := s.attempts[LastOf(s)].(expiry := expiry);
         y == x.(table := x.table[x.phase.id := s.(attempts := s.attempts[LastOf(s) := attempt])])
    case Enqueue(id, hotkey, rank) =>
      id !in x.table && y == x.(table := x.table[id := Submission(hotkey, rank, Submitted, [], 0)])
    case Elsewhere(id, s) =>
      && (if id in x.table
          then IsPassedOn(x.table[id]) && s.attempts == x.table[id].attempts && s.hotkey == x.table[id].hotkey
          else s.attempts == [])
      && (IsPassedOn(s) || s.progress.TerminalInvalid? || s.progress.TerminalInfraFailed?)
      && y == x.(table := x.table[id := s])
  }

  predicate IsPassedOn(s: Submission) { s.progress.HippiusValidated? || s.progress.Later? }

  predicate IsHeld(x: State) {
    x.phase.Holding? && x.phase.id in x.table && x.table[x.phase.id].attempts != []
  }

  // ---------------------------------------------------------------- what every run keeps

  ghost predicate Inv(c: Config, x: State) {
    && (forall id :: id in x.table ==> IsSound(x.table[id], c.maxAttempts))
    && (x.phase.Holding? ==> x.phase.id in x.table && x.table[x.phase.id].progress == HippiusRunning)
  }

  lemma StepKeeps(c: Config, x: State, step: Step, y: State)
    requires Inv(c, x) && Next(c, x, step, y)
    ensures Inv(c, y)
  {
    match step
    case Sweep(now) =>
      forall id | id in x.table ensures IsSound(Swept(x.table[id], now), c.maxAttempts) {
        SweepKeeps(x.table[id], now, c.maxAttempts);
      }
    case Claim(id, expiry) => ClaimKeeps(x.table[id], expiry, c.maxAttempts);
    case Refuse(code) => EndKeeps(x.table[x.phase.id], true, code, c.maxAttempts);
    case Finish(outcome) => FinishKeeps(x.table[x.phase.id], outcome, c.maxAttempts);
    case _ =>
  }

  lemma FinishKeeps(s: Submission, outcome: Outcome, maxAttempts: nat)
    requires IsSound(s, maxAttempts) && s.progress == HippiusRunning
    ensures IsSound(Finished(s, outcome, maxAttempts), maxAttempts)
  {
    EndKeeps(s, true, Duplicate, maxAttempts);
    if outcome.MinerFault? || outcome.OtherFault? { EndKeeps(s, outcome.MinerFault?, outcome.code, maxAttempts); }
  }

  ghost predicate IsPath(c: Config, states: seq<State>, steps: seq<Step>) {
    |states| == |steps| + 1 && forall k :: 0 <= k < |steps| ==> Next(c, states[k], steps[k], states[k + 1])
  }

  lemma {:induction false} PathKeeps(c: Config, states: seq<State>, steps: seq<Step>)
    requires IsPath(c, states, steps) && Inv(c, states[0])
    ensures Inv(c, states[|steps|])
    decreases |steps|
  {
    if steps != [] {
      var n := |steps| - 1;
      PathKeeps(c, states[..n + 1], steps[..n]);
      StepKeeps(c, states[n], steps[n], states[n + 1]);
    }
  }

  ghost predicate IsRun(c: Config, states: seq<State>, steps: seq<Step>) {
    IsPath(c, states, steps) && states[0] == State(map[], Idle)
  }

  lemma RunKeeps(c: Config, states: seq<State>, steps: seq<Step>, n: nat)
    requires IsRun(c, states, steps) && n < |states|
    ensures Inv(c, states[n])
  {
    PathKeeps(c, states[..n + 1], steps[..n]);
  }

  /** In every state of every run, for every submission. */
  lemma AttemptsAreSound(c: Config, states: seq<State>, steps: seq<Step>, n: nat, id: nat)
    requires IsRun(c, states, steps) && n < |states| && id in states[n].table && c.maxAttempts > 0
    ensures var s := states[n].table[id];
            && (forall i :: 0 <= i < |s.attempts| ==> s.attempts[i].number == i + 1)
            && Count(s.attempts, Running) == (if s.progress == HippiusRunning then 1 else 0)
            && Count(s.attempts, FailedRetryable) < c.maxAttempts
  {
    RunKeeps(c, states, steps, n);
    SoundCounts(states[n].table[id], c.maxAttempts);
  }

  // ---------------------------------------------------------------- strikes

  /** Whether a step adds a strike for a hotkey from outside the worker. */
  ghost predicate StrikesFromElsewhere(x: State, step: Step, y: State, hotkey: string) {
    step.Elsewhere? && Strikes(y.table, hotkey) != Strikes(x.table, hotkey)
  }

  lemma SweepAddsNone(table: Table, now: int, hotkey: string)
    ensures Strikes(SweptTable(table, now), hotkey) == Strikes(table, hotkey)
  {
    var swept := SweptTable(table, now);
    forall id | id in table ensures IsStrike(swept[id], hotkey) <==> IsStrike(table[id], hotkey) {
      if exists i :: 0 <= i < |table[id].attempts| && IsExpired(table[id], i, now) {
        assert table[id].progress == HippiusRunning;
      }
    }
    assert StrikeSet(swept, hotkey) == StrikeSet(table, hotkey);
  }

  /**
   * Only a miner's fault at the end of an iteration adds a strike, one, for the claimed hotkey; a refusal adds none.
   */
  lemma WorkerStrikes(c: Config, x: State, step: Step, y: State, hotkey: string)
    requires Inv(c, x) && Next(c, x, step, y) && !step.Elsewhere?
    ensures Strikes(y.table, hotkey) == Strikes(x.table, hotkey) + if AddsStrike(x, step, hotkey) then 1 else 0
  {
    match step
    case Sweep(now) => SweepAddsNone(x.table, now, hotkey);
    case Claim(id, expiry) => StrikesAfter(x.table, id, y.table[id], hotkey);
    case Refuse(_) => StrikesAfter(x.table, x.phase.id, y.table[x.phase.id], hotkey);
    case Finish(_) => StrikesAfter(x.table, x.phase.id, y.table[x.phase.id], hotkey);
    case Heartbeat(_) => StrikesAfter(x.table, x.phase.id, y.table[x.phase.id], hotkey);
    case Enqueue(id, _, _) => StrikesAfter(x.table, id, y.table[id], hotkey);
    case _ =>
  }

  predicate AddsStrike(x: State, step: Step, hotkey: string) {
    && step.Finish? && IsHeld(x) && x.table[x.phase.id].hotkey == hotkey
    && (step.outcome.HashTaken? || (step.outcome.MinerFault? && !IsExcluded(step.outcome.code)))
  }

  /** Another service only ever adds strikes, one at a time. */
  lemma ElsewhereAddsOne(c: Config, x: State, step: Step, y: State, hotkey: string)
    requires Next(c, x, step, y) && step.Elsewhere?
    ensures y.phase == x.phase
    ensures Strikes(y.table, hotkey) == Strikes(x.table, hotkey) + if StrikesFromElsewhere(x, step, y, hotkey) then 1
            else 0
  {
    StrikesAfter(x.table, step.id, step.s, hotkey);
  }

  /** How many of the steps from `from` up to `n` add a strike from elsewhere. */
  ghost function Outside(states: seq<State>, steps: seq<Step>, from: nat, n: nat, hotkey: string): nat
    requires from <= n <= |steps| && |states| == |steps| + 1
  {
    if from == n then 0 else Outside(states, steps, from, n - 1, hotkey) + OutsideAt(states, steps, n - 1, hotkey)
  }

  /** The worker is past the strike gate with a submission of this hotkey. */
  predicate IsPastGate(x: State, hotkey: string) {
    IsHeld(x) && x.phase.seen.Some? && x.table[x.phase.id].hotkey == hotkey
  }

  /** Within the budget: no more strikes than the limit and those from elsewhere, and fewer past the gate. */
  ghost predicate InBudget(c: Config, x: State, outside: nat, hotkey: string) {
    && Strikes(x.table, hotkey) <= c.maxFails + outside
    && (IsPastGate(x, hotkey) ==> Strikes(x.table, hotkey) < c.maxFails + outside)
  }

  lemma BudgetStep(c: Config, x: State, step: Step, y: State, outside: nat, hotkey: string)
    requires Inv(c, x) && Next(c, x, step, y) && InBudget(c, x, outside, hotkey)
    ensures InBudget(c, y, outside + if StrikesFromElsewhere(x, step, y, hotkey) then 1 else 0, hotkey)
  {
    if step.Elsewhere? {
      ElsewhereAddsOne(c, x, step, y, hotkey);
    } else {
      WorkerStrikes(c, x, step, y, hotkey);
    }
  }

  lemma BudgetStepOf(c: Config, states: seq<State>, steps: seq<Step>, n: nat, outside: nat, hotkey: string)
    requires IsRun(c, states, steps) && n < |steps| && InBudget(c, states[n], outside, hotkey)
    ensures InBudget(c, states[n + 1], outside + OutsideAt(states, steps, n, hotkey), hotkey)
  {
    StepOf(c, states, steps, n);
    BudgetStep(c, states[n], steps[n], states[n + 1], outside, hotkey);
  }

  /** In every state of every run a hotkey has no more strikes than the limit and those that other services added. */
  lemma {:induction false} StrikesStayInBudget(c: Config, states: seq<State>, steps: seq<Step>, n: nat, hotkey: string)
    requires IsRun(c, states, steps) && n < |states|
    ensures InBudget(c, states[n], Outside(states, steps, 0, n, hotkey), hotkey)
  {
    if n > 0 {
      StrikesStayInBudget(c, states, steps, n - 1, hotkey);
      BudgetStepOf(c, states, steps, n - 1, Outside(states, steps, 0, n - 1, hotkey), hotkey);
    } else {
      assert StrikeSet(map[], hotkey) == {};
    }
  }

  /** The gate was passed at step `gate` for what the worker still holds before step `n`. */
  ghost predicate IsGate(states: seq<State>, steps: seq<Step>, gate: nat, n: nat)
    requires n <= |steps| && |states| == |steps| + 1
  {
    gate < n && steps[gate].PassGate? && forall k :: gate < k <= n ==> states[k].phase == states[n].phase
  }

  /** Past the gate the worker's own steps add no strike, so the count is what it saw and what came from elsewhere. */
  lemma HeldStep(c: Config, x: State, step: Step, y: State, hotkey: string)
    requires Inv(c, x) && Next(c, x, step, y) && IsPastGate(x, hotkey) && y.phase == x.phase
    ensures IsPastGate(y, hotkey)
    ensures Strikes(y.table, hotkey) == Strikes(x.table, hotkey) + if StrikesFromElsewhere(x, step, y, hotkey) then 1
            else 0
  {
    if step.Elsewhere? {
      ElsewhereAddsOne(c, x, step, y, hotkey);
    } else {
      WorkerStrikes(c, x, step, y, hotkey);
    }
  }

  lemma StepOf(c: Config, states: seq<State>, steps: seq<Step>, n: nat)
    requires IsRun(c, states, steps) && n < |steps|
    ensures Inv(c, states[n]) && Next(c, states[n], steps[n], states[n + 1])
  {
    RunKeeps(c, states, steps, n);
  }

  lemma SeenAtGate(c: Config, x: State, step: Step, y: State, hotkey: string)
    requires Next(c, x, step, y) && step.PassGate? && IsPastGate(y, hotkey)
    ensures Strikes(y.table, hotkey) == y.phase.seen.value
  {
  }

  /** What step `n` adds to the strikes of a hotkey from elsewhere. */
  ghost function OutsideAt(states: seq<State>, steps: seq<Step>, n: nat, hotkey: string): nat
    requires n < |steps| && |states| == |steps| + 1
  {
    if StrikesFromElsewhere(states[n], steps[n], states[n + 1], hotkey) then 1 else 0
  }

  lemma HeldStepOf(c: Config, states: seq<State>, steps: seq<Step>, n: nat, hotkey: string)
    requires IsRun(c, states, steps) && n < |steps| && IsPastGate(states[n], hotkey)
             && states[n + 1].phase == states[n].phase
    ensures IsPastGate(states[n + 1], hotkey)
    ensures Strikes(states[n + 1].table, hotkey) == Strikes(states[n].table, hotkey)
            + OutsideAt(states, steps, n, hotkey)
  {
    StepOf(c, states, steps, n);
    HeldStep(c, states[n], steps[n], states[n + 1], hotkey);
  }

  lemma GateStepOf(c: Config, states: seq<State>, steps: seq<Step>, gate: nat, hotkey: string)
    requires IsRun(c, states, steps) && gate < |steps| && steps[gate].PassGate? && IsPastGate(states[gate + 1], hotkey)
    ensures Strikes(states[gate + 1].table, hotkey) == states[gate + 1].phase.seen.value
  {
    StepOf(c, states, steps, gate);
    SeenAtGate(c, states[gate], steps[gate], states[gate + 1], hotkey);
  }

  lemma EarlierGate(states: seq<State>, steps: seq<Step>, gate: nat, n: nat)
    requires n <= |steps| && |states| == |steps| + 1 && IsGate(states, steps, gate, n) && gate + 1 < n
    ensures IsGate(states, steps, gate, n - 1) && states[n - 1].phase == states[n].phase
  {
  }

  lemma {:induction false} SeenAndOutside(
    c: Config, states: seq<State>, steps: seq<Step>, gate: nat, n: nat, hotkey: string)
    requires IsRun(c, states, steps) && n <= |steps| && IsGate(states, steps, gate, n)
    requires IsPastGate(states[gate + 1], hotkey)
    ensures IsPastGate(states[n], hotkey)
    ensures Strikes(states[n].table, hotkey) == states[n].phase.seen.value + Outside(states, steps, gate + 1, n, hotkey)
    decreases n
  {
    if gate + 1 == n {
      GateStepOf(c, states, steps, gate, hotkey);
    } else {
      EarlierGate(states, steps, gate, n);
      SeenAndOutside(c, states, steps, gate, n - 1, hotkey);
      SeenOneMore(c, states, steps, gate, n, hotkey);
    }
  }

  lemma SeenOneMore(c: Config, states: seq<State>, steps: seq<Step>, gate: nat, n: nat, hotkey: string)
    requires IsRun(c, states, steps) && gate + 1 < n <= |steps| && states[n - 1].phase == states[n].phase
    requires IsPastGate(states[n - 1], hotkey)
    requires Strikes(states[n - 1].table, hotkey)
             == states[n - 1].phase.seen.value + Outside(states, steps, gate + 1, n - 1, hotkey)
    ensures IsPastGate(states[n], hotkey)
    ensures Strikes(states[n].table, hotkey) == states[n].phase.seen.value + Outside(states, steps, gate + 1, n, hotkey)
  {
    HeldStepOf(c, states, steps, n - 1, hotkey);
  }

  /** Whoever is past the gate passed it. */
  lemma {:induction false} GateOf(c: Config, states: seq<State>, steps: seq<Step>, n: nat, hotkey: string)
    returns (gate: nat)
    requires IsRun(c, states, steps) && n <= |steps| && IsPastGate(states[n], hotkey)
    ensures IsGate(states, steps, gate, n) && IsPastGate(states[gate + 1], hotkey)
    decreases n
  {
    RunKeeps(c, states, steps, n - 1);
    assert Next(c, states[n - 1], steps[n - 1], states[n]);
    if steps[n - 1].PassGate? {
      gate := n - 1;
    } else {
      HeldBefore(c, states[n - 1], steps[n - 1], states[n], hotkey);
      gate := GateOf(c, states, steps, n - 1, hotkey);
    }
  }

  lemma HeldBefore(c: Config, x: State, step: Step, y: State, hotkey: string)
    requires Inv(c, x) && Next(c, x, step, y) && IsPastGate(y, hotkey) && !step.PassGate?
    ensures IsPastGate(x, hotkey) && x.phase == y.phase
  {
  }

  /** Step `n` adds a strike, and since its gate as many came from elsewhere as the gate had left. */
  ghost predicate IsOverspent(c: Config, states: seq<State>, steps: seq<Step>, gate: nat, n: nat, hotkey: string)
    requires n < |steps| && |states| == |steps| + 1
  {
    && IsGate(states, steps, gate, n) && AddsStrike(states[n], steps[n], hotkey) && states[n].phase.seen.Some?
    && Outside(states, steps, gate + 1, n, hotkey) >= c.maxFails - states[n].phase.seen.value
  }

  /**
   * Exactly when a step of the worker takes a hotkey past the limit: it adds a strike, and between the gate and this
   * step other services added at least as many as the limit had left at the gate.
   */
  lemma OverBudgetWhen(c: Config, states: seq<State>, steps: seq<Step>, n: nat, hotkey: string)
    requires IsRun(c, states, steps) && n < |steps| && !steps[n].Elsewhere?
    ensures Strikes(states[n + 1].table, hotkey) > Strikes(states[n].table, hotkey)
            && Strikes(states[n + 1].table, hotkey) > c.maxFails
       <==> exists gate :: IsOverspent(c, states, steps, gate, n, hotkey)
  {
    RunKeeps(c, states, steps, n);
    assert Next(c, states[n], steps[n], states[n + 1]);
    WorkerStrikes(c, states[n], steps[n], states[n + 1], hotkey);
    if AddsStrike(states[n], steps[n], hotkey) {
      var gate := GateOf(c, states, steps, n, hotkey);
      SeenAndOutside(c, states, steps, gate, n, hotkey);
      forall other | IsGate(states, steps, other, n) ensures other == gate {
        OneGate(c, states, steps, gate, other, n);
      }
      assert IsOverspent(c, states, steps, gate, n, hotkey) <==> Strikes(states[n].table, hotkey) >= c.maxFails;
    }
  }

  lemma OneGate(c: Config, states: seq<State>, steps: seq<Step>, gate: nat, other: nat, n: nat)
    requires IsRun(c, states, steps) && n <= |steps| && IsGate(states, steps, gate, n)
             && IsGate(states, steps, other, n)
    ensures gate == other
  {
    var low, high := if gate < other then gate else other, if gate < other then other else gate;
    assert Next(c, states[low], steps[low], states[low + 1]) && Next(c, states[high], steps[high], states[high + 1]);
    assert states[high].phase.seen.None? && states[high + 1].phase == states[n].phase;
  }

  // ---------------------------------------------------------------- a run past the limit

  /**
   * With a limit of one: the gate is passed without strikes, the chain reader rejects a reused commit of the hotkey,
   * and the validation fails all the same. The hotkey ends with two strikes.
   */
  lemma StrikeBetweenGateAndFault(hotkey: string) returns (states: seq<State>, steps: seq<Step>)
    ensures var c := Config(5, 1);
            IsRun(c, states, steps) && Strikes(states[|steps|].table, hotkey) > c.maxFails
  {
    var c := Config(5, 1);
    var s := Submission(hotkey, 0, Submitted, [], 0);
    var claimed := Claimed(s, 0);
    var reused := Submission(hotkey, 1, TerminalInvalid(true, OtherCode("hotkey_reused")), [], 0);
    var failed := Finished(claimed, MinerFault(OtherCode("")), 5);
    var t1: Table := map[0 := s];
    var t2 := t1[0 := claimed];
    var t3 := t2[1 := reused];
    var t4 := t3[0 := failed];
    states := [State(map[], Idle), State(t1, Idle), State(t2, Holding(0, None)), State(t2, Holding(0, Some(0))),
               State(t3, Holding(0, Some(0))), State(t4, Idle)];
    steps := [Enqueue(0, hotkey, 0), Claim(0, 0), PassGate, Elsewhere(1, reused), Finish(MinerFault(OtherCode("")))];
    assert StrikeSet(t2, hotkey) == {};
    StrikesAfter(t2, 1, reused, hotkey);
    StrikesAfter(t3, 0, failed, hotkey);
    assert t1 == map[][0 := s];
  }

  // ---------------------------------------------------------------- one iteration of the loop

  /** What an iteration finds out besides the table: the clock, who may be claimed, and the answers of other queries. */
  datatype Facts = Facts(
    now: int, expiry: int, due: set<nat>, reregistered: bool, sanityBlocked: bool, validated: bool, hashHeld: bool,
    outcome: Outcome)

  /** A submission of the hotkey was refused as a duplicate: `hotkey_duplicate_block_reason`. */
  predicate HasDuplicate(table: Table, hotkey: string) {
    exists id :: id in table && IsDuplicate(table[id], hotkey)
  }

  predicate IsDuplicate(s: Submission, hotkey: string) {
    s.hotkey == hotkey && s.progress == TerminalInvalid(true, Duplicate)
  }

  /** The first gate that refuses a claim, in the order the loop asks. */
  function Refusal(table: Table, hotkey: string, f: Facts, maxFails: nat): Option<Code> {
    if f.reregistered then Some(Reregistered)
    else if f.sanityBlocked then Some(SanityBlocked)
    else if HasDuplicate(table, hotkey) then Some(DuplicateBlocked)
    else if Strikes(table, hotkey) >= maxFails then Some(PreevalBlocked)
    else if f.validated then Some(AlreadyValidated)
    else None
  }

  class Worker {
    const queue: Queue

    constructor (queue: Queue)
      ensures this.queue == queue
    {
      this.queue := queue;
    }

    /** `_finalize`: a hash another submission holds is found out only when the result is stored. */
    method Finalize(id: nat, outcome: Outcome)
      requires id in queue.table && queue.table[id].attempts != []
      modifies queue`table
      ensures queue.table == old(queue.table)[id := Finished(old(queue.table)[id], outcome, queue.maxAttempts)]
    {
      var i := |queue.table[id].attempts| - 1;
      match outcome {
        case Stored => queue.MarkDone(id, i);
        case HashTaken => queue.MarkFailed(id, i, true, Duplicate);
        case Infra => queue.MarkRetry(id, i);
        case MinerFault(code) => queue.MarkFailed(id, i, true, code);
        case OtherFault(code) => queue.MarkFailed(id, i, false, code);
      }
    }

    /** The gates, and validation past them. */
    method Settle(id: nat, f: Facts) returns (ghost states: seq<State>, ghost steps: seq<Step>)
      requires Inv(Limits(), State(queue.table, Holding(id, None)))
      modifies queue`table
      ensures IsPath(Limits(), states, steps)
      ensures states[0] == State(old(queue.table), Holding(id, None)) && states[|steps|] == State(queue.table, Idle)
      ensures queue.table == old(queue.table)[id := Settled(old(queue.table), id, f, Limits())]
    {
      ghost var held := State(queue.table, Holding(id, None));
      var s := queue.table[id];
      var refusal := Refusal(queue.table, s.hotkey, f, queue.maxFails);
      if refusal.Some? {
        queue.MarkFailed(id, LastOf(s), true, refusal.value);
        states, steps := [held, State(queue.table, Idle)], [Refuse(refusal.value)];
      } else {
        ghost var passed := State(queue.table, Holding(id, Some(Strikes(queue.table, s.hotkey))));
        var outcome := if f.hashHeld then HashTaken else f.outcome;
        Finalize(id, outcome);
        states, steps := [held, passed, State(queue.table, Idle)], [PassGate, Finish(outcome)];
      }
    }

    /**
     * One turn of the loop when nobody else writes: sweep, claim the first submission, refuse it at the first gate that
     * says so or finish it. It is a path of the steps above, and a submission is finished only past every gate.
     */
    method Iterate(f: Facts) returns (claimed: Option<nat>, ghost states: seq<State>, ghost steps: seq<Step>)
      requires Inv(Limits(), State(queue.table, Idle))
      modifies queue`table
      ensures IsPath(Limits(), states, steps)
      ensures states[0] == State(old(queue.table), Idle) && states[|steps|] == State(queue.table, Idle)
      ensures Inv(Limits(), State(queue.table, Idle))
      ensures var swept := SweptTable(old(queue.table), f.now);
              if claimed.None? then queue.table == swept
              else
                && claimed.value in swept && IsClaimable(swept[claimed.value])
                && var table := swept[claimed.value := Claimed(swept[claimed.value], f.expiry)];
                   queue.table == table[claimed.value := Settled(table, claimed.value, f, Limits())]
    {
      ghost var start := State(queue.table, Idle);
      queue.SweepExpired(f.now);
      ghost var swept := State(queue.table, Idle);
      states, steps := [start, swept], [Sweep(f.now)];
      PathKeeps(Limits(), states, steps);
      claimed := queue.ClaimNext(f.due, f.expiry);
      if claimed.Some? {
        var id := claimed.value;
        ghost var held := State(queue.table, Holding(id, None));
        StepKeeps(Limits(), swept, Claim(id, f.expiry), held);
        ghost var more, moreSteps := Settle(id, f);
        PathKeeps(Limits(), more, moreSteps);
        JoinPaths(Limits(), states, steps, Claim(id, f.expiry), more, moreSteps);
        states, steps := states + more, steps + [Claim(id, f.expiry)] + moreSteps;
      }
    }

    function Limits(): Config
      reads queue
    {
      Config(queue.maxAttempts, queue.maxFails)
    }
  }

  /** What becomes of a claimed submission. */
  function Settled(table: Table, id: nat, f: Facts, c: Config): Submission
    requires id in table && table[id].attempts != []
  {
    var s := table[id];
    var refusal := Refusal(table, s.hotkey, f, c.maxFails);
    if refusal.Some? then Failed(s, LastOf(s), true, refusal.value)
    else if f.hashHeld then Failed(s, LastOf(s), true, Duplicate)
    else Finished(s, f.outcome, c.maxAttempts)
  }

  lemma JoinPaths(c: Config, a: seq<State>, s: seq<Step>, link: Step, b: seq<State>, t: seq<Step>)
    requires IsPath(c, a, s) && IsPath(c, b, t) && Next(c, a[|s|], link, b[0])
    ensures IsPath(c, a + b, s + [link] + t) && (a + b)[0] == a[0] && (a + b)[|s + [link] + t|] == b[|t|]
  {
    var states, steps := a + b, s + [link] + t;
    forall k | 0 <= k < |steps| ensures Next(c, states[k], steps[k], states[k + 1]) {
      if k < |s| {
        assert states[k] == a[k] && states[k + 1] == a[k + 1] && steps[k] == s[k];
      } else if k > |s| {
        assert states[k] == b[k - |s| - 1] && states[k + 1] == b[k - |s|] && steps[k] == t[k - |s| - 1];
      }
    }
  }
}
