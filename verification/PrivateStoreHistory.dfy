/** What whole runs of the private-upload protocol say about replayed signals and about the reaper. */
module PrivateStoreHistory {
  import opened Contracts
  import opened Results
  import opened Storage
  import opened Texts
  import opened PrivateStore
  import opened PrivateStoreSafety

  // ---------------------------------------------------------------- signals

  /** The signal changes its row; every scan yields every signal again, most of them without effect. */
  predicate IsApplied(cfg: Config, s: State, step: Step) {
    match step
    case Activate(rid, block, pubkey) =>
      rid !in s.regs || Rekeyed(s.regs[rid].row, block, pubkey, cfg.maxAttempts).Some?
    case SignalReady(rid, block, manifest) => rid in s.regs && MadeReady(s.regs[rid].row, block, manifest).Some?
    case _ => false
  }

  /** A registration is never lost, and its activation block and attempt number never go down. */
  ghost predicate Grows(s: State, s': State) {
    forall rid :: rid in s.regs ==>
      && rid in s'.regs
      && s.regs[rid].row.activationBlock <= s'.regs[rid].row.activationBlock
      && s.regs[rid].row.attempts <= s'.regs[rid].row.attempts
  }

  /** The controller's own effects leave both counters alone. */
  lemma AdvanceGrows(cfg: Config, s: State, id: nat, fate: Fate, s': State)
    requires Advances(cfg, s, id, fate, s')
    ensures Grows(s, s')
  {
  }

  lemma StepGrows(cfg: Config, s: State, step: Step, s': State)
    requires Next(cfg, s, step, s')
    ensures Grows(s, s')
  {
    if step.Advance? { AdvanceGrows(cfg, s, step.id, step.fate, s'); } else { OtherStepGrows(cfg, s, step, s'); }
  }

  lemma OtherStepGrows(cfg: Config, s: State, step: Step, s': State)
    requires Next(cfg, s, step, s') && !step.Advance?
    ensures Grows(s, s')
  {
  }

  lemma {:induction false} RunGrows(cfg: Config, states: seq<State>, steps: seq<Step>, i: nat, j: nat)
    requires IsRun(cfg, states, steps) && i <= j < |states|
    ensures Grows(states[i], states[j])
  {
    if i < j {
      RunGrows(cfg, states, steps, i, j - 1);
      StepGrows(cfg, states[j - 1], steps[j - 1], states[j]);
    }
  }

  /** Applied activates of one registration come in strictly increasing blocks, so none is applied twice. */
  lemma ActivatesIncrease(cfg: Config, states: seq<State>, steps: seq<Step>, i: nat, j: nat)
    requires IsRun(cfg, states, steps) && i < j < |steps|
    requires steps[i].Activate? && steps[j].Activate? && steps[i].rid == steps[j].rid
    requires IsApplied(cfg, states[i], steps[i]) && IsApplied(cfg, states[j], steps[j])
    ensures steps[i].block < steps[j].block
  {
    var rid := steps[i].rid;
    assert Next(cfg, states[i], steps[i], states[i + 1]);
    assert states[i + 1].regs[rid].row.activationBlock == steps[i].block;
    RunGrows(cfg, states, steps, i + 1, j);
  }

  /** The upload budget holds in every reachable state. */
  lemma AttemptsBounded(cfg: Config, states: seq<State>, steps: seq<Step>, i: nat, rid: string)
    requires IsPrefixFree(cfg) && IsRun(cfg, states, steps) && i < |states| && rid in states[i].regs
    requires cfg.maxAttempts >= 1
    ensures 1 <= states[i].regs[rid].row.attempts <= cfg.maxAttempts + states[i].regs[rid].row.extra
  {
    RunsAreSafe(cfg, states, steps, i);
    assert RegOk(cfg, rid, states[i].regs[rid]);
  }

  /** Once an attempt is parked, no signal from its ready block or before is ever applied to the registration again. */
  lemma NothingOldAfterParking(cfg: Config, states: seq<State>, steps: seq<Step>, i: nat, j: nat)
    requires IsPrefixFree(cfg) && IsRun(cfg, states, steps) && i < j < |steps|
    requires steps[i].Park? && (steps[j].Activate? || steps[j].SignalReady?) && steps[j].rid == steps[i].rid
    requires IsApplied(cfg, states[j], steps[j])
    ensures steps[i].rid in states[i].regs && states[i].regs[steps[i].rid].row.readyBlock.Some?
    ensures steps[j].block > states[i].regs[steps[i].rid].row.readyBlock.value
  {
    var rid := steps[i].rid;
    RunsAreSafe(cfg, states, steps, i);
    assert Next(cfg, states[i], steps[i], states[i + 1]);
    var reg := states[i].regs[rid];
    assert RegOk(cfg, rid, reg);
    var p :| IsCommitOf(reg, p, reg.row.submission.value);
    assert HasBlock(states[i], reg.commits[p].block);
    assert states[i + 1].regs[rid].row.activationBlock >= reg.row.readyBlock.value;
    RunGrows(cfg, states, steps, i + 1, j);
  }

  // ---------------------------------------------------------------- the reaper

  /**
   * Exactly when the reaper takes what a live registration is working on: its row has no prefix stored yet and is
   * past its first attempt. `_prefix_of` then falls back to attempt 1, so the protection misses the current upload.
   */
  lemma LiveUploadIsVictim(cfg: Config, s: State, newest: map<string, int>, cutoff: int, rid: string)
    requires IsPrefixFree(cfg) && StoreOk(cfg, s) && rid in s.regs && IsLive(s.regs[rid])
    ensures var prefix := cfg.prefix(Current(rid, s.regs[rid].row));
            var taken := prefix in PlanReap(newest, cutoff, Protected(cfg, s));
            taken <==> prefix in newest && newest[prefix] < cutoff && IsUnguarded(s.regs[rid].row)
  {
    var row := s.regs[rid].row;
    var mine := Current(rid, row);
    var prefix := cfg.prefix(mine);
    assert RegOk(cfg, rid, s.regs[rid]);
    assert PrefixOf(cfg, rid, row) in Protected(cfg, s);
    if IsUnguarded(row) && prefix in Protected(cfg, s) {
      var other :| other in s.regs && IsLive(s.regs[other]) && PrefixOf(cfg, other, s.regs[other].row) == prefix;
      ProtectedUpload(cfg, s, other);
      var u :| IsUpload(cfg, u) && u.registrationId == other && cfg.prefix(u) == prefix
               && ((u == Current(other, s.regs[other].row) && !IsUnguarded(s.regs[other].row)) || u.attempt == 1);
      assert IsKeyOf(cfg, u, prefix) && IsKeyOf(cfg, mine, prefix) && IsUpload(cfg, mine);
    }
  }

  lemma ProtectedUpload(cfg: Config, s: State, rid: string)
    requires StoreOk(cfg, s) && rid in s.regs && IsLive(s.regs[rid])
    ensures exists u ::
              && IsUpload(cfg, u) && u.registrationId == rid && cfg.prefix(u) == PrefixOf(cfg, rid, s.regs[rid].row)
              && ((u == Current(rid, s.regs[rid].row) && !IsUnguarded(s.regs[rid].row)) || u.attempt == 1)
  {
    var row := s.regs[rid].row;
    assert RegOk(cfg, rid, s.regs[rid]);
    if row.prefix.Some? {
      var u := Current(rid, row);
      assert cfg.prefix(u) == PrefixOf(cfg, rid, row);
    } else {
      var u := Upload(rid, 1);
      assert IsUpload(cfg, u);
    }
  }

  /** No step of the reaper deletes a byte a live registration is working on, save in that one case. */
  lemma ReaperSparesLiveUploads(cfg: Config, states: seq<State>, steps: seq<Step>, i: nat, rid: string)
    requires IsPrefixFree(cfg) && IsRun(cfg, states, steps) && i < |steps| && steps[i].DeleteKey?
    requires rid in states[i].regs && IsLive(states[i].regs[rid])
    requires IsKeyOf(cfg, Current(rid, states[i].regs[rid].row), steps[i].key)
    ensures IsUnguarded(states[i].regs[rid].row)
  {
    RunsAreSafe(cfg, states, steps, i);
    var s := states[i];
    assert Next(cfg, s, steps[i], states[i + 1]) && RegOk(cfg, rid, s.regs[rid]);
    var u :| IsUpload(cfg, u) && cfg.prefix(u) == steps[i].victim && IsSpent(s, u);
    assert IsKeyOf(cfg, u, steps[i].key) && IsUpload(cfg, Current(rid, s.regs[rid].row));
  }

  /** The registration is past this upload, or at it with nothing left to do. */
  predicate IsPast(s: State, u: Upload) {
    && IsIssued(s, u)
    && (u.attempt == s.regs[u.registrationId].row.attempts ==> !IsLive(s.regs[u.registrationId]))
  }

  lemma StepKeepsPast(cfg: Config, s: State, step: Step, s': State, u: Upload)
    requires Inv(cfg, s) && Next(cfg, s, step, s') && IsPast(s, u)
    ensures IsPast(s', u)
  {
    if step.Advance? {
      AdvanceOnLive(cfg, s, step, s');
      AdvanceGrows(cfg, s, step.id, step.fate, s');
    } else {
      assert RegOk(cfg, u.registrationId, s.regs[u.registrationId]);
      OtherStepKeepsPast(cfg, s, step, s', u);
    }
  }

  lemma OtherStepKeepsPast(cfg: Config, s: State, step: Step, s': State, u: Upload)
    requires Next(cfg, s, step, s') && !step.Advance? && IsPast(s, u)
    requires var reg := s.regs[u.registrationId];
             reg.row.submission.Some? ==> reg.row.state == Submitted && reg.row.submission.value in reg.submissions
    ensures IsPast(s', u)
  {
  }

  /** The controller only ever works on live rows. */
  lemma AdvanceOnLive(cfg: Config, s: State, step: Step, s': State)
    requires Inv(cfg, s) && Next(cfg, s, step, s') && step.Advance?
    ensures s.job.Credentialing? || s.job.Revoking? || s.job.Verifying? || s.job.Closing?
    ensures s.job.rid in s.regs && IsLive(s.regs[s.job.rid])
    ensures s'.regs == s.regs[s.job.rid := s'.regs[s.job.rid]]
    ensures Advances(cfg, s, step.id, step.fate, s')
  {
    assert RegOk(cfg, s.job.rid, s.regs[s.job.rid]);
  }

  lemma PastOneStep(cfg: Config, states: seq<State>, steps: seq<Step>, i: nat, u: Upload)
    requires IsPrefixFree(cfg) && IsRun(cfg, states, steps) && i < |steps| && IsPast(states[i], u)
    ensures IsPast(states[i + 1], u)
  {
    RunsAreSafe(cfg, states, steps, i);
    StepKeepsPast(cfg, states[i], steps[i], states[i + 1], u);
  }

  lemma {:induction false} PastForever(cfg: Config, states: seq<State>, steps: seq<Step>, i: nat, j: nat, u: Upload)
    requires IsPrefixFree(cfg) && IsRun(cfg, states, steps) && i <= j < |states| && IsPast(states[i], u)
    ensures IsPast(states[j], u)
  {
    if i < j {
      PastForever(cfg, states, steps, i, j - 1, u);
      PastOneStep(cfg, states, steps, j - 1, u);
    }
  }

  /** An attempt the reaper has taken bytes from is never worked on again, save an unguarded row's own. */
  lemma ReapedNeverReturns(cfg: Config, states: seq<State>, steps: seq<Step>, i: nat, j: nat, u: Upload)
    requires IsPrefixFree(cfg) && IsRun(cfg, states, steps) && i < |steps| && i < j < |states|
    requires steps[i].DeleteKey? && IsUpload(cfg, u) && IsKeyOf(cfg, u, steps[i].key)
    requires u.registrationId in states[i].regs
    requires u == Current(u.registrationId, states[i].regs[u.registrationId].row) ==>
               !IsUnguarded(states[i].regs[u.registrationId].row)
    ensures var rid := u.registrationId;
            rid in states[j].regs && !(IsLive(states[j].regs[rid]) && Current(rid, states[j].regs[rid].row) == u)
  {
    RunsAreSafe(cfg, states, steps, i);
    assert Next(cfg, states[i], steps[i], states[i + 1]);
    var v :| IsUpload(cfg, v) && cfg.prefix(v) == steps[i].victim && IsSpent(states[i], v);
    assert IsKeyOf(cfg, v, steps[i].key) && v == u;
    PastForever(cfg, states, steps, i, j, u);
  }

  // ---------------------------------------------------------------- the unguarded row is reachable

  lemma Extend(cfg: Config, states: seq<State>, steps: seq<Step>, step: Step, s': State)
    requires IsRun(cfg, states, steps) && Next(cfg, states[|states| - 1], step, s')
    ensures IsRun(cfg, states + [s'], steps + [step])
  {
    var all, done := states + [s'], steps + [step];
    forall i | 0 <= i < |done| ensures Next(cfg, all[i], done[i], all[i + 1]) {
      if i < |steps| {
        assert Next(cfg, states[i], steps[i], states[i + 1]);
      }
    }
  }

  /** Attempt 2 of `rid`, with credentials out and nothing stored about them. */
  function Published(rid: string): Reg {
    Reg(FirstRow(1, "a").(pubkey := "b", attempts := 2, activationBlock := 2), map[7 := Upload(rid, 2)], true, map[],
        map[])
  }

  /** The same registration before the controller has done anything for it. */
  function Rekeyed2(rid: string): Reg {
    Published(rid).(envelope := false, tokens := map[])
  }

  lemma ActivatedTwice(cfg: Config, rid: string, start: State) returns (states: seq<State>, steps: seq<Step>)
    requires IsInitial(start) && cfg.isRid(rid) && cfg.maxAttempts >= 2
    ensures IsRun(cfg, states, steps) && states[|steps|]
            == start.(regs := map[rid := Rekeyed2(rid)], job := Credentialing(rid, RevokeOld))
  {
    var first := Rekeyed2(rid).(row := FirstRow(1, "a"));
    var s2 := start.(regs := map[rid := Rekeyed2(rid)]);
    states, steps := [start], [];
    states, steps := Then(cfg, states, steps, Activate(rid, 1, "a"), start.(regs := map[rid := first]));
    states, steps := Then(cfg, states, steps, Activate(rid, 2, "b"), s2);
    states, steps := Then(cfg, states, steps, Pick(rid), s2.(job := Credentialing(rid, RevokeOld)));
  }

  lemma MintedForTwo(cfg: Config, rid: string, start: State) returns (states: seq<State>, steps: seq<Step>)
    requires IsInitial(start) && cfg.isRid(rid) && cfg.maxAttempts >= 2
    ensures IsRun(cfg, states, steps)
    ensures states[|steps|]
         == start.(regs := map[rid := Published(rid).(envelope := false)], job := Credentialing(rid, ClearEnvelope(7)))
  {
    states, steps := ActivatedTwice(cfg, rid, start);
    var s2 := start.(regs := map[rid := Rekeyed2(rid)]);
    assert Rekeyed2(rid).tokens.Keys == {};
    var s3 := start.(regs := map[rid := Published(rid).(envelope := false)]);
    states, steps := Then(cfg, states, steps, Advance(7, Running), s2.(job := Credentialing(rid, ListTokens)));
    states, steps := Then(cfg, states, steps, Advance(7, Running), s2.(job := Credentialing(rid, RevokeListed({}))));
    states, steps := Then(cfg, states, steps, Advance(7, Running), s2.(job := Credentialing(rid, Mint)));
    states, steps := Then(cfg, states, steps, Advance(7, Running), s3.(job := Credentialing(rid, ClearEnvelope(7))));
  }

  /** The miner activates twice; the controller publishes credentials for attempt 2 and crashes before storing them. */
  lemma CrashAfterPublish(cfg: Config, rid: string, start: State) returns (states: seq<State>, steps: seq<Step>)
    requires IsInitial(start) && cfg.isRid(rid) && cfg.maxAttempts >= 2
    ensures IsRun(cfg, states, steps) && states[|steps|] == start.(regs := map[rid := Published(rid)])
  {
    states, steps := MintedForTwo(cfg, rid, start);
    var s3 := start.(regs := map[rid := Published(rid).(envelope := false)]);
    var s4 := start.(regs := map[rid := Published(rid)]);
    states, steps := Then(cfg, states, steps, Advance(7, Running), s3.(job := Credentialing(rid, Publish(7))));
    states, steps := Then(cfg, states, steps, Advance(7, Running), s4.(job := Credentialing(rid, StoreCredential(7))));
    states, steps := Then(cfg, states, steps, Crash, s4);
  }

  /**
   * A run in which the reaper deletes what a live registration is working on: after that crash the miner uploads,
   * and the upload is older than the cutoff when the controller is back and reaps before its next tick.
   */
  lemma UnguardedUploadIsReaped(cfg: Config, rid: string, start: State, file: Object)
    returns (states: seq<State>, steps: seq<Step>)
    requires IsInitial(start) && IsPrefixFree(cfg) && cfg.isRid(rid) && cfg.maxAttempts >= 2
    ensures IsRun(cfg, states, steps) && |steps| > 0
    ensures var s, step := states[|steps| - 1], steps[|steps| - 1];
            && step.DeleteKey? && step.key in s.objects && step.key !in states[|steps|].objects
            && rid in s.regs && IsLive(s.regs[rid]) && IsUnguarded(s.regs[rid].row)
            && IsKeyOf(cfg, Current(rid, s.regs[rid].row), step.key)
  {
    states, steps := CrashAfterPublish(cfg, rid, start);
    var prefix := cfg.prefix(Upload(rid, 2));
    var s := states[|steps|].(objects := map[prefix := file]);
    assert IsUpload(cfg, Upload(rid, 2)) && prefix in s.objects;
    LiveIsUnprotected(cfg, s.(job := Inventoried(map[prefix := 0], 1)), rid, Published(rid), prefix);
    states, steps := Then(cfg, states, steps, Write(rid, 7, prefix, Some(file)), s);
    states, steps := Then(cfg, states, steps, ListUploads(map[prefix := 0], 1),
        s.(job := Inventoried(map[prefix := 0], 1)));
    states, steps := Then(cfg, states, steps, Protect, s.(job := Reaping({prefix})));
    states, steps := Then(cfg, states, steps, DeleteKey(prefix, prefix),
        s.(job := Reaping({prefix}), objects := map[]));
  }

  lemma Then(cfg: Config, states: seq<State>, steps: seq<Step>, step: Step, s': State)
    returns (states': seq<State>, steps': seq<Step>)
    requires IsRun(cfg, states, steps) && Next(cfg, states[|states| - 1], step, s')
    ensures states' == states + [s'] && steps' == steps + [step] && IsRun(cfg, states', steps')
  {
    Extend(cfg, states, steps, step, s');
    states', steps' := states + [s'], steps + [step];
  }

  lemma LiveIsUnprotected(cfg: Config, s: State, rid: string, reg: Reg, prefix: string)
    requires IsPrefixFree(cfg) && cfg.isRid(rid) && s.regs == map[rid := reg]
    requires reg.row.attempts == 2 && reg.row.prefix == None && prefix == cfg.prefix(Upload(rid, 2))
    ensures PlanReap(map[prefix := 0], 1, Protected(cfg, s)) == {prefix}
  {
    if prefix in Protected(cfg, s) {
      assert prefix == cfg.prefix(Upload(rid, 1));
      assert IsKeyOf(cfg, Upload(rid, 1), prefix) && IsKeyOf(cfg, Upload(rid, 2), prefix);
      assert IsUpload(cfg, Upload(rid, 1)) && IsUpload(cfg, Upload(rid, 2));
    }
  }

  // ---------------------------------------------------------------- the real key layout

  function PrefixText(u: Upload): string {
    var p := ModelPrefix(u.registrationId, u.attempt);
    if p.Ok? then p.value else ""
  }

  /** The configuration of the running system, whatever its limit on attempts and its manifest check. */
  function RealConfig(maxAttempts: int, verify: (string, string, string, string, Objects) -> Option<string>): Config {
    Config(maxAttempts, IsHash, PrefixText, verify)
  }

  /** `model_prefix` is such a layout, so everything above holds of it. */
  lemma RealLayoutIsPrefixFree(maxAttempts: int, verify: (string, string, string, string, Objects) -> Option<string>)
    ensures IsPrefixFree(RealConfig(maxAttempts, verify))
  {
    var cfg := RealConfig(maxAttempts, verify);
    forall u, v, key | IsUpload(cfg, u) && IsUpload(cfg, v) && IsKeyOf(cfg, u, key) && IsKeyOf(cfg, v, key)
      ensures u == v
    {
      SameKeySameUpload(u, v, key);
    }
  }

  lemma SameKeySameUpload(u: Upload, v: Upload, key: string)
    requires IsHash(u.registrationId) && u.attempt >= 1 && IsHash(v.registrationId) && v.attempt >= 1
    requires PrefixText(u) <= key && PrefixText(v) <= key
    ensures u == v
  {
    ParseInvertsPrefix(PrefixText(u), u);
    ParseInvertsPrefix(PrefixText(v), v);
    OneOwner(key, PrefixText(u), PrefixText(v));
  }

  /** What `retained_uploads` returns is an inventory the reaper step may start from. */
  lemma InventoryHoldsObjects(cfg: Config, newest: map<string, int>, objects: Objects)
    requires cfg == RealConfig(cfg.maxAttempts, cfg.verify) && IsInventory(newest, objects)
    ensures HoldsObjects(cfg, newest, objects)
  {
    forall p | p in newest ensures exists u, k :: IsUpload(cfg, u) && cfg.prefix(u) == p && k in objects && p <= k {
      var k :| Dated(objects, p, k) && objects[k].modified.value == newest[p];
      var u := ParseModelPrefix(p).value;
      ParseInvertsPrefix(p, u);
      assert IsUpload(cfg, u) && cfg.prefix(u) == p;
    }
  }
}
