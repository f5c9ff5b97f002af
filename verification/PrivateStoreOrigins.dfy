/** Where the fields of a registration come from: every run names the signal that put them there. */
module PrivateStoreOrigins {
  import opened Contracts
  import opened Results
  import opened Storage
  import opened PrivateStore
  import opened PrivateStoreSafety

  /** A ready signal was taken and nothing has replaced it: ready, revoked, or submitted with its submission. */
  predicate IsSignalled(row: Row) {
    row.state == Ready || row.state == Revoked || (row.state == Submitted && row.submission.Some?)
  }

  /** Between two states of a run no activate changes anything of this registration. */
  ghost predicate NoActivate(states: seq<State>, steps: seq<Step>, from: nat, n: nat, rid: string)
    requires from <= n <= |steps| && |states| == |steps| + 1
  {
    forall j :: from <= j < n && steps[j].Activate? && steps[j].rid == rid ==> IsUnchanged(states, j)
  }

  predicate IsUnchanged(states: seq<State>, j: nat)
    requires j + 1 < |states|
  {
    states[j + 1].regs == states[j].regs
  }

  /** Step `k` is the ready signal that the row `row` of the registration stands on. */
  predicate IsReadySignal(s: State, step: Step, rid: string, row: Row) {
    && step.SignalReady? && step.rid == rid && rid in s.regs
    && s.regs[rid].row.state == Credentialed && step.block > s.regs[rid].row.activationBlock
    && row.readyBlock == Some(step.block) && row.manifest == step.manifest && row.attempts == s.regs[rid].row.attempts
  }

  /** The row after a step still stands on the signal it stood on, or the step is that signal. */
  lemma SignalledStep(cfg: Config, s: State, step: Step, s': State, rid: string)
    requires Inv(cfg, s) && Next(cfg, s, step, s') && rid in s'.regs && IsSignalled(s'.regs[rid].row)
    ensures rid in s.regs
    ensures || IsReadySignal(s, step, rid, s'.regs[rid].row)
            || (IsSignalled(s.regs[rid].row) && SameSignal(s.regs[rid].row, s'.regs[rid].row)
                && (step.Activate? && step.rid == rid ==> s'.regs == s.regs))
  {
    if step.Advance? { SignalledAdvance(cfg, s, step, s', rid); } else { SignalledOther(cfg, s, step, s', rid); }
  }

  predicate SameSignal(row: Row, row': Row) {
    && row'.readyBlock == row.readyBlock && row'.manifest == row.manifest && row'.attempts == row.attempts
    && row'.pubkey == row.pubkey
  }

  lemma SignalledAdvance(cfg: Config, s: State, step: Step, s': State, rid: string)
    requires Inv(cfg, s) && Next(cfg, s, step, s') && step.Advance?
    requires rid in s'.regs && IsSignalled(s'.regs[rid].row)
    ensures rid in s.regs && IsSignalled(s.regs[rid].row) && SameSignal(s.regs[rid].row, s'.regs[rid].row)
  {
    OneRegAdvances(cfg, s, step, s');
    if rid == s.job.rid {
      match s.job
      case Credentialing(_, at) => CredentialSignals(cfg, rid, s.regs[rid], at, step.id);
      case Revoking(_, at) => RevokeSignals(s.regs[rid], at);
      case Verifying(_, at) => VerifySignals(s.regs[rid], at, Verdict(cfg, s, rid), step.id, step.fate);
      case Closing(_, seen, at, _) => CloseSignals(s.regs[rid], seen, at);
    }
  }

  /** The controller works on one registration at a time. */
  lemma OneRegAdvances(cfg: Config, s: State, step: Step, s': State)
    requires Next(cfg, s, step, s') && step.Advance?
    ensures s.job.Credentialing? || s.job.Revoking? || s.job.Verifying? || s.job.Closing?
    ensures s.job.rid in s.regs && s.job.rid in s'.regs && s'.regs == s.regs[s.job.rid := s'.regs[s.job.rid]]
  {
  }

  lemma CredentialSignals(cfg: Config, rid: string, reg: Reg, at: CredentialAt, token: nat)
    requires CredentialNext(cfg, rid, reg, at, token).Some? && CredentialOk(reg, rid, at)
    ensures !IsSignalled(CredentialNext(cfg, rid, reg, at, token).value.0.row)
            && SameSignal(reg.row, CredentialNext(cfg, rid, reg, at, token).value.0.row)
  {
  }

  lemma RevokeSignals(reg: Reg, at: RevokeAt)
    requires reg.row.state == Ready
    ensures SameSignal(reg.row, RevokeNext(reg, at).0.row)
  {
  }

  lemma VerifySignals(reg: Reg, at: VerifyAt, verdict: Option<string>, newId: nat, fate: Fate)
    requires VerifyNext(reg, at, verdict, newId, fate).Some? && reg.row.state == Revoked
    ensures SameSignal(reg.row, VerifyNext(reg, at, verdict, newId, fate).value.0.row)
  {
  }

  lemma CloseSignals(reg: Reg, seen: Row, at: CloseAt)
    ensures var row := CloseNext(reg, seen, at).0.row;
            SameSignal(reg.row, row) && (IsSignalled(row) ==> IsSignalled(reg.row))
  {
  }

  lemma SignalledOther(cfg: Config, s: State, step: Step, s': State, rid: string)
    requires Inv(cfg, s) && Next(cfg, s, step, s') && !step.Advance?
    requires rid in s'.regs && IsSignalled(s'.regs[rid].row)
    ensures rid in s.regs
    ensures || IsReadySignal(s, step, rid, s'.regs[rid].row)
            || (IsSignalled(s.regs[rid].row) && SameSignal(s.regs[rid].row, s'.regs[rid].row)
                && (step.Activate? && step.rid == rid ==> s'.regs == s.regs))
  {
    if step.Activate? || step.SignalReady? || step.Park? {
      SignalledIntake(cfg, s, step, s', rid);
    } else {
      OthersSignalNothing(cfg, s, step, s', rid);
    }
  }

  lemma SignalledIntake(cfg: Config, s: State, step: Step, s': State, rid: string)
    requires JobOk(cfg, s) && Next(cfg, s, step, s') && (step.Activate? || step.SignalReady? || step.Park?)
    requires rid in s'.regs && IsSignalled(s'.regs[rid].row)
    ensures rid in s.regs
    ensures || IsReadySignal(s, step, rid, s'.regs[rid].row)
            || (IsSignalled(s.regs[rid].row) && SameSignal(s.regs[rid].row, s'.regs[rid].row)
                && (step.Activate? && step.rid == rid ==> s'.regs == s.regs))
  {
    if step.rid != rid {
      assert rid in s.regs && s'.regs[rid] == s.regs[rid];
    } else if step.SignalReady? && s' != s {
      assert IsReadySignal(s, step, rid, s'.regs[rid].row);
    } else {
      assert !step.Park? && s'.regs == s.regs;
    }
  }

  lemma OthersSignalNothing(cfg: Config, s: State, step: Step, s': State, rid: string)
    requires Next(cfg, s, step, s')
    requires !step.Advance? && !step.Activate? && !step.SignalReady? && !step.Park? && rid in s'.regs
    ensures rid in s.regs && SameSignal(s.regs[rid].row, s'.regs[rid].row)
    ensures IsSignalled(s'.regs[rid].row) ==> IsSignalled(s.regs[rid].row)
  {
  }

  /**
   * In every run, whenever a row is ready, revoked or submitted, its ready block and manifest are those of an earlier
   * ready signal, which was taken from the credentialed row of the same attempt, and no activate applied since.
   */
  lemma {:induction false} ReadyRowsWereSignalled(
    cfg: Config, states: seq<State>, steps: seq<Step>, n: nat, rid: string) returns (k: nat)
    requires IsPrefixFree(cfg) && IsRun(cfg, states, steps) && n < |states|
    requires rid in states[n].regs && IsSignalled(states[n].regs[rid].row)
    ensures k < n && IsReadySignal(states[k], steps[k], rid, states[n].regs[rid].row)
    ensures NoActivate(states, steps, k, n, rid)
    decreases n
  {
    RunsAreSafe(cfg, states, steps, n - 1);
    assert Next(cfg, states[n - 1], steps[n - 1], states[n]);
    SignalledStep(cfg, states[n - 1], steps[n - 1], states[n], rid);
    if IsReadySignal(states[n - 1], steps[n - 1], rid, states[n].regs[rid].row) {
      k := n - 1;
    } else {
      k := ReadyRowsWereSignalled(cfg, states, steps, n - 1, rid);
    }
  }

  // ---------------------------------------------------------------- activates

  /**
   * Step `k` claims the attempt the row is at: the first one, or the one after that of a row that may be claimed again.
   */
  predicate IsClaim(cfg: Config, s: State, step: Step, s': State, rid: string, row: Row) {
    && step.Activate? && step.rid == rid && rid in s'.regs
    && row.pubkey == step.pubkey && row.activationBlock >= step.block && row.attempts == s'.regs[rid].row.attempts
    && s'.regs[rid].row.state == Activated && s'.regs[rid].row.activationBlock == step.block
    && s'.regs[rid].row.prefix == None
    && (if rid !in s.regs then row.attempts == 1
        else row.attempts == s.regs[rid].row.attempts + 1 && IsClaimable(cfg, s.regs[rid].row, step.block, step.pubkey))
  }

  /**
   * A new attempt may be claimed with another key before the upload is ready, after a parked attempt and after a failed
   * one.
   */
  predicate IsClaimable(cfg: Config, row: Row, block: int, pubkey: string) {
    && row.activationBlock < block && row.attempts < cfg.maxAttempts + row.extra
    && match row.state
       case Activated => pubkey != row.pubkey
       case Credentialed => pubkey != row.pubkey
       case Submitted => row.submission.None?
       case Failed => true
       case _ => false
  }

  /** An activate applies exactly to an unknown registration and to a row that may be claimed again. */
  lemma ActivateApplies(cfg: Config, s: State, step: Step, s': State)
    requires Next(cfg, s, step, s') && step.Activate?
    ensures s'.regs != s.regs <==>
            step.rid !in s.regs || IsClaimable(cfg, s.regs[step.rid].row, step.block, step.pubkey)
    ensures s'.regs != s.regs ==> step.rid in s'.regs && IsClaim(cfg, s, step, s', step.rid, s'.regs[step.rid].row)
    ensures s'.regs.Keys == s.regs.Keys + {step.rid}
    ensures forall rid :: rid in s.regs && rid != step.rid ==> s'.regs[rid] == s.regs[rid]
  {
    if step.rid in s.regs && s'.regs == s.regs {
      assert s'.regs[step.rid].row.attempts == s.regs[step.rid].row.attempts;
    }
  }

  /** No other step changes the key or the attempt of a registration, or makes a registration. */
  lemma OnlyActivatesClaim(cfg: Config, s: State, step: Step, s': State, rid: string)
    requires Next(cfg, s, step, s') && rid in s'.regs && !(step.Activate? && step.rid == rid)
    ensures rid in s.regs && s'.regs[rid].row.pubkey == s.regs[rid].row.pubkey
    ensures s'.regs[rid].row.attempts == s.regs[rid].row.attempts
    ensures s'.regs[rid].row.activationBlock >= s.regs[rid].row.activationBlock
  {
    if step.Advance? { AdvanceClaimsNothing(cfg, s, step, s', rid); }
  }

  lemma AdvanceClaimsNothing(cfg: Config, s: State, step: Step, s': State, rid: string)
    requires Next(cfg, s, step, s') && rid in s'.regs && step.Advance?
    ensures rid in s.regs && s'.regs[rid].row.pubkey == s.regs[rid].row.pubkey
    ensures s'.regs[rid].row.attempts == s.regs[rid].row.attempts
    ensures s'.regs[rid].row.activationBlock == s.regs[rid].row.activationBlock
  {
    OneRegAdvances(cfg, s, step, s');
    if rid == s.job.rid {
      match s.job
      case Credentialing(_, at) => CredentialClaims(cfg, rid, s.regs[rid], at, step.id);
      case Revoking(_, at) =>
      case Verifying(_, at) => VerifyClaims(s.regs[rid], at, Verdict(cfg, s, rid), step.id, step.fate);
      case Closing(_, seen, at, _) =>
    }
  }

  lemma CredentialClaims(cfg: Config, rid: string, reg: Reg, at: CredentialAt, token: nat)
    requires CredentialNext(cfg, rid, reg, at, token).Some?
    ensures CredentialNext(cfg, rid, reg, at, token).value.0.row.pubkey == reg.row.pubkey
  {
  }

  lemma VerifyClaims(reg: Reg, at: VerifyAt, verdict: Option<string>, newId: nat, fate: Fate)
    requires VerifyNext(reg, at, verdict, newId, fate).Some?
    ensures VerifyNext(reg, at, verdict, newId, fate).value.0.row.pubkey == reg.row.pubkey
  {
  }

  /** In every run, every row has the key of the activate that claimed its attempt, the last one that applied. */
  lemma {:induction false} RowsWereClaimed(
    cfg: Config, states: seq<State>, steps: seq<Step>, n: nat, rid: string) returns (k: nat)
    requires IsRun(cfg, states, steps) && n < |states| && rid in states[n].regs
    ensures k < n && IsClaim(cfg, states[k], steps[k], states[k + 1], rid, states[n].regs[rid].row)
    ensures NoActivate(states, steps, k + 1, n, rid)
    decreases n
  {
    var s, step, s' := states[n - 1], steps[n - 1], states[n];
    assert Next(cfg, s, step, s');
    if step.Activate? && step.rid == rid {
      ActivateApplies(cfg, s, step, s');
    } else {
      OnlyActivatesClaim(cfg, s, step, s', rid);
    }
    if step.Activate? && step.rid == rid && s'.regs != s.regs {
      k := n - 1;
    } else {
      k := RowsWereClaimed(cfg, states, steps, n - 1, rid);
    }
  }

  // ---------------------------------------------------------------- commits

  /** The commit `p` was made of what the manifest check says of the objects under the prefix of its attempt. */
  predicate IsVerified(cfg: Config, s: State, rid: string, p: Payload) {
    && rid in s.regs && s.regs[rid].row.state == Revoked
    && s.regs[rid].row.attempts == p.attempt && s.regs[rid].row.manifest == p.manifest
    && var prefix := cfg.prefix(Upload(rid, p.attempt));
       var objects := map k | k in s.objects && prefix <= k :: s.objects[k];
       cfg.verify(rid, s.regs[rid].row.pubkey, p.manifest, prefix, objects) == Some(p.verdict)
  }

  /** A commit is there already, or is made by this step, in the block of the row's signal. */
  lemma CommitStep(cfg: Config, s: State, step: Step, s': State, rid: string, p: Payload)
    requires Inv(cfg, s) && Next(cfg, s, step, s') && rid in s'.regs && p in s'.regs[rid].commits
    ensures rid in s.regs
    ensures || (p in s.regs[rid].commits && s'.regs[rid].commits[p] == s.regs[rid].commits[p])
            || (IsVerified(cfg, s, rid, p) && s.regs[rid].row.readyBlock == Some(s'.regs[rid].commits[p].block))
  {
    if !step.Advance? {
      OtherKeepsCommits(cfg, s, step, s', rid, p);
    } else {
      OneRegAdvances(cfg, s, step, s');
      if s.job.Verifying? && s.job.rid == rid {
        VerifyCommits(cfg, s, rid, s.job.verifyAt, step.id, step.fate, p);
      } else {
        AdvanceKeepsCommits(cfg, s, step, s', rid);
      }
    }
  }

  lemma VerifyCommits(cfg: Config, s: State, rid: string, at: VerifyAt, newId: nat, fate: Fate, p: Payload)
    requires rid in s.regs && RowOk(cfg, rid, s.regs[rid]) && VerifyOk(cfg, s, rid, at)
    requires VerifyNext(s.regs[rid], at, Verdict(cfg, s, rid), newId, fate).Some?
    requires p in VerifyNext(s.regs[rid], at, Verdict(cfg, s, rid), newId, fate).value.0.commits
    ensures var reg, reg' := s.regs[rid], VerifyNext(s.regs[rid], at, Verdict(cfg, s, rid), newId, fate).value.0;
            || (p in reg.commits && reg'.commits[p] == reg.commits[p])
            || (IsVerified(cfg, s, rid, p) && reg.row.readyBlock == Some(reg'.commits[p].block))
  {
  }

  lemma AdvanceKeepsCommits(cfg: Config, s: State, step: Step, s': State, rid: string)
    requires Next(cfg, s, step, s') && step.Advance? && rid in s'.regs && !(s.job.Verifying? && s.job.rid == rid)
    ensures rid in s.regs && s'.regs[rid].commits == s.regs[rid].commits
  {
    OneRegAdvances(cfg, s, step, s');
    if rid == s.job.rid && s.job.Credentialing? {
      CredentialCommits(cfg, rid, s.regs[rid], s.job.credentialAt, step.id);
    }
  }

  lemma CredentialCommits(cfg: Config, rid: string, reg: Reg, at: CredentialAt, token: nat)
    requires CredentialNext(cfg, rid, reg, at, token).Some?
    ensures CredentialNext(cfg, rid, reg, at, token).value.0.commits == reg.commits
  {
  }

  lemma OtherKeepsCommits(cfg: Config, s: State, step: Step, s': State, rid: string, p: Payload)
    requires Next(cfg, s, step, s') && !step.Advance? && rid in s'.regs && p in s'.regs[rid].commits
    ensures rid in s.regs && p in s.regs[rid].commits && s'.regs[rid].commits[p] == s.regs[rid].commits[p]
  {
  }

  /**
   * Every commit of every run was made of a revoked row whose manifest is that of a ready signal for the same attempt,
   * in the signal's block, and of the verdict on what lay under the attempt's prefix with the key that claimed it.
   */
  lemma {:induction false} CommitsWereSignalled(
    cfg: Config, states: seq<State>, steps: seq<Step>, n: nat, rid: string, p: Payload)
    returns (signal: nat, claim: nat, verified: nat)
    requires IsPrefixFree(cfg) && IsRun(cfg, states, steps) && n < |states|
    requires rid in states[n].regs && p in states[n].regs[rid].commits
    ensures claim < signal < verified < n && IsVerified(cfg, states[verified], rid, p)
    ensures IsReadySignal(states[signal], steps[signal], rid, states[verified].regs[rid].row)
    ensures steps[signal].manifest == p.manifest && steps[signal].block == states[n].regs[rid].commits[p].block
    ensures IsClaim(cfg, states[claim], steps[claim], states[claim + 1], rid, states[verified].regs[rid].row)
    decreases n
  {
    var s, s' := states[n - 1], states[n];
    CommitStepOf(cfg, states, steps, n, rid, p);
    if p in s.regs[rid].commits && s'.regs[rid].commits[p] == s.regs[rid].commits[p] {
      signal, claim, verified := CommitsWereSignalled(cfg, states, steps, n - 1, rid, p);
    } else {
      verified := n - 1;
      signal, claim := SignalledAndClaimed(cfg, states, steps, n - 1, rid);
    }
  }

  lemma CommitStepOf(cfg: Config, states: seq<State>, steps: seq<Step>, n: nat, rid: string, p: Payload)
    requires IsPrefixFree(cfg) && IsRun(cfg, states, steps) && n < |states|
    requires rid in states[n].regs && p in states[n].regs[rid].commits
    ensures n > 0 && rid in states[n - 1].regs
    ensures || (p in states[n - 1].regs[rid].commits
                && states[n].regs[rid].commits[p] == states[n - 1].regs[rid].commits[p])
            || (IsVerified(cfg, states[n - 1], rid, p)
                && states[n - 1].regs[rid].row.readyBlock == Some(states[n].regs[rid].commits[p].block))
  {
    RunsAreSafe(cfg, states, steps, n - 1);
    assert Next(cfg, states[n - 1], steps[n - 1], states[n]);
    CommitStep(cfg, states[n - 1], steps[n - 1], states[n], rid, p);
  }

  lemma SignalledAndClaimed(cfg: Config, states: seq<State>, steps: seq<Step>, n: nat, rid: string)
    returns (signal: nat, claim: nat)
    requires IsPrefixFree(cfg) && IsRun(cfg, states, steps) && n < |states|
    requires rid in states[n].regs && IsSignalled(states[n].regs[rid].row)
    ensures claim < signal < n && IsReadySignal(states[signal], steps[signal], rid, states[n].regs[rid].row)
    ensures IsClaim(cfg, states[claim], steps[claim], states[claim + 1], rid, states[n].regs[rid].row)
  {
    signal := ReadyRowsWereSignalled(cfg, states, steps, n, rid);
    claim := RowsWereClaimed(cfg, states, steps, n, rid);
    ClaimedBefore(cfg, states, steps, claim, signal, n, rid);
  }

  /** The signal is for an attempt that was claimed before. */
  lemma ClaimedBefore(
    cfg: Config, states: seq<State>, steps: seq<Step>, claim: nat, signal: nat, n: nat, rid: string)
    requires IsRun(cfg, states, steps) && claim < n < |states| && signal < n && rid in states[n].regs
    requires IsClaim(cfg, states[claim], steps[claim], states[claim + 1], rid, states[n].regs[rid].row)
    requires IsReadySignal(states[signal], steps[signal], rid, states[n].regs[rid].row)
    requires NoActivate(states, steps, signal, n, rid)
    ensures claim < signal
  {
    assert states[claim + 1].regs != states[claim].regs;
    if claim >= signal { ActivatesNothing(states, steps, signal, claim, n, rid); }
  }

  lemma ActivatesNothing(states: seq<State>, steps: seq<Step>, from: nat, j: nat, n: nat, rid: string)
    requires from <= j < n <= |steps| && |states| == |steps| + 1 && NoActivate(states, steps, from, n, rid)
    requires steps[j].Activate? && steps[j].rid == rid
    ensures states[j + 1].regs == states[j].regs
  {
    assert IsUnchanged(states, j);
  }
}
