/** What it means in a run that a row is credentialed, failed or parked, and that an upload is reaped. */
module PrivateStoreMeaning {
  import opened Contracts
  import opened Results
  import opened Storage
  import opened PrivateStore
  import opened PrivateStoreSafety
  import opened PrivateStoreOrigins

  // ---------------------------------------------------------------- credentialed

  /** One token is live, for this attempt's prefix alone; the row names both, and the envelope is published. */
  ghost predicate HasCredentials(cfg: Config, rid: string, reg: Reg) {
    var upload := Upload(rid, reg.row.attempts);
    && reg.row.prefix == Some(cfg.prefix(upload)) && reg.envelope
    && exists t :: reg.row.parentToken == Some(t) && reg.tokens == map[t := upload]
  }

  /** Nothing else of the registration changed. */
  predicate OnlyCredentials(reg: Reg, reg': Reg) {
    && reg'.commits == reg.commits && reg'.submissions == reg.submissions
    && reg'.row == reg.row.(state := reg'.row.state, parentToken := reg'.row.parentToken, prefix := reg'.row.prefix)
  }

  /** When a row becomes credentialed, its miner can write the upload of this attempt, and nobody any other of it. */
  lemma CredentialedMeans(cfg: Config, states: seq<State>, steps: seq<Step>, n: nat, rid: string)
    requires IsPrefixFree(cfg) && IsRun(cfg, states, steps) && n < |steps| && rid in states[n + 1].regs
    requires states[n + 1].regs[rid].row.state == Credentialed
    requires rid in states[n].regs ==> states[n].regs[rid].row.state != Credentialed
    ensures rid in states[n].regs && states[n].regs[rid].row.state == Activated
    ensures HasCredentials(cfg, rid, states[n + 1].regs[rid])
    ensures OnlyCredentials(states[n].regs[rid], states[n + 1].regs[rid])
  {
    RunsAreSafe(cfg, states, steps, n);
    var s, step, s' := states[n], steps[n], states[n + 1];
    assert Next(cfg, s, step, s');
    if step.Advance? {
      OneRegAdvances(cfg, s, step, s');
      OnlyCredentialing(cfg, s, step, s', rid);
      CredentialMeans(cfg, rid, s.regs[rid], s.job.credentialAt, step.id);
    } else {
      OtherStepsCredentialNothing(cfg, s, step, s', rid);
    }
  }

  lemma OnlyCredentialing(cfg: Config, s: State, step: Step, s': State, rid: string)
    requires Inv(cfg, s) && Next(cfg, s, step, s') && step.Advance? && rid in s'.regs
    requires s'.regs[rid].row.state == Credentialed && (rid in s.regs ==> s.regs[rid].row.state != Credentialed)
    ensures s.job.Credentialing? && s.job.rid == rid && rid in s.regs
    ensures CredentialNext(cfg, rid, s.regs[rid], s.job.credentialAt, step.id).Some?
    ensures s'.regs[rid] == CredentialNext(cfg, rid, s.regs[rid], s.job.credentialAt, step.id).value.0
  {
    OneRegAdvances(cfg, s, step, s');
    match s.job
    case Revoking(r, at) => RevokedState(s.regs[r], at);
    case Verifying(r, at) => VerifiedState(s.regs[r], at, Verdict(cfg, s, r), step.id, step.fate);
    case Closing(r, seen, at, _) => ClosedState(s.regs[r], seen, at);
    case _ =>
  }

  lemma RevokedState(reg: Reg, at: RevokeAt)
    ensures RevokeNext(reg, at).0.row.state in {reg.row.state, Revoked}
  {
  }

  lemma VerifiedState(reg: Reg, at: VerifyAt, verdict: Option<string>, newId: nat, fate: Fate)
    requires VerifyNext(reg, at, verdict, newId, fate).Some?
    ensures VerifyNext(reg, at, verdict, newId, fate).value.0.row.state in {reg.row.state, Failed, Submitted}
  {
  }

  lemma ClosedState(reg: Reg, seen: Row, at: CloseAt)
    ensures CloseNext(reg, seen, at).0.row.state in {reg.row.state, Failed}
  {
  }

  lemma CredentialMeans(cfg: Config, rid: string, reg: Reg, at: CredentialAt, token: nat)
    requires CredentialOk(reg, rid, at) && CredentialNext(cfg, rid, reg, at, token).Some?
    requires CredentialNext(cfg, rid, reg, at, token).value.0.row.state == Credentialed
    ensures var reg' := CredentialNext(cfg, rid, reg, at, token).value.0;
            reg.row.state == Activated && HasCredentials(cfg, rid, reg') && OnlyCredentials(reg, reg')
  {
  }

  lemma OtherStepsCredentialNothing(cfg: Config, s: State, step: Step, s': State, rid: string)
    requires Next(cfg, s, step, s') && !step.Advance? && rid in s'.regs
    ensures s'.regs[rid].row.state == Credentialed ==> rid in s.regs && s.regs[rid].row.state == Credentialed
  {
  }

  // ---------------------------------------------------------------- failed

  /** The manifest check refuses the upload of the row's attempt. */
  ghost predicate IsRefused(cfg: Config, s: State, rid: string) {
    && rid in s.regs && s.regs[rid].row.state == Revoked
    && var row, prefix := s.regs[rid].row, cfg.prefix(Upload(rid, s.regs[rid].row.attempts));
       var objects := map k | k in s.objects && prefix <= k :: s.objects[k];
       cfg.verify(rid, row.pubkey, row.manifest, prefix, objects) == None
  }

  /** The controller is closing the upload window of the registration. */
  predicate IsClosing(s: State, rid: string) { s.job.Closing? && s.job.rid == rid }

  /** A row fails only because the manifest check refuses its upload, or because its upload window is closed. */
  lemma FailedMeans(cfg: Config, states: seq<State>, steps: seq<Step>, n: nat, rid: string)
    requires IsPrefixFree(cfg) && IsRun(cfg, states, steps) && n < |steps| && rid in states[n + 1].regs
    requires states[n + 1].regs[rid].row.state == Failed
    requires rid in states[n].regs ==> states[n].regs[rid].row.state != Failed
    ensures IsRefused(cfg, states[n], rid) || IsClosing(states[n], rid)
  {
    RunsAreSafe(cfg, states, steps, n);
    var s, step, s' := states[n], steps[n], states[n + 1];
    assert Next(cfg, s, step, s');
    if step.Advance? {
      OneRegAdvances(cfg, s, step, s');
      if s.job.Verifying? && s.job.rid == rid { VerifyFails(cfg, s, rid, s.job.verifyAt, step.id, step.fate); }
      else if !s.job.Closing? || s.job.rid != rid { OthersFailNothing(cfg, s, step, s', rid); }
    } else {
      StepsFailNothing(cfg, s, step, s', rid);
    }
  }

  lemma VerifyFails(cfg: Config, s: State, rid: string, at: VerifyAt, newId: nat, fate: Fate)
    requires rid in s.regs && RowOk(cfg, rid, s.regs[rid]) && VerifyOk(cfg, s, rid, at)
    requires VerifyNext(s.regs[rid], at, Verdict(cfg, s, rid), newId, fate).Some?
    requires VerifyNext(s.regs[rid], at, Verdict(cfg, s, rid), newId, fate).value.0.row.state == Failed
    ensures IsRefused(cfg, s, rid)
  {
  }

  lemma OthersFailNothing(cfg: Config, s: State, step: Step, s': State, rid: string)
    requires Inv(cfg, s) && Next(cfg, s, step, s') && step.Advance? && rid in s'.regs
    requires !(s.job.Verifying? && s.job.rid == rid) && !(s.job.Closing? && s.job.rid == rid)
    ensures s'.regs[rid].row.state == Failed ==> rid in s.regs && s.regs[rid].row.state == Failed
  {
    OneRegAdvances(cfg, s, step, s');
    match s.job
    case Credentialing(r, at) => CredentialFailsNothing(cfg, r, s.regs[r], at, step.id);
    case Revoking(r, at) => RevokedState(s.regs[r], at);
    case _ =>
  }

  lemma CredentialFailsNothing(cfg: Config, rid: string, reg: Reg, at: CredentialAt, token: nat)
    requires CredentialNext(cfg, rid, reg, at, token).Some?
    ensures CredentialNext(cfg, rid, reg, at, token).value.0.row.state in {reg.row.state, Credentialed}
  {
  }

  lemma StepsFailNothing(cfg: Config, s: State, step: Step, s': State, rid: string)
    requires Next(cfg, s, step, s') && !step.Advance? && rid in s'.regs
    ensures s'.regs[rid].row.state == Failed ==> rid in s.regs && s.regs[rid].row.state == Failed
  {
  }

  /** The sweep closes windows of rows that it found credentialed. */
  ghost predicate WasSwept(states: seq<State>, steps: seq<Step>, k: nat, rid: string, seen: Row) {
    && k < |steps| && k < |states| && steps[k].StartSweep?
    && rid in states[k].regs && states[k].regs[rid].row == seen && seen.state == Credentialed
  }

  /** A window is closed for a row that was credentialed when the sweep began. */
  lemma {:induction false} SweptRowsWereCredentialed(
    cfg: Config, states: seq<State>, steps: seq<Step>, n: nat, rid: string, seen: Row) returns (k: nat)
    requires IsRun(cfg, states, steps) && n < |states|
    requires var job := states[n].job;
             || (job.Sweeping? && rid in job.snapshot && job.snapshot[rid] == seen)
             || (job.Closing? && ((job.rid == rid && job.row == seen) || (rid in job.rest && job.rest[rid] == seen)))
    ensures k < n && WasSwept(states, steps, k, rid, seen)
  {
    assert n > 0;
    assert Next(cfg, states[n - 1], steps[n - 1], states[n]);
    if steps[n - 1].StartSweep? { k := n - 1; }
    else { k := SweptRowsWereCredentialed(cfg, states, steps, n - 1, rid, seen); }
  }

  // ---------------------------------------------------------------- parked

  /** What parking leaves: the row waits for a claim in a later block, and names nothing of the old one. */
  predicate IsParkedAs(row: Row, row': Row, block: int) {
    && row'.state == row.state && row'.attempts == row.attempts && row'.extra == row.extra
    && row'.pubkey == row.pubkey && row'.activationBlock == block
    && row'.parentToken.None? && row'.prefix.None? && row'.readyBlock.None? && row'.manifest == ""
    && row'.submission.None?
  }

  /** The submission of the row was found invalid for good, and the row may be claimed again. */
  predicate IsRetryable(cfg: Config, reg: Reg) {
    && reg.row.state == Submitted && reg.row.submission.Some? && reg.row.submission.value in reg.submissions
    && reg.submissions[reg.row.submission.value] == TerminalInvalid
    && reg.row.attempts - reg.row.extra < cfg.maxAttempts
  }

  lemma RetryableAre(cfg: Config, reg: Reg)
    ensures MayRetry(cfg, reg) <==> IsRetryable(cfg, reg)
  {
  }

  /** A row is parked behind every block with a commit, and only if its submission was invalid when the pass began. */
  lemma ParkedMeans(cfg: Config, states: seq<State>, steps: seq<Step>, n: nat) returns (k: nat, block: int)
    requires IsRun(cfg, states, steps) && n < |steps| && steps[n].Park?
    ensures var rid := steps[n].rid;
            && k < n && steps[k].StartResubmit? && rid in states[k].regs && IsRetryable(cfg, states[k].regs[rid])
            && rid in states[n].regs && rid in states[n + 1].regs
            && IsParkedAs(states[n].regs[rid].row, states[n + 1].regs[rid].row, block)
            && block >= states[n].regs[rid].row.activationBlock && (forall b :: HasBlock(states[n], b) ==> b <= block)
            && (block == states[n].regs[rid].row.activationBlock || HasBlock(states[n], block))
  {
    assert Next(cfg, states[n], steps[n], states[n + 1]);
    k := WasRetryable(cfg, states, steps, n, steps[n].rid);
    block := states[n + 1].regs[steps[n].rid].row.activationBlock;
  }

  lemma {:induction false} WasRetryable(cfg: Config, states: seq<State>, steps: seq<Step>, n: nat, rid: string)
    returns (k: nat)
    requires IsRun(cfg, states, steps) && n < |states| && states[n].job.Resubmitting? && rid in states[n].job.terminal
    ensures k < n && steps[k].StartResubmit? && rid in states[k].regs && IsRetryable(cfg, states[k].regs[rid])
  {
    assert n > 0;
    assert Next(cfg, states[n - 1], steps[n - 1], states[n]);
    if steps[n - 1].StartResubmit? { k := n - 1; }
    else { k := WasRetryable(cfg, states, steps, n - 1, rid); }
  }

  // ---------------------------------------------------------------- reaped

  /** A registration that still needs its upload: not failed, not parked, its submission not decided. */
  predicate NeedsUpload(reg: Reg) {
    match reg.row.state
    case Failed => false
    case Submitted =>
      reg.row.submission.Some? && (reg.row.submission.value in reg.submissions ==>
                                     reg.submissions[reg.row.submission.value] == Running)
    case _ =>
      reg.row.submission.Some? && reg.row.submission.value in reg.submissions ==>
        reg.submissions[reg.row.submission.value] == Running
  }

  /** The prefix in the row, or that of the first attempt. */
  predicate IsPrefixOf(cfg: Config, rid: string, row: Row, prefix: string) {
    row.prefix == Some(prefix) || (row.prefix.None? && prefix == cfg.prefix(Upload(rid, 1)))
  }

  /** At step `k` the reaper planned with a listing made at step `j`, in which the prefix was older than the cutoff. */
  ghost predicate WasPlanned(cfg: Config, states: seq<State>, steps: seq<Step>, j: nat, k: nat, prefix: string) {
    && j < k < |steps| && k < |states| && steps[j].ListUploads? && steps[k].Protect?
    && prefix in steps[j].newest && steps[j].newest[prefix] < steps[j].cutoff
    && forall rid :: rid in states[k].regs && NeedsUpload(states[k].regs[rid]) ==>
         !IsPrefixOf(cfg, rid, states[k].regs[rid].row, prefix)
  }

  /** The controller deletes only under prefixes that were old in a listing and that nobody needed after it. */
  lemma ReapedMeans(cfg: Config, states: seq<State>, steps: seq<Step>, n: nat) returns (j: nat, k: nat)
    requires IsRun(cfg, states, steps) && n < |steps| && steps[n].DeleteKey?
    ensures k < n && WasPlanned(cfg, states, steps, j, k, steps[n].victim) && steps[n].victim <= steps[n].key
    ensures states[n + 1] == states[n].(objects := states[n].objects - {steps[n].key})
  {
    assert Next(cfg, states[n], steps[n], states[n + 1]);
    j, k := VictimWasPlanned(cfg, states, steps, n, steps[n].victim);
  }

  lemma {:induction false} VictimWasPlanned(
    cfg: Config, states: seq<State>, steps: seq<Step>, n: nat, victim: string) returns (j: nat, k: nat)
    requires IsRun(cfg, states, steps) && n < |states| && states[n].job.Reaping? && victim in states[n].job.victims
    ensures k < n && WasPlanned(cfg, states, steps, j, k, victim)
  {
    assert n > 0;
    assert Next(cfg, states[n - 1], steps[n - 1], states[n]);
    if steps[n - 1].Protect? {
      k := n - 1;
      j := WasListed(cfg, states, steps, k);
      VictimsAre(cfg, states[k], states[k].job.newest, states[k].job.cutoff, victim);
    } else {
      j, k := VictimWasPlanned(cfg, states, steps, n - 1, victim);
    }
  }

  /** A prefix is planned for reaping exactly if it is older than the cutoff and nobody needs it. */
  lemma VictimsAre(cfg: Config, s: State, newest: map<string, int>, cutoff: int, victim: string)
    ensures victim in PlanReap(newest, cutoff, Protected(cfg, s)) <==>
            && victim in newest && newest[victim] < cutoff
            && forall rid :: rid in s.regs && NeedsUpload(s.regs[rid]) ==>
                 !IsPrefixOf(cfg, rid, s.regs[rid].row, victim)
  {
    forall rid | rid in s.regs ensures NeedsUpload(s.regs[rid]) <==> IsLive(s.regs[rid]) {}
    forall rid | rid in s.regs
      ensures IsPrefixOf(cfg, rid, s.regs[rid].row, victim) <==> PrefixOf(cfg, rid, s.regs[rid].row) == victim {}
  }

  lemma {:induction false} WasListed(cfg: Config, states: seq<State>, steps: seq<Step>, n: nat) returns (j: nat)
    requires IsRun(cfg, states, steps) && n < |states| && states[n].job.Inventoried?
    ensures j < n && steps[j] == ListUploads(states[n].job.newest, states[n].job.cutoff)
  {
    assert n > 0;
    assert Next(cfg, states[n - 1], steps[n - 1], states[n]);
    if steps[n - 1].ListUploads? { j := n - 1; } else { j := WasListed(cfg, states, steps, n - 1); }
  }
}
