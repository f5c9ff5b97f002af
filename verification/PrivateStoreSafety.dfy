/** Safety of the private-upload protocol over whole runs. */
module PrivateStoreSafety {
  import opened Contracts
  import opened Results
  import opened Storage
  import opened PrivateStore

  // ---------------------------------------------------------------- the invariant

  predicate IsCommitOf(reg: Reg, p: Payload, submission: nat) {
    && p in reg.commits && p.attempt == reg.row.attempts
    && reg.row.readyBlock == Some(reg.commits[p].block) && reg.commits[p].submission == submission
    && submission in reg.submissions
  }

  ghost predicate RowOk(cfg: Config, rid: string, reg: Reg) {
    var row := reg.row;
    && cfg.isRid(rid) && row.attempts >= 1
    && (row.attempts == 1 || row.attempts <= cfg.maxAttempts + row.extra)
    && (row.state == Activated ==> row.prefix == None)
    && (row.state in {Credentialed, Ready, Revoked} || row.submission.Some? ==>
       row.prefix == Some(cfg.prefix(Current(rid, row))))
    && (row.state in {Ready, Revoked} ==> row.readyBlock.Some?)
    && (row.submission.Some? ==> row.state == Submitted && exists p :: IsCommitOf(reg, p, row.submission.value))
  }

  /** Who can write: at most one parent token, the recorded one while it matters, and none once frozen. */
  ghost predicate AccessOk(rid: string, reg: Reg) {
    var row := reg.row;
    && (forall t, u :: t in reg.tokens && u in reg.tokens ==> t == u)
    && (forall t :: t in reg.tokens ==>
          reg.tokens[t].registrationId == rid && 1 <= reg.tokens[t].attempt <= row.attempts)
    && (row.state in {Credentialed, Ready} ==> forall t :: t in reg.tokens ==> row.parentToken == Some(t))
    && (row.state in {Revoked, Submitted, Failed} ==> IsFrozen(reg))
  }

  predicate IsFrozen(reg: Reg) { reg.tokens == map[] && !reg.envelope }

  /** What was submitted: one commit and one submission per attempt, made while the attempt was frozen. */
  ghost predicate CommitsOk(reg: Reg) {
    && (forall p, q :: p in reg.commits && q in reg.commits && p.attempt == q.attempt ==> p == q)
    && (forall p, q ::
          p in reg.commits && q in reg.commits && reg.commits[p].submission == reg.commits[q].submission ==> p == q)
    && (forall p :: p in reg.commits ==> p.attempt <= reg.row.attempts && reg.commits[p].submission in reg.submissions)
    && (forall p :: p in reg.commits && p.attempt == reg.row.attempts ==> reg.row.state in {Revoked, Submitted})
  }

  ghost predicate RegOk(cfg: Config, rid: string, reg: Reg) {
    RowOk(cfg, rid, reg) && AccessOk(rid, reg) && CommitsOk(reg)
  }

  /** Bytes exist only under prefixes that some attempt was given. */
  ghost predicate ObjectsOk(cfg: Config, s: State) {
    forall key, u :: key in s.objects && IsUpload(cfg, u) && IsKeyOf(cfg, u, key) ==> IsIssued(s, u)
  }

  predicate IsIssued(s: State, u: Upload) {
    u.registrationId in s.regs && u.attempt <= s.regs[u.registrationId].row.attempts
  }

  /** Verifying a frozen attempt again gives the verdict already committed for it. */
  ghost predicate ReplayOk(cfg: Config, s: State, rid: string)
    requires rid in s.regs
  {
    var reg := s.regs[rid];
    reg.row.state == Revoked ==>
      forall p :: p in reg.commits && p.attempt == reg.row.attempts ==>
        Verdict(cfg, s, rid) == Some(p.verdict) && p.manifest == reg.row.manifest
  }

  ghost predicate SweptOk(s: State, rid: string, seen: Row) {
    && rid in s.regs && s.regs[rid].row.state in {Activated, Credentialed, Ready}
    && forall t :: t in s.regs[rid].tokens ==> seen.parentToken == Some(t)
  }

  /** A prefix the reaper may delete: no live registration is working on it, save the one case below. */
  predicate IsSpent(s: State, u: Upload) {
    && IsIssued(s, u)
    && var reg := s.regs[u.registrationId];
       (u.attempt == reg.row.attempts && IsLive(reg) ==> IsUnguarded(reg.row))
  }

  /** The rows whose upload the reaper's protection misses: no prefix is stored yet, and the fallback is attempt 1. */
  predicate IsUnguarded(row: Row) { row.state == Activated && row.attempts >= 2 }

  ghost predicate CredentialOk(reg: Reg, rid: string, at: CredentialAt) {
    && reg.row.state == Activated
    && match at
       case RevokeListed(todo) => reg.tokens.Keys <= todo
       case Mint => reg.tokens == map[]
       case ClearEnvelope(t) => reg.tokens == map[t := Current(rid, reg.row)]
       case Publish(t) => reg.tokens == map[t := Current(rid, reg.row)]
       case StoreCredential(t) => reg.tokens == map[t := Current(rid, reg.row)] && reg.envelope
       case _ => true
  }

  ghost predicate VerifyOk(cfg: Config, s: State, rid: string, at: VerifyAt)
    requires rid in s.regs
  {
    && s.regs[rid].row.state == Revoked
    && match at
       case ReadBucket => true
       case StoreFailure => Verdict(cfg, s, rid) == None
       case InsertCommit(v) => Verdict(cfg, s, rid) == Some(v)
       case StoreSubmission(submission) => exists p :: IsCommitOf(s.regs[rid], p, submission)
  }

  predicate IsDecided(reg: Reg) {
    && reg.row.state == Submitted && reg.row.submission.Some?
    && reg.row.submission.value in reg.submissions && reg.submissions[reg.row.submission.value] != Running
  }

  ghost predicate JobOk(cfg: Config, s: State) {
    match s.job
    case Idle => true
    case Credentialing(rid, at) => rid in s.regs && CredentialOk(s.regs[rid], rid, at)
    case Revoking(rid, at) =>
      && rid in s.regs && s.regs[rid].row.state == Ready
      && (at.RemoveEnvelope? ==> s.regs[rid].tokens == map[])
      && (at.StoreRevoked? ==> IsFrozen(s.regs[rid]))
    case Verifying(rid, at) => rid in s.regs && VerifyOk(cfg, s, rid, at)
    case Sweeping(snapshot) => forall rid :: rid in snapshot ==> SweptOk(s, rid, snapshot[rid])
    case Closing(rid, seen, at, rest) =>
      && rid !in rest && (forall r :: r in rest ==> SweptOk(s, r, rest[r]))
      && SweptOk(s, rid, seen)
      && (at.CloseEnvelope? ==> s.regs[rid].tokens == map[])
      && (at.StoreClosed? ==> IsFrozen(s.regs[rid]))
    case Resubmitting(terminal) =>
      forall rid :: rid in terminal ==> rid in s.regs && IsDecided(s.regs[rid])
    case Inventoried(newest, _) => forall p :: p in newest ==>
       exists u :: IsUpload(cfg, u) && cfg.prefix(u) == p && IsIssued(s, u)
    case Reaping(victims) => forall p :: p in victims ==>
       exists u :: IsUpload(cfg, u) && cfg.prefix(u) == p && IsSpent(s, u)
  }

  ghost predicate StoreOk(cfg: Config, s: State) {
    && (forall rid :: rid in s.regs ==> RegOk(cfg, rid, s.regs[rid]))
    && (forall rid :: rid in s.regs ==> ReplayOk(cfg, s, rid))
    && ObjectsOk(cfg, s)
  }

  ghost predicate Inv(cfg: Config, s: State) {
    StoreOk(cfg, s) && JobOk(cfg, s)
  }

  // ---------------------------------------------------------------- one registration at a time

  /** Only the registration `rid` differs, and its attempt number did not go down. */
  predicate OnlyReg(s: State, s': State, rid: string) {
    && rid in s'.regs && s'.regs == s.regs[rid := s'.regs[rid]] && s'.objects == s.objects
    && (rid in s.regs ==> s.regs[rid].row.attempts <= s'.regs[rid].row.attempts)
  }

  lemma OneRegKeeps(cfg: Config, s: State, s': State, rid: string)
    requires StoreOk(cfg, s) && OnlyReg(s, s', rid)
    requires RegOk(cfg, rid, s'.regs[rid]) && ReplayOk(cfg, s', rid)
    ensures StoreOk(cfg, s')
  {
    forall r | r in s'.regs && r != rid
      ensures RegOk(cfg, r, s'.regs[r]) && ReplayOk(cfg, s', r)
    {
      assert s'.regs[r] == s.regs[r] && ReplayOk(cfg, s, r);
    }
    forall key, u | key in s'.objects && IsUpload(cfg, u) && IsKeyOf(cfg, u, key)
      ensures IsIssued(s', u)
    {
      assert IsIssued(s, u);
    }
  }

  /** A change to a registration that whatever the controller is doing elsewhere does not notice. */
  predicate IsMild(reg: Reg, reg': Reg) {
    && reg'.tokens == reg.tokens && reg'.envelope == reg.envelope
    && (reg.row.state in {Activated, Credentialed, Ready} ==> reg'.row.state in {Activated, Credentialed, Ready})
    && (IsDecided(reg) ==> IsDecided(reg'))
    && (reg'.row.attempts == reg.row.attempts && IsLive(reg') ==>
       IsLive(reg) && (IsUnguarded(reg.row) ==> IsUnguarded(reg'.row)))
  }

  lemma MildKeepsJob(cfg: Config, s: State, s': State, rid: string)
    requires JobOk(cfg, s) && OnlyReg(s, s', rid) && s'.job == s.job && !IsLocked(s.job, rid)
    requires rid in s.regs ==> IsMild(s.regs[rid], s'.regs[rid])
    ensures JobOk(cfg, s')
  {
    match s.job
    case Verifying(r, at) => assert r != rid && Verdict(cfg, s', r) == Verdict(cfg, s, r);
    case Inventoried(newest, _) =>
      forall p | p in newest ensures exists u :: IsUpload(cfg, u) && cfg.prefix(u) == p && IsIssued(s', u) {
        var u :| IsUpload(cfg, u) && cfg.prefix(u) == p && IsIssued(s, u);
        assert IsIssued(s', u);
      }
    case Reaping(victims) =>
      forall p | p in victims ensures exists u :: IsUpload(cfg, u) && cfg.prefix(u) == p && IsSpent(s', u) {
        var u :| IsUpload(cfg, u) && cfg.prefix(u) == p && IsSpent(s, u);
        assert IsSpent(s', u);
      }
    case _ =>
  }

  // ---------------------------------------------------------------- the chain reader

  lemma RekeyedOk(cfg: Config, rid: string, reg: Reg, block: int, pubkey: string)
    requires RegOk(cfg, rid, reg) && Rekeyed(reg.row, block, pubkey, cfg.maxAttempts).Some?
    ensures var reg' := reg.(row := Rekeyed(reg.row, block, pubkey, cfg.maxAttempts).value);
            RegOk(cfg, rid, reg') && IsMild(reg, reg')
  {
  }

  lemma MadeReadyOk(cfg: Config, rid: string, reg: Reg, block: int, manifest: string)
    requires RegOk(cfg, rid, reg) && MadeReady(reg.row, block, manifest).Some?
    ensures var reg' := reg.(row := MadeReady(reg.row, block, manifest).value);
            RegOk(cfg, rid, reg') && IsMild(reg, reg')
  {
  }

  lemma IntakeKeeps(cfg: Config, s: State, step: Step, s': State)
    requires Inv(cfg, s) && Next(cfg, s, step, s') && (step.Activate? || step.SignalReady?)
    ensures Inv(cfg, s')
  {
    if s' != s {
      IntakeIsMild(cfg, s, step, s');
      OneRegKeeps(cfg, s, s', step.rid);
      MildKeepsJob(cfg, s, s', step.rid);
    }
  }

  lemma IntakeIsMild(cfg: Config, s: State, step: Step, s': State)
    requires Inv(cfg, s) && Next(cfg, s, step, s') && (step.Activate? || step.SignalReady?) && s' != s
    ensures OnlyReg(s, s', step.rid) && s'.job == s.job && !IsLocked(s.job, step.rid)
    ensures RegOk(cfg, step.rid, s'.regs[step.rid]) && ReplayOk(cfg, s', step.rid)
    ensures step.rid in s.regs ==> IsMild(s.regs[step.rid], s'.regs[step.rid])
  {
    var rid := step.rid;
    if rid in s.regs {
      if step.Activate? {
        RekeyedOk(cfg, rid, s.regs[rid], step.block, step.pubkey);
      } else {
        MadeReadyOk(cfg, rid, s.regs[rid], step.block, step.manifest);
      }
    }
  }

  // ---------------------------------------------------------------- the controller

  lemma CredentialStepOk(cfg: Config, rid: string, reg: Reg, at: CredentialAt, token: nat)
    requires RegOk(cfg, rid, reg) && CredentialOk(reg, rid, at) && CredentialNext(cfg, rid, reg, at, token).Some?
    ensures var (reg', at') := CredentialNext(cfg, rid, reg, at, token).value;
            && RegOk(cfg, rid, reg') && reg'.row.attempts == reg.row.attempts && reg'.row.state != Revoked
            && (at'.Some? ==> CredentialOk(reg', rid, at'.value))
  {
  }

  lemma CredentialKeeps(cfg: Config, s: State, step: Step, s': State)
    requires Inv(cfg, s) && Next(cfg, s, step, s') && step.Advance? && s.job.Credentialing?
    ensures Inv(cfg, s')
  {
    CredentialStepOk(cfg, s.job.rid, s.regs[s.job.rid], s.job.credentialAt, step.id);
    OneRegKeeps(cfg, s, s', s.job.rid);
  }

  lemma RevokeKeeps(cfg: Config, s: State, step: Step, s': State)
    requires Inv(cfg, s) && Next(cfg, s, step, s') && step.Advance? && s.job.Revoking?
    ensures Inv(cfg, s')
  {
    var rid := s.job.rid;
    RevokeStepOk(cfg, rid, s.regs[rid], s.job.revokeAt);
    OneRegKeeps(cfg, s, s', rid);
  }

  lemma RevokeStepOk(cfg: Config, rid: string, reg: Reg, at: RevokeAt)
    requires RegOk(cfg, rid, reg) && reg.row.state == Ready
    requires at.RemoveEnvelope? ==> reg.tokens == map[]
    requires at.StoreRevoked? ==> IsFrozen(reg)
    ensures var (reg', at') := RevokeNext(reg, at);
            && RegOk(cfg, rid, reg') && reg'.row.attempts == reg.row.attempts
            && (at'.Some? ==> reg'.row.state == Ready && (at'.value.RemoveEnvelope? ==> reg'.tokens == map[])
                              && (at'.value.StoreRevoked? ==> IsFrozen(reg')))
            && (reg'.row.state == Revoked ==> forall p :: p in reg'.commits ==> p.attempt < reg'.row.attempts)
  {
  }

  lemma CloseStepOk(cfg: Config, rid: string, reg: Reg, seen: Row, at: CloseAt)
    requires RegOk(cfg, rid, reg) && reg.row.state in {Activated, Credentialed, Ready}
    requires forall t :: t in reg.tokens ==> seen.parentToken == Some(t)
    requires at.CloseEnvelope? ==> reg.tokens == map[]
    requires at.StoreClosed? ==> IsFrozen(reg)
    ensures var (reg', at') := CloseNext(reg, seen, at);
            && RegOk(cfg, rid, reg') && reg'.row.attempts == reg.row.attempts && reg'.row.state != Revoked
            && (at'.Some? ==> reg'.row == reg.row && (forall t :: t in reg'.tokens ==> t in reg.tokens)
                              && (at'.value.CloseEnvelope? ==> reg'.tokens == map[])
                              && (at'.value.StoreClosed? ==> IsFrozen(reg')))
  {
  }

  lemma CloseKeeps(cfg: Config, s: State, step: Step, s': State)
    requires Inv(cfg, s) && Next(cfg, s, step, s') && step.Advance? && s.job.Closing?
    ensures Inv(cfg, s')
  {
    var rid, rest := s.job.rid, s.job.rest;
    CloseStepOk(cfg, rid, s.regs[rid], s.job.row, s.job.closeAt);
    RestStaysSwept(s, s', rid, rest);
    OneRegKeeps(cfg, s, s', rid);
  }

  lemma RestStaysSwept(s: State, s': State, rid: string, rest: map<string, Row>)
    requires rid !in rest && OnlyReg(s, s', rid) && forall r :: r in rest ==> SweptOk(s, r, rest[r])
    ensures forall r :: r in rest ==> SweptOk(s', r, rest[r])
  {
  }

  lemma VerifyStepOk(cfg: Config, s: State, rid: string, at: VerifyAt, newId: nat, fate: Fate)
    requires rid in s.regs && RegOk(cfg, rid, s.regs[rid]) && ReplayOk(cfg, s, rid) && VerifyOk(cfg, s, rid, at)
    requires VerifyNext(s.regs[rid], at, Verdict(cfg, s, rid), newId, fate).Some?
    ensures var (reg', at') := VerifyNext(s.regs[rid], at, Verdict(cfg, s, rid), newId, fate).value;
            && RegOk(cfg, rid, reg') && reg'.row.attempts == s.regs[rid].row.attempts
            && (at'.Some? ==> reg'.row == s.regs[rid].row)
            && (at'.Some? && at'.value.StoreSubmission? ==> exists p :: IsCommitOf(reg', p, at'.value.submission))
  {
    var reg := s.regs[rid];
    match at
    case InsertCommit(v) => InsertOk(cfg, s, rid, v, newId, fate);
    case StoreFailure => assert forall p :: p in reg.commits ==> p.attempt != reg.row.attempts;
    case StoreSubmission(submission) =>
      var p :| IsCommitOf(reg, p, submission);
      assert IsCommitOf(VerifyNext(reg, at, None, newId, fate).value.0, p, submission);
    case ReadBucket =>
  }

  lemma InsertOk(cfg: Config, s: State, rid: string, v: string, newId: nat, fate: Fate)
    requires rid in s.regs && RegOk(cfg, rid, s.regs[rid]) && ReplayOk(cfg, s, rid)
             && VerifyOk(cfg, s, rid, InsertCommit(v))
    requires newId !in s.regs[rid].submissions
    ensures var row := s.regs[rid].row;
            var payload := Payload(row.attempts, row.manifest, v);
            var (reg', submission) := InsertedCommit(s.regs[rid], payload, row.readyBlock.value, newId, fate);
            RegOk(cfg, rid, reg') && IsCommitOf(reg', payload, submission)
  {
    var reg := s.regs[rid];
    var payload := Payload(reg.row.attempts, reg.row.manifest, v);
    forall p | p in reg.commits && p.attempt == reg.row.attempts ensures p == payload {
      assert p == Payload(p.attempt, p.manifest, p.verdict);
    }
    assert reg.row.submission.None?;
  }

  lemma SameVerdict(cfg: Config, s: State, s': State, rid: string)
    requires rid in s.regs && rid in s'.regs && s'.regs[rid].row == s.regs[rid].row && s'.objects == s.objects
    ensures Verdict(cfg, s', rid) == Verdict(cfg, s, rid)
  {
  }

  lemma VerifyKeepsStore(cfg: Config, s: State, rid: string, at: VerifyAt, newId: nat, fate: Fate, s': State)
    requires StoreOk(cfg, s) && rid in s.regs && VerifyOk(cfg, s, rid, at)
    requires VerifyNext(s.regs[rid], at, Verdict(cfg, s, rid), newId, fate).Some?
    requires OnlyReg(s, s', rid) && s'.regs[rid]
             == VerifyNext(s.regs[rid], at, Verdict(cfg, s, rid), newId, fate).value.0
    ensures StoreOk(cfg, s')
  {
    assert RegOk(cfg, rid, s.regs[rid]) && ReplayOk(cfg, s, rid);
    VerifyStepOk(cfg, s, rid, at, newId, fate);
    if s'.regs[rid].row.state == Revoked {
      SameVerdict(cfg, s, s', rid);
      ReplayStaysOk(cfg, s, rid, at, newId, fate, s');
    }
    OneRegKeeps(cfg, s, s', rid);
  }

  lemma ReplayStaysOk(cfg: Config, s: State, rid: string, at: VerifyAt, newId: nat, fate: Fate, s': State)
    requires rid in s.regs && RegOk(cfg, rid, s.regs[rid]) && ReplayOk(cfg, s, rid) && VerifyOk(cfg, s, rid, at)
    requires VerifyNext(s.regs[rid], at, Verdict(cfg, s, rid), newId, fate).Some?
    requires rid in s'.regs && s'.regs[rid] == VerifyNext(s.regs[rid], at, Verdict(cfg, s, rid), newId, fate).value.0
    requires s'.regs[rid].row == s.regs[rid].row && Verdict(cfg, s', rid) == Verdict(cfg, s, rid)
    ensures ReplayOk(cfg, s', rid)
  {
  }

  lemma VerifyKeepsJob(cfg: Config, s: State, rid: string, at: VerifyAt, newId: nat, fate: Fate, s': State)
    requires rid in s.regs && RegOk(cfg, rid, s.regs[rid]) && ReplayOk(cfg, s, rid) && VerifyOk(cfg, s, rid, at)
    requires VerifyNext(s.regs[rid], at, Verdict(cfg, s, rid), newId, fate).Some?
    requires OnlyReg(s, s', rid)
    requires var (reg', at') := VerifyNext(s.regs[rid], at, Verdict(cfg, s, rid), newId, fate).value;
             s'.regs[rid] == reg' && s'.job == if at'.Some? then Verifying(rid, at'.value) else Idle
    ensures JobOk(cfg, s')
  {
    VerifyStepOk(cfg, s, rid, at, newId, fate);
    if s'.job.Verifying? { SameVerdict(cfg, s, s', rid); }
  }

  lemma VerifyKeeps(cfg: Config, s: State, step: Step, s': State)
    requires Inv(cfg, s) && Next(cfg, s, step, s') && step.Advance? && s.job.Verifying?
    ensures Inv(cfg, s')
  {
    var rid, at := s.job.rid, s.job.verifyAt;
    VerifyKeepsStore(cfg, s, rid, at, step.id, step.fate, s');
    VerifyKeepsJob(cfg, s, rid, at, step.id, step.fate, s');
  }

  lemma ParkKeeps(cfg: Config, s: State, step: Step, s': State)
    requires Inv(cfg, s) && Next(cfg, s, step, s') && step.Park?
    ensures Inv(cfg, s')
  {
    var rid := step.rid;
    assert RegOk(cfg, rid, s.regs[rid]);
    assert RegOk(cfg, rid, s'.regs[rid]);
    OneRegKeeps(cfg, s, s', rid);
  }

  /** Starting, picking from or leaving one of the controller's loops changes no row and no byte. */
  lemma LoopKeeps(cfg: Config, s: State, step: Step, s': State)
    requires Inv(cfg, s) && Next(cfg, s, step, s')
    requires step.Pick? || step.StartSweep? || step.PickSwept? || step.EndLoop? || step.StartResubmit? || step.Crash?
    ensures Inv(cfg, s')
  {
    LoopKeepsJob(cfg, s, step, s');
    SameStoreKeeps(cfg, s, s');
  }

  lemma LoopKeepsJob(cfg: Config, s: State, step: Step, s': State)
    requires Inv(cfg, s) && Next(cfg, s, step, s')
    requires step.Pick? || step.StartSweep? || step.PickSwept? || step.EndLoop? || step.StartResubmit? || step.Crash?
    ensures JobOk(cfg, s') && s'.regs == s.regs && s'.objects == s.objects
  {
    if step.StartSweep? { SweepStarts(cfg, s, s'); }
    else if step.PickSwept? { SweptIsPicked(cfg, s, step, s'); }
    else { OtherLoopSteps(cfg, s, step, s'); }
  }

  lemma SweptIsPicked(cfg: Config, s: State, step: Step, s': State)
    requires JobOk(cfg, s) && Next(cfg, s, step, s') && step.PickSwept?
    ensures JobOk(cfg, s')
  {
    assert SweptOk(s, step.rid, s.job.snapshot[step.rid]);
    RestStaysSwept(s, s', step.rid, s.job.snapshot - {step.rid});
  }

  lemma OtherLoopSteps(cfg: Config, s: State, step: Step, s': State)
    requires Next(cfg, s, step, s') && (step.Pick? || step.EndLoop? || step.StartResubmit? || step.Crash?)
    ensures JobOk(cfg, s') && s'.regs == s.regs && s'.objects == s.objects
  {
  }

  lemma SweepStarts(cfg: Config, s: State, s': State)
    requires StoreOk(cfg, s) && Next(cfg, s, StartSweep, s')
    ensures JobOk(cfg, s')
  {
    forall rid | rid in s'.job.snapshot ensures SweptOk(s', rid, s'.job.snapshot[rid]) {
      assert RegOk(cfg, rid, s.regs[rid]);
    }
  }

  // ---------------------------------------------------------------- the reaper, the miner and the rest

  lemma ListKeeps(cfg: Config, s: State, newest: map<string, int>, cutoff: int, s': State)
    requires Inv(cfg, s) && Next(cfg, s, ListUploads(newest, cutoff), s')
    ensures JobOk(cfg, s')
  {
    forall p | p in newest ensures exists u :: IsUpload(cfg, u) && cfg.prefix(u) == p && IsIssued(s', u) {
      var u, k :| IsUpload(cfg, u) && cfg.prefix(u) == p && k in s.objects && p <= k;
      assert IsKeyOf(cfg, u, k) && IsIssued(s, u);
    }
  }

  lemma ProtectKeeps(cfg: Config, s: State, s': State)
    requires Inv(cfg, s) && Next(cfg, s, Protect, s')
    ensures JobOk(cfg, s')
  {
    forall p | p in s'.job.victims ensures exists u :: IsUpload(cfg, u) && cfg.prefix(u) == p && IsSpent(s', u) {
      var u :| IsUpload(cfg, u) && cfg.prefix(u) == p && IsIssued(s, u);
      UnprotectedIsSpent(cfg, s, u);
    }
  }

  /** A live registration's current prefix is protected, unless its row is unguarded. */
  lemma UnprotectedIsSpent(cfg: Config, s: State, u: Upload)
    requires StoreOk(cfg, s) && IsUpload(cfg, u) && IsIssued(s, u) && cfg.prefix(u) !in Protected(cfg, s)
    ensures IsSpent(s, u)
  {
    var rid := u.registrationId;
    var reg := s.regs[rid];
    assert RegOk(cfg, rid, reg);
    if u.attempt == reg.row.attempts && IsLive(reg) {
      assert PrefixOf(cfg, rid, reg.row) in Protected(cfg, s);
      assert u == Current(rid, reg.row);
    }
  }

  lemma ListingKeeps(cfg: Config, s: State, step: Step, s': State)
    requires Inv(cfg, s) && Next(cfg, s, step, s') && (step.ListUploads? || step.Protect?)
    ensures Inv(cfg, s')
  {
    SameStoreKeeps(cfg, s, s');
    if step.Protect? { ProtectKeeps(cfg, s, s'); } else { ListKeeps(cfg, s, step.newest, step.cutoff, s'); }
  }

  lemma SameStoreKeeps(cfg: Config, s: State, s': State)
    requires StoreOk(cfg, s) && s'.regs == s.regs && s'.objects == s.objects
    ensures StoreOk(cfg, s')
  {
    forall rid | rid in s.regs ensures RegOk(cfg, rid, s'.regs[rid]) && ReplayOk(cfg, s', rid) {
      assert RegOk(cfg, rid, s.regs[rid]) && ReplayOk(cfg, s, rid);
    }
    forall key, u | key in s'.objects && IsUpload(cfg, u) && IsKeyOf(cfg, u, key) ensures IsIssued(s', u) {
      assert IsIssued(s, u);
    }
  }

  /** Adding, replacing or deleting one key. */
  predicate OnlyKey(s: State, s': State, key: string) {
    s'.regs == s.regs && s'.objects - {key} == s.objects - {key}
  }

  lemma OtherBytes(cfg: Config, s: State, s': State, u: Upload, key: string, rid: string)
    requires IsPrefixFree(cfg) && StoreOk(cfg, s) && OnlyKey(s, s', key)
    requires IsUpload(cfg, u) && IsKeyOf(cfg, u, key)
    requires rid in s.regs && u != Current(rid, s.regs[rid].row)
    ensures var prefix := cfg.prefix(Current(rid, s.regs[rid].row)); View(s'.objects, prefix) == View(s.objects, prefix)
  {
    var mine := Current(rid, s.regs[rid].row);
    assert RegOk(cfg, rid, s.regs[rid]);
    assert IsUpload(cfg, mine) && !IsKeyOf(cfg, mine, key);
    forall k | cfg.prefix(mine) <= k
      ensures (k in s'.objects <==> k in s.objects) && (k in s.objects ==> s'.objects[k] == s.objects[k])
    {
      assert k in s'.objects <==> k in s'.objects - {key};
      assert k in s.objects ==> s'.objects[k] == (s'.objects - {key})[k] && s.objects[k] == (s.objects - {key})[k];
    }
  }

  lemma KeyChangeKeeps(cfg: Config, s: State, s': State, u: Upload, key: string)
    requires IsPrefixFree(cfg) && StoreOk(cfg, s) && OnlyKey(s, s', key)
    requires IsUpload(cfg, u) && IsKeyOf(cfg, u, key) && IsIssued(s, u)
    requires forall rid :: rid in s.regs && s.regs[rid].row.state == Revoked ==> u != Current(rid, s.regs[rid].row)
    ensures StoreOk(cfg, s')
    ensures forall rid :: rid in s.regs && s.regs[rid].row.state == Revoked ==>
            Verdict(cfg, s', rid) == Verdict(cfg, s, rid)
  {
    forall rid | rid in s.regs
      ensures RegOk(cfg, rid, s'.regs[rid]) && ReplayOk(cfg, s', rid)
      ensures s.regs[rid].row.state == Revoked ==> Verdict(cfg, s', rid) == Verdict(cfg, s, rid)
    {
      assert RegOk(cfg, rid, s.regs[rid]) && ReplayOk(cfg, s, rid);
      if s.regs[rid].row.state == Revoked { OtherBytes(cfg, s, s', u, key, rid); }
    }
    forall k, v | k in s'.objects && IsUpload(cfg, v) && IsKeyOf(cfg, v, k) ensures IsIssued(s', v) {
      if k == key {
        assert v == u;
      } else {
        assert k in s'.objects - {key};
        assert IsIssued(s, v);
      }
    }
  }

  lemma WriteKeeps(cfg: Config, s: State, step: Step, s': State)
    requires IsPrefixFree(cfg) && Inv(cfg, s) && Next(cfg, s, step, s') && step.Write?
    ensures Inv(cfg, s')
  {
    var reg := s.regs[step.rid];
    var u := reg.tokens[step.token];
    assert RegOk(cfg, step.rid, reg);
    assert IsKeyOf(cfg, u, step.key);
    KeyChangeKeeps(cfg, s, s', u, step.key);
    SameRegsKeepJob(cfg, s, s');
  }

  lemma SameRegsKeepJob(cfg: Config, s: State, s': State)
    requires JobOk(cfg, s) && s'.regs == s.regs && s'.job == s.job
    requires forall rid :: rid in s.regs && s.regs[rid].row.state == Revoked ==>
             Verdict(cfg, s', rid) == Verdict(cfg, s, rid)
    ensures JobOk(cfg, s')
  {
    match s.job
    case Inventoried(newest, _) =>
      forall p | p in newest ensures exists u :: IsUpload(cfg, u) && cfg.prefix(u) == p && IsIssued(s', u) {
        var u :| IsUpload(cfg, u) && cfg.prefix(u) == p && IsIssued(s, u);
        assert IsIssued(s', u);
      }
    case Reaping(victims) =>
      forall p | p in victims ensures exists u :: IsUpload(cfg, u) && cfg.prefix(u) == p && IsSpent(s', u) {
        var u :| IsUpload(cfg, u) && cfg.prefix(u) == p && IsSpent(s, u);
        assert IsSpent(s', u);
      }
    case _ =>
  }

  /** What the reaper is about to delete belongs to an upload no longer worked on, or unguarded. */
  lemma VictimIsSpent(cfg: Config, s: State, step: Step, s': State) returns (u: Upload)
    requires JobOk(cfg, s) && Next(cfg, s, step, s') && step.DeleteKey?
    ensures IsUpload(cfg, u) && IsKeyOf(cfg, u, step.key) && IsSpent(s, u)
    ensures OnlyKey(s, s', step.key) && s'.job == s.job
  {
    u :| IsUpload(cfg, u) && cfg.prefix(u) == step.victim && IsSpent(s, u);
  }

  lemma SpentIsNotFrozen(cfg: Config, s: State, u: Upload, rid: string)
    requires StoreOk(cfg, s) && IsSpent(s, u) && rid in s.regs && s.regs[rid].row.state == Revoked
    ensures u != Current(rid, s.regs[rid].row)
  {
    assert RegOk(cfg, rid, s.regs[rid]);
  }

  lemma SpentKeyKeeps(cfg: Config, s: State, s': State, u: Upload, key: string)
    requires IsPrefixFree(cfg) && Inv(cfg, s)
    requires IsUpload(cfg, u) && IsKeyOf(cfg, u, key) && IsSpent(s, u) && OnlyKey(s, s', key) && s'.job == s.job
    ensures Inv(cfg, s')
  {
    forall rid | rid in s.regs && s.regs[rid].row.state == Revoked ensures u != Current(rid, s.regs[rid].row) {
      SpentIsNotFrozen(cfg, s, u, rid);
    }
    KeyChangeKeeps(cfg, s, s', u, key);
    SameRegsKeepJob(cfg, s, s');
  }

  lemma DeleteKeeps(cfg: Config, s: State, step: Step, s': State)
    requires IsPrefixFree(cfg) && Inv(cfg, s) && Next(cfg, s, step, s') && step.DeleteKey?
    ensures Inv(cfg, s')
  {
    var u := VictimIsSpent(cfg, s, step, s');
    SpentKeyKeeps(cfg, s, s', u, step.key);
  }

  lemma PublicKeeps(cfg: Config, s: State, step: Step, s': State)
    requires Inv(cfg, s) && Next(cfg, s, step, s') && step.PublicCommits?
    ensures Inv(cfg, s')
  {
    SameStoreKeeps(cfg, s, s');
    SameRegsKeepJob(cfg, s, s');
  }

  /** An evaluation result, or an attempt granted by the operator. */
  function MinorChange(reg: Reg, step: Step): Reg
    requires step.Resolve? || step.GrantExtra?
  {
    if step.Resolve? then reg.(submissions := reg.submissions[step.submission := step.fate])
    else reg.(row := reg.row.(extra := reg.row.extra + 1))
  }

  lemma MinorChangeOk(cfg: Config, rid: string, reg: Reg, step: Step)
    requires RegOk(cfg, rid, reg) && (step.Resolve? || step.GrantExtra?)
    requires step.Resolve? ==> step.submission in reg.submissions && reg.submissions[step.submission] == Running
    ensures RegOk(cfg, rid, MinorChange(reg, step)) && IsMild(reg, MinorChange(reg, step))
  {
    var reg' := MinorChange(reg, step);
    if reg.row.submission.Some? {
      var p :| IsCommitOf(reg, p, reg.row.submission.value);
      assert IsCommitOf(reg', p, reg.row.submission.value);
    }
  }

  lemma MinorKeeps(cfg: Config, s: State, step: Step, s': State)
    requires Inv(cfg, s) && Next(cfg, s, step, s') && (step.Resolve? || step.GrantExtra?)
    ensures Inv(cfg, s')
  {
    MinorKeepsStore(cfg, s, step.rid, step, s');
    if IsLocked(s.job, step.rid) {
      LockedResolve(cfg, s, step, s');
    } else {
      MinorChangeOk(cfg, step.rid, s.regs[step.rid], step);
      MildKeepsJob(cfg, s, s', step.rid);
    }
  }

  lemma MinorKeepsStore(cfg: Config, s: State, rid: string, step: Step, s': State)
    requires StoreOk(cfg, s) && rid in s.regs && (step.Resolve? || step.GrantExtra?)
    requires step.Resolve? ==>
               step.submission in s.regs[rid].submissions && s.regs[rid].submissions[step.submission] == Running
    requires OnlyReg(s, s', rid) && s'.regs[rid] == MinorChange(s.regs[rid], step)
    ensures StoreOk(cfg, s') && Verdict(cfg, s', rid) == Verdict(cfg, s, rid)
  {
    assert RegOk(cfg, rid, s.regs[rid]) && ReplayOk(cfg, s, rid);
    MinorChangeOk(cfg, rid, s.regs[rid], step);
    SameReplay(cfg, s, s', rid);
    OneRegKeeps(cfg, s, s', rid);
  }

  lemma SameReplay(cfg: Config, s: State, s': State, rid: string)
    requires rid in s.regs && rid in s'.regs && s'.objects == s.objects && ReplayOk(cfg, s, rid)
    requires s'.regs[rid].commits == s.regs[rid].commits
    requires s'.regs[rid].row.(extra := 0) == s.regs[rid].row.(extra := 0)
    ensures ReplayOk(cfg, s', rid) && Verdict(cfg, s', rid) == Verdict(cfg, s, rid)
  {
  }

  /** A submission decided while the tick that made it has not committed yet. */
  lemma LockedResolve(cfg: Config, s: State, step: Step, s': State)
    requires Inv(cfg, s) && Next(cfg, s, step, s') && step.Resolve? && IsLocked(s.job, step.rid)
    requires Verdict(cfg, s', step.rid) == Verdict(cfg, s, step.rid)
    ensures JobOk(cfg, s')
  {
    if s.job.Verifying? { VerifyingResolve(cfg, s, step, s'); } else { OtherLockedResolve(cfg, s, step, s'); }
  }

  lemma VerifyingResolve(cfg: Config, s: State, step: Step, s': State)
    requires Inv(cfg, s) && Next(cfg, s, step, s') && step.Resolve? && s.job.Verifying? && s.job.rid == step.rid
    requires Verdict(cfg, s', step.rid) == Verdict(cfg, s, step.rid)
    ensures JobOk(cfg, s')
  {
    if s.job.verifyAt.StoreSubmission? {
      var reg, id := s.regs[step.rid], s.job.verifyAt.submission;
      var p :| IsCommitOf(reg, p, id);
      assert IsCommitOf(s'.regs[step.rid], p, id);
    }
  }

  lemma OtherLockedResolve(cfg: Config, s: State, step: Step, s': State)
    requires JobOk(cfg, s) && Next(cfg, s, step, s') && step.Resolve?
    requires IsLocked(s.job, step.rid) && !s.job.Verifying?
    ensures JobOk(cfg, s')
  {
  }

  // ---------------------------------------------------------------- over whole runs

  /** Whatever happens next, and wherever the controller crashes, the invariant survives. */
  lemma StepKeeps(cfg: Config, s: State, step: Step, s': State)
    requires IsPrefixFree(cfg) && Inv(cfg, s) && Next(cfg, s, step, s')
    ensures Inv(cfg, s')
  {
    if step.Activate? || step.SignalReady? { IntakeKeeps(cfg, s, step, s'); }
    else if step.Advance? {
      if s.job.Credentialing? { CredentialKeeps(cfg, s, step, s'); }
      else if s.job.Revoking? { RevokeKeeps(cfg, s, step, s'); }
      else if s.job.Verifying? { VerifyKeeps(cfg, s, step, s'); }
      else { CloseKeeps(cfg, s, step, s'); }
    }
    else if step.Park? { ParkKeeps(cfg, s, step, s'); }
    else if step.ListUploads? || step.Protect? { ListingKeeps(cfg, s, step, s'); }
    else if step.DeleteKey? { DeleteKeeps(cfg, s, step, s'); }
    else if step.Write? { WriteKeeps(cfg, s, step, s'); }
    else if step.PublicCommits? { PublicKeeps(cfg, s, step, s'); }
    else if step.Resolve? || step.GrantExtra? { MinorKeeps(cfg, s, step, s'); }
    else { LoopKeeps(cfg, s, step, s'); }
  }

  lemma {:induction false} RunsAreSafe(cfg: Config, states: seq<State>, steps: seq<Step>, i: nat)
    requires IsPrefixFree(cfg) && IsRun(cfg, states, steps) && i < |states|
    ensures Inv(cfg, states[i])
  {
    if i > 0 {
      RunsAreSafe(cfg, states, steps, i - 1);
      StepKeeps(cfg, states[i - 1], steps[i - 1], states[i]);
    }
  }

  /**
   * Revoke before verify, in every reachable state: a registration has at most one live parent token, one that
   * is revoked, submitted or failed has none and no envelope, and verification only ever runs on such a row.
   */
  lemma RevokeBeforeVerify(cfg: Config, states: seq<State>, steps: seq<Step>, i: nat, rid: string)
    requires IsPrefixFree(cfg) && IsRun(cfg, states, steps) && i < |states| && rid in states[i].regs
    ensures |states[i].regs[rid].tokens| <= 1
    ensures states[i].regs[rid].row.state in {Credentialed, Ready} ==>
              forall t :: t in states[i].regs[rid].tokens ==> states[i].regs[rid].row.parentToken == Some(t)
    ensures states[i].regs[rid].row.state in {Revoked, Submitted, Failed} ==> IsFrozen(states[i].regs[rid])
    ensures states[i].job.Verifying? && states[i].job.rid == rid ==>
              states[i].regs[rid].row.state == Revoked && IsFrozen(states[i].regs[rid])
  {
    RunsAreSafe(cfg, states, steps, i);
    var reg := states[i].regs[rid];
    assert RegOk(cfg, rid, reg);
    if reg.tokens.Keys != {} {
      var t :| t in reg.tokens;
      assert reg.tokens.Keys == {t};
      assert |reg.tokens| == |reg.tokens.Keys|;
    }
  }

  /** While a row is revoked nothing under its prefix changes: no writer is left, and the reaper spares it. */
  lemma FrozenBytes(cfg: Config, s: State, step: Step, s': State, rid: string)
    requires IsPrefixFree(cfg) && Inv(cfg, s) && Next(cfg, s, step, s')
    requires rid in s.regs && s.regs[rid].row.state == Revoked
    ensures var prefix := cfg.prefix(Current(rid, s.regs[rid].row)); View(s'.objects, prefix) == View(s.objects, prefix)
  {
    assert RegOk(cfg, rid, s.regs[rid]);
    if step.Write? { WriteMissesFrozen(cfg, s, step, s', rid); }
    else if step.DeleteKey? { ReaperMissesFrozen(cfg, s, step, s', rid); }
    else { OnlyTheseTouchBytes(cfg, s, step, s'); }
  }

  lemma WriteMissesFrozen(cfg: Config, s: State, step: Step, s': State, rid: string)
    requires IsPrefixFree(cfg) && Inv(cfg, s) && Next(cfg, s, step, s') && step.Write?
    requires rid in s.regs && s.regs[rid].row.state == Revoked && RegOk(cfg, rid, s.regs[rid])
    ensures var prefix := cfg.prefix(Current(rid, s.regs[rid].row)); View(s'.objects, prefix) == View(s.objects, prefix)
  {
    WriterIsNot(cfg, s, step, s', rid);
    OtherBytes(cfg, s, s', s.regs[step.rid].tokens[step.token], step.key, rid);
  }

  /** Whoever writes does so for another upload than the frozen one. */
  lemma WriterIsNot(cfg: Config, s: State, step: Step, s': State, rid: string)
    requires StoreOk(cfg, s) && Next(cfg, s, step, s') && step.Write?
    requires rid in s.regs && s.regs[rid].row.state == Revoked
    ensures OnlyKey(s, s', step.key) && step.rid in s.regs && step.token in s.regs[step.rid].tokens
    ensures var u := s.regs[step.rid].tokens[step.token];
            IsUpload(cfg, u) && IsKeyOf(cfg, u, step.key) && u != Current(rid, s.regs[rid].row)
  {
    WriteFacts(cfg, s, step, s');
    assert RegOk(cfg, step.rid, s.regs[step.rid]) && RegOk(cfg, rid, s.regs[rid]);
    TokenIsOld(cfg, step.rid, s.regs[step.rid], step.token);
  }

  lemma WriteFacts(cfg: Config, s: State, step: Step, s': State)
    requires Next(cfg, s, step, s') && step.Write?
    ensures OnlyKey(s, s', step.key) && step.rid in s.regs && step.token in s.regs[step.rid].tokens
    ensures IsKeyOf(cfg, s.regs[step.rid].tokens[step.token], step.key)
  {
  }

  /** A live token is for an upload of its registration; a frozen one has none. */
  lemma TokenIsOld(cfg: Config, rid: string, reg: Reg, token: nat)
    requires RegOk(cfg, rid, reg) && token in reg.tokens
    ensures IsUpload(cfg, reg.tokens[token]) && reg.tokens[token].registrationId == rid && reg.row.state != Revoked
  {
  }

  lemma ReaperMissesFrozen(cfg: Config, s: State, step: Step, s': State, rid: string)
    requires IsPrefixFree(cfg) && Inv(cfg, s) && Next(cfg, s, step, s') && step.DeleteKey?
    requires rid in s.regs && s.regs[rid].row.state == Revoked
    ensures var prefix := cfg.prefix(Current(rid, s.regs[rid].row)); View(s'.objects, prefix) == View(s.objects, prefix)
  {
    var u := VictimIsSpent(cfg, s, step, s');
    SpentIsNotFrozen(cfg, s, u, rid);
    OtherBytes(cfg, s, s', u, step.key, rid);
  }

  lemma OnlyTheseTouchBytes(cfg: Config, s: State, step: Step, s': State)
    requires Next(cfg, s, step, s') && !step.Write? && !step.DeleteKey?
    ensures s'.objects == s.objects
  {
  }

  /**
   * Replaying verification after a crash adds nothing: every attempt has at most one chain commit and one submission.
   */
  lemma OneSubmissionPerAttempt(
    cfg: Config, states: seq<State>, steps: seq<Step>, i: nat, rid: string, p: Payload, q: Payload)
    requires IsPrefixFree(cfg) && IsRun(cfg, states, steps) && i < |states| && rid in states[i].regs
    requires p in states[i].regs[rid].commits && q in states[i].regs[rid].commits
    ensures p.attempt == q.attempt <==> p == q
    ensures states[i].regs[rid].commits[p].submission == states[i].regs[rid].commits[q].submission <==> p == q
  {
    RunsAreSafe(cfg, states, steps, i);
    assert RegOk(cfg, rid, states[i].regs[rid]);
  }
}
