/**
 * The functions of `intake.py`, `controller.py` and `cloudflare.py` as they are written: updates of rows and of
 * external state, statement by statement, each able to fail after any effect. Wherever one stops, what it did is a
 * path of steps of `PrivateStore`.
 */
module PrivateStoreCode {
  import opened Contracts
  import opened Results
  import opened Storage
  import opened PrivateStore
  import opened PrivateStoreSafety
  import PrivateStoreHistory
  import opened PrivateStoreOrigins

  /** `CloudflareR2TokenGateway`: the account's live tokens, by id, with the name each was created under. */
  class Gateway {
    var tokens: map<nat, string>

    constructor ()
      ensures tokens == map[]
    {
      tokens := map[];
    }

    method RevokeParentToken(id: nat)
      modifies this
      ensures tokens == old(tokens) - {id}
    {
      tokens := tokens - {id};
    }

    /** Whatever a crash left under the name is revoked first: afterwards the new token is the only one. */
    method CreateParentToken(name: string, id: nat)
      requires id !in tokens
      modifies this
      ensures tokens == (map t | t in old(tokens) && old(tokens)[t] != name :: old(tokens)[t])[id := name]
    {
      ghost var before := tokens;
      var existing := set t | t in tokens && tokens[t] == name;
      while existing != {}
        invariant forall t :: t in existing ==> t in before && before[t] == name
        invariant forall t :: t in tokens <==> t in before && (before[t] == name ==> t in existing)
        invariant forall t :: t in tokens ==> tokens[t] == before[t]
      {
        var t :| t in existing;
        RevokeParentToken(t);
        existing := existing - {t};
      }
      tokens := tokens[id := name];
    }
  }

  // ---------------------------------------------------------------- paths of the protocol

  /** Steps of the protocol one after the other, from any state. */
  datatype Path = From(start: State) | Then(before: Path, step: Step, after: State)
  {
    function Start(): State { if From? then start else before.Start() }
    function End(): State { if From? then start else after }
    function Steps(): seq<Step> { if From? then [] else before.Steps() + [step] }
  }

  ghost predicate IsPath(cfg: Config, p: Path) {
    p.Then? ==> IsPath(cfg, p.before) && Next(cfg, p.before.End(), p.step, p.after)
  }

  ghost predicate Connects(cfg: Config, p: Path, s: State, s': State) {
    IsPath(cfg, p) && p.Start() == s && p.End() == s'
  }

  /** What the code does goes on with a run, so every theorem about runs holds wherever the code stops. */
  lemma {:induction false} RunGoesOn(cfg: Config, states: seq<State>, steps: seq<Step>, p: Path)
    returns (states': seq<State>, steps': seq<Step>)
    requires IsRun(cfg, states, steps) && IsPath(cfg, p) && p.Start() == states[|steps|]
    ensures IsRun(cfg, states', steps') && states'[|steps'|] == p.End() && steps' == steps + p.Steps()
  {
    if p.From? {
      states', steps' := states, steps;
    } else {
      states', steps' := RunGoesOn(cfg, states, steps, p.before);
      states', steps' := PrivateStoreHistory.Then(cfg, states', steps', p.step, p.after);
    }
  }

  /** In whatever state of a run the code starts, and after whichever effect it fails, access is as the rows say. */
  lemma SafeWhereverItStops(cfg: Config, states: seq<State>, steps: seq<Step>, p: Path, rid: string)
    requires IsPrefixFree(cfg) && IsRun(cfg, states, steps) && IsPath(cfg, p) && p.Start() == states[|steps|]
    requires rid in p.End().regs
    ensures Inv(cfg, p.End()) && |p.End().regs[rid].tokens| <= 1
    ensures p.End().regs[rid].row.state in {Revoked, Submitted, Failed} ==> IsFrozen(p.End().regs[rid])
  {
    var states', steps' := RunGoesOn(cfg, states, steps, p);
    RunsAreSafe(cfg, states', steps', |steps'|);
    RevokeBeforeVerify(cfg, states', steps', |steps'|, rid);
  }

  // ---------------------------------------------------------------- the registrations and the controller

  /** A signal read from the chain, and what intake asks about it before it looks at the row. */
  datatype Signal = Signal(step: Step, parses: bool, known: bool, used: bool)
  {
    predicate IsSignal() { step.Activate? || step.SignalReady? }

    /** `known`: the miner is in the metagraph; `used`: `chain_guard` has seen the hotkey. */
    predicate IsAdmitted() { parses && (step.Activate? ==> known && !used) }
  }

  /** The table, with each registration's tokens, envelope, commits and submissions, the bucket, and where the
      controller is in what it does. */
  class World {
    var regs: map<string, Reg>
    var publicBlocks: set<int>
    var job: Job
    const bucket: Bucket

    constructor (bucket: Bucket)
      ensures regs == map[] && publicBlocks == {} && job == Idle && this.bucket == bucket
    {
      regs, publicBlocks, job := map[], {}, Idle;
      this.bucket := bucket;
    }

    function Now(): State
      reads this, bucket
    {
      State(regs, bucket.objects, publicBlocks, job)
    }

    // -------------------------------------------------------------- intake

    method ApplyActivate(cfg: Config, signal: Signal) returns (applied: nat)
      requires signal.step.Activate?
      modifies this`regs
      ensures regs == AfterSignal(cfg, old(regs), signal)
      ensures applied == if Claims(cfg, old(regs), signal) then 1 else 0
      ensures !Claims(cfg, old(regs), signal) ==> regs == old(regs)
      ensures Claims(cfg, old(regs), signal) ==>
                var rid, step := signal.step.rid, signal.step;
                && rid in regs && regs == old(regs)[rid := regs[rid]]
                && (rid in old(regs) ==>
                      var row := old(regs)[rid].row;
                      regs[rid] == old(regs)[rid].(row := row.(state := Activated, attempts := row.attempts + 1,
                        pubkey := step.pubkey, activationBlock := step.block, prefix := None)))
                && (rid !in old(regs) ==>
                      && regs[rid].tokens == map[] && !regs[rid].envelope
                      && regs[rid].commits == map[] && regs[rid].submissions == map[]
                      && var row := regs[rid].row;
                         && row.state == Activated && row.attempts == 1 && row.extra == 0
                         && row.pubkey == step.pubkey && row.activationBlock == step.block
                         && row.parentToken.None? && row.prefix.None? && row.readyBlock.None?
                         && row.submission.None? && row.manifest == "")
    {
      applied := 0;
      var rid, block, pubkey := signal.step.rid, signal.step.block, signal.step.pubkey;
      if !signal.known || !signal.parses || signal.used { return; }
      if rid !in regs {
        regs := regs[rid := Reg(FirstRow(block, pubkey), map[], false, map[], map[])];
        return 1;
      }
      var row := regs[rid].row;
      if || (row.state in {Activated, Credentialed} && row.pubkey != pubkey)
         || (row.state == Submitted && row.submission == None)
         || row.state == Failed
      {
        if block > row.activationBlock && row.attempts < cfg.maxAttempts + row.extra {
          row := row.(pubkey := pubkey, attempts := row.attempts + 1, state := Activated);
          row := row.(activationBlock := block, prefix := None);
          assert regs[rid].row != row;
          regs := regs[rid := regs[rid].(row := row)];
          applied := 1;
        }
      }
    }

    method ApplyReady(cfg: Config, signal: Signal) returns (applied: nat)
      requires signal.step.SignalReady?
      modifies this`regs
      ensures regs == AfterSignal(cfg, old(regs), signal)
      ensures applied == if Takes(old(regs), signal) then 1 else 0
      ensures !Takes(old(regs), signal) ==> regs == old(regs)
      ensures Takes(old(regs), signal) ==>
                var rid, step := signal.step.rid, signal.step;
                var row := old(regs)[rid].row;
                regs == old(regs)[rid := old(regs)[rid].(row := row.(state := Ready, manifest := step.manifest,
                  readyBlock := Some(step.block)))]
    {
      applied := 0;
      var rid, block := signal.step.rid, signal.step.block;
      if signal.parses && rid in regs {
        var row := regs[rid].row;
        if row.state == Credentialed && block > row.activationBlock {
          row := row.(state := Ready, manifest := signal.step.manifest, readyBlock := Some(block));
          assert regs[rid].row != row;
          regs := regs[rid := regs[rid].(row := row)];
          applied := 1;
        }
      }
    }

    /** One scan: every signal in turn, applied, refused or malformed. The count is that of the rows changed. */
    method HandleSignals(cfg: Config, signals: seq<Signal>) returns (applied: nat)
      requires forall i :: 0 <= i < |signals| ==> signals[i].IsSignal()
      modifies this`regs
      ensures regs == Scanned(cfg, old(regs), signals)
      ensures applied == Changes(cfg, old(regs), signals)
    {
      applied := 0;
      ghost var before := regs;
      for i := 0 to |signals|
        invariant regs == Scanned(cfg, before, signals[..i]) && applied == Changes(cfg, before, signals[..i])
      {
        assert signals[..i + 1][..i] == signals[..i];
        var n;
        if signals[i].step.Activate? {
          n := ApplyActivate(cfg, signals[i]);
        } else {
          n := ApplyReady(cfg, signals[i]);
        }
        applied := applied + n;
      }
      assert signals[..|signals|] == signals;
    }

    // -------------------------------------------------------------- the controller

    /** One effect of what the controller is doing; `next` is what it does after it. */
    method Effect(cfg: Config, rid: string, reg: Reg, next: Job, ghost id: nat, ghost fate: Fate,
                  ghost path: Path)
      returns (ghost path': Path)
      requires Connects(cfg, path, path.Start(), Now())
      requires Advances(cfg, Now(), id, fate, Set(Now(), rid, reg).(job := next))
      modifies this`regs, this`job
      ensures regs == old(regs)[rid := reg] && job == next
      ensures Connects(cfg, path', path.Start(), Now())
    {
      path' := Then(path, Advance(id, fate), Set(Now(), rid, reg).(job := next));
      regs, job := regs[rid := reg], next;
    }

    /** Every token of the registration is revoked, one after the other; `left` is what remains of the effects. */
    method RevokeListed(cfg: Config, rid: string, effects: nat, ghost id: nat, ghost path: Path)
      returns (left: nat, done: bool, ghost path': Path)
      requires rid in regs && job == Credentialing(rid, CredentialAt.RevokeListed(regs[rid].tokens.Keys))
      requires Connects(cfg, path, path.Start(), Now())
      modifies this`regs, this`job
      ensures Connects(cfg, path', path.Start(), Now())
      ensures rid in regs && regs == old(regs)[rid := old(regs)[rid].(tokens := regs[rid].tokens)]
      ensures done ==> regs[rid].tokens == map[] && job == Credentialing(rid, Mint)
      ensures regs[rid].tokens.Keys <= old(regs)[rid].tokens.Keys
      ensures effects >= |old(regs)[rid].tokens| ==> done && left == effects - |old(regs)[rid].tokens|
    {
      left, done, path' := effects, false, path;
      ghost var before := regs;
      var existing := regs[rid].tokens.Keys;
      while existing != {}
        invariant job == Credentialing(rid, CredentialAt.RevokeListed(existing))
        invariant rid in regs && regs == before[rid := before[rid].(tokens := regs[rid].tokens)]
        invariant Connects(cfg, path', path.Start(), Now())
        invariant regs[rid].tokens.Keys == existing <= before[rid].tokens.Keys
        invariant left + |before[rid].tokens| == effects + |existing|
        decreases existing
      {
        if left == 0 {
          FewerTokens(before[rid].tokens, regs[rid].tokens);
          return;
        }
        var t :| t in existing;
        path' := CredentialEffect(cfg, rid, CredentialAt.RevokeListed(existing), Drop(regs[rid], Some(t)),
                                  Some(CredentialAt.RevokeListed(existing - {t})), t, path');
        left, existing := left - 1, existing - {t};
      }
      path' := CredentialEffect(cfg, rid, CredentialAt.RevokeListed({}), regs[rid], Some(Mint), id, path');
      done := true;
    }

    /** `create_parent_token`: a new token, once every other of the registration is revoked. */
    method CreateParentToken(cfg: Config, rid: string, newToken: nat, effects: nat, ghost path: Path)
      returns (left: nat, done: bool, ghost path': Path)
      requires rid in regs && newToken !in regs[rid].tokens && job == Credentialing(rid, ListTokens)
      requires Connects(cfg, path, path.Start(), Now())
      modifies this`regs, this`job
      ensures Connects(cfg, path', path.Start(), Now())
      ensures rid in regs && regs == old(regs)[rid := old(regs)[rid].(tokens := regs[rid].tokens)]
      ensures done ==> regs[rid].tokens == map[newToken := Current(rid, old(regs)[rid].row)]
                       && job == Credentialing(rid, ClearEnvelope(newToken))
      ensures !done ==> regs[rid].tokens.Keys <= old(regs)[rid].tokens.Keys
      ensures effects >= |old(regs)[rid].tokens| + 2 ==> done && left == effects - |old(regs)[rid].tokens| - 2
    {
      left, done, path' := effects, false, path;
      if left == 0 { return; }
      var listed := Some(CredentialAt.RevokeListed(regs[rid].tokens.Keys));
      path' := CredentialEffect(cfg, rid, ListTokens, regs[rid], listed, newToken, path');
      var revoked;
      left, revoked, path' := RevokeListed(cfg, rid, left - 1, newToken, path');
      if !revoked || left == 0 { return; }
      var minted := regs[rid].(tokens := regs[rid].tokens[newToken := Current(rid, regs[rid].row)]);
      path' := CredentialEffect(cfg, rid, Mint, minted, Some(ClearEnvelope(newToken)), newToken, path');
      left, done := left - 1, true;
    }

    method CredentialEffect(
      cfg: Config, rid: string, at: CredentialAt, reg: Reg, next: Option<CredentialAt>, ghost id: nat,
                            ghost path: Path)
      returns (ghost path': Path)
      requires Connects(cfg, path, path.Start(), Now())
      requires rid in regs && job == Credentialing(rid, at)
      requires CredentialNext(cfg, rid, regs[rid], at, id) == Some((reg, next))
      modifies this`regs, this`job
      ensures regs == old(regs)[rid := reg]
      ensures job == if next.Some? then Credentialing(rid, next.value) else Idle
      ensures Connects(cfg, path', path.Start(), Now())
    {
      path' := Effect(cfg, rid, reg, if next.Some? then Credentialing(rid, next.value) else Idle, id, Running, path);
    }

    /**
     * `_credential`, which fails after `effects` of its effects when that is not enough. Until the last one the row
     * is untouched; whenever it stops, no token is live but the one just minted for this attempt or some of those that
     * were live.
     */
    method Credential(cfg: Config, rid: string, newToken: nat, effects: nat, ghost path: Path)
      returns (done: bool, ghost path': Path)
      requires rid in regs && newToken !in regs[rid].tokens && job == Credentialing(rid, RevokeOld)
      requires Connects(cfg, path, path.Start(), Now())
      modifies this`regs, this`job
      ensures Connects(cfg, path', path.Start(), Now())
      ensures rid in regs && regs == old(regs)[rid := regs[rid]]
      ensures done ==> job == Idle && regs[rid] == Credentialled(cfg, rid, old(regs)[rid], newToken)
      ensures !done ==> regs[rid].row == old(regs)[rid].row
      ensures || regs[rid].tokens == map[newToken := Current(rid, old(regs)[rid].row)]
              || regs[rid].tokens.Keys <= old(regs)[rid].tokens.Keys
      ensures effects >= |old(regs)[rid].tokens| + 6 ==> done
    {
      done, path' := false, path;
      if effects == 0 { return; }
      path' := RevokeRecorded(cfg, rid, newToken, path');
      var left, minted;
      left, minted, path' := CreateParentToken(cfg, rid, newToken, effects - 1, path');
      if !minted || left == 0 { return; }
      done, path' := PublishCredential(cfg, rid, newToken, left, path');
    }

    /** The token an earlier attempt stored in the row goes first. */
    method RevokeRecorded(cfg: Config, rid: string, ghost id: nat, ghost path: Path) returns (ghost path': Path)
      requires rid in regs && job == Credentialing(rid, RevokeOld)
      requires Connects(cfg, path, path.Start(), Now())
      modifies this`regs, this`job
      ensures Connects(cfg, path', path.Start(), Now()) && job == Credentialing(rid, ListTokens)
      ensures rid in regs && regs == old(regs)[rid := old(regs)[rid].(tokens := regs[rid].tokens)]
      ensures regs[rid].tokens.Keys <= old(regs)[rid].tokens.Keys && |regs[rid].tokens| <= |old(regs)[rid].tokens|
    {
      var reg := Drop(regs[rid], regs[rid].row.parentToken);
      FewerTokens(regs[rid].tokens, reg.tokens);
      path' := CredentialEffect(cfg, rid, RevokeOld, reg, Some(ListTokens), id, path);
    }

    /** The rest of `_credential`: the old envelope goes, the new one is published, and the row says so. */
    method PublishCredential(cfg: Config, rid: string, token: nat, effects: nat, ghost path: Path)
      returns (done: bool, ghost path': Path)
      requires rid in regs && job == Credentialing(rid, ClearEnvelope(token))
      requires Connects(cfg, path, path.Start(), Now())
      modifies this`regs, this`job
      ensures Connects(cfg, path', path.Start(), Now())
      ensures rid in regs && regs == old(regs)[rid := regs[rid]]
      ensures done <==> effects >= 3
      ensures done ==> job == Idle && regs[rid] == Stored(cfg, rid, old(regs)[rid], token)
      ensures !done ==> regs[rid] == old(regs)[rid].(envelope := regs[rid].envelope)
    {
      done, path' := false, path;
      if effects == 0 { return; }
      path' := CredentialEffect(cfg, rid, ClearEnvelope(token), regs[rid].(envelope := false), Some(Publish(token)),
                                          token, path');
      if effects == 1 { return; }
      path' := CredentialEffect(cfg, rid, Publish(token), regs[rid].(envelope := true), Some(StoreCredential(token)),
                                          token, path');
      if effects == 2 { return; }
      path' := StoreCredentialRow(cfg, rid, token, path');
      done := true;
    }

    /** The last statement of `_credential`. */
    method StoreCredentialRow(cfg: Config, rid: string, token: nat, ghost path: Path) returns (ghost path': Path)
      requires rid in regs && job == Credentialing(rid, StoreCredential(token))
      requires Connects(cfg, path, path.Start(), Now())
      modifies this`regs, this`job
      ensures Connects(cfg, path', path.Start(), Now()) && job == Idle
      ensures regs == old(regs)[rid := Stored(cfg, rid, old(regs)[rid], token).(envelope := old(regs)[rid].envelope)]
    {
      var prefix := cfg.prefix(Current(rid, regs[rid].row));
      var row := regs[rid].row.(state := Credentialed, parentToken := Some(token), prefix := Some(prefix));
      path' := CredentialEffect(cfg, rid, StoreCredential(token), regs[rid].(row := row), None, token, path);
    }

    /**
     * `_revoke`: when the row says revoked the recorded token and the envelope are gone; before, the row is untouched.
     */
    method Revoke(cfg: Config, rid: string, effects: nat, ghost path: Path) returns (done: bool, ghost path': Path)
      requires rid in regs && job == Revoking(rid, RevokeToken)
      requires Connects(cfg, path, path.Start(), Now())
      modifies this`regs, this`job
      ensures Connects(cfg, path', path.Start(), Now())
      ensures rid in regs && regs == old(regs)[rid := regs[rid]]
      ensures done <==> effects >= 3
      ensures done ==> job == Idle && regs[rid] == Stopped(old(regs)[rid], old(regs)[rid].row.parentToken, Revoked)
      ensures !done ==> regs[rid].row == old(regs)[rid].row
    {
      done, path' := false, path;
      if effects == 0 { return; }
      path' := Effect(cfg, rid, Drop(regs[rid], regs[rid].row.parentToken), Revoking(rid, RemoveEnvelope),
                              0, Running, path');
      if effects == 1 { return; }
      path' := Effect(cfg, rid, regs[rid].(envelope := false), Revoking(rid, StoreRevoked), 0, Running, path');
      if effects == 2 { return; }
      path' := Effect(cfg, rid, regs[rid].(row := regs[rid].row.(state := Revoked)), Idle, 0, Running, path');
      done := true;
    }

    method VerifyEffect(
      cfg: Config, rid: string, at: VerifyAt, reg: Reg, next: Option<VerifyAt>, newId: nat, fate: Fate,
                        ghost path: Path)
      returns (ghost path': Path)
      requires Connects(cfg, path, path.Start(), Now())
      requires rid in regs && job == Verifying(rid, at) && fate != Lost
      requires VerifyNext(regs[rid], at, Verdict(cfg, Now(), rid), newId, fate) == Some((reg, next))
      modifies this`regs, this`job
      ensures regs == old(regs)[rid := reg] && job == if next.Some? then Verifying(rid, next.value) else Idle
      ensures Connects(cfg, path', path.Start(), Now())
    {
      path' := Effect(cfg, rid, reg, if next.Some? then Verifying(rid, next.value) else Idle, newId, fate, path);
    }

    /**
     * `_verify`. A refused manifest fails the row and leaves no commit; an accepted one is committed, once however
     * often this is replayed, before the row names the submission of that commit.
     */
    method Verify(cfg: Config, rid: string, newId: nat, fate: Fate, effects: nat, ghost path: Path)
      returns (done: bool, ghost path': Path)
      requires rid in regs && job == Verifying(rid, ReadBucket) && regs[rid].row.readyBlock.Some?
      requires newId !in regs[rid].submissions && fate != Lost
      requires Connects(cfg, path, path.Start(), Now())
      modifies this`regs, this`job, bucket`multiparts
      ensures Connects(cfg, path', path.Start(), Now())
      ensures rid in regs && regs == old(regs)[rid := regs[rid]]
      ensures done ==> job == Idle
      ensures !done ==> regs[rid].row == old(regs)[rid].row
      ensures var verdict, was := Verdict(cfg, old(Now()), rid), old(regs)[rid];
              && (verdict.None? && done ==> regs[rid] == was.(row := was.row.(state := Failed))
                                            && NoneUnder(bucket.multiparts, PrefixOf(cfg, rid, was.row)))
              && (verdict.None? && !done ==> regs[rid] == was)
              && (verdict.Some? && done ==> IsSubmittedFor(was, regs[rid], verdict.value, newId, fate))
    {
      done, path' := false, path;
      var prefix, verdict := PrefixOf(cfg, rid, regs[rid].row), Verdict(cfg, Now(), rid);
      if effects == 0 { return; }
      if verdict.None? {
        path' := VerifyEffect(cfg, rid, ReadBucket, regs[rid], Some(StoreFailure), newId, fate, path');
        var aborted := bucket.AbortMultipartUploads(prefix);
        if aborted.None? || effects == 1 { return; }
        var row := regs[rid].row.(state := Failed);
        path' := VerifyEffect(cfg, rid, StoreFailure, regs[rid].(row := row), None, newId, fate, path');
        done := true;
      } else {
        path' := VerifyEffect(cfg, rid, ReadBucket, regs[rid], Some(InsertCommit(verdict.value)), newId, fate, path');
        done, path' := Submit(cfg, rid, verdict.value, newId, fate, effects - 1, path');
      }
    }

    /** The rest of `_verify` for a manifest that is accepted. */
    method Submit(cfg: Config, rid: string, verdict: string, newId: nat, fate: Fate, effects: nat, ghost path: Path)
      returns (done: bool, ghost path': Path)
      requires rid in regs && job == Verifying(rid, InsertCommit(verdict)) && regs[rid].row.readyBlock.Some?
      requires newId !in regs[rid].submissions && fate != Lost
      requires Connects(cfg, path, path.Start(), Now())
      modifies this`regs, this`job
      ensures Connects(cfg, path', path.Start(), Now())
      ensures rid in regs && regs == old(regs)[rid := regs[rid]]
      ensures done <==> effects >= 2
      ensures !done ==> regs[rid].row == old(regs)[rid].row
      ensures done ==> job == Idle && IsSubmittedFor(old(regs)[rid], regs[rid], verdict, newId, fate)
    {
      done, path' := false, path;
      if effects == 0 { return; }
      ghost var was := regs[rid];
      var row := regs[rid].row;
      var payload := Payload(row.attempts, row.manifest, verdict);
      var (reg, submission) := InsertedCommit(regs[rid], payload, row.readyBlock.value, newId, fate);
      path' := VerifyEffect(cfg, rid, InsertCommit(verdict), reg, Some(StoreSubmission(submission)), newId, fate,
          path');
      if effects == 1 { return; }
      var final := reg.(row := row.(state := Submitted, submission := Some(submission)));
      CommitNames(was, payload, row.readyBlock.value, newId, fate);
      path' := VerifyEffect(cfg, rid, StoreSubmission(submission), final, None, newId, fate, path');
      done := true;
    }

    /**
     * `_close_upload_window` for a row as the sweep's statement selected it. In a state of the protocol's runs that
     * row names every live token, so when the row says failed nobody can write; before, the row is untouched.
     */
    method CloseUploadWindow(
      cfg: Config, rid: string, seen: Row, rest: map<string, Row>, effects: nat, ghost path: Path)
      returns (done: bool, ghost path': Path)
      requires rid in regs && job == Closing(rid, seen, CloseToken, rest)
      requires Connects(cfg, path, path.Start(), Now())
      modifies this`regs, this`job, bucket`multiparts
      ensures Connects(cfg, path', path.Start(), Now())
      ensures rid in regs && regs == old(regs)[rid := regs[rid]]
      ensures done <==> effects >= 4 && IsCanonical(PrefixOf(cfg, rid, seen))
      ensures done ==> job == Sweeping(rest) && regs[rid] == Stopped(old(regs)[rid], seen.parentToken, Failed)
                       && NoneUnder(bucket.multiparts, PrefixOf(cfg, rid, seen))
      ensures done && old(SweptOk(Now(), rid, seen)) ==> IsFrozen(regs[rid])
      ensures !done ==> regs[rid].row == old(regs)[rid].row
    {
      done, path' := false, path;
      if effects == 0 { return; }
      ghost var was := regs[rid];
      path' := CloseEffect(cfg, rid, seen, rest, CloseToken, Drop(regs[rid], seen.parentToken), Some(CloseEnvelope),
          path');
      if effects == 1 { return; }
      done, path' := CloseEnvelopeAndRow(cfg, rid, seen, rest, effects - 1, path');
      if done && old(SweptOk(Now(), rid, seen)) { NobodyWrites(was, seen.parentToken); }
    }

    /** The rest of `_close_upload_window`, once the token is revoked. */
    method CloseEnvelopeAndRow(
      cfg: Config, rid: string, seen: Row, rest: map<string, Row>, effects: nat, ghost path: Path)
      returns (done: bool, ghost path': Path)
      requires rid in regs && job == Closing(rid, seen, CloseEnvelope, rest)
      requires Connects(cfg, path, path.Start(), Now())
      modifies this`regs, this`job, bucket`multiparts
      ensures Connects(cfg, path', path.Start(), Now())
      ensures rid in regs && regs == old(regs)[rid := regs[rid]]
      ensures done <==> effects >= 3 && IsCanonical(PrefixOf(cfg, rid, seen))
      ensures done ==> job == Sweeping(rest) && regs[rid] == Stopped(old(regs)[rid], None, Failed)
                       && NoneUnder(bucket.multiparts, PrefixOf(cfg, rid, seen))
      ensures !done ==> regs[rid].row == old(regs)[rid].row
    {
      done, path' := false, path;
      if effects == 0 { return; }
      path' := CloseEffect(cfg, rid, seen, rest, CloseEnvelope, regs[rid].(envelope := false), Some(StoreClosed),
          path');
      if effects == 1 { return; }
      var aborted := bucket.AbortMultipartUploads(PrefixOf(cfg, rid, seen));
      if aborted.None? || effects == 2 { return; }
      var row := regs[rid].row.(state := Failed);
      path' := CloseEffect(cfg, rid, seen, rest, StoreClosed, regs[rid].(row := row), None, path');
      done := true;
    }

    method CloseEffect(
      cfg: Config, rid: string, seen: Row, rest: map<string, Row>, at: CloseAt, reg: Reg, next: Option<CloseAt>,
                       ghost path: Path)
      returns (ghost path': Path)
      requires Connects(cfg, path, path.Start(), Now())
      requires rid in regs && job == Closing(rid, seen, at, rest) && CloseNext(regs[rid], seen, at) == (reg, next)
      modifies this`regs, this`job
      ensures regs == old(regs)[rid := reg] && job == if next.Some? then Closing(rid, seen, next.value, rest)
              else Sweeping(rest)
      ensures Connects(cfg, path', path.Start(), Now())
    {
      path' := Effect(cfg, rid, reg, if next.Some? then Closing(rid, seen, next.value, rest)
          else Sweeping(rest), 0, Running, path);
    }

    /** What a tick begins for a row in this state, if anything. */
    function WorkFor(rid: string, state: RowState): (begun: Job)
      ensures !begun.Idle? <==> state in {Activated, Ready, Revoked}
    {
      match state
      case Activated => Credentialing(rid, RevokeOld)
      case Ready => Revoking(rid, RevokeToken)
      case Revoked => Verifying(rid, ReadBucket)
      case _ => Idle
    }

    /** The work the job just begun is for. */
    method Attend(cfg: Config, rid: string, newId: nat, fate: Fate, effects: nat, ghost path: Path)
      returns (done: bool, ghost path': Path)
      requires rid in regs && fate != Lost && newId !in regs[rid].tokens && newId !in regs[rid].submissions
      requires || job == Credentialing(rid, RevokeOld) || job == Revoking(rid, RevokeToken)
               || (job == Verifying(rid, ReadBucket) && regs[rid].row.readyBlock.Some?)
      requires Connects(cfg, path, path.Start(), Now())
      modifies this`regs, this`job, bucket`multiparts
      ensures Connects(cfg, path', path.Start(), Now()) && (done ==> job == Idle)
      ensures rid in regs && regs == old(regs)[rid := regs[rid]]
    {
      if job.Credentialing? {
        done, path' := Credential(cfg, rid, newId, effects, path);
      } else if job.Revoking? {
        done, path' := Revoke(cfg, rid, effects, path);
      } else {
        done, path' := Verify(cfg, rid, newId, fate, effects, path);
      }
    }

    /**
     * `tick` for the row it selected: one of the three, and a failure on the way leaves the row to a later tick. It
     * is a path of protocol steps, so what holds in every run holds wherever it fails.
     */
    method Tick(cfg: Config, rid: string, newId: nat, fate: Fate, effects: nat, ghost path: Path)
      returns (worked: bool, ghost path': Path)
      requires job == Idle && fate != Lost
      requires rid in regs ==> newId !in regs[rid].tokens && newId !in regs[rid].submissions
      requires rid in regs && regs[rid].row.state == Revoked ==> regs[rid].row.readyBlock.Some?
      requires Connects(cfg, path, path.Start(), Now())
      modifies this`regs, this`job, bucket`multiparts
      ensures Connects(cfg, path', path.Start(), Now()) && job == Idle
      ensures worked <==> rid in old(regs) && old(regs)[rid].row.state in {Activated, Ready, Revoked}
      ensures rid in old(regs) ==> rid in regs && regs == old(regs)[rid := regs[rid]]
      ensures rid !in old(regs) ==> regs == old(regs)
    {
      worked, path' := false, path;
      if rid !in regs { return; }
      var begun := WorkFor(rid, regs[rid].row.state);
      if begun.Idle? { return; }
      path' := Then(path', Pick(rid), Now().(job := begun));
      worked, job := true, begun;
      var done;
      done, path' := Attend(cfg, rid, newId, fate, effects, path');
      if !done {
        path' := Then(path', Crash, Now().(job := Idle));
        job := Idle;
      }
    }
  }

  lemma FewerTokens(a: map<nat, Upload>, b: map<nat, Upload>)
    requires b.Keys <= a.Keys
    ensures |b| <= |a|
  {
    assert a.Keys == b.Keys + (a.Keys - b.Keys);
  }

  // ---------------------------------------------------------------- which signals apply

  /** An activate of a known miner with an unused hotkey claims a registration that is new or may be claimed again. */
  predicate Claims(cfg: Config, regs: map<string, Reg>, signal: Signal)
    requires signal.step.Activate?
  {
    && signal.parses && signal.known && !signal.used
    && (signal.step.rid in regs ==>
          IsClaimable(cfg, regs[signal.step.rid].row, signal.step.block, signal.step.pubkey))
  }

  /** A ready signal is taken from a credentialed row, if it is newer than the row's activation. */
  predicate Takes(regs: map<string, Reg>, signal: Signal)
    requires signal.step.SignalReady?
  {
    && signal.parses && signal.step.rid in regs && regs[signal.step.rid].row.state == Credentialed
    && signal.step.block > regs[signal.step.rid].row.activationBlock
  }

  // ---------------------------------------------------------------- what they leave

  /** The registration with this token and its upload's prefix stored in the row, and a fresh envelope. */
  function Stored(cfg: Config, rid: string, was: Reg, token: nat): Reg {
    var prefix := cfg.prefix(Current(rid, was.row));
    was.(row := was.row.(state := Credentialed, parentToken := Some(token), prefix := Some(prefix)), envelope := true)
  }

  /** The registration with fresh credentials for its attempt: one live token, stored in the row. */
  function Credentialled(cfg: Config, rid: string, was: Reg, token: nat): Reg {
    Stored(cfg, rid, was.(tokens := map[token := Current(rid, was.row)]), token)
  }

  /** The registration without this token and without an envelope, in a new state. */
  function Stopped(was: Reg, token: Option<nat>, state: RowState): Reg {
    Drop(was, token).(envelope := false, row := was.row.(state := state))
  }

  lemma NobodyWrites(was: Reg, token: Option<nat>)
    requires forall t :: t in was.tokens ==> token == Some(t)
    ensures IsFrozen(Stopped(was, token, Failed))
  {
  }

  predicate NoneUnder(multiparts: map<string, string>, prefix: string) {
    forall u :: u in multiparts ==> !(prefix <= multiparts[u])
  }

  /** The row names the submission of its attempt's commit: the one made before, or else a new one. */
  predicate IsSubmittedFor(was: Reg, reg: Reg, verdict: string, newId: nat, fate: Fate) {
    var payload := Payload(was.row.attempts, was.row.manifest, verdict);
    && payload in reg.commits && was.row.readyBlock == Some(reg.commits[payload].block)
    && reg.row == was.row.(state := Submitted, submission := Some(reg.commits[payload].submission))
    && reg.tokens == was.tokens && reg.envelope == was.envelope
    && reg.commits - {payload} == was.commits - {payload}
    && (if payload in was.commits
        then reg.commits[payload].submission == was.commits[payload].submission && reg.submissions == was.submissions
        else reg.commits[payload].submission == newId && reg.submissions == was.submissions[newId := fate])
  }

  lemma CommitNames(was: Reg, payload: Payload, block: int, newId: nat, fate: Fate)
    requires payload.attempt == was.row.attempts && payload.manifest == was.row.manifest
             && was.row.readyBlock == Some(block)
    ensures var (reg, submission) := InsertedCommit(was, payload, block, newId, fate);
            var row := was.row.(state := Submitted, submission := Some(submission));
            reg.row == was.row && IsSubmittedFor(was, reg.(row := row), payload.verdict, newId, fate)
  {
  }

  function AfterSignal(cfg: Config, regs: map<string, Reg>, signal: Signal): map<string, Reg> {
    if !signal.IsAdmitted() then regs
    else
      match signal.step
      case Activate(rid, block, pubkey) =>
        if rid !in regs then regs[rid := Reg(FirstRow(block, pubkey), map[], false, map[], map[])]
        else
          (match Rekeyed(regs[rid].row, block, pubkey, cfg.maxAttempts)
           case None => regs
           case Some(row) => regs[rid := regs[rid].(row := row)])
      case SignalReady(rid, block, manifest) =>
        if rid !in regs then regs
        else
          (match MadeReady(regs[rid].row, block, manifest)
           case None => regs
           case Some(row) => regs[rid := regs[rid].(row := row)])
      case _ => regs
  }

  function Scanned(cfg: Config, regs: map<string, Reg>, signals: seq<Signal>): map<string, Reg> {
    if signals == [] then regs
    else AfterSignal(cfg, Scanned(cfg, regs, signals[..|signals| - 1]), signals[|signals| - 1])
  }

  /** How many signals of the scan change a row. */
  function Changes(cfg: Config, regs: map<string, Reg>, signals: seq<Signal>): nat {
    if signals == [] then 0
    else
      var init := signals[..|signals| - 1];
      Changes(cfg, regs, init) + if Scanned(cfg, regs, signals) == Scanned(cfg, regs, init) then 0 else 1
  }

  predicate IsFresh(regs: map<string, Reg>, signal: Signal) {
    && signal.IsAdmitted()
    && match signal.step
       case Activate(rid, block, _) => rid !in regs || block > regs[rid].row.activationBlock
       case SignalReady(rid, block, _) => rid in regs && block > regs[rid].row.activationBlock
       case _ => false
  }

  /** Signals no newer than what their registrations have seen change nothing, in whatever order a scan yields them. */
  lemma {:induction false} StaleScanIsIdle(cfg: Config, regs: map<string, Reg>, signals: seq<Signal>)
    requires forall i :: 0 <= i < |signals| ==> !IsFresh(regs, signals[i])
    ensures Scanned(cfg, regs, signals) == regs && Changes(cfg, regs, signals) == 0
  {
    if signals != [] {
      StaleScanIsIdle(cfg, regs, signals[..|signals| - 1]);
      assert !IsFresh(regs, signals[|signals| - 1]);
    }
  }

  /** A scan is a path of the protocol: an intake step for each admitted signal, while no row it names is locked. */
  lemma {:induction false} ScanIsSteps(cfg: Config, s: State, signals: seq<Signal>) returns (p: Path)
    requires forall i :: 0 <= i < |signals| ==>
               signals[i].IsSignal() && cfg.isRid(signals[i].step.rid) && !IsLocked(s.job, signals[i].step.rid)
    ensures Connects(cfg, p, s, s.(regs := Scanned(cfg, s.regs, signals))) && p.Steps() == Admitted(signals)
  {
    if signals == [] {
      p := From(s);
    } else {
      p := ScanIsSteps(cfg, s, signals[..|signals| - 1]);
      var last := signals[|signals| - 1];
      if last.IsAdmitted() { p := Then(p, last.step, s.(regs := Scanned(cfg, s.regs, signals))); }
    }
  }

  function Admitted(signals: seq<Signal>): seq<Step> {
    if signals == [] then []
    else
      var last := signals[|signals| - 1];
      Admitted(signals[..|signals| - 1]) + if last.IsAdmitted() then [last.step] else []
  }
}
