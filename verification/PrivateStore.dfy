/**
 * The private-upload protocol: `src/private_store/intake.py` and `controller.py` with the token gateway
 * and the stores they drive.
 *
 * A state holds every registration row with the external state that belongs to it, the bucket, and how far
 * the one access controller got in what it is doing. A step is one SQL statement, one HTTP call, one signal
 * applied by the chain reader, one write by a miner, or a crash of the controller.
 */
module PrivateStore {
  import opened Contracts
  import opened Results
  import opened Storage

  datatype RowState = Activated | Credentialed | Ready | Revoked | Submitted | Failed

  /** A row of `private_registrations`. */
  datatype Row = Row(
    state: RowState,
    attempts: int,
    extra: nat,
    activationBlock: int,
    pubkey: string,
    parentToken: Option<nat>,
    prefix: Option<string>,
    readyBlock: Option<int>,
    manifest: string,
    submission: Option<nat>)

  /** The payload `_verify` commits; the chain commit's key is its hash, taken to be collision-free. */
  datatype Payload = Payload(attempt: int, manifest: string, verdict: string)

  datatype Commit = Commit(block: int, submission: nat)

  /** What became of a model submission: `Lost` stands for `COMPLETE_LOSS` and `TERMINAL_INFRA_FAILED`. */
  datatype Fate = Running | TerminalInvalid | Lost

  /** One registration: its row, its live parent tokens with what each may write, its sealed envelope,
      and the chain commits and submissions made for it. */
  datatype Reg = Reg(
    row: Row,
    tokens: map<nat, Upload>,
    envelope: bool,
    commits: map<Payload, Commit>,
    submissions: map<nat, Fate>)

  datatype CredentialAt = RevokeOld | ListTokens | RevokeListed(todo: set<nat>) | Mint
                        | ClearEnvelope(token: nat) | Publish(token: nat) | StoreCredential(token: nat)
  datatype RevokeAt = RevokeToken | RemoveEnvelope | StoreRevoked
  datatype VerifyAt = ReadBucket | StoreFailure | InsertCommit(verdict: string) | StoreSubmission(submission: nat)
  datatype CloseAt = CloseToken | CloseEnvelope | StoreClosed

  /** What the controller is doing; `run` does one of these at a time. */
  datatype Job =
    | Idle
    | Credentialing(rid: string, credentialAt: CredentialAt)
    | Revoking(rid: string, revokeAt: RevokeAt)
    | Verifying(rid: string, verifyAt: VerifyAt)
    | Sweeping(snapshot: map<string, Row>)
    | Closing(rid: string, row: Row, closeAt: CloseAt, rest: map<string, Row>)
    | Resubmitting(terminal: set<string>)
    | Inventoried(newest: map<string, int>, cutoff: int)
    | Reaping(victims: set<string>)

  datatype State = State(regs: map<string, Reg>, objects: Objects, publicBlocks: set<int>, job: Job)

  /** The settings, the key layout, and manifest verification as a function of the registration id, the
      submission key, the manifest digest, the prefix and the objects read there. */
  datatype Config = Config(
    maxAttempts: int,
    isRid: string -> bool,
    prefix: Upload -> string,
    verify: (string, string, string, string, Objects) -> Option<string>)

  datatype Step =
    // the chain reader
    | Activate(rid: string, block: int, pubkey: string)
    | SignalReady(rid: string, block: int, manifest: string)
    // the controller
    | Pick(rid: string)
    | Advance(id: nat, fate: Fate)
    | StartSweep
    | PickSwept(rid: string)
    | EndLoop
    | StartResubmit
    | Park(rid: string, tip: Option<int>)
    | ListUploads(newest: map<string, int>, cutoff: int)
    | Protect
    | DeleteKey(victim: string, key: string)
    | Crash
    // everyone else
    | Write(rid: string, token: nat, key: string, stored: Option<Object>)
    | Resolve(rid: string, submission: nat, fate: Fate)
    | GrantExtra(rid: string)
    | PublicCommits(blocks: set<int>)

  // ---------------------------------------------------------------- the guarded updates

  /** `_apply_activate` on a row that exists: the row after it, when its guard holds. */
  function Rekeyed(row: Row, block: int, pubkey: string, maxAttempts: int): Option<Row> {
    if && ( || (row.state in {Activated, Credentialed} && row.pubkey != pubkey)
            || (row.state == Submitted && row.submission.None?)
            || row.state == Failed)
       && block > row.activationBlock
       && row.attempts < maxAttempts + row.extra
    then Some(row.(pubkey := pubkey, attempts := row.attempts + 1, state := Activated,
                   activationBlock := block, prefix := None))
    else None
  }

  /** The row `_apply_activate` inserts, with the schema's defaults. */
  function FirstRow(block: int, pubkey: string): Row {
    Row(Activated, 1, 0, block, pubkey, None, None, None, "", None)
  }

  /** `_apply_ready`: the row after it, when its guard holds. */
  function MadeReady(row: Row, block: int, manifest: string): Option<Row> {
    if row.state == Credentialed && block > row.activationBlock
    then Some(row.(state := Ready, manifest := manifest, readyBlock := Some(block)))
    else None
  }

  /** `_reset_for_retry`: the row parked for a retry, `tip` being the newest block of any chain commit. */
  function Parked(row: Row, tip: Option<int>): Row {
    var block := if tip.Some? && tip.value > row.activationBlock then tip.value else row.activationBlock;
    row.(activationBlock := block, parentToken := None, prefix := None, readyBlock := None, manifest := "",
         submission := None)
  }

  // ---------------------------------------------------------------- what the rows mean

  predicate IsParked(row: Row) { row.state == Submitted && row.submission.None? }

  /** The rows `_protected_prefixes` selects. */
  predicate IsLive(reg: Reg) {
    && reg.row.state != Failed
    && !IsParked(reg.row)
    && (reg.row.submission.Some? && reg.row.submission.value in reg.submissions ==>
          reg.submissions[reg.row.submission.value] == Running)
  }

  /** The upload a registration is working on. */
  function Current(rid: string, row: Row): Upload { Upload(rid, row.attempts) }

  /** `_prefix_of`. */
  function PrefixOf(cfg: Config, rid: string, row: Row): string {
    if row.prefix.Some? then row.prefix.value else cfg.prefix(Upload(rid, 1))
  }

  function Protected(cfg: Config, s: State): set<string> {
    set rid | rid in s.regs && IsLive(s.regs[rid]) :: PrefixOf(cfg, rid, s.regs[rid].row)
  }

  /** The objects verification reads. */
  function View(objects: Objects, prefix: string): Objects {
    map k | k in objects && prefix <= k :: objects[k]
  }

  function Verdict(cfg: Config, s: State, rid: string): Option<string>
    requires rid in s.regs
  {
    var row := s.regs[rid].row;
    var prefix := PrefixOf(cfg, rid, row);
    cfg.verify(rid, row.pubkey, row.manifest, prefix, View(s.objects, prefix))
  }

  predicate IsUpload(cfg: Config, u: Upload) { cfg.isRid(u.registrationId) && u.attempt >= 1 }

  /** No attempt's prefix starts another's. */
  ghost predicate IsPrefixFree(cfg: Config) {
    forall u, v, key :: IsUpload(cfg, u) && IsUpload(cfg, v) && IsKeyOf(cfg, u, key) && IsKeyOf(cfg, v, key) ==> u == v
  }

  /** `key` lies under the upload's prefix. */
  predicate IsKeyOf(cfg: Config, u: Upload, key: string) { cfg.prefix(u) <= key }

  ghost predicate HasBlock(s: State, block: int) {
    || block in s.publicBlocks
    || exists rid, p :: rid in s.regs && p in s.regs[rid].commits && s.regs[rid].commits[p].block == block
  }

  /** `SELECT max(block_number) FROM chain_commits`. */
  ghost predicate IsTip(s: State, tip: Option<int>) {
    && (tip.Some? ==> HasBlock(s, tip.value))
    && (forall b :: HasBlock(s, b) ==> tip.Some? && b <= tip.value)
  }

  /** The tick holds the row it works on locked: intake waits for it. */
  predicate IsLocked(job: Job, rid: string) {
    (job.Credentialing? || job.Revoking? || job.Verifying?) && job.rid == rid
  }

  // ---------------------------------------------------------------- steps

  function Set(s: State, rid: string, reg: Reg): State {
    s.(regs := s.regs[rid := reg])
  }

  function SetRow(s: State, rid: string, row: Row): State
    requires rid in s.regs
  {
    Set(s, rid, s.regs[rid].(row := row))
  }

  /** DELETE one token; a token that is gone already (404) counts as deleted. */
  function Drop(reg: Reg, token: Option<nat>): Reg {
    if token.Some? then reg.(tokens := reg.tokens - {token.value}) else reg
  }

  /** The controller's own effects never touch a row's counters. */
  predicate SameCounters(reg: Reg, reg': Reg) {
    reg'.row.attempts == reg.row.attempts && reg'.row.activationBlock == reg.row.activationBlock
  }

  /** `_credential`, one effect at a time; no next place means the transaction commits. `token` is an id the
      gateway reports: of a token to delete, or of the one it creates. */
  function CredentialNext(cfg: Config, rid: string, reg: Reg, at: CredentialAt, token: nat)
    : (r: Option<(Reg, Option<CredentialAt>)>)
    ensures r.Some? ==> SameCounters(reg, r.value.0)
  {
    var row, upload := reg.row, Current(rid, reg.row);
    match at
    case RevokeOld => Some((Drop(reg, row.parentToken), Some(ListTokens)))
    case ListTokens => Some((reg, Some(RevokeListed(reg.tokens.Keys))))
    case RevokeListed(todo) =>
      if todo == {} then Some((reg, Some(Mint)))
      else if token in todo then Some((Drop(reg, Some(token)), Some(RevokeListed(todo - {token}))))
      else None
    case Mint =>
      if token in reg.tokens then None
      else Some((reg.(tokens := reg.tokens[token := upload]), Some(ClearEnvelope(token))))
    case ClearEnvelope(t) => Some((reg.(envelope := false), Some(Publish(t))))
    case Publish(t) => Some((reg.(envelope := true), Some(StoreCredential(t))))
    case StoreCredential(t) =>
      Some((reg.(row := row.(state := Credentialed, parentToken := Some(t), prefix := Some(cfg.prefix(upload)))), None))
  }

  /** `_revoke`. */
  function RevokeNext(reg: Reg, at: RevokeAt): (r: (Reg, Option<RevokeAt>))
    ensures SameCounters(reg, r.0)
  {
    match at
    case RevokeToken => (Drop(reg, reg.row.parentToken), Some(RemoveEnvelope))
    case RemoveEnvelope => (reg.(envelope := false), Some(StoreRevoked))
    case StoreRevoked => (reg.(row := reg.row.(state := Revoked)), None)
  }

  /**
   * The upsert of `insert_new_commits`, a transaction of its own: one commit per payload, one submission per commit.
   */
  function InsertedCommit(reg: Reg, payload: Payload, block: int, newId: nat, fate: Fate): (Reg, nat) {
    if payload in reg.commits then
      var submission := reg.commits[payload].submission;
      (reg.(commits := reg.commits[payload := Commit(block, submission)]), submission)
    else
      (reg.(commits := reg.commits[payload := Commit(block, newId)], submissions := reg.submissions[newId := fate]),
          newId)
  }

  /** `_verify`; `verdict` is what the manifest check says of the bytes in the bucket, `newId` a new submission's id. */
  function VerifyNext(reg: Reg, at: VerifyAt, verdict: Option<string>, newId: nat, fate: Fate)
    : (r: Option<(Reg, Option<VerifyAt>)>)
    ensures r.Some? ==> SameCounters(reg, r.value.0)
  {
    var row := reg.row;
    match at
    case ReadBucket => Some((reg, Some(if verdict.None? then StoreFailure else InsertCommit(verdict.value))))
    case StoreFailure => Some((reg.(row := row.(state := Failed)), None))
    case InsertCommit(v) =>
      if row.readyBlock.None? || newId in reg.submissions then None
      else
        var (reg', submission) := InsertedCommit(reg, Payload(row.attempts, row.manifest, v), row.readyBlock.value,
           newId, fate);
        Some((reg', Some(StoreSubmission(submission))))
    case StoreSubmission(submission) =>
      Some((reg.(row := row.(state := Submitted, submission := Some(submission))), None))
  }

  /** `_close_upload_window`; `seen` is the row as the sweep selected it. */
  function CloseNext(reg: Reg, seen: Row, at: CloseAt): (r: (Reg, Option<CloseAt>))
    ensures SameCounters(reg, r.0)
  {
    match at
    case CloseToken => (Drop(reg, seen.parentToken), Some(CloseEnvelope))
    case CloseEnvelope => (reg.(envelope := false), Some(StoreClosed))
    case StoreClosed => (reg.(row := reg.row.(state := Failed)), None)
  }

  /** The next effect of what the controller is doing. */
  ghost predicate Advances(cfg: Config, s: State, id: nat, fate: Fate, s': State) {
    match s.job
    case Credentialing(rid, at) =>
      rid in s.regs && (
        match CredentialNext(cfg, rid, s.regs[rid], at, id)
        case None => false
        case Some((reg', at')) => s' == Set(s, rid, reg').(job := if at'.Some? then Credentialing(rid, at'.value)
           else Idle))
    case Revoking(rid, at) =>
      rid in s.regs &&
      var (reg', at') := RevokeNext(s.regs[rid], at);
      s' == Set(s, rid, reg').(job := if at'.Some? then Revoking(rid, at'.value) else Idle)
    case Verifying(rid, at) =>
      rid in s.regs && fate != Lost && (
        match VerifyNext(s.regs[rid], at, Verdict(cfg, s, rid), id, fate)
        case None => false
        case Some((reg', at')) => s' == Set(s, rid, reg').(job := if at'.Some? then Verifying(rid, at'.value)
           else Idle))
    case Closing(rid, seen, at, rest) =>
      rid in s.regs &&
      var (reg', at') := CloseNext(s.regs[rid], seen, at);
      s' == Set(s, rid, reg').(job := if at'.Some? then Closing(rid, seen, at'.value, rest) else Sweeping(rest))
    case _ => false
  }

  ghost predicate Next(cfg: Config, s: State, step: Step, s': State) {
    match step
    case Activate(rid, block, pubkey) =>
      cfg.isRid(rid) && !IsLocked(s.job, rid) && (
        if rid !in s.regs then s' == Set(s, rid, Reg(FirstRow(block, pubkey), map[], false, map[], map[]))
        else match Rekeyed(s.regs[rid].row, block, pubkey, cfg.maxAttempts)
          case None => s' == s
          case Some(row) => s' == SetRow(s, rid, row))
    case SignalReady(rid, block, manifest) =>
      !IsLocked(s.job, rid) && (
        if rid !in s.regs then s' == s
        else match MadeReady(s.regs[rid].row, block, manifest)
          case None => s' == s
          case Some(row) => s' == SetRow(s, rid, row))
    case Pick(rid) =>
      s.job.Idle? && rid in s.regs && (
        match s.regs[rid].row.state
        case Activated => s' == s.(job := Credentialing(rid, RevokeOld))
        case Ready => s' == s.(job := Revoking(rid, RevokeToken))
        case Revoked => s' == s.(job := Verifying(rid, ReadBucket))
        case _ => false)
    case Advance(id, fate) => Advances(cfg, s, id, fate, s')
    case StartSweep =>
      && s.job.Idle?
      && s' == s.(job := Sweeping(map rid | rid in s.regs && s.regs[rid].row.state == Credentialed :: s.regs[rid].row))
    case PickSwept(rid) =>
      // the window expired or the quota was abused; the row acted on is the one selected at the start
      && s.job.Sweeping? && rid in s.job.snapshot
      && s' == s.(job := Closing(rid, s.job.snapshot[rid], CloseToken, s.job.snapshot - {rid}))
    case EndLoop => (s.job.Sweeping? || s.job.Resubmitting? || s.job.Reaping?) && s' == s.(job := Idle)
    case StartResubmit =>
      && s.job.Idle?
      && s' == s.(job := Resubmitting(set rid | rid in s.regs && MayRetry(cfg, s.regs[rid])))
    case Park(rid, tip) =>
      && s.job.Resubmitting? && rid in s.job.terminal && rid in s.regs && IsTip(s, tip)
      && s' == SetRow(s, rid, Parked(s.regs[rid].row, tip)).(job := Resubmitting(s.job.terminal - {rid}))
    case ListUploads(newest, cutoff) =>
      && s.job.Idle? && HoldsObjects(cfg, newest, s.objects)
      && s' == s.(job := Inventoried(newest, cutoff))
    case Protect =>
      && s.job.Inventoried?
      && s' == s.(job := Reaping(PlanReap(s.job.newest, s.job.cutoff, Protected(cfg, s))))
    case DeleteKey(victim, key) =>
      // one key of one batch of `cleanup_model_prefix`
      && s.job.Reaping? && victim in s.job.victims && victim <= key
      && s' == s.(objects := s.objects - {key})
    case Crash => s' == s.(job := Idle)
    case Write(rid, token, key, stored) =>
      // credentials derived from a live parent token write or delete under the token's prefix
      && rid in s.regs && token in s.regs[rid].tokens && cfg.prefix(s.regs[rid].tokens[token]) <= key
      && s' == s.(objects := if stored.Some? then s.objects[key := stored.value] else s.objects - {key})
    case Resolve(rid, submission, fate) =>
      // evaluation decides a submission once
      && rid in s.regs && submission in s.regs[rid].submissions && s.regs[rid].submissions[submission] == Running
      && s' == Set(s, rid, s.regs[rid].(submissions := s.regs[rid].submissions[submission := fate]))
    case GrantExtra(rid) =>
      rid in s.regs && !IsLocked(s.job, rid) && s'
          == SetRow(s, rid, s.regs[rid].row.(extra := s.regs[rid].row.extra + 1))
    case PublicCommits(blocks) => s' == s.(publicBlocks := blocks)
  }

  /** The rows `resubmit_terminal` selects. */
  predicate MayRetry(cfg: Config, reg: Reg) {
    && reg.row.state == Submitted && reg.row.submission.Some?
    && reg.row.submission.value in reg.submissions && reg.submissions[reg.row.submission.value] == TerminalInvalid
    && reg.row.attempts < cfg.maxAttempts + reg.row.extra
  }

  /** Each inventoried prefix is an upload's and holds at least one object (`Storage.IsInventory` gives this). */
  ghost predicate HoldsObjects(cfg: Config, newest: map<string, int>, objects: Objects) {
    forall p :: p in newest ==> exists u, k :: IsUpload(cfg, u) && cfg.prefix(u) == p && k in objects && p <= k
  }

  predicate IsInitial(s: State) {
    s.regs == map[] && s.objects == map[] && s.job == Idle
  }

  /** A run: from the empty store, one step after another. */
  ghost predicate IsRun(cfg: Config, states: seq<State>, steps: seq<Step>) {
    && |states| == |steps| + 1
    && IsInitial(states[0])
    && forall i :: 0 <= i < |steps| ==> Next(cfg, states[i], steps[i], states[i + 1])
  }
}
