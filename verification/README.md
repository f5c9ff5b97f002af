# Verified models of Albedo

This project models, in Dafny, the parts of the Albedo repository whose correctness rests on an argument longer than
one function body, and proves that argument. `dafny verify dfyconfig.toml` checks all of it.

- **Private uploads** (`PrivateStore*`, `Storage`, `Contracts`, `Base58`, `Radix`). Registration rows, Cloudflare
  parent tokens, sealed envelopes, chain commits and the bucket are one state; every SQL statement, HTTP call, applied
  signal, miner write and crash of the access controller is one step. Safety is proved over every run of such steps,
  and so is where a row's key, manifest, credentials and commits come from.
  The codecs below it (SS58 addresses, upload prefixes, mailbox keys) are proved to be inverse and prefix-free.
- **Digest pre-image** (`Digest*`, `Sorting`). What the model digest hashes determines exactly the paths, sizes and
  hashes of the inventory, and nothing about its order.
- **Shell answers** (`LsLayout`, `TextLines`, `Pipeline*`, `FileReads`, `FilesMeaning`, `BreTranslate`, `RegexTokens`,
  `BracketMeaning`, `TranslationMeaning`, `Stitch`). The column layout of `ls`, pipe stages against direct reads,
  lines in filesystem order, `cat` byte for byte, POSIX expressions against Python's reading of their translation, and
  AND-OR lists with unknown statuses.
- **Script analysis** (`ScriptWrites*`, `ScriptValues`, `ScriptRun`, `ScriptMeaning`). An abstract interpreter against
  an execution of the same programs in which path calls, the files that texts name and other calls are functions of
  the run.
- **Chunk cutter** (`ChunkStore`), **validation queue** (`LeaseQueue`, `ValidateWorker`, `QueueMeaning`), **shingle
  index** (`LeakIndex`), **loop collapse** (`LoopCollapse`, `LoopMeaning`), **scoring** (`Scoring`, `ScoringMeaning`).

The modules named `...Meaning` say what the functions of their neighbours compute without naming them: positions,
counts, orders, the fields of a row, and constants written out. The methods that follow the code's loops and updates
are proved equal to those functions.

Hash functions, encodings, regular-expression engines, the clock, unknown calls and the answers of other services are
parameters of the theorems, so each theorem holds for all of them.

## What turned out to be conditional

Where a promised property holds only under a condition, the model keeps the code as it is, the condition is proved
exact, and a lemma gives a run or an input that shows the failure.

- The reaper protects a live registration's upload by its stored prefix, and by attempt 1's prefix when none is
  stored. A row re-activated for attempt 2 or later has none until its credentials are stored, so its upload is not
  protected: a controller that crashes after publishing credentials and reaps before its next tick deletes a live
  upload (`PrivateStoreHistory.LiveUploadIsVictim`, `UnguardedUploadIsReaped`).
- A credential key stops being deletable when its generation has more than twenty digits
  (`Contracts.GenerationKeyIsDeletable`).
- `sed -n 0p` in a pipe is refused but `sed -n 00p` is not, and prints a last line (`Pipeline.SliceFromZero`).
- The unordered-walk gate lets every `grep` through; the promise holds exactly for those that print without `-n`, `-m`
  or context, or only count or stay quiet (`PipelineOrderExact.GateIsExact`).
- A translated expression is misread by Python exactly when it has a back-reference with a digit behind it; or, if it
  is basic, a `*` with nothing to repeat, or a `^` that follows a literal `(` or `|` after an escaped backslash; or
  when something is left as it is that means something else, behind a bracket expression that ends with `[` or `[^`
  and so is not seen to end (`TranslationMeaning.TranslationKeepsMeaning` and the lemmas after it).
- The script analysis follows a path through calls as if they returned it. That is exact if and only if the call
  returns its argument (`ScriptValues.CallNames`); a call that returns another path of the same place is harmless
  where it stands first, and can mislead when text is added or it is joined to something. So `expanduser("~/n")`,
  `str(Path("out/")) + "x"` and `os.path.join("b", os.path.abspath("a"))` are recorded as other files than are written
  (`ScriptWritesLimits.HomeMisleads`, `DroppedSlashMisleads`, `JoinedAbsoluteIsRightWhen`); and so is any relative
  path after the program changes its directory (`ScriptWritesLimits.OpenIsRightWhen`).
- It passes over `.name` of a path in a temporary directory, `..` behind one, and `open(file=...)`, all of which can
  write to the checkout (`ScriptWritesLimits.NameOfPathIsRightWhen`, `BehindTemporaryIsRightWhen`,
  `KeywordIsRightWhen`; `ScriptValues.NameNames`, `BelowIsTemporary`). It takes a temporary path that is appended to
  another for a file of the checkout, because `os.path.join` drops what precedes an absolute path and the marker is
  not absolute (`ScriptWritesLimits.AppendedTemporaryMisleads`).
- It can be wrong about a display it does not unroll if the loop opens a file or changes what is known of a name
  (`ScriptWritesSound.Follow`, `ScriptWritesLimits.LoopsMustBeUnrolled`), and about a conditional inside a call if
  that opens a file (`ScriptWritesLimits.NestedConditionalMisleads`).
- Rows survive every crash of the chunk cutter if adjacent windows of them have different sample ids
  (`ChunkStore.Store.RunDespiteCrashes`), and only then: otherwise a crash between saving the pending rows and
  recording a chunk loses a window (`ChunkStore.EqualWindowsLoseRows`).
- A step of the validation worker takes a hotkey past its strike limit exactly when other services added, between the
  gate and the verdict, as many strikes as the gate had left (`ValidateWorker.OverBudgetWhen`,
  `StrikeBetweenGateAndFault`).
- Collapsing equal lines leaves a run exactly when the input has one of the collapse marker itself, or one short of
  that behind a long run (`LoopCollapse.CollapseLeavesRunWhen`, `MarkerLinesCanLoop`).
- The words `wc` counts in its row `total` are fewer than the sum of the rows exactly when a file without a final line
  break is followed by one that starts inside its last word (`FileReads.TotalIsSum`).

## Model

| member | source | states |
|---|---|---|
| PrivateStoreSafety.StepKeeps | src/private_store/controller.py:166-577 | every step, a crash included, keeps the protocol invariant |
| PrivateStoreSafety.RunsAreSafe | src/private_store/controller.py:544-602 | the invariant holds in every state of every run |
| PrivateStoreSafety.RevokeBeforeVerify | src/private_store/controller.py:225-341 | in every run: at most one live parent token for each registration, the recorded one while credentials are out, none and no envelope once revoked, submitted or failed, and verification only on such rows |
| PrivateStoreSafety.FrozenBytes | src/private_store/controller.py:240-318 | while a row is revoked no step of anyone changes what lies under its prefix |
| PrivateStoreSafety.OneSubmissionPerAttempt | src/chain_reader/db.py:20-130 | however often verification is replayed, an attempt has at most one commit and one submission |
| PrivateStoreHistory.RunGrows | src/private_store/intake.py:76-104 | registrations are never lost, and activation block and attempt number never decrease |
| PrivateStoreHistory.ActivatesIncrease | src/private_store/intake.py:76-104 | applied activates of a registration have strictly increasing blocks, so none is applied twice |
| PrivateStoreHistory.AttemptsBounded | src/private_store/intake.py:76-104 | the attempt number stays between 1 and the limit plus the extra attempts, in every run |
| PrivateStoreHistory.NothingOldAfterParking | src/private_store/controller.py:454-502 | after an attempt is parked, no activate or ready at or before its ready block is ever applied |
| PrivateStoreHistory.LiveUploadIsVictim | src/private_store/controller.py:381-435 | the reaper takes a live registration's upload if and only if it is old and the row is activated past attempt 1 with no prefix stored |
| PrivateStoreHistory.ReaperSparesLiveUploads | src/private_store/controller.py:404-435 | in every run a key the reaper deletes belongs to no live registration's upload, save that one case |
| PrivateStoreHistory.ReapedNeverReturns | src/private_store/controller.py:404-435 | an attempt the reaper has deleted from never becomes live again, save that one case |
| PrivateStoreHistory.UnguardedUploadIsReaped | src/private_store/controller.py:91-92 | a run from the empty store in which the reaper deletes a live upload |
| PrivateStoreHistory.RealLayoutIsPrefixFree | src/private_store/contracts.py:60-81 | the prefixes of `model_prefix` meet what the theorems over runs ask of a key layout |
| PrivateStoreHistory.InventoryHoldsObjects | src/private_store/storage.py:364-388 | what `retained_uploads` returns is an inventory the reaping steps may start from |
| PrivateStoreOrigins.ActivateApplies | src/private_store/intake.py:45-104 | an activate changes the table if and only if the registration is new or its row may be claimed in that block with that key; what it leaves, field by field; other rows stay |
| PrivateStoreOrigins.RowsWereClaimed | src/private_store/intake.py:76-104 | in every run the key and attempt of a row are those of an activate applied to it, with none applied since |
| PrivateStoreOrigins.ReadyRowsWereSignalled | src/private_store/intake.py:107-130 | in every run a ready or revoked row carries the block and manifest of a ready signal taken from it while credentialed, with no activate applied since |
| PrivateStoreOrigins.CommitsWereSignalled | src/private_store/controller.py:240-318 | every commit of every run was verified on the objects under its attempt's prefix with the manifest of a ready signal, in whose block it is, and with the key of the activate before that |
| PrivateStoreMeaning.CredentialedMeans | src/private_store/controller.py:166-222 | when a row becomes credentialed in a run, one token is live, for this attempt's prefix, the row names both, the envelope is published, and nothing else of it changed |
| PrivateStoreMeaning.FailedMeans | src/private_store/controller.py:240-347 | a row fails in a run only because the manifest check refuses its upload or its window is being closed |
| PrivateStoreMeaning.SweptRowsWereCredentialed | src/private_store/controller.py:350-373 | a window is closed only for a row that was credentialed when the sweep began, as it was then |
| PrivateStoreMeaning.ParkedMeans | src/private_store/controller.py:454-541 | a row is parked only if its submission was invalid for good when the pass began and its attempts were not used up; behind every block with a commit, and naming nothing of the old attempt |
| PrivateStoreMeaning.ReapedMeans | src/private_store/controller.py:376-435 | whatever the reaper deletes in a run lies under a prefix that was older than the cutoff in a listing and that no registration needed after it |
| PrivateStoreMeaning.VictimsAre | src/private_store/controller.py:381-418 | a prefix is planned for reaping if and only if it is older than the cutoff and no registration that is not failed, parked or decided names it or falls back to it |
| PrivateStoreCode.Gateway.CreateParentToken | src/private_store/cloudflare.py:68-98 | afterwards the new token is the only live one of its name, and others are untouched |
| PrivateStoreCode.World.ApplyActivate | src/private_store/intake.py:45-104 | a malformed signal, an unknown miner and a used hotkey change nothing, a new registration is inserted and a row that may be claimed is updated, both field by field, and the count tells whether anything changed |
| PrivateStoreCode.World.ApplyReady | src/private_store/intake.py:107-130 | a ready signal newer than the activation makes a credentialed row ready with its block and manifest; any other, or one without a row, changes nothing |
| PrivateStoreCode.World.HandleSignals | src/private_store/intake.py:30-42 | a scan applies all its signals in order, passes over rejected ones, and counts the signals that changed a row |
| PrivateStoreCode.World.CreateParentToken | src/private_store/cloudflare.py:68-98 | within the protocol: tokens of the registration are revoked one by one before one is minted, as protocol steps wherever it fails |
| PrivateStoreCode.World.Credential | src/private_store/controller.py:166-222 | failing after any effect it is a path of protocol steps; the row is untouched until the last, no token is live but the one just minted or some of those that were, and completed it leaves exactly one token, stored in the row, and a fresh envelope |
| PrivateStoreCode.World.Revoke | src/private_store/controller.py:225-237 | a path of protocol steps; the row says revoked only when the recorded token and the envelope are gone |
| PrivateStoreCode.World.Verify | src/private_store/controller.py:240-318 | a path of protocol steps; a refused manifest fails the row without a commit and with its unfinished uploads aborted, an accepted one is committed once however often this is replayed |
| PrivateStoreCode.World.CloseUploadWindow | src/private_store/controller.py:321-347 | a path of protocol steps; when the row says failed the upload has no live token, no envelope and no unfinished multipart left |
| PrivateStoreCode.World.Tick | src/private_store/controller.py:544-577 | picks one of the three and, wherever that fails, is a path of protocol steps that leaves the other rows alone |
| PrivateStoreCode.SafeWhereverItStops | src/private_store/controller.py:544-602 | after any run and whatever prefix of such a path, access is as the row says |
| PrivateStoreCode.StaleScanIsIdle | src/private_store/intake.py:30-130 | a scan of signals no newer than what the rows have seen changes nothing |
| PrivateStoreCode.ScanIsSteps | src/private_store/intake.py:30-130 | a scan is a path of the intake steps of its admitted signals, with and without a row |
| Contracts.ParseInvertsPrefix | src/private_store/contracts.py:60-81 | for every string and upload: parsing gives the upload if and only if building gives the string |
| Contracts.OneOwner | src/private_store/contracts.py:60-81 | a key starts with at most one canonical prefix |
| Contracts.PrefixFree | src/private_store/contracts.py:60-81 | no attempt's prefix starts another's |
| Contracts.StatusKeyIsNotDeletable | src/private_store/storage.py:96-108 | mailbox clean-up never accepts a status key |
| Contracts.GenerationKeyIsDeletable | src/private_store/contracts.py:125-131 | a credential key is accepted for deletion exactly up to twenty digits of generation |
| Contracts.MailboxKeysAre | src/private_store/contracts.py:115-130 | the status key and the credential key of a generation in at least twenty digits, spelled out |
| Storage.OwnerOfKey | src/private_store/storage.py:364-388 | a listed key is filed under a prefix if and only if that prefix is canonical and starts it |
| Storage.InventoryIs | src/private_store/storage.py:364-388 | an inventory in terms of keys: a prefix is in it only with the date of some key under it, and each dated key under a canonical prefix is as old or older |
| Storage.Bucket.RetainedUploads | src/private_store/storage.py:364-388 | each attempt prefix that holds dated objects, with the latest of their dates, and no other |
| Storage.Bucket.AbortMultipartUploads | src/private_store/storage.py:390-401 | refuses other prefixes; aborts exactly the uploads under this one and counts them |
| Storage.Bucket.CleanupModelPrefix | src/private_store/storage.py:403-421 | refuses other prefixes; deletes exactly what is listed under this one and counts objects and uploads; when the service fails, exactly the batches answered before are gone |
| Storage.Bucket.Reap | src/private_store/controller.py:376-435 | of the planned victims those whose clean-up runs through are gone and counted, failing ones lose at most their own objects, and everything under a protected prefix stays |
| Storage.ReapingSparesOthers | src/private_store/storage.py:403-421 | cleaning one canonical prefix leaves every object under another as it was |
| Storage.QuotaBreach | src/private_store/storage.py:171-200 | stopping at the first item past a cap reports a breach if and only if the full count is over quota |
| Storage.ProbeCoversVerification | src/private_store/storage.py:287-298 | whatever verification refuses for its size the probe during the window reports |
| Base58.DecodeEncode | src/private_store/crypto.py:19-39 | decoding inverts encoding on every byte string |
| Base58.EncodeDecode | src/private_store/crypto.py:19-39 | decoding accepts exactly the alphabet strings, and encoding inverts it on them |
| Base58.EncodedMeaning | src/private_store/crypto.py:19-26 | the encoding is the one alphabet string with the same number and the same leading zeros |
| Base58.BytesOfBitLength | src/private_store/crypto.py:29-39 | rounding the bit length up to bytes is exactly enough |
| Base58.Base58Encode | src/private_store/crypto.py:19-26 | the loop computes the encoding |
| Base58.Base58Decode | src/private_store/crypto.py:29-39 | the loop computes the decoding, or refuses at a foreign character |
| Base58.Ss58RoundTrip | src/private_store/crypto.py:42-62 | for every hash an address decodes to a key if and only if the key encodes to it |
| Base58.AddressIs | src/private_store/crypto.py:42-49 | an address stands for the network, the key and the first two bytes of the hash of `SS58PRE` and both; any other length or network is refused |
| Digest.ModelDigest | src/private_store/digests.py:12-29 | hashes the pre-image of the sorted inventory, or reports its first fault |
| Digest.PreimageIgnoresOrder | src/private_store/digests.py:12-29 | permuted inventories have the same pre-image and the same faults |
| Digest.HasDigestWhen | src/private_store/digests.py:12-29 | there is a digest if and only if the inventory is not empty, paths are distinct and hashes are 64 hex digits |
| Digest.DecodeEntries | src/private_store/digests.py:19-28 | a decoder recovers every path, size and hash from the concatenated bytes |
| Digest.PreimageIsExact | src/private_store/digests.py:12-29 | two pre-images are equal if and only if the inventories list the same paths, sizes and hashes |
| DigestMeaning.NormalizedIs | src/private_store/digests.py:21-23 | a digest is accepted if and only if it names 64 hex digits, in either case and perhaps behind `sha256:`, and then for those |
| DigestMeaning.PreimageIs | src/private_store/digests.py:17-29 | what is hashed: the files in strictly increasing order of their paths, each its path, its shortest decimal size and the 32 bytes of its hash, with a zero byte behind each of the first two |
| DigestMeaning.FaultIs | src/private_store/digests.py:12-23 | an inventory without files is empty; otherwise the fault is that of the first file, by path, size and digest, that repeats a path or names no hash |
| LsLayout.PadReachesGoal | src/repo_context_service/command_search.py:1539-1559 | tabs and blanks end exactly at the next column |
| LsLayout.NameStartsAtColumn | src/repo_context_service/command_search.py:1539-1559 | each name of a row is on its line, at the display column that is the sum of the spans before it |
| LsLayout.NamePlace | src/repo_context_service/command_search.py:1509-1559 | every name is printed in one cell of the column-major grid, where its column starts |
| LsLayout.LayoutIsRight | src/repo_context_service/command_search.py:1509-1559 | the columns and spans are those of a grid whose spans are the least its names allow; no larger number of columns has such a grid within the terminal; a row holds exactly its names and blanks, and when the columns fit every line is narrower than the terminal |
| LsLayout.SpansAreLeast | src/repo_context_service/command_search.py:1514-1524 | a span is at least three, and wide enough for each name of its column, with two more before the last column, and it is three or attained by a name |
| LsLayout.GridIsUnique | src/repo_context_service/command_search.py:1509-1536 | names and a number of columns have only one such grid |
| LsLayout.PadIsShortest | src/repo_context_service/command_search.py:1539-1559 | no shorter run of tabs and blanks reaches the next column |
| LsLayout.ColumnsText | src/repo_context_service/command_search.py:1539-1559 | the loops print the grid's lines |
| LsLayout.LsLayouts | src/repo_context_service/command_search.py:1509-1536 | the layout for each width is that for this width alone, whatever other widths are passed |
| TextLines.TextOfFileLines | src/repo_context_service/command_search.py:1290-1294 | reading a text into lines loses nothing |
| TextLines.FileLinesOfTextOf | src/repo_context_service/command_search.py:1290-1294 | lines read back as themselves if and only if an unterminated last line is not empty |
| Pipeline.ReadIsStage | src/repo_context_service/command_search.py:1207-1246 | a direct read and the matching pipe stage give the same lines and the same end flag |
| Pipeline.AwkRangeIsSedRange | src/repo_context_service/command_search.py:1386-1412 | an awk range selects what `sed -n` does if and only if it does not end before it starts, or starts past the end |
| Pipeline.SliceFromZero | src/repo_context_service/command_search.py:1221-1225 | what a pipe's range from line `00` prints |
| Pipeline.GroupsSpellOut | src/repo_context_service/command_search.py:1231-1238 | the groups of `uniq -c` spelled out are the lines |
| Pipeline.GroupsAreRuns | src/repo_context_service/command_search.py:1231-1238 | its groups are whole runs |
| Pipeline.ContextLines | src/repo_context_service/command_search.py:1268-1288 | the loop prints the wanted lines with their marks and gaps |
| PipelineMeaning.SelectionIs | src/repo_context_service/command_search.py:1211-1220 | `head`, `tail` and their counted-off forms print the lines from one position to another, and when the end stays open |
| PipelineMeaning.RangeIs | src/repo_context_service/command_search.py:1221-1225 | so does `sed -n a,bp`, which prints at least line `a` |
| PipelineMeaning.SortIs | src/repo_context_service/command_search.py:1228-1230 | `sort` prints the lines in order by number, text or in reverse, each as often as before, or once under `-u` |
| PipelineMeaning.UniqIs | src/repo_context_service/command_search.py:1231-1238 | `uniq` prints one line for each run of equal lines, under `-c` behind its length in seven places |
| PipelineMeaning.CountsAre | src/repo_context_service/command_search.py:1423-1441 | lines are the line breaks of the text, words the places where what is not blank starts or follows a blank |
| PipelineMeaning.WcIs | src/repo_context_service/command_search.py:1239-1241 | `wc` prints one row of those counts, right-justified, of the text its lines make |
| PipelineMeaning.GrepIs | src/repo_context_service/command_search.py:1254-1265 | grep's status is 0 if and only if some line matches, else 1; `-q` prints nothing and `-c` the number of matches taken; it is declined if and only if the pattern is not decided on some line |
| PipelineMeaning.GrepPrints | src/repo_context_service/command_search.py:1263-1287 | otherwise the lines printed are the matches within the limit and their context, in order, each with its name, number and mark, and `--` where lines are left out |
| PipelineMeaning.ThroughIs | src/repo_context_service/command_search.py:1188-1199 | a pipeline whose stages answer is answered if and only if, for lines in no order, each stage before the first `sort` may run on its input; then by its last stage |
| PipelineOrder.SortIsAnOrder | src/repo_context_service/command_search.py:1228-1253 | the key order of `sort` and `sort -n` is total, so sorted lines are determined by the lines |
| PipelineOrder.SortIgnoresOrder | src/repo_context_service/command_search.py:1228-1230 | permuted inputs sort alike under every combination of `-n`, `-r` and `-u` |
| PipelineOrder.WcIgnoresOrder | src/repo_context_service/command_search.py:1239-1241 | permuted inputs have the same counts |
| PipelineOrder.FilterIgnoresOrder | src/repo_context_service/command_search.py:1254-1265 | permuted inputs give permuted output and the same status, for those greps |
| PipelineOrder.ThroughIgnoresOrder | src/repo_context_service/command_search.py:1184-1199 | any two orders of the input both decline or give permuted outputs with the same end and status, identical after a `sort` or `wc` |
| PipelineOrderExact.GateIsExact | src/repo_context_service/command_search.py:1184-1265 | a grep ignores the order of its input, for every pattern and input, if and only if its options are those the property names |
| FileReads.ReadEqualsPipe | src/repo_context_service/command_search.py:1158-1181 | `head f` and `cat f \| head`, and so for every read with a stage, give the same result to the last byte |
| FileReads.NumberedReadEqualsPipe | src/repo_context_service/command_search.py:1226-1227 | `cat -n f` and `cat f \| cat -n` give the same result |
| FileReads.PipedWcCountsTheFile | src/repo_context_service/command_search.py:1239-1241 | `wc` in a pipe counts the text of the files |
| FileReads.Run.CountFiles | src/repo_context_service/command_search.py:1412-1421 | `wc` of files: a row for each and, for several operands, one for the texts joined, as wide as the total size |
| FileReads.WcOfFileIsPiped | src/repo_context_service/command_search.py:1412-1431 | for one count, `wc f` is the row of `cat f \| wc` and the name |
| FileReads.TotalIsSum | src/repo_context_service/command_search.py:1419-1420 | the row `total` is the sum of the rows above; for words if and only if no file starts inside a word of those before |
| FileReads.Run.Emit | src/repo_context_service/command_search.py:1375-1383 | appends the lines any read selects, numbered on from what was printed |
| FileReads.Run.Cat | src/repo_context_service/command_search.py:1314-1372 | answered exactly when every operand is known, no message follows an unterminated line and no stretch is too long; then shows texts and messages in operand order, and numbers lines as one text |
| FileReads.RawOfRun | src/repo_context_service/command_search.py:123-126 | the raw result is exactly the text the run wrote, messages kept or dropped |
| FilesMeaning.PipedIs | src/repo_context_service/command_search.py:1158-1181 | with a pipe the terminal shows the messages and then what the last stage prints, each unless thrown away, and the status is that stage's |
| FilesMeaning.ReportIs | src/repo_context_service/command_search.py:1412-1421 | `wc` of files: a row and the name for each, a row `total` from two operands on, as wide as the sum of the bytes in decimal unless one count of one operand stands alone |
| FilesMeaning.AnsweredIs | src/repo_context_service/command_search.py:1314-1372 | `cat` is answered if and only if no operand is unknown, no stretch of texts is longer than 8388608 characters, and no message follows a stretch that ends inside a line |
| BreTranslate.TranslateWith | src/repo_context_service/command_search.py:199-250 | the loop over the pattern, brackets and both dialects included, computes the translation of every piece in turn, or gives up at a class that is not known |
| BracketMeaning.ClassIsSpelled | src/repo_context_service/command_search.py:163-176 | the named classes are those of POSIX, and each is written as exactly its members |
| BracketMeaning.BracketKeepsMeaning | src/repo_context_service/command_search.py:203-218 | a bracket expression becomes a text that Python reads with the same members and the same negation, whatever follows, and the translation is behind it unless it ends with `[` or `[^` before the closing bracket |
| TranslationMeaning.ReadsAlikeFrom | src/repo_context_service/command_search.py:182-250 | the theorem below at any token boundary, behind a bracket expression whose end was missed too |
| TranslationMeaning.TranslationKeepsMeaning | src/repo_context_service/command_search.py:182-250 | a well-formed basic or extended expression is translated, and Python's tokens of the result are POSIX's tokens of the expression, if and only if nothing in it is misread |
| TranslationMeaning.ReferenceBeforeDigitIsMisread | src/repo_context_service/command_search.py:223-234 | `\(a\)\10` means something else after translation |
| TranslationMeaning.CaretAfterFalseStartIsMisread | src/repo_context_service/command_search.py:235-240 | so does an escaped backslash, a literal parenthesis and a literal caret |
| TranslationMeaning.LeadingStarIsMisread | src/repo_context_service/command_search.py:247-248 | so does `*a`, whose star is a literal |
| TranslationMeaning.MissedBracketEndIsMisread | src/repo_context_service/command_search.py:212-216 | so does `[[]+`, whose plus is a literal |
| TranslationMeaning.MissedBracketEndMisleadsExtended | src/repo_context_service/command_search.py:212-216 | so does the extended expression `[[]\+` |
| ScriptWrites.Walker.Statement | src/repo_context_service/script_writes.py:106-134 | assignments, `with` and loops over displays change the names and the record as the functions say, nested bodies included |
| ScriptWrites.Walker.AllCalls | src/repo_context_service/script_writes.py:167-171 | visits the nodes breadth first |
| ScriptWrites.Walker.Record | src/repo_context_service/script_writes.py:231-236 | records normalised paths, or gives up, and leaves temporary ones out |
| ScriptValues.GlueNames | src/repo_context_service/script_writes.py:292-301 | putting two texts together that are exactly those of the run gives the text of the run if and only if nothing temporary is appended to something |
| ScriptValues.GluePlace | src/repo_context_service/script_writes.py:292-301 | what is joined to a path that names the same place names the same place |
| ScriptValues.CallNames | src/repo_context_service/script_writes.py:279-284 | a path call keeps a text exact if and only if it returns that text |
| ScriptValues.CallKnown | src/repo_context_service/script_writes.py:279-284 | a path call that returns another path of the same place leaves it known as a place |
| ScriptValues.NameNames | src/repo_context_service/script_writes.py:286-288 | `.name` of a followed value is right if and only if that is a temporary file or directory object |
| ScriptValues.BelowIsTemporary | src/repo_context_service/script_writes.py:231-236 | in every run what follows a temporary directory stays in it if and only if it is nothing, or starts with a slash and has no `..` |
| ScriptWritesSound.ValueIsKnown | src/repo_context_service/script_writes.py:256-289 | a followed value is the text of the run, or names the same place, or is a temporary object, as its grade says, whatever the path calls return in the run |
| ScriptWritesSound.WalkVisitsTree | src/repo_context_service/script_writes.py:167-171 | the walk finds the calls of the whole expression tree |
| ScriptWritesSound.StatementMatches | src/repo_context_service/script_writes.py:106-134 | a statement keeps the names known and records exactly the files it opens for writing, loops that are not unrolled included |
| ScriptWritesSound.AnalysisIsSound | src/repo_context_service/script_writes.py:88-136 | unless untraceable, every file a program opens for writing outside temporary directories is recorded as surely written, under a path that names it, and nothing else when modes are literals |
| ScriptWritesSound.ModesAgree | src/repo_context_service/script_writes.py:28-28 | on every mode `open` takes, the analysis's letters are there if and only if the file is opened for writing |
| ScriptMeaning.GivesUpWhen | src/repo_context_service/script_writes.py:167-242 | the analysis of an expression gives up if and only if some part of it opens a path that is not followed with a mode that may write |
| ScriptMeaning.ValueIs | src/repo_context_service/script_writes.py:256-301 | exactly which expressions are followed and to which text: literals, names, texts glued or joined as `posixpath.join` does, and what is given to calls taken to return it |
| ScriptMeaning.CallsAreMarked | src/repo_context_service/script_writes.py:167-171 | the calls of an expression count as sure if and only if its statement is and it is no conditional |
| ScriptMeaning.BelowIs | src/repo_context_service/script_writes.py:231-236 | what follows a directory's name stays below it if and only if it starts with a slash and no component is `..` |
| ScriptMeaning.LastComponentIs | src/repo_context_service/script_writes.py:286-288 | the last component: what stands between the last slash that something follows and the slashes at the end |
| ScriptWritesLimits.OpenIsRightWhen | src/repo_context_service/script_writes.py:231-289 | for every followed path: a program that opens it is analysed right if and only if the file opened is the one the recorded path names and not temporary, or temporary when nothing is recorded |
| ScriptWritesLimits.CalledPathIsRightWhen | src/repo_context_service/script_writes.py:279-284 | for every call and text: right if and only if the call returns a path of the same file |
| ScriptWritesLimits.HomeMisleads | src/repo_context_service/script_writes.py:77-80 | `~/n` is recorded for a file of the home directory |
| ScriptWritesLimits.AddedToCallIsRightWhen | src/repo_context_service/script_writes.py:270-280 | text added to what a path call returns: the exact condition |
| ScriptWritesLimits.DroppedSlashMisleads | src/repo_context_service/script_writes.py:270-280 | `out/x` is recorded for `outx` |
| ScriptWritesLimits.JoinedAbsoluteIsRightWhen | src/repo_context_service/script_writes.py:279-282 | an absolute path joined to another: the exact condition |
| ScriptWritesLimits.NameOfPathIsRightWhen | src/repo_context_service/script_writes.py:286-288 | `.name` of a path in a temporary directory: nothing is recorded, and a file named by the last component is written unless it is temporary |
| ScriptWritesLimits.BehindTemporaryIsRightWhen | src/repo_context_service/script_writes.py:231-236 | text behind a temporary directory: nothing is recorded, right if and only if it leads to a temporary file |
| ScriptWritesLimits.KeywordIsRightWhen | src/repo_context_service/script_writes.py:177-180 | an `open` whose path is a keyword is passed over |
| ScriptWritesLimits.LoopsMustBeUnrolled | src/repo_context_service/script_writes.py:131-141 | a loop program is analysed right if and only if its display has one to 32 items |
| ScriptWritesLimits.AppendedTemporaryMisleads | src/repo_context_service/script_writes.py:274-282 | a joined temporary directory is recorded as a file of the checkout |
| ScriptWritesLimits.NestedConditionalMisleads | src/repo_context_service/script_writes.py:167-171 | both branches of a conditional inside a call count as surely written |
| ChunkStore.Store.AppendRows | scripts/dataset_creator/store.py:51-55 | a run's rows replace its earlier rows, other runs' stay |
| ChunkStore.OthersAre | scripts/dataset_creator/store.py:51-55 | of the pending rows exactly those of other runs are kept, in their order |
| ChunkStore.AppendIsIdempotent | scripts/dataset_creator/store.py:51-55 | extracting a run twice is extracting it once |
| ChunkStore.SavedHeadDiffers | scripts/dataset_creator/store.py:78-92 | with differing windows a saved chunk is not taken for a written one |
| ChunkStore.EqualWindowsLoseRows | scripts/dataset_creator/store.py:78-119 | whenever two adjacent windows have equal ids, an execution from the empty store that stops once and then finishes holds a window fewer |
| ChunkStore.Store.ReconcileOrphans | scripts/dataset_creator/store.py:78-92 | for all rows, stopped anywhere or not: they are conserved, but for the next window exactly when a saved chunk is mistaken for a written one; a full pass leaves no unrecorded file |
| ChunkStore.Store.CutChunks | scripts/dataset_creator/store.py:105-119 | from any crash state and for all rows: nothing is added, with differing windows nothing is lost, every file has a full chunk, and a finished pass leaves less than one pending; says exactly when an orphan stays unrecorded |
| ChunkStore.Store.CutFull | scripts/dataset_creator/store.py:111-116 | finishes exactly when three effects for each full chunk are allowed, and otherwise stops in the state its last effect leaves |
| ChunkStore.Store.RunDespiteCrashes | scripts/dataset_creator/store.py:78-119 | after any number of crashes and a finished run, the files in order and the pending rows are the original rows if adjacent windows differ, and never more than those |
| Stitch.StitchParts | src/albedo_eval_service/repo_context_client.py:30-54 | the loop, with its text, its status and its giving up |
| Stitch.TextIs | src/albedo_eval_service/repo_context_client.py:46-54 | the text is what the parts that ran print, one after the other: a derived output, or the body of an answer and a newline |
| Stitch.OnePartMore | src/albedo_eval_service/repo_context_client.py:38-45 | evaluating AND-OR lists one after the other follows the part-by-part rule |
| Stitch.StitchingIsRight | src/albedo_eval_service/repo_context_client.py:30-54 | an answer is withheld if and only if two completions of the unknown statuses disagree on whether a part runs; otherwise every completion runs the stitched parts and ends with a known status |
| LeakIndex.Index.constructor | scripts/benchmark_leaks.py:245-266 | the lists hold each task once under each kept shingle, and its size |
| LeakIndex.Index.MatchText | scripts/benchmark_leaks.py:281-297 | reports a task with a count if and only if comparing the text with every task in turn would |
| LeakIndex.CountGroups | scripts/benchmark_leaks.py:251-259 | the groups that share each shingle |
| LeakIndex.PassesInWholes | scripts/benchmark_leaks.py:292-293 | the threshold without fractions |
| LeakIndex.ReportedIs | scripts/benchmark_leaks.py:245-297 | a report is that of a task whose rare shingles, those no three groups share, are in the text at least eight, at least half, and twenty or four in five |
| LoopCollapse.LoopingOutput | src/albedo_eval_service/judge_api.py:1619-1631 | looping if and only if a line of the text is the 25th of a run or its tail has a period |
| LoopCollapse.CollapseLines | src/albedo_eval_service/judge_api.py:1645-1661 | the 25th line of a run becomes the marker and later ones nothing, every other line stays |
| LoopCollapse.CollapseLeavesRunWhen | src/albedo_eval_service/judge_api.py:1645-1661 | a run of 25 is left if and only if the input has 25 markers in a row, or 24 behind a run of 25 |
| LoopCollapse.NothingToCollapse | src/albedo_eval_service/judge_api.py:1645-1661 | output without such a run is left as it is |
| LoopCollapse.MarkerLinesCanLoop | src/albedo_eval_service/judge_api.py:1645-1661 | 25 equal lines and 24 markers leave 25 markers in a row |
| LoopCollapse.TailPeriodIsSmallest | src/albedo_eval_service/judge_api.py:1634-1641 | the smallest period of up to 128 of the last 512 characters, or none |
| LoopCollapse.CycleStart | src/albedo_eval_service/judge_api.py:1662-1667 | the periodic stretch found is maximal, and two periods of it extend to the whole text |
| LoopCollapse.CollapseTail | src/albedo_eval_service/judge_api.py:1661-1670 | a looping tail is cut to two periods and the marker, dropping at least 256 characters; other text is untouched |
| LoopCollapse.CollapseLooping | src/albedo_eval_service/judge_api.py:1644-1671 | both phases one after the other; a text that is not looping is returned as it is, but for its last newline |
| LoopMeaning.LinesLoopIs | src/albedo_eval_service/judge_api.py:1619-1630 | output loops by lines if and only if 25 lines are alike with only blank lines between |
| LoopMeaning.CollapsedAre | src/albedo_eval_service/judge_api.py:1645-1660 | exactly the blank lines and those up to the 25th of a run are shown, in order, the 25th as the marker |
| LoopMeaning.PeriodIs | src/albedo_eval_service/judge_api.py:1634-1641 | the period found is the smallest with which the last 512 characters repeat at least four times, or 0 if there is none |
| LoopMeaning.CutIs | src/albedo_eval_service/judge_api.py:1662-1668 | a looping tail is cut behind two periods of the stretch that repeats to the end and could not start earlier, without blanks at the end, and the marker follows |
| LoopMeaning.SplitIs | src/albedo_eval_service/judge_api.py:1622-1622 | `splitlines`: the lines and their breaks make the text, no line has a break in it, and no break is half of another |
| LeaseQueue.Queue.ClaimNext | src/model_validation/db.py:100-178 | claims a submission that is submitted or retryable and the first of those due, or none only when there is none; it runs then, with one attempt more, numbered one above those before, and nothing else changed |
| LeaseQueue.Queue.MarkDone | src/model_validation/db.py:194-235 | only this attempt and submission change; a sound submission stays sound and nobody gains a strike |
| LeaseQueue.Queue.MarkFailed | src/model_validation/db.py:238-284 | only this attempt and submission change; soundness is kept, and the hotkey gains a strike exactly for a counted fault of the miner |
| LeaseQueue.Queue.MarkRetry | src/model_validation/db.py:287-341 | claimable again exactly below the attempt limit; only this attempt and submission change, soundness is kept and nobody gains a strike |
| LeaseQueue.Queue.SweepExpired | src/model_validation/db.py:344-384 | an attempt is abandoned if and only if it was running in a running submission and its lease ended before; its submission becomes retryable and counts the attempts abandoned; nothing else changes, and no such lease is left |
| LeaseQueue.SoundCounts | src/model_validation/db.py:100-384 | one attempt is running if and only if the submission is, and fewer than the limit ended retryable |
| LeaseQueue.SoundSweepsOne | src/model_validation/db.py:344-384 | of a sound submission the sweep abandons at most one attempt, the last |
| ValidateWorker.StepKeeps | src/model_validation/validate_worker.py:288-440 | every step of the worker and of other services keeps every submission sound |
| ValidateWorker.AttemptsAreSound | src/model_validation/validate_worker.py:288-440 | in every run attempts are numbered 1 to k with those counts |
| ValidateWorker.WorkerStrikes | src/model_validation/db.py:466-488 | a worker step adds a strike only for a miner's fault found past the gates, one, and a refusal adds none |
| ValidateWorker.StrikesStayInBudget | src/model_validation/validate_worker.py:356-372 | in every state of every run a hotkey has no more strikes than the limit and those added elsewhere, and fewer while the worker is past its gate |
| ValidateWorker.OverBudgetWhen | src/model_validation/validate_worker.py:221-372 | a worker step of a run passes the limit if and only if it adds a strike and, since its gate, as many came from elsewhere as the gate had left |
| ValidateWorker.SeenAndOutside | src/model_validation/validate_worker.py:356-372 | past the gate the count is what the gate saw and what was added elsewhere since |
| ValidateWorker.StrikeBetweenGateAndFault | src/model_validation/validate_worker.py:356-372 | a run in which a hotkey ends past the limit |
| ValidateWorker.Worker.Iterate | src/model_validation/validate_worker.py:300-440 | one turn of the loop is a path of those steps, refusing at the first gate in the loop's order |
| QueueMeaning.SettledIs | src/model_validation/validate_worker.py:221-440 | what becomes of a claimed submission, field by field: refused, a duplicate, or ended as its validation came out, and tried again below the limit |
| QueueMeaning.OthersMay | src/model_validation/db.py:100-488 | exactly what other services may do to a submission |
| Scoring.RoundIsNearest | src/albedo_eval_service/judge_core.py:151-155 | rounding takes a nearest millionth, and the even one of two |
| Scoring.RateIsRight | src/albedo_eval_service/judge_core.py:145-155 | a judge's rate of unit scores is in the unit interval and does not fall when a score rises, weighted or not |
| Scoring.TaggedRateIsRight | src/albedo_eval_service/judge_core.py:34-155 | the same with the weights that the tags of the questions give |
| Scoring.MeanOfRepeats | src/albedo_eval_service/judge_core.py:169-176 | the means of a judge's judgings, question by question |
| Scoring.SideRaises | src/albedo_eval_service/judge_core.py:179-188 | raising any score of any judging never lowers a side's score |
| Scoring.AggregateInUnit | src/albedo_eval_service/judge_core.py:195-251 | unit scores aggregate to unit scores |
| Scoring.WinIsNeverLost | src/albedo_eval_service/judge_core.py:191-251 | raising any challenger score never lowers its aggregate, leaves the king's and the validity of the duel, and never turns a win into a loss |
| ScoringMeaning.MeanIs | src/albedo_eval_service/judge_core.py:154-155 | the mean of the scores that are not missing, to six places, and missing if all are |
| ScoringMeaning.RateIs | src/albedo_eval_service/judge_core.py:145-155 | the weighted mean of the answered questions, or the plain one when they have no weight |
| ScoringMeaning.SideIs | src/albedo_eval_service/judge_core.py:169-188 | a side's score: judgings averaged by question, rated by judge, averaged, and halved if its thinking was cut off |
| ScoringMeaning.AggregateIs | src/albedo_eval_service/judge_core.py:191-251 | a duel is scored if and only if enough of the samples asked for are valid, by the means over the valid samples, and won by a fortieth or more |

## Left out

- Several access controllers at once, and validation workers that finalise after their lease was swept: the code
  claims nothing there.
- The stale-lease sweep may abandon any number of attempts; nothing bounds them, and no bound is stated.
- Collisions of payload, blake2b or SHA-256 hashes; payload hashes are taken to be distinct for distinct payloads, and
  the others are parameters.
- Submissions change their final state once; what evaluation does in between is one step of the environment.
- PrivateStoreCode: a method runs without others in between, who are steps of the protocol's runs; the status file a
  miner polls, logging and retries of HTTP calls.
- PrivateStoreCode.World.CreateParentToken: the listing of live tokens is taken to be complete; the code reads one
  page of it.
- Storage.Bucket.CleanupModelPrefix: every key of an answered batch is taken to be deleted; the code passes over
  errors reported for single keys.
- Storage.Bucket.AbortMultipartUploads: aborts all or none; a service that fails in the middle of aborting is not
  modelled.
- Storage: paging of S3 listings is a loop over the keys of the bucket, except in `QuotaBreach`; reading and hashing
  of the files in `verify_manifest` is a parameter.
- Digest: UTF-8 is any injective encoding without zero bytes; the inventory sizes are natural numbers.
- LsLayout: names with tabs, whose width the code miscounts; quoting of names.
- Pipeline: regular-expression matching, numbers of `sort -n`, bytes of a character and blanks are parameters; a
  pattern that does not compile is refused before.
- FileReads: headers of `head` and `tail` over several files, messages of reads other than `cat` and `nl`, and
  messages piped with the output.
- TranslationMeaning.TranslationKeepsMeaning: covers patterns without buffer anchors, `\0`, a repetition of nothing
  (but for a basic `*`) or of a repetition, braces that are no interval, collating symbols, equivalence classes and
  ranges that end with a class; classes are those of the POSIX locale.
- The shell parser, the session overlay, glob and brace expansion, path resolution and the directory walk.
- ScriptWrites.Walker.Statement: covers assignments to names, augmented assignments, `with`, and loops over displays
  without `else`; not functions, classes, `if`, `try` and tuple targets.
- ScriptWrites: of the file-changing calls only `open`; removed, copied and moved files, methods of paths such as
  `write_text`, and subprocesses are not followed here.
- ScriptWritesSound.AnalysisIsSound: asks of a program what `ScriptWritesSound.Follow` says; the conditions on single
  values, calls and files are exact, that on a whole program is not, as two mistakes may cancel out. What is below a
  temporary directory is taken to be temporary, so without links leading out of it, and programs are taken to run to
  their end.
- ChunkStore: the order of file system effects within one write, and several models, which do not share files.
- Stitch: an answer depends only on its part; the session it may read is not modelled.
- LeakIndex: normalisation and shingling of text are a parameter; matches by id, pull request and repository, and the
  order of the reported tasks.
- LoopCollapse: stripping of blanks is a parameter.
- LoopCollapse.CollapseLooping: does not say whether the result itself still counts as looping.
- FileReads.WcOfFileIsPiped: several counts are padded to different widths in the pipe and in the row of a file.
- LeaseQueue: events, artifacts and fault messages; order by block, priority and age is one number.
- Scoring: exact reals with the decimal rounding of the code instead of floating point; parsing of judge answers,
  verdict letters and the per-judge breakdown.
- Rendering of trajectories and numbering of crowned kings.
