# Verification of rpotato's protocols and algorithms

Dafny models of the parts of rpotato that carry real obligations: durable state shared by
processes that may stop at any point, and algorithms over bytes and text. Each module names the
files it models; the table below names, for each result, the lines it is about.

- `TeamState`, `TeamProtocol`, `TeamInvariant`, `TeamSafety`, `TeamStore`: the team state machine.
  Planners, executors, cancellers and reconcilers are programs that interleave at every durable
  step. The step `Stop` stands for a crash, a kill and every error return alike: each releases the
  kernel locks and leaves the files. `TeamStore` runs the same operations as methods of a class.
  `TeamProgress` follows one process that runs alone, from whatever state the others have left.
- `Bytes`, `Sha1`, `Base64`, `Utf8`, `WebSocket`: the browser's WebSocket client over a socket that
  delivers its bytes in arbitrary pieces, with the SHA-1 and base64 of its handshake.
- `Markup`: the markup scanner with hidden scopes, modes and CDATA. `MarkupTags`: what it makes of
  documents, written out.
- `Evidence`: recording one verification receipt across four stores, under crashes and retries.
- `SelfUpdate`, `UpdateProtocol`: the update script under failing or interrupted file operations,
  and its interleaving with install and update commands.
- `Lease`: the lease built from three kernel locks, one system call at a time.
- `Tokens`, `RecentTail`, `Compaction`, `Resume`: conversation memory.
- `Ranking`, `SourceUrl`: search results. `Profile`: the managed block in a shell profile.

`dafny verify dfyconfig.toml` checks all of it.

How the models read the code:

- SHA-256 is an ideal term in the team model (equal digests have equal payloads); in `Evidence`,
  `SelfUpdate`, `UpdateProtocol` and `Compaction` it is an arbitrary function or value, so nothing
  there depends on collisions. The body of a reconciliation artifact stands for its own hash, and
  the derived `status` field of a team record is not kept beside its stage.
- File writes that the code makes atomic are atomic steps; a lock is the kernel's try-lock.
- A parameter named `reliable`, `steady` or `faultless` switches faults off. Results under
  it say what happens when nothing fails; all others hold under every fault.
- Random bytes, clocks, hashes of new artifacts and the arrival of records are parameters or
  arbitrary values.
- Integers are unbounded except where the width matters: bytes and SHA-1 words are bit-vectors, the
  SHA-1 length wraps at 64 bits. The shifts of the base64 encoder are written as division and
  remainder.

What the code does that its outline would not suggest, stated as results:

- A snapshot left behind by a crash lets only the identical record through
  (`TeamState.OrphanAdmitsOnlyItself`), so a retry with a new timestamp is refused, an interrupted
  reconciliation cannot always be finished (`TeamStore.Store.ReconcileReport`), and a cancel can leave
  its marker and never reach Cancelled (`TeamSafety.CancelBehindOrphanIsStuck`).
- Of the 64 revisions a team may have it never uses more than eight
  (`TeamState.RoomForMore`, `TeamSafety.StageOfRevision`).
- Text before an unterminated construct is emitted twice (`Markup.TextRepeats`), so a hidden scope
  can be erased exactly under the condition of `Markup.ScopeErasedExactly`.
- A chain of compactions can be walked for 64 artifacts; the 65th commit succeeds and makes every
  later strict load fail (`Compaction.Session.LoadCurrentArtifact`, `Resume.RebuildSessionContext`).
- A command killed between reserving the update marker and starting its script, or a script that is
  killed, blocks every later change of the binary (`UpdateProtocol.OrphanedMarkerFreezesBinary`).
- The lease excludes as long as the guard or the lock file stays where the holders last found it, and
  no longer (`Lease.MutualExclusion`, `Lease.TwoHoldersWhenBothMoved`).
- Only one "www." is removed from a host (`SourceUrl.NormalizeWwwIdempotentExactly`).
- Removing a managed block does not take the separating empty line with it
  (`Profile.RemoveUndoesRender`).

## Model

| member | source | states |
|---|---|---|
| TeamState.HashDeterminesHistory | src/app/collaboration_adapter/team_state/persistence.rs:150-179 | two verified records with one artifact hash have the same snapshots at every earlier revision |
| TeamState.RecordExactly | src/runtime_core/collaboration/team_state/state_codec.rs:121-168 | a record is valid exactly with a revision from 1 to 64, the bindings of a sound team, lanes and mode as its stage asks for, a time not before its creation and its own hash; names and hashes are over spelled-out alphabets |
| TeamState.CreateExactly | src/app/collaboration_adapter/team_state.rs:150-178 | a team can be created exactly on an empty store from a sound binding, and starts as revision 1, Plan, no lanes, no mode |
| TeamState.TransitionExactly | src/runtime_core/collaboration/team_state.rs:100-172 | a change is made exactly to the next stage on the way from Plan to Complete, or from an unfinished one to Failed or Cancelled; with one to all requested lanes and a decided mode for a dispatch, and with neither otherwise |
| TeamState.PreparedExtends | src/app/collaboration_adapter/team_state.rs:154-198 | a checkpoint that was prepared is the successor of the record on disk: next revision, its hash, a permitted stage, the same bindings |
| TeamState.SnapshotKeepsChain | src/app/collaboration_adapter/team_state/persistence.rs:135-148 | installing a snapshot keeps the verified chain and every snapshot that was there |
| TeamState.ReplaceKeepsChain | src/app/collaboration_adapter/team_state.rs:198-213 | moving the current pointer to the installed snapshot keeps snapshots 1..current a verified chain |
| TeamState.OrphanAdmitsOnlyItself | src/app/collaboration_adapter/team_state/persistence.rs:135-148 | a snapshot left at current + 1 by a crash lets a later checkpoint through exactly if it renders that same record |
| TeamState.RoomForMore | src/runtime_core/collaboration/team_state.rs:100-112 | a team that has not ended is at revision 7 or below, so the limit of 64 revisions never stops it |
| TeamInvariant.InitInv | src/app/collaboration_adapter/team_state.rs:68-134 | the empty store satisfies the invariant |
| TeamInvariant.BeginKeeps | src/app/collaboration_adapter/team_execution.rs:46-199 | every instruction that a ready process starts keeps the invariant |
| TeamInvariant.CheckpointKeeps | src/app/collaboration_adapter/team_state.rs:154-258 | every step inside a checkpoint or an advance keeps the invariant |
| TeamInvariant.StopKeeps | src/app/collaboration_adapter/team_execution.rs:176-199 | a crash, kill or error return at any step keeps the invariant |
| TeamInvariant.StepKeepsInv | src/app/collaboration_adapter/team_reconciliation.rs:20-157 | every step of every process keeps the invariant |
| TeamSafety.RunInv | src/app/collaboration_adapter/team_execution.rs:46-199 | the invariant holds in every state of every run |
| TeamSafety.StepEffect | src/app/collaboration_adapter/team_state.rs:154-213 | one step changes the durable record only by installing its permitted successor; it never rewrites a snapshot or a cancel marker |
| TeamSafety.SnapshotsAreImmutable | src/app/collaboration_adapter/team_state/persistence.rs:135-148 | over any part of any run no snapshot is changed or removed and the revision never goes back |
| TeamSafety.DurableHistoryIsAPath | src/app/collaboration_adapter/team_state.rs:162-228 | in every reachable state snapshots 1..current verify, carry one binding, link by hash, and their stages are a path of the stage graph from Plan; loading never refuses |
| TeamSafety.StageOfRevision | src/app/collaboration_adapter/team_state.rs:162-228 | in every reachable state snapshot r holds the r-th stage of the path from Plan to Complete, except that the last one may be Failed or Cancelled, and there are at most eight |
| TeamSafety.RecordsAreSound | src/runtime_core/collaboration/team_state/state_codec.rs:121-168 | at every instant each snapshot on disk, also an orphan, carries its own revision, sound bindings, and the lanes, mode and time its stage asks for |
| TeamSafety.DispatchRecordsAdmission | src/app/collaboration_adapter/team_execution.rs:76-103 | in every run, whoever interferes: a dispatch is installed by an executor, and its record shows the lanes and the mode that executor was admitted with |
| TeamSafety.TerminalIsFinal | src/app/collaboration_adapter/team_execution.rs:103-186 | Complete, Failed and Cancelled are never overwritten, also not by the worker-failure path that runs after the operation lock is dropped |
| TeamSafety.WritersOfOneRevisionNeverBothSucceed | src/app/collaboration_adapter/team_state.rs:154-178 | two pointer moves of a run never install the same revision |
| TeamSafety.MarkerBlocksProgress | src/app/collaboration_adapter/team_state.rs:294-316 | while the cancel marker is on disk the only records anyone can install are Failed and Cancelled |
| TeamSafety.CancellationHolds | src/app/collaboration_adapter/team_reconciliation.rs:21-41 | after the cancel marker no interleaving, crash or restart changes the stage except to Failed or Cancelled |
| TeamSafety.OrphanIsNext | src/app/collaboration_adapter/team_state/persistence.rs:135-148 | in every continuation of a run the record installed at the revision of an orphaned snapshot, if there ever is one, is that snapshot |
| TeamSafety.CancelBehindOrphanIsStuck | src/app/collaboration_adapter/team_state.rs:260-292 | a cancel marker beside an orphan of a stage other than Failed and Cancelled freezes the current record in every continuation: the team never reaches Cancelled |
| TeamSafety.StageImpliesEvidence | src/app/collaboration_adapter/team_reconciliation.rs:43-138 | Review or later has the reconciled receipt, Merge or later the merged one, Report or later the stop gate, Complete the report; from Merge on the parent was merged exactly once |
| TeamSafety.ReceiptsAreWrittenOnce | src/app/collaboration_adapter/team_reconciliation/events.rs:7-41 | each receipt is on the ledger at most once, all for one artifact, each after its predecessors |
| TeamSafety.AnnouncedStagesAreDurable | src/app/collaboration_adapter/team_state/events.rs:31-73 | a stage event is on the ledger only for a stage whose snapshot is on disk |
| TeamSafety.LocksExclude | src/app/collaboration_adapter/team_execution.rs:51-103 | at most one process is in the operation section and at most one in a checkpoint |
| TeamStore.Store.VerifySnapshotChain | src/app/collaboration_adapter/team_state/persistence.rs:150-179 | the verification loop decides exactly the chain predicate |
| TeamStore.Store.LoadState | src/app/collaboration_adapter/team_state.rs:215-228 | loading succeeds exactly if the record and its chain verify, and returns the current record |
| TeamStore.Store.CheckpointState | src/app/collaboration_adapter/team_state.rs:154-213 | done means the prepared successor is snapshot and current; refused means the current record is untouched and at most the successor was left as an orphan; without faults it is done exactly if the checks pass and the snapshot path is free or already right |
| TeamStore.Store.AdvanceState | src/app/collaboration_adapter/team_state.rs:230-258 | done means the target stage is durable and announced; a dispatch records exactly the lanes and the mode of the admission, every other change keeps them, and a change carries the time of the call; every other outcome leaves the current record or the one successor; without faults it is done exactly if the transition is permitted and the successor installable |
| TeamStore.AdvanceExactly | src/app/collaboration_adapter/team_state.rs:230-258 | a stage change other than a dispatch goes through exactly with a clock not before the creation time and a next snapshot path that is free or holds that very record |
| TeamStore.DispatchExactly | src/runtime_core/collaboration/team_state.rs:153-172 | a dispatch goes through exactly with one to all requested lanes, a mode that is parallel or sequential, a clock not before the creation time and a next snapshot path that is free or holds a dispatch with this time, these lanes and this mode |
| TeamStore.Store.AppendOnce | src/app/collaboration_adapter/team_reconciliation/events.rs:7-25 | the receipt is on the ledger afterwards and was added only if it was missing |
| TeamStore.Store.MergeParent | src/app/collaboration_adapter/team_reconciliation/evidence.rs:37-79 | the parent carries this evidence afterwards, and was changed at most once; it is taken exactly from a planned parent or one merged with this evidence |
| TeamStore.Store.ReconcileReport | src/app/collaboration_adapter/team_reconciliation.rs:20-157 | done means Complete with all four receipts and one merge; a cancel marker means refused with nothing changed. Without faults it is done exactly if there is no marker, the artifact is absent or this one, the parent is planned or merged with this one, and the team is Complete, or between Execute and Report with a clock not before its creation and a next snapshot path that is free or holds the very record this call would write |
| TeamStore.Store.ReviewResults | src/app/collaboration_adapter/team_reconciliation.rs:43-74 | done means at least Verify with the receipts of that stage; without faults a refusal means that the files do not let the team finish |
| TeamStore.Store.MergeEvidence | src/app/collaboration_adapter/team_reconciliation.rs:75-98 | done means at least Merge with its receipts and one merge; without faults a refusal means that the files do not let the team finish or the parent is foreign |
| TeamStore.Store.PassStopGate | src/app/collaboration_adapter/team_reconciliation.rs:99-138 | done means Complete with all receipts; without faults it is done exactly if the files let the team finish |
| TeamStore.Store.CancelReport | src/app/collaboration_adapter/team_state.rs:260-292 | done means Cancelled with a marker that names its team, manifest and parent; a completed or failed team is refused with nothing changed. Without faults the marker is left on every team that has not ended, and it is done exactly if the team is Cancelled already, or has not ended and has a sane clock and a next snapshot path that is free or holds the very record |
| TeamProgress.LonePlannerPlans | src/app/collaboration_adapter/team_state.rs:68-134 | a planner that runs alone on an empty store creates the team of its binding and announces it, and the team loads |
| TeamProgress.LonePlannerResumes | src/app/collaboration_adapter/team_state.rs:68-134 | a planner that runs alone on a planned team changes nothing but announces it, if nobody has, and ends |
| TeamProgress.LoneExecutorExecutes | src/app/collaboration_adapter/team_execution.rs:46-199 | an executor that runs alone on a team it may start, with workers that succeed, brings it to Execute, with the lanes and the mode of its admission, and lets the operation lock go |
| TeamProgress.InterruptedExecutorFails | src/app/collaboration_adapter/team_execution.rs:103-186 | an executor that finds an interrupted run it cannot recover brings the team to Failed and announces it |
| TeamProgress.FailedWorkersFail | src/app/collaboration_adapter/team_execution.rs:176-199 | an executor whose workers failed brings the team to Failed, after the operation lock was given back, and announces it |
| TeamProgress.LoneReconcilerCompletes | src/app/collaboration_adapter/team_reconciliation.rs:20-157 | from every state that satisfies the invariant, whatever was interrupted and how often: a reconciler that runs alone on a reconcilable team completes it, with the artifact installed, every receipt written and the parent merged once |
| TeamProgress.LoneCancellerCancels | src/app/collaboration_adapter/team_state.rs:260-292 | a canceller that runs alone on a cancellable team leaves its marker, cancels the team and announces it |
| Sha1.ZeroBitsAreLeast | src/adapters/browser/websocket.rs:308-315 | the number of zero bytes is the least that completes the length to 56 modulo 64 (section 5.1.1 of FIPS 180-4) |
| Sha1.PadFillsBlocks | src/adapters/browser/websocket.rs:308-315 | padding ends on a block boundary and keeps the message in front |
| Sha1.LengthInBits | src/adapters/browser/websocket.rs:309-315 | the last eight bytes are the length in bits modulo 2^64, most significant byte first |
| Sha1.PadInjective | src/adapters/browser/websocket.rs:308-315 | no two messages shorter than 2^61 bytes have the same padding |
| Sha1.OrChoose | src/adapters/browser/websocket.rs:337 | the OR form in the first twenty rounds is the Ch of section 4.1.1 |
| Sha1.OrMajority | src/adapters/browser/websocket.rs:339 | the OR form in rounds 40 to 59 is the Maj of section 4.1.1 |
| Sha1.RotationMatches | src/adapters/browser/websocket.rs:330-349 | the shifts of section 3.2 are the rotations of the code |
| Sha1.RoundConstantsAreRoots | src/adapters/browser/websocket.rs:337-340 | the four round constants are the scaled square roots of 2, 3, 5 and 10 |
| Sha1.InitialCounts | src/adapters/browser/websocket.rs:316-323 | the initial registers, byte by byte |
| Sha1.WrappingAdd | src/adapters/browser/websocket.rs:343-358 | the sum is that of the full adder, bit by bit: its carries are the majority of the three bits below |
| Sha1.WordOfBlock | src/adapters/browser/websocket.rs:325-328 | each of the sixteen words of a block is four of its bytes, in order |
| Sha1.WordBytesInOrder | src/adapters/browser/websocket.rs:361-364 | the first byte written of a word is its most significant one, and so on |
| Sha1.PadMessage | src/adapters/browser/websocket.rs:309-315 | the padding loop computes the padding of section 5.1.1 |
| Sha1.Choose | src/adapters/browser/websocket.rs:336-341 | the branch of each round picks the function and constant of its index |
| Sha1.Schedule | src/adapters/browser/websocket.rs:325-333 | the array filled in place is the message schedule of section 6.1.2 |
| Sha1.CompressBlock | src/adapters/browser/websocket.rs:324-359 | the rotating registers end as the compression of section 6.1.2, added to the old state |
| Sha1.Sha1 | src/adapters/browser/websocket.rs:308-365 | the whole loop nest computes the digest of the recursive transcription, for every input; the bit operations under both are pinned by the rows above |
| Base64.DecodeEncode | src/adapters/browser/websocket.rs:285-306 | strict decoding reads back every encoded byte string |
| Base64.EncodeDecode | src/adapters/browser/websocket.rs:285-306 | the strict decoder accepts nothing but what the encoder writes |
| Base64.Base64Exact | src/adapters/browser/websocket.rs:285-306 | encoding is the exact inverse of strict decoding, on all byte strings and all texts |
| Base64.AlphabetInAscii | src/adapters/browser/websocket.rs:286 | the 64 symbols in ASCII codes: A to Z, a to z, 0 to 9, plus and slash |
| Base64.Base64Encode | src/adapters/browser/websocket.rs:285-306 | the loop over chunks of three computes the encoding |
| Utf8.ValidExactly | src/adapters/browser/websocket.rs:64-67 | a byte string is accepted as text exactly if it is the encoding of some sequence of scalars after section 3 of RFC 3629 |
| WebSocket.UnmaskingRestores | src/adapters/browser/websocket.rs:108-114 | masking twice with one key is the identity |
| WebSocket.LengthCodeRecovered | src/adapters/browser/websocket.rs:137-153 | the length field of each of the three sizes is read back |
| WebSocket.LengthCodeIsShortest | src/adapters/browser/websocket.rs:99-108 | no header that announces this length is shorter than the one written |
| WebSocket.ServerFrameReadBack | src/adapters/browser/websocket.rs:122-162 | every legal server frame of section 5.2 of RFC 6455 is read back with its opcode and payload, and the bytes behind it are left |
| WebSocket.ClientFrameReadBack | src/adapters/browser/websocket.rs:90-120 | a decoder after sections 5.2 and 5.3 recovers opcode and payload from every frame sent, under every mask |
| WebSocket.HeaderEndOfPrefix | src/adapters/browser/websocket.rs:183-218 | a prefix shows the end of the headers exactly if the stream does and the prefix reaches behind it |
| WebSocket.TerminatorSpelled | src/adapters/browser/websocket.rs:216-218 | what ends the headers is CRLF CRLF |
| WebSocket.RefusedExactly | src/adapters/browser/websocket.rs:122-162 | a frame is refused as fragmented exactly without the first bit of its first byte, as masked exactly with the first bit of its second, as too large exactly over 1 MiB, or 125 bytes for a control opcode |
| WebSocket.TextBehindControls | src/adapters/browser/websocket.rs:60-88 | any text, in whatever script, behind fewer than sixteen pings and pongs comes back as its own encoding |
| WebSocket.PongsReadBack | src/adapters/browser/websocket.rs:76-79 | a server reads the replies as one pong a ping, same payload, same order |
| WebSocket.FindHeaderEnd | src/adapters/browser/websocket.rs:216-218 | the position found is the first CRLF CRLF; none means there is none |
| WebSocket.Socket.ReadExact | src/adapters/browser/websocket.rs:164-181 | exactly the next bytes, or a failure |
| WebSocket.ReadHandshake | src/adapters/browser/websocket.rs:183-214 | under any chunking the headers are the bytes before the first CRLF CRLF and nothing behind them is lost; on a fault-free stream it succeeds whenever the headers end 1027 bytes before the limit |
| WebSocket.MaskPayload | src/adapters/browser/websocket.rs:109-114 | each byte under the mask byte of its position |
| WebSocket.LocalWebSocket.ReadExact | src/adapters/browser/websocket.rs:164-181 | the next bytes of pending and socket together; the rest stays |
| WebSocket.LocalWebSocket.ReadFrame | src/adapters/browser/websocket.rs:122-162 | the frame, error and remaining stream are those of the reference parser; on a fault-free socket nothing else happens |
| WebSocket.LocalWebSocket.SendFrame | src/adapters/browser/websocket.rs:90-120 | one complete masked frame goes out; a control frame over 125 bytes is refused unsent |
| WebSocket.LocalWebSocket.SendText | src/adapters/browser/websocket.rs:51-58 | a text over 1 MiB is refused unsent |
| WebSocket.LocalWebSocket.ReadText | src/adapters/browser/websocket.rs:60-88 | the text, the pings answered and the remaining stream are those of the reference with sixteen rounds, and a text returned is the encoding of a sequence of scalars; one pong a ping was sent |
| WebSocket.Session | src/adapters/browser/websocket.rs:21-49 | handshake and then any number of reads give the headers and exactly the frames the server encoded, in order |
| WebSocket.Accepts | src/adapters/browser/websocket.rs:279-283 | the only accept value taken is the one that decodes to the digest of the key followed by the GUID of section 1.3 of RFC 6455 |
| Markup.ScanMarkup | src/adapters/web_search/page.rs:134-241 | the loop over cursor, modes, hidden scope and buffers computes the recursion over constructs; it terminates, and so does its recursion into CDATA; what the recursion gives on documents is said by the rows of `MarkupTags` |
| Markup.HandleTag | src/adapters/web_search/page.rs:182-227 | the branches of one tag compute the transition of the scanner |
| Markup.HandleVisibleTag | src/adapters/web_search/page.rs:199-227 | title, head, primary depth and line break of a visible tag |
| Markup.FindStable | src/adapters/web_search/page.rs:142-181 | a match found in a text is the match found in any longer text |
| Markup.NextStable | src/adapters/web_search/page.rs:152-181 | a complete construct is the same whatever follows it |
| Markup.ScanSize | src/adapters/web_search/page.rs:134-267 | from any state the buffers grow by at most twice the length scanned |
| Markup.ScanIsBounded | src/adapters/web_search/page.rs:134-267 | title, primary and fallback together never exceed twice the document |
| Markup.ScanAfterFront | src/adapters/web_search/page.rs:142-241 | a front of complete constructs only sets the state for the rest |
| Markup.HiddenBody | src/adapters/web_search/page.rs:183-194 | a body inside a hidden scope leaves nothing behind but the depth |
| Markup.HiddenBodiesAreIrrelevant | src/adapters/web_search/page.rs:183-241 | documents that differ only in a body of a hidden scope, balanced in its name and made of complete constructs, give the same three texts |
| Markup.ScanScope | src/adapters/web_search/page.rs:183-204 | a whole hidden scope leaves only the text before it |
| Markup.TextRepeats | src/adapters/web_search/page.rs:152-181 | before an unterminated construct the pending text is emitted twice |
| Markup.ScopeErasedExactly | src/adapters/web_search/page.rs:134-241 | a document equals the one with the scope erased exactly if the text before the scope is empty or not shown, or the first construct behind the scope ends |
| MarkupTags.TextOnly | src/adapters/web_search/page.rs:243-259 | a text without any tag is fallback text, whole, in either mode |
| MarkupTags.ElementScanned | src/adapters/web_search/page.rs:182-267 | for every element name, in either mode: which of title, primary and fallback receives the text before, inside and behind the element, and where a line breaks |
| MarkupTags.CommentScanned | src/adapters/web_search/page.rs:142-151 | a comment leaves nothing |
| MarkupTags.CdataScanned | src/adapters/web_search/page.rs:152-172 | a CDATA section is shown where it stands, as the scan of its body as a document of its own |
| MarkupTags.EmbeddedExactly | src/adapters/web_search/page.rs:152-172 | of an embedded document the primary text is shown, or the fallback text when that is blank |
| MarkupTags.HiddenNamesExactly | src/adapters/web_search/page.rs:297-306 | the thirteen names that open a hidden scope, "header" outside of primary text, and the hiding attributes |
| MarkupTags.HiddenAttributesExactly | src/adapters/web_search/page.rs:308-317 | an element is hidden by its attributes exactly with a word "hidden" or one of five spelled-out styles and states, up to case and quotes |
| MarkupTags.LowerLetters | src/adapters/web_search/page.rs:308-317 | the 26 capital letters of ASCII become small ones; every other character stays |
| MarkupTags.HasWordExactly | src/adapters/web_search/page.rs:308-317 | a word is found exactly where it stands between white space or the ends |
| MarkupTags.OnlyQuotesDropped | src/adapters/web_search/page.rs:308-317 | both kinds of quotes are dropped before a tag is searched, wherever they stand, and nothing else is |
| MarkupTags.PrimaryNamesExactly | src/adapters/web_search/page.rs:319-328 | the names of primary elements, for each mode |
| MarkupTags.StructuralNamesExactly | src/adapters/web_search/page.rs:330-359 | the names that break a line |
| MarkupTags.TagWithAttributes | src/adapters/web_search/page.rs:276-295 | a name with any attributes is read as an opening tag, closing itself exactly when its last solid character is a slash |
| MarkupTags.FindExactly | src/adapters/web_search/page.rs:142-181 | a pattern is found at its first occurrence, and not found exactly when it does not occur |
| MarkupTags.Trimmed | src/adapters/web_search/page.rs:170-200 | trimming takes the white space off both ends and nothing else |
| MarkupTags.WhitespaceListed | src/adapters/web_search/page.rs:170-200 | white space is the 25 characters with the Unicode property White_Space |
| Evidence.AttemptSteps | src/app/evidence_adapter/recording.rs:68-150 | after each of the four writes the stores are still backed by each other |
| Evidence.RunsStayValid | src/app/evidence_adapter/recording.rs:10-161 | over every schedule of requests cut off anywhere: a turn has its event, an event its line, a line its artifact, all with the artifact's own hash, at most one of each |
| Evidence.SuccessRecordsOnce | src/app/evidence_adapter/recording.rs:10-161 | after any schedule the attempt that completes leaves exactly one artifact, line, event and turn, each field of which is spelled out from the request |
| Evidence.CompletedIsReadBack | src/app/evidence_adapter/recording.rs:10-161 | an attempt that meets no conflict leaves stores from which the request is read back field by field, with the id and the hash over the payload as it is written |
| Evidence.CrashesLeaveNoTrace | src/app/evidence_adapter/recording.rs:10-161 | an attempt cut off and repeated to the end leaves what one undisturbed attempt leaves |
| Evidence.FirstRequestWins | src/app/evidence_adapter/recording.rs:58-71 | under every id stands the artifact of the first request that reached it |
| Evidence.Recorder.FindLine | src/app/evidence_adapter/recording.rs:94-119 | the scan finds the line exactly if it is there |
| Evidence.Recorder.InstallArtifact | src/app/evidence_adapter/recording.rs:58-71 | the artifact is written once and a differing one is a conflict |
| Evidence.Recorder.AppendRuntimeLine | src/app/evidence_adapter/recording.rs:73-128 | one line an id; a differing line cannot be met |
| Evidence.Recorder.AppendLedgerEvent | src/app/evidence_adapter/recording.rs:130-143 | one event an id |
| Evidence.Recorder.RecordTurn | src/app/evidence_adapter/recording.rs:144-159 | one turn an id; a differing turn cannot be met |
| Evidence.Recorder.RecordPatchVerification | src/app/evidence_adapter/recording.rs:10-161 | the stores become those of the cut-off attempt; success means all four and that the request is read back from them field by field, a conflict nothing, and without faults there is no third outcome |
| SelfUpdate.Disk.Replace | src/adapters/system_install/binary.rs:315-328 | the try block leaves the old binary at target or backup, or the new one at target, and changes nothing on a digest mismatch |
| SelfUpdate.Disk.CleanUp | src/adapters/system_install/binary.rs:335-348 | the finally block removes a backup only beside a target, its own marker only, and reports an exception only when reading the marker failed |
| SelfUpdate.Disk.RunUpdateScript | src/adapters/system_install/binary.rs:282-350 | for every pattern of failing or interrupted operations a complete old binary is at target or backup or the new one at target; exit 3 means an unchanged target, exit 0 the new one; only its own marker is removed; one failing operation is made good, so that a binary is at the target; without faults nothing is left over |
| SelfUpdate.Disk.ReserveMarker | src/adapters/system_install/binary.rs:88-128 | the marker is taken only when there is none |
| SelfUpdate.Disk.Schedule | src/adapters/system_install/binary.rs:186-280 | done means source, marker and script are in place with the digest of the target; one failing operation takes everything back; a marker that was there stays and blocks |
| UpdateProtocol.CommandKeepsInv | src/adapters/system_install/binary.rs:34-81 | every step of an install or update command keeps the invariant |
| UpdateProtocol.ScriptKeepsInv | src/adapters/system_install/binary.rs:311-348 | every step of a pending script keeps the invariant |
| UpdateProtocol.RunInv | src/composition/update.rs:59-89 | the invariant holds in every state of every run |
| UpdateProtocol.OneMutator | src/composition/install.rs:64-82 | in every interleaving of commands, scripts and kills at most one actor can change the installed binary |
| UpdateProtocol.OnlyMutatorsMutate | src/adapters/system_install/binary.rs:34-81 | whatever changes target or marker is such an actor |
| UpdateProtocol.NoMismatchFromWithin | src/adapters/system_install/binary.rs:318-321 | among themselves these actors never make the digest check fail |
| UpdateProtocol.BinaryNeverLost | src/adapters/system_install/binary.rs:322-346 | in every reachable state a complete binary is at the target or at a backup |
| UpdateProtocol.UpdateOutcome | src/adapters/system_install/binary.rs:315-334 | in every reachable state a script that is done with the target has left the new binary there, or one with the old digest, or none while such a one is in its backup |
| UpdateProtocol.InstallAlone | src/composition/install.rs:64-82 | an install that nobody interrupts puts its binary at the target and changes nothing else |
| UpdateProtocol.CommandAlone | src/composition/update.rs:59-89 | an update command that nobody interrupts leaves its marker and a script that waits for it, with the digest of the target and the new binary as source |
| UpdateProtocol.CommandWithdraws | src/adapters/system_install/binary.rs:186-280 | a command that cannot write or start its script takes its marker back, and nothing else changes |
| UpdateProtocol.ScriptAlone | src/adapters/system_install/binary.rs:311-348 | a script that nobody interrupts installs its source, removes the backup and clears its marker |
| UpdateProtocol.ScriptRestores | src/adapters/system_install/binary.rs:322-346 | a script that cannot move the new binary in puts the old one back and clears its marker |
| UpdateProtocol.ScriptGivesUp | src/adapters/system_install/binary.rs:322-346 | a script that gives up leaves the old binary where it was, or in its backup once it was moved away, and clears its marker |
| UpdateProtocol.OrphanedMarkerFreezesBinary | src/adapters/system_install/binary.rs:62-81 | once the owner of the marker was killed, no later step clears it or changes the binary |
| Lease.ActionSteps | src/adapters/filesystem/lease.rs:31-208 | each call takes one lock, gives one back or leaves the table alone, as the phase of its process says |
| Lease.StepKeepsInv | src/adapters/filesystem/lease.rs:31-208 | a process owns exactly the locks of its phase, after every call of anyone and every tampering with a path |
| Lease.MutualExclusion | src/adapters/filesystem/lease.rs:31-77 | two processes hold the lease at once only if both guard and lock file were moved since the last identity check of the one or of the other |
| Lease.ExclusionInPlace | src/adapters/filesystem/lease.rs:31-77 | with the guard or the lock file never moved there is at most one holder |
| Lease.GuardExcludes | src/adapters/filesystem/lease.rs:175-200 | with the guard in place at most one process is between taking and releasing it, in any interleaving and with any other file replaced |
| Lease.IdleOwnsNothing | src/adapters/filesystem/lease.rs:31-77 | after a failed acquire, a drop or a kill a process owns no lock |
| Lease.LettingGoNeverBlocks | src/adapters/filesystem/lease.rs:31-208 | from every phase a process can let go by itself within four calls |
| Lease.GuardReleasedLast | src/adapters/filesystem/lease.rs:202-208 | short of a kill the guard is the last lock given back |
| Lease.LiveClaimStopsScan | src/adapters/filesystem/lease/identity.rs:3-68 | a scan that lists a live claim in its place ends there |
| Lease.LiveClaimStays | src/adapters/filesystem/lease/identity.rs:3-68 | while only the processes touch the claims, and whatever happens to guard and lock file: a claim past its check stays in its place, and is replaced or removed by nobody else, until its owner drops it |
| Lease.HolderShowsClaim | src/adapters/filesystem/lease/identity.rs:3-68 | the claim of a holder is locked and listed by every later scan that finds it in place |
| Lease.FreeLeaseIsGranted | src/adapters/filesystem/lease.rs:31-77 | a process that runs alone gets a free lease, with exactly its three locks, and sweeps every claim left behind without an owner |
| Lease.LeaseIsReturned | src/adapters/filesystem/lease.rs:202-208 | four calls give back what is held: the three locks and, if it is still in its place, the claim; nothing else changes |
| Lease.TwoHoldersWhenBothMoved | src/adapters/filesystem/lease.rs:31-77 | a run in which guard and lock file are moved away and two processes hold the lease |
| Tokens.FitsExactly | src/runtime_core/knowledge/compaction/token_budget.rs:3-10 | a text fits a budget exactly with at most three characters and four bytes a token |
| Tokens.BoundedTailExactly | src/runtime_core/knowledge/compaction/token_budget.rs:98-110 | the end that is kept is the longest within both limits, and there is no other |
| Tokens.BoundedHeadExactly | src/runtime_core/knowledge/compaction/token_budget.rs:83-97 | the front that is kept is the longest within both limits, and there is no other |
| Tokens.BytesAreUtf8 | src/runtime_core/knowledge/compaction/token_budget.rs:3-10 | the bytes of a text are the length of its UTF-8 encoding |
| Tokens.TailLoop | src/runtime_core/knowledge/compaction/token_budget.rs:98-110 | the loop from the back finds the longest end within both limits |
| Tokens.TruncatedExactly | src/runtime_core/knowledge/compaction/token_budget.rs:42-72 | what is left of a text over its budget is the marker "\n[compacted]\n" and the longest end of the text within three characters and four bytes a token less the marker, or, for at most five tokens, the longest front of the marker; nothing else is |
| Tokens.TruncationFits | src/runtime_core/knowledge/compaction/token_budget.rs:42-72 | truncation keeps within every budget and gives nothing only for a zero budget or an empty text |
| RecentTail.EssentialKeeps | src/runtime_core/knowledge/compaction/recent_tail.rs:120-139 | at most limit records, among them the first and the last model record |
| RecentTail.CostCounts | src/runtime_core/knowledge/compaction/policy.rs:159-161 | a cost is eight tokens a record and the estimates of kinds and contents |
| RecentTail.PickExactly | src/runtime_core/knowledge/compaction/recent_tail.rs:120-139 | exactly the records at chosen positions are kept, each at its rank |
| RecentTail.EssentialRecords | src/runtime_core/knowledge/compaction/recent_tail.rs:120-139 | the loop fills the chosen positions up from the back |
| RecentTail.BoundedSingleExchange | src/runtime_core/knowledge/compaction/recent_tail.rs:95-118 | all records when they fit; otherwise the essential records for the largest fitting limit, each with its id, its kind and the truncation of its content to the largest equal share of what the budget leaves: within budget and record limit, with the user record and the last model record, empty exactly if the selected records do not fit |
| RecentTail.SelectExchanges | src/runtime_core/knowledge/compaction/recent_tail.rs:27-57 | the loop back over the exchanges stops at the largest tail |
| RecentTail.SelectRecentTail | src/runtime_core/knowledge/compaction/recent_tail.rs:22-75 | the tail starts at an exchange, holds at most the allowed number, fits unless it is one exchange, and could not have taken the exchange before it; everything goes into the source exactly without an exchange or when even two records of the last one do not fit |
| RecentTail.SourceEndIsUnique | src/runtime_core/knowledge/compaction/recent_tail.rs:22-75 | that description admits one end of the source only |
| Compaction.SegmentsPartition | src/app/context_adapter/compaction.rs:116-154 | the source segments of the compactions and the tail are the transcript, every record once and in order |
| Compaction.SegmentsAreFixed | src/app/context_adapter/compaction.rs:116-226 | a segment stays what it is under later records and compactions |
| Compaction.Advances | src/app/context_adapter/compaction.rs:116-226 | committed boundaries strictly advance and no artifact is committed twice |
| Compaction.PositionIsFirst | src/app/context_adapter/compaction.rs:120-129 | the position of a record is the first with its id |
| Compaction.ChainStep | src/app/context_adapter/compaction/artifact_store.rs:74-108 | each artifact names its predecessor by path and hash, at an earlier boundary, down to "none" |
| Compaction.ValidateArtifactChain | src/app/context_adapter/compaction/artifact_store.rs:62-117 | on any store the walk accepts exactly the chains of at most 64 artifacts: each present, at a boundary the transcript has, naming its predecessor by path and hash, at a strictly earlier boundary; it gives up as too deep exactly after 64 good links |
| Compaction.CommitsAreChained | src/app/context_adapter/compaction/artifact_store.rs:74-108 | the commits of a session are such a chain, and the walk from the one number n passes n good links |
| Compaction.PlanCompaction | src/runtime_core/knowledge/compaction/policy.rs:81-122 | compacts exactly if there is a source and the mode or a token count asks for it; the source ends where the largest tail begins |
| Compaction.Session.Append | src/app/context_adapter/compaction.rs:116-119 | a new record goes to the end of transcript and tail; a known one changes nothing |
| Compaction.Session.LoadCurrentArtifact | src/app/context_adapter/compaction/artifact_store.rs:55-72 | any session is readable exactly if it has no boundary or its chain is accepted; a sound one exactly up to 64 compactions, and beyond that the chain is reported too deep |
| Compaction.Session.InstallArtifact | src/app/context_adapter/compaction/artifact_store.rs:18-53 | an artifact file is written once; a different body is a conflict |
| Compaction.Session.RecordBoundary | src/app/workflow_adapter/state/lifecycle/events.rs:40-97 | the boundary moves only from the expected predecessor |
| Compaction.Session.CandidateRecords | src/app/context_adapter/compaction.rs:120-129 | the candidates are the tail behind the current boundary |
| Compaction.Session.CompactSession | src/app/context_adapter/compaction.rs:106-237 | success adds one segment, a non-empty front of the old tail that ends where the largest tail of exchanges begins; the rest and what arrived meanwhile are the new tail; it compacts exactly if there is a source and the mode or a token count asks for it; every other outcome, also a stop between install and commit, leaves the boundaries; a refused load means more than 64 compactions |
| Compaction.CompactionStep | src/app/context_adapter/compaction.rs:180-226 | the stores after install and after commit are valid, with that segment and that tail |
| Resume.TurnsFit | src/app/context_adapter/resume_context.rs:110-135 | every turn is within the per-turn budget and all of them within the transcript budget |
| Resume.TurnsExactly | src/app/context_adapter/resume_context.rs:110-135 | the turns of given records are, from the last one back, their truncations to what the later ones left of the transcript budget, at most the budget of a turn; no other sequence is |
| Resume.BudgetInNumbers | src/runtime_core/knowledge/context/budget.rs:21-37 | transcript, turn and turn-count budgets in numbers for every context window |
| Resume.ExcludingExactly | src/app/context_adapter/resume_context.rs:105-108 | a record is left out exactly if its workflow is the excluded one |
| Resume.SelectTurns | src/app/context_adapter/resume_context.rs:110-135 | the turns are the last records with any content, each truncated, marker and longest end, to what was left for it, as many as turn and token budget allow |
| Resume.LastOccurrencesExact | src/app/context_adapter/resume_context.rs:143-160 | one pointer a reference, at its last occurrence, in order, none missing |
| Resume.NewestAreNewest | src/app/context_adapter/resume_context.rs:143-160 | at most four, and a reference is left out only for four others that occur later |
| Resume.ScanRecord | src/app/context_adapter/resume_context.rs:147-155 | the inner loop adds the pointers of one record and stops only when there are enough |
| Resume.SelectPointers | src/app/context_adapter/resume_context.rs:143-160 | the nested loops compute the newest distinct references |
| Resume.RebuildSessionContext | src/app/context_adapter/resume_context.rs:82-160 | the turns are the last records with content behind the boundary, each truncated, marker and longest end, to what was left for it, as many as turn and token budget allow, and the pointers the newest distinct references; past 64 compactions the strict form fails and the other one shows the whole transcript |
| Resume.TokensOfConcat | src/runtime_core/knowledge/compaction/token_budget.rs:3-10 | a concatenation never costs more than its parts |
| Resume.GreedyFits | src/app/context_adapter/compaction.rs:340-352 | the greedy choice stays within the budget |
| Resume.ConcatExactly | src/app/context_adapter/compaction.rs:354-357 | the chosen parts follow each other whole and in order, with nothing between |
| Resume.BoundedSummaryPrompt | src/app/context_adapter/compaction.rs:326-357 | the prompt is empty or header and greedy choice in order, and as a whole within the budget |
| Ranking.CandidatesDistinct | src/adapters/web_search/evidence.rs:118-133 | exactly the first result of each canonical URL is a candidate |
| Ranking.SortRanks | src/adapters/web_search/evidence.rs:134 | sorting orders by score, then by place, and keeps every candidate |
| Ranking.RankingIsExact | src/adapters/web_search/evidence.rs:117-152 | a candidate is kept exactly if it has a domain, fewer than eight kept ones outrank it and fewer than two of its domain do |
| Ranking.RankingIsUnique | src/adapters/web_search/evidence.rs:117-152 | that description admits one list only |
| Ranking.RankingIsAnswer | src/adapters/web_search/evidence.rs:117-152 | in terms of the results: at most eight, each the first result of its canonical URL, rewritten to it, with a domain, at most two a domain, by falling score and then by place; and whatever is left out has eight better ones or two better ones of its domain |
| Ranking.Deduplicate | src/adapters/web_search/evidence.rs:119-133 | the pass with its seen set computes the candidates |
| Ranking.Choose | src/adapters/web_search/evidence.rs:136-151 | the pass with its running counts computes the greedy choice |
| Ranking.RankAndDeduplicate | src/adapters/web_search/evidence.rs:117-152 | the whole function returns that ranking |
| SourceUrl.NormalizeWwwIdempotentExactly | src/adapters/web_search/policy.rs:251-257 | normalizing a host is idempotent exactly without a doubled "www." |
| SourceUrl.CanonicalParts | src/adapters/web_search/policy.rs:57-91 | host in small letters without trailing dots and one "www.", no port 443, path without trailing slashes but never empty, the kept pairs in order |
| SourceUrl.LowerExactly | src/adapters/web_search/policy.rs:251-257 | a host keeps every character but its capital letters of ASCII, which become small ones |
| SourceUrl.RenderSpelled | src/adapters/web_search/policy.rs:84-90 | the canonical string is "https://", host, port, path and the pairs joined by ampersands |
| SourceUrl.TrackingExactly | src/adapters/web_search/policy.rs:259-269 | a pair is dropped by its key alone: "utm_" in front or one of seven names, in any case |
| SourceUrl.FilterExactly | src/adapters/web_search/policy.rs:76-82 | each piece of the query is kept by itself, in order, unless it is empty or for tracking |
| SourceUrl.TwoPrefixesNeedTwoRounds | src/adapters/web_search/policy.rs:251-257 | a host on which a second round changes something |
| SourceUrl.WwwPrefix | src/adapters/web_search/policy.rs:251-257 | one leading "www." makes no difference to a host without one |
| SourceUrl.SortSorts | src/adapters/web_search/policy.rs:83 | sorting orders the pairs and keeps each as often |
| SourceUrl.AtMostExactly | src/adapters/web_search/policy.rs:83 | the order is by the first scalar in which two strings differ, a prefix first |
| SourceUrl.SameFormExactly | src/adapters/web_search/policy.rs:57-91 | two URLs share the canonical form exactly if host up to case, dots and one "www.", effective port, path up to trailing slashes and the kept query pairs in any order agree |
| SourceUrl.PairsAgain | src/adapters/web_search/policy.rs:76-88 | the joined pairs are read back as the same pairs |
| SourceUrl.CanonicalReadBack | src/adapters/web_search/policy.rs:57-91 | a parser finds in the canonical string exactly the canonical parts |
| SourceUrl.CanonicalizeIdempotentExactly | src/adapters/web_search/policy.rs:57-91 | the canonical string, read by a parser and canonicalized again, is itself exactly without a doubled "www." |
| SourceUrl.SameStringExactly | src/adapters/web_search/policy.rs:63-90 | the canonical strings are equal exactly if the canonical parts are |
| Profile.RenderedLayout | src/adapters/system_install/path_registration.rs:157-185 | a rendered profile has exactly one block and keeps what was around it, or the whole old text in front |
| Profile.AppendedSpelled | src/adapters/system_install/path_registration.rs:157-172 | a profile without a block gets one newline where it ends with one, two where it does not, none where it is empty, and then the two markers around the command |
| Profile.ReadsAs | src/adapters/system_install/path_registration.rs:187-200 | a line is a marker line in exactly four spellings: bare or with a line feed, each with or without a carriage return |
| Profile.LastBlockWins | src/adapters/system_install/path_registration.rs:157-185 | rendering again is idempotent, and with another command only the last one stays |
| Profile.RemoveUndoesRender | src/adapters/system_install/uninstall/path_registration.rs:143-164 | removal after rendering gives back the surroundings, or the old text with the separator; a blank profile is emptied |
| Profile.ExactLineRanges | src/adapters/system_install/path_registration.rs:187-200 | the running offset gives start and end of each marker line |
| Profile.OffsetsDecide | src/adapters/system_install/path_registration.rs:157-185 | cutting at the offsets is cutting at the lines |
| Profile.RenderManagedProfile | src/adapters/system_install/path_registration.rs:157-185 | the string built by offsets is the rendering by lines; it is refused exactly on unbalanced, repeated or misordered markers |
| Profile.RemoveManagedBlock | src/adapters/system_install/uninstall/path_registration.rs:143-164 | the string left by offsets is the removal by lines; it is refused exactly on unbalanced, repeated or misordered markers |

## Left out

- WebSocket.LocalWebSocket.ReadFrame: reserved bits are ignored and longer length forms accepted, as in the code, so only frames written in the shortest form round-trip.
- WebSocket.ReadHandshake: the status line and the upgrade headers are not checked; of their validation only the accept value is modelled (`WebSocket.Accepts`).
- WebSocket.Socket.ReadExact: timeouts and other I/O errors are one error, and a failed read may have consumed any of the bytes.
- TeamStore.Store.ReconcileReport: verification of member inputs and of the stop gate's evidence are decisions of the environment (a refusal is a stop); the stop-gate-failed event is not written.
- TeamSafety.StageImpliesEvidence: stage events may be missing after a crash, because reconciliation skips an advance that already happened; only receipts are claimed.
- Worker processes, their heartbeats, resource sampling and the choice between parallel and sequential execution; a run of workers is one step that may fail.
- Markup.ScanMarkup: characters stand for bytes, white space is the Unicode set; entity decoding, line collapsing and the feed and Markdown paths behind the scanner are not modelled.
- Evidence.Recorder.RecordPatchVerification: files that somebody else damaged (unreadable or malformed lines) and concurrent callers; the JSON rendering of an artifact is taken to be injective.
- SelfUpdate.Disk.RunUpdateScript: a move is one atomic step, also across volumes; waiting for the parent is a step of `UpdateProtocol`.
- UpdateProtocol.OneMutator: commands are steps, not methods, so that they interleave; operation ids are fresh; uninstall and people editing files by hand are not among the actors.
- Lease.MutualExclusion: acquire and drop are calls of a step relation, so that they interleave, and not methods of a class; the waiting loop around acquire, the limit of 128 claims a scan examines and the Windows form of the identity check; an open handle stands for its inode.
- Compaction.Session.CompactSession: the summary text, the deterministic checkpoint and the recent record ids of an artifact; parsing and size limits of artifact files; transcript order is the order of arrival.
- Compaction.PlanCompaction: the percentages behind trigger, tail budget and exchange limit are parameters; which records the summary model is shown is not modelled.
- Resume.RebuildSessionContext: rereading the source files behind the pointers and their character budget.
- Ranking.RankAndDeduplicate: the relevance score, the canonical form and the domain of a URL are arbitrary functions here; the score saturates at 16 bits in the code. The bounded context string built from the ranking is not modelled.
- SourceUrl.SameFormExactly: URL parsing, the public-host check and bracketed IPv6 hosts; the parts a parser delivers are the input.
- Profile.RenderManagedProfile: file access, shell selection and quoting.
- Report texts, command dispatch, metrics, the agent's call budget and path layout: plumbing with easy members.
