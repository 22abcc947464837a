# Okayeg: sync, materialisation and presence, proved

Okayeg keeps a tree of text files in step between peers. A library, Loro,
supplies the event graph, the text and tree CRDTs and the presence store. This
project models the protocol and reconciliation code built on top of it and
proves what that code is for.

## How it is modelled

**Docs and sync.** A doc is a causally closed set of operations (`CausalDoc`).
An operation carries what it was built on, so an operation determines its
history. `updates_since` is set difference; `import` applies what is grounded,
holds the rest and reports whether anything was held. The drivers
(`SyncProtocol`) are classes with the source's fields. `Network` turns them
into a transition system: any number of peers and sessions, one FIFO inbox per
end, one-shot and live ends mixed, arbitrary local commits, lagging nudges,
dropped streams, and an opening `Have` that may be arbitrarily late.
`Provenance`, `Convergence`, `Exchange` and `Gaps` prove statements over whole runs.

**Bytes on the wire.** `Frames` models the length-prefixed reader as two
buffers that survive a select loop. `Utf8`, `PresenceWire`, `PresenceStore` and
`PresenceHub` model section 3 of RFC 3629, the postcard encoding of presence
entries, the ownership filter, and the relay between sessions of a host.

**Files.** `SharedText` is a text as every character ever inserted, stamped
with the local frontiers at which it appeared and went. A merge of a script
made at an earlier frontier is a relation: where exactly an insertion lands
among others' is left open. `FileTree` holds identity-keyed nodes that say where
they hang. `Docs.Doc` is a history of trees that only grows; a `Frontier` names
one of them, and peers may append any well-formed tree that keeps earlier
frontiers readable as they were. `DocFs` and `Listing` are the path view.
`Workspaces.Disk` is the confined directory tree, `Imports`, `Exports`,
`Seeding`, `Watching`, `Batches` and `Pruning` the crossings between the two, and
`LiveLoops` and `LoopRuns` ingest and egress taking turns with peers and local
programs. `Crossings` says where merge bases come from over such runs,
`Settling` how the loop falls quiet, `LeftOut` what becomes of paths left out,
and `LoopWitnesses` holds runs that end where one might not expect. `WriteBack`
is the mount's cache of dirty buffers.

Contracts of state-changing methods tie the new state to a specification
function or relation; the lemmas are about those.

## What the results rest on

- Sibling names are unique and only directories have children
  (`Tree.WellFormed`). Local edits through the path view are proved to keep
  this; for trees that arrive from a peer it is a precondition
  (`Docs.Doc.ImportPeer`).
- Before ingest, a directory on disk that has a node has a directory node
  (`DirsMatch`); before export, no path is a file on one side and a directory on
  the other (`NoClash`).
- The set of ignored paths is fixed. Nothing is assumed of it: a path counts as
  left out when it or a directory above it matches (`Skips`).
- Statements about quiet and about what disk and doc agree on are about docs of
  files and directories; boundary nodes stand for nothing on disk.
- Each operation of the source that takes a lock or runs between two awaits is
  one atomic step.

## Where the code does not do what one might expect

Each entry names a run that shows it and, where it depends on the input, the
theorem that says exactly when.

- A left-out file can be lost. `.eg/ignore` is promised to be "skipped both
  ways" (`crates/eg/src/ignore.rs:3-4`), but ingest does not ask it. A left-out
  text file that is reported gets a node; the next egress does not write it and
  so prunes it as an echo; and the report of that removal deletes the node.
  `LoopWitnesses.LeftOutFileIsLost` is the run. `LeftOut.LeftOutIsSafe`: an
  untracked left-out file that no ingest reports is untouched, whatever peers put
  at its path. `LeftOut.LeftOutGoesOnceReported`: once one reports it, it is off
  the disk from the next egress on, whatever comes in between, if and only if it
  was text and the doc had nothing or a file at its path. For files that are
  tracked already and have a node, `LeftOut.ReportedAlikeGoes` says: if and only if
  the ingest left disk and doc alike. All of this is as long as programs let the
  file be and no further ingest reports it.
- A second ingest before an egress can lose a peer's text. `apply_batch` moves
  the base even where its merge left the doc reading otherwise than disk, so the
  next ingest of the same bytes takes what disk does not show for deleted:
  `LoopWitnesses.SecondIngestLoses` is the run, `Crossings.SecondIngestUndoes` the
  general case. `Crossings.BaseIsLastCrossing`: the base is the frontier of the
  last crossing of the path. `Crossings.SurvivesIfShown`: with the file as that
  crossing left it, showing no more than the doc did, and none of that deleted by
  others, the next ingest deletes something if and only if the doc's text then was
  not what disk held. An egress always leaves the two alike
  (`Crossings.EgressAgrees`); an ingest does, with nobody having deleted what
  showed at its base, exactly when nothing put in since is visible
  (`Crossings.IngestAgrees`).
- Deleted directories can come back: `ensure_dir` runs before the echo check. In
  `LoopWitnesses.LateReportRevives` the late report of an unmodified file gives
  its deleted directory a new node. `BatchEffects.DirComesBack`: a batch does
  that if and only if it reports the directory, one below it or a text file below
  it. With no such report before the first egress, a deleted directory whose
  contents are tracked and unmodified is gone for good (`LoopRuns.DirGoneForGood`).
- A one-shot driver against a live host with nothing to send never finishes:
  `pending` answers nothing when the versions are equal, while the driver waits
  for `Updates`. `Exchange.OneShotAgainstLiveHost` gives the exact condition,
  `Exchange.SyncedVisitHangs` a run.
- `Step::Done` is documented as both sides having converged. One side is done a
  delivery before the other (`Exchange.DoneBeforeThePeer`), and both hold the
  union at the end if and only if each direction is open or has nothing to bring
  (`Exchange.BothHoldTheUnion`).
- A one-shot import nudges nobody, so live mates of that peer can stay behind.
  `Exchange.OneShotLeavesMateBehind` is the run. `Convergence.AtRestDelivered`:
  wherever a run comes to rest, a live end is short of its own doc if and only if
  a one-shot import has moved that doc since the end last measured it, on a nudge
  or on its mate's `Have`; otherwise it has delivered everything.
  `Convergence.NextChangeCatchesUp`: the next write or live import at that peer
  makes it good.

## Model

| member | source | states |
|---|---|---|
| CausalDoc.SettleIsLargestClosed | crates/okayeg/src/doc.rs:97-101 | what an import applies is the largest causally complete part of what is on hand, and everything exactly when that is complete |
| CausalDoc.ImportGrows | crates/okayeg/src/doc.rs:97-101 | an import never loses applied history and leaves the doc causally complete, orphans or not |
| CausalDoc.ImportWhole | crates/okayeg/src/sync.rs:108-116 | a batch is refused as orphaned if and only if some of it refers to history neither applied, held nor in the batch; a doc that holds nothing applies any other batch whole |
| CausalDoc.ImportLosesNothing | crates/okayeg/src/doc.rs:95-101 | after an import every operation had or received is applied or held, never both |
| CausalDoc.ImportsSort | crates/okayeg/src/doc.rs:95-101 | after any imports, in any order and grouping, a doc has applied the largest causally complete part of all it ever received and holds the rest |
| CausalDoc.AppliedOnceGrounded | crates/okayeg/src/doc.rs:95-101 | an operation is applied as soon as it and all it was built on have been received, whichever came first |
| CausalDoc.OrderDoesNotMatter | crates/okayeg/src/doc.rs:95-101 | two orders or groupings of the same operations give the same doc |
| CausalDoc.CatchUp | crates/okayeg/src/doc.rs:88-101 | sending what a peer lacks since a version it has is never refused there and unites the two histories, whatever orphans it still held |
| SyncProtocol.MessageCodec | crates/okayeg/src/sync.rs:26-50 | messages and the byte strings that parse correspond one to one: tag 0, 1 or 2 and the body; exactly the empty string and other tags are malformed |
| SyncProtocol.OneShotFails | crates/okayeg/src/sync.rs:165-192 | exactly when the one-shot driver fails and with which error, what it leaves as it was, and when it is done |
| SyncProtocol.LiveFails | crates/okayeg/src/sync.rs:228-259 | exactly when a live session fails and with which error; only admitted updates move the doc |
| SyncProtocol.Doc.ImportNoOrphans | crates/okayeg/src/sync.rs:108-116 | garbled bytes leave the doc alone; otherwise the batch is applied as far as it goes, even when the call fails as orphaned |
| SyncProtocol.OneShot.On | crates/okayeg/src/sync.rs:165-192 | the driver's answer, next phase and doc for every phase, message and gate, including out-of-order and refused imports |
| SyncProtocol.LiveSync.On | crates/okayeg/src/sync.rs:228-259 | the session's answer, mark and doc for every message and gate; `changed` only when the version moved |
| SyncProtocol.LiveSync.Pending | crates/okayeg/src/sync.rs:261-274 | nothing without the pull gate or when the mark is current, else the gap, and the mark moves up |
| Network.FrameStep | crates/okayeg/src/sync.rs:165-259 | in an invariant state taking the next frame never fails, grows the doc by exactly what a push gate admits, and keeps the inbox consistent |
| Network.NoHonestOrphans | crates/okayeg/src/sync.rs:229-274 | in every reachable state no delivery fails, each frame builds on what its receiver has plus earlier frames, and a sender's mark is within what the receiver has or will get |
| Gaps.AnswerIsTheGap | crates/okayeg/src/sync.rs:165-180 | a one-shot driver answers a peer that may read with exactly what the doc has and its `Have` does not name, any other with nothing |
| Gaps.LiveAnswerIsTheGap | crates/okayeg/src/sync.rs:229-243 | a live end answers a `Have` with exactly that too, and stays silent if there is none of it |
| Gaps.NothingSentTwice | crates/okayeg/src/sync.rs:261-274 | in every run from every reachable state a live end posts nothing its mark names and, until its mate's next `Have`, no operation twice |
| Provenance.GateContainment | crates/okayeg/src/sync.rs:171-265 | over every run, one-shot and live sessions mixed, a peer holds an operation written elsewhere only if a route of sessions with pull granted by each sender and push by each receiver leads from the writer |
| Convergence.AtRestDelivered | crates/okayeg-net/src/lib.rs:202-327 | wherever a run comes to rest, an open live end granting pull has its mark at its own doc if and only if no one-shot import has moved that doc since the end last measured, and then an open mate granting push has the whole doc |
| Convergence.RestingPeersAgree | crates/okayeg-net/src/lib.rs:249-327 | wherever any run comes to rest, peers linked by a chain of open, fully granted live sessions have equal docs, if no end in the chain is behind a one-shot import |
| Convergence.LiveOnlyNotBehind | crates/okayeg-net/src/lib.rs:249-327 | no end is behind at a peer that never ran a one-shot exchange |
| Convergence.NextChangeCatchesUp | crates/okayeg-net/src/lib.rs:249-327 | an end that a one-shot import left behind has delivered everything wherever the run next comes to rest after a write or a live import at its peer, if no one-shot import moves that doc afterwards |
| Convergence.EchoDiesOut | crates/okayeg-net/src/lib.rs:249-327 | with no commits and no new connections there is no endless run from any reachable state |
| Convergence.StepWorks | crates/okayeg-net/src/lib.rs:269-327 | every delivery, nudge or drop lowers a lexicographic measure of open ends, missing operations, nudges and frames |
| Convergence.ComesToRest | crates/okayeg-net/src/lib.rs:249-327 | from every invariant state some deliveries and nudges lead to rest |
| Convergence.PeersConverge | crates/okayeg-net/src/lib.rs:249-327 | the liveness half: from every reachable state, one-shot exchanges elsewhere included, some deliveries and nudges lead to rest with all live sessions still open, and peers linked there by fully granted live sessions agree if no end linking them is behind and none of them has a one-shot exchange open |
| Exchange.OneShotIsExact | crates/okayeg/src/sync.rs:160-193 | every interleaving of two one-shot drivers takes exactly four deliveries, none failing; each side ends with its start united with its peer's start exactly when the peer grants pull and it grants push |
| Exchange.BothHoldTheUnion | crates/okayeg/src/sync.rs:76-80 | when the exchange is over both sides hold the union if and only if each direction is granted at both ends or has nothing to bring |
| Exchange.DoneBeforeThePeer | crates/okayeg/src/sync.rs:76-80 | between any two peers there is a run in which one side is done while the other still waits with the doc it started with |
| Exchange.OneShotAgainstLiveHost | crates/okayeg-net/src/lib.rs:202-224 | at rest against a live host the one-shot driver has finished if and only if the host grants pull and the versions differed; otherwise it waits for updates |
| Exchange.SyncedVisitHangs | crates/okayeg/src/sync.rs:261-274 | two equal copies: there is a run to rest in which the driver still waits |
| Exchange.OneShotLeavesMateBehind | crates/okayeg-net/src/lib.rs:202-224 | a run to rest in which a peer that fetched in one shot is behind and leaves its fully granted live mate without the operation |
| Frames.ParseFrame | crates/okayeg-net/src/lib.rs:332-352 | a frame of any body the writer sends reads back as the body whatever follows, and no proper part of it reads as a frame; over 64 MiB it is refused as soon as its length is there |
| Frames.FrameReader.Poll | crates/okayeg-net/src/lib.rs:340-352 | however its bytes are cut up, a read takes exactly its own frame or keeps all it took; over-long lengths fail, and so does a stream that ends before the frame does |
| Frames.FramesStayAligned | crates/okayeg-net/src/lib.rs:260-352 | with any chunking and any other select arms in between, frames handed on are an in-order prefix of those written; once all has been polled or a read has failed, one has failed if and only if a body over 64 MiB was written, and otherwise all have arrived |
| Utf8.Utf8Codec | crates/eg/src/watch.rs:357-359 | a byte string decodes to a text if and only if it is that text's encoding |
| Utf8.EncodedForm | crates/eg/src/watch.rs:357-359 | the table of section 3 of RFC 3629: how many bytes a character takes, their ranges, and what they spell |
| Utf8.NearBoundaries | crates/okayeg/src/fs.rs:427-433 | every byte position has a character boundary within three bytes on either side |
| ByteReader.ReadBytes | crates/okayeg/src/fs.rs:416-450 | for every text, offset and size the answer is `min(size, length - offset)` bytes, none past the end, each the byte of the text at its place; the widening loops always find a slice |
| ByteReader.RangesAddUp | crates/okayeg/src/fs.rs:416-450 | adjacent reads make up the wider one, and a read of everything is the whole text |
| PresenceWire.VarintRoundTrip | crates/okayeg/src/presence/wire.rs:54-81 | a varint below the type's end reads back, whatever follows |
| PresenceWire.VarintForm | crates/okayeg/src/presence/wire.rs:54-81 | a varint spells its number in base 128, lowest digit first, all but the last byte marked, in the fewest bytes |
| PresenceWire.I64RoundTrip | crates/okayeg/src/presence/wire.rs:59-62 | zigzag integers read back over the whole 64-bit range |
| PresenceWire.ValueRoundTrip | crates/okayeg/src/presence/wire.rs:54-198 | an encoded value decodes to itself at a depth bound if its height is within the bound, and is refused otherwise |
| PresenceWire.ValueTag | crates/okayeg/src/presence/wire.rs:43-68 | the first byte of a value says which kind it is, the tag of containers being left unused |
| PresenceWire.Refused | crates/okayeg/src/presence/wire.rs:122-144 | unknown tags and booleans other than 0 and 1 are refused whatever follows |
| PresenceWire.TakenFits | crates/okayeg/src/presence/wire.rs:122-198 | whatever decodes from arbitrary bytes is representable and no taller than the bound |
| PresenceWire.PresenceRoundTrip | crates/okayeg/src/presence/wire.rs:15-198 | an encoded entry list decodes to itself if every value has height at most 64, and is refused otherwise |
| PresenceWire.DecodedEntriesFit | crates/okayeg/src/presence.rs:86-100 | every list a peer manages to get decoded can be encoded again |
| PresenceWire.VisitEnum | crates/okayeg/src/presence/wire.rs:122-144 | the depth-bounded visitor decodes as the recursive grammar says, for all bytes |
| PresenceWire.VisitSeq | crates/okayeg/src/presence/wire.rs:164-170 | the list loop decodes as the grammar says |
| PresenceWire.VisitMap | crates/okayeg/src/presence/wire.rs:190-197 | the map loop decodes keys and values in order, as the grammar says |
| PresenceWire.Serialize | crates/okayeg/src/presence/wire.rs:54-68 | the serializer's bytes for every value, including the tag skipped for containers |
| PresenceWire.SerializeMap | crates/okayeg/src/presence/wire.rs:73-81 | key-value pairs go out counted and in their own order |
| PresenceStore.OwnerIsNamespace | crates/okayeg/src/presence.rs:108-111 | a slash-free owner owns exactly the keys whose first component it is |
| PresenceStore.Presence.ApplyFrom | crates/okayeg/src/presence.rs:79-106 | malformed bytes change nothing; otherwise all allowed entries and no others, as often and in that order, are merged, and the bytes returned decode to just these and are the update as it came if nothing was dropped |
| PresenceStore.Presence.ApplyOwned | crates/okayeg/src/presence.rs:113-126 | the same, an owner keeping exactly its own name and what lies under it, the host everything |
| PresenceStore.SaneIsOwned | crates/okayeg/src/presence.rs:113-126 | what is relayed decodes to exactly what the sender may write of what it sent, in order, and something is relayed exactly if there is any |
| PresenceStore.LatestWins | crates/okayeg/src/presence.rs:86-106 | after a merge each key holds one of the writes to it and none is later |
| PresenceStore.MergeOrderDoesNotMatter | crates/okayeg/src/presence.rs:86-106 | up to ties, stores that merged the same entries in any order and however often are equal |
| PresenceHub.HubKeepsOwnership | crates/okayeg-net/src/lib.rs:249-317 | in every reachable hub state each stored key was written there or sent on a session that may write it; each relayed frame holds only its origin's keys and never goes back to its origin |
| PresenceHub.RelaysNeverCollide | crates/okayeg-net/src/lib.rs:276-306 | frames relayed for two distinct slash-free namespaces never speak about one key |
| PresenceHub.RelayedInOrder | crates/okayeg-net/src/lib.rs:296-317 | as long as a session does not lag, of what was taken off its queue exactly the items of other origins were sent, once each and in order, and all that was issued was taken or is still queued |
| PresenceHub.IssuedReaches | crates/okayeg-net/src/lib.rs:276-317 | for every session then open, whatever goes on the relay is queued, sent, the peer's own, or skipped by a lag that sent the store as it then was |
| PresenceHub.PeersKnowTheLatest | crates/okayeg-net/src/lib.rs:249-317 | with nothing expired, a session whose queue is drained has told its peer of every entry set here or sent by another owner under its own keys while it was open, or of a later one for that key |
| PresenceHub.OpeningTells | crates/okayeg-net/src/lib.rs:254-258 | a session that opens is told of all the store has |
| PresenceHub.ExpiryIsExact | crates/okayeg/src/presence.rs:128-131 | expiry takes away exactly the expired keys and tells nobody |
| PresenceHub.TooDeepIsRefused | crates/okayeg/src/presence.rs:56-106 | a frame with a locally set value nested deeper than 64 is malformed to every receiver and changes nothing there; any other frame is taken |
| SharedText.MergeKeepsOthers | crates/okayeg/src/tree.rs:166-210 | merging an edit made at a base keeps every live character in order, deletes only characters visible at the base, and leaves those inserted since untouched |
| SharedText.MergeShowsEdit | crates/okayeg/src/tree.rs:166-210 | what is seen of the characters of the base and of the new ones is the edit's result, less what others deleted meanwhile |
| SharedText.MergeExact | crates/okayeg/src/tree.rs:150-164 | with nothing landed since the base the merge shows exactly the new text |
| SharedText.MergeKeepsPast | crates/okayeg/src/tree.rs:212-232 | a merge changes what no earlier frontier reads |
| Docs.PastInTip | crates/okayeg/src/tree.rs:212-232 | the content of a node at any frontier of the history can still be read off the live text |
| Docs.EditedExactly | crates/okayeg/src/tree.rs:150-164 | a text edit diffed where nothing landed since leaves the file reading exactly the text |
| Docs.EditedTip | crates/okayeg/src/tree.rs:150-210 | a text edit touches one node's text and moves no path |
| Docs.Doc.SetContentAt | crates/okayeg/src/tree.rs:183-210 | refused, changing nothing, exactly when the node was no file at the base or the base is unknown; else the edit is diffed at the base and merged |
| Docs.Doc.SetContent | crates/okayeg/src/tree.rs:156-164 | refused exactly on what is no file, seen or not; otherwise the file then reads exactly the text |
| Docs.Doc.CreateNode | crates/okayeg/src/tree.rs:71-101 | one new node with a fresh id at the free slot, files with empty content |
| Docs.Doc.Delete | crates/okayeg/src/tree.rs:115-118 | the node goes to the trash, everything else stays |
| Docs.Doc.Mov | crates/okayeg/src/fs.rs:332-338 | a move into the node's own subtree is refused and changes nothing; any other puts the node last under its new parent |
| Docs.Doc.MoveOver | crates/okayeg/src/fs.rs:332-344 | move, delete the displaced, rename: all or nothing, and well formed after |
| TreeEdits.CreateEffect | crates/okayeg/src/tree.rs:94-101 | creation adds one path, leaves every other path as it was and keeps the tree well formed |
| TreeEdits.DeleteEffect | crates/okayeg/src/tree.rs:115-118 | deletion takes away the node's path and all below it, nothing else, and keeps the tree well formed |
| TreeEdits.MovedIsLast | crates/okayeg/src/tree.rs:103-106 | a moved node is listed last under its new parent, and all other children keep their order |
| TreeEdits.CreatedIsLast | crates/okayeg/src/tree.rs:94-101 | a created node is listed last under its parent, and no other list of children changes |
| TreeEdits.ReplaceEffect | crates/okayeg/src/fs.rs:332-344 | where every path of the tree leads after a node moved over a free or cleared slot |
| Paths.JoinThenComponents | crates/okayeg/src/fs.rs:112-122 | splitting a joined path of valid names gives the names back |
| Paths.SlashSeparates | crates/okayeg/src/fs.rs:112-122 | a slash only separates: the components are those of what is before it and of what is after it |
| Paths.SlashesCollapse | crates/okayeg/src/fs.rs:112-122 | leading, trailing and doubled slashes change nothing |
| Paths.OnePiece | crates/okayeg/src/fs.rs:112-122 | a piece without a slash is one component, none if it is empty, and makes the path invalid if it is no valid name |
| DocFs.ResolveIsWalk | crates/okayeg/src/fs.rs:137-150 | a path resolves to the one node its names lead to, and fails as not a directory exactly when it goes on below something that is none |
| DocFs.ResolvePath | crates/okayeg/src/fs.rs:139-150 | the loop agrees with the specification on every path, errors included |
| DocFs.SplitParentIsWalk | crates/okayeg/src/fs.rs:245-261 | all but the last name lead to the top or to a directory |
| DocFs.SplitParentIsExact | crates/okayeg/src/fs.rs:245-261 | the parent of a path is found exactly when the names before the last lead to the top or a directory; and exactly when each error is raised |
| DocFs.SplitParentPath | crates/okayeg/src/fs.rs:247-261 | the loop agrees with the specification on every path, errors included |
| DocFs.CreateAt | crates/okayeg/src/fs.rs:263-281 | errors in the source's order; on success exactly one path appears, with a fresh node of the kind asked for, an empty one if a file, and no other node changes; on error nothing does |
| DocFs.RemoveAt | crates/okayeg/src/fs.rs:283-308 | which error is raised when; on success that path and all below is gone and no other; on error nothing changes |
| DocFs.CheckRename | crates/okayeg/src/fs.rs:313-330 | the imperative checks come to the verdict the rename theorems are about |
| DocFs.RenameSucceedsIf | crates/okayeg/src/fs.rs:310-345 | a rename succeeds if and only if the source leads to a node, the target names a slot at the top or in a directory and does not lie inside the node, and the slot is free or holds the node itself, a non-directory for a non-directory, or an empty directory for a directory |
| DocFs.RenameFailsIf | crates/okayeg/src/fs.rs:310-345 | each error is raised if and only if what it says is the first thing wrong, in terms of where paths lead, kinds and children |
| DocFs.BeneathIsPrefix | crates/okayeg/src/fs.rs:332-338 | a place lies in a node or below it exactly when its path begins with that of the node |
| DocFs.PlanCanReplace | crates/okayeg/src/fs.rs:313-330 | a rename that passes its checks displaces at most one node, with nothing beneath it, and never the moved node or an ancestor of the target |
| DocFs.Rename | crates/okayeg/src/fs.rs:313-345 | exactly the planned replacement on success; on any error the history is untouched |
| DocFs.RenameIsExact | crates/okayeg/src/fs.rs:310-345 | after a rename `to` and all below it is what `from` and all below it was, nothing is left at `from`, every other path is as before, and the tree is well formed |
| DocFs.RenameLosesNothing | crates/okayeg/src/fs.rs:310-345 | every node reachable before, but for the one displaced, is reachable after, with its `from` prefix replaced by `to` |
| Listing.WalkAll | crates/okayeg/src/fs.rs:200-223 | the stack walk ends and lists each node reachable through valid names exactly once, under its path, with the last name of that path and its kind, and misses none |
| Listing.PathOf | crates/okayeg/src/fs.rs:225-243 | the path of a node exists exactly when some valid path leads to it, and is that path |
| Workspaces.Disk.ReadDir | crates/eg/src/workspace.rs:130-148 | exactly the entries directly under a directory, each once; fails exactly when there is no such directory |
| Workspaces.Disk.WriteFile | crates/eg/src/workspace.rs:154-161 | creates the directories above and replaces the contents; fails exactly when a directory or a file is in the way |
| Workspaces.Disk.CreateDir | crates/eg/src/workspace.rs:179-184 | creates the directory and those above; fails exactly when a file is in the way |
| Workspaces.Disk.RemoveDir | crates/eg/src/workspace.rs:190-195 | removes a directory exactly when it is there and empty; asked for the root it does nothing |
| Imports.ImportDir | crates/eg/src/bridge.rs:53-106 | below the directory the doc comes to show exactly what disk keeps there; no other path and no existing node changes |
| Imports.ImportTree | crates/eg/src/bridge.rs:45-51 | an empty doc comes to show exactly the directories and text files that are not left out, with their text |
| Imports.KeptIsExact | crates/eg/src/bridge.rs:53-106 | what import takes in: exactly directories and text files outside `.eg` that are neither ignored nor below an ignored directory, with their text |
| Exports.ExportNode | crates/eg/src/bridge.rs:137-177 | of the paths through one node exactly those the tree shows are written and planned; the writes cannot fail and all else on disk stays |
| Exports.ExportTree | crates/eg/src/bridge.rs:116-130 | every file and directory the tree shows is on disk with its bytes and in the plan with its node; nothing of root `.eg`, nothing unsafe or ignored is written, and all else stays |
| Exports.ShownIsExact | crates/eg/src/bridge.rs:108-177 | what export writes: exactly the nodes at safe paths outside `.eg` that are neither ignored nor below an ignored directory, by their kind |
| Imports.ImportThenExport | crates/eg/src/bridge.rs:45-177 | exporting an imported workspace into an empty one gives back exactly the directories and text files neither side leaves out, byte for byte |
| Imports.SnapshotThenRestore | crates/eg/src/bridge.rs:16-42 | the same of a snapshot restored into an empty directory, run through the import and export methods |
| Seeding.Seed | crates/eg/src/watch.rs:46-98 | the iterative walk ends and tracks exactly the paths on which disk and doc agree, with the present frontier and the node there |
| Seeding.SeedAfterExport | crates/eg/src/watch.rs:46-98 | seeding right after an export tracks exactly the files and directories the export planned |
| Watching.EnsureDir | crates/eg/src/watch.rs:434-443 | every missing component becomes a new directory node, existing nodes and other paths stay, and nothing happens if the path was there |
| Watching.MergeText | crates/eg/src/watch.rs:388-396 | nothing if the text agrees or the node is no file; otherwise a merge diffed at the recorded base, or at the live text where the base does not know the node |
| Watching.TakeFile | crates/eg/src/watch.rs:355-397 | a file without a node is skipped if it is an echo of its base and otherwise minted with exactly its text; one with a node is merged |
| Watching.ApplyPath | crates/eg/src/watch.rs:346-407 | what each of directory, text file, other file and nothing at the path does to the doc |
| Batches.StepPath | crates/eg/src/watch.rs:346-407 | a changed path makes paths only towards what is on disk, takes paths away only where it is gone, and never moves one |
| Batches.ApplyBatch | crates/eg/src/watch.rs:228-265 | the doc goes through one step a path; bases of reported files that have a node move to the new frontier, agreeing or not, and those of gone paths are dropped; the result says whether the doc changed |
| BatchEffects.EchoFixpoint | crates/eg/src/watch.rs:228-407 | when disk equals the export of the doc, files that are not text aside, a batch of any non-ignored paths outside `.eg` leaves the doc as it was |
| BatchEffects.BatchDeletes | crates/eg/src/watch.rs:400-405 | a reported path that is gone from disk has no node after the batch, whatever else the batch holds |
| BatchEffects.BatchSkipsDead | crates/eg/src/watch.rs:366-386 | no batch brings back a deleted file whose bytes are those last written |
| BatchEffects.DirComesBack | crates/eg/src/watch.rs:352-386 | a directory on disk without a node has one after a batch if and only if the batch reports it, a directory below it or a text file below it |
| BatchEffects.DirStaysAway | crates/eg/src/watch.rs:352-386 | with none of these reported, a path without a node that is no file gets none |
| BatchEffects.BatchMints | crates/eg/src/watch.rs:366-396 | a batch with an edited file that lost its node mints one new file node reading exactly the bytes, and it lasts to the end of the batch |
| BatchEffects.BatchMerges | crates/eg/src/watch.rs:388-396 | after a batch a file edited on disk is its live text with the disk's text merged in, diffed at its recorded base |
| BatchEffects.BatchLeavesAgreeing | crates/eg/src/watch.rs:388-390 | a file whose text is what disk says is left alone by every batch |
| BatchEffects.IngestKeepsPeerEdits | crates/eg/src/watch.rs:10-17 | such a merge keeps what peers put in since the base, deletes only what was visible at the base, and is exactly the disk's text if nothing landed |
| Pruning.PruneFiles | crates/eg/src/watch.rs:151-188 | exactly the tracked, unwritten files whose bytes equal their base go; bases of gone files are dropped; local edits keep file and base |
| Pruning.DeepestFirst | crates/eg/src/watch.rs:194-199 | the candidates once each, none before a deeper one |
| Pruning.PruneDirs | crates/eg/src/watch.rs:190-223 | one pass removes exactly the candidate directories with nothing below them but candidate directories |
| Pruning.EmptyIfClearable | crates/eg/src/watch.rs:194-211 | tried deepest first, a directory is found empty if and only if all below it could be cleared |
| Pruning.AdvanceAndPrune | crates/eg/src/watch.rs:114-140 | bases and directories move up to what was written, then both passes run; says how many files were written |
| LiveLoops.LiveLoop.constructor | crates/eg/src/net.rs:632-642 | the loop starts from exactly what disk and doc agree on, in a state that satisfies its invariant |
| LiveLoops.ChangedPaths | crates/eg/src/net.rs:726-743 | the paths touched under the root, each once, without the root and without anything in `.eg` |
| LiveLoops.EgressAddsUp | crates/eg/src/net.rs:698-720 | what export, advance and the two prune passes amount to for every path |
| LiveLoops.LiveLoop.Ingest | crates/eg/src/net.rs:661-690 | one batch of the touched paths is applied, whether or not disk and doc clash elsewhere; the nudge fires exactly when the doc changed; the loop's invariant is kept |
| LiveLoops.LiveLoop.Egress | crates/eg/src/net.rs:698-720 | disk, bases and tracked directories after one export and prune; the loop's invariant is kept |
| LoopRuns.AlwaysGood | crates/eg/src/net.rs:632-723 | in every state of every run bases name frontiers of the past and nothing in `.eg` is tracked |
| LoopRuns.NoResurrection | crates/eg/src/watch.rs:161-188 | over every interleaving a deleted, unmodified tracked file never gets a node again; from the first egress on it is off the disk and its base dropped |
| LoopRuns.DeleteIsForgotten | crates/eg/src/watch.rs:246-262 | once a local delete is reported its path has no node and no base, so that whatever is written there later counts as new |
| LoopRuns.RacedLasts | crates/eg/src/watch.rs:161-188 | over every interleaving an edited file whose node is gone, text or not, keeps its bytes through every egress until it is reported |
| LoopRuns.EditWins | crates/eg/src/watch.rs:366-396 | the first ingest that reports such a file, if it is text, mints one new node reading exactly those bytes |
| LoopRuns.IngestMerges | crates/eg/src/watch.rs:388-396 | one ingest of a locally edited file keeps every character peers put in since the recorded base, deletes only what showed there, and is exact if nothing landed |
| LoopRuns.EgressThenQuiet | crates/eg/src/net.rs:657-720 | one egress that left at the reported paths only what the doc shows is followed by no nudge; `Settling.LoopFallsQuiet` shows how a run gets there |
| LoopRuns.SubtreeGone | crates/eg/src/watch.rs:143-224 | one egress takes a whole deleted subtree off the disk, and out of the tracked directories, if all of it is tracked and unmodified |
| LoopRuns.EgressRemovesOnly | crates/eg/src/watch.rs:143-224 | an egress removes a file only if it was not written and still equals its base, and a directory only if nothing is left in it |
| LoopRuns.DirGoneForGood | crates/eg/src/watch.rs:190-224 | over every run, a deleted directory whose contents are tracked and unmodified is off the disk and untracked for good from the first egress on, if no ingest before it reports anything that brings it back |
| Crossings.BaseIsLastCrossing | crates/eg/src/watch.rs:10-17 | in every state of every run from seeded bases, the base of a path is the frontier of the last egress that wrote it or ingest that reported it, or of the start, where disk and doc agreed |
| Crossings.NextIngest | crates/eg/src/net.rs:627-631 | over whole runs: at the next ingest everything put in since the last crossing survives and only what the doc showed then can be deleted; with none of that deleted by others, the ingest leaves the doc alone exactly when disk says what the doc said then or says now, and where disk shows part of that it deletes exactly when it shows less |
| Crossings.SurvivesIfShown | crates/eg/src/net.rs:627-631 | with the file as the last crossing left it, showing no more than the doc did, and none of that deleted by others, the next ingest deletes something if and only if disk and doc differed at that crossing |
| Crossings.EgressAgrees | crates/eg/src/net.rs:698-720 | an egress that writes a file leaves disk and doc alike on it, with the base at that frontier |
| Crossings.IngestAgrees | crates/eg/src/watch.rs:240-257 | with nobody having deleted what showed at its base, an ingest that merges leaves disk and doc alike if and only if nothing put in since was visible; otherwise the doc shows what disk does and more |
| Crossings.MergeVerdict | crates/eg/src/watch.rs:388-396 | a merge whose base text nobody deleted from changes the doc exactly when disk differs from that text, and if disk shows part of it deletes exactly when it shows less |
| Crossings.SecondIngestUndoes | crates/eg/src/watch.rs:240-257 | of two ingests of the same bytes in a row the second leaves the file reading exactly those bytes, whatever the first had kept |
| Settling.LoopFallsQuiet | crates/eg/src/net.rs:618-723 | once neither peers nor programs change anything and every path on disk that is not left out has been reported, the next egress leaves disk and doc agreeing on all such paths, and no later ingest of any of them, egresses in between or not, changes the doc or nudges again |
| Settling.ReportedIsTakenIn | crates/eg/src/watch.rs:346-407 | while the loop is alone, what was reported or was not there at the start has a node, is not text, or is an echo of a deleted node, through every ingest and egress |
| LeftOut.LeftOutGoesOnceReported | crates/eg/src/ignore.rs:3-4 | over every run an untracked left-out file is untouched until an ingest reports it; from then on it is off the disk once an egress has come, for good, if and only if it was text and the doc had nothing or a file at its path |
| LeftOut.LeftOutIsSafe | crates/eg/src/ignore.rs:3-4 | over every run an untracked left-out file that no ingest reports keeps its bytes and stays untracked, whatever peers do |
| LeftOut.ReportedAlikeGoes | crates/eg/src/watch.rs:151-188 | any left-out file, tracked or not, whose path has a node after a report is off the disk from the next egress on if and only if that ingest left disk and doc alike |
| LeftOut.UntrackedTaken | crates/eg/src/watch.rs:355-396 | an ingest of an untracked file leaves it an echo exactly when it is text and the doc has nothing or a file there, and then disk and doc are alike |
| LoopWitnesses.SecondIngestLoses | crates/eg/src/watch.rs:240-257 | a run in which a second ingest before any egress deletes what a peer typed |
| LoopWitnesses.LateReportRevives | crates/eg/src/watch.rs:355-386 | a run in which the late report of an unmodified file gives its deleted directory a new node and keeps it on disk |
| LoopWitnesses.LeftOutFileIsLost | crates/eg/src/ignore.rs:3-4 | a run in which a left-out file is taken into the doc, taken off the disk, and then deleted from the doc |
| WriteBack.Writeback.Seeded | crates/eg/src/mount.rs:370-389 | a buffer is seeded with the file's bytes and the present frontier, once; fails exactly on what is no file |
| WriteBack.Writeback.Write | crates/eg/src/mount.rs:345-358 | the file then has the data at its offset, its other bytes as before and zeros in any gap, and is just long enough; base and other files stay |
| WriteBack.Writeback.Truncate | crates/eg/src/mount.rs:360-368 | the file then has the size asked for, its bytes as before and zeros past its old end; base and other files stay |
| WriteBack.Writeback.Commit | crates/eg/src/mount.rs:391-424 | the buffer is merged into the doc, diffed at its base, and dropped; other files see nothing |
| WriteBack.Writeback.CommitStale | crates/eg/src/mount.rs:401-413 | exactly the buffers last written at least the ceiling ago are committed, one by one |
| WriteBack.Writeback.Discard | crates/eg/src/mount.rs:440-443 | a dropped buffer leaves the file reading as the doc has it, and every other file as before |
| WriteBack.Writeback.ReadBuffer | crates/eg/src/mount.rs:425-432 | `min(size, length - offset)` bytes of a dirty buffer, none past its end, each the byte at its place |
| WriteBack.Writeback.Read | crates/eg/src/mount.rs:742-766 | reads see the dirty buffer if there is one and the doc's text otherwise, always as an exact byte range; fails exactly on what is no file |
| WriteBack.Writeback.Size | crates/eg/src/mount.rs:527-551 | the size reported is that of the same bytes a read sees |
| WriteBack.CommitKeepsImage | crates/eg/src/mount.rs:415-424 | with nobody else editing the file, committing valid UTF-8 changes nothing a reader sees |
| WriteBack.CacheIsByteFile | crates/eg/src/mount.rs:335-444 | through any writes, truncates and commits the file reads as one byte array written and truncated directly |
| WriteBack.BaseIsFirstSeed | crates/eg/src/mount.rs:324-389 | a buffer's diff base is the frontier of the write that seeded it for as long as the buffer lives |
| WriteBack.CommitKeepsOthers | crates/eg/src/mount.rs:415-424 | a commit of a file others edited keeps every character they put in since the base |

## Left out

- Loro itself is not part of this model: its text diff, tree CRDT, forks, cursors and ephemeral store appear as sets of operations, a history of trees, a merge relation and a last-write-wins map.
- Encodings of version vectors and updates are values that decode or do not; export errors of the library are not modelled.
- Docs.Doc.Update: the script is one fixed diff of old and new text; the lemmas about merges hold for every script that turns the one into the other.
- Docs.Doc.ImportPeer: takes only trees with unique sibling names and children under directories alone, which merges of concurrent edits need not keep.
- The select loop and the channels of the transport are transition systems over values, not async code; dialing, authorization, refusal frames and timeouts are left out.
- Wall-clock time: presence expiry and lag are events that may happen at any point, staleness of buffers is a number handed in.
- Listing.WalkAll: says what is listed, not in which order; the same holds of the plan of Exports.ExportTree.
- Docs.Doc.CreateNode: asks for a free slot at the top or under a directory; the source also creates beside a sibling of the same name, which only concurrent edits bring about.
- Imports.ImportTree: starts from a doc without nodes, as every caller in the source does.
- Exports.ExportNode: asks that no path is a file on one side and a directory on the other; the I/O error of the source in that case is not modelled.
- Exports.ExportTree: the same.
- Watching.EnsureDir: asks that a directory on disk with a node has a directory node; the source would go on below a file node.
- Watching.TakeFile: asks that a directory on disk with a node has a directory node.
- Watching.ApplyPath: asks that a directory on disk with a node has a directory node.
- Batches.ApplyBatch: asks that a directory on disk with a node has a directory node.
- LiveLoops.LiveLoop.Ingest: asks that a directory on disk with a node has a directory node.
- Workspaces.Disk.WriteFile: the directories a failing call of the source may leave behind are not modelled.
- Workspaces.Disk.CreateDir: the same.
- Settling.LoopFallsQuiet: is about paths that are not left out; reports of the others can go on changing the doc, as `LoopWitnesses.LeftOutFileIsLost` shows. Boundary nodes are taken not to be there.
- Imports.ImportDir: entries are taken in any order where the source sorts them by name, so the order of siblings is not stated; the file count is not modelled.
- Permissions, symbolic links and read errors of the file system.
- LiveLoops.LiveLoop.Egress: the snapshot written to `.eg` before each export is not modelled, and neither is an egress that fails half way.
- Paths that are not valid UTF-8, and event paths with `.` or `..` components.
- WriteBack.Writeback.Write: `offset + len` is unbounded where the source adds machine words.
- WriteBack.Writeback.Commit: what the text library makes of bytes that are not UTF-8 is an unspecified text.
- The inode table, modification times, FUSE replies, hooks, trust, configuration, comments, the browser client and the command line.
