# Verified model of an AT Protocol personal data server

This project models the storage core of a personal data server: the Merkle
search tree a repository is kept in, the commits written over it, the tables
kept beside it, and the smaller protocols around them. It proves what the
server's own tests and documentation promise of them, for every input, every
run or every interleaving. `dafny verify dfyconfig.toml` checks all of it.

A hash is a free term over what it hashes (`Data.Cid`), so two blocks share an
identifier exactly when they are the same block. SHA-256 as the source of a
key's layer is left as an arbitrary function, and so are the readers of links
and blob references; nothing proved depends on which functions they are. The
CID, header, base64 and JSON text codecs of the libraries the server uses are
arbitrary functions with their round trip stated as a hypothesis (`Faithful`).
The clock, the random ids, the directory and the outcome of every network call
are parameters or nondeterministic.

## How it is laid out

| files | what they hold |
|---|---|
| `Data`, `Keys` | values, keys and their order, the layer a key's digest gives it |
| `Tree`, `TreeOps`, `History` | the tree as a value, its operations, and whole runs of writes |
| `Codec`, `Nodes` | stored nodes, CIDs, and what a tree reaches |
| `Mst`, `Reading`, `Storing`, `Writing`, `Inserting`, `Deleting`, `Operations` | the lazily loaded tree, method by method, held to the tree as a value |
| `Proofs` | proofs for one key, and trees read back from what was written |
| `Diff`, `Dropped` | the two cursors in lockstep, and what one revision drops |
| `Tid`, `Repo`, `Index`, `Planning`, `Actor`, `Manager`, `Writers` | the commit pipeline, from requested writes to interleaved writers |
| `Car`, `Export`, `Json` | files and text a repository travels in |
| `Limiter`, `Sessions`, `Registration` | rate limits, refresh tokens, directory registration |

The main results, each with the lemma or method that ends it:

- **One tree for one set of records.** A canonical tree is a function of its
  records (`Tree.CanonicalIsUnique`, `History.CanonicalIsBuilt`), every write
  keeps the canonical form exactly where `History.Settled` says
  (`History.AddCanonical`), and so settled runs that come to the same records
  leave the same tree, however often it is read afresh between
  (`History.HistoryIndependence`). Carried up to stored accounts: two accounts
  whose batches were all calm, which their records tell beforehand, and whose
  records are the same are over the same root (`Actors.SameRecordsSameRoot`).
- **The lazily loaded tree is that tree.** Every operation on it, the diff
  included, ends on any store, cyclic or shared, reads a block at most once per
  reader and is refused past 256 levels. On a store that tells the truth it
  answers what the tree as a value answers or names a missing block, and a
  well-formed tree that is all there is never refused.
- **Proofs are sound and complete** for held and missing keys, from the commit
  down (`Proofs.Prove`, `Proofs.CheckProof`).
- **The diff is exact on nodes**, misses nothing, and over-reports only records
  the new tree still holds (`Dropping.Dropped`).
- **Storage is exact over every run.** A store holding exactly one revision
  holds exactly the next after every landed commit. The record table, backlinks
  and blob references are what they would be if recomputed from the tree, and
  every file a blob row needs is there (`Actors.Actor.Commit`, `Managing.Write`).
- **The log tells a batch both ways.** Its operations take the records before to
  the records after and back again (`Planning.LogReplays`,
  `Planning.LogUndoes`); where a batch writes no key twice they are the
  difference itself (`Planning.LogIsDifference`).
- **History is linear under any interleaving of writers**
  (`Writers.LinearHistory`), and a download since a revision, with that
  revision's own blocks, covers the repository as it is
  (`Exporting.ExportSinceCompletes`).

Some claims hold under a condition rather than outright, and the condition is
proved to be the exact one.

- An add keeps the canonical form if and only if it is settled. Emptying a tree
  in memory leaves its cached layer behind, and a lower add before the tree is
  read again builds a chain of lone pointers (`History.StaleLayer`). A history
  of one write a commit never does this (`History.ReloadedIsSettled`).
- A limiter whose budget is below the 32-bit maximum keeps it, window by window,
  over exactly the runs that turn no key away past it in any stretch of a
  window's length (`Limiting.KeptExactly`). A full table lets a new key through
  uncounted, so no budget at all is kept by every run, at once or a point a tick
  (`Limiting.FullTableLeaks`, `Limiting.DripLeaks`). Over runs with room for
  every key, as any run over few enough keys is (`Limiting.FewKeysFit`), the
  budgets kept are exactly those below the maximum (`Limiting.KeptWithRoom`).
  Windows of one key can meet end to end, so a stretch that straddles two may
  see twice the budget, and never more than that and what was overlooked in it
  (`Limiting.SpanBound`).
- A write lands if and only if nothing stands in its way that its caller could
  have looked up: the root, the records, the swap it named, the clock and the
  blob rows decide the answer between them (`Managing.Attempt`,
  `Index.NoObjection`).
- A signup may discard an account the directory holds if and only if its caller
  would hang up while the reserved key is being released, having let it get that
  far (`Registration.OneWindow`). One that returns never does
  (`Registration.ReturningIsSafe`).

Where the documentation and the code differ the code is followed: `docs/repo.md`
line 29 has a commit carry the previous commit's CID, and
`src/repo/commit.rs` lines 56-64 always write it as null.

## Model

| member | source | states |
|---|---|---|
| `Keys.LeadingZeros` | src/repo/mst.rs:992-1001 | the loop over a key's digest counts the pairs of zero bits it opens with: twice that many bits are 0, and one of the next two is 1 unless there are none left |
| `Keys.FirstDifference` | src/repo/mst.rs:710-716 | a key is below another exactly where the first byte they differ in is, or it is the other cut short |
| `Keys.ValidIsPair` | src/repo/mst.rs:1007-1023 | a tree takes exactly the keys of at most 1024 bytes made of two non-empty parts of allowed bytes and one slash between them |
| `Keys.KeyBytes` | src/repo/mst.rs:1025-1027 | the allowed bytes are the ASCII letters and digits and five marks |
| `Keys.KeyOfSplits` | src/repo.rs:164-167 | two collections and record keys land at one key only where both are the same, and a key opens with its collection |
| `Tree.OneShape` | src/repo/mst.rs:104-125 | two nodes that fit one layer over the same listing of records are the same node |
| `Tree.CanonicalIsUnique` | src/repo/mst.rs:1083-1095 | two canonical trees holding the same key-to-CID map are equal, whatever order the records came in |
| `TreeOps.LookupIsContents` | src/repo/mst.rs:174-191 | on every well-formed tree a lookup answers Some exactly for held keys, with the map's value |
| `TreeOps.SplitCuts` | src/repo/mst.rs:587-613 | splitting keeps every record on the side its key says and leaves both halves well formed |
| `TreeOps.MergeJoins` | src/repo/mst.rs:617-639 | merging two nodes of one layer keeps both listings in order and the shape |
| `TreeOps.InsertAdds` | src/repo/mst.rs:447-522 | an insert fails exactly where the key is held and otherwise adds that one record in its place, well formed at the higher of the two layers |
| `TreeOps.UpdateChanges` | src/repo/mst.rs:244-272 | an update fails exactly where the key is absent and otherwise changes that one record |
| `TreeOps.DeleteRemoves` | src/repo/mst.rs:524-565 | a delete fails exactly where the key is absent and otherwise removes that one record, through every merge |
| `TreeOps.TrimTops` | src/repo/mst.rs:567-583 | trimming keeps the records and leaves a top that holds a leaf or nothing |
| `History.FindsLayer` | src/repo/mst.rs:678-707 | the layer found by looking is the layer a non-empty well-formed tree fits at |
| `History.StepRefines` | src/repo/mst.rs:229-284 | every write answers what the same write on a map answers, error for error, and keeps the tree well formed |
| `History.AddCanonical` | src/repo/mst.rs:447-522 | an add to a canonical tree leaves a canonical tree if and only if the tree is not empty or its remembered layer is not above the key's |
| `History.StepCanonical` | src/repo/mst.rs:229-284 | every settled write takes a canonical tree to a canonical tree |
| `History.RunRefines` | src/repo/mst.rs:229-284 | after any run of writes and reloads the tree holds what replaying the writes on an empty map gives, and is canonical if every write was settled |
| `History.EmptiedAt` | src/repo/mst.rs:524-565 | emptying a canonical tree leaves it taken to be no higher than the record that went, and on the bottom layer where no layer was cached |
| `History.ReloadKeeps` | src/repo/mst.rs:140-147 | reading a tree afresh from its root keeps its records and its shape |
| `History.HistoryIndependence` | src/repo/mst.rs:1083-1095 | any two settled runs of writes and reloads whose writes come to the same map leave the same tree |
| `History.ReloadedIsSettled` | src/repo.rs:203-207 | a run that reads the tree afresh before every write is settled |
| `History.StaleLayer` | src/repo/mst.rs:524-565 | adding then removing a high key and adding a lower one, with no reload between, is a run that leaves a tree that is not canonical |
| `History.BuildFits` | src/repo/mst.rs:104-125 | the tree defined from a listing by layers alone fits its layer and lists exactly that listing |
| `History.CanonicalIsBuilt` | src/repo/mst.rs:104-125 | every well-formed tree is the one built from its own listing |
| `Codec.Serialize` | src/repo/mst.rs:921-954 | the writing loop succeeds exactly on entries with no adjacent subtrees and valid keys, and writes one stored entry a leaf: the longest prefix its key shares with the leaf before as a length, the rest of the key, its record and the subtree right after; otherwise it names the first entry at fault |
| `Codec.Deserialize` | src/repo/mst.rs:956-989 | the reading loop puts every key back together from the one before, each one a tree takes, and refuses a node at the first entry that shares more than there is or makes no such key |
| `Codec.RoundTrip` | src/repo/mst.rs:921-989 | decoding what was encoded restores every entry, subtrees as CIDs, whatever prefixes the keys share |
| `Codec.FirstKeyIsWhole` | src/repo/mst.rs:652-665 | the first stored key of a node is a whole key, so it gives the node's layer away |
| `Codec.CidInjective` | src/repo/mst.rs:154-172 | two well-formed trees with one root CID are the same tree |
| `Nodes.NotUnderItself` | src/repo/mst.rs:50-56 | no node of a well-formed tree is below itself, so the repeat guard never refuses one |
| `Nodes.SiblingsApart` | src/repo/mst.rs:50-56 | two subtrees of one well-formed node share no node |
| `Reading.Reader.ReadNode` | src/repo/mst.rs:50-56 | a read records the CID; one already read, one not stored and one that is no node each have their own error |
| `Reading.Fill` | src/repo/mst.rs:652-665 | loading a node reads at most one unread block and leaves a node standing for the same entries with nothing newly pending |
| `Reading.GetIn` | src/repo/mst.rs:178-191 | terminates on any store; on a truthful one the answer is the tree's own or the name of a missing block on the path |
| `Reading.RootIn` | src/repo/mst.rs:158-166 | the root of a loaded or unloaded node is the CID of the entries it stands for |
| `Reading.NodeDataIn` | src/repo/mst.rs:730-733 | a node's stored form is the encoding of the entries it stands for |
| `Reading.FindLayer` | src/repo/mst.rs:685-707 | terminates on any store; finds the layer the entries are at, or none where there are none |
| `Reading.LayerIn` | src/repo/mst.rs:678-683 | the layer worked out is cached and is the one the entries fit |
| `Reading.CidsForPathIn` | src/repo/mst.rs:206-221 | terminates on any store; on a truthful one the CIDs are exactly the nodes down to the key and the record there, or a node of that path is named as missing |
| `Storing.CollectLeaves` | src/repo/mst.rs:718-727 | lists every record of the tree in key order, or names a missing block |
| `Storing.UnstoredIn` | src/repo/mst.rs:311-326 | returns the root and exactly the blocks met on the way down that are not stored |
| `Storing.UnstoredBelow` | src/repo/mst.rs:311-326 | the same over every subtree of a node that has been read |
| `Writing.SplitAround` | src/repo/mst.rs:587-613 | the lazy split leaves two nodes standing for the two halves of the split value |
| `Writing.AppendMerge` | src/repo/mst.rs:617-639 | the lazy merge leaves a node standing for the merged value |
| `Inserting.Raise` | src/repo/mst.rs:641-646 | raising a half wraps it in as many lone pointers as asked and nothing else |
| `Inserting.InsertAbove` | src/repo/mst.rs:447-522 | a key above the whole tree ends between its two raised halves, as on values |
| `Inserting.InsertIn` | src/repo/mst.rs:447-522 | the lazy insert answers as the insert on values does, and what it leaves stands for its result |
| `Inserting.InsertUnder` | src/repo/mst.rs:447-522 | a key below the layer goes into the left neighbour or a new subtree, as on values |
| `Inserting.InsertBeside` | src/repo/mst.rs:447-522 | a key of the layer goes between the halves of the subtree that spanned it, as on values |
| `Deleting.UpdateIn` | src/repo/mst.rs:248-272 | the lazy update answers as the update on values does |
| `Deleting.DeleteRecurse` | src/repo/mst.rs:524-565 | the lazy delete answers as the delete on values does |
| `Deleting.RemoveAt` | src/repo/mst.rs:524-565 | taking out a found leaf merges the subtrees either side where both are there |
| `Deleting.TrimTop` | src/repo/mst.rs:567-583 | the lazy trim leaves a node standing for the trimmed value |
| `Operations.Get` | src/repo/mst.rs:174-176 | on a truthful store, the tree's own answer or a missing block of the path; on a whole one always an answer |
| `Operations.CidsForPath` | src/repo/mst.rs:202-204 | on a truthful store, exactly the path to the key or a block of it that is missing; on a whole one always the path |
| `Reading.PathDescends` | src/repo/mst.rs:193-221 | the path to a key is the root and, one in another, the subtrees it falls in, each past the leaf before it and short of the one after; then its record, exactly where the tree holds the key |
| `Operations.ListLeaves` | src/repo/mst.rs:291-299 | on a whole tree, exactly its records in key order |
| `Operations.UnstoredBlocks` | src/repo/mst.rs:307-309 | on a whole tree, its root CID and exactly the unstored blocks, each hashing to its CID |
| `Operations.Add` | src/repo/mst.rs:229-237 | on a whole tree an add is the add on values and leaves a whole tree |
| `Operations.Change` | src/repo/mst.rs:244-272 | on a whole tree an update is the update on values and leaves a whole tree |
| `Operations.Remove` | src/repo/mst.rs:278-286 | on a whole tree a delete is the delete and trim on values and leaves a whole tree |
| `Proofs.Prove` | src/account.rs:945-968 | a proof is given exactly where the store holds the commit and every block of the path, and is those blocks; otherwise it names the missing or undecodable commit or a block of the path that is missing |
| `Proofs.Gather` | src/account.rs:961-966 | the blocks under some CIDs are handed over exactly where all are there, and otherwise one that is not is named |
| `Proofs.CheckProof` | src/repo/mst.rs:174-221 | from a trusted commit CID, any honest blocks that answer give the full tree's answer, and the commit with the path's nodes always answers, for held and absent keys |
| `Proofs.UnstoredCompletes` | src/repo/mst.rs:307-326 | stopping at the first stored node leaves no node out, over a store closed for the tree |
| `Proofs.ClosedByTree` | src/repo/mst.rs:307-326 | a store whose nodes are those of one tree is closed for any other |
| `Proofs.ReadsBack` | src/repo/mst.rs:307-326 | a written tree loads back from its root to the same entries at the same layer with nothing missing |
| `Diff.LevelOf` | src/repo/mst.rs:779-789 | opening a node reads a new block or finds no more than was loaded; on a tree that stands for entries it opens exactly those, or names a missing block |
| `Diff.Walk` | src/repo/mst.rs:804-813 | a walk starts with everything the tree reaches ahead of it, or names a missing block |
| `Diff.Climb` | src/repo/mst.rs:865-882 | moving on pops every ended level and leaves exactly what was ahead past the cursor, on any stack |
| `Diff.Walker.Current` | src/repo/mst.rs:846-863 | the CID under the cursor is the record's or the subtree's own; past the end it is an error |
| `Diff.Walker.StepOver` | src/repo/mst.rs:865-882 | passes exactly the entry under the cursor, subtree and all, reading nothing, and leaves less loaded ahead |
| `Diff.Walker.StepInto` | src/repo/mst.rs:884-909 | on any walk, fails or reads a new block or leaves less loaded ahead; refuses a leaf; on a good one puts the subtree's own block behind and what it holds ahead, or names a missing block |
| `Diff.Walker.Advance` | src/repo/mst.rs:911-918 | passes a leaf or steps into a subtree, and comes nearer the end or fails |
| `Dropping.PassedLeft` | src/repo/mst.rs:743-756 | cancelling on sets keeps the tally right when the walk of the old tree passes a block |
| `Dropping.PassedRight` | src/repo/mst.rs:743-756 | cancelling on sets keeps the tally right when the walk of the new tree passes a block |
| `Dropping.PassedBoth` | src/repo/mst.rs:336-434 | skipping equal subtrees unread keeps the tally right |
| `Dropping.Turn` | src/repo/mst.rs:336-434 | each turn of the loop on any walks fails or brings them nearer their end, and on good ones keeps the tally |
| `Dropping.Dropped` | src/repo/mst.rs:336-434 | ends on any trees and any store; on two that stand for entries it gives every CID the old tree reached and the new one does not, no node of the new tree and nothing the old tree did not reach, or names a missing block of either |
| `Tid.OrderIsNumeric` | src/syntax/tid.rs:105-121 | byte order on digit strings of one length is the order of their values |
| `Tid.FoldFits` | src/syntax/tid.rs:105-112 | on a valid TID every step of the fold stays below 2 to the 64 |
| `Tid.PartsRoundTrip` | src/syntax/tid.rs:99-135 | parts come back modulo 2 to the 53 and 2 to the 10, from a valid TID |
| `Tid.PartsPacked` | src/syntax/tid.rs:99-104 | a TID is its microsecond times 1024 and its clock id, each cut to its width |
| `Tid.Alphabet` | src/syntax/tid.rs:112-135 | the digits are 2 to 7 and a to z, in that order |
| `Tid.TidFits` | src/syntax/tid.rs:15-34 | thirteen digits are a TID exactly where their value fits 64 bits |
| `Tid.Clock.Mint` | src/syntax/tid.rs:68-78 | mints the later of now and one past the last, capped at the last microsecond |
| `Tid.Clock.MintAfter` | src/syntax/tid.rs:62-65 | None exactly where no microsecond past the clock and the TID fits the field, and otherwise the first one past both that is not before now, or the last there is, above everything minted before |
| `Tid.LaterSortsAbove` | src/syntax/tid.rs:62-78 | a TID with a later microsecond sorts above as a string |
| `Repo.RecordIsNoNode` | src/repo.rs:227-237 | a record that passes the collection check encodes as no node and no commit |
| `Repo.Perform` | src/repo.rs:239-273 | one write against the tree is the same write against the map, error for error |
| `Repo.WriteIs` | src/repo.rs:239-273 | a create takes a free key, an update and a delete a held one, a put either, all but a delete a valid one; the write leaves its record there or nothing, and every other key as it was; each refusal has its own error |
| `Repo.NamelessIs` | src/repo.rs:227-237 | a batch is refused for its names exactly where some record that is a map has no `$type` text equal to its collection |
| `Repo.RunBatch` | src/repo.rs:239-273 | a batch is the batch against the map, the blocks kept are where each written key ended, and a calm batch on a freshly read canonical tree leaves a canonical one |
| `Repo.ShortIsCalm` | src/repo.rs:239-273 | one or two writes, or any batch without a delete in its middle, are calm |
| `Repo.SettlesExactly` | src/repo.rs:274-302 | storing what is written and forgetting what is dropped, short of records still held, turns exactly one revision's blocks into exactly the next's |
| `Repo.LoadRepository` | src/repo.rs:203-207 | opens the commit under a CID over its unread tree, or says that there is no block under it or that it is no commit |
| `Repo.Repository.Apply` | src/repo.rs:220-303 | on any store, changes nothing or moves to a later revision of the account, the first past the clock and the last one that is not before now; on a store of exactly this repository it fails exactly where a record names no collection, a write is one the records refuse or there is no later revision, in that order and with that error, and otherwise applies the whole batch, settles the store and keeps the canonical form through a calm batch |
| `Repo.Repository.Sign` | src/repo.rs:274-302 | on any store, changes nothing or signs a later commit; on a store of exactly this repository it fails exactly where the clock or the revision is at the end of the field, and otherwise what it writes and drops settles the store |
| `Index.Dereference` | src/store/actor.rs:569-593 | lets go of exactly one record's references and names each blob nothing else holds, once |
| `Index.Claim` | src/store/actor.rs:704-754 | fails exactly as the first naming objected to says, and otherwise ties exactly the named blobs to the record, ends their time as uploads and lists exactly those uploads |
| `Index.NoObjection` | src/store/actor.rs:704-754 | nothing is objected to exactly where every blob named has a row and each still an upload is of the type and size its first naming says; a blob said to be missing is one named that has no row |
| `Index.ObjectionIs` | src/store/actor.rs:704-754 | what is objected to is the first naming at fault, and why: no row, or an upload still, first named here, of another type, or of another size |
| `Index.IndexItem` | src/store/actor.rs:597-665 | one indexed record keeps links, references and rows in step part way through a commit, or fails with the first objection to its blobs |
| `Index.IndexAll` | src/store/actor.rs:597-665 | fails exactly with the first objection to the blobs the whole commit names against the tables it started from, and otherwise leaves links and references equal to those of current records, a blob unclaimed exactly where no record names it, and lists exactly the blobs whose last reference went and exactly the uploads it took |
| `Index.Spare` | src/store/actor.rs:325-336 | asking once more of every spared blob leaves no row nothing holds |
| `Index.RowIsLast` | src/store/actor.rs:597-665 | a key a commit indexes ends as its last item leaves it: a row of that record under the commit's revision, or no row |
| `Planning.IndexFollowsTree` | src/account.rs:1755-1847 | the index items planned beside a batch leave the record table equal to the tree's map after it |
| `Planning.Superseded` | src/account.rs:1633-1670 | the deletes planned are of exactly the records of the same collection, one of the four held to one record of a thing, that are about the same thing, each once, and each is logged with what stood there |
| `Planning.Plan` | src/account.rs:1755-1847 | plans each request in turn with its index item, its log operation and the caller's result, or answers the first refusal; it refuses exactly where some request is refused |
| `Planning.FirstRefusalIs` | src/account.rs:1765-1802 | nothing is refused exactly where every request may be passed over or finds what its caller expects and names its blobs properly; the answer is the first other one's, with what is really there or what is wrong with a blob |
| `Planning.SpotsInOrder` | src/account.rs:1830-1833 | the caller is told of each request not passed over, in order: its key, and its record or nothing |
| `Planning.LogReplays` | src/account.rs:1803-1839 | the log's operations, done in order, take the records before a batch to those after it |
| `Planning.LogUndoes` | src/event.rs:23-35 | putting back what each operation says it replaced takes the records after a batch to those before it, even where a key is written twice |
| `Planning.LogIsDifference` | src/event.rs:23-35 | where no key is written twice, each operation's previous and present CIDs are what the records hold at its key before and after the batch, and its action is the one those two make it |
| `Planning.SpotsHold` | src/account.rs:1830-1833 | where no key is written twice, each result a caller is given is what the records hold at that key after the batch |
| `Planning.SupersedingLeavesOne` | src/account.rs:1633-1670 | a single superseding write leaves its record, and no other of its collection about the same thing; every record of another collection or about another thing is where it was |
| `Planning.RestStays` | src/account.rs:1755-1847 | whatever is requested, a record none of the writes is about and that makes way for none of them is where it was, and nothing else is new |
| `Actors.NoneRecurs` | src/store/actor.rs:338-349 | no commit CID recurs in a history, so the swap on it has no way to be fooled |
| `Actors.InsertBlocks` | src/store/actor.rs:296-310 | stores what is new under the revision and leaves what is there under its own |
| `Actors.Forget` | src/store/actor.rs:313-323 | forgets exactly the dropped blocks that no record row names |
| `Actors.MovedExactly` | src/store/actor.rs:296-323 | insert, then forget, leaves exactly the blocks the new root reaches |
| `Actors.TakeIn` | src/store/actor.rs:284-336 | a revision's blocks, index and drops, worked out together, leave an account standing at that revision with every invariant, or fail with the first objection to its blobs |
| `Actors.StaysServed` | src/store/actor.rs:268-282 | after a landed commit every named blob is served, and nothing else but what it reports orphaned |
| `Actors.StaysFiled` | src/account.rs:1131-1170 | after a landed commit every upload a row names has its file, and none of the uploads taken is one of them |
| `Actors.SameRecordsSameRoot` | src/repo.rs:274-302 | two accounts whose every batch was calm and whose record tables hold the same are over the same tree root |
| `Actors.Actor.constructor` | src/store/actor.rs:194-203 | a new account holds nothing and satisfies every invariant |
| `Actors.Actor.Commit` | src/store/actor.rs:260-366 | refused with the first objection to its blobs, else lost where the root moved, else refused where there is a root and none was expected, and in every other case lands, keeping exact storage, index agreement, blob accounting and history; where it does not land nothing is different, served names included |
| `Actors.Actor.Create` | src/repo.rs:186-198 | the first revision lands exactly where there is no root, over an empty tree, at the clock's next microsecond |
| `Actors.Actor.AddBlob` | src/account.rs:1021-1039 | an upload gets its file and, unless a record already holds the blob, a row under its own key and a fresh window; a new row has the upload's type and size and an old one keeps its own |
| `Actors.Actor.SweepRow` | src/store/actor.rs:780-788 | takes a row out exactly while it is still the upload that was read |
| `Actors.Actor.Cleared` | src/account.rs:1138-1170 | takes exactly the files of orphaned blobs that still have no row and of the uploads listed, and no file a row needs |
| `Actors.SweepUnclaimed` | src/store/actor.rs:766-790 | takes out exactly the uploads left unclaimed since before the cutoff, and returns exactly their keys, which no row is left under |
| `Managing.LoadsWhole` | src/repo.rs:203-207 | from an account's stored blocks the root's commit loads and its whole tree reads |
| `Managing.Prepare` | src/account.rs:1684-1715 | reads, plans and applies without moving anything stored; it stops exactly for want of a repository, a refused request, nothing to do, a swap that names another commit than the root, or a batch that comes to no revision, in that order, with that answer |
| `Managing.Attempt` | src/account.rs:1673-1741 | each answer is given exactly where it is due: no root; nothing left to write; the first refused request's reason; the root, where all is granted and the caller named another; what stops the batch; the first objection to the blobs; and in every other case the planned batch lands on the map the account held, at the first revision not before now, logged and answered operation by operation. Where it does not land nothing is different |
| `Managing.NothingPlanned` | src/account.rs:1693-1697 | nothing is planned exactly where every request is passed over |
| `Managing.Write` | src/account.rs:699-745 | a write with the disk cleared behind it answers and lands as an attempt does, keeps every invariant, lets go of exactly the uploads it took, and keeps what is served exactly what records name |
| `Writers.SwapSaw` | src/store/actor.rs:338-365 | if the root still reads as it did, every read since the first saw the state there now |
| `Writers.StepKeeps` | src/account.rs:1684-1738 | any step by any writer keeps the history a rising chain of serial batches |
| `Writers.LinearHistory` | src/account.rs:1684-1738 | in every interleaving landed commits are one chain of rising revisions, none recurs, none is lost, and the state is that of the landed batches run one at a time |
| `CarFiles.VarintRoundTrip` | src/repo/car.rs:122-137 | every 64-bit length reads back from in front of any bytes |
| `CarFiles.VarintSpells` | src/repo/car.rs:134-137 | a length is written seven bits a byte, lowest first, with the top bit on all but the last and no needless byte |
| `CarFiles.ReadsSpelling` | src/repo/car.rs:121-125 | a length is read exactly where some ten bytes or fewer spell one, and is what they spell |
| `CarFiles.ChunkRoundTrip` | src/repo/car.rs:122-128 | a length-prefixed chunk splits off whole, leaving exactly what follows |
| `CarFiles.ChunkIs` | src/repo/car.rs:55-60 | a chunk is the spelling of its length and then its bytes |
| `CarFiles.ChunkTaken` | src/repo/car.rs:121-128 | a chunk is taken exactly where a length is spelt and that many bytes, modulo 64 bits, follow, and leaves what is after them; each refusal has its own error |
| `CarFiles.Push` | src/repo/car.rs:55-60 | appends exactly one framed block to the file so far |
| `CarFiles.Rooted` | src/repo/car.rs:62-68 | the file frames every block of the map once, in some order, and where every block hashes to its CID it opens to the same roots and the same map |
| `CarFiles.ReadRoots` | src/repo/car.rs:99-119 | whatever bytes arrive, every block read hashes to its CID, the header read is of version 1 and names the roots, another version is refused, and the result is the recursive reading's |
| `CarFiles.Read` | src/repo/car.rs:77-86 | a written file reads back to its one root and its block map, or to the error for a missing root or another number of roots |
| `CarFiles.WrongBlockRefused` | src/repo/car.rs:107-117 | a file is refused at its first false block, by that block's CID |
| `CarFiles.OpensMap` | src/repo/car.rs:46-119 | any order of framing a block map opens to that map |
| `CarFiles.OpensAsWritten` | src/repo/car.rs:46-119 | header and blocks of a written file come back as they were written |
| `Exporting.BlocksSince` | src/store/actor.rs:378-411 | a page is the greatest rows below the mark in order, full or all there is, and names a next mark exactly where it is full |
| `Exporting.MarkLeaves` | src/store/actor.rs:948-977 | what a full page's mark leaves eligible is exactly what the page did not take |
| `Exporting.Export` | src/account.rs:889-902 | the paging loop ends, and its file frames exactly the blocks a revision after the one named wrote, each once, by revision and then by CID, greatest first; a full one opens to the root and the stored map |
| `Exporting.FullExportReadsBack` | src/account.rs:889-902 | a full download reads back to the root and every stored block |
| `Exporting.StoredCarries` | src/repo/car.rs:130-132 | stored blocks that are what their CIDs name are blocks a file can carry |
| `Exporting.ExportSinceCompletes` | src/store/actor.rs:378-411 | a download since a landed revision, with that revision's blocks, covers the repository as it is now |
| `Json.AcceptedIsCarried` | src/repo/json.rs:63-93 | whatever is accepted has 64-bit integers, no float and no map of one reserved key, at any depth |
| `Json.CarriedComesBack` | src/repo/json.rs:37-93 | every such value is shown and reads back as itself |
| `Json.OnlyCarriedComesBack` | src/repo/json.rs:37-93 | no other value does |
| `Json.RoundTrip` | src/repo/json.rs:37-93 | an accepted record is shown, and what is shown is accepted as the same record |
| `Json.ReservedDoesNot` | src/repo/json.rs:98-110 | a map of one reserved key holding text is shown as a link and does not come back |
| `Json.AcceptsExactly` | src/repo/json.rs:63-93 | JSON is accepted exactly where no number is a fraction or past 64 bits and an object of one reserved key holds text that names a CID or spells bytes, at any depth |
| `Json.ReadsAsShown` | src/repo/json.rs:63-93 | what is read has the shape of what was written, a link or a byte string where an object of one reserved key stands for it |
| `Json.ShownShows` | src/repo/json.rs:37-56 | a value is shown exactly where it holds no float and no integer past 64 bits, and what is shown has its shape |
| `Limiting.Limiter.Consume` | src/xrpc/limit.rs:145-199 | a key is counted unless the table holds 100000 others and not it, on top of what its running window spent, as far as the counter goes, or in a fresh one; other keys keep what they have, short of a sweep due; the answer is what was spent, what is left and whether it went past |
| `Limiting.LazyRefines` | src/xrpc/limit.rs:145-155 | with nobody turned away, the lazily swept table is the never-forgetting one less windows that ran out |
| `Limiting.SameReadings` | src/xrpc/limit.rs:145-199 | and every reading is the one the never-forgetting table gives |
| `Limiting.Capped` | src/xrpc/limit.rs:157-172 | the table never holds more than its cap of keys |
| `Limiting.HeldIsCounted` | src/xrpc/limit.rs:156-190 | a key the table holds is always counted, full or not, in its running window or in a fresh one |
| `Limiting.BudgetHolds` | src/xrpc/limit.rs:145-199 | what a key is let through with, in the window it opens at a moment or uncounted within a window's length of that moment, is within the budget if and only if what a full table overlooked of it in that length is |
| `Limiting.SpanBound` | src/xrpc/limit.rs:145-199 | in any stretch of a window's length, wherever it starts, a key gets through with at most twice the budget and what a full table overlooked there |
| `Limiting.WidestBudgetLeaks` | src/xrpc/limit.rs:190-198 | a budget as wide as the counter lets twice itself through in a run with room for every key |
| `Limiting.FullTableLeaks` | src/xrpc/limit.rs:156-172 | a table filled by 100000 keys lets a new key through with any number of points, in any number of calls any distance apart within one window's length, whatever the budget |
| `Limiting.DripLeaks` | src/xrpc/limit.rs:156-172 | a new key at a full table calling once a tick gets a window's length of points through in it, on a budget of one |
| `Limiting.NothingOverlooked` | src/xrpc/limit.rs:156-172 | a run that turns nobody away overlooks nothing |
| `Limiting.FewKeysFit` | src/xrpc/limit.rs:156-172 | a run over at most as many keys as the table holds turns nobody away |
| `Limiting.KeptExactly` | src/xrpc/limit.rs:145-199 | a budget below the 32-bit maximum is kept by a run if and only if the run turns no key away with more than the budget in any stretch of a window's length |
| `Limiting.KeptWithRoom` | src/xrpc/limit.rs:145-199 | a budget is kept by every run that turns nobody away if and only if it is below the 32-bit maximum |
| `Sessions.Accounts.StoreSession` | src/store/accounts.rs:796-808 | writes a row exactly where the id has none |
| `Sessions.Accounts.ExpireSessions` | src/store/accounts.rs:555-560 | afterwards the account's rows are all live, and every row that was live or another's is as it was |
| `Sessions.Accounts.Rotate` | src/store/accounts.rs:507-520 | names the successor and writes it together, or nothing where another was named |
| `Sessions.Accounts.RevokeAppPassword` | src/store/accounts.rs:670-682 | takes out exactly the password and the sessions opened with it |
| `Sessions.Accounts.Exchange` | src/account.rs:1886-1917 | an exchange alone answers exactly for a live token, with the successor its row names, which exists, written new where it had no row or one whose time was up; of every other row only the same account's whose time was up are gone, and none is different |
| `Sessions.StepKeeps` | src/account.rs:1886-1917 | every step of every interleaving keeps one owner down each chain, one successor per row and one end per successor |
| `Sessions.ExchangeAnswers` | src/account.rs:1886-1917 | a landing exchange answers with the named successor, present and of the same account and password, and lengthens no row that is the one it read or names a successor |
| `Sessions.LengthensExactly` | src/account.rs:1894-1916 | a landing exchange lengthens a row if and only if it is one written since the exchange read, with no successor named and an earlier end than the exchange means to give it |
| `Sessions.OneSuccessor` | src/store/accounts.rs:507-520 | over any run a row's successor and its end never change once named |
| `Sessions.AllAnswerOne` | src/account.rs:1886-1917 | all exchanges of one living row, however interleaved, answer with one session |
| `Sessions.RevokedStays` | src/store/accounts.rs:670-682 | once a password's sessions are gone no exchange under way brings one back |
| `Registration.SendIsTrue` | src/plc.rs:298-404 | for every behaviour of the directory, Ok means held, and any error but an uncertain one means not held and not to be |
| `Registration.AnsweredIsKnown` | src/plc.rs:385-404 | where both read backs are answered, Ok is given exactly where the identifier is held |
| `Registration.RetireIsTrue` | src/plc.rs:368-373 | for every behaviour of the directory, an identifier said to be retired is held by nobody for good |
| `Registration.ReturningIsSafe` | src/account.rs:459-490 | a signup that returns takes its account out only when nothing is held, and leaves it in whenever something is |
| `Registration.OneWindow` | src/account.rs:1978-2009 | some directory makes a signup discard a held account if and only if its caller would hang up at the release and nowhere before the answer |
| `Registration.ReplyIsTrue` | src/plc.rs:446-504 | an operation said to be in is; one refused or never carried leaves an identifier that was free as free, and what was still out as it was; none lets go of what is held |
| `Registration.AnswerIsTrue` | src/plc.rs:411-443 | an answer read back is true when given, and nothing already sent can make it false after |
| `Registration.ToldSoFar` | src/plc.rs:411-504 | over any exchanges from an empty directory: held once one was said to be in, held only if one was or was left uncertain, and something can still go in exactly where one was left uncertain with no answer since |
| `Registration.Confirm` | src/plc.rs:385-404 | the method is its specification over the replies it was given |
| `Registration.Send` | src/plc.rs:298-308 | Ok exactly where the directory said the operation is in or holds it; uncertain exactly where no answer said so and the last attempt was left open, or the first was and no read back answered; otherwise the refusal given |
| `Registration.Retire` | src/plc.rs:368-373 | succeeds exactly where the tombstone was taken of an operation that was in and the read back answered |
| `Registration.Create` | src/account.rs:459-490 | a signup is created exactly where everything local was written, the directory was heard to hold it and nobody hung up; every other ending, and whether the account is left standing, has its exact condition; one that returns, or whose caller does not hang up at the release, discards only an account nothing is held for |

## Left out

- The hash functions, signatures, key generation and the DAG-CBOR, multiformats, base64 and JSON libraries: a CID is a free term, a signature is a function of the signed fields, and library codecs are arbitrary functions with a stated round trip.
- SQLite: each transaction is one atomic step over maps and sets; query plans, migrations and busy handling are not modelled.
- The file system: served blobs and upload files are sets of names; modification times, quarantine, the sweeps of stranded and unheld files and I/O failure are not modelled.
- HTTP handlers, configuration, authentication, password hashing, login timing, trust of forwarded addresses, and the identifier and email validators.
- How links and blob references are read out of a record (src/account/backlink.rs, src/account/blobref.rs): left arbitrary; the index is proved for any reading of them.
- The event log: how an entry is encoded, numbered and sent. What its operations say of a batch is modelled.
- Takedowns of records and blobs, record and blob listing pages, account listing, and combining several limiters.
- Key text: a key is ASCII bytes, so the UTF-8 check on a stored key suffix is folded into key validity.
- Codec.Serialize: takes entries whose subtrees are settled to CIDs already; an error settling one is `Reading.NodeDataIn`'s, and which of the two kinds a malformed node in memory gives first is not modelled.
- Reading.Reader.ReadNode: the count of open levels is the nesting of calls and is passed down as a parameter rather than kept in the reader.
- Diff.Walker.Current: does not store a hashed pointer back into the walked copy, which only saves hashing it again.
- Repo.Repository.Apply: on a store that does not hold exactly the repository it promises only that nothing changes or a later commit is signed; what a missing block does to each write is in the tree's own operations.
- Index.Claim: the takedown mark on a blob row, which nothing writes, is not modelled.
- Planning.LogIsDifference: is of batches that write no key twice; src/account.rs lines 1753-1754 mark the other case as not handled, and there the second operation names what the first replaced, which `Planning.LogUndoes` shows is still enough to go back by.
- Managing.Write: appending the log entry and copying the root to the accounts table, both after the commit has landed and only logged when they fail, are not modelled.
- Actors.Actor.AddBlob: a file left by an upload whose blob a record already held, or that was made again, stays until the sweep of stranded files, which is not modelled.
- Repo.RunBatch: calm is sufficient for the canonical form and not necessary, since a tree trimmed on the way may or may not remember its layer; the exact condition for each write is `History.AddCanonical`.
- Managing.Attempt: runs with nothing landing between its reads and its move; interleaving, the retry loop and its eight attempts are the state machine in Writers.
- Exporting.Export: reads one snapshot of the rows, as the read transaction around the loop gives it; sending and its deadline are not modelled.
- Json.AcceptedIsCarried: models acceptance and refusal; which of several faults is named is not modelled.
- Registration.AnswerIsTrue: an operation that went out is taken to land, if it does, before the directory next says what it holds.
- A claim that a revoked successor session stays gone: the code lets its predecessor write the row again during the grace period.
