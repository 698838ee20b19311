# Proofs about the Blitz engine

Blitz is a lakehouse query engine in Rust: a Raft-replicated catalog, a planner and an execution engine over its own
compressed column files, Iceberg metadata in Avro containers, a morsel executor whose workers join and die while a
query runs, and a streaming controller. This project models its four cores in Dafny and proves what they are for.

**Raft (Raft, RaftCluster, RaftElection, RaftLogs, RaftStaleSend, RaftSmall, RaftNodes).** `RaftNode` is a class whose
methods update the node in place and are proved against functions on its state. The cluster is a step system over those
functions: time-outs, the steps of a tick (which reads state, term and answers under separate locks), vote and append
messages in a set from which nothing is ever removed (so they may be lost, delayed, reordered and delivered any number
of times), proposals and sends. Election Safety holds of every run. Log Matching (Figure 3 of the extended Raft paper)
does not, because the code reads its term and log again for every peer. It holds of a run exactly if no entry is
written behind a previous term that is not the one it was proposed behind; a proposer can check this before it sends,
the check is exact message by message, and every run with the check keeps Log Matching. Without it, a static cluster
is safe exactly if it has at most two members: with three or more there is a failing run for any three of them.

**The query pipeline (Bytes, Lz4, Pages, Cursor, Blitz*, LateScan, Rows, Storage, Plan, Resolution, Planner,
Semantics, Joins, Aggregate, Ramp, Engine*, TopN; Unicode, Json*, Avro*, Bounds, Manifest*).** Files are byte
sequences and the reading cursor is a position. Each codec is proved to undo the other on all inputs that its length
fields can hold, and the loops that read LZ4 blocks, pages, footers, JSON and Avro are proved equal to recursive
specifications on *every* byte sequence, malformed ones included. JSON texts and Avro schemas are accepted exactly as
a grammar says. On top of that, name resolution gives exactly the query that a text asks for, and planning it, opening
and scanning the bytes of the files and executing, with either join strategy, either build side and every schedule of
its tasks, is proved to return the naive cross product, filter, grouping and projection of the rows that the files
store.

**The morsel executor (Kernels, Monoids, Morsels, Executor, ExecutorEnds, Cluster, RampedQuery).** A step system over
queue, threads, handlers, partial and merged results; sums wrap modulo 2^64 and form a commutative monoid with counts
and bounds. Every planned morsel is merged exactly once, a query can always end unless a handler panicked with a
morsel in its hands, and zone-map pruning and reclustering never change an answer.

**The streaming controller (Stream, StreamEpochs, StreamLive).** A step system over producers, planned units, stealing
workers and commits: exactly once without aborts, at least once with them. An epoch that finishes commits what it
planned exactly if it has a worker, which the lag it read and its sizing decide, and from any point one more epoch can
catch up.

A panic of the original (an index out of range, an `unwrap`, an assertion) is an explicit outcome: `None`, or `Err`.
Foreign code (deflate, JSON text of schemas, hash maps' order, the operating system's scheduling, sleeping and TCP) is
a parameter or a free choice.

## Where the code differs from what it says

- `crates/blitz-meta/src/raft.rs` presents an AppendEntries as the leader's; the sender may by then lead a later term,
  and name a previous term the entry was not proposed behind. Exact conditions: of a run, `RaftLogs.LogMatchingIff`; of
  a message, `RaftLogs.SafeSendIff`; of a cluster, `RaftSmall.EveryRunMatchesIff`; failing runs,
  `RaftStaleSend.StaleSendBreaksLogMatching`.
- `crates/blitz-format/src/lz4.rs` promises that decompressing undoes compressing; from 2^32 bytes on the length
  prefix wraps and the result is a length error (`Lz4.Compress`).
- `crates/blitz-iceberg/src/lib.rs` walks a snapshot back to its data files; when field ids repeat within a file the
  upper bounds after the first are lost, though pruning is not affected (`ManifestPlan.LosslessIff`,
  `ManifestPruning.PrunesAlike`), and a snapshot id that was used before leads to the older list
  (`ManifestPlan.CommittedList`).
- An epoch of `crates/blitz-stream/src/lib.rs` without workers commits nothing and ends well. It has none exactly if
  `n_local` is 0 and either the lag it read was 0, records having arrived before planning, or `max_workers` is 0
  (`StreamEpochs.EpochDrains`); such epochs are reachable (`StreamEpochs.EpochStalls`).
- `crates/blitz-engine/src/lib.rs` without threads returns no rows (`Ramp.EveryTaskOnce`).
- A handler of `crates/blitz-exec/src/lib.rs` that panics before its morsel is sent keeps it, and the query can never
  end; nothing else has that effect (`ExecutorEnds.CanEndIff`).

## Model

| member | source | states |
|---|---|---|
| `RaftElection.ElectionSafety` | crates/blitz-meta/src/lib.rs:228-270 | after every run of the cluster (timeouts, votes, proposals, sends, in any interleaving, with messages lost, delayed or delivered many times) no two members have won the same term, and no two lead in the same term |
| `RaftElection.LeadersAreBacked` | crates/blitz-meta/src/raft.rs:245-285 | every leader of a reachable state has a majority of recorded votes for its term, each cast while the voter's log was no more up to date than the winner's |
| `RaftElection.StepKeepsElectionInv` | crates/blitz-meta/src/lib.rs:208-293 | each of the twelve kinds of step keeps the invariant on ballots, requests, answers, counts and victories |
| `RaftElection.RunKeepsElectionInv` | crates/blitz-meta/src/lib.rs:208-293 | hence every run keeps it |
| `RaftElection.OneWinnerPerTerm` | crates/blitz-meta/src/raft.rs:132-138 | two victories of one term are of one member, because their voters overlap |
| `RaftElection.LeadsIff` | crates/blitz-meta/src/lib.rs:256-268 | closing a tick makes a candidate leader exactly if more than half of the members voted for it |
| `RaftElection.QuorumsMeet` | crates/blitz-meta/src/raft.rs:136-138 | two majorities of one membership share a member |
| `RaftLogs.LogMatchingIff` | crates/blitz-meta/src/raft.rs:287-340 | for every run of a static cluster: any two logs that members hold at any two points of it are identical up to every index and term they share, if and only if no append that names an untrue previous term ever gets written |
| `RaftLogs.SafeSendIff` | crates/blitz-meta/src/raft.rs:451-484 | a proposer can tell beforehand, and exactly: an entry at index 1, beyond its own log's end, or behind an entry whose term is the one it had when the entry was proposed, is merged without harm into every log that follows the leaders; any other breaks Log Matching in some such log |
| `RaftLogs.LogMatching` | crates/blitz-meta/src/raft.rs:287-340 | after every run whose proposers check that, whatever the terms they send under, logs are dense, and where two logs agree on index and term they are identical up to that index |
| `RaftLogs.FreshRunIsSafe` | crates/blitz-meta/src/lib.rs:331-394 | sending only while still the leader of the entry's term is one way to do so |
| `RaftLogs.StepKeepsLogInv` | crates/blitz-meta/src/raft.rs:417-484 | every step that writes no entry under an untrue previous term keeps the invariant that each log follows, prefix by prefix, the log of the leader of the entry's term |
| `RaftLogs.RunKeepsLogInv` | crates/blitz-meta/src/lib.rs:331-394 | hence every run of such steps does |
| `RaftLogs.MergeFollows` | crates/blitz-meta/src/raft.rs:304-330 | accepting entries after the prev-index check keeps a log in step with the leaders' logs, through truncation, overlap and extension, when the previous term is the leader's or nothing is written |
| `RaftLogs.UntruthfulBreaks` | crates/blitz-meta/src/raft.rs:304-330 | and otherwise the written log does not match that leader's log |
| `RaftStaleSend.StaleSendBreaksLogMatching` | crates/blitz-meta/src/lib.rs:354-371 | because the sender reads term and log again for every peer, an entry can go out under a later term and behind another entry: in every static cluster, for any three of its members, there is a run that ends with two of their logs violating Log Matching |
| `RaftStaleSend.SafeRunsMatch` | crates/blitz-meta/src/lib.rs:354-371 | no run whose proposers check ends so |
| `RaftSmall.EveryRunMatchesIff` | crates/blitz-meta/src/lib.rs:331-394 | a static cluster keeps Log Matching in all its runs, unchecked sends included, if and only if it has at most two members |
| `RaftSmall.StepKeepsSmall` | crates/blitz-meta/src/lib.rs:208-394 | with at most two members every step keeps the logs prefixes of one another, those of leaders the longest |
| `RaftNodes.Merge` | crates/blitz-meta/src/raft.rs:319-330 | the truncate-and-push loop computes the merge the invariants are about |
| `RaftNodes.RaftNode.constructor` | crates/blitz-meta/src/raft.rs:104-120 | a new node is a follower of term 0 with an empty log |
| `RaftNodes.RaftNode.StartElection` | crates/blitz-meta/src/raft.rs:158-163 | a candidate of the next term with its own vote, and nothing else changed |
| `RaftNodes.RaftNode.BecomeLeader` | crates/blitz-meta/src/raft.rs:165-172 | a leader whose next index for every peer is one past the log and whose match index is 0, and nothing else changed |
| `RaftNodes.RaftNode.AppendEntry` | crates/blitz-meta/src/raft.rs:182-192 | the entry has the given key and value, the current term and the index after the last one, and is the one thing added |
| `RaftNodes.RaftNode.HandleRequestVote` | crates/blitz-meta/src/raft.rs:245-285 | the vote is granted exactly if the term is not old, the vote of that term is free or the candidate's already, and the candidate's last entry has a later term, or the same and no lower index; response term, vote and state after it |
| `RaftNodes.RaftNode.AcceptEntries` | crates/blitz-meta/src/raft.rs:319-334 | the log and commit index after the entries of an accepted request |
| `RaftNodes.RaftNode.HandleAppendEntries` | crates/blitz-meta/src/raft.rs:287-340 | success exactly if the term is not old and the previous entry is at hand; then the log is the accepted one and the commit index the leader's up to the last entry, otherwise both are unchanged; response term, vote and state after it |
| `RaftNodes.MergeAccepts` | crates/blitz-meta/src/raft.rs:319-330 | behind the previous entry the log holds entries of the request's terms: the node's own as far as they agree, then the request's and nothing after them; if all agree the log is unchanged |
| `Lz4.Compress` | crates/blitz-format/src/lz4.rs:25-83 | decompressing gives the source back exactly when it is shorter than 2^32 bytes, and a length error otherwise, whatever the candidate table comes to hold; the output has at most n + n/255 + 6 bytes; the last sequence is literals only, the last five bytes are literals and the last match starts at least twelve bytes before the end; below 2^32 bytes no literals repeat one byte five times, the last nine bytes apart |
| `Lz4.DecompressesTo` | crates/blitz-format/src/lz4.rs:85-138 | any block that denotes the source and carries its length decompresses to it, or to a length error from 2^32 on |
| `Lz4.CompressedSize` | crates/blitz-format/src/lz4.rs:25-83 | the size bound, for any valid sequences and tail |
| `Lz4.DecodeBlock` | crates/blitz-format/src/lz4.rs:90-133 | decoding the encoding of any valid sequences and a tail gives the bytes they denote |
| `Lz4.DecodeSequence` | crates/blitz-format/src/lz4.rs:92-133 | one sequence, with its length extensions and overlapping copy, is undone in front of any rest |
| `Lz4.CopyIsSlice` | crates/blitz-format/src/lz4.rs:128-132 | the byte-by-byte copy, also where it overlaps what it writes, rebuilds the source |
| `Lz4.MatchLength` | crates/blitz-format/src/lz4.rs:46-55 | the match found is a true repetition, as long as it can be, and leaves five bytes at the end |
| `Lz4.PutLen` | crates/blitz-format/src/lz4.rs:17-23 | the 255-run loop writes the length extension |
| `Lz4.PutSequence` | crates/blitz-format/src/lz4.rs:56-67 | token, extensions, literals and offset of one sequence |
| `Lz4.PutLiterals` | crates/blitz-format/src/lz4.rs:75-82 | token, extension and literals |
| `Lz4.ReadLength` | crates/blitz-format/src/lz4.rs:95-105 | the 255-run loop reads what the specification reads, or fails where it fails |
| `Lz4.CopyMatch` | crates/blitz-format/src/lz4.rs:111-132 | offset check, length and copy of one match, with its errors |
| `Lz4.DecodeLoop` | crates/blitz-format/src/lz4.rs:90-133 | the cursor loop computes the recursive decoder on every input, well formed or not |
| `Lz4.Decompress` | crates/blitz-format/src/lz4.rs:85-138 | the whole decompressor, with its three errors |
| `Pages.PageRoundTrip` | crates/blitz-format/src/lib.rs:125-145 | an Int64 page of up to 8192 values reads back as the values, and its compressed length fits the u32 field |
| `Pages.ReadDeltasOfDeltas` | crates/blitz-format/src/lib.rs:125-145 | delta, zigzag and varint coding undo each other with wrapping differences, in front of any bytes |
| `Pages.ReadVarintOfVarint` | crates/blitz-format/src/lib.rs:100-124 | varints of every 64-bit value, in front of any bytes |
| `Pages.PutVarint` | crates/blitz-format/src/lib.rs:100-110 | the shifting loop writes the varint |
| `Pages.GetVarint` | crates/blitz-format/src/lib.rs:111-124 | the shift-and-or loop reads the varint at the cursor |
| `Pages.EncodePage` | crates/blitz-format/src/lib.rs:125-134 | encoding a page, decoded again, is the page |
| `Pages.ReadValues` | crates/blitz-format/src/lib.rs:135-145 | the delta loop |
| `Pages.ReadPage` | crates/blitz-format/src/lib.rs:135-145 | decoding a page, with its failures |
| `Cursor.TimesOfAll` | crates/blitz-format/src/lib.rs:415-457 | repeating a reader that inverts a writer reads back a whole list, wherever it stands in a buffer |
| `Cursor.PutAll` | crates/blitz-format/src/lib.rs:351-393 | the writing loop over a list |
| `Cursor.GetAll` | crates/blitz-format/src/lib.rs:405-458 | the counted reading loop |
| `BlitzFooter.FooterRoundTrip` | crates/blitz-format/src/lib.rs:351-458 | parsing a footer's bytes gives its schema, row groups, page offsets, dictionaries and zones |
| `BlitzFooter.OpenFinished` | crates/blitz-format/src/lib.rs:405-458 | opening any body followed by a footer, its length and the magic recovers exactly the metadata and the file size |
| `BlitzFooter.WriteFooter` | crates/blitz-format/src/lib.rs:351-388 | the loops of finish write the footer |
| `BlitzFooter.GetFooter` | crates/blitz-format/src/lib.rs:415-457 | the loops of open parse it |
| `BlitzFooter.OpenFile` | crates/blitz-format/src/lib.rs:405-458 | open, with its failures, on any bytes |
| `BlitzChunks.Dict` | crates/blitz-format/src/lib.rs:287-297 | a dictionary lists each distinct string once |
| `BlitzChunks.Codes` | crates/blitz-format/src/lib.rs:287-297 | codes index the string of their row |
| `BlitzChunks.ReadDictOf` | crates/blitz-format/src/lib.rs:467-473 | a dictionary page reads back as the dictionary |
| `BlitzChunks.ChunkKept` | crates/blitz-format/src/lib.rs:244-349 | what a chunk's metadata points at stays readable however the file grows |
| `BlitzWriter.ZoneOf` | crates/blitz-format/src/lib.rs:255-259 | exact minimum and maximum |
| `BlitzWriter.BuildDict` | crates/blitz-format/src/lib.rs:287-297 | the hash-map loop builds dictionary and codes in order of first occurrence |
| `BlitzWriter.TextZoneOf` | crates/blitz-format/src/lib.rs:298-305 | bounds of the dictionary |
| `BlitzChunks.LessIs` | crates/blitz-format/src/lib.rs:298-305 | the order of strings is the strict part of the bytewise lexicographic order, which is total |
| `BlitzWriter.EncodeCodes` | crates/blitz-format/src/lib.rs:317-321 | a page of codes decompresses to their u32 encodings, and its length fits |
| `BlitzWriter.EncodeDict` | crates/blitz-format/src/lib.rs:306-311 | a dictionary page decompresses to its bytes when its sizes fit u32 |
| `BlitzWriter.Writer.constructor` | crates/blitz-format/src/lib.rs:234-242 | a new file holds magic and version |
| `BlitzWriter.Writer.Append` | crates/blitz-format/src/lib.rs:270-271 | bytes are appended and the position moves |
| `BlitzWriter.Writer.WriteIntPage` | crates/blitz-format/src/lib.rs:254-272 | one Int64 page is appended and recorded with its zone |
| `BlitzWriter.Writer.WriteCodePage` | crates/blitz-format/src/lib.rs:316-331 | one page of codes is appended and recorded |
| `BlitzWriter.Writer.WriteInts` | crates/blitz-format/src/lib.rs:250-284 | the page loop stores a chunk that holds the column |
| `BlitzWriter.Writer.WriteCodes` | crates/blitz-format/src/lib.rs:315-331 | the page loop over codes |
| `BlitzWriter.Writer.WriteTexts` | crates/blitz-format/src/lib.rs:285-343 | dictionary, codes and zone of a text column |
| `BlitzWriter.Writer.WriteRowgroup` | crates/blitz-format/src/lib.rs:244-349 | one more row group is held by the file, those before it are untouched |
| `BlitzWriter.Writer.Finish` | crates/blitz-format/src/lib.rs:351-393 | the file that finish leaves opens as exactly the metadata it returns |
| `BlitzRoundTrip.WriteFile` | crates/blitz-format/src/lib.rs:234-458 | create, any number of row groups, finish and open: same schema, zones, offsets and size, every row group held |
| `BlitzRoundTrip.WriteThenRead` | crates/blitz-format/src/lib.rs:234-621 | reading any chunk of the reopened file gives the column that was written |
| `BlitzRoundTrip.WrittenIsScannable` | crates/blitz-format/src/lib.rs:244-349 | what the writer leaves meets what the scans ask for |
| `BlitzReader.MatchingExact` | crates/blitz-format/src/lib.rs:488-549 | a selection vector is strictly increasing and holds exactly the matching row numbers |
| `BlitzReader.ZonePrunesExactly` | crates/blitz-format/src/lib.rs:475-483 | a page is pruned only if no value can match; for the order comparisons, always then |
| `BlitzReader.ZonePrunesIff` | crates/blitz-format/src/lib.rs:475-483 | a zone is pruned exactly if no value between its bounds can match, for every operator |
| `BlitzReader.ChunkPrunesIff` | crates/blitz-format/src/lib.rs:624-640 | a row group is pruned exactly if its zone leaves no room for a match, for integers and for strings |
| `BlitzReader.ChunkPrunesSound` | crates/blitz-format/src/lib.rs:624-640 | a pruned row group has no matching row |
| `BlitzReader.FilterValues` | crates/blitz-format/src/lib.rs:503-514 | the page loop selects exactly the hits |
| `BlitzReader.FilterCodes` | crates/blitz-format/src/lib.rs:538-542 | the code loop selects exactly the rows with the code |
| `BlitzReader.EvalInts` | crates/blitz-format/src/lib.rs:492-518 | page pruning and filtering of an Int64 column select exactly the matching rows |
| `BlitzReader.EvalTexts` | crates/blitz-format/src/lib.rs:519-545 | dictionary misses and code filtering select exactly the rows equal to the literal |
| `BlitzReader.EvalPred` | crates/blitz-format/src/lib.rs:488-549 | the selection of any predicate; a comparison the types do not allow is a panic |
| `BlitzReader.LoadDict` | crates/blitz-format/src/lib.rs:467-473 | reads the stored dictionary |
| `BlitzReader.Advance` | crates/blitz-format/src/lib.rs:561-566 | the cursor over the selection moves past the page |
| `BlitzReader.GatherInts` | crates/blitz-format/src/lib.rs:556-582 | gathers the selected values, skipping pages with none |
| `BlitzReader.GatherTexts` | crates/blitz-format/src/lib.rs:583-612 | gathers the selected strings through the dictionary |
| `BlitzReader.Gather` | crates/blitz-format/src/lib.rs:553-614 | gathering is picking by row number |
| `BlitzReader.ReadChunk` | crates/blitz-format/src/lib.rs:617-621 | a whole chunk reads as the column |
| `LateScan.ScanRowgroup` | crates/blitz-engine/src/lib.rs:157-183 | pruning, predicate by predicate selection, intersection and late gathering return exactly the projected rows a decode-everything filter keeps, in order; no batch means no rows |
| `LateScan.IntersectSorted` | crates/blitz-engine/src/lib.rs:138-153 | two strictly increasing vectors intersect to the strictly increasing vector of their common members |
| `LateScan.Select` | crates/blitz-engine/src/lib.rs:158-174 | the loop over predicates keeps exactly the rows all of them match |
| `LateScan.Materialize` | crates/blitz-engine/src/lib.rs:175-182 | gathers the projected columns |
| `Rows.FilteredIsScan` | crates/blitz-engine/src/lib.rs:157-183 | what a row group scan returns, as rows, is a row-at-a-time filter and projection |
| `Rows.ScanConcat` | crates/blitz-engine/src/lib.rs:383-409 | scans of parts concatenate |
| `Aggregate.MergeLaws` | crates/blitz-engine/src/lib.rs:80-110 | accumulators form a commutative monoid, with wrapping sums |
| `Aggregate.FoldConcat` | crates/blitz-engine/src/lib.rs:562-583 | merging the groups of two parts is folding their concatenation |
| `Aggregate.FoldPermutes` | crates/blitz-engine/src/lib.rs:562-583 | the groups do not depend on the order of the rows |
| `Aggregate.FoldMeaning` | crates/blitz-engine/src/lib.rs:231-266 | each group's accumulators are sum, count, minimum and maximum of that group's inputs; a key has a group exactly when it occurs |
| `Ramp.EveryTaskOnce` | crates/blitz-engine/src/lib.rs:291-344 | when all threads have stopped, the tasks were run exactly once, over all ways the shared counter hands them out and late workers join - if and only if there was a worker or no task |
| `Ramp.CanEnd` | crates/blitz-engine/src/lib.rs:291-344 | and from any state the threads there are can finish and stop |
| `Ramp.StepKeepsInv` | crates/blitz-engine/src/lib.rs:291-344 | every step of the counter and its workers keeps: each task number is below the counter and held or done once |
| `Ramp.RunKeepsInv` | crates/blitz-engine/src/lib.rs:291-344 | hence every run does |
| `Joins.BroadcastIsNestedLoop` | crates/blitz-engine/src/lib.rs:436-475 | the broadcast join's tasks together produce the nested loop's rows, in order |
| `Joins.ShuffleIsNestedLoop` | crates/blitz-engine/src/lib.rs:476-559 | for every partition count above zero and every order of deposits, the shuffle join produces the nested loop's multiset of rows, hence as many |
| `Joins.EitherBuildSide` | crates/blitz-plan/src/lib.rs:558-575 | the build side may be either: the multiset of joined rows is the same |
| `Joins.NestedLoopCount` | crates/blitz-engine/src/lib.rs:436-475 | the nested loop has each matching pair as often as the product of its parts' multiplicities, and no other pair |
| `Joins.BuildTable` | crates/blitz-engine/src/lib.rs:437-445 | the hash table lists, for each key, exactly the positions of its rows |
| `Joins.HashJoin` | crates/blitz-engine/src/lib.rs:454-470 | probing the table is the nested loop |
| `Joins.Partition` | crates/blitz-engine/src/lib.rs:502-508 | each row goes to the bucket of its key, in order |
| `EngineTasks.Partial.constructor` | crates/blitz-engine/src/lib.rs:113-131 | an empty partial state |
| `EngineTasks.Partial.ConsumeRow` | crates/blitz-engine/src/lib.rs:231-266 | one more joined row: its group's accumulators, or its output row |
| `EngineTasks.AddRow` | crates/blitz-engine/src/lib.rs:242-251 | the loop over the aggregates |
| `EngineTasks.RunThread` | crates/blitz-engine/src/lib.rs:297-313 | one thread's partial state is that of the rows of its tasks |
| `EngineTasks.MergeInto` | crates/blitz-engine/src/lib.rs:571-583 | the map merge of two partial states |
| `EngineTasks.RunAll` | crates/blitz-engine/src/lib.rs:562-583 | the merged state of all threads |
| `EngineTasks.ScheduledRows` | crates/blitz-engine/src/lib.rs:291-344 | under every schedule the rows consumed are the rows of all tasks |
| `EngineTasks.OutputGroups` | crates/blitz-engine/src/lib.rs:584-604 | one output row for each group |
| `EngineTasks.ExecuteTasks` | crates/blitz-engine/src/lib.rs:562-604 | two-phase aggregation under any schedule gives the outputs of the sequential fold over all rows |
| `Engine.OutputsPermute` | crates/blitz-engine/src/lib.rs:584-604 | outputs do not depend on the order of the joined rows |
| `Engine.OutRowIsGroupRow` | crates/blitz-engine/src/lib.rs:584-604 | an output row shows the key's columns and the aggregates of the group's rows |
| `Engine.OutputIsMeant` | crates/blitz-engine/src/lib.rs:584-604 | the outputs are the naive grouping: one row for each occurring key |
| `EngineQuery.CarriedOutputs` | crates/blitz-engine/src/lib.rs:213-266 | pruning columns does not change the outputs |
| `EngineQuery.PredsSplit` | crates/blitz-plan/src/lib.rs:479-485 | the predicates hold of a joined row exactly when each pushed-down part holds of its row |
| `EngineQuery.PushedJoin` | crates/blitz-plan/src/lib.rs:479-504 | filtering and projecting below the join is filtering the cross product |
| `EngineRun.RuledOutMisses` | crates/blitz-iceberg/src/lib.rs:379-403 | a file ruled out by its bounds has no row that the predicates keep |
| `EngineRun.RetainKeepsScan` | crates/blitz-plan/src/lib.rs:540-556 | pruning files does not change a scan |
| `EngineRun.ScanRows` | crates/blitz-engine/src/lib.rs:396-409 | opening the files' bytes and scanning them gives the rows of the build side |
| `EngineRun.ScanTasks` | crates/blitz-engine/src/lib.rs:383-393 | the scan's tasks, one a row group of the opened bytes, carry its rows |
| `Storage.ScanFile` | crates/blitz-engine/src/lib.rs:383-409 | opening the bytes of a file that stores given rows and scanning every row group gives, group by group, the rows that pass, projected |
| `Storage.ScanGroup` | crates/blitz-engine/src/lib.rs:157-183 | the late scan of one row group's bytes is the row-at-a-time scan of the rows it stores |
| `Storage.ToRows` | crates/blitz-engine/src/lib.rs:186-191 | the loop that takes a batch apart into rows |
| `Storage.WriteDataFile` | crates/blitz-format/src/lib.rs:234-393 | a file that the writer leaves stores, row group by row group, the rows it was given |
| `Storage.WrittenGroup` | crates/blitz-format/src/lib.rs:244-349 | what the writer holds of a row group is stored in the bytes |
| `EngineRun.ScanOnly` | crates/blitz-engine/src/lib.rs:411-435 | without a join the tasks carry the scanned rows |
| `EngineRun.BroadcastJoin` | crates/blitz-engine/src/lib.rs:436-475 | the broadcast join carries the plan's joined rows |
| `EngineRun.Exchange` | crates/blitz-engine/src/lib.rs:476-515 | the exchange buffers partition the scanned rows, whatever the order of deposits |
| `EngineRun.ShuffleJoin` | crates/blitz-engine/src/lib.rs:476-559 | the shuffle join carries the plan's joined rows |
| `EngineRun.Execute` | crates/blitz-engine/src/lib.rs:411-604 | execute, with any strategy, build side and schedule, outputs what the plan's joined rows mean |
| `EngineTheorem.RunQuery` | crates/blitz-plan/src/lib.rs:412-582 | for every query over tables whose files' bytes store their rows, planning, opening and scanning the files and executing, under every strategy, build side and schedule, gives the naive cross product, filter, grouping and projection of the full tables for what the text asks; a text that asks for nothing gets the first reason why, and the only other error is a bound too short to read |
| `EngineTheorem.ResolveResolves` | crates/blitz-plan/src/lib.rs:412-538 | resolved names are in range and typed |
| `EngineTheorem.PlanJoins` | crates/blitz-plan/src/lib.rs:412-582 | the rows of any plan that implements a query are, as a multiset, the naive join's rows after pruning |
| `EngineTheorem.OutputIsResult` | crates/blitz-engine/src/lib.rs:411-604 | the outputs of such a plan are a result of the query |
| `TopN.RunOrdered` | crates/blitz-engine/src/lib.rs:605-616 | with ORDER BY and LIMIT the result is a prefix of a permutation of the query's rows in which the column rises (or falls), numbers by value and strings bytewise |
| `TopN.SortRows` | crates/blitz-engine/src/lib.rs:605-611 | a permutation in which the column rises, or falls if that is asked for: numbers by value, strings bytewise |
| `TopN.OrderAndLimit` | crates/blitz-engine/src/lib.rs:605-616 | order, then limit |
| `TopN.LowerIs` | crates/blitz-engine/src/lib.rs:56-66 | the comparison is that order |
| `TopN.ResultUniform` | crates/blitz-engine/src/lib.rs:56-66 | the cells of a result column compare |
| `Plan.Bind` | crates/blitz-plan/src/lib.rs:438-467 | a bound name is the first column of that name in its table, with the asked qualifier, and no other table has one when none is asked; each error says which of these fails |
| `Resolution.ResolveIff` | crates/blitz-plan/src/lib.rs:412-538 | name resolution gives exactly the query the text asks for: the FROM and JOIN tables in order, each predicate with its operator and literal, both join keys, each item with its function, each grouping column, every name being the column that it means; otherwise the first problem, in the order tables, predicates, join, select, group by |
| `Resolution.OneQuery` | crates/blitz-plan/src/lib.rs:412-538 | a text asks for one query at most |
| `Plan.TraverseNext` | crates/blitz-plan/src/lib.rs:412-538 | binding a list stops at the first name that fails |
| `Planner.NeedCol` | crates/blitz-plan/src/lib.rs:470-477 | the column is carried, once, and the columns already carried keep their places |
| `Planner.BindScans` | crates/blitz-plan/src/lib.rs:413-435 | one scan a table, with all its files |
| `Planner.PushPred` | crates/blitz-plan/src/lib.rs:480-485 | a predicate is pushed to the scan of its column |
| `Planner.PushPreds` | crates/blitz-plan/src/lib.rs:480-485 | all predicates, each exactly once, at its own scan |
| `Planner.PlanJoin` | crates/blitz-plan/src/lib.rs:488-503 | both keys are carried; more joins and keys that are not integers are errors |
| `Planner.PlanItem` | crates/blitz-plan/src/lib.rs:508-529 | an output item is carried |
| `Planner.PlanSelect` | crates/blitz-plan/src/lib.rs:505-530 | the output expressions are the select list, item by item, with the functions and columns it names; an item that names nothing, or aggregates what is not an integer, is the error |
| `Planner.PlanGroup` | crates/blitz-plan/src/lib.rs:531-537 | the grouping columns that are named are carried |
| `Planner.RetainFiles` | crates/blitz-plan/src/lib.rs:540-556 | the loop keeps exactly the files that no predicate rules out |
| `Planner.FilePrunesIff` | crates/blitz-iceberg/src/lib.rs:379-403 | a file is ruled out exactly if its bound for the column leaves nothing that could pass, for integers and for strings; without a bound never |
| `Planner.RetainIff` | crates/blitz-plan/src/lib.rs:540-556 | the files kept are exactly those for which every predicate leaves something |
| `Planner.PruneFiles` | crates/blitz-plan/src/lib.rs:540-556 | every scan's files are pruned by that scan's predicates |
| `Planner.MakePlan` | crates/blitz-plan/src/lib.rs:412-582 | the plan implements the query the text asks for, or the error is the first reason why it asks for none, or a bound too short to read |
| `Kernels.GroupAgg` | crates/blitz-core/src/lib.rs:279-351 | the flat table, the abandoned flat table and the hash map all give the groups of the row-at-a-time fold |
| `Kernels.FlatPath` | crates/blitz-core/src/lib.rs:293-334 | the flat table gives up exactly when a key is outside it, and is otherwise the fold |
| `Kernels.HashPath` | crates/blitz-core/src/lib.rs:336-350 | the map is the fold |
| `Kernels.SumI64` | crates/blitz-core/src/lib.rs:237-266 | eight lanes and a remainder give the fold of all values, with wrapping sums |
| `Kernels.SumI64Sel` | crates/blitz-core/src/lib.rs:269-275 | the fold of the selected values |
| `Kernels.FilterI64` | crates/blitz-core/src/lib.rs:180-204 | the branch-free filter selects exactly the hits |
| `Kernels.FoldAccMeans` | crates/blitz-core/src/lib.rs:213-234 | the fold is the wrapped sum, the count and the exact bounds |
| `Kernels.SampleFits` | crates/blitz-core/src/lib.rs:286-292 | the sample opens the flat path exactly when its keys fit the table |
| `Executor.ExactlyOnce` | crates/blitz-exec/src/lib.rs:433-553 | in every reachable state each planned morsel is in exactly one of the queue, a thread's unflushed partial, a handler waiting for a reply and the merged result; when the count is reached the result is the merge over the planned morsels, whatever the steals, late joins, deaths and panics |
| `ExecutorEnds.CanEndIff` | crates/blitz-exec/src/lib.rs:588-635 | from a reachable state the count can still be reached, with workers that may yet connect, if and only if no handler has panicked with a morsel in its hands |
| `Executor.StepKeepsOnce` | crates/blitz-exec/src/lib.rs:588-635 | every step keeps each morsel in one place |
| `Executor.StepKeepsCounted` | crates/blitz-exec/src/lib.rs:373-389 | every step keeps the done count at the merged morsels |
| `Executor.StepKeepsValues` | crates/blitz-exec/src/lib.rs:203-210 | every step keeps the partial results the merges of their morsels |
| `Executor.RunKeepsInv` | crates/blitz-exec/src/lib.rs:433-553 | hence every run does |
| `Executor.AllMerged` | crates/blitz-exec/src/lib.rs:203-210 | merging the same morsels in any order gives the same result |
| `Morsels.PartialLaws` | crates/blitz-exec/src/lib.rs:203-210 | partial results form a commutative monoid under merge |
| `Morsels.ExecMorsel` | crates/blitz-exec/src/lib.rs:246-300 | the kernels on a block give the fold over its rows |
| `Morsels.KernelIsRows` | crates/blitz-exec/src/lib.rs:246-300 | filter, gather and aggregate kernels refine the row-at-a-time fold |
| `Morsels.OfRowsPermutes` | crates/blitz-exec/src/lib.rs:203-210 | the aggregate does not depend on the order of rows |
| `Morsels.ShippedRows` | crates/blitz-exec/src/lib.rs:591-617 | a worker given only the columns the query names computes the same |
| `RampedQuery.RampedAnswer` | crates/blitz-exec/src/lib.rs:433-553 | pruned by zone maps, executed by any run that ends: the aggregate over all rows of the table |
| `RampedQuery.SortKeys` | crates/blitz-exec/src/lib.rs:563-573 | the keys in order, each once |
| `RampedQuery.OrderedGroups` | crates/blitz-exec/src/lib.rs:555-580 | the first groups in key order, as many as the limit |
| `Cluster.SameAnswer` | crates/blitz-cluster/src/lib.rs:108-190 | before and after reclustering, pruned execution gives the aggregate over all rows, for any filter and grouping |
| `Cluster.PrunedAnswer` | crates/blitz-cluster/src/lib.rs:175-182 | merging the morsels that zone maps leave is aggregating every row |
| `Cluster.SkippedAddsNothing` | crates/blitz-cluster/src/lib.rs:31-39 | a skipped block contributes nothing |
| `Cluster.PrunedExactly` | crates/blitz-cluster/src/lib.rs:31-39 | of the blocks with rows, exactly those are scanned whose zone has room for a value that passes |
| `Cluster.ClusteredTable.Recluster` | crates/blitz-cluster/src/lib.rs:108-172 | the rows are permuted into key order, every block but the last is full, zones are exact, for any key function |
| `Cluster.ClusteredTable.FromBlocks` | crates/blitz-cluster/src/lib.rs:83-86 | zones are exact |
| `Cluster.ClusteredTable.PrunedMorsels` | crates/blitz-cluster/src/lib.rs:175-182 | in order, exactly the blocks whose zone has room for a value that passes |
| `Cluster.SortEntries` | crates/blitz-cluster/src/lib.rs:147 | sorted by key, and a permutation |
| `Cluster.IndexRows` | crates/blitz-cluster/src/lib.rs:130-146 | one entry for each row, with its key |
| `Cluster.PushRow` | crates/blitz-cluster/src/lib.rs:152-156 | one row is appended to the growing columns |
| `Cluster.Rebuild` | crates/blitz-cluster/src/lib.rs:149-168 | blocks hold the rows in entry order, all but the last full |
| `Cluster.BuildZone` | crates/blitz-cluster/src/lib.rs:20-28 | exact minimum and maximum |
| `Cluster.BuildZones` | crates/blitz-cluster/src/lib.rs:185-190 | exact zones for every block and column |
| `StreamEpochs.ExactlyOnce` | crates/blitz-stream/src/lib.rs:39-148 | between epochs, after any interleaving of pushes, epochs and steals without aborts, the records handed to processing are, for every partition, exactly its log below the committed offset, each once |
| `StreamEpochs.AtLeastOnce` | crates/blitz-stream/src/lib.rs:39-148 | after every run, with epochs abandoned before their commit, and also mid-commit, committed offsets are within the logs and every record below them was handed out at least once |
| `StreamEpochs.NeverAhead` | crates/blitz-stream/src/lib.rs:125-137 | the invariant keeps committed offsets within the logs and below what was handed out |
| `StreamEpochs.EpochDrains` | crates/blitz-stream/src/lib.rs:57-137 | in every run, an epoch that finishes commits the planned high offset of every partition if and only if it has local workers, or it read a positive lag and may size workers from it; if not, it commits the offsets there were, although there was work |
| `StreamEpochs.EndCommits` | crates/blitz-stream/src/lib.rs:125-148 | when an epoch ends, the offsets are those it set out to commit |
| `StreamEpochs.EpochStalls` | crates/blitz-stream/src/lib.rs:57-137 | whatever the sizing, without local workers some run, with records that arrive between the lag reading and planning, finishes an epoch that commits nothing |
| `StreamLive.CanCatchUp` | crates/blitz-stream/src/lib.rs:39-148 | after any run, crashes included, the run can go on to a point between epochs at which everything in the logs is committed |
| `Stream.ThreadsIff` | crates/blitz-stream/src/lib.rs:57-64 | an epoch sizes itself to at least one worker exactly then |
| `Stream.SizedFor` | crates/blitz-stream/src/sizer.rs:27-34 | the sized count is in its range; unless it is the least, one worker fewer would not do for the lag, and unless it is the greatest, it does |
| `StreamEpochs.StepKeepsInv` | crates/blitz-stream/src/lib.rs:39-148 | every step keeps the invariant on logs, offsets, units in flight and progress marks |
| `StreamEpochs.RunKeepsInv` | crates/blitz-stream/src/lib.rs:39-148 | hence every run does |
| `Stream.UnitsHold` | crates/blitz-stream/src/source.rs:87-114 | planned units cover the log from the committed offset to its end, without gap or overlap |
| `Stream.UnitsCut` | crates/blitz-stream/src/source.rs:87-114 | units are consecutive, start at the committed offset, end at the log's end, carry the records of their range, and hold exactly the maximum, or fewer in the last |
| `Stream.PlanPartition` | crates/blitz-stream/src/source.rs:87-114 | the loop over offsets plans those units |
| `JsonGrammar.ParseIff` | crates/blitz-iceberg/src/json.rs:109-271 | parsing accepts exactly the texts that the grammar can write (RFC 8259, sections 2 to 7, with the numbers of `f64` and what else the code lets pass: raw control characters, a plus sign in a Unicode escape), with any white space, escapes and spellings, and gives the value written |
| `JsonGrammar.DocParses` | crates/blitz-iceberg/src/json.rs:126-271 | every document parses where it stands, and the parser stops at its end |
| `JsonGrammar.BareGiven` | crates/blitz-iceberg/src/json.rs:126-271 | whatever parses is a document |
| `JsonGrammar.NumberIs` | crates/blitz-iceberg/src/json.rs:257-269 | sign, digits, point and exponent in any combination with a digit are a number, and an integer below the limit has its value |
| `JsonGrammar.FloatGiven` | crates/blitz-iceberg/src/json.rs:257-269 | and nothing else is a number |
| `Json.ParseOfRender` | crates/blitz-iceberg/src/json.rs:46-271 | parsing the rendering of any nested value whose numbers are integers below 9e15 gives the value (RFC 8259, sections 4, 5 and 7) |
| `Json.ParseValueOf` | crates/blitz-iceberg/src/json.rs:126-271 | so does parsing it in front of any bytes that may follow a value, and the parser stops at its end |
| `Unicode.FromUtf8OfUtf8` | crates/blitz-iceberg/src/json.rs:214-228 | UTF-8 encoding and decoding of every Unicode scalar value |
| `Unicode.IsUtf8Iff` | crates/blitz-avro/src/lib.rs:245 | bytes pass the check of `from_utf8` exactly if they encode scalar values (RFC 3629, section 4) |
| `JsonText.ParseCharOf` | crates/blitz-iceberg/src/json.rs:64-76 | every character, escaped or not, reads back |
| `JsonText.IntegerOfInteger` | crates/blitz-iceberg/src/json.rs:55-60 | integers below 9e15 print as integers and read back |
| `JsonLoops.WriteString` | crates/blitz-iceberg/src/json.rs:62-78 | the escaping loop |
| `JsonLoops.Write` | crates/blitz-iceberg/src/json.rs:51-102 | the printer |
| `JsonLoops.WriteChildren` | crates/blitz-iceberg/src/json.rs:79-100 | elements and members with their separators |
| `JsonLoops.ReadChars` | crates/blitz-iceberg/src/json.rs:182-231 | the string loop, on any bytes |
| `JsonLoops.ReadElements` | crates/blitz-iceberg/src/json.rs:161-181 | the array loop, on any bytes |
| `JsonLoops.ReadMember` | crates/blitz-iceberg/src/json.rs:138-149 | one member, on any bytes |
| `JsonLoops.ReadMembers` | crates/blitz-iceberg/src/json.rs:129-160 | the object loop, on any bytes |
| `JsonLoops.ReadValue` | crates/blitz-iceberg/src/json.rs:126-271 | the parser at a position, on any bytes, with its errors; numbers that are not integers below 9e15 are accepted exactly where `f64` accepts them, and kept as text |
| `JsonLoops.Read` | crates/blitz-iceberg/src/json.rs:109-118 | the whole parser: trailing bytes are an error |
| `Avro.RoundTrip` | crates/blitz-avro/src/lib.rs:168-298 | wherever an encoding stands in a buffer, decoding gives the value and stops exactly at its end |
| `Avro.DecodeWire` | crates/blitz-avro/src/lib.rs:217-298 | so it does for every split of arrays and maps into blocks, with negative counts and byte sizes (Avro specification, "Binary Encoding") |
| `Avro.CanonMeans` | crates/blitz-avro/src/lib.rs:168-215 | what the encoder writes is one such split, and means the value |
| `Avro.GetLongAt` | crates/blitz-avro/src/lib.rs:139-164 | zigzag varints of every 64-bit value read back in place |
| `AvroLoops.EncodeValue` | crates/blitz-avro/src/lib.rs:168-215 | the encoder appends the encoding |
| `AvroLoops.EncodeFields` | crates/blitz-avro/src/lib.rs:184-188 | the loop over a record's fields |
| `AvroLoops.EncodeBlocks` | crates/blitz-avro/src/lib.rs:189-208 | count, children and closing zero of an array or map |
| `AvroLoops.WriteLong` | crates/blitz-avro/src/lib.rs:139-150 | the varint writer |
| `AvroLoops.ReadLong` | crates/blitz-avro/src/lib.rs:151-164 | the varint reader |
| `AvroLoops.DecodeValue` | crates/blitz-avro/src/lib.rs:217-298 | the decoder, on any bytes, with its panics, strings and map keys that are not UTF-8 included |
| `AvroLoops.ReadFields` | crates/blitz-avro/src/lib.rs:249-254 | the loop over a record's fields |
| `AvroLoops.ReadEntries` | crates/blitz-avro/src/lib.rs:255-292 | the loop over one block |
| `AvroLoops.ReadBlocks` | crates/blitz-avro/src/lib.rs:255-292 | the loop over blocks |
| `AvroSchema.ParseOfJson` | crates/blitz-avro/src/lib.rs:79-135 | parsing the JSON document of any schema gives the schema |
| `AvroSchema.ParseIff` | crates/blitz-avro/src/lib.rs:79-112 | parsing gives a schema exactly if the document stands for it, name by name: primitives as strings or as objects, records with or without a name, arrays, maps and unions (Avro specification, "Schema Declaration"); any other document is a panic |
| `AvroContainer.ReadOfWritten` | crates/blitz-avro/src/lib.rs:305-388 | a container that is written reads back as its schema and rows |
| `AvroContainer.ReadContainerOf` | crates/blitz-avro/src/lib.rs:339-388 | so does every container another writer may leave: any split into blocks and sections, any header entries, raw or deflated (Avro specification, "Object Container Files") |
| `AvroContainer.WriteContainer` | crates/blitz-avro/src/lib.rs:305-336 | the writer leaves those bytes |
| `AvroContainer.WriteHeader` | crates/blitz-avro/src/lib.rs:313-323 | the header map |
| `AvroContainer.EncodeRows` | crates/blitz-avro/src/lib.rs:326-329 | the payload |
| `AvroContainer.ReadMeta` | crates/blitz-avro/src/lib.rs:343-367 | schema and codec are the values of the last entries of those names; it panics exactly if some value under either name is not UTF-8 |
| `AvroContainer.ReadRows` | crates/blitz-avro/src/lib.rs:382-385 | the loop over a section's rows |
| `AvroContainer.NegativeCount` | crates/blitz-avro/src/lib.rs:372-386 | a section with a negative count gives no rows |
| `AvroContainer.ReadContainer` | crates/blitz-avro/src/lib.rs:339-388 | the reader, on any bytes, with its panics, header keys, schema and strings that are not UTF-8 included, and its one error |
| `ManifestPlan.LosslessIff` | crates/blitz-iceberg/src/lib.rs:320-376 | planning a snapshot whose list and manifests were written by the writers gives exactly the files written, in order, if and only if, in every file, bounds that share a field id share their upper value |
| `ManifestPlan.PlanFilesBack` | crates/blitz-iceberg/src/lib.rs:247-376 | in any case it gives those files with each upper bound replaced by the first of its id |
| `Manifest.KeptIff` | crates/blitz-iceberg/src/lib.rs:342-366 | one file's entry comes back unchanged exactly then |
| `Manifest.DistinctAgree` | crates/blitz-iceberg/src/lib.rs:362-366 | distinct field ids are enough |
| `Manifest.ReadBackFinds` | crates/blitz-iceberg/src/lib.rs:379-382 | even when ids repeat, the bound found for an id is the one written |
| `ManifestPruning.PrunesAlike` | crates/blitz-iceberg/src/lib.rs:379-403 | so file pruning decides on planned files as on written ones |
| `Manifest.EntryBack` | crates/blitz-iceberg/src/lib.rs:333-373 | a manifest entry is parsed back into its file |
| `ManifestPlan.CommittedList` | crates/blitz-iceberg/src/lib.rs:408-421 | after a commit, planning walks the committed list exactly when no earlier snapshot took the id for another list |
| `ManifestPlan.TableMeta.CommitAppend` | crates/blitz-iceberg/src/lib.rs:408-421 | the new snapshot is appended and current |
| `ManifestPlan.TableMeta.Plan` | crates/blitz-iceberg/src/lib.rs:320-376 | plan_files |
| `ManifestPlan.WalkManifests` | crates/blitz-iceberg/src/lib.rs:330-374 | the loop over manifests, with its failures |
| `ManifestPlan.WalkEntries` | crates/blitz-iceberg/src/lib.rs:333-373 | of any entries, exactly those whose status is not 2 give their file, in order; it panics exactly if some entry has no status, or is not deleted and has no data file that parses |
| `ManifestFields.LiveEntries` | crates/blitz-iceberg/src/lib.rs:337-340 | the positions of the entries that give files |
| `ManifestFields.FileIsRead` | crates/blitz-iceberg/src/lib.rs:341-372 | so for any value that parses, with columns of other types read as zero |
| `ManifestPlan.ReadDataFile` | crates/blitz-iceberg/src/lib.rs:341-372 | one entry's file: path, size and count under their names, and every bound out of the two lists |
| `ManifestPlan.PairBounds` | crates/blitz-iceberg/src/lib.rs:362-366 | the loop that pairs lower with upper bounds |
| `ManifestPlan.WriteManifest` | crates/blitz-iceberg/src/lib.rs:247-287 | the store then holds a manifest whose i-th row shows, under the specification's names, the i-th file: status 1, the snapshot, path, format, counts, and lower and upper bounds by id |
| `ManifestPlan.WriteManifestList` | crates/blitz-iceberg/src/lib.rs:289-317 | the store then holds a list whose i-th row shows, under the specification's names, the i-th manifest: path, length, rows, the snapshot, the sequence number twice, one added file |
| `ManifestFields.RefIsShown` | crates/blitz-iceberg/src/lib.rs:297-313 | all thirteen columns of a row of the list |
| `ManifestFields.EntryIsShown` | crates/blitz-iceberg/src/lib.rs:256-283 | the columns of a manifest entry and its data file |
| `Bounds.DeLongOfSerLong` | crates/blitz-iceberg/src/lib.rs:47-52 | single-value serialization of longs undoes itself (Iceberg specification, Appendix D) |

## Left out

- Raft persistence, restarts, membership change, snapshots, PROMOTE and the epoch flags, timers and jitter: the model has one static membership and time-outs at any moment; terms do not overflow u64.
- Raft commit safety: heartbeats advance the commit index with previous index 0, replies to the catalog's own replication count as acknowledgements, and concurrent proposals overwrite the commit index, so the code does not decide it.
- RaftLogs.LogMatching: states the property for runs whose proposers check RaftLogs.SafeSendIff's guard, which the code does not; of the code's own runs RaftLogs.LogMatchingIff and RaftSmall.EveryRunMatchesIff say exactly when it holds.
- BlitzRoundTrip.WriteThenRead: asks that the footer is shorter than 2^32 bytes, the file shorter than 2^64, that a text column's dictionary fits its u32 lengths, and that a row group has fewer than 2^32 rows, all of one count; the writer checks none of these.
- Pages.GetVarint: a varint of more than ten bytes is a panic; the shift masking of a build without overflow checks is not modelled.
- BlitzReader.EvalPred: speaks of files in which the chunk is readable; what a damaged file makes the readers do beyond Lz4.Decompress, Pages.ReadPage and BlitzFooter.OpenFile is not stated.
- UTF-8 validity of strings in column files: they are byte sequences, compared byte by byte; `from_utf8` in the readers of dictionaries and footers is not modelled.
- EngineTheorem.RunQuery: takes the query after parsing; ON must relate two different tables, literals must have their column's type, plain columns beside aggregates must be grouped, GROUP BY needs an aggregate and `*` needs COUNT, bounds must cover their rows and the files' bytes must store their rows; outside these the code panics, skips the file or has no naive meaning.
- TopN.RunOrdered: asks that the ORDER BY position is in the select list; the code panics otherwise.
- Cost estimates: the broadcast or shuffle choice and the build side are arbitrary, which covers what the estimates choose; averages are taken over reals.
- Aggregate.MergeLaws: sums wrap, as in a release build; a build with overflow checks panics.
- Engine scans of files that do not open (the code skips them), counters, timelines and rendering.
- Hash joins' counters: joined_rows is the number of rows fed to consume_row, which the multisets give; it has no field of its own.
- Executor.ExactlyOnce: says what holds once the count is reached; ExecutorEnds.CanEndIff says exactly when it can be, for any number of workers that connect, where the code accepts the number it was told.
- Aggregates of the morsel executor over floats, dates and decimals, its shuffle wire format and message framing.
- Cluster.ClusteredTable.Recluster: for any key function in place of the normalized Z-curve, and any chosen key columns; the choice of keys and the quality measure are left out, and the order among equal keys is left open.
- Kernels.SumI64: blocks of a single thread; SIMD instructions the compiler may choose are not modelled.
- Stream: timings and the offset store's failures; an epoch that fails before its commit is a dropped epoch.
- Json.ParseOfRender: prints numbers that are integers below 9e15 in magnitude; any other number is read exactly where `f64` reads it and kept as its text, since its rounding is not modelled; recursion depth is unbounded.
- AvroContainer.ReadOfWritten: deflate and the text of JSON documents are an arbitrary pair of functions that undo each other.
- ManifestPlan.PlanFilesBack: the store is a map from paths to bytes; directories, metadata documents and object stores are left out.
- SQL text, Parquet, deployment, demos and the second Avro codec of the Iceberg crate.
