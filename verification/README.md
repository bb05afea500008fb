# Verification of the tennis audit tooling

The offline tennis tooling rebuilds large results in bounded steps that may be cut off at any
moment and resumed. This project states, for each of these rebuilds, the answer a simple one-shot
computation would give, and proves that the stepwise one gives the same, or says exactly when it
does not. Around it stand the rules that decide which labels may be used, the links and ids that
hold the data together, the account ledger and the session token of the administrator.

The modules follow the source files:

- `Options`, `Sequences`, `Sorting`, `Texts`: a missing value, filtering, insertion sort by a given
  order, the order of texts.
- `Examples`, `Jsonl`, `StableMerge`, `StreamMerge`, `ExternalSort`: training rows, their line
  files, the stable sort by example key, the crash-resumable streaming merge and the 64-way
  external sort in front of it. Durable files are fields of a class; what a process only holds in
  memory is local to a run. Every run has a budget of durable writes and ends in the middle when
  it is used up, so a run with any budget stands for a cut at any place.
- `Scan`, `Census`: the chunked aggregation committed with its cursor, and the batch loop over the
  frozen event ids.
- `SetScore`: the set machine, the check of a completed game, and the recovery of pre-game scores.
- `WalkForward`, `CausalFilter`, `SourceResolution`: the split, the filter against future labels,
  and conflicts between sources.
- `Bytes`, `Frames`, `Archive`, `ArchiveBuild`: the per-event archive, bytes and all.
- `EditDistance`: surnames at distance one, and the index that finds them.
- `Ledger`: the append-only trigger and the deferred balance trigger as a transaction machine.
  Amounts are integers of a cent, so the tolerance of 0.01 is one.
- `Keyset`, `CorpusCounts`, `HistoryPaging`, `WitnessQuery`, `WitnessRecovery`: paging by key with
  a page size that halves on timeouts, and group queries that split on them. A database that times
  out or fails is a function from the number of the query, and for group queries the size of the
  group, to what happens to it.
- `Identity`, `MatchIdentity`, `PlayerIdentity`: ids that survive a rebuild.
- `Base64Url`, `Session`: the signed token; the encoding is that of section 5 of RFC 4648 without
  padding.

Four properties one might expect are false of the code. They are kept as the code has them, with
an example and the exact condition under which they hold:

- A merge cannot always be finished by restarting it. If the output is emptied and the process
  ends before the reset state is saved, a restart extends the output with zero bytes and the
  re-read refuses it as long as the inputs stay the same (`StreamMerge.StrandedByTwoCuts`).
  `StreamMerge.MergeJob.Run` gives the condition, and says that nothing but that window leads there,
  for its own inputs or for those of an earlier run, and nothing wrong is ever published.
- The balance equation of the ledger does not survive a lone entry
  (`Ledger.LoneEntryBreaksBalance`). `Ledger.CommitKeeps` gives the exact condition on the
  statements of a transaction, for accounts that stand and for new ones.
- The score search of the witness recovery does not find every row with the final score: a leading
  zero hides it (`WitnessQuery.SearchMissesLeadingZero`), and nothing else does
  (`WitnessQuery.SearchExact`).
- A rebuild over its own result can lose an id when a fresh id collides with a kept one
  (`MatchIdentity.FreshIdCollides`, `PlayerIdentity.FreshIdCollides`);
  `MatchIdentity.RebuildStable` and `PlayerIdentity.RebuildStable` give the exact condition.

## Model

| member | source | states |
|---|---|---|
| `StreamMerge.MergeJob.Run` | scripts/research/tennis_label_audit_resumable.py:143-207 | From any reachable files, whatever earlier runs were cut off at: a published result is the stable sort of all inputs, ordered by the fields of the rows, with its own digests and count, under the name its digest gives it; with enough steps and parseable inputs it is published exactly when it already was, or the saved state is not the stranded one; a stranded state is refused, for good, and only the cut between emptying the output and saving the reset state strands a run, whosever inputs it strands |
| `StreamMerge.MergeJob.Continue` | scripts/research/tennis_label_audit_resumable.py:160-207 | A run that goes on from a saved state publishes the one-shot answer, and never from a stranded state |
| `StreamMerge.MergeJob.Resume` | scripts/research/tennis_label_audit_resumable.py:153-159 | Which state a restart begins with, including the cut between emptying the output and saving the reset state |
| `StreamMerge.MergeJob.Open` | scripts/research/tennis_label_audit_resumable.py:160-176 | Reseeking to the saved offsets rebuilds the heap of first unread rows and changes neither the promised output nor any count |
| `StreamMerge.MergeJob.Round` | scripts/research/tennis_label_audit_resumable.py:179-184 | Popping, writing and refilling keeps output, count, byte count and offsets in step, one row further |
| `StreamMerge.MergeJob.Loop` | scripts/research/tennis_label_audit_resumable.py:177-190 | The row loop ends with the whole answer written, from every state a checkpoint can leave |
| `StreamMerge.MergeJob.Advance` | scripts/research/tennis_label_audit_resumable.py:179-187 | One row further, with the checkpoint after every ten thousand rows: memory and durable files keep their promises, also where the run is cut or meets a bad line |
| `StreamMerge.MergeJob.Stream` | scripts/research/tennis_label_audit_resumable.py:160-192 | The same with the durable files: an interruption leaves a state from which a restart is sound, and never turns a sound state into a stranded one |
| `StreamMerge.MergeJob.Checkpoint` | scripts/research/tennis_label_audit_resumable.py:185-187 | Flushing before saving: whichever of the two the cut falls behind, the saved state describes a prefix of the file |
| `StreamMerge.MergeJob.PowerCut` | scripts/research/tennis_label_audit_resumable.py:185-190 | What survives of unsynced output is at least what the saved state counts on |
| `StreamMerge.MergeJob.Finish` | scripts/research/tennis_label_audit_resumable.py:193-207 | Reading back, renaming and writing the manifest: all cuts in between, and the refusal of a stranded output |
| `StreamMerge.StrandedByTwoCuts` | scripts/research/tennis_label_audit_resumable.py:156-159 | The one bad window is real: two cuts lead any one-row merge into the stranded state |
| `StreamMerge.Volume.EmitStep` | scripts/research/tennis_label_audit_resumable.py:179-184 | One emitted row: the bytes written are those by which the merge of the rows before the offsets grows |
| `StreamMerge.Volume.SkipBlanks` | scripts/research/tennis_label_audit_resumable.py:162-173 | Moving an offset over blank lines changes no promise of the state |
| `StreamMerge.Volume.AtEnd` | scripts/research/tennis_label_audit_resumable.py:189-190 | With nothing left to read, the state's output is the stable sort of everything |
| `StreamMerge.Volume.RowsLeft` | scripts/research/tennis_label_audit_resumable.py:179-184 | Rows emitted and rows left add up to the whole answer in every saved state |
| `StreamMerge.NextRow` | scripts/research/tennis_label_audit_resumable.py:162-173 | The reader finds the first row at or after an offset and fails only on a line that does not parse |
| `StreamMerge.PopLeast` | scripts/research/tennis_label_audit_resumable.py:180 | The popped entry is least by key, then by input |
| `StreamMerge.ReadBack` | scripts/research/tennis_label_audit_resumable.py:193-200 | The strict re-read is the specification of reading with no line skipped |
| `StreamMerge.Truncated` | scripts/research/tennis_label_audit_resumable.py:178 | Truncating to n keeps the first n bytes, or keeps all and extends with zero bytes |
| `StableMerge.StableSortCharacterised` | scripts/research/tennis_label_audit_resumable.py:70-72 | The stable sort is the only list that is sorted by the example key and keeps the order of ties |
| `StableMerge.StableSortMeaning` | scripts/research/tennis_label_audit_resumable.py:70-72 | On the fields: the rows are ordered by target, event, snapshot text and outcome, the first that differs deciding, a missing snapshot counting as empty, and rows alike in all four keep their order |
| `Examples.KeyOrder` | scripts/research/tennis_label_audit_resumable.py:70-72 | The key compares the fields in this order, and two keys are the same exactly when the four fields are |
| `Texts.TextLeqMeaning` | scripts/research/tennis_label_audit_resumable.py:70-72 | Texts compare by the first character that differs, and a prefix comes first |
| `StableMerge.SortedUnique` | scripts/research/tennis_label_audit_resumable.py:131 | A sorted list is determined by the order of rows inside each key |
| `StableMerge.MergeStep` | scripts/research/tennis_label_audit_resumable.py:179-184 | Emitting the least head extends the stable sort of what was read by exactly that row |
| `StableMerge.StableSortElements` | scripts/research/tennis_label_audit_resumable.py:108 | Sorting loses and invents no row |
| `Jsonl.RoundTrip` | scripts/research/tennis_label_audit_resumable.py:193-199 | Written rows read back, by the skipping and by the strict reader |
| `Jsonl.RowsSplit` | scripts/research/tennis_label_audit_resumable.py:176 | Splitting a file at a line boundary splits its rows |
| `Jsonl.NulsRefused` | scripts/research/tennis_label_audit_resumable.py:195-197 | The strict reader refuses a file that opens with zero bytes |
| `ExternalSort.WriteTrainingExamples` | scripts/research/tennis_label_audit_resumable.py:100-207 | End to end: for any number and size of shards, sorting, merging by 64 and streaming publish exactly the stable sort of the shards' concatenation, ordered by the fields of the rows; it is refused only when the merge of just these sorted files was stranded before |
| `ExternalSort.SortDir.SortExampleFiles` | scripts/research/tennis_label_audit_resumable.py:100-140 | The level loop ends with at most 64 sorted files whose merge is the stable sort of all shards, after fewer than 4 writes a shard, whatever is cached from earlier runs |
| `ExternalSort.SortDir.SortShards` | scripts/research/tennis_label_audit_resumable.py:104-116 | Every shard's file is the stable sort of its shard |
| `ExternalSort.SortDir.MergeLevel` | scripts/research/tennis_label_audit_resumable.py:119-139 | One level keeps the overall answer and leaves one file for 64 neighbours, rounded up |
| `ExternalSort.SortDir.MergeGroup` | scripts/research/tennis_label_audit_resumable.py:123-138 | A group's output is the stable sort of its inputs' rows, freshly merged or cached |
| `ExternalSort.SortDir.SortShard` | scripts/research/tennis_label_audit_resumable.py:104-116 | A shard is sorted, or its valid cached output reused, or it does not parse |
| `ExternalSort.SortDir.Publish` | scripts/research/tennis_label_audit_resumable.py:82-97 | Replacing the output and recording it: a cut in between never makes a wrong output look cached |
| `ExternalSort.KWayMerge` | scripts/research/tennis_label_audit_resumable.py:127-132 | Merging sorted inputs by least head is the stable sort of their concatenation |
| `ExternalSort.ReadRows` | scripts/research/tennis_label_audit_resumable.py:63-67 | The rows of a file, or a line that does not parse |
| `ExternalSort.SortedTogether` | scripts/research/tennis_label_audit_resumable.py:122-139 | Sorting a stretch of files early does not change the final stable sort |
| `ExternalSort.SortDir.SameAnswer` | scripts/research/tennis_label_audit_resumable.py:146 | The one-shot answer of the sorted files is that of the shards |
| `Scan.ScanDb.Run` | scripts/research/tennis_label_audit_resumable.py:211-269 | From every committed state, for any earlier runs cut at any commit: a completed scan has exactly the records of one pass over all rows, one for every target and event that occur, describing their rows, changed inputs are refused, and a cut needs that many commits |
| `Scan.ScanDb.ScanChunk` | scripts/research/tennis_label_audit_resumable.py:227-267 | One transaction moves records and cursor on together, or leaves both |
| `Scan.ReadChunk` | scripts/research/tennis_label_audit_resumable.py:228-252 | The groups of up to 5000 rows are the aggregate of exactly those rows |
| `Scan.AggregateSplit` | scripts/research/tennis_label_audit_resumable.py:253-263 | Aggregating two pieces and merging the records is aggregating the whole: chunk boundaries do not show |
| `Scan.CombineAssociative` | scripts/research/tennis_label_audit_resumable.py:255-262 | Folding stored records is associative |
| `Scan.AggregateMeaning` | scripts/research/tennis_label_audit_resumable.py:236-250 | A record is the label set, earliest forecast, latest known label time, all missing fields and any uncertified row of its target and event, and exists exactly if such a row does |
| `Scan.RecordMeaning` | scripts/research/tennis_label_audit_resumable.py:236-263 | There is a record for a target and an event exactly if a row of both occurs, and it describes exactly the rows of that target and event |
| `Census.CensusRun.Run` | scripts/research/tennis_label_audit_resumable.py:518-593 | Over every run with cuts, pending batches and splits: completed batches are a prefix of the frozen ids, every turn shrinks the rest, the run completes exactly when nothing is missing, and then the membership check passes |
| `Census.CensusRun.Turn` | scripts/research/tennis_label_audit_resumable.py:519-593 | One turn completes the pending batch, or else the next ids, as many as a batch holds, cut to the first if they have more than 20000 rows; or it finds the list exhausted |
| `Census.CensusRun.TakeUp` | scripts/research/tennis_label_audit_resumable.py:519-545 | Taking up a batch, the pending one or the next ids, completes nothing and keeps the checkpoint in order |
| `Census.CensusRun.SplitLarge` | scripts/research/tennis_label_audit_resumable.py:550-562 | A batch of several events with more than 20000 rows shrinks to its first event, any other stays |
| `Census.CensusRun.CompletePending` | scripts/research/tennis_label_audit_resumable.py:588-593 | The completed batch is the pending one, behind all earlier ones |
| `Census.CensusRun.Offset` | scripts/research/tennis_label_audit_resumable.py:521 | Bisecting the cursor gives the number of ids done |
| `Census.BisectRight` | scripts/research/tennis_label_audit_resumable.py:521 | Everything before the position is at most the cursor, everything after is greater |
| `Census.MembershipIffAll` | scripts/research/tennis_label_audit_resumable.py:630-632 | For a prefix of the frozen list the final check passes exactly when nothing is missing |
| `SetScore.TerminalGameSound` | scripts/research/tennis_label_audit.py:791-823 | Against a legal official score, a well-formed row is accepted exactly when some legal run from 0-0 to that score plays its game; the answer is that game's pre-game score and winner, completed exactly on the last game |
| `SetScore.TerminalGameTold` | scripts/research/tennis_label_audit.py:797-823 | The same for a row as it is delivered: its score and winner are read as they stand if home is A and exchanged if not |
| `SetScore.AcceptedRow` | scripts/research/tennis_label_audit.py:797-810 | Whatever the official scores, only a confirmed row of the three terminal kinds, about an existing set, with two scores below ten and a winner, is accepted |
| `SetScore.CompletedGameSound` | scripts/research/tennis_label_audit.py:814-823 | The same for scores already oriented |
| `SetScore.LegalFinals` | scripts/research/tennis_label_audit.py:610-612 | The scores that end a legal run are 6-0 to 6-4, 7-5 and 7-6 for either side, and no others |
| `SetScore.OrientationIrrelevant` | scripts/research/tennis_label_audit.py:730-734 | Mirroring the row's sides together with the orientation changes nothing, malformed rows included |
| `SetScore.PointEventsForAlignment` | scripts/research/tennis_label_audit.py:826-857 | An ordinary row gets the one start its terminal rows agree on and otherwise none; all other rows and other parsers are untouched |
| `SetScore.StartGivenMeaning` | scripts/research/tennis_label_audit.py:836-848 | A row gives a start exactly if it is a confirmed terminal row whose result is repeated in state_after, and then the score less the game of its winner, unless the set was over before |
| `SetScore.StartsMeaning` | scripts/research/tennis_label_audit.py:849-854 | The starts looked up for a row are those given by rows of the same set and the same score |
| `SetScore.TapeStarts` | scripts/research/tennis_label_audit.py:834-848 | On the tape of legal sets the starts found for a row are its own game's, never another game's |
| `SetScore.AlignTape` | scripts/research/tennis_label_audit.py:826-857 | Row by row: the true start if the game has a confirmed terminal row, unknown otherwise |
| `WalkForward.SplitMatches` | scripts/research/tennis_label_audit.py:1161-1178 | The split for every number of events, four fifths of them for development, rounded down: development, holdout and four folds at the rounded edges |
| `WalkForward.SplitSound` | scripts/research/tennis_label_audit.py:1172-1178 | Validation blocks partition the development tail; each fold trains on what comes before its block, at an earlier time or at the same time with a smaller id, and both come before the holdout |
| `WalkForward.EdgesPartition` | scripts/research/tennis_label_audit.py:1176 | Half-even rounded edges run from 0 to the length without going back, each block within one of a quarter |
| `WalkForward.Cuts` | scripts/research/tennis_label_audit.py:1172-1178 | The first block begins behind three fifths, rounded down, and the blocks end at quarters of the rest, rounded half to even |
| `WalkForward.OrderIgnoresListing` | scripts/research/tennis_label_audit.py:1161 | The order of events does not depend on how they were listed |
| `CausalFilter.WalkForwardAdmission` | scripts/research/tennis_label_audit.py:1156-1222 | The matches, split at four fifths, are trained on in the order of time and id, and every fold is filtered so that no kept label becomes known after the first validation forecast |
| `CausalFilter.ReportFold` | scripts/research/tennis_label_audit.py:1206-1217 | One fold's report: its filtered training ids and the check on them |
| `CausalFilter.FilterExact` | scripts/research/tennis_label_audit.py:1122-1145 | Kept are exactly the labelled candidates with a label time no later than every validation forecast, all of which are known |
| `CausalFilter.FilterKeepsOrder` | scripts/research/tennis_label_audit.py:1122-1145 | What is kept stands in the order of the candidates |
| `CausalFilter.FilterAccounts` | scripts/research/tennis_label_audit.py:1146-1153 | With a cutoff, labelled candidates are kept, future or of unknown time, each counted once; without one all are purged; and each number of the report counts what it says |
| `CausalFilter.CutoffMeaning` | scripts/research/tennis_label_audit.py:1124-1132 | There is a cutoff exactly when every validation match has a forecast time, and it is the earliest |
| `CausalFilter.PrecedenceExact` | scripts/research/tennis_label_audit.py:1103-1120 | On filtered ids the precedence check passes exactly when any are left |
| `CausalFilter.PrecedenceMeaning` | scripts/research/tennis_label_audit.py:1103-1120 | The check passes exactly when both sides have members, all times are known and no label time is later than a forecast; what is missing is counted |
| `SourceResolution.ResolveSourceExamples` | scripts/research/tennis_label_audit.py:292-312 | Kept is, for each prediction of an agreeing group, its first example by availability and key with the sources of all peers; conflicts list each disagreeing group with all its rows |
| `SourceResolution.Conservation` | scripts/research/tennis_label_audit.py:292-312 | Every row is represented by the kept example of its prediction with the same label, or listed in its group's conflict |
| `SourceResolution.KeptMeaning` | scripts/research/tennis_label_audit.py:292-311 | On the fields: an example is kept exactly when no row of its target, event and state has another label and it is first of its snapshot; with it the sources of all rows of that snapshot, flashscore where none is named |
| `SourceResolution.ConflictMeaning` | scripts/research/tennis_label_audit.py:294-305 | A group is listed exactly if two rows of one target, event and state have different labels, and then with all rows of that state |
| `SourceResolution.RankMeaning` | scripts/research/tennis_label_audit.py:310 | Earlier availability comes first, missing or empty last, and the key decides between equals |
| `SourceResolution.KeptAgree` | scripts/research/tennis_label_audit.py:302-311 | Kept examples of one state share their label, and a prediction keeps one |
| `SourceResolution.KeptIgnoresOrder` | scripts/research/tennis_label_audit.py:294-311 | The kept examples are the same for every order of the input |
| `SourceResolution.ConflictsIgnoreOrder` | scripts/research/tennis_label_audit.py:302-305 | So are the conflicting groups and the rows listed for them, each as often |
| `SourceResolution.MinByRank` | scripts/research/tennis_label_audit.py:310 | The kept example is first by availability, unknown last, then by key |
| `ArchiveBuild.BuildThenRead` | scripts/research/tennis_event_archive.py:30-165 | Building and reading an event yields exactly the payloads of its cache rows, each once, with the id and instant they decode to, in order of instant and then id |
| `ArchiveBuild.Build` | scripts/research/tennis_event_archive.py:61-104 | An archive is built exactly when the row count is the saved one, every row decodes, and no event has two rows of one id and instant; it then holds every event, and otherwise the error says which of these failed |
| `ArchiveBuild.DistinctMeaning` | scripts/research/tennis_event_archive.py:85-90 | The keys of an event are distinct exactly when no two of its rows decode to one id at one instant |
| `ArchiveBuild.IterEvent` | scripts/research/tennis_event_archive.py:141-165 | Membership and file presence decide between rows, nothing and the two errors about them; then the file decides, and with payloads on a mismatch is a record whose payload names another id, event or instant |
| `ArchiveBuild.ReadRecords` | scripts/research/tennis_event_archive.py:150-165 | Reading gives all rows, or the error of the first record that is cut or, with payloads on, disagrees |
| `ArchiveBuild.CutEventFile` | scripts/research/tennis_event_archive.py:150-155 | A file cut inside a record is rejected; cut between records it reads as a prefix |
| `ArchiveBuild.Partition` | scripts/research/tennis_event_archive.py:47-55 | Bucket k holds the framed rows of the events whose first byte is k, in cache order |
| `ArchiveBuild.GroupBucket` | scripts/research/tennis_event_archive.py:65-80 | Grouping a bucket accepts exactly good rows and gives every event its entries in order |
| `ArchiveBuild.WriteEvent` | scripts/research/tennis_event_archive.py:82-92 | A file is written exactly when no key repeats, and holds the sorted entries |
| `ArchiveBuild.WriteBucket` | scripts/research/tennis_event_archive.py:81-94 | A bucket's files are those of its events, and the rows written are the rows read |
| `Archive.BucketKeepsEvent` | scripts/research/tennis_event_archive.py:52-54 | All rows of an event, and their order, survive in its one bucket |
| `Archive.NeighboursSuffice` | scripts/research/tennis_event_archive.py:85-90 | Comparing neighbours of the sorted list finds every repeated key |
| `Archive.SortDistinct` | scripts/research/tennis_event_archive.py:82 | Sorting neither hides nor creates a repeated key |
| `Archive.InstantRoundTrip` | scripts/research/tennis_event_archive.py:77-79 | Timestamps survive the microsecond count exactly, also before the epoch, and fit in 64 bits |
| `Archive.EntryFrameRoundTrip` | scripts/research/tennis_event_archive.py:91-92 | An entry survives its header |
| `Archive.RecordLayout` | scripts/research/tennis_event_archive.py:20-21 | A record is 16 bytes of id, 8 of time in two's complement, 4 of length, the most significant byte first, and the payload |
| `Frames.FramesRoundTrip` | scripts/research/tennis_event_archive.py:150-156 | Length-prefixed records read back |
| `Frames.FrameLayout` | scripts/research/tennis_event_archive.py:19-20 | A record is its head, the length in four bytes, the most significant first, and the payload |
| `Frames.CutFile` | scripts/research/tennis_event_archive.py:67-73 | A cut file parses exactly when the cut is between records |
| `Bytes.SignedRoundTrip` | scripts/research/tennis_event_archive.py:91 | Signed 64-bit numbers survive eight bytes |
| `Bytes.BigEndian` | scripts/research/tennis_event_archive.py:19-20 | Four bytes are read with the most significant first, and eight as two times four |
| `EditDistance.Distance` | scripts/link_tennis_players.py:59-68 | The two-row loop gives the edit distance when lengths differ by at most one and 9 otherwise |
| `EditDistance.LevIsLowerBound` | scripts/link_tennis_players.py:59-68 | No edit script is cheaper than the distance |
| `EditDistance.CheapestScript` | scripts/link_tennis_players.py:59-68 | Some edit script costs exactly the distance |
| `EditDistance.LevSymmetric` | scripts/link_tennis_players.py:59-68 | The distance is symmetric |
| `EditDistance.LevAtLeastLengthGap` | scripts/link_tennis_players.py:60-61 | The distance is at least the length difference |
| `EditDistance.Reachable` | scripts/link_tennis_players.py:141-155 | The indexed lookup finds, each once and with its distance, exactly the query itself and, from six characters on, the surnames at one edit with the same two first characters |
| `EditDistance.BuildBuckets` | scripts/link_tennis_players.py:136-138 | Each bucket holds exactly the surnames of its prefix and length, each once |
| `EditDistance.Pool` | scripts/link_tennis_players.py:145-147 | The pool is the surnames of the same prefix at most one shorter or longer |
| `EditDistance.AcceptsShortOnlyEqual` | scripts/link_tennis_players.py:152-154 | A query under six characters accepts itself only |
| `Ledger.Database.Commit` | migrations/versions/003_immutable_ledger.py:20-35 | A commit only appends entries; it goes through exactly when the statements do and every account whose balance was updated is within a cent of initial balance plus non-deposit entries; afterwards an account is balanced exactly if the statements keep it |
| `Ledger.CommitKeeps` | migrations/versions/003_immutable_ledger.py:39-83 | The exact condition, read off the statements: after a commit an account, old or new, is balanced if and only if its balance is set once it stands, or its opening balance fits the initial balance and entries the statements leave |
| `Ledger.CommitsExactly` | migrations/versions/003_immutable_ledger.py:20-83 | Whether a transaction commits, read off its statements: none raises, and every balance that is set is in the end within a cent of initial balance plus non-deposit entries, all within the numeric range |
| `Ledger.FailsExactly` | migrations/versions/003_immutable_ledger.py:20-35 | A transaction raises exactly if it touches entries, inserts an account that stands, or an entry of an account that does not |
| `Ledger.SumOneMore` | migrations/versions/003_immutable_ledger.py:57-61 | Every entry of the account but initial deposits counts with its amount |
| `Ledger.Database.Run` | migrations/versions/003_immutable_ledger.py:39-83 | Over every history: which transactions commit, what tables they leave, which accounts each keeps balanced, and that all are balanced in the end exactly if the last commit keeps all |
| `Ledger.QueueDecides` | migrations/versions/003_immutable_ledger.py:50-57 | Skipping stale row events never skips the last update: the queue decides as the updated accounts do |
| `Ledger.ExecuteKeepsQueue` | migrations/versions/003_immutable_ledger.py:76-83 | The last queued event of an updated account carries its current balance |
| `Ledger.FollowedAll` | migrations/versions/003_immutable_ledger.py:39-83 | What the statements do to one account's balance, initial balance and entries is what can be read off them |
| `Ledger.CarefulHistory` | migrations/versions/003_immutable_ledger.py:59-72 | If every entry and initial balance change comes with an update of its account anywhere in the transaction, all histories keep the equation for all accounts |
| `Ledger.LoneEntryBreaksBalance` | migrations/versions/003_immutable_ledger.py:76-83 | A lone entry fires no trigger, commits and breaks the equation |
| `CorpusCounts.CountsDb.Compute` | scripts/research/tennis_corpus_counts.py:23-62 | From every committed state and for every pattern of timeouts and deaths: a complete answer is the one-shot count of the rows retrieved by the cutoff, those of unknown availability, those available by it, and the different sources; an error is that of the last query asked, a failure or a timeout at a size that is not halved; and the number of answered queries is bounded by the rows |
| `CorpusCounts.CountsDb.Ask` | scripts/research/tennis_corpus_counts.py:29-61 | One query: an answer moves the count on, a timeout above 25 rows only halves the page, to no less than 25, anything else changes nothing |
| `CorpusCounts.CountsDb.CountPage` | scripts/research/tennis_corpus_counts.py:39-61 | One commit moves totals, cursor and source ids together, strictly on |
| `CorpusCounts.DocumentsPage` | scripts/research/tennis_corpus_counts.py:39-57 | A page of documents of any size continues the count without a gap or a repeat; a short one starts the second table |
| `CorpusCounts.VersionsPage` | scripts/research/tennis_corpus_counts.py:44-61 | A page of versions does so with the source ids; a short one completes the count |
| `CorpusCounts.PageAt` | scripts/research/tennis_corpus_counts.py:34-39 | The keyset query returns the next piece of the rows in scope, short only at their end |
| `CorpusCounts.CountsAppend` | scripts/research/tennis_corpus_counts.py:46-55 | Counts add up and sources unite over pieces |
| `CorpusCounts.ScopeMeaning` | scripts/research/tennis_corpus_counts.py:33-53 | The counts taken over the rows in scope are those of the whole table under the cutoff |
| `Keyset.Resumes` | scripts/research/tennis_corpus_counts.py:35-39 | Filtering behind the k-th selected row of an ordered table selects exactly the rest |
| `HistoryPaging.ScanEvent` | scripts/research/tennis_history_coverage.py:229-272 | For every pattern of timeouts a finished scan reports what one pass over the live tennis snapshots of the event, from its first sighting to the cutoff, reports, with at most three retries; otherwise the last query asked ended it with an error; in either case at most four queries more than rows in scope are asked |
| `HistoryPaging.ScanMeaning` | scripts/research/tennis_history_coverage.py:137-149 | On the fields: all these snapshots are counted, the labelled ones listed in order with their labels, and each label counted |
| `HistoryPaging.BoundedRead` | scripts/research/tennis_history_coverage.py:125-134 | The page read is that of the size in use after the timeouts so far; an error is a failure or a timeout at the smallest size |
| `HistoryPaging.NextPage` | scripts/research/tennis_history_coverage.py:229-272 | One page reports the next snapshots, and stops exactly at the end of the scope |
| `HistoryPaging.VisitPage` | scripts/research/tennis_history_coverage.py:237-270 | Visiting a page extends count, index and label counts by exactly its rows |
| `HistoryPaging.PageAt` | scripts/research/tennis_history_coverage.py:137-149 | The keyset query on time and id returns the next piece of the scope |
| `HistoryPaging.SizesHalve` | scripts/research/tennis_history_coverage.py:131-134 | The page size depends on the number of timeouts only, halved for each but not below 100, and a living scan has met at most three |
| `WitnessQuery.SplitChangesNothing` | scripts/research/recover_tennis_result_witnesses.py:124-133 | However timeouts split a group, the answer is that of asking each candidate alone, with fewer than two queries a candidate; the queries asked are exactly those of working through the group, a timeout putting the halves in its place, and it goes without an answer only if the last of them failed, or timed out about a single candidate |
| `WitnessQuery.SplitDrains` | scripts/research/recover_tennis_result_witnesses.py:124-133 | Recursive halving asks the same queries in the same order, and ends the same way, as working through a list of groups that knows only their sizes |
| `WitnessQuery.DrainFatal` | scripts/research/recover_tennis_result_witnesses.py:124-133 | Working through a list ends early only at a query that really was asked about the size at which it is fatal |
| `WitnessQuery.DrainAppend` | scripts/research/recover_tennis_result_witnesses.py:124-133 | Of two lists of groups in a row the second is come to exactly if nothing in the first is fatal, at the query where the first ends |
| `WitnessQuery.QueryAnswersAlone` | scripts/research/recover_tennis_result_witnesses.py:84-121 | The group-wide time bounds do not show in the answer |
| `WitnessQuery.LookupIsLatest` | scripts/research/recover_tennis_result_witnesses.py:91-113 | The two lateral steps find the newest row within the candidate's own bounds, the highest id among equals, or there is none |
| `WitnessQuery.AloneMeaning` | scripts/research/recover_tennis_result_witnesses.py:84-121 | On the fields: the newest tennis row of the event from the lower bound to the earlier of cutoff and metadata time, the highest id among equals; in the score search, of those with just the numbers of the final score and no leading zero |
| `WitnessQuery.EligibleMeaning` | scripts/research/recover_tennis_result_witnesses.py:91-121 | Which rows the query looks at |
| `WitnessQuery.PatternHasSignature` | scripts/research/recover_tennis_result_witnesses.py:119-121 | A row the score search finds has the final score's signature |
| `WitnessQuery.SearchExact` | scripts/research/recover_tennis_result_witnesses.py:119-121 | A row with the final score's signature is found exactly when none of its digit groups has a leading zero |
| `WitnessQuery.SearchMissesLeadingZero` | scripts/research/recover_tennis_result_witnesses.py:119-121 | A row that has the signature but is not found |
| `WitnessRecovery.Recovery.Run` | scripts/research/recover_tennis_result_witnesses.py:136-217 | Over every run with errors, alarms and kills: the checkpoint is a growing prefix of the true verdicts; the queries asked are exactly those of the groups behind the old checkpoint, fewer than four a candidate, each group as large as it really is; batches are saved until a group is lost or an alarm goes off; the witnesses published are those of the rows judged; and the report is complete exactly if all are, no group was lost, and neither alarm nor kill came between |
| `WitnessRecovery.Recovery.Work` | scripts/research/recover_tennis_result_witnesses.py:165-207 | Batch after batch: the rows in memory and the saved ones are prefixes of the truth, the same unless an alarm came before saving; the queries asked are those of the batches done; the loop ends with all rows, a lost group or an alarm |
| `WitnessRecovery.Recovery.Batch` | scripts/research/recover_tennis_result_witnesses.py:171-201 | One batch is asked about, added and saved, unless one of its groups is lost or an alarm goes off; then nothing is saved |
| `WitnessRecovery.Recovery.Publish` | scripts/research/recover_tennis_result_witnesses.py:208-217 | The index holds the witnesses of the rows in memory, the report is complete exactly for all rows without an error, and a kill between the two leaves the old report |
| `WitnessRecovery.Recovery.LostIsFatal` | scripts/research/recover_tennis_result_witnesses.py:124-133 | Working through the groups of a run ends early only at a failure or the timeout of a single candidate, at the last query asked and at the size it was asked with; there are fewer than four queries a candidate |
| `WitnessRecovery.Recovery.CompleteBatch` | scripts/research/recover_tennis_result_witnesses.py:171-200 | A batch's rows continue the true verdicts, and the queries asked are those of its groups |
| `WitnessRecovery.LookUpBatch` | scripts/research/recover_tennis_result_witnesses.py:174-182 | After all groups of a batch the dictionary judges every candidate by its own row; the queries asked are those of groups of five and of the candidates of each whose latest row does not verify |
| `WitnessRecovery.AnswerGroup` | scripts/research/recover_tennis_result_witnesses.py:175-182 | Latest rows, then the score search for exactly those that do not verify, give each candidate its own row, unless a query of one of the two is fatal |
| `WitnessRecovery.WitnessSound` | scripts/research/recover_tennis_result_witnesses.py:41-48 | A witness is a row of the event within the bounds with exactly the final score, newest of its kind, not after the metadata time |
| `WitnessRecovery.WitnessComplete` | scripts/research/recover_tennis_result_witnesses.py:183-188 | A witness is found exactly when the latest row, or the latest the score search finds, proves the result; no snapshot means none is eligible |
| `WitnessRecovery.VerdictMeaning` | scripts/research/recover_tennis_result_witnesses.py:41-48 | The verdict on the fields: no row, another source event, another score or a proof, of the latest row if that proves the result, and otherwise of the one the score search finds if there is one |
| `WitnessRecovery.EvidenceMeaning` | scripts/research/recover_tennis_result_witnesses.py:208 | The witnesses published are those of the rows that have one, in their order |
| `WitnessRecovery.WitnessOfPlainScores` | scripts/research/recover_tennis_result_witnesses.py:175-188 | Where no saved score has a leading zero, a result is confirmed exactly by the newest eligible row that shows it |
| `MatchIdentity.PreserveMatchIds` | scripts/build_canonical_tennis.py:243-279 | The aliases and the used ids make each row the survivor it alone claims first, and leave all other rows |
| `MatchIdentity.BuildAliases` | scripts/build_canonical_tennis.py:252-264 | An alias maps to exactly the survivors that list it |
| `MatchIdentity.OwnersMeaning` | scripts/build_canonical_tennis.py:252-272 | A row's owners are the stored matches, not marked duplicate, whose list of sources names one of the row's with a colon in it |
| `MatchIdentity.ColumnsStay` | scripts/build_canonical_tennis.py:266-279 | Row order and all other columns stay; id and key change together to those of a survivor sharing a source |
| `MatchIdentity.SurvivorGivenOnce` | scripts/build_canonical_tennis.py:273-277 | No stored id goes to two rows, and the survivor taken is the row's only owner |
| `MatchIdentity.DuplicatesOwnNothing` | scripts/build_canonical_tennis.py:254-256 | Leaving out the rows marked duplicate changes nothing |
| `MatchIdentity.Fixpoint` | scripts/build_canonical_tennis.py:243-279 | Rebuilding over the stored rows themselves changes nothing, for any rows |
| `MatchIdentity.RebuildStable` | scripts/build_canonical_tennis.py:243-279 | With disjoint sources, the same rebuild over its own result gives that result again exactly unless an earlier row that takes over nothing has as its fresh id the one a later row takes over |
| `MatchIdentity.FreshIdCollides` | scripts/build_canonical_tennis.py:273-277 | Such a collision exists, and then the rebuild is not stable |
| `PlayerIdentity.PreservePlayerIds` | scripts/build_canonical_tennis.py:282-324 | In place, each player takes the only candidate of its best tier if it is the first to claim it |
| `PlayerIdentity.Candidates` | scripts/build_canonical_tennis.py:308-317 | The candidates are those of the first tier that offers any |
| `PlayerIdentity.Index` | scripts/build_canonical_tennis.py:289-304 | An alias maps to exactly those who have it |
| `PlayerIdentity.ClaimMeaning` | scripts/build_canonical_tennis.py:308-319 | A prior id is claimed exactly when a sole-owned source of the best tier speaks for it and none of that tier for another |
| `PlayerIdentity.ClaimBySources` | scripts/build_canonical_tennis.py:306-319 | A prior id is claimed exactly when a source speaks for it that ranks, among sackmann_sqlite, tml, api_tennis and tennis_explorer, above every source that speaks for another |
| `PlayerIdentity.SpeaksMeaning` | scripts/build_canonical_tennis.py:289-313 | A source speaks for a prior id if it gives the player an id that nobody else has at it now and that the stored player had |
| `PlayerIdentity.PriorIdGivenOnce` | scripts/build_canonical_tennis.py:320-323 | No prior id goes to two identities, and whoever takes one is its sole owner at the best tier |
| `PlayerIdentity.Fixpoint` | scripts/build_canonical_tennis.py:282-324 | Rebuilding over the stored players themselves changes nothing |
| `PlayerIdentity.RebuildStable` | scripts/build_canonical_tennis.py:282-324 | The same rebuild over its own result gives that result again exactly unless an earlier player that takes over nothing has as its fresh id the one a later player takes over |
| `PlayerIdentity.FreshIdCollides` | scripts/build_canonical_tennis.py:320-323 | Two such players, and their rebuild is not stable |
| `Session.TokenRoundTrip` | services/backend/app/admin_auth.py:43-61 | A token speaks for the user it was made for exactly if that is the configured one and the time is before expiry; without configuration none is made |
| `Session.SignatureMeaning` | services/backend/app/admin_auth.py:32-34 | A signature reads back as the keyed digest of the payload |
| `Session.OneDigestAccepted` | services/backend/app/admin_auth.py:50-52 | Over one payload no other digest than its own under the secret is accepted |
| `Session.SignedInSound` | services/backend/app/admin_auth.py:50-61 | Whoever is signed in is the configured user with a signature that reads back as the keyed digest of a payload naming that user and a later time |
| `Session.LoginAdmits` | services/backend/app/admin_auth.py:26-29 | Right credentials give a token that is admitted until it expires, wrong ones give none, and without configuration, that is without user, secret or a hash of 64 characters, every request is refused |
| `Session.SplitAtFirstDot` | services/backend/app/admin_auth.py:55 | Payload and signature are found again at the first dot |
| `Session.StripMeaning` | services/backend/app/admin_auth.py:18-19 | Stripping takes off white space at both ends and nothing else |
| `Base64Url.RoundTrip` | services/backend/app/admin_auth.py:45-58 | Every byte string survives encoding, cutting the padding, refilling it and decoding |
| `Base64Url.DigitMeaning` | services/backend/app/admin_auth.py:34 | The digits are the letters, the numbers, hyphen and underscore, in this order |
| `Base64Url.FourMeaning` | services/backend/app/admin_auth.py:34 | Four digits are the 24 bits of three bytes, the first byte highest |
| `Base64Url.CutAndRefill` | services/backend/app/admin_auth.py:40 | The cut encoding has digits of the alphabet only, never a dot, and its padding can be counted back |

## Left out

Assumed of things the model does not look into:

- JSON, zlib, SHA-256, HMAC (section 2 of RFC 2104): functions passed in. `Jsonl.Codec.Faithful`
  says what the merge needs of JSON: a rendered row is one line of at least five bytes, parses
  back, and blank lines and lines of zero bytes do not parse. `Session.JsonFaithful` says that a
  dumped payload loads again.
- File fingerprints: a fingerprint determines the content it was taken of, and the fingerprint of
  a file is a function of its content; an unchanged fingerprint over changed bytes is not modelled.
- Cuts: after a cut the output file shows a prefix of what was written, at least as long as the
  part synced. `os.replace`, a JSON state written through it and an sqlite commit are atomic.
- heapq, list.sort, sorted, bisect inside Python: specified by what they return; the heap is a
  map from input to waiting row of which the least is taken.
- Database tables: finite sequences that do not change during a run, with unique ids.
- Digests of whole archives and of membership lists: two different contents are told apart.

Not modelled:

- In `_write_merged_training_examples` and the sort: progress files, and the difference between
  the Unicode white space of str.strip and the ASCII white space of bytes.strip.
- In the scan: the text form of timestamps, and the order of labels in a saved record, which
  depends on chunk boundaries; the label set is modelled.
- In `run_resumable`: settings and version mismatches, re-hashing of completed batches, the
  contents of index files and reports, the snapshot cache; `_finalize` beyond the membership check.
- `build_report`, `_materialize_odds_free_feature_values`, tournament classifiers and report text.
- `_source_point_key` and `_snapshot_matches_source_point`: branch-local, and point scores only;
  in the history scan the labels of a snapshot are a function passed in.
- In the set machine: numbers of JSON that Python takes as equal to integers (true, 1.0) in the
  keys of the alignment, and a game_score that cannot be turned into a tuple.
- In the archive: manifest and membership file digests, rows a generator yields before it fails.
- In `options_for`: gender, initial and date windows, which narrow the pool after the surname match.
- In the ledger: deletion of accounts, TRUNCATE (row triggers do not fire on it, so entries only grow
  without it), SET CONSTRAINTS IMMEDIATE, concurrent transactions.
- In the walk-forward split: rounding of floats in `* 0.8` and `* 0.6` (exact floors are used),
  reuse of an existing manifest, its digest, window summaries.
- In source resolution: the order in which conflicts are listed.
- In the history scan: baseline counts, text of index rows, files of events without a result.
- In the witness recovery: the queries of a batch that an alarm or the end of the process cuts off,
  which leave no trace and are not counted; digests of the checkpoint, the loading of candidates (their final
  scores have at least six numbers, which official_result is left to ensure), the regular
  expression itself, modelled as equality of digit groups, and digits outside ASCII.
- In id preservation: stored source lists that are JSON but no list, and players whose
  source ids are no dictionary; uniqueness of freshly generated ids is not assumed.
- In the session: the leniency of Python's base64 decoder towards characters outside the alphabet
  in a payload that carries a valid signature, str.lower outside ASCII, cookies.
- The API-Tennis importers and the metric dirty-generation triggers: their other halves are not
  in the repository's text.
