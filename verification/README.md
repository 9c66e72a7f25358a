# Verified model of minhq header compression

This project models the header-compression package of minhq (`hc`), the bit-level
reader and writer below it (`io`) and the frame layer (`frame.go`), and proves that
what one end writes the other end reads.

- **QPACK** is modelled as a distributed system. An encoder sends table updates on one
  stream and header blocks on others; a decoder replays the updates, waits for the
  entries a block needs, reads it line by line and sends acknowledgments back. A run
  (`QpackProtocol.Run`) is any interleaving of block writes, update delivery,
  announcements to the ack writer, its timer, line by line reading, acknowledgments,
  cancellations and changes of the blocked-stream limit. `QpackSteps` shows that every
  step keeps the invariant; `QpackRuns`, `QpackAcks` and `QpackBlocked` have the theorems
  about runs, and `QpackOctets` takes them down to octets.
- **The encoder and the decoder** are also modelled as the objects the source has
  (`QpackEncoder.Encoder`, `QpackDecoder.Decoder`, `DynamicTable.Table`,
  `QpackEncoderTable.EncoderTable`, `AckWriter.Acknowledger`), with the same fields and
  loops. Their contracts tie each call to the functions the protocol steps are made of.
- **HPACK** is a lockstep codec: `Hpack` has the functions, `HpackCodec` the objects,
  `HpackWire` the octets and `HpackRuns` the theorem about all runs.
- **Integers, strings, Huffman coding, bits and frames** are in `HpackInt`,
  `HpackString`, `Huffman`, `HuffmanTable`, `Bits`, `BitIO`, `BitStreams` and `Frame`:
  functions over bit strings, and methods over a reader and a writer object proved
  against them.

A dynamic table is described by its insert history (`History`): the entry with base `b`
is `h[b - 1]`, and the table holds as many of the newest entries as fit. Everything
about plans (`QpackWriter.Plan`) holds for every lookup result and indexing policy;
`QpackPolicy.Decide` and `Hpack.Decide` say which plan the encoders take, and
`QpackEncoder.Encoder.WriteHeaderBlock` and `HpackCodec.Encoder.WriteHeaderBlock` that
they take no other. `QpackDecisions` and `Hpack.DecideExactly` say what these decisions
come to, outcome by outcome, in terms of the entries in the table alone; `QpackBases` has
blocks that other peers write, and `LeadingOctets` the first octet of all that is sent.

A block is *safe* if everything it refers to is in the encoder's table when its table
changes are done. A run is *truthful* if, whenever the ack writer sends an increment,
the value it assigned last is the largest it has acknowledged; it is *directed* if no
header acknowledgment is taken for that of a block written since the encoder processed a
cancellation of the stream; it is *honest* if both. The theorems about blocks and tables
are for every run; those that need more say so.

## What was found

These properties do not hold of the code as one would first state them. Each has a
lemma with a concrete case and a lemma that says exactly when it does hold.

| claim | fails | holds exactly when |
|---|---|---|
| Every line of a block can be read once its largest reference is in the table (hc/qpackencoder.go:85-96: a reference to a name alone does not lower `smallestBase`, so an insert of the same block, even the one made for that very field, may evict the entry) | `QpackMisread.UnsafeReachable`: a run in which a block is read, without an error, as a header list that was never sent | `QpackNames.ReadsExactly`: for a decoder with every update, the entries the block only names survive its table changes |
| Every safe block is read as it was written | `QpackTooFar.SafeMisreadReachable`: after an overclaim, a block whose one reference is in the table is read, without an error, as a list that was never sent | `QpackRuns.EveryBlockReadIsExact`, `QpackRuns.SafeBlocksStayReadable`: its largest reference was not ahead of the decoder's insert count, when it began, by more entries than fit, or had not wrapped; so in every honest run (`QpackRuns.SafeBlocksReadRight`) |
| The decoder waits on no more streams than the limit allows (it waits for what it takes the largest reference for, hc/qpackdecoder.go:379-388) | `QpackMisread.LimitExceeded`: in an honest run it waits on a stream under a limit of zero; `QpackLate.InTimeExceeds`: after an overclaim it waits on two in time under a limit of one | `QpackBlocked.WaitsExactly`, `QpackBlocked.BlockedStreamsBounded`: it waits for what the block refers to exactly if it began on it within the window, and such streams are within the limit while the encoder's mark has not passed the inserts received, as in every honest run (`QpackBlocked.BlockedInHonestRuns`) |
| A header acknowledgment releases the block it is for (the encoder forgets a stream when it processes its cancellation, hc/qpacktable.go:222-256, and the stream may be written on again) | `QpackLate.LateAckReachable`: a truthful run in which a late acknowledgment releases a block that was never read, and the mark passes what the decoder has received | the run is directed; `QpackAcks.WritesInOrderDirected`: so if a stream whose cancellation was processed is written on only when no acknowledgment for it is still to come |
| Table state synchronizations never claim more inserts than were received (hc/qpackdecoder.go:64 assigns `largestAcknowledged`), even if header acknowledgments never decrease | `QpackOverclaim.OverclaimReachable`: a run with a single header acknowledgment, after which the encoder's mark is above the decoder's insert count | `AckWriter.TruthfulExactly`, `QpackAcks.TruthfulRuns`: at each of them the value last assigned is the largest acknowledged so far; `QpackAcks.InOrderRuns`: so if no block is acknowledged after something larger |
| `decodeLargestBase` inverts `encodeLargestReference` | outside the window | `QpackBlock.LargestRecovered`: within M inserts of the decoder, or not wrapped yet |
| `ReadString` inverts `WriteStringRaw` | the empty string with Huffman forced is an end of input | `HpackString.StringRoundTrip`: `Survives` |
| `SetReferenceableLimit` keeps the referenceable size within the limit (hc/qpacktable.go:417-426 never reduces `remainingSpace`) | `QpackEncoderTable.LimitNotKept` | `QpackEncoderTable.EncoderTable.SetReferenceableLimit`: the entries before the first that is not smaller than the limit are among the newest that fit in it together, as on an empty table; after that every insert keeps it (`QpackEncoderTable.EncoderTable.Insert`) |
| An HPACK encoder that refuses a list leaves its table as it was (hc/hpack.go:336-344) | `Hpack.RefusedChangesTable` | `Hpack.RefusedKeepsTable`: no capacity change was due and nothing before the misplaced field was inserted |
| A post-base name reference denotes the entry the encoder's form is meant for (hc/qpackdecoder.go:323) | `QpackBases.PostBaseForms`: it denotes the entry before | `QpackBases.AnyBaseReads`: the entry before it is in the table and has the same name; never written here: `QpackBlock.NoPostBase` |

The model follows the code in these places where comments or names say otherwise:
`WriteFrame` returns one octet more than it writes (`Frame.WriteFrame`); `blockedStreams`
is an upper bound and not a count, because an acknowledgment that unblocks several
streams subtracts one (`QpackUsage.AckHeaderKeeps`); a name is never found by
`LookupExtra`, because its test on the name match is inverted; `ServiceAcknowledgments`
drops the errors of the calls it makes, so a rejected acknowledgment changes nothing and
is not reported.

## Model

| member | source | states |
|---|---|---|
| QpackRuns.EveryBlockReadIsExact | hc/qpackdecoder.go:408-484 | in every run, every block that has been read and whose largest reference the decoder recovered yields exactly the header list it was written for, names in lower case and sensitive flags kept; the exact window in which it is recovered, and for a safe block the one side of it that can fail |
| QpackRuns.SafeBlocksReadRight | hc/qpackdecoder.go:408-484 | in every honest run every safe block that has been read yields exactly the header list it was written for |
| QpackRuns.LowerCaseReadBack | hc/qpackencoder.go:32-40 | in every run a block whose names have no upper-case octet, and whose largest reference was recovered, is read as exactly the list given to be written |
| Headers.LowerExactly | hc/qpackencoder.go:32-40 | lower-casing leaves no upper-case octet, leaves a string alone exactly if it has none, and makes two strings equal exactly if they agree up to ASCII case |
| Headers.LowerAllExactly | hc/qpackencoder.go:32-40 | the names of a list are left alone exactly if none has an upper-case octet; values and flags always are |
| QpackRuns.SafeBlocksStayReadable | hc/qpackdecoder.go:351-405 | in every state of every run the largest reference of a safe block in flight is recovered at the decoder's current insert count if and only if it is not too far ahead, and once it is reached every line reads as its field |
| QpackRuns.NeverTooFarAhead | hc/qpackencoder.go:204-226 | in every honest run no block in flight is too far ahead |
| QpackRuns.DecoderFollows | hc/qpackdecoder.go:126-242 | in every run the decoder's table is the encoder's as it was at the decoder's insert count, and the updates in flight take it to the encoder's present table |
| QpackRuns.EncoderInOrder | hc/qpackencoder.go:545-636 | in every run, truthful or not, no unacknowledged entry has been evicted, and `blockedStreams` bounds the streams that may be blocked, within the limit |
| QpackAcks.AcknowledgedIsReceived | hc/qpackencoder.go:545-595 | in every honest run the mark never passes what the ack writer has claimed, and that never passes the decoder's insert count |
| QpackAcks.MarkBehindMessages | hc/qpackencoder.go:545-595 | in every honest run the mark, after any number of messages delivered, is at most what those messages claim |
| QpackAcks.MarkBehindWriter | hc/qpackdecoder.go:57-117 | if acknowledgments come in order and are directed, the mark after any number of messages is at most `largestAcknowledged` when those had been sent |
| QpackAcks.WritesInOrderDirected | hc/qpacktable.go:222-256 | a header acknowledgment can be taken for that of another block only if such a block was written, on a stream whose cancellation was processed, while it was still to come |
| QpackAcks.IncrementsBounded | hc/qpackdecoder.go:99-110 | in every run an increment is at most what the decoder has inserted |
| QpackAcks.EventsMatch | hc/qpackdecoder.go:47-118 | the ack writer of a run is the one that handles its events, and the messages under way are those of its log that have not been delivered |
| QpackAcks.NoAckRejected | hc/qpackencoder.go:565-611 | in every honest run every increment stays within what was sent, every header acknowledgment finds the block it is for, with the same largest reference or one that was acknowledged before, or nothing if the stream's cancellation was processed; and a cancellation for which nothing is recorded changes nothing |
| QpackBlocked.WaitsExactly | hc/qpackdecoder.go:379-388 | in every run the decoder waits for the largest reference of a block, and nothing else, exactly if it began within the window |
| QpackBlocked.WaitsCounted | hc/qpackencoder.go:43-55 | in every honest run it does for every safe block, and the encoder has counted on a block that waits exactly if it did |
| QpackBlocked.BlockedStreamsBounded | hc/qpackencoder.go:43-55 | in every state of every run in which the mark has not passed the decoder's inserts, the streams on which the decoder waits, for blocks it is in time for, are at most `blockedStreams`, which is at most the limit; so are all of them if it is in time for all |
| QpackBlocked.BlockedInHonestRuns | hc/qpackencoder.go:43-55 | so it is in every state of an honest run |
| QpackRuns.InUseNeverEvicted | hc/qpackencoder.go:106-122 | in every run no step evicts an entry that an outstanding block refers to |
| QpackAcks.TruthfulRuns | hc/qpackdecoder.go:99-110 | a run is truthful if and only if no increment makes the messages claim more inserts than were announced |
| QpackAcks.InOrderRuns | hc/qpackdecoder.go:63-70 | if no block is acknowledged after something larger, the value assigned last is always the largest claimed and the run is truthful |
| QpackSteps.StepKeeps | hc/qpackencoder.go:300-636 | every step of the protocol keeps the invariant, and every honest one what holds beside it while acknowledgments are honest |
| QpackRuns.RunOk | hc/qpackencoder.go:300-636 | every state of every run satisfies the invariant, and of every honest run the rest of it |
| QpackSteps.DeliverClaims | hc/qpackencoder.go:545-595 | taken at face value, the acknowledgments under way never exceed what the ack writer claimed, which the decoder has |
| QpackSteps.BlockRecovered | hc/qpackdecoder.go:351-375 | what the decoder takes the largest reference of any block in flight for: itself, exactly in the window; a safe block never falls behind it, and with honest acknowledgments none is ahead of it |
| QpackOctets.OctetsAreExact | hc/qpackdecoder.go:379-484 | in every state of every run the octets of a safe block are read as its header list, or make the decoder wait for exactly its largest reference, if and only if that is not too far ahead |
| QpackOctets.UpdateOctetsFollow | hc/qpackdecoder.go:197-242 | in every run the octets of the updates in flight take the decoder's table to the encoder's |
| QpackOctets.AckOctetsDeliver | hc/qpackencoder.go:166-200 | in every run the octets of the acknowledgments in flight read as messages that take the encoder where their delivery takes it |
| QpackNames.SafeExactly | hc/qpackencoder.go:73-108 | a block is safe exactly when the entries it only names survive its own inserts; full matches always do |
| QpackNames.ReadsExactly | hc/qpackencoder.go:85-96 | a decoder that has every update works out the base and reads the block as its fields exactly when those entries survived |
| QpackMisread.UnsafeReachable | hc/qpackencoder.go:85-96 | an honest run from the initial state through the states of the next three rows |
| QpackMisread.ReadableWhenSent | hc/qpackencoder.go:85-96 | the block that refers to an evicted entry reads correctly at the insert count at which it is sent |
| QpackMisread.ErrorThenMisread | hc/qpackdecoder.go:351-375 | its line is an index error once its own update has arrived, and a decoder that begins then reads it in the end as a header list that was never sent |
| QpackMisread.LimitExceeded | hc/qpackdecoder.go:379-388 | meanwhile that decoder waits on a stream under a limit of zero |
| QpackMisread.OwnDecision | hc/qpackencoder.go:251-298 | the decision that leads there is the one the encoder takes |
| QpackMisread.OwnInserts | hc/qpackencoder.go:251-298 | so are the other two of that run, and the first leaves one entry referenceable |
| QpackOverclaim.OverclaimReachable | hc/qpackdecoder.go:57-117 | a run from the initial state, with a single header acknowledgment, after which the encoder's mark is above the decoder's insert count |
| QpackOverclaim.OwnDecisions | hc/qpackencoder.go:251-298 | the inserts of that run and of the next are the encoder's own decisions |
| QpackTooFar.SafeMisreadReachable | hc/qpackdecoder.go:351-375 | a run from the initial state in which a safe block is read, without an error, as a header list that was never sent |
| QpackLate.LateAckReachable | hc/qpacktable.go:222-256 | a truthful run from the initial state in which a late header acknowledgment releases a block written since, and the mark passes what was claimed and received |
| QpackLate.InTimeExceeds | hc/qpackencoder.go:43-55 | a step from the last state of the overclaiming run to one in which two streams wait, both in time, under a limit of one |
| QpackBases.PostBaseForms | hc/qpackdecoder.go:266-333 | the indexed post-base form denotes the entry meant, the name form the one before it |
| QpackBases.BaseRecovered | hc/qpackdecoder.go:389-404 | sign and delta give back the base, and no other sign and delta do |
| QpackBases.AnyBaseReads | hc/qpackdecoder.go:379-484 | a block written against any base is read as its fields if and only if its largest reference is recovered and every line leads to its entry, with the exact condition for each form |
| QpackBlock.LargestRecovered | hc/qpackencoder.go:485-494 | decoding the wrapped largest reference R at insert count T gives R if and only if T < R + M and R <= T + M, or R has not wrapped |
| QpackBlock.LineReads | hc/qpackdecoder.go:244-349 | a line reads as its field exactly when what it refers to is live in the decoder's table, and otherwise is an index error |
| QpackBlock.BlockReads | hc/qpackdecoder.go:408-484 | all lines read as the fields if and only if everything referred to is live |
| QpackBlock.NoPostBase | hc/qpackencoder.go:390-452 | every reference is at or below the base of the block, so no post-base form is written |
| QpackBlock.PlannedSentOk | hc/qpackencoder.go:496-525 | a block written by any permitted decisions is well formed, with the largest base among its references |
| QpackWriter.BlockWritten | hc/qpackencoder.go:302-388 | after any permitted decisions: `largestBase` is the largest base referred to, choices match their fields, full matches and entries in use are still in the table, and the emitted updates lead a decoder to the same table |
| QpackWriter.EmitKeeps | hc/qpackencoder.go:204-226 | an insert keeps the full matches of the block and all unacknowledged entries in the table |
| QpackWriter.InsertFollowed | hc/qpackencoder.go:251-298 | the decoder follows an insert with a name reference, even one that evicts the entry it names |
| QpackWriter.DuplicateFollowed | hc/qpackencoder.go:229-247 | the decoder follows a duplicate, even one that evicts the entry it copies |
| QpackWriter.ReplayPrefix | hc/qpackdecoder.go:126-183 | replaying any prefix of the updates gives the encoder's table at that insert count |
| QpackUsage.AckHeaderKeeps | hc/qpackencoder.go:583-595 | acknowledging a block keeps the encoder's invariant; the counter stays a bound on blocked streams |
| QpackUsage.AckInsertKeeps | hc/qpackencoder.go:565-579 | acknowledging inserts keeps the encoder's invariant |
| QpackUsage.AckResetKeeps | hc/qpackencoder.go:600-611 | cancelling a stream keeps the encoder's invariant |
| QpackUsage.AckedEntriesLive | hc/qpackencoder.go:545-561 | every entry above the mark is in the table, so the loop that accounts for it finds it |
| QpackUsage.RecordKeeps | hc/qpackencoder.go:381-387 | recording a block keeps the invariant and counts a newly blocked stream only within the limit |
| QpackCounts.InUseCounts | hc/qpacktable.go:146-153 | an entry is in use exactly if its count over all outstanding blocks is not zero |
| QpackCounts.AllRefsAdd | hc/qpacktable.go:160-166 | recording a block raises the counts of exactly what it refers to |
| QpackCounts.AllRefsRelease | hc/qpacktable.go:168-191 | releasing the oldest block lowers the counts of exactly what it referred to |
| QpackEncoder.StreamMax | hc/qpacktable.go:210-218 | the largest reference over the outstanding blocks of a stream |
| QpackEncoder.CountBlocked | hc/qpacktable.go:258-265 | the number of streams with a reference above the mark |
| QpackEncoder.Encoder.constructor | hc/qpackencoder.go:155-163 | a fresh encoder satisfies the invariant |
| QpackEncoder.Encoder.UpdateHighestAcknowledged | hc/qpackencoder.go:545-561 | the mark goes up and `unacknowledgedSize` stays the total size above it; every entry is found |
| QpackEncoder.Encoder.AcknowledgeInsert | hc/qpackencoder.go:565-579 | the new state is that of the protocol step, and which increments are refused |
| QpackEncoder.Encoder.AcknowledgeHeader | hc/qpackencoder.go:583-595 | the new state is that of the protocol step; counts stay exact |
| QpackEncoder.Encoder.AcknowledgeReset | hc/qpackencoder.go:600-611 | the new state is that of the protocol step; counts stay exact |
| QpackEncoder.Encoder.ReleaseEntries | hc/qpacktable.go:168-173 | the counts go down by exactly the entries of the block and none below zero |
| QpackEncoder.Encoder.ReleaseOldest | hc/qpacktable.go:235-246 | the oldest block is released; its largest reference and that of the rest |
| QpackEncoder.Encoder.ReleaseAll | hc/qpacktable.go:195-204 | all blocks of a stream are released and the counts are those of the others |
| QpackEncoder.Encoder.SetMaxBlockedStreams | hc/qpackencoder.go:629-636 | only the limit changes |
| QpackEncoder.Encoder.LookupReferenceable | hc/qpacktable.go:340-354 | the first match in the static table or among the referenceable entries within the allowed base, and the first by name |
| QpackEncoder.Encoder.LookupBlocked | hc/qpacktable.go:359-373 | whether a referenceable entry beyond the allowed base matches |
| QpackEncoder.Encoder.LookupExtra | hc/qpacktable.go:377-390 | the first full match past the referenceable entries; never a name match |
| QpackEncoder.Encoder.InsertEntry | hc/qpackencoder.go:204-226 | an entry is inserted if and only if it fits beside what is unacknowledged and nothing evicted is protected; the history and the number of referenceable entries either way |
| QpackEncoder.Encoder.WriteInsert | hc/qpackencoder.go:251-298 | an insert exactly if it is accepted, with its update; otherwise the name match and no update |
| QpackEncoder.Encoder.WriteDuplicate | hc/qpackencoder.go:229-247 | a duplicate exactly if it is accepted, with its update; otherwise a literal and no update |
| QpackEncoder.Encoder.WriteField | hc/qpackencoder.go:318-378 | for every field the loop takes the decision of the policy, which is permitted, and applies it |
| QpackPolicy.DecideOk | hc/qpackencoder.go:311-379 | every decision of the policy (full match, barred match, duplicate, insert, name, in this order) is one the protocol permits |
| QpackDecisions.DecideExactly | hc/qpackencoder.go:311-379 | each outcome and exactly when it is taken: indexed if a static entry or the newest one that may be referred to equals the field, duplicated if only copies past the referenceable ones do, the newest of them acknowledged and the insert acceptable, inserted if nothing in the table does, the name is not excluded and the insert is acceptable, with the best name otherwise, and a literal if it is sensitive |
| QpackDecisions.RefsExactly | hc/qpacktable.go:290-336 | how many entries are referenceable after a field: unchanged unless an insert was tried, the new one with as many as the limit allows if it was made, and none older than the entry that vetoed it otherwise |
| QpackDecisions.BlockingExactly | hc/qpackencoder.go:43-55 | a block may refer to anything exactly if fewer streams are counted as blocked than the limit or an outstanding block of the stream refers past the mark, and to nothing past the mark otherwise |
| QpackDecisions.IndexedExactly | hc/qpackencoder.go:302-379 | a field of a block is indexed if and only if it is not sensitive and equals a static entry, or a referenceable one that is acknowledged or that the stream may be blocked on, or was inserted and the stream may be blocked on it |
| QpackDecisions.NamedExactly | hc/qpackencoder.go:73-83 | a field not indexed is a literal with the first static or newest usable name if nothing in the table equals it, and with no reference otherwise |
| QpackDecisions.NoneBeyondMark | hc/qpackencoder.go:43-55 | a block on a stream that may not be blocked refers to nothing past the mark |
| QpackDecisions.SmallestIsLeast | hc/qpackencoder.go:85-96 | what protects the full matches of a block from eviction is exactly the least of their bases |
| QpackDecisions.RecordedExactly | hc/qpackencoder.go:57-104 | a block that refers to anything joins the outstanding ones, and the count of blocked streams rises exactly if it is the first of its stream to refer past the mark |
| QpackDecisions.ReleasedExactly | hc/qpackencoder.go:583-595 | an acknowledgment releases the oldest block of its stream only; the stream is counted off and the mark raised to its largest reference exactly if it was the last to refer past the mark |
| QpackDecisions.CancelledExactly | hc/qpackencoder.go:600-611 | a cancellation releases all blocks of its stream and counts it off exactly if one referred past the mark |
| QpackDecisions.IncrementedExactly | hc/qpackencoder.go:565-579 | an increment is refused exactly if it is zero or passes the inserts made; otherwise the streams that still refer past the new mark are counted |
| QpackPolicy.ChosenOnce | hc/qpackencoder.go:311-379 | for a table, a context and a header list there is only one sequence of decisions |
| QpackEncoder.Encoder.WriteTableChanges | hc/qpackencoder.go:302-388 | the decisions for the whole block are those of the policy, and the writer state is what they lead to |
| QpackEncoder.Encoder.EmitLines | hc/qpackencoder.go:496-525 | the lines for the choices, and use counts raised by exactly what they refer to |
| QpackEncoder.Encoder.WriteHeaderBlock | hc/qpackencoder.go:532-542 | the decisions are those of the policy, and the updates, the block and the new state are those of a write step of the protocol with them |
| QpackEncoder.MayEvictMeans | hc/qpackencoder.go:106-108 | the check on table positions allows exactly what the protocol allows to be evicted |
| QpackEncoderTable.EncoderTable.SetCapacity | hc/qpacktable.go:395-404 | before any insert the capacity changes and the limit follows it |
| QpackEncoderTable.EncoderTable.SetReferenceableLimit | hc/qpacktable.go:408-427 | what becomes referenceable, that its size is exact, and exactly when it is within the limit |
| QpackEncoderTable.LimitKept | hc/qpacktable.go:408-427 | the newest entries are within the limit exactly if they are among those that fit in it |
| QpackEncoderTable.LeadingSmall | hc/qpacktable.go:408-427 | every entry made referenceable by setting the limit is smaller than it |
| QpackEncoderTable.EncoderTable.Added | hc/qpacktable.go:290-299 | after an insert the referenceable entries are the most that fit in the limit |
| QpackEncoderTable.EncoderTable.Removed | hc/qpacktable.go:301-307 | an entry approved for eviction is no longer referenceable |
| QpackEncoderTable.EncoderTable.Insert | hc/qpacktable.go:314-336 | an insert happens exactly if allowed; the referenceable size is exact even after an attempt that was vetoed part way, and stays within the limit if it was |
| QpackEncoderTable.LimitNotKept | hc/qpacktable.go:408-427 | a limit set on a table with entries is exceeded |
| DynamicTable.Table.GetDynamic | hc/table.go:110-120 | the entry a number of places before a base, with that base |
| DynamicTable.Table.EvictTo | hc/table.go:123-136 | the oldest entries go until the rest fit if all of them may; otherwise nothing changes |
| DynamicTable.Table.ScanOldest | hc/table.go:123-136 | the loop stops at the first entry that may not go, or with exactly as many as must |
| DynamicTable.ApprovedExactly | hc/table.go:123-136 | the entries approved for eviction are the oldest up to the first that may not go |
| DynamicTable.Table.SetCapacity | hc/table.go:139-142 | entries are evicted to the new capacity |
| DynamicTable.Table.Insert | hc/table.go:145-170 | inserted if and only if it fits and nothing vetoes; a veto leaves the table as it was; an oversized entry empties it |
| DynamicTable.Table.Lookup | hc/table.go:182-205 | the first full match and the first name match, static entries before dynamic ones |
| DynamicTable.Table.LookupStatic | hc/table.go:184-193 | the loop over the static table |
| DynamicTable.Table.LookupDynamic | hc/table.go:194-203 | the loop over the dynamic table |
| TableSpec.GetDynamicStable | hc/table.go:110-120 | a base-relative lookup keeps returning the same entry across any number of inserts until it is evicted, and nothing after that |
| TableSpec.CanonGet | hc/table.go:110-120 | a lookup by base finds the entry with that base exactly while it is live |
| TableSpec.CanonInsert | hc/table.go:145-170 | an insert leaves exactly the entries that fit |
| TableSpec.SetCapacityHolds | hc/table.go:123-142 | a change of capacity keeps an entry if and only if it was there and it and all newer ones take no more than the new capacity; growing keeps all |
| TableSpec.InsertHolds | hc/table.go:145-170 | an insert keeps an entry if and only if it was there and there is room for it, everything newer and the new one; one too large empties the table |
| History.LiveEarlier | hc/table.go:123-136 | a table that is behind still has what a later one has |
| History.LiveCountBound | hc/table.go:58-60 | a table holds at most capacity / 32 entries |
| QpackDecoder.Decoder.ReadUpdate | hc/qpackdecoder.go:126-193 | the new table is that of the update, or an error leaves it alone |
| QpackReader.UpdateExactly | hc/qpackdecoder.go:126-195 | an update is an error exactly if the entry it refers to is not there or the new one does not fit; otherwise it appends exactly one pair, and which older entries stay |
| QpackDecoder.Decoder.ReadTableUpdates | hc/qpackdecoder.go:197-242 | the table after all updates, or an error if one of them is, with the table as the updates before it left it |
| QpackDecoder.Decoder.ReadField | hc/qpackdecoder.go:244-349 | each representation against the table and the base |
| QpackDecoder.Decoder.ReadHeaderBlock | hc/qpackdecoder.go:379-484 | wait, error, or the fields and the largest reference to acknowledge |
| AckWriter.TruthfulExactly | hc/qpackdecoder.go:47-118 | synchronizations are truthful if and only if the value last assigned is the largest acknowledged whenever one is sent |
| AckWriter.InOrderTruthful | hc/qpackdecoder.go:57-117 | if no block is acknowledged after something larger, all claims are truthful, and an insert not yet acknowledged has a timer running |
| AckWriter.NothingForgotten | hc/qpackdecoder.go:57-117 | whatever the order of the acknowledgments, every insert announced has been claimed or a timer is running, and is claimed once it fires |
| AckWriter.Acknowledger.Select | hc/qpackdecoder.go:47-118 | one turn of the select loop |
| QpackWire.LineRoundTrip | hc/qpackdecoder.go:244-349 | every representation reads back from its bits and leaves what follows |
| LeadingOctets.LineLead | hc/qpackencoder.go:390-483 | the first octet of every representation as a number |
| QpackWire.LineAligned | hc/qpackencoder.go:390-483 | every line is whole octets, so a block needs no padding |
| QpackWire.BlockRoundTrip | hc/qpackencoder.go:496-525 | the octets of a block give the block back |
| QpackWire.PrefixAsWritten | hc/qpackencoder.go:503-507 | the zero that the encoder writes with eight bits is the sign and the delta that the decoder reads |
| QpackWire.InstrRoundTrip | hc/qpackdecoder.go:140-242 | every table update reads back from its bits |
| LeadingOctets.InstrLead | hc/qpackencoder.go:229-298 | the first octet of every table update as a number |
| QpackWire.InstrsRoundTrip | hc/qpackdecoder.go:197-242 | a stream of updates reads back |
| QpackWire.AcksRoundTrip | hc/qpackencoder.go:166-200 | a stream of acknowledgments reads back |
| LeadingOctets.AckLead | hc/qpackdecoder.go:57-117 | the first octet of every acknowledgment as a number |
| Wire.AllRoundTrip | hc/qpackdecoder.go:408-484 | if each encoding reads back and leaves what follows, so does a sequence read to the end of the stream |
| Hpack.RepsRoundTrip | hc/hpack.go:329-365 | representations chosen with a table give a decoder with that table the fields and the same next table |
| Hpack.BlockRoundTrip | hc/hpack.go:152-219 | a block with its capacity changes decodes to its fields; tables and capacities end equal |
| Hpack.DecisionsOk | hc/hpack.go:345-358 | the decisions of the encoder for any list of fields are in order |
| Hpack.GetExactly | hc/hpack.go:43-52 | which indices denote an entry, and which one |
| Hpack.DecideExactly | hc/hpack.go:345-358 | a field that is not sensitive is sent by an index if and only if an entry equals it, and by the least; it is inserted if and only if none does, it fits and its name is not excluded; its name has the least index there is, or zero |
| HpackRuns.Lockstep | hc/hpack.go:152-219 | for any sequence of ordered header lists and capacity changes, with any permitted decisions and any coding preference for each list, the decoder has read from the octets, and accepted, exactly what was sent, and the tables and capacities are equal |
| HpackRuns.OwnDecisions | hc/codec.go:82-129 | whatever names are not indexed at the time, the encoder's own decisions are permitted |
| HpackRuns.StandardConfig | hc/huffman.go:83-87 | so it is with the code table in use and the tree built from it |
| HpackRuns.NeverStuck | hc/hpack.go:152-219 | every ordered list with non-empty names, strings that can be sent and permitted decisions is read as itself next |
| Hpack.LeastIsSignalled | hc/hpack.go:252-269 | the least capacity set between two blocks is sent to the decoder first |
| Hpack.RefusedKeepsTable | hc/hpack.go:336-344 | an encoder that refuses a list has its table as before if and only if no capacity change was due and nothing before the misplaced field was inserted |
| Hpack.RefusedChangesTable | hc/hpack.go:336-344 | one inserted field before the misplaced one is enough to change it |
| HpackCodec.Encoder.SetCapacity | hc/hpack.go:372-377 | the least and the next capacity, nothing else |
| HpackCodec.Encoder.WriteCapacityChange | hc/hpack.go:252-269 | the instructions sent and the resized table |
| HpackCodec.Encoder.WriteField | hc/hpack.go:271-326 | each field is represented by the one decision of the encoder: sensitive ones whole, a first full match by its index, an insert or a literal with the first name match |
| HpackCodec.Encoder.WriteHeaderBlock | hc/hpack.go:329-365 | the decisions, the block and the table for all fields, or for those before a misplaced pseudo-header field |
| HpackCodec.CheckedOrdered | hc/hpack.go:206-217 | the decoder's loop accepts exactly the lists whose pseudo-header fields come first |
| HpackCodec.Decoder.Lookup | hc/hpack.go:43-52 | one index space, static entries first |
| HpackCodec.Decoder.ReadRep | hc/hpack.go:83-149 | the field and the table after a representation |
| HpackCodec.Decoder.ReadHeaderBlock | hc/hpack.go:152-219 | the fields, or which error |
| HpackWire.RepBitsRoundTrip | hc/hpack.go:83-149 | every representation reads back from its bits and leaves what follows |
| LeadingOctets.RepLead | hc/hpack.go:240-327 | the first octet of every representation as a number |
| HpackWire.RepAligned | hc/hpack.go:240-326 | every representation is whole octets |
| HpackWire.OctetsRoundTrip | hc/hpack.go:152-219 | the octets of a block give its fields with their sensitive flags and leave both tables equal |
| HpackInt.IntRoundTrip | hc/io.go:25-55 | every 64-bit value and prefix reads back, with exactly its bits consumed |
| HpackInt.IntPrefixFree | hc/io.go:110-137 | no encoding of an integer starts another |
| HpackInt.TailExactly | hc/io.go:110-137 | continuation octets are the digits to the base 128, least significant first, with the top bit on all but the last |
| HpackInt.IntLonger | hc/io.go:110-137 | a larger value does not take fewer bits |
| HpackInt.WriteInt | hc/io.go:110-137 | the bits of the encoding are appended |
| HpackInt.ReadInt | hc/io.go:25-55 | the 64-bit arithmetic gives the exact value, or an overflow exactly where the value leaves 64 bits or the tenth octet exceeds 1 |
| HpackInt.ReadTail | hc/io.go:34-53 | no addition of the loop wraps |
| HpackInt.ReadIndex | hc/io.go:59-68 | also an error where the value does not fit a signed integer |
| HpackString.StringRoundTrip | hc/io.go:73-97 | a string reads back and leaves what follows, for every preference, except the empty one with Huffman forced, which is an end of input |
| HpackString.EmptyNotShortened | hc/io.go:153-197 | the empty string is compressed only if that is forced |
| HpackString.AutoShortest | hc/io.go:153-197 | left to itself the writer takes the shorter form of every string, and compresses exactly if that is shorter |
| HpackString.WriteStringRaw | hc/io.go:153-197 | the bits of the chosen encoding are appended |
| HpackString.Pack | hc/io.go:160-180 | compressed and padded with one-bits to whole octets |
| HpackString.ReadString | hc/io.go:73-97 | what is returned for every input, hidden errors included; the buffer is always larger than what is decoded |
| Huffman.MakeLayer | hc/huffman.go:46-79 | for every prefix-free table the recursion ends with a tree that accepts exactly its codes |
| Huffman.InflateCompress | hc/huffman.go:102-121 | decompressing compressed octets and up to seven padding bits gives them back |
| Huffman.InflatePadding | hc/huffman.go:35-37 | padding never completes a symbol |
| Huffman.InflateCode | hc/huffman.go:102-121 | a code is decoded to its octet and no more bits are used |
| Huffman.WriteCompressed | hc/huffman.go:23-32 | the codes of the octets are appended |
| Huffman.Decompressor.Read | hc/huffman.go:102-121 | reading into a buffer of any size gives the next octets and leaves the rest for later calls; at most one octet for five bits |
| HuffmanTable.CodesMeetRequirements | hc/huffmantable.go:9-267 | the code table is prefix-free with lengths from 5 to 30, and seven one-bits start a longer code |
| HuffmanTable.Canonical | hc/huffmantable.go:9-267 | the code is canonical: among codes of one length the smaller octet has the smaller code, and a longer code is past every extension of a shorter one |
| HuffmanTable.DecompressorTree | hc/huffman.go:83-87 | the tree built from the code table accepts exactly its codes |
| HuffmanTable.CodesInflate | hc/huffman.go:102-121 | with the code table in use every octet string survives compression and padding |
| BitIO.BitWriter.WriteBits | io/bitio.go:72-105 | exactly the low bits of the value are appended, whatever junk is held, or it is refused and nothing changes |
| BitIO.BitWriter.WriteSaved | io/bitio.go:59-69 | whole octets are written out and no bit is lost |
| BitIO.BitWriter.WriteBit | io/bitio.go:108-110 | one bit is appended |
| BitIO.BitWriter.WriteByte | io/bitio.go:113-115 | eight bits are appended |
| BitIO.BitWriter.Write | io/bitio.go:118-131 | octets are appended at any bit position |
| BitIO.BitWriter.Pad | io/bitio.go:135-149 | a partial octet is filled with the first bits of the padding |
| BitIO.BitReader.ReadNext | io/bitio.go:191-199 | an octet joins the saved bits and none is lost |
| BitIO.BitReader.ReadBit | io/bitio.go:202-214 | the next bit |
| BitIO.BitReader.ReadBits | io/bitio.go:217-246 | up to 64 bits exactly, none lost to overflow or at the end of the input |
| BitIO.BitReader.ReadByte | io/bitio.go:249-255 | the next eight bits |
| BitIO.BitReader.Read | io/bitio.go:260-272 | as many whole octets as there are, at any bit position |
| BitStreams.WriteAll | io/bitio.go:59-149 | any sequence of calls writes exactly the bits of the calls, one after the other |
| BitStreams.ReadAll | io/bitio.go:191-272 | reading with any split of counts up to 64 gives the next bits and loses none |
| BitStreams.Transfer | io/bitio.go:59-272 | what any calls write and padding completes is read back with any other split |
| Frame.VarintRoundTrip | frame.go:128-152 | the shortest of the four lengths is used, and the value reads back |
| Frame.AnySizeReads | frame.go:73-79 | every length that can hold a value is accepted |
| Frame.FramesRoundTrip | frame.go:82-165 | any list of frames reads back as the same list |
| Frame.WriteVarint | frame.go:128-152 | the bits appended and the octets counted; values from 2^62 are refused |
| Frame.WriteFrame | frame.go:154-165 | the bits appended; the count returned is one too many |
| Frame.ReadVarint | frame.go:73-79 | the value and the bits left for each of the four lengths, or the end of the input |
| Frame.ReadFrame | frame.go:82-97 | the frame and the bits left once its payload is read, or an error for an input that is cut short |

## Left out

- QpackEncoder.Encoder.WriteHeaderBlock: is one atomic step. The source takes its lock twice (hc/qpackencoder.go:304-305 and 510-511) and raises use counts in the second section only, so an acknowledgment or another block between the two is not modelled.
- Entries are identified by their base, not by pointers, and use counts are kept in one multiset; a pointer kept to an evicted entry is not modelled.
- Locks, condition variables, goroutines and timers are replaced by atomic steps: waiting for an entry is an enabling condition, and the acknowledgment delay is an arbitrary one.
- QpackRuns.EveryBlockReadIsExact: says nothing of the fields of a block whose largest reference the decoder took for another, beyond the exact window in which it does not; `QpackMisread.UnsafeReachable` and `QpackTooFar.SafeMisreadReachable` have such blocks. A line that is an error leaves its block unread, and what the application does then is not modelled; it may cancel the stream.
- QpackAcks.NoAckRejected: it and the other theorems about acknowledgments are for honest runs; `QpackAcks.TruthfulRuns` and `QpackAcks.WritesInOrderDirected` say which those are.
- A cancelled stream is not read any further, where the source's `Cancelled` does not stop a `ReadHeaderBlock` that has begun.
- QPACK encoder and decoder have the same fixed capacity, as the source assumes; the decoder's SetCapacity instruction is modelled but no encoder sends it. A wrapped reference in a table that holds no entry divides by zero in the source and is an error here.
- `QpackWire` and `HpackWire` are functions over bit strings; the writer and reader objects are used for integers, strings, Huffman codes, varints and frames. They count an error that ReadString hides as an error of the line.
- Static table contents (hc/statictable.go) are any list of pairs; the index of an entry is its position, from 0 in QPACK and from 1 in HPACK.
- The indexing policy (hc/codec.go:82-113) is a set of names that are not indexed, with the guard on the size of the entry kept.
- Lower-casing of names is ASCII only.
- Go integer overflow of insert counts and increments, and strings too long for memory; `intMax` is an option that is None.
- The underlying readers and writers never fail or return short; octets of a Huffman string are drawn from the stream before they are decoded.
- `|` on words is addition of operands that share no bit, which is a precondition of the function that models it.
- HTTP requests, connections, streams, settings, the middleware and the command-line tools (mw, hq, hc/qif, client and server files, io/concat.go): mostly wiring, which would add easy members.
