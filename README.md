# Gibbs topic inference, modelled in Dafny

The repository infers the topic mixture of new documents from a trained LDA
model by collapsed Gibbs sampling (gibbs/gibbs.cpp), and converts corpora
between the flat GraphLab format and a grouped JSON format (gibbs/convert.py).
This project models:

- `multinomial`: the draw of one topic from unnormalised weights
  (module `Multinomial`);
- the `Gibbs` object: its constructor, `import_token_topic_count` (the
  model file: one row of topic counts per token, added into the global
  topic totals), `import_corpus` (the documents, their item ids and the
  work queue) and `gibbs_sampler`, the worker that takes document after
  document off the queue (module `Topics`);
- the per-document body of the worker: the bag of words, the sentinel
  assignment, the sweeps with their clamped decrements, weights, draws and
  increments, the stop rule and the final normalised topic vector
  (modules `Sampler`, `Bookkeeping`, `Documents`, with sums and
  normalisation in `Vectors` and the per-token slot bookkeeping in
  `Slots`);
- `graphlab_input2json` and `json2graphlab_input` (module `Convert`); the
  script is Python 2 code (it passes the list returned by `map` to
  `json.dumps`), so its lines are byte strings and `int` is Python 2's.

The C++ code changes state step by step, so it is modelled as a class with
`modifies` clauses (`Topics.Gibbs`) and loop methods. Each loop method is
proved equal to a specification function: `Sampler.Document` for one
document, `Topics.Drain` for the queue, and `Convert.Render`/`Convert.Group`
and `Convert.Flats` for the converters. The properties are then proved as
lemmas about those functions.

The random generator is an oracle `Draws = nat -> real` plus a cursor `next`
that says how many draws have been consumed. A document's run is therefore a
deterministic function of the draws. The lemmas state exactly which draw each
slot visit consumes.

One would expect the global topic totals after loading to be the column sums
of the token/topic table. The code adds every model-file line into the totals,
but a token that occurs twice keeps only its last row in the table, so the
totals and the column sums agree only when the tokens are distinct. The model
follows the code. `Topics.TotalsMatchTable` proves the agreement for distinct
tokens, and `Topics.DuplicateTokenCounted` exhibits the difference.

## Model

| member | source | states |
|---|---|---|
| Multinomial.Multinomial | gibbs/gibbs.cpp:45-64 | For nonnegative weights with a positive sum, the index returned is in range and is the first index whose normalised cumulative weight reaches the draw, or the last index. A single weight gives 0 without consuming a draw; otherwise exactly one draw is consumed. |
| Multinomial.FirstReaching | gibbs/gibbs.cpp:59-63 | The walk over cumulative weights stops at an index between its start and the last index. |
| Multinomial.FirstReachingSpec | gibbs/gibbs.cpp:59-63 | The walk's stopping index has every earlier cumulative weight below the draw, and is the last index or has a cumulative weight reaching the draw. |
| Multinomial.FirstReachingIs | gibbs/gibbs.cpp:59-63 | Any index with those two properties is the one the walk returns, so the walk is characterised by them. |
| Multinomial.CumNormIsPrefixRatio | gibbs/gibbs.cpp:60-62 | The running sum of weight/sum at k is the prefix sum up to k divided by the total. |
| Multinomial.CumNormMonotone | gibbs/gibbs.cpp:52-62 | With nonnegative weights, the cumulative weights never decrease. |
| Multinomial.CumNormLast | gibbs/gibbs.cpp:51-62 | The last cumulative weight is exactly 1, so a draw in [0, 1] is always reached. |
| Multinomial.PickInterval | gibbs/gibbs.cpp:59-63 | With more than one weight, index i is picked if and only if the draw exceeds every cumulative weight before i and i is last or its cumulative weight reaches the draw. |
| Multinomial.PickReachesDraw | gibbs/gibbs.cpp:59-63 | For a draw of at most 1, the picked index's cumulative weight reaches the draw; the last-index fallback is never needed. |
| Vectors.SumUpdate | gibbs/gibbs.cpp:228-230 | Replacing one count changes the total by the difference. |
| Vectors.AddCountsSum | gibbs/gibbs.cpp:200 | The accumulator seeded with ALPHA plus the document counts sums to ntopics * ALPHA plus the total count. |
| Vectors.NormalizeSumsToOne | gibbs/gibbs.cpp:245-247 | Dividing every entry by the sum keeps the length and makes the entries sum to 1. |
| Vectors.NormalizedCounts | gibbs/gibbs.cpp:200-247 | The written vector has one entry per topic, summing to 1, with entry t = (ALPHA + n_dt) / (ntopics * ALPHA + total count). |
| Vectors.SeededShare | gibbs/gibbs.cpp:200-247 | One entry of the normalised seeded accumulator, as that ratio. |
| Vectors.SeededUniform | gibbs/gibbs.cpp:200-247 | When the document counts are all 0, every normalised entry of the accumulator seeded with ALPHA is 1/ntopics. |
| Sampler.Weight | gibbs/gibbs.cpp:224 | For ALPHA and BETA positive and at least one token in the model, every weight is positive. |
| Sampler.Weights | gibbs/gibbs.cpp:219-225 | The weight vector has ntopics entries, all positive, so it is a valid argument of multinomial. |
| Sampler.FillWeights | gibbs/gibbs.cpp:219-225 | The loop computes, for every topic t, (ALPHA + n_dt)(BETA + n_wt)/(BETA * ntokens + n_t). |
| Sampler.VisitSlot | gibbs/gibbs.cpp:208-236 | One slot visit is the specified step: clamped decrements of the held topic (if any), the weights, one multinomial draw, the increments, and the slot rewritten and counted as a change only when the topic differs. |
| Sampler.SweepToken | gibbs/gibbs.cpp:206-236 | The slots of one token are visited in order, and their changes are counted. |
| Sampler.Sweep | gibbs/gibbs.cpp:202-237 | One sweep visits the tokens in increasing order and returns the state and the number of changed slots that the specification gives. |
| Sampler.InitAssignments | gibbs/gibbs.cpp:192-197 | Every token of the bag gets as many slots as its count, all set to the sentinel ntopics + 1000. |
| Sampler.SweepRound | gibbs/gibbs.cpp:201-243 | One pass of the iteration loop: after the sweep, the loop's outcome is the swept state when `ite >= burnin` or nothing changed, and otherwise the outcome of the remaining passes. |
| Sampler.SweepLoop | gibbs/gibbs.cpp:200-243 | The iteration loop ends in the state the specification gives, and its accumulator is ALPHA plus the final document counts, added once. |
| Sampler.Document | gibbs/gibbs.cpp:181-247 | A document's run keeps the token rows of the worker's table and their length ntopics. |
| Sampler.SampleDocument | gibbs/gibbs.cpp:181-247 | The per-document body (empty-bag shortcut, fresh document state, sweep loop, normalisation) returns the table, topic vector and draw cursor of the specification `Document`; what those are is proved in the `Documents` lemmas. |
| Bookkeeping.Move | gibbs/gibbs.cpp:228-233 | Rewriting one slot from topic a to x moves one count from a to x in the per-topic slot totals and in the token's own counts, and leaves other tokens alone. |
| Bookkeeping.Counted | gibbs/gibbs.cpp:212-217 | A slot holding topic a contributes at least one to the document's and the token's count of a. |
| Bookkeeping.Release | gibbs/gibbs.cpp:212-217 | When a slot holds a topic, the three counts decremented are at least 1, so the clamps at zero never fire; the bookkeeping stays in step. |
| Bookkeeping.ReleaseCounts | gibbs/gibbs.cpp:212-217 | The decrement removes the slot from the document counts and the totals. |
| Bookkeeping.ReleaseTable | gibbs/gibbs.cpp:212-213 | The decrement removes the slot from its token's row, and only there. |
| Bookkeeping.Claim | gibbs/gibbs.cpp:227-233 | The increments after a draw keep document counts, totals and table in step with the slots. |
| Bookkeeping.ClaimCounts | gibbs/gibbs.cpp:228-230 | The increments add the slot to the document counts and the totals. |
| Bookkeeping.ClaimTable | gibbs/gibbs.cpp:229 | The increment adds the slot to its token's row, and only there. |
| Bookkeeping.WeighsConditional | gibbs/gibbs.cpp:219-225 | While the counts track the slots, the weights computed are the collapsed conditional of the slot given every other slot of the document. |
| Bookkeeping.VisitSamples | gibbs/gibbs.cpp:208-236 | A slot visit draws its new topic from that conditional with the slot itself excluded, counts a change exactly when the topic differs, and consumes one draw unless there is a single topic. |
| Bookkeeping.VisitTracks | gibbs/gibbs.cpp:208-236 | A slot visit keeps document counts, totals and table equal to the start values plus the slots' topics. |
| Bookkeeping.SweepSlotsTracks | gibbs/gibbs.cpp:208-236 | Visiting the remaining slots of a token keeps that agreement. |
| Bookkeeping.SweepSlotsCount | gibbs/gibbs.cpp:232-235 | The changes counted over a token's slots are the slots whose topic differs from before. |
| Bookkeeping.SweepSlotsDraws | gibbs/gibbs.cpp:208-236 | Visiting a token's slots consumes one draw per slot, unless there is a single topic, and leaves every visited slot holding a topic. |
| Bookkeeping.SweepTokensTracks | gibbs/gibbs.cpp:203-237 | A sweep keeps the counts in step with the slots. |
| Bookkeeping.SweepTokensCount | gibbs/gibbs.cpp:202-237 | A sweep's change count is the number of slots whose topic differs from before the sweep. |
| Bookkeeping.SweepTokensDraws | gibbs/gibbs.cpp:203-237 | A sweep consumes one draw per slot of the bag, unless there is a single topic. |
| Bookkeeping.SweepChanges | gibbs/gibbs.cpp:202-237 | After a sweep every slot holds a topic. The change count is at most the bag size, is 0 exactly when no slot changed, and equals the bag size when the slots started unassigned. |
| Bookkeeping.IterateTrace | gibbs/gibbs.cpp:201-243 | The loop runs at least 1 and at most burnin + 1 sweeps; every sweep but the last changes some slot; the last changes none or reaches burnin. |
| Bookkeeping.IterateTracks | gibbs/gibbs.cpp:201-243 | The whole loop keeps the counts in step with the slots. |
| Bookkeeping.IterateChanges | gibbs/gibbs.cpp:201-243 | Each sweep changes at most the bag size, the first from the sentinel changes every slot, and the loop consumes (number of sweeps * bag size) draws. |
| Documents.InitialTracks | gibbs/gibbs.cpp:187-197 | The start state (totals copied, zero document counts, sentinel slots) is in step with the slots. |
| Documents.DocumentIterates | gibbs/gibbs.cpp:185-247 | A nonempty document's outcome is that of the iteration loop from the start state, normalised. |
| Documents.DocumentSweeps | gibbs/gibbs.cpp:201-243 | A nonempty document runs between 1 and burnin + 1 sweeps, and the first changes every slot. Every sweep but the last changes some slot; the last changes none or is number burnin + 1. It consumes sweeps * bag size draws. |
| Documents.DocumentFinal | gibbs/gibbs.cpp:201-243 | At the end every slot holds a topic and the counts are in step with the slots. |
| Documents.AssignedTotals | gibbs/gibbs.cpp:190-230 | Once every slot holds a topic, the document counts add up to the bag size, and rows of tokens outside the bag are untouched. |
| Documents.DocumentCounts | gibbs/gibbs.cpp:187-243 | The final document count of t is the number of slots on t, and they add up to the bag size. The table rows are the starting rows plus the token's slots on each topic, and rows of other tokens are unchanged. |
| Documents.DocumentProbs | gibbs/gibbs.cpp:200-247 | A nonempty bag writes ntopics entries summing to 1, entry t being (ALPHA + n_dt)/(ntopics * ALPHA + bag size). |
| Documents.NothingOccurs | gibbs/gibbs.cpp:192-247 | A nonempty bag whose counts are all 0 (its tokens need no table row) runs one sweep that changes no slot, consumes no draw, leaves the table as it was and writes 1/ntopics for every topic. |
| Documents.NothingOccursSweeps | gibbs/gibbs.cpp:201-243 | With no slot in the bag, the first sweep changes nothing, so it is the only one, and no draw is consumed. |
| Documents.NothingOccursTable | gibbs/gibbs.cpp:192-243 | With every count 0, no row of the table is touched. |
| Documents.NothingOccursProbs | gibbs/gibbs.cpp:200-247 | With no slot in the bag, the written vector has ntopics entries, each 1/ntopics. |
| Topics.Gibbs.constructor | gibbs/gibbs.cpp:66-70 | The parameters are stored, ntokens is 0, and the global totals are ntopics zeros. Table, corpus, item ids and queue are empty. |
| Topics.Gibbs.ImportLine | gibbs/gibbs.cpp:94-103 | One model line adds its counts into the totals column by column, stores its row under its token (replacing an older row), and counts one more token. |
| Topics.Gibbs.ImportTokenTopicCount | gibbs/gibbs.cpp:83-104 | After loading, the totals are the old totals plus every line's row, the table holds the last row of each token, and ntokens grows by the number of lines. |
| Topics.Accumulate | gibbs/gibbs.cpp:94-101 | Accumulating rows keeps the totals' length. |
| Topics.AccumulateColumns | gibbs/gibbs.cpp:94-101 | Total t after loading is its old value plus the column sum of t over all lines. |
| Topics.OverlayLast | gibbs/gibbs.cpp:102 | After storing key/value pairs in order, each key maps to its last value. |
| Topics.OverlayUntouched | gibbs/gibbs.cpp:102 | Keys never stored keep their old value, and no other key appears. |
| Topics.TotalsMatchTable | gibbs/gibbs.cpp:83-104 | With distinct tokens, loading from zero gives totals equal to the column sums of the table. |
| Topics.DuplicateTokenCounted | gibbs/gibbs.cpp:100-102 | A token listed twice is added twice into the totals but keeps one row in the table. |
| Topics.Gibbs.ImportCorpus | gibbs/gibbs.cpp:114-126 | Each line stores its bag string under its item id (the last one wins) and appends the id to the id list. The queue gets the next indices in order, and every queued index stays a valid position in the id list. |
| Topics.QueuedImport | gibbs/gibbs.cpp:114-126 | After importing into an empty object, queue entry i refers to line i's item and to the bag of the last line with that item. |
| Topics.LastOccurrence | gibbs/gibbs.cpp:123 | Every line's item id occurs on a last line, after which no line carries it; that line's bag is the one `corpus_` keeps. |
| Topics.DecodeBag | gibbs/gibbs.cpp:169-178 | The bag of words maps each token to the count of its last pair. |
| Topics.CopyTable | gibbs/gibbs.cpp:142-148 | The worker's copy of the table equals the table. |
| Topics.Drain | gibbs/gibbs.cpp:158-255 | Running the queued documents in turn yields one line per document and keeps the table's tokens and row lengths. |
| Topics.DrainStep | gibbs/gibbs.cpp:158-255 | Document i runs from the table and the draw cursor that the documents before it left, and adds one line. |
| Topics.DrainLines | gibbs/gibbs.cpp:161-254 | Line i names document i's item id. It is `[]` for an empty bag, and otherwise ntopics shares summing to 1. |
| Topics.DrainSplit | gibbs/gibbs.cpp:143-187 | The worker's table carries over from one document to the next, while the totals are re-copied from the global ones for every document. Running two batches in turn is running the second from where the first left off. |
| Topics.WorkerStep | gibbs/gibbs.cpp:160-255 | Each iteration of the worker's queue loop extends the run of the processed documents by the next one. |
| Topics.Gibbs.GibbsSampler | gibbs/gibbs.cpp:140-255 | The worker empties the queue. Its output lines and its draw cursor are those of running the queued documents in queue order from a copy of the table. Only the queue of the object changes: its totals and its table are left as they were. |
| Convert.Word | gibbs/convert.py:12 | The first whitespace-free prefix of a string, ending at whitespace or at the end. |
| Convert.Fields | gibbs/convert.py:12-15 | `split()` yields only nonempty fields without whitespace. |
| Convert.ParseDecimal | gibbs/convert.py:15 | `int` reads back every integer written in decimal. |
| Convert.Group | gibbs/convert.py:12 | Grouping is empty exactly when the input is. |
| Convert.FlattenGroup | gibbs/convert.py:12-16 | Expanding the groups gives back the triples in order: grouping loses nothing and keeps the pair order. |
| Convert.GroupMaximal | gibbs/convert.py:12 | Consecutive groups have different docids, so the runs are maximal. |
| Convert.GroupFlatten | gibbs/convert.py:12-16 | Maximal groups with nonempty pairs are recovered by grouping their expansion. |
| Convert.GraphlabInputToJson | gibbs/convert.py:11-17 | When every line has a docid and two integers, it prints one line per maximal run of docids. When line j is the first bad one, the output is the groups completed before it and the flag is false; the group still open is lost when line j has no docid or repeats line j-1's docid. |
| Convert.Advance | gibbs/convert.py:12-16 | A good line either extends the open group or closes it and opens a new one. |
| Convert.KeyMissing | gibbs/convert.py:12 | A line without a field stops the run after the groups already completed. |
| Convert.PairMissing | gibbs/convert.py:15 | A line whose fields after the docid are not two integers stops the run, and the group it belongs to is never printed. |
| Convert.JsonToGraphlabInput | gibbs/convert.py:21-26 | Processes the lines in order, writing one flat line per unpacked pair, up to the first line or element that raises: a line that is not two tab-separated fields, a value `json.loads` rejects or cannot iterate, an element that does not unpack into two values, or a value that is a non-ASCII string, which Python 2's byte-string `format` cannot encode. |
| Convert.EmitStop | gibbs/convert.py:25-26 | An element that does not unpack into two values, or whose token or count cannot be formatted, ends the line's output after the pairs before it. |
| Convert.NonAsciiToken | gibbs/convert.py:24-26 | A pair whose token is a string with a non-ASCII character is not written and ends the line, as the `UnicodeEncodeError` of `format` does. |
| Convert.FlatsStop | gibbs/convert.py:22-26 | Once a line fails, nothing after it is written. |
| Convert.RejectsLine | gibbs/convert.py:23 | A line that is not exactly two tab-separated fields writes nothing and ends the run. |
| Convert.EmitPairs | gibbs/convert.py:25-26 | An array of [token, count] pairs yields one flat line per pair, in array order, with the docid. |
| Convert.LineRoundTrip | gibbs/convert.py:17-26 | A printed grouped line, read back, yields exactly its pairs as flat lines. |
| Convert.FlatsRender | gibbs/convert.py:17-26 | Reading back all printed grouped lines yields the expansion of the groups. |
| Convert.RoundTrip | gibbs/convert.py:11-26 | For well-formed input, graphlab_input2json followed by json2graphlab_input gives back every input triple, in input order. |

## Left out

- Threads: `gibbs_sampling` starts several workers over a lock-free queue and an atomic thread index. The model runs one worker that takes the whole queue. Each worker's behaviour is the same, but which worker gets which document is not modelled.
- The random number generator (`std::default_random_engine` with a uniform distribution over [0, 1)) is an oracle `Draws` plus a cursor of draws consumed.
- File I/O is not modelled: opening files, `exit(1)` on failure, the progress messages, the per-thread output file name and the textual formatting of the doubles written. A worker's output is a sequence of `TopicLine(item, probs)`.
- Parsing the model and corpus files is not modelled. `boost::split`, `lexical_cast` and `read_json` are replaced by decoded `ModelLine` and `CorpusLine` values, and a bag is a sequence of (token, count) pairs.
- Floating point: weights, draws and the topic vector are `real`. Rounding of doubles is not modelled.
- Integer widths: `count_t`, `token_t` and `index_t` are unbounded naturals. An overflow of the counts is not modelled.
- Topics.Gibbs.ImportTokenTopicCount: requires that no row is longer than ntopics. A longer row writes past the end of the totals vector, which is undefined behaviour in the source.
- Topics.Gibbs.GibbsSampler: requires every table row to have ntopics entries (the assertion of the table copy) and every token that occurs (count above 0) in a queued bag to have a row. For such a token without a row the source indexes an empty vector, which is undefined behaviour. A token of count 0 gets no slot, its row is never read, and it needs none (`Documents.NothingOccurs`).
- Topics.Gibbs.queue: in the source the work queue is a global shared by every `Gibbs` object (gibbs/gibbs.cpp:38). The model makes it a field of the one object; gibbs/main.cpp builds a single object, so the behaviour is the same, but sharing between objects is not captured.
- Topics.CopyTable: copies the rows in an arbitrary order instead of the map's key order. The result is the same map.
- Map iteration: the sweep visits tokens in increasing order, as `std::map` does.
- gibbs/main.cpp and gibbs/gibbs.hpp (argument handling and declarations) are not part of this model.
- Convert.JsonToGraphlabInput: `json.loads` is a parameter. The round trip assumes that it decodes what `json.dumps` wrote for a list of integer pairs (`LoadsDumps`). The `str()` rendering of the values written is not modelled; the output is the sequence of unpacked values.
- Convert.ParseInt: reads an optional sign followed by ASCII digits, as Python 2's `int` reads a field without whitespace. The leading and trailing whitespace `int` would also skip never reaches it, because `split` has removed it.
- `graphlab_output_2json` in gibbs/convert.py is not part of this model.
