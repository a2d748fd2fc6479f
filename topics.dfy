/**
 * The class `Gibbs` of gibbs/gibbs.cpp: the constructor, the loading of the
 * token-topic model (`import_token_topic_count`) and of the corpus
 * (`import_corpus`), and `gibbs_sampler` draining the work queue as a
 * single consumer. The files' lines come in already decoded: a model line as
 * its token and topic counts, a corpus line as its item id and its
 * [token, count] pairs.
 */
module Topics {
  import opened Vectors
  import opened Multinomial
  import opened Slots
  import opened Sampler
  import opened Documents

  /** One line of the model file: a token hash and its count on each topic. */
  datatype ModelLine = ModelLine(token: nat, counts: seq<nat>)

  /** One line of the corpus: an item id and its [token, count] pairs, in order. */
  datatype CorpusLine = CorpusLine(item: string, pairs: seq<(nat, nat)>)

  /** What the sampler writes for one document: the item id and its topic vector (empty for an empty bag). */
  datatype TopicLine = TopicLine(item: string, probs: seq<real>)

  /** Entry t of a row of counts, zero past its end. */
  function At(row: seq<nat>, t: nat): nat
  {
    if t < |row| then row[t] else 0
  }

  /**
   * The map m after the (key, value) pairs kvs were written into it, in
   * order: `m[k] = v` for each pair, so the last pair of a key wins.
   */
  function Overlay<K, V>(m: map<K, V>, kvs: seq<(K, V)>): map<K, V>
    decreases |kvs|
  {
    if kvs == [] then m
    else Overlay(m, kvs[..|kvs| - 1])[kvs[|kvs| - 1].0 := kvs[|kvs| - 1].1]
  }

  /** The value of a key in Overlay is that of its last pair. */
  lemma {:induction false} OverlayLast<K, V>(m: map<K, V>, kvs: seq<(K, V)>, j: nat)
    requires j < |kvs| && forall k :: j < k < |kvs| ==> kvs[k].0 != kvs[j].0
    ensures kvs[j].0 in Overlay(m, kvs) && Overlay(m, kvs)[kvs[j].0] == kvs[j].1
    decreases |kvs|
  {
    if j < |kvs| - 1 {
      OverlayLast(m, kvs[..|kvs| - 1], j);
    }
  }

  /** A key no pair writes keeps its entry of m, or stays absent. */
  lemma {:induction false} OverlayUntouched<K, V>(m: map<K, V>, kvs: seq<(K, V)>, key: K)
    requires forall k :: 0 <= k < |kvs| ==> kvs[k].0 != key
    ensures key in Overlay(m, kvs) <==> key in m
    ensures key in m ==> Overlay(m, kvs)[key] == m[key]
    decreases |kvs|
  {
    if kvs != [] {
      OverlayUntouched(m, kvs[..|kvs| - 1], key);
    }
  }

  /** The (token, row) pairs of the model lines, in file order. */
  function Rows(lines: seq<ModelLine>): seq<(nat, seq<nat>)>
  {
    seq(|lines|, i requires 0 <= i < |lines| => (lines[i].token, lines[i].counts))
  }

  /** The totals g with one row of counts added entry by entry. */
  function AddRow(g: seq<nat>, row: seq<nat>): seq<nat>
    requires |row| <= |g|
  {
    seq(|g|, t requires 0 <= t < |g| => g[t] + At(row, t))
  }

  /** Every model line has at most n topic counts. */
  predicate RowsWithin(lines: seq<ModelLine>, n: nat)
  {
    forall i :: 0 <= i < |lines| ==> |lines[i].counts| <= n
  }

  /** The totals g after the model lines were added to them, in order. */
  function Accumulate(g: seq<nat>, lines: seq<ModelLine>): (r: seq<nat>)
    requires RowsWithin(lines, |g|)
    ensures |r| == |g|
    decreases |lines|
  {
    if lines == [] then g
    else AddRow(Accumulate(g, lines[..|lines| - 1]), lines[|lines| - 1].counts)
  }

  /** Entry t summed over the model lines. */
  function ColumnSum(lines: seq<ModelLine>, t: nat): nat
    decreases |lines|
  {
    if lines == [] then 0 else ColumnSum(lines[..|lines| - 1], t) + At(lines[|lines| - 1].counts, t)
  }

  /** Each total is its old value plus the same entry of every line read. */
  lemma {:induction false} AccumulateColumns(g: seq<nat>, lines: seq<ModelLine>, t: nat)
    requires RowsWithin(lines, |g|) && t < |g|
    ensures Accumulate(g, lines)[t] == g[t] + ColumnSum(lines, t)
    decreases |lines|
  {
    if lines != [] {
      AccumulateColumns(g, lines[..|lines| - 1], t);
    }
  }

  /** Entry t summed over the rows of a table. */
  function TableColumn(table: map<nat, seq<nat>>, t: nat): nat
    decreases |table|
  {
    if table == map[] then 0
    else
      var k := MinKey(table.Keys);
      At(table[k], t) + TableColumn(table - {k}, t)
  }

  /** TableColumn may take any row out first. */
  lemma {:induction false} TableColumnRemove(table: map<nat, seq<nat>>, k: nat, t: nat)
    requires k in table
    ensures TableColumn(table, t) == At(table[k], t) + TableColumn(table - {k}, t)
    decreases |table|
  {
    var j := MinKey(table.Keys);
    if j != k {
      var rest := table - {j};
      TableColumnRemove(rest, k, t);
      var j' := MinKey((table - {k}).Keys);
      assert j in (table - {k}).Keys && j' in table.Keys;
      assert (table - {k}) - {j} == rest - {k};
    }
  }

  /** Storing a new token's row adds its entry to the column. */
  lemma TableColumnInsert(table: map<nat, seq<nat>>, k: nat, row: seq<nat>, t: nat)
    requires k !in table
    ensures TableColumn(table[k := row], t) == TableColumn(table, t) + At(row, t)
  {
    TableColumnRemove(table[k := row], k, t);
    assert table[k := row] - {k} == table;
  }

  /** No two model lines name the same token. */
  predicate DistinctTokens(lines: seq<ModelLine>)
  {
    forall i, j :: 0 <= i < j < |lines| ==> lines[i].token != lines[j].token
  }

  /**
   * Loaded from the constructor's state, a model whose tokens are distinct has
   * every topic total equal to that topic's column of the table.
   */
  lemma {:induction false} TotalsMatchTable(n: nat, lines: seq<ModelLine>, t: nat)
    requires RowsWithin(lines, n) && DistinctTokens(lines) && t < n
    ensures Accumulate(Zeros(n), lines)[t] == TableColumn(Overlay(map[], Rows(lines)), t)
    decreases |lines|
  {
    AccumulateColumns(Zeros(n), lines, t);
    if lines != [] {
      var init := lines[..|lines| - 1];
      var last := lines[|lines| - 1];
      TotalsMatchTable(n, init, t);
      AccumulateColumns(Zeros(n), init, t);
      assert Rows(lines)[..|lines| - 1] == Rows(init);
      var before := Overlay(map[], Rows(init));
      OverlayUntouched(map[], Rows(init), last.token);
      TableColumnInsert(before, last.token, last.counts, t);
    }
  }

  /**
   * A token listed twice is counted twice in the totals but keeps only its
   * last row in the table, so the totals no longer match the table.
   */
  lemma DuplicateTokenCounted()
    ensures var lines := [ModelLine(7, [1]), ModelLine(7, [2])];
      Accumulate(Zeros(1), lines) == [3] && Overlay(map[], Rows(lines)) == map[7 := [2]] &&
      TableColumn(Overlay(map[], Rows(lines)), 0) == 2
  {
    var lines := [ModelLine(7, [1]), ModelLine(7, [2])];
    assert lines[..1] == [ModelLine(7, [1])] && lines[..1][..0] == [];
    assert Rows(lines) == [(7, [1]), (7, [2])];
    assert Rows(lines)[..1] == [(7, [1])] && Rows(lines)[..1][..0] == [];
    assert Overlay(map[], Rows(lines)[..1]) == map[7 := [1]];
    assert Overlay(map[], Rows(lines)) == map[7 := [1]][7 := [2]];
    var m := map[7 := [2]];
    assert 7 in m.Keys;
    assert MinKey(m.Keys) == 7;
    assert m - {7} == map[];
  }

  /** The bag of words of a document's pairs: a later pair of a token replaces an earlier one. */
  function BagOf(pairs: seq<(nat, nat)>): map<nat, nat>
  {
    Overlay(map[], pairs)
  }

  /** The (item id, pairs) entries of the corpus lines, in file order. */
  function Entries(lines: seq<CorpusLine>): seq<(string, seq<(nat, nat)>)>
  {
    seq(|lines|, i requires 0 <= i < |lines| => (lines[i].item, lines[i].pairs))
  }

  /** The item ids of the corpus lines, in file order. */
  function Items(lines: seq<CorpusLine>): seq<string>
  {
    seq(|lines|, i requires 0 <= i < |lines| => lines[i].item)
  }

  /** The documents the queued indices name: each item id with the bag of words stored for it. */
  function Queued(queue: seq<nat>, docids: seq<string>, corpus: map<string, seq<(nat, nat)>>): seq<(string, map<nat, nat>)>
    requires forall i :: 0 <= i < |queue| ==> queue[i] < |docids| && docids[queue[i]] in corpus
  {
    seq(|queue|, i requires 0 <= i < |queue| => (docids[queue[i]], BagOf(corpus[docids[queue[i]]])))
  }

  /**
   * A corpus imported into the constructor's state queues its i-th line as
   * that line's item id with the bag of the LAST line carrying the same id:
   * a repeated id is sampled twice, both times on its last line.
   */
  lemma QueuedImport(lines: seq<CorpusLine>, i: nat, j: nat)
    requires i < |lines| && j < |lines| && lines[j].item == lines[i].item
    requires forall k :: j < k < |lines| ==> lines[k].item != lines[j].item
    ensures var corpus := Overlay(map[], Entries(lines));
      var docids := Items(lines);
      var queue := seq(|lines|, k => k);
      (forall k :: 0 <= k < |queue| ==> queue[k] < |docids| && docids[queue[k]] in corpus) &&
      Queued(queue, docids, corpus)[i] == (lines[i].item, BagOf(lines[j].pairs))
  {
    var corpus := Overlay(map[], Entries(lines));
    forall k | 0 <= k < |lines|
      ensures lines[k].item in corpus
    {
      var last :| k <= last < |lines| && lines[last].item == lines[k].item &&
        forall m :: last < m < |lines| ==> lines[m].item != lines[k].item by {
        LastOccurrence(lines, k);
      }
      OverlayLast(map[], Entries(lines), last);
    }
    OverlayLast(map[], Entries(lines), j);
  }

  /** Every line has a last line with the same item id. */
  lemma {:induction false} LastOccurrence(lines: seq<CorpusLine>, k: nat)
    requires k < |lines|
    ensures exists last :: (k <= last < |lines| && lines[last].item == lines[k].item &&
                            forall m :: last < m < |lines| ==> lines[m].item != lines[k].item)
    decreases |lines| - k
  {
    if forall m :: k < m < |lines| ==> lines[m].item != lines[k].item {
      assert k <= k < |lines| && lines[k].item == lines[k].item;
    } else {
      var m :| k < m < |lines| && lines[m].item == lines[k].item;
      LastOccurrence(lines, m);
    }
  }

  /** A worker's table: rows of ntopics counts, no more rows than ntokens. */
  predicate TableFits(p: Params, table: map<nat, seq<nat>>)
  {
    |table| <= p.ntokens && forall w :: w in table ==> |table[w]| == p.ntopics
  }

  /** A worker's configuration, totals and table, and documents whose occurring tokens all have a row. */
  predicate Drainable(p: Params, canonical: seq<nat>, table: map<nat, seq<nat>>, docs: seq<(string, map<nat, nat>)>)
  {
    ValidParams(p) && |canonical| == p.ntopics && TableFits(p, table) &&
    forall i :: 0 <= i < |docs| ==> RowsFor(table, docs[i].1)
  }

  /**
   * The documents docs run one after the other by one worker whose table
   * starts as `table`: every document starts from the canonical totals, the
   * table and the draw cursor carry over from one document to the next. The
   * topic lines written, the table and the cursor at the end.
   */
  function Drain(p: Params, canonical: seq<nat>, table: map<nat, seq<nat>>, docs: seq<(string, map<nat, nat>)>,
                 rng: Draws, next: nat): (r: (seq<TopicLine>, map<nat, seq<nat>>, nat))
    requires Drainable(p, canonical, table, docs)
    ensures |r.0| == |docs| && r.1.Keys == table.Keys && TableFits(p, r.1)
    decreases |docs|
  {
    if docs == [] then ([], table, next)
    else
      var before := Drain(p, canonical, table, docs[..|docs| - 1], rng, next);
      var d := docs[|docs| - 1];
      var o := Document(p, canonical, before.1, d.1, rng, before.2);
      (before.0 + [TopicLine(d.0, o.probs)], o.table, o.next)
  }

  /** The document after the first i of docs starts from what Drain left, and extends its output by one line. */
  lemma DrainStep(p: Params, canonical: seq<nat>, table: map<nat, seq<nat>>, docs: seq<(string, map<nat, nat>)>,
                  i: nat, rng: Draws, next: nat)
    requires Drainable(p, canonical, table, docs)
    requires i < |docs|
    ensures Drainable(p, canonical, table, docs[..i]) && Drainable(p, canonical, table, docs[..i + 1])
    ensures var r := Drain(p, canonical, table, docs[..i], rng, next);
      Setup(p, canonical, r.1, docs[i].1) &&
      var o := Document(p, canonical, r.1, docs[i].1, rng, r.2);
      Drain(p, canonical, table, docs[..i + 1], rng, next) == (r.0 + [TopicLine(docs[i].0, o.probs)], o.table, o.next)
  {
    assert docs[..i + 1][..i] == docs[..i];
  }

  /**
   * Every line a worker writes names its document's item id; an empty bag
   * gets the empty vector, any other bag ntopics shares summing to 1.
   */
  lemma {:induction false} DrainLines(p: Params, canonical: seq<nat>, table: map<nat, seq<nat>>,
                                      docs: seq<(string, map<nat, nat>)>, rng: Draws, next: nat, i: nat)
    requires Drainable(p, canonical, table, docs) && i < |docs|
    ensures var line := Drain(p, canonical, table, docs, rng, next).0[i];
      line.item == docs[i].0 &&
      (docs[i].1 == map[] ==> line.probs == []) &&
      (docs[i].1 != map[] ==> |line.probs| == p.ntopics && SumR(line.probs) == 1.0)
    decreases |docs|
  {
    var init := docs[..|docs| - 1];
    assert Drainable(p, canonical, table, init);
    if i < |docs| - 1 {
      DrainLines(p, canonical, table, init, rng, next, i);
    } else {
      var before := Drain(p, canonical, table, init, rng, next);
      var d := docs[i];
      if d.1 == map[] {
        DocumentEmpty(p, canonical, before.1, d.1, rng, before.2);
      } else {
        DocumentProbs(p, canonical, before.1, d.1, rng, before.2);
      }
    }
  }

  /** Both parts of a drainable run are drainable, the second from any table with the same rows. */
  lemma DrainableParts(p: Params, canonical: seq<nat>, table: map<nat, seq<nat>>, table': map<nat, seq<nat>>,
                       docs1: seq<(string, map<nat, nat>)>, docs2: seq<(string, map<nat, nat>)>)
    requires Drainable(p, canonical, table, docs1 + docs2)
    requires table'.Keys == table.Keys && TableFits(p, table')
    ensures Drainable(p, canonical, table, docs1) && Drainable(p, canonical, table', docs2)
  {
    assert forall i :: 0 <= i < |docs1| ==> docs1[i] == (docs1 + docs2)[i];
    assert forall i :: 0 <= i < |docs2| ==> docs2[i] == (docs1 + docs2)[|docs1| + i];
  }

  /**
   * Running docs1 then docs2 is running docs2 from the table and cursor
   * docs1 left: the worker's table persists from one document to the next.
   */
  lemma {:induction false} DrainSplit(p: Params, canonical: seq<nat>, table: map<nat, seq<nat>>,
                                      docs1: seq<(string, map<nat, nat>)>, docs2: seq<(string, map<nat, nat>)>,
                                      rng: Draws, next: nat)
    requires Drainable(p, canonical, table, docs1 + docs2)
    ensures Drainable(p, canonical, table, docs1)
    ensures var a := Drain(p, canonical, table, docs1, rng, next);
      Drainable(p, canonical, a.1, docs2) &&
      var b := Drain(p, canonical, a.1, docs2, rng, a.2);
      Drain(p, canonical, table, docs1 + docs2, rng, next) == (a.0 + b.0, b.1, b.2)
    decreases |docs2|
  {
    DrainableParts(p, canonical, table, table, docs1, docs2);
    var a := Drain(p, canonical, table, docs1, rng, next);
    DrainableParts(p, canonical, table, a.1, docs1, docs2);
    var all := docs1 + docs2;
    if docs2 == [] {
      assert all == docs1;
      assert a.0 + [] == a.0;
    } else {
      var init := docs2[..|docs2| - 1];
      var d := docs2[|docs2| - 1];
      assert docs2 == init + [d];
      assert all == (docs1 + init) + [d];
      DrainSplit(p, canonical, table, docs1, init, rng, next);
      DrainSplitStep(p, canonical, table, docs1, init, d, rng, next);
    }
  }

  /** The inductive step of DrainSplit: one more document at the end of docs2. */
  lemma DrainSplitStep(p: Params, canonical: seq<nat>, table: map<nat, seq<nat>>,
                       docs1: seq<(string, map<nat, nat>)>, init: seq<(string, map<nat, nat>)>,
                       d: (string, map<nat, nat>), rng: Draws, next: nat)
    requires Drainable(p, canonical, table, (docs1 + init) + [d])
    requires Drainable(p, canonical, table, docs1)
    requires var a := Drain(p, canonical, table, docs1, rng, next);
      Drainable(p, canonical, a.1, init + [d]) && Drainable(p, canonical, a.1, init) &&
      var b := Drain(p, canonical, a.1, init, rng, a.2);
      Drainable(p, canonical, table, docs1 + init) &&
      Drain(p, canonical, table, docs1 + init, rng, next) == (a.0 + b.0, b.1, b.2)
    ensures var a := Drain(p, canonical, table, docs1, rng, next);
      var b := Drain(p, canonical, a.1, init + [d], rng, a.2);
      Drain(p, canonical, table, (docs1 + init) + [d], rng, next) == (a.0 + b.0, b.1, b.2)
  {
    var a := Drain(p, canonical, table, docs1, rng, next);
    DrainSnoc(p, canonical, table, docs1 + init, d, rng, next);
    DrainSnoc(p, canonical, a.1, init, d, rng, a.2);
    var b0 := Drain(p, canonical, a.1, init, rng, a.2);
    var o := Document(p, canonical, b0.1, d.1, rng, b0.2);
    assert a.0 + b0.0 + [TopicLine(d.0, o.probs)] == a.0 + (b0.0 + [TopicLine(d.0, o.probs)]);
  }

  /** Running one more document after docs extends Drain's output by its line. */
  lemma DrainSnoc(p: Params, canonical: seq<nat>, table: map<nat, seq<nat>>, docs: seq<(string, map<nat, nat>)>,
                  d: (string, map<nat, nat>), rng: Draws, next: nat)
    requires Drainable(p, canonical, table, docs + [d])
    ensures Drainable(p, canonical, table, docs)
    ensures var r := Drain(p, canonical, table, docs, rng, next);
      Setup(p, canonical, r.1, d.1) &&
      var o := Document(p, canonical, r.1, d.1, rng, r.2);
      Drain(p, canonical, table, docs + [d], rng, next) == (r.0 + [TopicLine(d.0, o.probs)], o.table, o.next)
  {
    DrainStep(p, canonical, table, docs + [d], |docs|, rng, next);
    assert (docs + [d])[..|docs|] == docs;
    assert (docs + [d])[..|docs| + 1] == docs + [d];
  }

  /** The sampler's state between the loading steps and the sampling. */
  class Gibbs {
    var outputFile: string                       // output_file_dir_
    var ntopics: nat                             // ntopics_
    var ntokens: nat                             // ntokens_
    var alpha: real                              // ALPHA_
    var beta: real                               // BETA_
    var burnin: nat                              // burnin_
    var corpus: map<string, seq<(nat, nat)>>     // corpus_, each entry decoded
    var docids: seq<string>                      // docid_list_
    var globalCounts: seq<nat>                   // global_topic_counts_
    var table: map<nat, seq<nat>>                // token_topic_count_map_
    var queue: seq<nat>                          // the global work queue, held by the one object

    /** The totals have one entry per topic, and the table has no more rows than lines were loaded. */
    ghost predicate Valid()
      reads this
    {
      |globalCounts| == ntopics && |table| <= ntokens
    }

    /** Every queued index names a loaded item id, and every item id has its line stored. */
    ghost predicate Indexed()
      reads this
    {
      (forall i :: 0 <= i < |queue| ==> queue[i] < |docids|) &&
      forall j :: 0 <= j < |docids| ==> docids[j] in corpus
    }

    /** The sampler's parameters as this object holds them. */
    function Config(): Params
      reads this
    {
      Params(ntopics, ntokens, alpha, beta, burnin)
    }

    /** The constructor: no token loaded yet and ntopics zero totals. */
    constructor(outputfile: string, ntopics: nat, alpha: real, beta: real, burnin: nat)
      ensures Valid() && Indexed()
      ensures this.outputFile == outputfile && this.ntopics == ntopics && this.alpha == alpha &&
        this.beta == beta && this.burnin == burnin
      ensures ntokens == 0 && globalCounts == Zeros(ntopics)
      ensures corpus == map[] && docids == [] && table == map[] && queue == []
    {
      this.outputFile := outputfile;
      this.ntopics := ntopics;
      this.alpha := alpha;
      this.beta := beta;
      this.burnin := burnin;
      ntokens := 0;
      globalCounts := Zeros(ntopics);
      corpus := map[];
      docids := [];
      table := map[];
      queue := [];
    }

    /**
     * The body of the line loop of `import_token_topic_count`: each count
     * is appended to the token's row and added to the total of its topic;
     * the row is stored under the token, and one more token is counted.
     */
    method ImportLine(line: ModelLine)
      requires Valid() && |line.counts| <= ntopics
      modifies this`globalCounts, this`table, this`ntokens
      ensures Valid()
      ensures globalCounts == AddRow(old(globalCounts), line.counts)
      ensures table == old(table)[line.token := line.counts] && ntokens == old(ntokens) + 1
    {
      var row: seq<nat> := [];
      ghost var g0 := globalCounts;
      for k := 0 to |line.counts|
        invariant |globalCounts| == |g0| && row == line.counts[..k]
        invariant forall t :: 0 <= t < |g0| ==> globalCounts[t] == g0[t] + At(row, t)
        invariant table == old(table) && ntokens == old(ntokens)
      {
        row := row + [line.counts[k]];
        globalCounts := globalCounts[k := globalCounts[k] + line.counts[k]];
      }
      assert row == line.counts;
      table := table[line.token := row];
      ntokens := ntokens + 1;
    }

    /**
     * `import_token_topic_count` over the decoded lines of the model file:
     * the totals are the old totals plus every line, the table holds the
     * last line of each token, and ntokens counts every line read.
     */
    method ImportTokenTopicCount(lines: seq<ModelLine>)
      requires Valid() && RowsWithin(lines, ntopics)
      modifies this`globalCounts, this`table, this`ntokens
      ensures Valid()
      ensures globalCounts == Accumulate(old(globalCounts), lines)
      ensures table == Overlay(old(table), Rows(lines)) && ntokens == old(ntokens) + |lines|
    {
      for i := 0 to |lines|
        invariant Valid()
        invariant globalCounts == Accumulate(old(globalCounts), lines[..i])
        invariant table == Overlay(old(table), Rows(lines)[..i]) && ntokens == old(ntokens) + i
      {
        ImportLine(lines[i]);
        assert lines[..i + 1][..i] == lines[..i];
        assert Rows(lines)[..i + 1][..i] == Rows(lines)[..i];
      }
      assert lines[..|lines|] == lines;
      assert Rows(lines)[..|lines|] == Rows(lines);
    }

    /**
     * `import_corpus` over the decoded lines of the corpus: each line is
     * stored under its item id, its item id appended to the id list, and the
     * indices 0, 1, ... pushed onto the queue, counting from zero on every
     * call.
     */
    method ImportCorpus(lines: seq<CorpusLine>)
      modifies this`corpus, this`docids, this`queue
      ensures corpus == Overlay(old(corpus), Entries(lines)) && docids == old(docids) + Items(lines)
      ensures queue == old(queue) + seq(|lines|, i => i)
      ensures old(Indexed()) ==> Indexed()
    {
      var ii := 0;
      while ii < |lines|
        invariant ii <= |lines|
        invariant corpus == Overlay(old(corpus), Entries(lines)[..ii]) && docids == old(docids) + Items(lines[..ii])
        invariant queue == old(queue) + seq(ii, i => i)
        invariant old(Indexed()) ==> Indexed()
      {
        var line := lines[ii];
        corpus := corpus[line.item := line.pairs];
        docids := docids + [line.item];
        queue := queue + [ii];
        assert lines[..ii + 1][..ii] == lines[..ii];
        assert Entries(lines)[..ii + 1][..ii] == Entries(lines)[..ii];
        assert Items(lines[..ii + 1]) == Items(lines[..ii]) + [line.item];
        assert seq(ii + 1, i => i) == seq(ii, i => i) + [ii];
        ii := ii + 1;
      }
      assert lines[..ii] == lines;
      assert Entries(lines)[..ii] == Entries(lines);
    }

    /**
     * `gibbs_sampler` as the only consumer of the queue: the worker's copy of
     * the table, then every queued document in order; the topic lines it
     * writes are those of Drain. The object's totals and table are left as
     * they were, and the queue is empty.
     */
    method GibbsSampler(rng: Draws, next: nat) returns (out: seq<TopicLine>, next': nat)
      requires ValidParams(Config()) && Valid() && forall w :: w in table ==> |table[w]| == ntopics
      requires forall i :: 0 <= i < |queue| ==> queue[i] < |docids| && docids[queue[i]] in corpus
      requires forall i :: 0 <= i < |queue| ==> RowsFor(table, BagOf(corpus[docids[queue[i]]]))
      modifies this`queue
      ensures queue == []
      ensures var r := Drain(Config(), globalCounts, table, Queued(old(queue), docids, corpus), rng, next);
        out == r.0 && next' == r.2
    {
      var p := Config();
      var canonical, ids, bags := globalCounts, docids, corpus;
      ghost var docs := Queued(queue, ids, bags);
      assert Drainable(p, canonical, table, docs);
      var local := CopyTable(table);
      ghost var start := table;
      out := [];
      next' := next;
      ghost var done := 0;
      assert docs[..0] == [];
      while queue != []
        invariant 0 <= done <= |docs| && queue == old(queue)[done..]
        invariant Worked(p, canonical, start, docs, done, rng, next, out, local, next')
        decreases |queue|
      {
        var ii := queue[0];
        queue := queue[1..];
        var item := ids[ii];
        var bow := DecodeBag(bags[item]);
        QueuedAt(old(queue), ids, bags, done);
        WorkerStep(p, canonical, start, docs, done, rng, next, out, local, next');
        var probs;
        local, probs, next' := SampleDocument(p, canonical, local, bow, rng, next');
        out := out + [TopicLine(item, probs)];
        done := done + 1;
      }
      assert docs[..done] == docs;
    }
  }

  /** The i-th queued document: its item id and its decoded bag. */
  lemma QueuedAt(queue: seq<nat>, docids: seq<string>, corpus: map<string, seq<(nat, nat)>>, i: nat)
    requires forall k :: 0 <= k < |queue| ==> queue[k] < |docids| && docids[queue[k]] in corpus
    requires i < |queue|
    ensures Queued(queue, docids, corpus)[i] == (docids[queue[i]], BagOf(corpus[docids[queue[i]]]))
  {
  }

  /** A worker that has run the first `done` of docs: its output, table and cursor are those of Drain. */
  ghost predicate Worked(p: Params, canonical: seq<nat>, table: map<nat, seq<nat>>, docs: seq<(string, map<nat, nat>)>,
                         done: nat, rng: Draws, next: nat, out: seq<TopicLine>, local: map<nat, seq<nat>>, n: nat)
  {
    done <= |docs| && Drainable(p, canonical, table, docs) && Drainable(p, canonical, table, docs[..done]) &&
    Drain(p, canonical, table, docs[..done], rng, next) == (out, local, n)
  }

  /** The worker can run the next document, and doing so extends what it has run by one. */
  lemma WorkerStep(p: Params, canonical: seq<nat>, table: map<nat, seq<nat>>, docs: seq<(string, map<nat, nat>)>,
                   done: nat, rng: Draws, next: nat, out: seq<TopicLine>, local: map<nat, seq<nat>>, n: nat)
    requires done < |docs| && Worked(p, canonical, table, docs, done, rng, next, out, local, n)
    ensures Setup(p, canonical, local, docs[done].1)
    ensures var o := Document(p, canonical, local, docs[done].1, rng, n);
      Worked(p, canonical, table, docs, done + 1, rng, next, out + [TopicLine(docs[done].0, o.probs)], o.table, o.next)
  {
    DrainStep(p, canonical, table, docs, done, rng, next);
  }

  /** The worker's copy of the table, row by row; the order of the rows does not matter. */
  method CopyTable(table: map<nat, seq<nat>>) returns (local: map<nat, seq<nat>>)
    ensures local == table
  {
    local := map[];
    while local.Keys != table.Keys
      invariant local.Keys <= table.Keys
      invariant forall k :: k in local ==> local[k] == table[k]
      decreases |table.Keys - local.Keys|
    {
      var k :| k in table.Keys - local.Keys;
      ghost var left := table.Keys - local.Keys;
      local := local[k := table[k]];
      assert table.Keys - local.Keys == left - {k};
    }
  }

  /** The loop filling `current_bow` from a document's pairs, in order. */
  method DecodeBag(pairs: seq<(nat, nat)>) returns (bow: map<nat, nat>)
    ensures bow == BagOf(pairs)
  {
    bow := map[];
    for j := 0 to |pairs|
      invariant bow == BagOf(pairs[..j])
    {
      bow := bow[pairs[j].0 := pairs[j].1];
      assert pairs[..j + 1][..j] == pairs[..j];
    }
    assert pairs[..|pairs|] == pairs;
  }
}
