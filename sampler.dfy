/**
 * The per-document body of `Gibbs::gibbs_sampler` (gibbs/gibbs.cpp): collapsed
 * Gibbs sampling of one document's word occurrences against the worker's
 * private token-topic table, with the topic totals copied afresh from the
 * canonical ones for every document.
 *
 * Each method runs the source's loops; the function of the same step
 * (Visit, SweepSlots, SweepTokens, Iterate, Document) states what the loop
 * computes, and the module Bookkeeping proves what those functions keep.
 */
module Sampler {
  import opened Vectors
  import opened Multinomial
  import opened Slots

  /** ntopics_, ntokens_, ALPHA_, BETA_ and burnin_ as the sampler reads them. */
  datatype Params = Params(ntopics: nat, ntokens: nat, alpha: real, beta: real, burnin: nat)

  /** At least one topic and positive priors. */
  predicate ValidParams(p: Params)
  {
    p.ntopics >= 1 && p.alpha > 0.0 && p.beta > 0.0
  }

  /** The "unassigned" value every slot starts at. */
  function Sentinel(ntopics: nat): nat
  {
    ntopics + 1000
  }

  /** The source's decrement of one count, clamped at zero. */
  function ClampDec(v: seq<nat>, a: nat): seq<nat>
    requires a < |v|
  {
    v[a := if v[a] > 0 then v[a] - 1 else 0]
  }

  /** The increment of one count. */
  function Inc(v: seq<nat>, a: nat): seq<nat>
    requires a < |v|
  {
    v[a := v[a] + 1]
  }

  /** Slots s with slot i set to x. */
  function Put(s: seq<nat>, i: nat, x: nat): seq<nat>
    requires i < |s|
  {
    s[i := x]
  }

  /** The working state of one document. */
  datatype DocState = DocState(
    docCount: seq<nat>,         // current_doc_topic_count
    totals: seq<nat>,           // local_global_topic_counts
    table: map<nat, seq<nat>>,  // the worker's local_token_topic_count_map
    asg: map<nat, seq<nat>>,    // assignment_map
    next: nat)                  // position of the next unused draw

  /**
   * Every token that occurs in the bag has a row in the table. A token of
   * count 0 gets no slot, so its row is never read and it need not have one.
   */
  predicate RowsFor(table: map<nat, seq<nat>>, bow: map<nat, nat>)
  {
    forall w :: w in bow && bow[w] > 0 ==> w in table
  }

  /**
   * What the sampler needs of one document's inputs: a usable configuration,
   * canonical totals and table rows of ntopics entries, at most ntokens table
   * rows, and a row for every token that occurs in the bag.
   */
  predicate Setup(p: Params, canonical: seq<nat>, table: map<nat, seq<nat>>, bow: map<nat, nat>)
  {
    ValidParams(p) && |canonical| == p.ntopics && |table| <= p.ntokens &&
    (forall w :: w in table ==> |table[w]| == p.ntopics) &&
    RowsFor(table, bow)
  }

  /**
   * What a visit of token w reads: a usable configuration, the token's slots
   * and table row, and vectors of ntopics entries.
   */
  ghost predicate OnToken(p: Params, s: DocState, w: nat)
  {
    ValidParams(p) && p.ntokens >= 1 && w in s.asg && w in s.table &&
    |s.table[w]| == p.ntopics && |s.docCount| == p.ntopics && |s.totals| == p.ntopics
  }

  /**
   * The shapes a document's state keeps: vectors of ntopics entries, a table
   * row of ntopics entries for every token of the table and for every token
   * occurring in the bag, one slot per occurrence, and every token occurring
   * in the bag ready to be visited.
   * The last clause is the only one that says ntokens is nonzero; it is
   * triggered by OnToken alone, so a proof about whole sweeps does not learn
   * that every visit inside them is Ready and does not unfold them.
   */
  ghost predicate Fits(p: Params, bow: map<nat, nat>, s: DocState)
  {
    |s.docCount| == p.ntopics && |s.totals| == p.ntopics &&
    (forall w :: w in s.table ==> |s.table[w]| == p.ntopics) &&
    RowsFor(s.table, bow) &&
    s.asg.Keys == bow.Keys && (forall w :: w in s.asg ==> |s.asg[w]| == bow[w]) &&
    (forall w {:trigger OnToken(p, s, w)} :: w in bow && bow[w] > 0 ==> OnToken(p, s, w))
  }

  /** Under Fits, every token occurring in the bag is ready to be visited. */
  lemma FitsOnToken(p: Params, bow: map<nat, nat>, s: DocState, w: nat)
    requires Fits(p, bow, s) && w in bow && bow[w] > 0
    ensures OnToken(p, s, w) && |s.asg[w]| == bow[w]
  {
  }

  lemma MapSizePositive<V>(m: map<nat, V>, k: nat)
    requires k in m
    ensures |m| >= 1
  {
    assert m.Keys != {};
  }

  /** The unnormalized weight of one topic from its document, token and total counts. */
  function Weight(p: Params, nd: nat, nw: nat, nt: nat): (r: real)
    requires ValidParams(p) && p.ntokens >= 1
    ensures r > 0.0
  {
    var num := (p.alpha + nd as real) * (p.beta + nw as real);
    var den := p.beta * p.ntokens as real + nt as real;
    assert num > 0.0 && den > 0.0;
    num / den
  }

  /** The weights of topics 0 .. k-1, in order: what the loop filling `pz` holds after k rounds. */
  function WeightsTo(p: Params, docCount: seq<nat>, row: seq<nat>, totals: seq<nat>, k: nat): (pz: seq<real>)
    requires ValidParams(p) && p.ntokens >= 1
    requires k <= |docCount| && k <= |row| && k <= |totals|
    ensures |pz| == k && forall t :: 0 <= t < k ==> pz[t] > 0.0
  {
    if k == 0 then []
    else WeightsTo(p, docCount, row, totals, k - 1) + [Weight(p, docCount[k - 1], row[k - 1], totals[k - 1])]
  }

  /** The weight of every topic: what the loop filling `pz` computes. */
  function Weights(p: Params, docCount: seq<nat>, row: seq<nat>, totals: seq<nat>): (pz: seq<real>)
    requires ValidParams(p) && p.ntokens >= 1
    requires |docCount| == p.ntopics && |row| == p.ntopics && |totals| == p.ntopics
    ensures |pz| == p.ntopics && Valid(pz)
  {
    var pz := WeightsTo(p, docCount, row, totals, p.ntopics);
    SumRPositive(pz);
    pz
  }

  /** Entry t of the weights is the weight of topic t's counts. */
  lemma {:induction false} WeightsToAt(p: Params, docCount: seq<nat>, row: seq<nat>, totals: seq<nat>, k: nat, t: nat)
    requires ValidParams(p) && p.ntokens >= 1
    requires k <= |docCount| && k <= |row| && k <= |totals| && t < k
    ensures WeightsTo(p, docCount, row, totals, k)[t] == Weight(p, docCount[t], row[t], totals[t])
  {
    if t < k - 1 {
      WeightsToAt(p, docCount, row, totals, k - 1, t);
    }
  }

  /** The decrement step of a visit: a slot holding a topic gives it back in all three counts. */
  function Decrement(p: Params, s: DocState, w: nat, idx: nat): DocState
    requires w in s.asg && idx < |s.asg[w]| && w in s.table
    requires |s.docCount| == p.ntopics && |s.totals| == p.ntopics && |s.table[w]| == p.ntopics
  {
    var held := s.asg[w][idx];
    if held < p.ntopics then
      s.(docCount := ClampDec(s.docCount, held), totals := ClampDec(s.totals, held),
         table := s.table[w := ClampDec(s.table[w], held)])
    else s
  }

  /**
   * What one visit reads must exist: a usable configuration, slot idx of
   * token w, a table row for w, and vectors of ntopics entries.
   */
  predicate Ready(p: Params, s: DocState, w: nat, idx: nat)
  {
    ValidParams(p) && p.ntokens >= 1 && w in s.asg && idx < |s.asg[w]| && w in s.table &&
    |s.table[w]| == p.ntopics && |s.docCount| == p.ntopics && |s.totals| == p.ntopics
  }

  /**
   * One visit of slot idx of token w: the decrement step, the weights of the
   * decremented counts, a multinomial draw, the increment step, and the slot
   * set to the drawn topic; the flag says whether the slot changed. A visit
   * of a slot that is not there leaves the state alone (VisitFits shows the
   * sweeps never make one).
   */
  function Visit(p: Params, s: DocState, w: nat, idx: nat, rng: Draws): (r: (DocState, bool))
  {
    if !Ready(p, s, w, idx) then (s, false)
    else
      var held := s.asg[w][idx];
      var m := Decrement(p, s, w, idx);
      var drawn := Pick(Weights(p, m.docCount, m.table[w], m.totals), rng(s.next));
      var next := if p.ntopics == 1 then s.next else s.next + 1;
      (DocState(Inc(m.docCount, drawn), Inc(m.totals, drawn), m.table[w := Inc(m.table[w], drawn)],
                s.asg[w := Put(s.asg[w], idx, drawn)], next),
       drawn != held)
  }

  /** The number of slots token w has in the bag (none when it is not in it). */
  function SlotCount(bow: map<nat, nat>, w: nat): nat
  {
    if w in bow then bow[w] else 0
  }

  /** Visits slots idx, idx+1, ... of token w in order: the state reached and the number of slots changed. */
  function SweepSlots(p: Params, bow: map<nat, nat>, s: DocState, w: nat, idx: nat, rng: Draws): (DocState, nat)
    decreases SlotCount(bow, w) - idx
  {
    if idx >= SlotCount(bow, w) then (s, 0)
    else
      var (s1, changed) := Visit(p, s, w, idx, rng);
      var (s2, c) := SweepSlots(p, bow, s1, w, idx + 1, rng);
      (s2, c + if changed then 1 else 0)
  }

  /** Visits every slot of the tokens ks[i..] in order: the state reached and the number of slots changed. */
  function SweepTokens(p: Params, bow: map<nat, nat>, ks: seq<nat>, s: DocState, i: nat, rng: Draws): (DocState, nat)
    decreases |ks| - i
  {
    if i >= |ks| then (s, 0)
    else
      var (s1, c1) := SweepSlots(p, bow, s, ks[i], 0, rng);
      var (s2, c2) := SweepTokens(p, bow, ks, s1, i + 1, rng);
      (s2, c1 + c2)
  }

  /**
   * Sweeps from sweep number ite on, until one has number burnin or changes
   * no slot: the state reached and the change count of every sweep run.
   */
  function Iterate(p: Params, bow: map<nat, nat>, ks: seq<nat>, s: DocState, ite: nat, rng: Draws): (DocState, seq<nat>)
    decreases p.burnin - ite
  {
    var (s1, c) := SweepTokens(p, bow, ks, s, 0, rng);
    if ite >= p.burnin || c == 0 then (s1, [c])
    else
      var (s2, cs) := Iterate(p, bow, ks, s1, ite + 1, rng);
      (s2, [c] + cs)
  }

  /** One slot per occurrence of every token of the bag, each holding the sentinel. */
  function InitialSlots(n: nat, bow: map<nat, nat>): map<nat, seq<nat>>
  {
    map w | w in bow :: seq(bow[w], _ => Sentinel(n))
  }

  /**
   * What one document yields: the worker's table afterwards, the output
   * vector, the draw cursor, and (for the proofs) the final state and the
   * change count of every sweep.
   */
  datatype Outcome = Outcome(table: map<nat, seq<nat>>, probs: seq<real>, next: nat, final: DocState, changes: seq<nat>)

  /**
   * One document: an empty bag yields the empty vector and touches nothing.
   * Otherwise the sweeps run from zero document counts, the canonical totals
   * and all-sentinel slots; the final document counts are added once into the
   * ALPHA-seeded accumulator, which is normalized.
   */
  function Document(p: Params, canonical: seq<nat>, table: map<nat, seq<nat>>, bow: map<nat, nat>,
                    rng: Draws, next: nat): (o: Outcome)
    requires Setup(p, canonical, table, bow)
    ensures o.table.Keys == table.Keys && forall w :: w in o.table ==> |o.table[w]| == p.ntopics
  {
    if bow == map[] then Outcome(table, [], next, DocState([], [], table, map[], next), [])
    else
      var init := DocState(Zeros(p.ntopics), canonical, table, InitialSlots(p.ntopics, bow), next);
      var ks := SortedKeys(bow.Keys);
      InitialFits(p, canonical, table, bow, next);
      IterateFits(p, bow, ks, init, 0, rng);
      var (fin, changes) := Iterate(p, bow, ks, init, 0, rng);
      Outcome(fin.table, Normalize(AddCounts(Fill(p.ntopics, p.alpha), fin.docCount)), fin.next, fin, changes)
  }

  /** Under Fits, a visit of an existing slot is Ready. */
  lemma FitsReady(p: Params, bow: map<nat, nat>, s: DocState, w: nat, idx: nat)
    requires Fits(p, bow, s) && w in bow && idx < bow[w]
    ensures Ready(p, s, w, idx)
  {
    FitsOnToken(p, bow, s, w);
  }

  /** Under Fits, a visit of an existing slot keeps Fits and the table's tokens. */
  lemma VisitFits(p: Params, bow: map<nat, nat>, s: DocState, w: nat, idx: nat, rng: Draws)
    requires Fits(p, bow, s) && w in bow && idx < bow[w]
    ensures Fits(p, bow, Visit(p, s, w, idx, rng).0) && Visit(p, s, w, idx, rng).0.table.Keys == s.table.Keys
  {
    FitsOnToken(p, bow, s, w);
  }

  lemma {:induction false} SweepSlotsFits(p: Params, bow: map<nat, nat>, s: DocState, w: nat, idx: nat, rng: Draws)
    requires ValidParams(p) && Fits(p, bow, s)
    ensures Fits(p, bow, SweepSlots(p, bow, s, w, idx, rng).0)
    ensures SweepSlots(p, bow, s, w, idx, rng).0.table.Keys == s.table.Keys
    decreases SlotCount(bow, w) - idx
  {
    if idx < SlotCount(bow, w) {
      VisitFits(p, bow, s, w, idx, rng);
      SweepSlotsFits(p, bow, Visit(p, s, w, idx, rng).0, w, idx + 1, rng);
    }
  }

  lemma {:induction false} SweepTokensFits(p: Params, bow: map<nat, nat>, ks: seq<nat>, s: DocState, i: nat, rng: Draws)
    requires ValidParams(p) && Fits(p, bow, s)
    ensures Fits(p, bow, SweepTokens(p, bow, ks, s, i, rng).0)
    ensures SweepTokens(p, bow, ks, s, i, rng).0.table.Keys == s.table.Keys
    decreases |ks| - i
  {
    if i < |ks| {
      SweepSlotsFits(p, bow, s, ks[i], 0, rng);
      SweepTokensFits(p, bow, ks, SweepSlots(p, bow, s, ks[i], 0, rng).0, i + 1, rng);
    }
  }

  lemma {:induction false} IterateFits(p: Params, bow: map<nat, nat>, ks: seq<nat>, s: DocState, ite: nat, rng: Draws)
    requires ValidParams(p) && Fits(p, bow, s)
    ensures Fits(p, bow, Iterate(p, bow, ks, s, ite, rng).0)
    ensures Iterate(p, bow, ks, s, ite, rng).0.table.Keys == s.table.Keys
    decreases p.burnin - ite
  {
    SweepTokensFits(p, bow, ks, s, 0, rng);
    var s1 := SweepTokens(p, bow, ks, s, 0, rng).0;
    if !(ite >= p.burnin || SweepTokens(p, bow, ks, s, 0, rng).1 == 0) {
      IterateFits(p, bow, ks, s1, ite + 1, rng);
    }
  }

  /** The state a nonempty document starts from fits it. */
  lemma InitialFits(p: Params, canonical: seq<nat>, table: map<nat, seq<nat>>, bow: map<nat, nat>, next: nat)
    requires Setup(p, canonical, table, bow) && bow != map[]
    ensures Fits(p, bow, DocState(Zeros(p.ntopics), canonical, table, InitialSlots(p.ntopics, bow), next))
  {
    if w :| w in bow && bow[w] > 0 {
      MapSizePositive(table, w);
    }
  }

  /** The loop filling `pz`, one topic after the other. */
  method FillWeights(p: Params, docCount: seq<nat>, row: seq<nat>, totals: seq<nat>) returns (pz: seq<real>)
    requires ValidParams(p) && p.ntokens >= 1
    requires |docCount| == p.ntopics && |row| == p.ntopics && |totals| == p.ntopics
    ensures pz == Weights(p, docCount, row, totals)
  {
    pz := [];
    for t := 0 to p.ntopics
      invariant pz == WeightsTo(p, docCount, row, totals, t)
    {
      pz := pz + [Weight(p, docCount[t], row[t], totals[t])];
    }
  }

  /**
   * One visit of one occurrence slot, as the source runs it: take the slot's
   * topic out of the three counts (when it holds one), weigh every topic,
   * draw, put the drawn topic into the three counts, and write the slot back
   * only when it changed.
   */
  method VisitSlot(p: Params, s: DocState, w: nat, idx: nat, rng: Draws)
    returns (s': DocState, changed: bool)
    requires Ready(p, s, w, idx)
    ensures (s', changed) == Visit(p, s, w, idx, rng)
  {
    var n := p.ntopics;
    var slots := s.asg[w];
    var held := slots[idx];
    var docCount, totals, table := s.docCount, s.totals, s.table;
    if held < n {
      table := table[w := ClampDec(table[w], held)];
      docCount := ClampDec(docCount, held);
      totals := ClampDec(totals, held);
    }
    var pz := FillWeights(p, docCount, table[w], totals);
    var drawn, next := Multinomial.Multinomial(pz, rng, s.next);
    totals := Inc(totals, drawn);
    table := table[w := Inc(table[w], drawn)];
    docCount := Inc(docCount, drawn);
    changed := held != drawn;
    var asg := s.asg;
    if changed {
      asg := asg[w := Put(slots, idx, drawn)];
    } else {
      assert Put(slots, idx, drawn) == slots;
      assert s.asg[w := slots] == s.asg;
    }
    s' := DocState(docCount, totals, table, asg, next);
  }

  /** SweepSlots unfolded by one visit. */
  lemma SweepSlotsStep(p: Params, bow: map<nat, nat>, s: DocState, w: nat, idx: nat, rng: Draws)
    requires idx < SlotCount(bow, w)
    ensures var v := Visit(p, s, w, idx, rng);
      var r := SweepSlots(p, bow, v.0, w, idx + 1, rng);
      SweepSlots(p, bow, s, w, idx, rng) == (r.0, r.1 + if v.1 then 1 else 0)
  {
  }

  /** Past the last slot, SweepSlots changes nothing. */
  lemma SweepSlotsEnd(p: Params, bow: map<nat, nat>, s: DocState, w: nat, idx: nat, rng: Draws)
    requires idx >= SlotCount(bow, w)
    ensures SweepSlots(p, bow, s, w, idx, rng).0 == s && SweepSlots(p, bow, s, w, idx, rng).1 == 0
  {
  }

  /**
   * One pass of the inner loop's body: visit slot idx and count it when it
   * changed. What is left of the sweep of token w is then one slot shorter.
   */
  method CountVisit(p: Params, bow: map<nat, nat>, s: DocState, w: nat, idx: nat, rng: Draws, nchanges: nat)
    returns (s': DocState, nchanges': nat)
    requires ValidParams(p) && Fits(p, bow, s) && w in bow && idx < bow[w]
    ensures Fits(p, bow, s')
    ensures SweepSlots(p, bow, s, w, idx, rng).0 == SweepSlots(p, bow, s', w, idx + 1, rng).0
    ensures nchanges + SweepSlots(p, bow, s, w, idx, rng).1 == nchanges' + SweepSlots(p, bow, s', w, idx + 1, rng).1
  {
    FitsReady(p, bow, s, w, idx);
    VisitFits(p, bow, s, w, idx, rng);
    SweepSlotsStep(p, bow, s, w, idx, rng);
    var changed;
    s', changed := VisitSlot(p, s, w, idx, rng);
    nchanges' := if changed then nchanges + 1 else nchanges;
  }

  /** The inner loop of a sweep: every slot of token w, in order, counting the slots that changed. */
  method SweepToken(p: Params, bow: map<nat, nat>, s: DocState, w: nat, rng: Draws)
    returns (s': DocState, nchanges: nat)
    requires ValidParams(p) && Fits(p, bow, s) && w in bow
    ensures s' == SweepSlots(p, bow, s, w, 0, rng).0 && nchanges == SweepSlots(p, bow, s, w, 0, rng).1
  {
    ghost var goal := SweepSlots(p, bow, s, w, 0, rng);
    s' := s;
    nchanges := 0;
    var idx := 0;
    while idx < |s'.asg[w]|
      invariant idx <= bow[w] && Fits(p, bow, s')
      invariant goal.0 == SweepSlots(p, bow, s', w, idx, rng).0
      invariant goal.1 == nchanges + SweepSlots(p, bow, s', w, idx, rng).1
      decreases bow[w] - idx
    {
      s', nchanges := CountVisit(p, bow, s', w, idx, rng, nchanges);
      idx := idx + 1;
    }
    SweepSlotsEnd(p, bow, s', w, idx, rng);
  }

  /** SweepTokens unfolded by one token. */
  lemma SweepTokensStep(p: Params, bow: map<nat, nat>, ks: seq<nat>, s: DocState, i: nat, rng: Draws)
    requires i < |ks|
    ensures var v := SweepSlots(p, bow, s, ks[i], 0, rng);
      var r := SweepTokens(p, bow, ks, v.0, i + 1, rng);
      SweepTokens(p, bow, ks, s, i, rng) == (r.0, v.1 + r.1)
  {
  }

  /** Past the last token, SweepTokens changes nothing. */
  lemma SweepTokensEnd(p: Params, bow: map<nat, nat>, ks: seq<nat>, s: DocState, i: nat, rng: Draws)
    requires i >= |ks|
    ensures SweepTokens(p, bow, ks, s, i, rng).0 == s && SweepTokens(p, bow, ks, s, i, rng).1 == 0
  {
  }

  /** One pass of the token loop's body: sweep the slots of ks[i] and add their change count. */
  method CountToken(p: Params, bow: map<nat, nat>, ks: seq<nat>, s: DocState, i: nat, rng: Draws, nchanges: nat)
    returns (s': DocState, nchanges': nat)
    requires ValidParams(p) && Fits(p, bow, s) && i < |ks| && ks[i] in bow
    ensures Fits(p, bow, s')
    ensures SweepTokens(p, bow, ks, s, i, rng).0 == SweepTokens(p, bow, ks, s', i + 1, rng).0
    ensures nchanges + SweepTokens(p, bow, ks, s, i, rng).1 == nchanges' + SweepTokens(p, bow, ks, s', i + 1, rng).1
  {
    SweepTokensStep(p, bow, ks, s, i, rng);
    SweepSlotsFits(p, bow, s, ks[i], 0, rng);
    var c;
    s', c := SweepToken(p, bow, s, ks[i], rng);
    nchanges' := nchanges + c;
  }

  /** One sweep: the tokens in ascending order (the order std::map iterates), counting the slots that changed. */
  method Sweep(p: Params, bow: map<nat, nat>, ks: seq<nat>, s: DocState, rng: Draws)
    returns (s': DocState, nchanges: nat)
    requires ValidParams(p) && Fits(p, bow, s) && forall k :: k in ks ==> k in bow
    ensures s' == SweepTokens(p, bow, ks, s, 0, rng).0 && nchanges == SweepTokens(p, bow, ks, s, 0, rng).1
  {
    ghost var goal := SweepTokens(p, bow, ks, s, 0, rng);
    s' := s;
    nchanges := 0;
    var i := 0;
    while i < |ks|
      invariant i <= |ks| && Fits(p, bow, s')
      invariant goal.0 == SweepTokens(p, bow, ks, s', i, rng).0
      invariant goal.1 == nchanges + SweepTokens(p, bow, ks, s', i, rng).1
    {
      s', nchanges := CountToken(p, bow, ks, s', i, rng, nchanges);
      i := i + 1;
    }
    SweepTokensEnd(p, bow, ks, s', i, rng);
  }

  /** The slot initialization: one sentinel slot per occurrence, token by token. */
  method InitAssignments(n: nat, bow: map<nat, nat>, ks: seq<nat>) returns (asg: map<nat, seq<nat>>)
    requires forall k :: k in bow <==> k in ks
    ensures asg == InitialSlots(n, bow)
  {
    asg := map[];
    for i := 0 to |ks|
      invariant forall j :: 0 <= j < i ==> ks[j] in asg
      invariant forall w :: w in asg ==> w in bow && asg[w] == seq(bow[w], _ => Sentinel(n))
    {
      asg := asg[ks[i] := seq(bow[ks[i]], _ => Sentinel(n))];
    }
    forall w | w in bow
      ensures w in asg
    {
      assert w in ks;
    }
  }

  /** Iterate unfolded by one sweep. */
  lemma IterateStep(p: Params, bow: map<nat, nat>, ks: seq<nat>, s: DocState, ite: nat, rng: Draws)
    ensures var v := SweepTokens(p, bow, ks, s, 0, rng);
      var r := Iterate(p, bow, ks, v.0, ite + 1, rng);
      Iterate(p, bow, ks, s, ite, rng) ==
        if ite >= p.burnin || v.1 == 0 then (v.0, [v.1]) else (r.0, [v.1] + r.1)
  {
  }

  /**
   * One pass of the sweep loop's body up to its exit test: a sweep, and the
   * change count it appends. Iterate from sweep ite is then this sweep
   * followed by Iterate from sweep ite + 1, unless the test stops the loop.
   */
  method SweepRound(p: Params, bow: map<nat, nat>, ks: seq<nat>, s: DocState, ite: nat, rng: Draws)
    returns (s': DocState, nchanges: nat)
    requires ValidParams(p) && Fits(p, bow, s) && forall k :: k in ks ==> k in bow
    ensures Fits(p, bow, s')
    ensures Iterate(p, bow, ks, s, ite, rng).0 ==
      if ite >= p.burnin || nchanges == 0 then s' else Iterate(p, bow, ks, s', ite + 1, rng).0
  {
    IterateStep(p, bow, ks, s, ite, rng);
    SweepTokensFits(p, bow, ks, s, 0, rng);
    s', nchanges := Sweep(p, bow, ks, s, rng);
  }

  /**
   * The sweep loop of one document: sweeps until the one numbered burnin or
   * one that changes no slot, then adds the document counts once into the
   * ALPHA-seeded accumulator.
   */
  method SweepLoop(p: Params, bow: map<nat, nat>, ks: seq<nat>, s0: DocState, rng: Draws)
    returns (s: DocState, acc: seq<real>)
    requires ValidParams(p) && Fits(p, bow, s0) && forall k :: k in ks ==> k in bow
    ensures Fits(p, bow, s) && s == Iterate(p, bow, ks, s0, 0, rng).0
    ensures acc == AddCounts(Fill(p.ntopics, p.alpha), s.docCount)
  {
    ghost var goal := Iterate(p, bow, ks, s0, 0, rng).0;
    acc := Fill(p.ntopics, p.alpha);
    s := s0;
    var ite := 0;
    while true
      invariant ite <= p.burnin && Fits(p, bow, s) && acc == Fill(p.ntopics, p.alpha)
      invariant goal == Iterate(p, bow, ks, s, ite, rng).0
      decreases p.burnin - ite
    {
      var nchanges;
      s, nchanges := SweepRound(p, bow, ks, s, ite, rng);
      if ite >= p.burnin || nchanges == 0 {
        acc := AddCounts(acc, s.docCount);
        break;
      }
      ite := ite + 1;
    }
  }

  /**
   * One document, as the source runs it: the empty-bag shortcut, the fresh
   * document state, the sweep loop and the normalization.
   */
  method SampleDocument(p: Params, canonical: seq<nat>, table: map<nat, seq<nat>>, bow: map<nat, nat>,
                        rng: Draws, next: nat)
    returns (table': map<nat, seq<nat>>, probs: seq<real>, next': nat)
    requires Setup(p, canonical, table, bow)
    ensures var o := Document(p, canonical, table, bow, rng, next);
      table' == o.table && probs == o.probs && next' == o.next
  {
    if bow.Keys == {} {
      assert bow == map[];
      return table, [], next;
    }
    var n := p.ntopics;
    var ks := SortedKeys(bow.Keys);
    var totals := canonical;
    var doc := Zeros(n);
    var asg0 := InitAssignments(n, bow, ks);
    var s := DocState(doc, totals, table, asg0, next);
    InitialFits(p, canonical, table, bow, next);
    var acc;
    s, acc := SweepLoop(p, bow, ks, s, rng);
    probs := Normalize(acc);
    table', next' := s.table, s.next;
  }
}
