/**
 * What the sampler's counts mean. During one document the document counts
 * are the number of slots holding each topic, the local totals are the
 * canonical totals plus the document counts, and the worker's table is its
 * value when the document started plus the slots of each token on each
 * topic. Every visit keeps this, so the clamped decrements never clamp and
 * the weights a visit draws from are the collapsed-Gibbs conditional of the
 * visited slot given all the others.
 */
module Bookkeeping {
  import opened Vectors
  import opened Multinomial
  import opened Slots
  import opened Sampler

  /** Slots of token w holding topic t. */
  function Held(asg: map<nat, seq<nat>>, w: nat, t: nat): nat
  {
    if w in asg then CountIn(asg[w], t, t + 1) else 0
  }

  /** Slots of the document, over the tokens ks, holding topic t. */
  function OnTopic(ks: seq<nat>, asg: map<nat, seq<nat>>, t: nat): nat
    requires forall k :: k in ks ==> k in asg
  {
    DocCountIn(ks, asg, t, t + 1)
  }

  /**
   * The collapsed-Gibbs conditional of one occurrence of token w given every
   * other slot of the document (asg holds that occurrence as unassigned): for
   * topic t, (ALPHA + n_dt) * (BETA + n_wt) / (BETA * ntokens + n_t), where
   * n_dt counts the document's slots on t, n_wt the table entry at document
   * start plus w's slots on t, and n_t the canonical total plus n_dt.
   */
  ghost function Conditional(p: Params, canonical: seq<nat>, start: map<nat, seq<nat>>, ks: seq<nat>,
                             asg: map<nat, seq<nat>>, w: nat): (pz: seq<real>)
    requires ValidParams(p) && p.ntokens >= 1 && |canonical| == p.ntopics
    requires w in start && |start[w]| == p.ntopics
    requires forall k :: k in ks ==> k in asg
    ensures |pz| == p.ntopics && Valid(pz)
  {
    Weights(p, DocCounts(p.ntopics, ks, asg), RowCounts(p.ntopics, start, asg, w),
            TotalCounts(p.ntopics, canonical, ks, asg))
  }

  /** n_dt for every topic t below n. */
  ghost function DocCounts(n: nat, ks: seq<nat>, asg: map<nat, seq<nat>>): (v: seq<nat>)
    requires forall k :: k in ks ==> k in asg
    ensures |v| == n
  {
    seq(n, t requires 0 <= t < n => OnTopic(ks, asg, t))
  }

  /** n_wt for every topic t below n. */
  ghost function RowCounts(n: nat, start: map<nat, seq<nat>>, asg: map<nat, seq<nat>>, w: nat): (v: seq<nat>)
    requires w in start && |start[w]| == n
    ensures |v| == n
  {
    seq(n, t requires 0 <= t < n => start[w][t] + Held(asg, w, t))
  }

  /** n_t for every topic t below n. */
  ghost function TotalCounts(n: nat, canonical: seq<nat>, ks: seq<nat>, asg: map<nat, seq<nat>>): (v: seq<nat>)
    requires |canonical| == n && forall k :: k in ks ==> k in asg
    ensures |v| == n
  {
    seq(n, t requires 0 <= t < n => canonical[t] + OnTopic(ks, asg, t))
  }

  /** Entry t of the conditional is the weight of n_dt, n_wt and n_t as counted from the slots. */
  lemma ConditionalAt(p: Params, canonical: seq<nat>, start: map<nat, seq<nat>>, ks: seq<nat>,
                      asg: map<nat, seq<nat>>, w: nat, t: nat)
    requires ValidParams(p) && p.ntokens >= 1 && |canonical| == p.ntopics
    requires w in start && |start[w]| == p.ntopics
    requires forall k :: k in ks ==> k in asg
    requires t < p.ntopics
    ensures Conditional(p, canonical, start, ks, asg, w)[t] ==
      Weight(p, OnTopic(ks, asg, t), start[w][t] + Held(asg, w, t), canonical[t] + OnTopic(ks, asg, t))
  {
    WeightsToAt(p, DocCounts(p.ntopics, ks, asg), RowCounts(p.ntopics, start, asg, w),
                TotalCounts(p.ntopics, canonical, ks, asg), p.ntopics, t);
  }

  /** ks lists the tokens of the bag in ascending order. */
  ghost predicate KeysOf(ks: seq<nat>, bow: map<nat, nat>)
  {
    Increasing(ks) && forall k :: k in bow <==> k in ks
  }

  /** The shapes the bookkeeping relies on: key sets and vector lengths. */
  ghost predicate Shape(p: Params, canonical: seq<nat>, start: map<nat, seq<nat>>, bow: map<nat, nat>,
                        ks: seq<nat>, s: DocState)
  {
    ValidParams(p) && KeysOf(ks, bow) && |canonical| == p.ntopics &&
    (forall w :: w in start ==> |start[w]| == p.ntopics) && RowsFor(start, bow) &&
    s.table.Keys == start.Keys && Fits(p, bow, s)
  }

  /** The document counts are the numbers of slots holding each topic. */
  ghost predicate CountsAgree(n: nat, ks: seq<nat>, docCount: seq<nat>, asg: map<nat, seq<nat>>)
    requires |docCount| == n && forall k :: k in ks ==> k in asg
  {
    (forall t :: 0 <= t < n ==> docCount[t] == OnTopic(ks, asg, t)) &&
    Sum(docCount) == DocCountIn(ks, asg, 0, n)
  }

  /** The local totals are the canonical totals plus the document counts. */
  ghost predicate TotalsAgree(n: nat, canonical: seq<nat>, docCount: seq<nat>, totals: seq<nat>)
    requires |canonical| == n && |docCount| == n && |totals| == n
  {
    forall t :: 0 <= t < n ==> totals[t] == canonical[t] + docCount[t]
  }

  /** The worker's table is its value at document start plus each token's slots on each topic. */
  ghost predicate TableAgrees(n: nat, start: map<nat, seq<nat>>, table: map<nat, seq<nat>>, asg: map<nat, seq<nat>>)
    requires table.Keys == start.Keys
    requires (forall w :: w in start ==> |start[w]| == n) && (forall w :: w in table ==> |table[w]| == n)
  {
    forall w, t :: w in start && 0 <= t < n ==> table[w][t] == start[w][t] + Held(asg, w, t)
  }

  /** The bookkeeping invariant of one document, against its canonical totals and starting table. */
  ghost predicate Tracks(p: Params, canonical: seq<nat>, start: map<nat, seq<nat>>, bow: map<nat, nat>,
                         ks: seq<nat>, s: DocState)
  {
    Shape(p, canonical, start, bow, ks, s) &&
    CountsAgree(p.ntopics, ks, s.docCount, s.asg) &&
    TotalsAgree(p.ntopics, canonical, s.docCount, s.totals) &&
    TableAgrees(p.ntopics, start, s.table, s.asg)
  }

  /** Every slot holds a topic. */
  ghost predicate AllAssigned(n: nat, asg: map<nat, seq<nat>>)
  {
    forall w, i :: w in asg && 0 <= i < |asg[w]| ==> asg[w][i] < n
  }

  /** No slot holds a topic. */
  ghost predicate NoneAssigned(n: nat, asg: map<nat, seq<nat>>)
  {
    forall w, i :: w in asg && 0 <= i < |asg[w]| ==> asg[w][i] >= n
  }

  /**
   * Setting slot idx of token w from a to x moves one slot from a's count to
   * x's, for the document and for that token, and changes the number of slots
   * holding a topic below n accordingly.
   */
  lemma Move(n: nat, ks: seq<nat>, asg: map<nat, seq<nat>>, w: nat, idx: nat, x: nat)
    requires Increasing(ks) && w in ks && forall k :: k in ks ==> k in asg
    requires idx < |asg[w]|
    ensures var a := asg[w][idx];
      var asg' := asg[w := Put(asg[w], idx, x)];
      (forall t: nat :: OnTopic(ks, asg', t) == OnTopic(ks, asg, t) - (if t == a then 1 else 0) + (if t == x then 1 else 0)) &&
      (forall t: nat :: Held(asg', w, t) == Held(asg, w, t) - (if t == a then 1 else 0) + (if t == x then 1 else 0)) &&
      (forall u: nat, t: nat :: u != w ==> Held(asg', u, t) == Held(asg, u, t)) &&
      DocCountIn(ks, asg', 0, n) == DocCountIn(ks, asg, 0, n) - (if a < n then 1 else 0) + (if x < n then 1 else 0)
  {
    var slots := asg[w];
    var asg' := asg[w := Put(slots, idx, x)];
    forall t: nat
      ensures OnTopic(ks, asg', t) == OnTopic(ks, asg, t) - (if t == slots[idx] then 1 else 0) + (if t == x then 1 else 0)
      ensures Held(asg', w, t) == Held(asg, w, t) - (if t == slots[idx] then 1 else 0) + (if t == x then 1 else 0)
    {
      DocCountInUpdate(ks, asg, w, Put(slots, idx, x), t, t + 1);
      CountInUpdate(slots, idx, x, t, t + 1);
    }
    DocCountInUpdate(ks, asg, w, Put(slots, idx, x), 0, n);
    CountInUpdate(slots, idx, x, 0, n);
  }

  /** A slot holding topic a is counted at least once in the document's and its token's count of a. */
  lemma Counted(ks: seq<nat>, asg: map<nat, seq<nat>>, w: nat, idx: nat)
    requires w in ks && forall k :: k in ks ==> k in asg
    requires idx < |asg[w]|
    ensures OnTopic(ks, asg, asg[w][idx]) >= 1 && Held(asg, w, asg[w][idx]) >= 1
  {
    var a := asg[w][idx];
    CountInHeld(asg[w], idx, a, a + 1);
    DocCountInAtLeast(ks, asg, w, a, a + 1);
  }

  /** Setting a slot twice leaves the second value. */
  lemma PutTwice(asg: map<nat, seq<nat>>, w: nat, idx: nat, x: nat, y: nat)
    requires w in asg && idx < |asg[w]|
    ensures var asg' := asg[w := Put(asg[w], idx, x)];
      asg'[w := Put(asg'[w], idx, y)] == asg[w := Put(asg[w], idx, y)]
  {
    assert Put(Put(asg[w], idx, x), idx, y) == Put(asg[w], idx, y);
  }

  /** The state after the decrement step, seen as the state in which the visited slot is unassigned. */
  ghost function Released(n: nat, s: DocState, w: nat, idx: nat): DocState
    requires w in s.asg && idx < |s.asg[w]| && |s.docCount| == n && |s.totals| == n
    requires w in s.table && |s.table[w]| == n
  {
    var held := s.asg[w][idx];
    var excl := s.asg[w := Put(s.asg[w], idx, Sentinel(n))];
    if held < n then
      DocState(ClampDec(s.docCount, held), ClampDec(s.totals, held),
               s.table[w := ClampDec(s.table[w], held)], excl, s.next)
    else s.(asg := excl)
  }

  /** The state after the increment step for topic b. */
  ghost function Claimed(n: nat, m: DocState, w: nat, idx: nat, b: nat, next: nat): DocState
    requires w in m.asg && idx < |m.asg[w]| && |m.docCount| == n && |m.totals| == n
    requires w in m.table && |m.table[w]| == n && b < n
  {
    DocState(Inc(m.docCount, b), Inc(m.totals, b), m.table[w := Inc(m.table[w], b)],
             m.asg[w := Put(m.asg[w], idx, b)], next)
  }

  /**
   * Taking a slot's topic back out keeps the bookkeeping exact, and a slot
   * holding a topic is counted at least once in all three places, so none of
   * the three clamped decrements is ever clamped.
   */
  lemma Release(p: Params, canonical: seq<nat>, start: map<nat, seq<nat>>, bow: map<nat, nat>,
                ks: seq<nat>, s: DocState, w: nat, idx: nat)
    requires Tracks(p, canonical, start, bow, ks, s)
    requires w in bow && idx < |s.asg[w]|
    ensures var held := s.asg[w][idx];
      held < p.ntopics ==> s.docCount[held] >= 1 && s.totals[held] >= 1 && s.table[w][held] >= 1
    ensures Tracks(p, canonical, start, bow, ks, Released(p.ntopics, s, w, idx))
  {
    var n := p.ntopics;
    var held := s.asg[w][idx];
    var r := Released(n, s, w, idx);
    FitsOnToken(p, bow, s, w);
    assert Shape(p, canonical, start, bow, ks, r);
    if held < n {
      Counted(ks, s.asg, w, idx);
      ReleaseCounts(p, canonical, start, bow, ks, s, w, idx);
    } else {
      Move(n, ks, s.asg, w, idx, Sentinel(n));
    }
    ReleaseTable(p, canonical, start, bow, ks, s, w, idx);
  }

  lemma ReleaseCounts(p: Params, canonical: seq<nat>, start: map<nat, seq<nat>>, bow: map<nat, nat>,
                      ks: seq<nat>, s: DocState, w: nat, idx: nat)
    requires Tracks(p, canonical, start, bow, ks, s)
    requires w in bow && idx < |s.asg[w]| && s.asg[w][idx] < p.ntopics
    ensures var r := Released(p.ntopics, s, w, idx);
      CountsAgree(p.ntopics, ks, r.docCount, r.asg) && TotalsAgree(p.ntopics, canonical, r.docCount, r.totals)
  {
    var n := p.ntopics;
    var held := s.asg[w][idx];
    var r := Released(n, s, w, idx);
    Move(n, ks, s.asg, w, idx, Sentinel(n));
    Counted(ks, s.asg, w, idx);
    SumUpdate(s.docCount, held, s.docCount[held] - 1);
    assert r.docCount == s.docCount[held := s.docCount[held] - 1];
  }

  lemma ReleaseTable(p: Params, canonical: seq<nat>, start: map<nat, seq<nat>>, bow: map<nat, nat>,
                     ks: seq<nat>, s: DocState, w: nat, idx: nat)
    requires Tracks(p, canonical, start, bow, ks, s)
    requires w in bow && idx < |s.asg[w]|
    ensures var r := Released(p.ntopics, s, w, idx);
      TableAgrees(p.ntopics, start, r.table, r.asg)
  {
    var n := p.ntopics;
    if s.asg[w][idx] < n {
      Counted(ks, s.asg, w, idx);
    }
    Move(n, ks, s.asg, w, idx, Sentinel(n));
  }

  /** Putting topic b into an unassigned slot keeps the bookkeeping exact. */
  lemma Claim(p: Params, canonical: seq<nat>, start: map<nat, seq<nat>>, bow: map<nat, nat>,
              ks: seq<nat>, m: DocState, w: nat, idx: nat, b: nat, next: nat)
    requires Tracks(p, canonical, start, bow, ks, m)
    requires w in bow && idx < |m.asg[w]| && m.asg[w][idx] >= p.ntopics && b < p.ntopics
    ensures Tracks(p, canonical, start, bow, ks, Claimed(p.ntopics, m, w, idx, b, next))
  {
    var n := p.ntopics;
    var r := Claimed(n, m, w, idx, b, next);
    FitsOnToken(p, bow, m, w);
    assert Shape(p, canonical, start, bow, ks, r);
    ClaimCounts(p, canonical, start, bow, ks, m, w, idx, b, next);
    ClaimTable(p, canonical, start, bow, ks, m, w, idx, b, next);
  }

  lemma ClaimCounts(p: Params, canonical: seq<nat>, start: map<nat, seq<nat>>, bow: map<nat, nat>,
                    ks: seq<nat>, m: DocState, w: nat, idx: nat, b: nat, next: nat)
    requires Tracks(p, canonical, start, bow, ks, m)
    requires w in bow && idx < |m.asg[w]| && m.asg[w][idx] >= p.ntopics && b < p.ntopics
    ensures var r := Claimed(p.ntopics, m, w, idx, b, next);
      CountsAgree(p.ntopics, ks, r.docCount, r.asg) && TotalsAgree(p.ntopics, canonical, r.docCount, r.totals)
  {
    var n := p.ntopics;
    var r := Claimed(n, m, w, idx, b, next);
    Move(n, ks, m.asg, w, idx, b);
    SumUpdate(m.docCount, b, m.docCount[b] + 1);
    assert r.docCount == m.docCount[b := m.docCount[b] + 1];
  }

  lemma ClaimTable(p: Params, canonical: seq<nat>, start: map<nat, seq<nat>>, bow: map<nat, nat>,
                   ks: seq<nat>, m: DocState, w: nat, idx: nat, b: nat, next: nat)
    requires Tracks(p, canonical, start, bow, ks, m)
    requires w in bow && idx < |m.asg[w]| && m.asg[w][idx] >= p.ntopics && b < p.ntopics
    ensures var r := Claimed(p.ntopics, m, w, idx, b, next);
      TableAgrees(p.ntopics, start, r.table, r.asg)
  {
    Move(p.ntopics, ks, m.asg, w, idx, b);
  }

  /** In a state that keeps the bookkeeping with the visited slot unassigned, the weights are the conditional. */
  lemma WeighsConditional(p: Params, canonical: seq<nat>, start: map<nat, seq<nat>>, bow: map<nat, nat>,
                          ks: seq<nat>, r: DocState, w: nat)
    requires Tracks(p, canonical, start, bow, ks, r) && w in bow && bow[w] > 0 && p.ntokens >= 1
    ensures Weights(p, r.docCount, r.table[w], r.totals) == Conditional(p, canonical, start, ks, r.asg, w)
  {
    var n := p.ntopics;
    assert r.docCount == DocCounts(n, ks, r.asg);
    assert r.table[w] == RowCounts(n, start, r.asg, w);
    assert r.totals == TotalCounts(n, canonical, ks, r.asg);
  }

  /** Slots of s with slot idx of token w set to the sentinel: the other slots a visit conditions on. */
  function Excluded(n: nat, asg: map<nat, seq<nat>>, w: nat, idx: nat): map<nat, seq<nat>>
    requires w in asg && idx < |asg[w]|
  {
    asg[w := Put(asg[w], idx, Sentinel(n))]
  }

  /** The topic a visit of slot idx of token w draws: the pick from the conditional given every other slot. */
  ghost function Drawn(p: Params, canonical: seq<nat>, start: map<nat, seq<nat>>, ks: seq<nat>,
                       s: DocState, w: nat, idx: nat, rng: Draws): nat
    requires ValidParams(p) && p.ntokens >= 1 && |canonical| == p.ntopics
    requires w in start && |start[w]| == p.ntopics
    requires w in s.asg && idx < |s.asg[w]| && forall k :: k in ks ==> k in s.asg
  {
    Pick(Conditional(p, canonical, start, ks, Excluded(p.ntopics, s.asg, w, idx), w), rng(s.next))
  }

  /**
   * A visit, in the bookkeeping's terms: the slot is released, the drawn
   * topic is claimed, and the change flag says whether it differs from the
   * topic the slot held.
   */
  lemma VisitSteps(p: Params, canonical: seq<nat>, start: map<nat, seq<nat>>, bow: map<nat, nat>,
                   ks: seq<nat>, s: DocState, w: nat, idx: nat, rng: Draws)
    requires Tracks(p, canonical, start, bow, ks, s) && w in bow && idx < bow[w]
    ensures OnToken(p, s, w) && Ready(p, s, w, idx)
    ensures var n := p.ntopics;
      var d := Drawn(p, canonical, start, ks, s, w, idx, rng);
      var r := Released(n, s, w, idx);
      d < n && Tracks(p, canonical, start, bow, ks, r) && r.asg[w][idx] >= n &&
      Visit(p, s, w, idx, rng) ==
        (Claimed(n, r, w, idx, d, if n == 1 then s.next else s.next + 1), d != s.asg[w][idx])
  {
    var n := p.ntopics;
    FitsOnToken(p, bow, s, w);
    Release(p, canonical, start, bow, ks, s, w, idx);
    var r := Released(n, s, w, idx);
    WeighsConditional(p, canonical, start, bow, ks, r, w);
    var m := Decrement(p, s, w, idx);
    assert m.docCount == r.docCount && m.totals == r.totals && m.table == r.table;
    PutTwice(s.asg, w, idx, Sentinel(n), Drawn(p, canonical, start, ks, s, w, idx, rng));
  }

  /**
   * One visit keeps the bookkeeping. None of its clamped decrements clamps,
   * it draws the new topic of the slot from the conditional given all other
   * slots, it writes that topic into the slot and nowhere else, it reports a
   * change exactly when the topic differs from the one the slot held, and it
   * consumes one draw unless there is a single topic.
   */
  lemma VisitSamples(p: Params, canonical: seq<nat>, start: map<nat, seq<nat>>, bow: map<nat, nat>,
                     ks: seq<nat>, s: DocState, w: nat, idx: nat, rng: Draws)
    requires Tracks(p, canonical, start, bow, ks, s) && w in bow && idx < bow[w]
    ensures OnToken(p, s, w) && Ready(p, s, w, idx)
    ensures var held := s.asg[w][idx];
      held < p.ntopics ==> s.docCount[held] >= 1 && s.totals[held] >= 1 && s.table[w][held] >= 1
    ensures var d := Pick(Conditional(p, canonical, start, ks, Excluded(p.ntopics, s.asg, w, idx), w), rng(s.next));
      var v := Visit(p, s, w, idx, rng);
      d < p.ntopics && v.0.asg == s.asg[w := Put(s.asg[w], idx, d)] &&
      (v.1 <==> d != s.asg[w][idx]) &&
      v.0.next == s.next + (if p.ntopics == 1 then 0 else 1)
    ensures Tracks(p, canonical, start, bow, ks, Visit(p, s, w, idx, rng).0)
  {
    VisitSteps(p, canonical, start, bow, ks, s, w, idx, rng);
    Release(p, canonical, start, bow, ks, s, w, idx);
    VisitTracks(p, canonical, start, bow, ks, s, w, idx, rng);
    PutTwice(s.asg, w, idx, Sentinel(p.ntopics), Drawn(p, canonical, start, ks, s, w, idx, rng));
  }

  /** One visit keeps the bookkeeping. */
  lemma VisitTracks(p: Params, canonical: seq<nat>, start: map<nat, seq<nat>>, bow: map<nat, nat>,
                    ks: seq<nat>, s: DocState, w: nat, idx: nat, rng: Draws)
    requires Tracks(p, canonical, start, bow, ks, s) && w in bow && idx < bow[w]
    ensures Tracks(p, canonical, start, bow, ks, Visit(p, s, w, idx, rng).0)
  {
    var n := p.ntopics;
    VisitSteps(p, canonical, start, bow, ks, s, w, idx, rng);
    var next := if n == 1 then s.next else s.next + 1;
    Claim(p, canonical, start, bow, ks, Released(n, s, w, idx), w, idx,
          Drawn(p, canonical, start, ks, s, w, idx, rng), next);
  }

  /**
   * The slots idx.. of token w, visited in order, keep the bookkeeping.
   */
  lemma {:induction false} SweepSlotsTracks(p: Params, canonical: seq<nat>, start: map<nat, seq<nat>>, bow: map<nat, nat>,
                                            ks: seq<nat>, s: DocState, w: nat, idx: nat, rng: Draws)
    requires Tracks(p, canonical, start, bow, ks, s) && w in bow && idx <= bow[w]
    ensures Tracks(p, canonical, start, bow, ks, SweepSlots(p, bow, s, w, idx, rng).0)
    decreases bow[w] - idx
  {
    if idx < bow[w] {
      VisitTracks(p, canonical, start, bow, ks, s, w, idx, rng);
      SweepSlotsTracks(p, canonical, start, bow, ks, Visit(p, s, w, idx, rng).0, w, idx + 1, rng);
      SweepSlotsStep(p, bow, s, w, idx, rng);
    } else {
      SweepSlotsEnd(p, bow, s, w, idx, rng);
    }
  }

  /**
   * The slots idx.. of token w, visited in order: the earlier slots of w stay
   * as they were, and the change count is the number of slots of w that
   * differ from before.
   */
  lemma {:induction false} SweepSlotsCount(p: Params, bow: map<nat, nat>, s: DocState, w: nat, idx: nat, rng: Draws)
    requires w in bow && w in s.asg && |s.asg[w]| == bow[w] && idx <= bow[w]
    ensures var r := SweepSlots(p, bow, s, w, idx, rng);
      w in r.0.asg && |r.0.asg[w]| == bow[w] && r.0.asg[w][..idx] == s.asg[w][..idx] &&
      r.1 == Differ(s.asg[w], r.0.asg[w])
    decreases bow[w] - idx
  {
    if idx < bow[w] {
      VisitPut(p, s, w, idx, rng);
      var v := Visit(p, s, w, idx, rng);
      SweepSlotsCount(p, bow, v.0, w, idx + 1, rng);
      SweepSlotsStep(p, bow, s, w, idx, rng);
      CountStep(s.asg[w], v.0.asg[w], SweepSlots(p, bow, v.0, w, idx + 1, rng).0.asg[w], idx);
    } else {
      SweepSlotsEnd(p, bow, s, w, idx, rng);
      DifferSelf(s.asg[w]);
    }
  }

  /** Every slot of c from idx on holds a topic below n. */
  ghost predicate HeldFrom(c: seq<nat>, idx: nat, n: nat)
  {
    forall j :: idx <= j < |c| ==> c[j] < n
  }

  /**
   * OnToken(p, s, w), stated with OnToken as its trigger: a proof holding
   * it learns the shapes a visit of w reads only where it names
   * OnToken(p, s, w) itself, so the proofs about whole sweeps of w's slots
   * do not unfold every visit inside them.
   */
  ghost predicate Visitable(p: Params, s: DocState, w: nat)
  {
    forall u {:trigger OnToken(p, s, u)} :: u == w ==> OnToken(p, s, u)
  }

  /** A visit of an existing slot writes a topic into it and consumes one draw unless there is a single topic. */
  lemma VisitDraws(p: Params, s: DocState, w: nat, idx: nat, rng: Draws)
    requires Visitable(p, s, w) && w in s.asg && idx < |s.asg[w]|
    ensures var v := Visit(p, s, w, idx, rng);
      Visitable(p, v.0, w) && w in v.0.asg && |v.0.asg[w]| == |s.asg[w]| && v.0.asg[w][idx] < p.ntopics &&
      v.0.next == s.next + (if p.ntopics == 1 then 0 else 1)
  {
    assert OnToken(p, s, w);
    assert OnToken(p, Visit(p, s, w, idx, rng).0, w);
  }

  /**
   * The slots idx.. of token w, visited in order, all end up holding a
   * topic, and one draw is consumed per slot unless there is a single topic.
   */
  lemma {:induction false} SweepSlotsDraws(p: Params, bow: map<nat, nat>, s: DocState, w: nat, idx: nat, rng: Draws)
    requires w in s.asg && w in bow && |s.asg[w]| == bow[w] && idx <= bow[w] && (idx < bow[w] ==> Visitable(p, s, w))
    ensures var r := SweepSlots(p, bow, s, w, idx, rng);
      w in r.0.asg && |r.0.asg[w]| == bow[w] && r.0.asg[w][..idx] == s.asg[w][..idx] &&
      HeldFrom(r.0.asg[w], idx, p.ntopics) &&
      r.0.next == s.next + if p.ntopics == 1 then 0 else bow[w] - idx
    decreases bow[w] - idx
  {
    if idx < bow[w] {
      VisitDraws(p, s, w, idx, rng);
      VisitPut(p, s, w, idx, rng);
      var v := Visit(p, s, w, idx, rng);
      SweepSlotsDraws(p, bow, v.0, w, idx + 1, rng);
      SweepSlotsStep(p, bow, s, w, idx, rng);
      HeldStep(s.asg[w], v.0.asg[w], SweepSlots(p, bow, v.0, w, idx + 1, rng).0.asg[w], idx, p.ntopics);
    } else {
      SweepSlotsEnd(p, bow, s, w, idx, rng);
    }
  }

  lemma HeldStep(a: seq<nat>, b: seq<nat>, c: seq<nat>, idx: nat, n: nat)
    requires idx < |a| && |b| == |a| && b == Put(a, idx, b[idx]) && b[idx] < n
    requires |c| == |b| && c[..idx + 1] == b[..idx + 1] && HeldFrom(c, idx + 1, n)
    ensures c[..idx] == a[..idx] && HeldFrom(c, idx, n)
  {
    assert c[idx] == c[..idx + 1][idx];
    assert c[..idx] == c[..idx + 1][..idx];
  }

  /**
   * What a visit does to the slots of its token: it writes one value into
   * slot idx, and reports whether that changed the slot.
   */
  lemma VisitPut(p: Params, s: DocState, w: nat, idx: nat, rng: Draws)
    requires w in s.asg && idx < |s.asg[w]|
    ensures var v := Visit(p, s, w, idx, rng);
      w in v.0.asg && |v.0.asg[w]| == |s.asg[w]| &&
      v.0.asg[w] == Put(s.asg[w], idx, v.0.asg[w][idx]) &&
      (v.1 <==> v.0.asg[w][idx] != s.asg[w][idx])
  {
  }

  /** A visit writes the slots of its own token only. */
  lemma VisitFrame(p: Params, s: DocState, w: nat, idx: nat, rng: Draws)
    ensures var v := Visit(p, s, w, idx, rng);
      v.0.asg.Keys == s.asg.Keys && forall u :: u in s.asg && u != w ==> v.0.asg[u] == s.asg[u]
  {
  }

  /** The slots of token w, visited in order, leave the other tokens' slots alone. */
  lemma {:induction false} SweepSlotsFrame(p: Params, bow: map<nat, nat>, s: DocState, w: nat, idx: nat, rng: Draws)
    ensures var r := SweepSlots(p, bow, s, w, idx, rng);
      r.0.asg.Keys == s.asg.Keys && forall u :: u in s.asg && u != w ==> r.0.asg[u] == s.asg[u]
    decreases SlotCount(bow, w) - idx
  {
    if idx < SlotCount(bow, w) {
      VisitFrame(p, s, w, idx, rng);
      SweepSlotsFrame(p, bow, Visit(p, s, w, idx, rng).0, w, idx + 1, rng);
      SweepSlotsStep(p, bow, s, w, idx, rng);
    } else {
      SweepSlotsEnd(p, bow, s, w, idx, rng);
    }
  }

  /**
   * Visiting slot idx of slots a gives b; visiting the rest gives c, which
   * keeps b's slots before idx + 1. Then c keeps a's slots before idx, and
   * the differences of a and c are those of b and c plus one when the visit
   * changed slot idx.
   */
  lemma CountStep(a: seq<nat>, b: seq<nat>, c: seq<nat>, idx: nat)
    requires idx < |a| && |b| == |a| && b == Put(a, idx, b[idx])
    requires |c| == |a| && c[..idx + 1] == b[..idx + 1]
    ensures c[..idx] == a[..idx]
    ensures Differ(a, c) == Differ(b, c) + if b[idx] != a[idx] then 1 else 0
  {
    assert c[..idx] == c[..idx + 1][..idx];
    assert c[idx] == c[..idx + 1][idx];
    DifferUpdate(b, c, idx, a[idx]);
    assert b[idx := a[idx]] == a;
  }

  /** The tokens ks[i..], swept in order, leave the slots of every other token alone. */
  lemma {:induction false} SweepTokensFrame(p: Params, bow: map<nat, nat>, ks: seq<nat>, s: DocState, i: nat, rng: Draws)
    requires i <= |ks|
    ensures var r := SweepTokens(p, bow, ks, s, i, rng);
      r.0.asg.Keys == s.asg.Keys && forall u :: u in s.asg && u !in ks[i..] ==> r.0.asg[u] == s.asg[u]
    decreases |ks| - i
  {
    if i < |ks| {
      SweepSlotsFrame(p, bow, s, ks[i], 0, rng);
      SweepTokensFrame(p, bow, ks, SweepSlots(p, bow, s, ks[i], 0, rng).0, i + 1, rng);
      SweepTokensStep(p, bow, ks, s, i, rng);
      SuffixHead(ks, i);
    } else {
      SweepTokensEnd(p, bow, ks, s, i, rng);
    }
  }

  /** Each token of ks has one slot per occurrence in asg. */
  ghost predicate SlotsOf(ks: seq<nat>, bow: map<nat, nat>, asg: map<nat, seq<nat>>)
  {
    forall k :: k in ks ==> k in bow && k in asg && |asg[k]| == bow[k]
  }

  /**
   * The tokens ks[i..], swept in order, keep the shapes and leave every slot
   * of theirs holding a topic; one draw is consumed per slot unless there is
   * a single topic.
   */
  lemma {:induction false} SweepTokensDraws(p: Params, bow: map<nat, nat>, ks: seq<nat>, s: DocState, i: nat, rng: Draws)
    requires ValidParams(p) && Fits(p, bow, s) && Increasing(ks) && (forall k :: k in ks ==> k in bow) && i <= |ks|
    ensures var r := SweepTokens(p, bow, ks, s, i, rng);
      Fits(p, bow, r.0) &&
      (forall j, x :: i <= j < |ks| && 0 <= x < |r.0.asg[ks[j]]| ==> r.0.asg[ks[j]][x] < p.ntopics) &&
      r.0.next == s.next + if p.ntopics == 1 then 0 else KeySumFrom(ks, i, bow)
    decreases |ks| - i
  {
    if i < |ks| {
      var k := ks[i];
      if bow[k] > 0 {
        FitsOnToken(p, bow, s, k);
      }
      SweepSlotsDraws(p, bow, s, k, 0, rng);
      SweepSlotsFits(p, bow, s, k, 0, rng);
      var v := SweepSlots(p, bow, s, k, 0, rng);
      SweepTokensDraws(p, bow, ks, v.0, i + 1, rng);
      SweepTokensFrame(p, bow, ks, v.0, i + 1, rng);
      SweepTokensStep(p, bow, ks, s, i, rng);
      SuffixCons(ks, i);
    } else {
      SweepTokensEnd(p, bow, ks, s, i, rng);
    }
  }

  /** The change count of a sweep of the tokens ks[i..] is the number of their slots that differ from before. */
  lemma {:induction false} SweepTokensCount(p: Params, bow: map<nat, nat>, ks: seq<nat>, s: DocState, i: nat, rng: Draws)
    requires Increasing(ks) && SlotsOf(ks, bow, s.asg) && i <= |ks|
    ensures var r := SweepTokens(p, bow, ks, s, i, rng);
      SlotsOf(ks, bow, r.0.asg) && r.1 == ChangedFrom(ks, i, s.asg, r.0.asg)
    decreases |ks| - i
  {
    if i < |ks| {
      var k := ks[i];
      SweepSlotsCount(p, bow, s, k, 0, rng);
      SweepSlotsFrame(p, bow, s, k, 0, rng);
      var v := SweepSlots(p, bow, s, k, 0, rng);
      SweepTokensCount(p, bow, ks, v.0, i + 1, rng);
      SweepTokensFrame(p, bow, ks, v.0, i + 1, rng);
      SweepTokensStep(p, bow, ks, s, i, rng);
      SuffixCons(ks, i);
      var r := SweepTokens(p, bow, ks, v.0, i + 1, rng);
      ChangedFromAgree(ks, i + 1, s.asg, v.0.asg, r.0.asg);
    } else {
      SweepTokensEnd(p, bow, ks, s, i, rng);
    }
  }

  /** The tokens ks[i..], swept in order, keep the bookkeeping. */
  lemma {:induction false} SweepTokensTracks(p: Params, canonical: seq<nat>, start: map<nat, seq<nat>>, bow: map<nat, nat>,
                                             ks: seq<nat>, s: DocState, i: nat, rng: Draws, r: (DocState, nat))
    requires Tracks(p, canonical, start, bow, ks, s) && i <= |ks|
    requires r == SweepTokens(p, bow, ks, s, i, rng)
    ensures Tracks(p, canonical, start, bow, ks, r.0)
    decreases |ks| - i
  {
    if i < |ks| {
      var k := ks[i];
      assert k in bow;
      SweepSlotsTracks(p, canonical, start, bow, ks, s, k, 0, rng);
      var v := SweepSlots(p, bow, s, k, 0, rng);
      var rest := SweepTokens(p, bow, ks, v.0, i + 1, rng);
      SweepTokensTracks(p, canonical, start, bow, ks, v.0, i + 1, rng, rest);
      SweepTokensStep(p, bow, ks, s, i, rng);
    } else {
      SweepTokensEnd(p, bow, ks, s, i, rng);
    }
  }

  /**
   * One sweep over every token of the bag: every slot comes out holding a
   * topic; the change count is at most one per occurrence, it is zero exactly
   * when no slot changed, and it is one per occurrence when no slot held a
   * topic before. One draw is consumed per occurrence unless there is a
   * single topic.
   */
  lemma SweepChanges(p: Params, bow: map<nat, nat>, ks: seq<nat>, s: DocState, rng: Draws, r: (DocState, nat))
    requires ValidParams(p) && Fits(p, bow, s) && KeysOf(ks, bow)
    requires r == SweepTokens(p, bow, ks, s, 0, rng)
    ensures Fits(p, bow, r.0) && AllAssigned(p.ntopics, r.0.asg)
    ensures r.1 <= KeySumFrom(ks, 0, bow)
    ensures r.1 == 0 <==> r.0.asg == s.asg
    ensures NoneAssigned(p.ntopics, s.asg) ==> r.1 == KeySumFrom(ks, 0, bow)
    ensures r.0.next == s.next + if p.ntopics == 1 then 0 else KeySumFrom(ks, 0, bow)
  {
    SweepTokensDraws(p, bow, ks, s, 0, rng);
    SweepTokensCount(p, bow, ks, s, 0, rng);
    ChangedFromFacts(ks, 0, s.asg, r.0.asg, bow);
    SweptAll(p.ntopics, ks, bow, s.asg, r.0.asg);
  }

  /**
   * An assignment map c over the tokens ks whose every slot holds a topic:
   * all of it is assigned, it equals a when it agrees with a on every token,
   * and it differs from a in every slot when no slot of a holds a topic.
   */
  lemma SweptAll(n: nat, ks: seq<nat>, bow: map<nat, nat>, a: map<nat, seq<nat>>, c: map<nat, seq<nat>>)
    requires forall k :: k in bow <==> k in ks
    requires a.Keys == bow.Keys && c.Keys == bow.Keys
    requires forall k :: k in a ==> |a[k]| == bow[k] && |c[k]| == bow[k]
    requires forall j, x :: 0 <= j < |ks| && 0 <= x < |c[ks[j]]| ==> c[ks[j]][x] < n
    ensures AllAssigned(n, c)
    ensures (forall j :: 0 <= j < |ks| ==> a[ks[j]] == c[ks[j]]) ==> a == c
    ensures NoneAssigned(n, a) ==> forall j, x :: 0 <= j < |ks| && 0 <= x < |a[ks[j]]| ==> a[ks[j]][x] != c[ks[j]][x]
  {
    forall w, x | w in c && 0 <= x < |c[w]|
      ensures c[w][x] < n
    {
      var j :| 0 <= j < |ks| && ks[j] == w;
    }
    if forall j :: 0 <= j < |ks| ==> a[ks[j]] == c[ks[j]] {
      forall w | w in a
        ensures a[w] == c[w]
      {
        var j :| 0 <= j < |ks| && ks[j] == w;
      }
    }
  }

  /**
   * The change counts of the sweeps from number ite on: at least one sweep
   * and none past number burnin; every sweep but the last changed some slot,
   * and the last changed none or was number burnin.
   */
  lemma {:induction false} IterateTrace(p: Params, bow: map<nat, nat>, ks: seq<nat>, s: DocState, ite: nat, rng: Draws,
                                        r: (DocState, seq<nat>))
    requires r == Iterate(p, bow, ks, s, ite, rng)
    ensures 1 <= |r.1| && (ite <= p.burnin ==> ite + |r.1| <= p.burnin + 1)
    ensures forall j :: 0 <= j < |r.1| - 1 ==> r.1[j] > 0
    ensures r.1[|r.1| - 1] == 0 || ite + |r.1| > p.burnin
    ensures r.1[0] == SweepTokens(p, bow, ks, s, 0, rng).1
    decreases p.burnin - ite
  {
    IterateStep(p, bow, ks, s, ite, rng);
    var v := SweepTokens(p, bow, ks, s, 0, rng);
    if !(ite >= p.burnin || v.1 == 0) {
      var rest := Iterate(p, bow, ks, v.0, ite + 1, rng);
      IterateTrace(p, bow, ks, v.0, ite + 1, rng, rest);
    }
  }

  /** The sweeps from number ite on keep the bookkeeping. */
  lemma {:induction false} IterateTracks(p: Params, canonical: seq<nat>, start: map<nat, seq<nat>>, bow: map<nat, nat>,
                                         ks: seq<nat>, s: DocState, ite: nat, rng: Draws, r: (DocState, seq<nat>))
    requires Tracks(p, canonical, start, bow, ks, s)
    requires r == Iterate(p, bow, ks, s, ite, rng)
    ensures Tracks(p, canonical, start, bow, ks, r.0)
    decreases p.burnin - ite
  {
    IterateStep(p, bow, ks, s, ite, rng);
    var v := SweepTokens(p, bow, ks, s, 0, rng);
    SweepTokensTracks(p, canonical, start, bow, ks, s, 0, rng, v);
    if !(ite >= p.burnin || v.1 == 0) {
      var rest := Iterate(p, bow, ks, v.0, ite + 1, rng);
      IterateTracks(p, canonical, start, bow, ks, v.0, ite + 1, rng, rest);
    }
  }

  /** A sweep of b draws followed by m more of them makes m + 1. */
  lemma AddSweep(x0: nat, x1: nat, x2: nat, m: nat, b: nat)
    requires x1 == x0 + b && x2 == x1 + m * b
    ensures x2 == x0 + (m + 1) * b
  {
  }

  /**
   * The sweeps from number ite on leave every slot holding a topic, count at
   * most one change per occurrence in each sweep, and, when they start with
   * no slot holding a topic, count one change per occurrence in the first.
   * One draw is consumed per occurrence per sweep unless there is a single
   * topic.
   */
  lemma {:induction false} IterateChanges(p: Params, bow: map<nat, nat>, ks: seq<nat>, s: DocState, ite: nat, rng: Draws,
                                          r: (DocState, seq<nat>))
    requires ValidParams(p) && Fits(p, bow, s) && KeysOf(ks, bow)
    requires r == Iterate(p, bow, ks, s, ite, rng)
    ensures Fits(p, bow, r.0) && AllAssigned(p.ntopics, r.0.asg)
    ensures forall j :: 0 <= j < |r.1| ==> r.1[j] <= KeySumFrom(ks, 0, bow)
    ensures NoneAssigned(p.ntopics, s.asg) ==> r.1[0] == KeySumFrom(ks, 0, bow)
    ensures r.0.next == s.next + if p.ntopics == 1 then 0 else |r.1| * KeySumFrom(ks, 0, bow)
    decreases p.burnin - ite
  {
    IterateStep(p, bow, ks, s, ite, rng);
    var v := SweepTokens(p, bow, ks, s, 0, rng);
    SweepChanges(p, bow, ks, s, rng, v);
    var b := KeySumFrom(ks, 0, bow);
    if ite >= p.burnin || v.1 == 0 {
      assert r.1 == [v.1];
    } else {
      var rest := Iterate(p, bow, ks, v.0, ite + 1, rng);
      IterateChanges(p, bow, ks, v.0, ite + 1, rng, rest);
      assert r.1 == [v.1] + rest.1;
      forall j | 0 <= j < |r.1|
        ensures r.1[j] <= b
      {
        if j > 0 {
          assert r.1[j] == rest.1[j - 1];
        }
      }
      if p.ntopics != 1 {
        AddSweep(s.next, v.0.next, r.0.next, |rest.1|, b);
        assert |r.1| == |rest.1| + 1;
      }
    }
  }
}
