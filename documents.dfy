/**
 * What one document's run of the sampler yields (the body of the queue loop
 * of `Gibbs::gibbs_sampler`, gibbs/gibbs.cpp): the sweeps it runs, the
 * draws it consumes, the counts it leaves in the worker's table and the
 * topic vector it writes out.
 */
module Documents {
  import opened Vectors
  import opened Multinomial
  import opened Slots
  import opened Sampler
  import opened Bookkeeping

  /** Every slot of the initial assignment holds the sentinel, which is no topic. */
  lemma InitialNone(n: nat, bow: map<nat, nat>)
    ensures var asg := InitialSlots(n, bow);
      asg.Keys == bow.Keys && (forall w :: w in asg ==> |asg[w]| == bow[w]) && NoneAssigned(n, asg)
  {
  }

  /** With no slot holding a topic, zero document counts agree with the slots. */
  lemma NoneCounted(n: nat, ks: seq<nat>, asg: map<nat, seq<nat>>, bow: map<nat, nat>)
    requires forall j :: j in ks ==> j in asg && j in bow && |asg[j]| == bow[j]
    requires NoneAssigned(n, asg)
    ensures CountsAgree(n, ks, Zeros(n), asg)
  {
    forall t | 0 <= t < n
      ensures OnTopic(ks, asg, t) == 0
    {
      DocCountInAllOrNone(ks, asg, bow, t, t + 1);
    }
    DocCountInAllOrNone(ks, asg, bow, 0, n);
    SumZeros(n);
  }

  /** With no slot holding a topic, the table agrees with itself. */
  lemma NoneHeld(n: nat, table: map<nat, seq<nat>>, asg: map<nat, seq<nat>>)
    requires forall w :: w in table ==> |table[w]| == n
    requires NoneAssigned(n, asg)
    ensures TableAgrees(n, table, table, asg)
  {
    forall w, t | w in table && 0 <= t < n
      ensures Held(asg, w, t) == 0
    {
      if w in asg {
        CountInAllOrNone(asg[w], t, t + 1);
      }
    }
  }

  /**
   * The state a document starts from keeps the bookkeeping against its
   * canonical totals and starting table: zero document counts, no slot
   * holding a topic.
   */
  lemma InitialTracks(p: Params, canonical: seq<nat>, table: map<nat, seq<nat>>, bow: map<nat, nat>, next: nat)
    requires Setup(p, canonical, table, bow) && bow != map[]
    ensures var init := DocState(Zeros(p.ntopics), canonical, table, InitialSlots(p.ntopics, bow), next);
      Tracks(p, canonical, table, bow, SortedKeys(bow.Keys), init) && NoneAssigned(p.ntopics, init.asg)
  {
    var n := p.ntopics;
    var ks := SortedKeys(bow.Keys);
    var asg := InitialSlots(n, bow);
    var init := DocState(Zeros(n), canonical, table, asg, next);
    InitialFits(p, canonical, table, bow, next);
    InitialNone(n, bow);
    NoneCounted(n, ks, asg, bow);
    NoneHeld(n, table, asg);
    assert Shape(p, canonical, table, bow, ks, init);
  }

  /** The state a nonempty document starts its sweeps from. */
  function Start(p: Params, canonical: seq<nat>, table: map<nat, seq<nat>>, bow: map<nat, nat>, next: nat): DocState
  {
    DocState(Zeros(p.ntopics), canonical, table, InitialSlots(p.ntopics, bow), next)
  }

  /** A nonempty document's outcome is that of its sweeps from the start state. */
  lemma DocumentIterates(p: Params, canonical: seq<nat>, table: map<nat, seq<nat>>, bow: map<nat, nat>, rng: Draws, next: nat)
    requires Setup(p, canonical, table, bow) && bow != map[]
    ensures var o := Document(p, canonical, table, bow, rng, next);
      var r := Iterate(p, bow, SortedKeys(bow.Keys), Start(p, canonical, table, bow, next), 0, rng);
      o.changes == r.1 && o.next == r.0.next && o.final == r.0 && o.table == r.0.table &&
      |r.0.docCount| == p.ntopics && o.probs == Normalize(AddCounts(Fill(p.ntopics, p.alpha), r.0.docCount))
  {
    InitialFits(p, canonical, table, bow, next);
    IterateFits(p, bow, SortedKeys(bow.Keys), Start(p, canonical, table, bow, next), 0, rng);
  }

  lemma StartSweeps(p: Params, canonical: seq<nat>, table: map<nat, seq<nat>>, bow: map<nat, nat>, rng: Draws, next: nat,
                    r: (DocState, seq<nat>))
    requires Setup(p, canonical, table, bow) && bow != map[]
    requires r == Iterate(p, bow, SortedKeys(bow.Keys), Start(p, canonical, table, bow, next), 0, rng)
    ensures 1 <= |r.1| <= p.burnin + 1 && r.1[0] == BagSize(bow) &&
      (forall j :: 0 <= j < |r.1| - 1 ==> r.1[j] > 0) &&
      (r.1[|r.1| - 1] == 0 || |r.1| == p.burnin + 1) &&
      r.0.next == next + (if p.ntopics == 1 then 0 else |r.1| * BagSize(bow))
  {
    var n := p.ntopics;
    var ks := SortedKeys(bow.Keys);
    var init := Start(p, canonical, table, bow, next);
    InitialNone(n, bow);
    InitialFits(p, canonical, table, bow, next);
    IterateTrace(p, bow, ks, init, 0, rng, r);
    IterateChanges(p, bow, ks, init, 0, rng, r);
    BagSizeFrom(bow);
  }

  /**
   * The sweeps of a nonempty document: at least one and at most burnin + 1
   * of them; the first changes every slot (all start unassigned); every
   * sweep but the last changes some slot, and the last changes none or is
   * number burnin. One draw is consumed per slot per sweep, unless there is a
   * single topic.
   */
  lemma DocumentSweeps(p: Params, canonical: seq<nat>, table: map<nat, seq<nat>>, bow: map<nat, nat>, rng: Draws, next: nat)
    requires Setup(p, canonical, table, bow) && bow != map[]
    ensures var o := Document(p, canonical, table, bow, rng, next);
      var cs := o.changes;
      1 <= |cs| <= p.burnin + 1 && cs[0] == BagSize(bow) &&
      (forall j :: 0 <= j < |cs| - 1 ==> cs[j] > 0) &&
      (cs[|cs| - 1] == 0 || |cs| == p.burnin + 1) &&
      o.next == next + (if p.ntopics == 1 then 0 else |cs| * BagSize(bow))
  {
    DocumentIterates(p, canonical, table, bow, rng, next);
    StartSweeps(p, canonical, table, bow, rng, next,
                Iterate(p, bow, SortedKeys(bow.Keys), Start(p, canonical, table, bow, next), 0, rng));
  }

  lemma StartTracks(p: Params, canonical: seq<nat>, table: map<nat, seq<nat>>, bow: map<nat, nat>, rng: Draws, next: nat,
                    r: (DocState, seq<nat>))
    requires Setup(p, canonical, table, bow) && bow != map[]
    requires r == Iterate(p, bow, SortedKeys(bow.Keys), Start(p, canonical, table, bow, next), 0, rng)
    ensures AllAssigned(p.ntopics, r.0.asg) && Tracks(p, canonical, table, bow, SortedKeys(bow.Keys), r.0)
  {
    var n := p.ntopics;
    var ks := SortedKeys(bow.Keys);
    var init := Start(p, canonical, table, bow, next);
    InitialTracks(p, canonical, table, bow, next);
    InitialFits(p, canonical, table, bow, next);
    IterateTracks(p, canonical, table, bow, ks, init, 0, rng, r);
    IterateChanges(p, bow, ks, init, 0, rng, r);
  }

  /**
   * After a nonempty document every slot holds a topic and the bookkeeping
   * holds against the canonical totals and the starting table.
   */
  lemma DocumentFinal(p: Params, canonical: seq<nat>, table: map<nat, seq<nat>>, bow: map<nat, nat>, rng: Draws, next: nat)
    requires Setup(p, canonical, table, bow) && bow != map[]
    ensures var o := Document(p, canonical, table, bow, rng, next);
      o.table == o.final.table && AllAssigned(p.ntopics, o.final.asg) &&
      Tracks(p, canonical, table, bow, SortedKeys(bow.Keys), o.final)
  {
    DocumentIterates(p, canonical, table, bow, rng, next);
    StartTracks(p, canonical, table, bow, rng, next,
                Iterate(p, bow, SortedKeys(bow.Keys), Start(p, canonical, table, bow, next), 0, rng));
  }

  /**
   * With the bookkeeping kept and every slot holding a topic, the document
   * counts add up to the number of occurrences, and the table rows of tokens
   * outside the bag are as they started.
   */
  lemma AssignedTotals(p: Params, canonical: seq<nat>, start: map<nat, seq<nat>>, bow: map<nat, nat>,
                       ks: seq<nat>, s: DocState)
    requires Tracks(p, canonical, start, bow, ks, s) && AllAssigned(p.ntopics, s.asg)
    ensures Sum(s.docCount) == KeySum(ks, bow)
    ensures forall w :: w in start && w !in bow ==> s.table[w] == start[w]
  {
    DocCountInAllOrNone(ks, s.asg, bow, 0, p.ntopics);
    forall w | w in start && w !in bow
      ensures s.table[w] == start[w]
    {
      assert forall t :: 0 <= t < p.ntopics ==> s.table[w][t] == start[w][t] + Held(s.asg, w, t);
    }
  }

  /**
   * What a nonempty document leaves: one slot per occurrence, each holding a
   * topic; document counts that are the number of slots on each topic and
   * add up to the bag's size; and a table that is the starting one plus, for
   * each token of the bag and each topic, the token's slots on that topic.
   */
  lemma DocumentCounts(p: Params, canonical: seq<nat>, table: map<nat, seq<nat>>, bow: map<nat, nat>, rng: Draws, next: nat)
    requires Setup(p, canonical, table, bow) && bow != map[]
    ensures var o := Document(p, canonical, table, bow, rng, next);
      var asg := o.final.asg;
      asg.Keys == bow.Keys && (forall w :: w in bow ==> |asg[w]| == bow[w]) && AllAssigned(p.ntopics, asg) &&
      |o.final.docCount| == p.ntopics &&
      (forall t :: 0 <= t < p.ntopics ==> o.final.docCount[t] == OnTopic(SortedKeys(bow.Keys), asg, t)) &&
      Sum(o.final.docCount) == BagSize(bow) &&
      (forall w, t :: w in table && 0 <= t < p.ntopics ==> o.table[w][t] == table[w][t] + Held(asg, w, t)) &&
      (forall w :: w in table && w !in bow ==> o.table[w] == table[w])
  {
    DocumentFinal(p, canonical, table, bow, rng, next);
    var o := Document(p, canonical, table, bow, rng, next);
    AssignedTotals(p, canonical, table, bow, SortedKeys(bow.Keys), o.final);
  }

  /** An empty bag yields the empty topic vector and leaves the table and the draws alone. */
  lemma DocumentEmpty(p: Params, canonical: seq<nat>, table: map<nat, seq<nat>>, bow: map<nat, nat>, rng: Draws, next: nat)
    requires Setup(p, canonical, table, bow) && bow.Keys == {}
    ensures var o := Document(p, canonical, table, bow, rng, next);
      o.probs == [] && o.table == table && o.next == next
  {
    assert bow == map[];
  }

  /**
   * The topic vector written for a nonempty document: ALPHA plus each final
   * document count, over ntopics * ALPHA plus the bag's size, which the
   * document counts add up to; the entries sum to 1.
   */
  lemma DocumentProbs(p: Params, canonical: seq<nat>, table: map<nat, seq<nat>>, bow: map<nat, nat>, rng: Draws, next: nat)
    requires Setup(p, canonical, table, bow) && bow != map[]
    ensures var o := Document(p, canonical, table, bow, rng, next);
      |o.final.docCount| == p.ntopics && Sum(o.final.docCount) == BagSize(bow) &&
      SeededShares(o.probs, p.alpha, o.final.docCount)
  {
    DocumentIterates(p, canonical, table, bow, rng, next);
    var r := Iterate(p, bow, SortedKeys(bow.Keys), Start(p, canonical, table, bow, next), 0, rng);
    StartSum(p, canonical, table, bow, rng, next, r);
    NormalizedCounts(p.alpha, r.0.docCount);
  }

  lemma StartSum(p: Params, canonical: seq<nat>, table: map<nat, seq<nat>>, bow: map<nat, nat>, rng: Draws, next: nat,
                 r: (DocState, seq<nat>))
    requires Setup(p, canonical, table, bow) && bow != map[]
    requires r == Iterate(p, bow, SortedKeys(bow.Keys), Start(p, canonical, table, bow, next), 0, rng)
    ensures |r.0.docCount| == p.ntopics && Sum(r.0.docCount) == BagSize(bow)
  {
    StartTracks(p, canonical, table, bow, rng, next, r);
    AssignedTotals(p, canonical, table, bow, SortedKeys(bow.Keys), r.0);
  }

  /**
   * A bag none of whose tokens occurs (every count 0, a token of the bag
   * need not have a table row): one sweep that changes no slot, no draw
   * consumed, the table left as it was, and the uniform vector 1/ntopics.
   */
  lemma NothingOccurs(p: Params, canonical: seq<nat>, table: map<nat, seq<nat>>, bow: map<nat, nat>, rng: Draws, next: nat)
    requires Setup(p, canonical, table, bow) && bow != map[]
    requires forall w :: w in bow ==> bow[w] == 0
    ensures var o := Document(p, canonical, table, bow, rng, next);
      o.changes == [0] && o.next == next && o.table == table &&
      |o.probs| == p.ntopics && forall t :: 0 <= t < p.ntopics ==> o.probs[t] == 1.0 / p.ntopics as real
  {
    KeySumZero(SortedKeys(bow.Keys), bow);
    NothingOccursSweeps(p, canonical, table, bow, rng, next);
    NothingOccursTable(p, canonical, table, bow, rng, next);
    NothingOccursProbs(p, canonical, table, bow, rng, next);
  }

  /** An empty bag size means a single sweep that changes nothing and draws nothing. */
  lemma NothingOccursSweeps(p: Params, canonical: seq<nat>, table: map<nat, seq<nat>>, bow: map<nat, nat>, rng: Draws, next: nat)
    requires Setup(p, canonical, table, bow) && bow != map[] && BagSize(bow) == 0
    ensures var o := Document(p, canonical, table, bow, rng, next);
      o.changes == [0] && o.next == next
  {
    var o := Document(p, canonical, table, bow, rng, next);
    DocumentSweeps(p, canonical, table, bow, rng, next);
    assert o.changes[0] == 0;
    assert |o.changes| == 1;
    assert o.changes == [o.changes[0]];
  }

  /** Without slots, the table comes back unchanged. */
  lemma NothingOccursTable(p: Params, canonical: seq<nat>, table: map<nat, seq<nat>>, bow: map<nat, nat>, rng: Draws, next: nat)
    requires Setup(p, canonical, table, bow) && bow != map[]
    requires forall w :: w in bow ==> bow[w] == 0
    ensures Document(p, canonical, table, bow, rng, next).table == table
  {
    var o := Document(p, canonical, table, bow, rng, next);
    DocumentCounts(p, canonical, table, bow, rng, next);
    forall w | w in table
      ensures o.table[w] == table[w]
    {
      forall t | 0 <= t < p.ntopics
        ensures o.table[w][t] == table[w][t]
      {
        assert Held(o.final.asg, w, t) == 0 by {
          if w in o.final.asg {
            assert o.final.asg[w] == [];
          }
        }
      }
    }
  }

  /** Zero document counts give every topic the same share. */
  lemma NothingOccursProbs(p: Params, canonical: seq<nat>, table: map<nat, seq<nat>>, bow: map<nat, nat>, rng: Draws, next: nat)
    requires Setup(p, canonical, table, bow) && bow != map[] && BagSize(bow) == 0
    ensures var o := Document(p, canonical, table, bow, rng, next);
      |o.probs| == p.ntopics && forall t :: 0 <= t < p.ntopics ==> o.probs[t] == 1.0 / p.ntopics as real
  {
    var o := Document(p, canonical, table, bow, rng, next);
    DocumentProbs(p, canonical, table, bow, rng, next);
    SeededUniform(o.probs, p.alpha, o.final.docCount);
  }
}
