/**
 * The two converters of gibbs/convert.py between the flat GraphLab input
 * ("docid token count" per line) and the grouped form ("docid\t" followed by
 * a JSON array of [token, count] pairs). The script runs under Python 2, so a
 * line is a byte string and whitespace is the six ASCII space characters.
 * An exception ends a run: everything printed before it stays printed, which
 * each method reports as its output together with a success flag.
 */
module Convert {

  datatype Option<T> = None | Some(value: T)

  /** One flat input line once parsed: its docid and its two integers. */
  datatype Triple = Triple(docid: string, token: int, count: int)

  /** One grouped line: a docid and its [token, count] pairs, in input order. */
  datatype Record = Record(docid: string, pairs: seq<(int, int)>)

  /**
   * A value as `json.loads` returns it, as far as iterating over it goes:
   * integers, strings, arrays, objects (given by their keys in the order the
   * dictionary yields them), and the values that cannot be iterated over
   * (null, true, false, non-integral numbers).
   */
  datatype Json = JNum(n: int) | JStr(s: string) | JArr(elems: seq<Json>) | JObj(keys: seq<string>) | JOther

  /** One line written by json2graphlab_input: the docid and the two unpacked values. */
  datatype Flat = Flat(docid: string, token: Json, count: Json)

  // ---------------------------------------------------------------- fields

  /** The whitespace of Python 2's `str.split()`: space, tab, newline, vertical tab, form feed, carriage return. */
  predicate IsSpace(c: char)
  {
    c == ' ' || '\t' <= c <= '\r'
  }

  /** The longest prefix of s without whitespace. */
  function Word(s: string): (w: string)
    ensures |w| <= |s| && w == s[..|w|]
    ensures forall i :: 0 <= i < |w| ==> !IsSpace(w[i])
    ensures |w| < |s| ==> IsSpace(s[|w|])
  {
    if s == [] || IsSpace(s[0]) then [] else [s[0]] + Word(s[1..])
  }

  /** `s.split()`: the maximal runs of non-whitespace characters, in order. */
  function Fields(s: string): (fs: seq<string>)
    ensures forall i :: 0 <= i < |fs| ==> fs[i] != [] && forall k :: 0 <= k < |fs[i]| ==> !IsSpace(fs[i][k])
    decreases |s|
  {
    if s == [] then []
    else if IsSpace(s[0]) then Fields(s[1..])
    else
      var w := Word(s);
      [w] + Fields(s[|w|..])
  }

  // -------------------------------------------------------------- integers

  predicate AllDigits(s: string)
  {
    forall k :: 0 <= k < |s| ==> '0' <= s[k] <= '9'
  }

  /** The value of a string of decimal digits. */
  function DigitsValue(s: string): nat
    requires AllDigits(s)
    decreases |s|
  {
    if s == [] then 0 else DigitsValue(s[..|s| - 1]) * 10 + (s[|s| - 1] as int - '0' as int)
  }

  /**
   * `int(s)` on a field without whitespace: an optional sign and at least
   * one decimal digit; anything else raises ValueError (None here).
   */
  function ParseInt(s: string): Option<int>
  {
    if |s| >= 2 && (s[0] == '-' || s[0] == '+') && AllDigits(s[1..]) then
      var v: int := DigitsValue(s[1..]);
      Some(if s[0] == '-' then -v else v)
    else if s != [] && AllDigits(s) then Some(DigitsValue(s))
    else None
  }

  /** The decimal digits of n, no leading zero. */
  function NatDigits(n: nat): (s: string)
    ensures s != [] && AllDigits(s)
    decreases n
  {
    var d := ('0' as int + n % 10) as char;
    if n < 10 then [d] else NatDigits(n / 10) + [d]
  }

  /** How Python prints an integer, and how `json.dumps` writes one. */
  function Decimal(i: int): string
  {
    if i < 0 then "-" + NatDigits(-i) else NatDigits(i)
  }

  lemma {:induction false} NatDigitsValue(n: nat)
    ensures DigitsValue(NatDigits(n)) == n
    decreases n
  {
    var s := NatDigits(n);
    if n >= 10 {
      NatDigitsValue(n / 10);
      assert s[..|s| - 1] == NatDigits(n / 10);
    }
  }

  /** Digits alone read as their value. */
  lemma ParseDigits(d: string)
    requires d != [] && AllDigits(d)
    ensures ParseInt(d) == Some(DigitsValue(d))
  {
    assert '0' <= d[0] <= '9';
  }

  /** A minus sign before digits reads as the negated value. */
  lemma ParseNegative(d: string)
    requires d != [] && AllDigits(d)
    ensures ParseInt("-" + d) == Some(-(DigitsValue(d) as int))
  {
    assert ("-" + d)[1..] == d && ("-" + d)[0] == '-';
  }

  /** Reading back a printed integer gives the integer. */
  lemma ParseDecimal(i: int)
    ensures ParseInt(Decimal(i)) == Some(i)
  {
    if i < 0 {
      var d := NatDigits(-i);
      NatDigitsValue(-i);
      ParseNegative(d);
    } else {
      var d := NatDigits(i);
      NatDigitsValue(i);
      ParseDigits(d);
    }
  }

  // ------------------------------------------------------------------ JSON

  /** `json.dumps` of one [token, count] pair, with the default separators. */
  function PairJson(p: (int, int)): string
  {
    "[" + Decimal(p.0) + ", " + Decimal(p.1) + "]"
  }

  /** The pairs written one after the other, separated by ", ". */
  function JoinPairs(ps: seq<(int, int)>): string
    decreases |ps|
  {
    if ps == [] then ""
    else if |ps| == 1 then PairJson(ps[0])
    else JoinPairs(ps[..|ps| - 1]) + ", " + PairJson(ps[|ps| - 1])
  }

  /** `json.dumps(token_counts)` for a list of [token, count] pairs. */
  function Dumps(ps: seq<(int, int)>): string
  {
    "[" + JoinPairs(ps) + "]"
  }

  /** The value `json.loads` reads back from Dumps(ps). */
  function PairsValue(ps: seq<(int, int)>): Json
  {
    JArr(seq(|ps|, i requires 0 <= i < |ps| => JArr([JNum(ps[i].0), JNum(ps[i].1)])))
  }

  lemma DecimalNoTab(i: int)
    ensures '\t' !in Decimal(i)
  {
    var d := NatDigits(if i < 0 then -i else i);
    assert forall k :: 0 <= k < |d| ==> d[k] != '\t';
  }

  /** The JSON text of the pairs holds no tab. */
  lemma {:induction false} DumpsNoTab(ps: seq<(int, int)>)
    ensures '\t' !in Dumps(ps)
  {
    JoinNoTab(ps);
  }

  lemma {:induction false} JoinNoTab(ps: seq<(int, int)>)
    ensures '\t' !in JoinPairs(ps)
    decreases |ps|
  {
    if ps != [] {
      var p := ps[|ps| - 1];
      DecimalNoTab(p.0);
      DecimalNoTab(p.1);
      if |ps| > 1 {
        JoinNoTab(ps[..|ps| - 1]);
      }
    }
  }

  /** What `for x in v` walks over; None where Python raises TypeError. */
  function Iterate(v: Json): Option<seq<Json>>
  {
    match v
    case JArr(es) => Some(es)
    case JStr(s) => Some(seq(|s|, i requires 0 <= i < |s| => JStr([s[i]])))
    case JObj(keys) => Some(seq(|keys|, i requires 0 <= i < |keys| => JStr(keys[i])))
    case _ => None
  }

  /** `token, count = v`: v must iterate over exactly two values; None where Python raises. */
  function Unpack(v: Json): Option<(Json, Json)>
  {
    match Iterate(v)
    case Some(es) => if |es| == 2 then Some((es[0], es[1])) else None
    case None => None
  }

  /**
   * Whether Python 2's byte-string `str.format` can write v: a JSON string is
   * decoded as `unicode`, which format encodes as ASCII, raising on any other
   * character. Numbers, and arrays and objects (written through their
   * ASCII-escaped repr), always can.
   */
  predicate Writable(v: Json)
  {
    !(v.JStr? && exists i :: 0 <= i < |v.s| && v.s[i] > '\U{7f}')
  }

  /** `token, count = v` followed by formatting the two values: None where either raises. */
  function Item(v: Json): (r: Option<(Json, Json)>)
    ensures r.Some? <==> Unpack(v).Some? && Writable(Unpack(v).value.0) && Writable(Unpack(v).value.1)
    ensures r.Some? ==> r == Unpack(v)
  {
    match Unpack(v)
    case Some(p) => if Writable(p.0) && Writable(p.1) then Some(p) else None
    case None => None
  }

  // ------------------------------------------------------------- splitting

  /** `s.split(c)`: the pieces between the occurrences of c, at least one. */
  function Split(s: string, c: char): (parts: seq<string>)
    ensures |parts| >= 1
    decreases |s|
  {
    if s == [] then [""]
    else if s[0] == c then [""] + Split(s[1..], c)
    else
      var rest := Split(s[1..], c);
      [[s[0]] + rest[0]] + rest[1..]
  }

  /** No character of s is c. */
  predicate Lacks(s: string, c: char)
  {
    forall k :: 0 <= k < |s| ==> s[k] != c
  }

  /** A string without c is one piece. */
  lemma {:induction false} SplitNone(s: string, c: char)
    requires Lacks(s, c)
    ensures Split(s, c) == [s]
    decreases |s|
  {
    if s != [] {
      assert Lacks(s[1..], c);
      SplitNone(s[1..], c);
      assert [s[0]] + s[1..] == s;
    }
  }

  /** Splitting a + c + b where a has no c: a, then the pieces of b. */
  lemma {:induction false} SplitAt(a: string, b: string, c: char)
    requires Lacks(a, c)
    ensures Split(a + [c] + b, c) == [a] + Split(b, c)
    decreases |a|
  {
    if a == [] {
      assert a + [c] + b == [c] + b;
      assert ([c] + b)[1..] == b;
    } else {
      assert (a + [c] + b)[1..] == a[1..] + [c] + b;
      assert Lacks(a[1..], c);
      SplitAt(a[1..], b, c);
      assert [a[0]] + a[1..] == a;
    }
  }

  // -------------------------------------------------------------- grouping

  /** The triples of the record, one per pair, in order. */
  function Expand(r: Record): seq<Triple>
  {
    seq(|r.pairs|, i requires 0 <= i < |r.pairs| => Triple(r.docid, r.pairs[i].0, r.pairs[i].1))
  }

  /** The triples of the records, one after the other. */
  function Flatten(rs: seq<Record>): seq<Triple>
    decreases |rs|
  {
    if rs == [] then [] else Flatten(rs[..|rs| - 1]) + Expand(rs[|rs| - 1])
  }

  /**
   * `itertools.groupby` on the docid: a triple whose docid is that of the
   * last group joins it, any other starts a new group.
   */
  function Group(ts: seq<Triple>): (rs: seq<Record>)
    ensures ts == [] <==> rs == []
    decreases |ts|
  {
    if ts == [] then [] else Join(Group(ts[..|ts| - 1]), ts[|ts| - 1])
  }

  /** The groups rs after one more triple: it joins the last group when it has the same docid, and starts a new one otherwise. */
  function Join(rs: seq<Record>, t: Triple): (rs': seq<Record>)
    ensures rs' != []
  {
    if rs != [] && rs[|rs| - 1].docid == t.docid then
      rs[..|rs| - 1] + [Record(t.docid, rs[|rs| - 1].pairs + [(t.token, t.count)])]
    else rs + [Record(t.docid, [(t.token, t.count)])]
  }

  /** Every group has a pair, and neighbouring groups have different docids: the groups are maximal runs. */
  predicate Maximal(rs: seq<Record>)
  {
    (forall i :: 0 <= i < |rs| ==> rs[i].pairs != []) &&
    forall i :: 0 < i < |rs| ==> rs[i - 1].docid != rs[i].docid
  }

  lemma FlattenSnoc(rs: seq<Record>, r: Record)
    ensures Flatten(rs + [r]) == Flatten(rs) + Expand(r)
  {
    assert (rs + [r])[..|rs|] == rs;
  }

  lemma ExpandSnoc(d: string, ps: seq<(int, int)>, p: (int, int))
    ensures Expand(Record(d, ps + [p])) == Expand(Record(d, ps)) + [Triple(d, p.0, p.1)]
  {
  }

  /** Flattening the groups gives back the triples, in order. */
  lemma {:induction false} FlattenGroup(ts: seq<Triple>)
    ensures Flatten(Group(ts)) == ts
    decreases |ts|
  {
    if ts != [] {
      var init := ts[..|ts| - 1];
      var t := ts[|ts| - 1];
      assert ts == init + [t];
      FlattenGroup(init);
      GroupSnoc(init, t);
      FlattenJoin(Group(init), t);
    }
  }

  /** Adding a triple to the groups adds it at the end of their triples. */
  lemma FlattenJoin(rs: seq<Record>, t: Triple)
    ensures Flatten(Join(rs, t)) == Flatten(rs) + [t]
  {
    var p := (t.token, t.count);
    assert t == Triple(t.docid, p.0, p.1);
    if rs != [] && rs[|rs| - 1].docid == t.docid {
      var last := rs[|rs| - 1];
      var front := rs[..|rs| - 1];
      assert rs == front + [last];
      assert last == Record(t.docid, last.pairs);
      calc {
        Flatten(Join(rs, t));
        Flatten(front + [Record(t.docid, last.pairs + [p])]);
        { FlattenSnoc(front, Record(t.docid, last.pairs + [p])); }
        Flatten(front) + Expand(Record(t.docid, last.pairs + [p]));
        { ExpandSnoc(t.docid, last.pairs, p); }
        Flatten(front) + Expand(last) + [t];
        { FlattenSnoc(front, last); }
        Flatten(rs) + [t];
      }
    } else {
      calc {
        Flatten(Join(rs, t));
        Flatten(rs + [Record(t.docid, [p])]);
        { FlattenSnoc(rs, Record(t.docid, [p])); }
        Flatten(rs) + Expand(Record(t.docid, [p]));
        { assert Expand(Record(t.docid, [p])) == [t]; }
        Flatten(rs) + [t];
      }
    }
  }

  /** The groups are maximal runs. */
  lemma {:induction false} GroupMaximal(ts: seq<Triple>)
    ensures Maximal(Group(ts))
    decreases |ts|
  {
    if ts != [] {
      GroupMaximal(ts[..|ts| - 1]);
      JoinMaximal(Group(ts[..|ts| - 1]), ts[|ts| - 1]);
    }
  }

  /** Adding a triple keeps the groups maximal runs. */
  lemma JoinMaximal(rs: seq<Record>, t: Triple)
    requires Maximal(rs)
    ensures Maximal(Join(rs, t))
  {
    var rs' := Join(rs, t);
    if rs != [] && rs[|rs| - 1].docid == t.docid {
      assert forall i :: 0 <= i < |rs| - 1 ==> rs'[i] == rs[i];
      assert rs'[|rs| - 1].docid == rs[|rs| - 1].docid;
    } else {
      assert forall i :: 0 <= i < |rs| ==> rs'[i] == rs[i];
    }
  }

  lemma GroupSnoc(ts: seq<Triple>, t: Triple)
    ensures Group(ts + [t]) == Join(Group(ts), t)
  {
    assert (ts + [t])[..|ts|] == ts;
  }

  /** One more triple either continues the group in progress or opens a new one. */
  lemma GroupStep(ts: seq<Triple>, done: seq<Record>, open: Record, t: Triple)
    requires Group(ts) == done + [open]
    ensures open.docid == t.docid ==>
      Group(ts + [t]) == done + [Record(open.docid, open.pairs + [(t.token, t.count)])]
    ensures open.docid != t.docid ==>
      Group(ts + [t]) == (done + [open]) + [Record(t.docid, [(t.token, t.count)])]
  {
    GroupSnoc(ts, t);
    assert (done + [open])[..|done|] == done;
  }

  /** Appending the triples of a record that does not continue the last group adds that record as a group. */
  lemma {:induction false} GroupExpand(ts: seq<Triple>, d: string, ps: seq<(int, int)>)
    requires Group(ts) == [] || Group(ts)[|Group(ts)| - 1].docid != d
    requires ps != []
    ensures Group(ts + Expand(Record(d, ps))) == Group(ts) + [Record(d, ps)]
    decreases |ps|
  {
    var init := ps[..|ps| - 1];
    var p := ps[|ps| - 1];
    var t := Triple(d, p.0, p.1);
    assert init + [p] == ps;
    ExpandSnoc(d, init, p);
    var x := ts + Expand(Record(d, init));
    assert ts + Expand(Record(d, ps)) == x + [t];
    GroupSnoc(x, t);
    if init != [] {
      GroupExpand(ts, d, init);
      var rs := Group(ts) + [Record(d, init)];
      assert rs[..|rs| - 1] == Group(ts);
    } else {
      assert x == ts;
    }
  }

  /** Maximal runs are what grouping their triples gives back. */
  lemma {:induction false} GroupFlatten(rs: seq<Record>)
    requires Maximal(rs)
    ensures Group(Flatten(rs)) == rs
    decreases |rs|
  {
    if rs != [] {
      var init := rs[..|rs| - 1];
      var r := rs[|rs| - 1];
      assert init + [r] == rs;
      assert Maximal(init);
      GroupFlatten(init);
      assert r.pairs != [];
      assert init == [] || init[|init| - 1].docid != r.docid by {
        if init != [] {
          assert rs[|rs| - 2] == init[|init| - 1];
        }
      }
      calc {
        Group(Flatten(rs));
        { FlattenSnoc(init, r); }
        Group(Flatten(init) + Expand(Record(r.docid, r.pairs)));
        { GroupExpand(Flatten(init), r.docid, r.pairs); }
        Group(Flatten(init)) + [Record(r.docid, r.pairs)];
        init + [r];
      }
    }
  }

  /** The same docid in two separate runs gives two output lines. */
  lemma SplitRuns()
    ensures |Group([Triple("a", 1, 1), Triple("b", 2, 2), Triple("a", 3, 3)])| == 3
  {
    var ts := [Triple("a", 1, 1), Triple("b", 2, 2), Triple("a", 3, 3)];
    assert ts[..2] == [Triple("a", 1, 1), Triple("b", 2, 2)];
    assert ts[..2][..1] == [Triple("a", 1, 1)];
    assert ts[..2][..1][..0] == [];
  }

  // --------------------------------------------------- graphlab_input2json

  /** The grouping key `x.strip().split()[0]`; None where that raises IndexError (a blank line). */
  function KeyOf(line: string): Option<string>
  {
    var fs := Fields(line);
    if fs == [] then None else Some(fs[0])
  }

  /** `token, count = map(int, line.strip().split()[1:])`; None where that raises ValueError. */
  function PairOf(line: string): Option<(int, int)>
  {
    var fs := Fields(line);
    if |fs| != 3 then None
    else
      match (ParseInt(fs[1]), ParseInt(fs[2]))
      case (Some(token), Some(count)) => Some((token, count))
      case _ => None
  }

  /** The line as a triple, when both its key and its pair can be read. */
  function TripleOf(line: string): Option<Triple>
  {
    match (KeyOf(line), PairOf(line))
    case (Some(docid), Some(p)) => Some(Triple(docid, p.0, p.1))
    case _ => None
  }

  predicate AllParse(lines: seq<string>)
  {
    forall i :: 0 <= i < |lines| ==> TripleOf(lines[i]).Some?
  }

  function Triples(lines: seq<string>): seq<Triple>
    requires AllParse(lines)
  {
    seq(|lines|, i requires 0 <= i < |lines| => TripleOf(lines[i]).value)
  }

  /** The text line printed for a group. */
  function Line(r: Record): string
  {
    r.docid + "\t" + Dumps(r.pairs)
  }

  function Render(rs: seq<Record>): seq<string>
  {
    seq(|rs|, i requires 0 <= i < |rs| => Line(rs[i]))
  }

  /**
   * Where line j is the first that cannot be read, whether the group in
   * progress dies with it unprinted: groupby computes line j's key while
   * still inside the previous line's group, so a blank line, or a bad pair
   * on a line that continues the group, loses that group.
   */
  predicate LosesGroup(lines: seq<string>, j: nat)
    requires j < |lines|
  {
    j > 0 && (KeyOf(lines[j]).None? || KeyOf(lines[j]) == KeyOf(lines[j - 1]))
  }

  /** The groups printed before the run ends. */
  function Printed(rs: seq<Record>, loses: bool): seq<Record>
  {
    if loses && rs != [] then rs[..|rs| - 1] else rs
  }

  /**
   * `graphlab_input2json` over the input lines: when every line can be read,
   * one line per maximal run of a docid, its pairs in input order. Where
   * line j is the first that cannot, the run stops with the groups of the
   * lines before it, less the group in progress when j's key is missing or
   * continues it.
   */
  method GraphlabInputToJson(lines: seq<string>) returns (out: seq<string>, ok: bool)
    ensures ok <==> AllParse(lines)
    ensures ok ==> out == Render(Group(Triples(lines)))
    ensures forall j :: 0 <= j < |lines| && AllParse(lines[..j]) && TripleOf(lines[j]).None? ==>
      out == Render(Printed(Group(Triples(lines[..j])), LosesGroup(lines, j)))
  {
    out := [];
    var docid: string := "";
    var pairs: seq<(int, int)> := [];
    ghost var done: seq<Record> := [];
    var i := 0;
    while i < |lines|
      invariant i <= |lines| && Reading(lines, i, done, docid, pairs)
      invariant out == Render(done)
    {
      ghost var done0, docid0, pairs0 := done, docid, pairs;
      var key := KeyOf(lines[i]);
      if key.None? {
        ok := false;
        KeyMissing(lines, i, done, docid, pairs);
        return;
      }
      if i > 0 && key.value != docid {
        // the group in progress ends: it is printed
        RenderSnoc(done, Record(docid, pairs));
        out := out + [Line(Record(docid, pairs))];
        done := done + [Record(docid, pairs)];
        pairs := [];
      }
      docid := key.value;
      var p := PairOf(lines[i]);
      if p.None? {
        ok := false;
        PairMissing(lines, i, done0, docid0, pairs0, done);
        return;
      }
      Advance(lines, i, done0, docid0, pairs0, done, pairs);
      pairs := pairs + [p.value];
      i := i + 1;
    }
    ReadAll(lines, done, docid, pairs);
    if i > 0 {
      RenderSnoc(done, Record(docid, pairs));
      out := out + [Line(Record(docid, pairs))];
      done := done + [Record(docid, pairs)];
    }
    ok := true;
  }

  /**
   * The state of GraphlabInputToJson after lines[..i]: they all parse, and
   * their groups are the printed ones followed by the one in progress.
   */
  ghost predicate Reading(lines: seq<string>, i: nat, done: seq<Record>, docid: string, pairs: seq<(int, int)>)
  {
    i <= |lines| && AllParse(lines[..i]) &&
    (i == 0 ==> done == [] && pairs == []) &&
    (i > 0 ==> Group(Triples(lines[..i])) == done + [Record(docid, pairs)] && KeyOf(lines[i - 1]) == Some(docid))
  }

  /** A line without a key stops the run with the group in progress unprinted. */
  lemma KeyMissing(lines: seq<string>, i: nat, done: seq<Record>, docid: string, pairs: seq<(int, int)>)
    requires i < |lines| && Reading(lines, i, done, docid, pairs) && KeyOf(lines[i]).None?
    ensures !AllParse(lines)
    ensures forall j :: 0 <= j < |lines| && AllParse(lines[..j]) && TripleOf(lines[j]).None? ==>
      Render(done) == Render(Printed(Group(Triples(lines[..j])), LosesGroup(lines, j)))
  {
    if i > 0 {
      PrintedOpen(done, Record(docid, pairs), true);
    }
    Stops(lines, i, Render(done));
  }

  /** A line with a key but no pair stops the run after the group change, if any, was printed. */
  lemma PairMissing(lines: seq<string>, i: nat, done0: seq<Record>, docid0: string, pairs0: seq<(int, int)>,
                    done: seq<Record>)
    requires i < |lines| && Reading(lines, i, done0, docid0, pairs0)
    requires KeyOf(lines[i]).Some? && PairOf(lines[i]).None?
    requires done == if i > 0 && KeyOf(lines[i]).value != docid0 then done0 + [Record(docid0, pairs0)] else done0
    ensures !AllParse(lines)
    ensures forall j :: 0 <= j < |lines| && AllParse(lines[..j]) && TripleOf(lines[j]).None? ==>
      Render(done) == Render(Printed(Group(Triples(lines[..j])), LosesGroup(lines, j)))
  {
    if i > 0 {
      PrintedOpen(done0, Record(docid0, pairs0), LosesGroup(lines, i));
    }
    Stops(lines, i, Render(done));
  }

  /** A line that can be read either continues the group in progress or starts a new one. */
  lemma Advance(lines: seq<string>, i: nat, done0: seq<Record>, docid0: string, pairs0: seq<(int, int)>,
                done: seq<Record>, pairs: seq<(int, int)>)
    requires i < |lines| && Reading(lines, i, done0, docid0, pairs0)
    requires KeyOf(lines[i]).Some? && PairOf(lines[i]).Some?
    requires if i > 0 && KeyOf(lines[i]).value != docid0 then done == done0 + [Record(docid0, pairs0)] && pairs == []
             else done == done0 && pairs == pairs0
    ensures Reading(lines, i + 1, done, KeyOf(lines[i]).value, pairs + [PairOf(lines[i]).value])
  {
    var ts := Triples(lines[..i]);
    var p := PairOf(lines[i]).value;
    var t := Triple(KeyOf(lines[i]).value, p.0, p.1);
    assert TripleOf(lines[i]) == Some(t);
    TriplesSnoc(lines, i);
    assert (t.token, t.count) == p;
    if i == 0 {
      assert ts == [] && pairs == [];
      GroupSnoc(ts, t);
      assert Group(ts + [t]) == [Record(t.docid, [p])];
      assert done == [] && pairs + [p] == [p];
      assert Group(Triples(lines[..i + 1])) == done + [Record(t.docid, pairs + [p])];
    } else {
      GroupStep(ts, done0, Record(docid0, pairs0), t);
      if docid0 != t.docid {
        assert pairs + [p] == [p];
      }
    }
  }

  /** Once every line is read, the groups are the printed ones and the last one in progress. */
  lemma ReadAll(lines: seq<string>, done: seq<Record>, docid: string, pairs: seq<(int, int)>)
    requires Reading(lines, |lines|, done, docid, pairs)
    ensures AllParse(lines)
    ensures Group(Triples(lines)) == if lines == [] then [] else done + [Record(docid, pairs)]
  {
    assert lines[..|lines|] == lines;
  }

  lemma PrintedOpen(done: seq<Record>, open: Record, loses: bool)
    ensures Printed(done + [open], loses) == if loses then done else done + [open]
  {
    assert (done + [open])[..|done|] == done;
  }

  lemma RenderSnoc(rs: seq<Record>, r: Record)
    ensures Render(rs + [r]) == Render(rs) + [Line(r)]
  {
  }

  /** A line that can be read extends the triples of the lines before it. */
  lemma TriplesSnoc(lines: seq<string>, i: nat)
    requires i < |lines| && AllParse(lines[..i]) && TripleOf(lines[i]).Some?
    ensures AllParse(lines[..i + 1])
    ensures Triples(lines[..i + 1]) == Triples(lines[..i]) + [TripleOf(lines[i]).value]
  {
    assert lines[..i + 1] == lines[..i] + [lines[i]];
  }

  /** Line i is the only first line that cannot be read. */
  lemma FirstFailure(lines: seq<string>, i: nat)
    requires i < |lines| && AllParse(lines[..i]) && TripleOf(lines[i]).None?
    ensures !AllParse(lines)
    ensures forall j :: 0 <= j < |lines| && AllParse(lines[..j]) && TripleOf(lines[j]).None? ==> j == i
  {
  }

  /** What was printed up to the first line that cannot be read is what the method promises for it. */
  lemma Stops(lines: seq<string>, i: nat, out: seq<string>)
    requires i < |lines| && AllParse(lines[..i]) && TripleOf(lines[i]).None?
    requires out == Render(Printed(Group(Triples(lines[..i])), LosesGroup(lines, i)))
    ensures !AllParse(lines)
    ensures forall j :: 0 <= j < |lines| && AllParse(lines[..j]) && TripleOf(lines[j]).None? ==>
      out == Render(Printed(Group(Triples(lines[..j])), LosesGroup(lines, j)))
  {
    FirstFailure(lines, i);
  }

  // --------------------------------------------------- json2graphlab_input

  /** The flat lines for the values of one array, up to the first that does not unpack into two writable values. */
  function Emit(docid: string, es: seq<Json>): (seq<Flat>, bool)
    decreases |es|
  {
    if es == [] then ([], true)
    else
      var before := Emit(docid, es[..|es| - 1]);
      if !before.1 then before
      else
        match Item(es[|es| - 1])
        case Some(p) => (before.0 + [Flat(docid, p.0, p.1)], true)
        case None => (before.0, false)
  }

  /** What one grouped line yields: nothing unless it is two tab-separated fields whose second decodes to something iterable. */
  function LineFlats(line: string, loads: string -> Option<Json>): (seq<Flat>, bool)
  {
    var parts := Split(line, '\t');
    if |parts| != 2 then ([], false)
    else
      match loads(parts[1])
      case None => ([], false)
      case Some(v) =>
        match Iterate(v)
        case None => ([], false)
        case Some(es) => Emit(parts[0], es)
  }

  /** The flat lines of the grouped lines, up to the first line that raises. */
  function Flats(lines: seq<string>, loads: string -> Option<Json>): (seq<Flat>, bool)
    decreases |lines|
  {
    if lines == [] then ([], true)
    else
      var before := Flats(lines[..|lines| - 1], loads);
      if !before.1 then before
      else
        var last := LineFlats(lines[|lines| - 1], loads);
        (before.0 + last.0, last.1)
  }

  /**
   * `json2graphlab_input` over the grouped lines, `json.loads` given as
   * `loads` (None where it raises): the flat lines of every line in turn, up
   * to the first that raises.
   */
  method JsonToGraphlabInput(lines: seq<string>, loads: string -> Option<Json>) returns (out: seq<Flat>, ok: bool)
    ensures (out, ok) == Flats(lines, loads)
  {
    out := [];
    for i := 0 to |lines|
      invariant Flats(lines[..i], loads) == (out, true)
    {
      assert lines[..i + 1][..i] == lines[..i];
      var parts := Split(lines[i], '\t');
      if |parts| != 2 {
        // docid, json_str = line.split('\t') raises
        ok := false;
        FailedLine(lines, i, loads);
        return;
      }
      var v := loads(parts[1]);
      if v.None? {
        ok := false;
        FailedLine(lines, i, loads);
        return;
      }
      var es := Iterate(v.value);
      if es.None? {
        ok := false;
        FailedLine(lines, i, loads);
        return;
      }
      var emitted: seq<Flat> := [];
      for k := 0 to |es.value|
        invariant Emit(parts[0], es.value[..k]) == (emitted, true)
      {
        assert es.value[..k + 1][..k] == es.value[..k];
        var p := Unpack(es.value[k]);
        if p.None? || !Writable(p.value.0) || !Writable(p.value.1) {
          // token, count = element raises, or format raises on a non-ASCII string
          out := out + emitted;
          ok := false;
          EmitStop(parts[0], es.value, k);
          FlatsStop(lines, i, loads);
          return;
        }
        emitted := emitted + [Flat(parts[0], p.value.0, p.value.1)];
      }
      assert es.value[..|es.value|] == es.value;
      out := out + emitted;
    }
    assert lines[..|lines|] == lines;
    ok := true;
  }

  /** A value that does not unpack into two writable values ends Emit where it stands. */
  lemma {:induction false} EmitStop(docid: string, es: seq<Json>, k: nat)
    requires k < |es| && Emit(docid, es[..k]).1 && Item(es[k]).None?
    ensures Emit(docid, es) == (Emit(docid, es[..k]).0, false)
    decreases |es|
  {
    assert es[..k + 1][..k] == es[..k];
    if k + 1 < |es| {
      assert es[..|es| - 1][..k] == es[..k];
      EmitStop(docid, es[..|es| - 1], k);
    } else {
      assert es[..k + 1] == es;
    }
  }

  /** A pair whose token is a non-ASCII string, such as `["\u00e9", 1]`, is not written and ends the line. */
  lemma NonAsciiToken(docid: string, es: seq<Json>, k: nat, s: string, count: Json)
    requires k < |es| && Emit(docid, es[..k]).1
    requires es[k] == JArr([JStr(s), count]) && exists i :: 0 <= i < |s| && s[i] > '\U{7f}'
    ensures Emit(docid, es) == (Emit(docid, es[..k]).0, false)
  {
    assert !Writable(JStr(s));
    EmitStop(docid, es, k);
  }

  /** Once a line fails, the lines after it add nothing. */
  lemma {:induction false} FlatsStop(lines: seq<string>, i: nat, loads: string -> Option<Json>)
    requires i < |lines| && Flats(lines[..i], loads).1 && !LineFlats(lines[i], loads).1
    ensures Flats(lines, loads) == (Flats(lines[..i], loads).0 + LineFlats(lines[i], loads).0, false)
    decreases |lines|
  {
    assert lines[..i + 1][..i] == lines[..i];
    if i + 1 < |lines| {
      assert lines[..|lines| - 1][..i] == lines[..i];
      FlatsStop(lines[..|lines| - 1], i, loads);
    } else {
      assert lines[..i + 1] == lines;
    }
  }

  /** A line that yields nothing and fails ends the run with the output before it. */
  lemma FailedLine(lines: seq<string>, i: nat, loads: string -> Option<Json>)
    requires i < |lines| && Flats(lines[..i], loads).1 && LineFlats(lines[i], loads) == ([], false)
    ensures Flats(lines, loads) == (Flats(lines[..i], loads).0, false)
  {
    FlatsStop(lines, i, loads);
    assert Flats(lines[..i], loads).0 + [] == Flats(lines[..i], loads).0;
  }

  /** A line that is not two tab-separated fields yields nothing and ends the run. */
  lemma RejectsLine(lines: seq<string>, i: nat, loads: string -> Option<Json>)
    requires i < |lines| && Flats(lines[..i], loads).1 && |Split(lines[i], '\t')| != 2
    ensures Flats(lines, loads) == (Flats(lines[..i], loads).0, false)
  {
    FlatsStop(lines, i, loads);
    assert Flats(lines[..i], loads).0 + [] == Flats(lines[..i], loads).0;
  }

  /** One flat line per pair: the docid and the pair's two integers. */
  function PairFlats(docid: string, ps: seq<(int, int)>): seq<Flat>
  {
    seq(|ps|, i requires 0 <= i < |ps| => Flat(docid, JNum(ps[i].0), JNum(ps[i].1)))
  }

  /** An array of [token, count] arrays yields one flat line per pair, in array order. */
  lemma {:induction false} EmitPairs(docid: string, ps: seq<(int, int)>)
    ensures Emit(docid, PairsValue(ps).elems) == (PairFlats(docid, ps), true)
    decreases |ps|
  {
    if ps == [] {
      assert PairsValue(ps).elems == [];
    } else {
      var init := ps[..|ps| - 1];
      var p := ps[|ps| - 1];
      var es := PairsValue(ps).elems;
      EmitPairs(docid, init);
      assert es[..|ps| - 1] == PairsValue(init).elems;
      assert es[|ps| - 1] == JArr([JNum(p.0), JNum(p.1)]);
      assert Item(JArr([JNum(p.0), JNum(p.1)])) == Some((JNum(p.0), JNum(p.1)));
      assert Emit(docid, es) == (Emit(docid, es[..|ps| - 1]).0 + [Flat(docid, JNum(p.0), JNum(p.1))], true);
      assert PairFlats(docid, ps) == PairFlats(docid, init) + [Flat(docid, JNum(p.0), JNum(p.1))];
    }
  }

  /** The flat lines of a triple sequence: the docid and the two integers. */
  function AsFlats(ts: seq<Triple>): seq<Flat>
  {
    seq(|ts|, i requires 0 <= i < |ts| => Flat(ts[i].docid, JNum(ts[i].token), JNum(ts[i].count)))
  }

  /** Each printed line with the newline `print` adds. */
  function Newlined(out: seq<string>): seq<string>
  {
    seq(|out|, i requires 0 <= i < |out| => out[i] + "\n")
  }

  /** `json.loads` reads back what `json.dumps` wrote for a list of pairs, trailing newline included. */
  ghost predicate LoadsDumps(loads: string -> Option<Json>)
  {
    forall ps :: loads(Dumps(ps) + "\n") == Some(PairsValue(ps))
  }

  /** No docid holds a tab. */
  predicate TabFree(rs: seq<Record>)
  {
    forall i :: 0 <= i < |rs| ==> '\t' !in rs[i].docid
  }

  /** A line of two tab-separated fields whose second decodes to something iterable yields Emit of its values. */
  lemma LineFlatsOf(line: string, loads: string -> Option<Json>, docid: string, rest: string, es: seq<Json>)
    requires Split(line, '\t') == [docid, rest] && loads(rest).Some? && Iterate(loads(rest).value) == Some(es)
    ensures LineFlats(line, loads) == Emit(docid, es)
  {
  }

  /** The printed line of a record splits at its one tab into the docid and the JSON text. */
  lemma LineSplit(r: Record)
    requires '\t' !in r.docid
    ensures Split(Line(r) + "\n", '\t') == [r.docid, Dumps(r.pairs) + "\n"]
  {
    DumpsNoTab(r.pairs);
    var rest := Dumps(r.pairs) + "\n";
    assert Lacks(rest, '\t');
    assert Lacks(r.docid, '\t');
    assert Line(r) + "\n" == r.docid + ['\t'] + rest;
    SplitAt(r.docid, rest, '\t');
    SplitNone(rest, '\t');
  }

  /** The grouped line of a record flattens back to the record's triples. */
  lemma LineRoundTrip(r: Record, loads: string -> Option<Json>)
    requires LoadsDumps(loads) && '\t' !in r.docid
    ensures LineFlats(Line(r) + "\n", loads) == (AsFlats(Expand(r)), true)
  {
    var rest := Dumps(r.pairs) + "\n";
    LineSplit(r);
    assert loads(rest) == Some(PairsValue(r.pairs));
    LineFlatsOf(Line(r) + "\n", loads, r.docid, rest, PairsValue(r.pairs).elems);
    EmitPairs(r.docid, r.pairs);
    assert AsFlats(Expand(r)) == PairFlats(r.docid, r.pairs);
  }

  /** The grouped lines of tab-free records flatten back to their triples. */
  lemma {:induction false} FlatsRender(rs: seq<Record>, loads: string -> Option<Json>)
    requires LoadsDumps(loads) && TabFree(rs)
    ensures Flats(Newlined(Render(rs)), loads) == (AsFlats(Flatten(rs)), true)
    decreases |rs|
  {
    if rs == [] {
      assert Newlined(Render(rs)) == [] && AsFlats(Flatten(rs)) == [];
    } else {
      var init := rs[..|rs| - 1];
      var r := rs[|rs| - 1];
      assert init + [r] == rs;
      assert TabFree(init) && '\t' !in r.docid;
      FlatsRender(init, loads);
      var line := Line(r) + "\n";
      calc {
        Flats(Newlined(Render(rs)), loads);
        { NewlinedSnoc(init, r); }
        Flats(Newlined(Render(init)) + [line], loads);
        { FlatsSnoc(Newlined(Render(init)), line, loads); }
        (Flats(Newlined(Render(init)), loads).0 + LineFlats(line, loads).0, LineFlats(line, loads).1);
        { LineRoundTrip(r, loads); }
        (AsFlats(Flatten(init)) + AsFlats(Expand(r)), true);
        { AsFlatsAppend(Flatten(init), Expand(r)); FlattenSnoc(init, r); }
        (AsFlats(Flatten(rs)), true);
      }
    }
  }

  lemma NewlinedSnoc(rs: seq<Record>, r: Record)
    ensures Newlined(Render(rs + [r])) == Newlined(Render(rs)) + [Line(r) + "\n"]
  {
  }

  lemma FlatsSnoc(lines: seq<string>, line: string, loads: string -> Option<Json>)
    requires Flats(lines, loads).1
    ensures Flats(lines + [line], loads) == (Flats(lines, loads).0 + LineFlats(line, loads).0, LineFlats(line, loads).1)
  {
    assert (lines + [line])[..|lines|] == lines;
  }

  lemma AsFlatsAppend(ts: seq<Triple>, us: seq<Triple>)
    ensures AsFlats(ts + us) == AsFlats(ts) + AsFlats(us)
  {
  }

  /** Grouping keeps the docids of the triples. */
  lemma {:induction false} GroupTabFree(ts: seq<Triple>)
    requires forall i :: 0 <= i < |ts| ==> '\t' !in ts[i].docid
    ensures TabFree(Group(ts))
    decreases |ts|
  {
    if ts != [] {
      GroupTabFree(ts[..|ts| - 1]);
    }
  }

  /**
   * The round trip: the flat lines json2graphlab_input writes from what
   * graphlab_input2json printed are the input lines' triples, in order,
   * whenever every input line can be read.
   */
  lemma RoundTrip(lines: seq<string>, loads: string -> Option<Json>)
    requires AllParse(lines) && LoadsDumps(loads)
    ensures Flats(Newlined(Render(Group(Triples(lines)))), loads) == (AsFlats(Triples(lines)), true)
  {
    var ts := Triples(lines);
    forall i | 0 <= i < |ts|
      ensures '\t' !in ts[i].docid
    {
      var fs := Fields(lines[i]);
      assert ts[i].docid == fs[0];
      assert forall k :: 0 <= k < |fs[0]| ==> fs[0][k] != '\t';
    }
    GroupTabFree(ts);
    FlatsRender(Group(ts), loads);
    FlattenGroup(ts);
  }
}
