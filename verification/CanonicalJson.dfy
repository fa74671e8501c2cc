/**
  canonicalJson: the text that is hashed to name a spend plan.

  Values are strings, arrays and objects. A string is its UTF-8 octets; JSON.stringify escapes quotes,
  backslashes and control characters, and copies everything else. Names are put in the order of their
  octets, which for names in ASCII is the order of their code units. No text of a value is a proper
  prefix of another (WriteIsPrefixFree), so a text determines its value up to the order of object
  keys, which does not matter (KeyOrderDoesNotMatter).
 */
module CanonicalJson {
  import opened Cbor

  datatype Json =
    | Text(s: Buffer)
    | List(items: seq<Json>)
    | Record(fields: seq<Member>)

  datatype Member = Member(name: Buffer, value: Json)

  const QUOTE: Octet := 34
  const COMMA: Octet := 44
  const COLON: Octet := 58
  const OPEN_LIST: Octet := 91
  const CLOSE_LIST: Octet := 93
  const OPEN_RECORD: Octet := 123
  const CLOSE_RECORD: Octet := 125

  const BACKSLASH: Octet := 92

  /** No name twice in an object. */
  predicate IsJson(v: Json)
    decreases v
  {
    match v
    case Text(s) => true
    case List(items) => forall i :: 0 <= i < |items| ==> IsJson(items[i])
    case Record(fields) =>
      && (forall i :: 0 <= i < |fields| ==> IsJson(fields[i].value))
      && (forall i, j :: 0 <= i < j < |fields| ==> fields[i].name != fields[j].name)
  }

  /** A lower-case hex digit. */
  function Digit(n: Octet): Octet
    requires n < 16
  {
    if n < 10 then 48 + n else 87 + n
  }

  function Escape(c: Octet): Buffer {
    if c == QUOTE || c == BACKSLASH then [BACKSLASH, c]
    else if c >= 32 then [c]
    else if c == 8 then [BACKSLASH, 98]
    else if c == 9 then [BACKSLASH, 116]
    else if c == 10 then [BACKSLASH, 110]
    else if c == 12 then [BACKSLASH, 102]
    else if c == 13 then [BACKSLASH, 114]
    else [BACKSLASH, 117, 48, 48, Digit(c / 16), Digit(c % 16)]
  }

  function Escaped(s: Buffer): Buffer {
    if s == [] then [] else Escape(s[0]) + Escaped(s[1..])
  }

  /** JSON.stringify of a string */
  function Quoted(s: Buffer): Buffer { [QUOTE] + (Escaped(s) + [QUOTE]) }

  function Followed(texts: seq<Buffer>, close: Octet): Buffer {
    if texts == [] then [close] else [COMMA] + texts[0] + Followed(texts[1..], close)
  }

  /** texts.join(",") and the closing bracket */
  function Joined(texts: seq<Buffer>, close: Octet): Buffer {
    if texts == [] then [close] else texts[0] + Followed(texts[1..], close)
  }

  function MemberText(p: Pair): Buffer { Quoted(p.key) + [COLON] + p.value }

  function MemberTexts(pairs: seq<Pair>): (texts: seq<Buffer>)
    ensures |texts| == |pairs|
  {
    seq(|pairs|, i requires 0 <= i < |pairs| => MemberText(pairs[i]))
  }

  function WriteAll(items: seq<Json>): (texts: seq<Buffer>)
    ensures |texts| == |items|
    ensures forall i :: 0 <= i < |items| ==> texts[i] == Write(items[i])
    decreases items, 1
  {
    if items == [] then [] else [Write(items[0])] + WriteAll(items[1..])
  }

  function WritePairs(fields: seq<Member>): (pairs: seq<Pair>)
    ensures |pairs| == |fields|
    ensures forall i :: 0 <= i < |fields| ==> pairs[i] == Pair(fields[i].name, Write(fields[i].value))
    decreases fields, 1
  {
    if fields == [] then [] else [Pair(fields[0].name, Write(fields[0].value))] + WritePairs(fields[1..])
  }

  function Write(v: Json): Buffer
    decreases v
  {
    match v
    case Text(s) => Quoted(s)
    case List(items) => [OPEN_LIST] + Joined(WriteAll(items), CLOSE_LIST)
    case Record(fields) => [OPEN_RECORD] + Joined(MemberTexts(Sort(WritePairs(fields))), CLOSE_RECORD)
  }

  // ----- No text is a proper prefix of another -----

  predicate Apart(a: Buffer, b: Buffer) { a <= b || b <= a ==> a == b }

  lemma Cut(a: Buffer, b: Buffer, r: Buffer, s: Buffer)
    requires Apart(a, b) && a + r == b + s
    ensures a == b && r == s
  {
    PrefixesCompare(a, b, a + r);
    assert r == (a + r)[|a|..] && s == (b + s)[|b|..];
  }

  lemma PrefixesCompare(a: Buffer, b: Buffer, t: Buffer)
    requires a <= t && b <= t
    ensures a <= b || b <= a
  {
    assert |a| <= |b| ==> a == t[..|a|] == t[..|b|][..|a|];
  }

  /** An escape is read back whatever follows, and never taken for the closing quote. */
  lemma EscapeIsCut(c: Octet, d: Octet, r: Buffer, s: Buffer)
    requires Escape(c) + r == Escape(d) + s
    ensures c == d && r == s
  {
    var (x, y) := (Escape(c) + r, Escape(d) + s);
    assert x[0] == Escape(c)[0] && y[0] == Escape(d)[0];
    if |Escape(c)| > 1 {
      assert x[1] == Escape(c)[1] && y[1] == Escape(d)[1];
      if |Escape(c)| == 6 {
        assert x[4] == Escape(c)[4] && y[4] == Escape(d)[4] && x[5] == Escape(c)[5] && y[5] == Escape(d)[5];
      }
    }
    assert r == x[|Escape(c)|..] && s == y[|Escape(d)|..];
  }

  lemma {:induction false} EscapedIsCut(a: Buffer, b: Buffer, r: Buffer, s: Buffer)
    requires Escaped(a) + ([QUOTE] + r) == Escaped(b) + ([QUOTE] + s)
    ensures a == b && r == s
    decreases |a|
  {
    hide Escape;
    var (x, y) := (Escaped(a) + ([QUOTE] + r), Escaped(b) + ([QUOTE] + s));
    EscapedStarts(a, r);
    EscapedStarts(b, s);
    if a == [] {
      assert r == x[1..] && s == y[1..];
    } else {
      assert x == Escape(a[0]) + (Escaped(a[1..]) + ([QUOTE] + r));
      assert y == Escape(b[0]) + (Escaped(b[1..]) + ([QUOTE] + s));
      EscapeIsCut(a[0], b[0], Escaped(a[1..]) + ([QUOTE] + r), Escaped(b[1..]) + ([QUOTE] + s));
      EscapedIsCut(a[1..], b[1..], r, s);
    }
  }

  lemma EscapedStarts(a: Buffer, r: Buffer)
    ensures (Escaped(a) + ([QUOTE] + r))[0] == QUOTE <==> a == []
  {
    if a != [] {
      assert (Escaped(a) + ([QUOTE] + r))[0] == Escape(a[0])[0];
    }
  }

  lemma QuotedIsCut(a: Buffer, b: Buffer, r: Buffer, s: Buffer)
    requires Quoted(a) + r == Quoted(b) + s
    ensures a == b && r == s
  {
    hide Escaped;
    assert (Quoted(a) + r)[1..] == Escaped(a) + ([QUOTE] + r);
    assert (Quoted(b) + s)[1..] == Escaped(b) + ([QUOTE] + s);
    EscapedIsCut(a, b, r, s);
  }

  /** Texts that can stand in a joined list. */
  predicate AreTexts(texts: seq<Buffer>) {
    forall i :: 0 <= i < |texts| ==> texts[i] != [] && texts[i][0] in {QUOTE, OPEN_LIST, OPEN_RECORD}
  }

  predicate AllApart(xs: seq<Buffer>, ys: seq<Buffer>) {
    forall i, j :: 0 <= i < |xs| && 0 <= j < |ys| ==> Apart(xs[i], ys[j])
  }

  lemma {:induction false} FollowedIsCut(xs: seq<Buffer>, ys: seq<Buffer>, close: Octet, r: Buffer, s: Buffer)
    requires AllApart(xs, ys) && close != COMMA && Followed(xs, close) + r == Followed(ys, close) + s
    ensures xs == ys && r == s
    decreases |xs|
  {
    hide Apart;
    var (x, y) := (Followed(xs, close) + r, Followed(ys, close) + s);
    assert x[0] == if xs == [] then close else COMMA;
    assert y[0] == if ys == [] then close else COMMA;
    if xs == [] {
      assert r == x[1..] && s == y[1..];
    } else {
      assert x[1..] == xs[0] + (Followed(xs[1..], close) + r);
      assert y[1..] == ys[0] + (Followed(ys[1..], close) + s);
      Cut(xs[0], ys[0], Followed(xs[1..], close) + r, Followed(ys[1..], close) + s);
      FollowedIsCut(xs[1..], ys[1..], close, r, s);
      assert xs == [xs[0]] + xs[1..] && ys == [ys[0]] + ys[1..];
    }
  }

  lemma JoinedStarts(xs: seq<Buffer>, close: Octet, r: Buffer)
    requires AreTexts(xs) && close in {CLOSE_LIST, CLOSE_RECORD}
    ensures (Joined(xs, close) + r)[0] == close <==> xs == []
  {
    hide Followed;
    if xs != [] {
      assert (Joined(xs, close) + r)[0] == xs[0][0];
    }
  }

  lemma JoinedIsCut(xs: seq<Buffer>, ys: seq<Buffer>, close: Octet, r: Buffer, s: Buffer)
    requires AllApart(xs, ys) && AreTexts(xs) && AreTexts(ys) && close in {CLOSE_LIST, CLOSE_RECORD}
    requires Joined(xs, close) + r == Joined(ys, close) + s
    ensures xs == ys && r == s
  {
    hide Apart, Followed;
    var (x, y) := (Joined(xs, close) + r, Joined(ys, close) + s);
    JoinedStarts(xs, close, r);
    JoinedStarts(ys, close, s);
    if xs == [] {
      assert r == x[1..] && s == y[1..];
    } else {
      assert x == xs[0] + (Followed(xs[1..], close) + r) && y == ys[0] + (Followed(ys[1..], close) + s);
      Cut(xs[0], ys[0], Followed(xs[1..], close) + r, Followed(ys[1..], close) + s);
      FollowedIsCut(xs[1..], ys[1..], close, r, s);
      assert xs == [xs[0]] + xs[1..] && ys == [ys[0]] + ys[1..];
    }
  }

  lemma ApartFromCut(a: Buffer, b: Buffer)
    ensures a <= b ==> a + b[|a|..] == b + []
    ensures b <= a ==> a + [] == b + a[|b|..]
  {
  }

  lemma FirstOctet(v: Json)
    ensures Write(v) != [] && Write(v)[0] == (if v.Text? then QUOTE else if v.List? then OPEN_LIST else OPEN_RECORD)
  {
    hide Joined;
  }

  /** No text of a value is a proper prefix of the text of a value. */
  lemma {:induction false} WriteIsPrefixFree(v: Json, w: Json)
    requires IsJson(v) && IsJson(w)
    ensures Apart(Write(v), Write(w))
    decreases v
  {
    hide Joined, MemberText, Write;
    var (a, b) := (Write(v), Write(w));
    if a <= b || b <= a {
      var (r, s) := if a <= b then (b[|a|..], []) else ([], a[|b|..]);
      ApartFromCut(a, b);
      assert a + r == b + s;
      FirstOctet(v);
      FirstOctet(w);
      assert (a + r)[0] == a[0] && (b + s)[0] == b[0];
      match v {
        case Text(_) => TextIsCut(v, w, r, s);
        case List(_) => ListIsCut(v, w, r, s);
        case Record(_) => RecordIsCut(v, w, r, s);
      }
    }
  }

  lemma TextIsCut(v: Json, w: Json, r: Buffer, s: Buffer)
    requires IsJson(v) && IsJson(w) && v.Text? && w.Text? && Write(v) + r == Write(w) + s
    ensures v == w && r == s
  {
    hide Quoted;
    QuotedIsCut(v.s, w.s, r, s);
  }

  lemma ListIsCut(v: Json, w: Json, r: Buffer, s: Buffer)
    requires IsJson(v) && IsJson(w) && v.List? && w.List? && Write(v) + r == Write(w) + s
    ensures Write(v) == Write(w) && r == s && WriteAll(v.items) == WriteAll(w.items)
    decreases v, 0
  {
    hide Joined, Apart;
    var (xs, ys) := (WriteAll(v.items), WriteAll(w.items));
    forall i, j | 0 <= i < |xs| && 0 <= j < |ys| ensures Apart(xs[i], ys[j]) {
      WriteIsPrefixFree(v.items[i], w.items[j]);
    }
    forall i | 0 <= i < |xs| ensures xs[i] != [] && xs[i][0] in {QUOTE, OPEN_LIST, OPEN_RECORD} {
      FirstOctet(v.items[i]);
    }
    forall i | 0 <= i < |ys| ensures ys[i] != [] && ys[i][0] in {QUOTE, OPEN_LIST, OPEN_RECORD} {
      FirstOctet(w.items[i]);
    }
    assert (Write(v) + r)[1..] == Joined(xs, CLOSE_LIST) + r;
    assert (Write(w) + s)[1..] == Joined(ys, CLOSE_LIST) + s;
    JoinedIsCut(xs, ys, CLOSE_LIST, r, s);
  }

  lemma SortedMember(fields: seq<Member>, i: int) returns (k: int)
    requires IsJson(Record(fields)) && 0 <= i < |Sort(WritePairs(fields))|
    ensures 0 <= k < |fields| && Sort(WritePairs(fields))[i] == Pair(fields[k].name, Write(fields[k].value))
  {
    hide Sort, Write;
    SortSorts(WritePairs(fields));
    assert Sort(WritePairs(fields))[i] in multiset(Sort(WritePairs(fields)));
    var p := Sort(WritePairs(fields))[i];
    assert p in WritePairs(fields);
    k :| 0 <= k < |fields| && WritePairs(fields)[k] == p;
  }

  lemma MembersAreApart(p: Pair, q: Pair)
    requires Apart(p.value, q.value)
    ensures Apart(MemberText(p), MemberText(q))
    ensures MemberText(p) == MemberText(q) ==> p == q
  {
    hide Quoted, Apart;
    var (a, b) := (MemberText(p), MemberText(q));
    if a <= b || b <= a {
      var (r, s) := if a <= b then (b[|a|..], []) else ([], a[|b|..]);
      ApartFromCut(a, b);
      assert a + r == Quoted(p.key) + ([COLON] + p.value + r);
      assert b + s == Quoted(q.key) + ([COLON] + q.value + s);
      QuotedIsCut(p.key, q.key, [COLON] + p.value + r, [COLON] + q.value + s);
      assert ([COLON] + p.value + r)[1..] == p.value + r && ([COLON] + q.value + s)[1..] == q.value + s;
      Cut(p.value, q.value, r, s);
    }
    assert Apart(a, b) by { IsApart(a, b); }
  }

  lemma IsApart(a: Buffer, b: Buffer)
    ensures Apart(a, b) <==> (a <= b || b <= a ==> a == b)
  {
  }

  lemma RecordIsCut(v: Json, w: Json, r: Buffer, s: Buffer)
    requires IsJson(v) && IsJson(w) && v.Record? && w.Record? && Write(v) + r == Write(w) + s
    ensures Write(v) == Write(w) && r == s && Sort(WritePairs(v.fields)) == Sort(WritePairs(w.fields))
    decreases v, 0
  {
    hide Joined, Apart, Sort, MemberText;
    var (ps, qs) := (Sort(WritePairs(v.fields)), Sort(WritePairs(w.fields)));
    var (xs, ys) := (MemberTexts(ps), MemberTexts(qs));
    forall i, j | 0 <= i < |ps| && 0 <= j < |qs|
      ensures Apart(xs[i], ys[j]) && (xs[i] == ys[j] ==> ps[i] == qs[j])
    {
      var k := SortedMember(v.fields, i);
      var l := SortedMember(w.fields, j);
      WriteIsPrefixFree(v.fields[k].value, w.fields[l].value);
      MembersAreApart(ps[i], qs[j]);
    }
    MemberTextsAreTexts(ps);
    MemberTextsAreTexts(qs);
    assert (Write(v) + r)[1..] == Joined(xs, CLOSE_RECORD) + r;
    assert (Write(w) + s)[1..] == Joined(ys, CLOSE_RECORD) + s;
    JoinedIsCut(xs, ys, CLOSE_RECORD, r, s);
    assert |ps| == |qs| && forall i :: 0 <= i < |ps| ==> xs[i] == ys[i] && ps[i] == qs[i];
  }

  lemma MemberTextsAreTexts(pairs: seq<Pair>)
    ensures AreTexts(MemberTexts(pairs))
  {
    forall i | 0 <= i < |pairs| ensures MemberTexts(pairs)[i] != [] && MemberTexts(pairs)[i][0] == QUOTE {
      assert MemberTexts(pairs)[i] == [QUOTE] + (Escaped(pairs[i].key) + [QUOTE]) + [COLON] + pairs[i].value;
    }
  }

  // ----- What a text determines -----

  lemma TextDetermines(v: Json, w: Json)
    requires IsJson(v) && IsJson(w) && v.Text? && w.Text? && Write(v) == Write(w)
    ensures v == w
  {
    TextIsCut(v, w, [], []);
  }

  lemma ListDetermines(v: Json, w: Json)
    requires IsJson(v) && IsJson(w) && v.List? && w.List? && Write(v) == Write(w)
    ensures |v.items| == |w.items| && forall i :: 0 <= i < |v.items| ==> Write(v.items[i]) == Write(w.items[i])
  {
    hide Write;
    ListIsCut(v, w, [], []);
    assert forall i :: 0 <= i < |v.items| ==> WriteAll(v.items)[i] == Write(v.items[i]);
    assert forall i :: 0 <= i < |w.items| ==> WriteAll(w.items)[i] == Write(w.items[i]);
  }

  lemma SortedHas(fields: seq<Member>, p: Pair)
    requires IsJson(Record(fields))
    ensures p in Sort(WritePairs(fields)) <==> p in WritePairs(fields)
  {
    hide Write, Sort;
    SortSorts(WritePairs(fields));
    assert p in Sort(WritePairs(fields)) <==> p in multiset(Sort(WritePairs(fields)));
  }

  /** Two objects with one text give every name the same text. */
  lemma RecordDetermines(v: Json, w: Json, i: int, j: int)
    requires IsJson(v) && IsJson(w) && v.Record? && w.Record? && Write(v) == Write(w)
    requires 0 <= i < |v.fields| && 0 <= j < |w.fields| && v.fields[i].name == w.fields[j].name
    ensures Write(v.fields[i].value) == Write(w.fields[j].value)
  {
    hide Sort, Write, WritePairs;
    RecordIsCut(v, w, [], []);
    var p := WritePairs(v.fields)[i];
    SortedHas(v.fields, p);
    SortedHas(w.fields, p);
    var k :| 0 <= k < |w.fields| && WritePairs(w.fields)[k] == p;
    assert !(k < j) && !(j < k);
  }

  /** The order in which an object lists its members does not show in its text. */
  lemma KeyOrderDoesNotMatter(v: Json, w: Json)
    requires IsJson(v) && IsJson(w) && v.Record? && w.Record?
    requires forall m :: m in v.fields <==> m in w.fields
    ensures Write(v) == Write(w)
  {
    hide Sort, Joined, MemberTexts, WritePairs;
    forall p ensures p in WritePairs(v.fields) <==> p in WritePairs(w.fields) {
      if p in WritePairs(v.fields) {
        PairIsKept(v.fields, w.fields, p);
      }
      if p in WritePairs(w.fields) {
        PairIsKept(w.fields, v.fields, p);
      }
    }
    SortedOnce(WritePairs(v.fields), WritePairs(w.fields));
  }

  lemma PairIsKept(f: seq<Member>, g: seq<Member>, p: Pair)
    requires p in WritePairs(f) && forall m :: m in f ==> m in g
    ensures p in WritePairs(g)
  {
    hide Write;
    var i :| 0 <= i < |f| && WritePairs(f)[i] == p;
    assert f[i] in g;
    var k :| 0 <= k < |g| && g[k] == f[i];
    assert WritePairs(g)[k] == p;
  }
}
