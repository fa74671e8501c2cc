/**
  A canonical text read back by a reader of RFC 8259.

  The reader knows strings, arrays and objects, and of the escapes all that stand for one octet. What
  canonicalJson writes it reads back as the value that was written, whatever octets follow, with the
  members of every object in increasing order of their names (CanonicalTextReads).
 */
module JsonReader {
  import opened Cbor
  import opened CanonicalJson

  datatype ReadText = ReadText(s: Buffer, rest: Buffer)
  datatype ReadOctet = ReadOctet(octet: Octet, rest: Buffer)
  datatype ReadJson = ReadJson(value: Json, rest: Buffer)
  datatype ReadItems = ReadItems(items: seq<Json>, rest: Buffer)
  datatype ReadMembers = ReadMembers(fields: seq<Member>, rest: Buffer)

  // ----- The reader -----

  predicate StartsWith(b: Buffer, c: char) { b != [] && b[0] == c as int }

  function HexDigitValue(c: Octet): Option<nat> {
    if '0' as int <= c <= '9' as int then Some(c - '0' as int)
    else if 'a' as int <= c <= 'f' as int then Some(10 + c - 'a' as int)
    else if 'A' as int <= c <= 'F' as int then Some(10 + c - 'A' as int)
    else None
  }

  /** What stands after a backslash. */
  function TakeEscape(b: Buffer): (r: Option<ReadOctet>)
    ensures r.Some? ==> |r.value.rest| < |b|
  {
    if StartsWith(b, '"') || StartsWith(b, '\\') || StartsWith(b, '/') then Some(ReadOctet(b[0], b[1..]))
    else if StartsWith(b, 'b') then Some(ReadOctet(8, b[1..]))
    else if StartsWith(b, 't') then Some(ReadOctet(9, b[1..]))
    else if StartsWith(b, 'n') then Some(ReadOctet(10, b[1..]))
    else if StartsWith(b, 'f') then Some(ReadOctet(12, b[1..]))
    else if StartsWith(b, 'r') then Some(ReadOctet(13, b[1..]))
    else if StartsWith(b, 'u') && |b| >= 5 && b[1] == '0' as int && b[2] == '0' as int then
      match (HexDigitValue(b[3]), HexDigitValue(b[4]))
      case (Some(high), Some(low)) => if high < 8 then Some(ReadOctet(16 * high + low, b[5..])) else None
      case _ => None
    else None
  }

  /** The octets up to the closing quote. */
  function TakeChars(b: Buffer): (r: Option<ReadText>)
    ensures r.Some? ==> |r.value.rest| < |b|
    decreases |b|
  {
    if b == [] then None
    else if b[0] == '"' as int then Some(ReadText([], b[1..]))
    else if b[0] == '\\' as int then
      match TakeEscape(b[1..])
      case None => None
      case Some(first) => Prepended(first.octet, TakeChars(first.rest))
    else if b[0] < 32 then None
    else Prepended(b[0], TakeChars(b[1..]))
  }

  function Prepended(c: Octet, r: Option<ReadText>): Option<ReadText> {
    match r
    case None => None
    case Some(text) => Some(ReadText([c] + text.s, text.rest))
  }

  function TakeValue(b: Buffer): (r: Option<ReadJson>)
    ensures r.Some? ==> |r.value.rest| < |b|
    decreases |b|, 0
  {
    if StartsWith(b, '"') then
      match TakeChars(b[1..])
      case None => None
      case Some(text) => Some(ReadJson(Text(text.s), text.rest))
    else if StartsWith(b, '[') then
      if StartsWith(b[1..], ']') then Some(ReadJson(List([]), b[2..]))
      else
        match TakeItems(b[1..])
        case None => None
        case Some(r) => Some(ReadJson(List(r.items), r.rest))
    else if StartsWith(b, '{') then
      if StartsWith(b[1..], '}') then Some(ReadJson(Record([]), b[2..]))
      else
        match TakeMembers(b[1..])
        case None => None
        case Some(r) => Some(ReadJson(Record(r.fields), r.rest))
    else None
  }

  /** The items up to the closing bracket. */
  function TakeItems(b: Buffer): (r: Option<ReadItems>)
    ensures r.Some? ==> |r.value.rest| < |b|
    decreases |b|, 1
  {
    match TakeValue(b)
    case None => None
    case Some(first) =>
      if StartsWith(first.rest, ']') then Some(ReadItems([first.value], first.rest[1..]))
      else if StartsWith(first.rest, ',') then
        match TakeItems(first.rest[1..])
        case None => None
        case Some(more) => Some(ReadItems([first.value] + more.items, more.rest))
      else None
  }

  function TakeMember(b: Buffer): (r: Option<ReadMembers>)
    ensures r.Some? ==> |r.value.fields| == 1 && |r.value.rest| < |b|
    decreases |b|, 1
  {
    if !StartsWith(b, '"') then None
    else
      match TakeChars(b[1..])
      case None => None
      case Some(name) =>
        if !StartsWith(name.rest, ':') then None
        else
          match TakeValue(name.rest[1..])
          case None => None
          case Some(v) => Some(ReadMembers([Member(name.s, v.value)], v.rest))
  }

  /** The members up to the closing brace. */
  function TakeMembers(b: Buffer): (r: Option<ReadMembers>)
    ensures r.Some? ==> |r.value.rest| < |b|
    decreases |b|, 2
  {
    match TakeMember(b)
    case None => None
    case Some(first) =>
      if StartsWith(first.rest, '}') then Some(ReadMembers(first.fields, first.rest[1..]))
      else if StartsWith(first.rest, ',') then
        match TakeMembers(first.rest[1..])
        case None => None
        case Some(more) => Some(ReadMembers(first.fields + more.fields, more.rest))
      else None
  }

  // ----- Strings -----

  lemma DigitReads(n: Octet)
    requires n < 16
    ensures HexDigitValue(Digit(n)) == Some(n)
  {
  }

  lemma ControlReads(c: Octet, rest: Buffer)
    requires c < 32
    ensures Escape(c) != [] && Escape(c)[0] == '\\' as int
    ensures TakeEscape(Escape(c)[1..] + rest) == Some(ReadOctet(c, rest))
  {
    hide HexDigitValue, Digit;
    DigitReads(c / 16);
    DigitReads(c % 16);
    var b := Escape(c)[1..] + rest;
    if |Escape(c)| == 2 {
      assert b[1..] == rest;
    } else {
      assert b[5..] == rest;
    }
  }

  lemma EscapeReads(c: Octet, rest: Buffer)
    ensures TakeChars(Escape(c) + rest) == Prepended(c, TakeChars(rest))
  {
    hide TakeEscape;
    var b := Escape(c) + rest;
    if c < 32 {
      ControlReads(c, rest);
      hide Escape;
      assert b[1..] == Escape(c)[1..] + rest;
    } else if c == QUOTE || c == BACKSLASH {
      assert b[1..] == [c] + rest;
      SelfReads(c, rest);
    } else {
      assert b[1..] == rest;
    }
  }

  lemma SelfReads(c: Octet, rest: Buffer)
    requires c == QUOTE || c == BACKSLASH
    ensures TakeEscape([c] + rest) == Some(ReadOctet(c, rest))
  {
  }

  lemma {:induction false} CharsRead(s: Buffer, rest: Buffer)
    ensures TakeChars(Escaped(s) + ([QUOTE] + rest)) == Some(ReadText(s, rest))
    decreases |s|
  {
    hide Escape, TakeChars;
    if s == [] {
      assert Escaped(s) + ([QUOTE] + rest) == [QUOTE] + rest;
      QuoteEnds(rest);
    } else {
      CharsRead(s[1..], rest);
      EscapeReads(s[0], Escaped(s[1..]) + ([QUOTE] + rest));
      assert Escaped(s) + ([QUOTE] + rest) == Escape(s[0]) + (Escaped(s[1..]) + ([QUOTE] + rest));
      assert [s[0]] + s[1..] == s;
    }
  }

  lemma QuoteEnds(rest: Buffer)
    ensures TakeChars([QUOTE] + rest) == Some(ReadText([], rest))
  {
    assert ([QUOTE] + rest)[1..] == rest;
  }

  lemma QuotedReads(s: Buffer, rest: Buffer)
    ensures StartsWith(Quoted(s) + rest, '"')
    ensures TakeChars((Quoted(s) + rest)[1..]) == Some(ReadText(s, rest))
  {
    hide Escaped, TakeChars;
    CharsRead(s, rest);
    assert (Quoted(s) + rest)[1..] == Escaped(s) + ([QUOTE] + rest);
  }

  // ----- Lists and objects -----

  /** The text of a value, which is read back whatever follows. */
  ghost predicate ReadsAs(b: Buffer, v: Json) {
    forall rest: Buffer :: TakeValue(b + rest) == Some(ReadJson(v, rest))
  }

  lemma ReadsOnce(b: Buffer, v: Json, w: Json)
    requires ReadsAs(b, v) && ReadsAs(b, w)
    ensures v == w
  {
    hide TakeValue;
    var empty: Buffer := [];
    assert TakeValue(b + empty) == Some(ReadJson(v, empty)) && TakeValue(b + empty) == Some(ReadJson(w, empty));
  }

  lemma OpensValue(b: Buffer)
    requires TakeValue(b).Some?
    ensures !StartsWith(b, ']') && !StartsWith(b, '}')
  {
  }

  lemma TextReads(s: Buffer)
    ensures ReadsAs(Write(Text(s)), Text(s))
  {
    hide Quoted, TakeChars;
    forall rest: Buffer ensures TakeValue(Quoted(s) + rest) == Some(ReadJson(Text(s), rest)) {
      QuotedReads(s, rest);
    }
  }

  ghost predicate AllRead(texts: seq<Buffer>, values: seq<Json>) {
    |texts| == |values| && forall i :: 0 <= i < |texts| ==> ReadsAs(texts[i], values[i])
  }

  lemma {:induction false} ItemsRead(texts: seq<Buffer>, values: seq<Json>, rest: Buffer)
    requires texts != [] && AllRead(texts, values)
    ensures TakeItems(Joined(texts, CLOSE_LIST) + rest) == Some(ReadItems(values, rest))
    decreases |texts|
  {
    hide TakeValue, ReadsAs;
    var tail := Followed(texts[1..], CLOSE_LIST) + rest;
    assert Joined(texts, CLOSE_LIST) + rest == texts[0] + tail;
    ReadsBefore(texts[0], values[0], tail);
    if |texts| == 1 {
      assert tail == [CLOSE_LIST] + rest;
      assert values == [values[0]];
    } else {
      ItemsRead(texts[1..], values[1..], rest);
      assert tail == [COMMA] + (Joined(texts[1..], CLOSE_LIST) + rest) by {
        FollowedIsJoined(texts[1..], CLOSE_LIST);
      }
      assert tail[1..] == Joined(texts[1..], CLOSE_LIST) + rest;
      assert [values[0]] + values[1..] == values;
    }
  }

  lemma FollowedIsJoined(texts: seq<Buffer>, close: Octet)
    requires texts != []
    ensures Followed(texts, close) == [COMMA] + Joined(texts, close)
  {
    assert [COMMA] + texts[0] + Followed(texts[1..], close) == [COMMA] + (texts[0] + Followed(texts[1..], close));
  }

  lemma ReadsBefore(b: Buffer, v: Json, rest: Buffer)
    requires ReadsAs(b, v)
    ensures TakeValue(b + rest) == Some(ReadJson(v, rest))
  {
    hide TakeValue;
  }

  lemma ListReads(texts: seq<Buffer>, values: seq<Json>)
    requires AllRead(texts, values)
    ensures ReadsAs([OPEN_LIST] + Joined(texts, CLOSE_LIST), List(values))
  {
    hide TakeItems, AllRead;
    var text := [OPEN_LIST] + Joined(texts, CLOSE_LIST);
    forall rest: Buffer ensures TakeValue(text + rest) == Some(ReadJson(List(values), rest)) {
      assert (text + rest)[1..] == Joined(texts, CLOSE_LIST) + rest;
      SameLength(texts, values);
      if texts == [] {
        assert (text + rest)[2..] == rest;
      } else {
        ItemsRead(texts, values, rest);
        ItemsOpen(Joined(texts, CLOSE_LIST) + rest);
      }
    }
  }

  lemma SameLength(texts: seq<Buffer>, values: seq<Json>)
    requires AllRead(texts, values)
    ensures |texts| == |values|
  {
  }

  lemma ItemsOpen(b: Buffer)
    requires TakeItems(b).Some?
    ensures !StartsWith(b, ']')
  {
    hide TakeValue;
    OpensValue(b);
  }

  ghost predicate MembersRead(pairs: seq<Pair>, fields: seq<Member>) {
    |pairs| == |fields|
    && forall i :: 0 <= i < |pairs| ==> fields[i].name == pairs[i].key && ReadsAs(pairs[i].value, fields[i].value)
  }

  lemma MemberReads(p: Pair, m: Member, rest: Buffer)
    requires m.name == p.key && ReadsAs(p.value, m.value)
    ensures TakeMember(MemberText(p) + rest) == Some(ReadMembers([m], rest))
  {
    hide TakeValue, TakeChars, Quoted, ReadsAs;
    var tail := [COLON] + p.value + rest;
    assert MemberText(p) + rest == Quoted(p.key) + tail;
    QuotedReads(p.key, tail);
    assert tail[1..] == p.value + rest;
    ReadsBefore(p.value, m.value, rest);
  }

  lemma {:induction false} AllMembersRead(pairs: seq<Pair>, fields: seq<Member>, rest: Buffer)
    requires pairs != [] && MembersRead(pairs, fields)
    ensures TakeMembers(Joined(MemberTexts(pairs), CLOSE_RECORD) + rest) == Some(ReadMembers(fields, rest))
    decreases |pairs|
  {
    hide TakeMember, ReadsAs, MemberText;
    var texts := MemberTexts(pairs);
    var tail := Followed(texts[1..], CLOSE_RECORD) + rest;
    assert Joined(texts, CLOSE_RECORD) + rest == texts[0] + tail;
    MemberReads(pairs[0], fields[0], tail);
    if |pairs| == 1 {
      assert tail == [CLOSE_RECORD] + rest;
      assert fields == [fields[0]];
    } else {
      AllMembersRead(pairs[1..], fields[1..], rest);
      assert texts[1..] == MemberTexts(pairs[1..]);
      FollowedIsJoined(texts[1..], CLOSE_RECORD);
      assert tail == [COMMA] + (Joined(texts[1..], CLOSE_RECORD) + rest);
      assert tail[1..] == Joined(texts[1..], CLOSE_RECORD) + rest;
      assert [fields[0]] + fields[1..] == fields;
    }
  }

  lemma RecordReads(pairs: seq<Pair>, fields: seq<Member>)
    requires MembersRead(pairs, fields)
    ensures ReadsAs([OPEN_RECORD] + Joined(MemberTexts(pairs), CLOSE_RECORD), Record(fields))
  {
    hide TakeMembers, ReadsAs, MemberTexts;
    var text := [OPEN_RECORD] + Joined(MemberTexts(pairs), CLOSE_RECORD);
    forall rest: Buffer ensures TakeValue(text + rest) == Some(ReadJson(Record(fields), rest)) {
      assert (text + rest)[1..] == Joined(MemberTexts(pairs), CLOSE_RECORD) + rest;
      if pairs == [] {
        assert (text + rest)[2..] == rest;
      } else {
        AllMembersRead(pairs, fields, rest);
        MembersOpen(Joined(MemberTexts(pairs), CLOSE_RECORD) + rest);
      }
    }
    AllRestsRead(text, Record(fields));
  }

  lemma AllRestsRead(b: Buffer, v: Json)
    requires forall rest: Buffer :: TakeValue(b + rest) == Some(ReadJson(v, rest))
    ensures ReadsAs(b, v)
  {
    hide TakeValue;
  }

  lemma MembersOpen(b: Buffer)
    requires TakeMembers(b).Some?
    ensures !StartsWith(b, '}')
  {
    hide TakeChars, TakeValue;
  }

  // ----- Every value -----

  /** The same value, with the members of every object in increasing order of their names. */
  ghost predicate Says(read: Json, v: Json)
    decreases v
  {
    match v
    case Text(s) => read == Text(s)
    case List(items) =>
      && read.List? && |read.items| == |items|
      && forall i :: 0 <= i < |items| ==> Says(read.items[i], items[i])
    case Record(fields) =>
      && read.Record? && |read.fields| == |fields|
      && NamesAscend(read.fields)
      && forall i :: 0 <= i < |fields| ==> HasMember(read.fields, fields[i])
  }

  ghost predicate HasMember(fields: seq<Member>, m: Member)
    decreases m
  {
    exists j :: 0 <= j < |fields| && fields[j].name == m.name && Says(fields[j].value, m.value)
  }

  /** The bytewise order of names. */
  ghost predicate ComesFirst(a: Buffer, b: Buffer) { exists k: nat :: ComesFirstAt(a, b, k) }

  ghost predicate NamesAscend(fields: seq<Member>) {
    forall i, j :: 0 <= i < j < |fields| ==> ComesFirst(fields[i].name, fields[j].name)
  }

  /** What canonicalJson writes for a value is read back as that value. */
  lemma {:induction false} CanonicalTextReads(v: Json) returns (read: Json)
    requires IsJson(v)
    ensures ReadsAs(Write(v), read) && Says(read, v)
    decreases v, 1
  {
    hide ReadsAs, Write;
    match v {
      case Text(s) =>
        TextReads(s);
        read := v;
      case List(items) =>
        read := ListIsRead(v);
      case Record(fields) =>
        read := RecordIsRead(v);
    }
  }

  lemma {:induction false} ListIsRead(v: Json) returns (read: Json)
    requires IsJson(v) && v.List?
    ensures ReadsAs(Write(v), read) && Says(read, v)
    decreases v, 0
  {
    hide ReadsAs, Joined;
    var values: seq<Json> := [];
    for i := 0 to |v.items|
      invariant |values| == i && forall k :: 0 <= k < i ==> ReadsAs(Write(v.items[k]), values[k])
      invariant forall k :: 0 <= k < i ==> Says(values[k], v.items[k])
    {
      var one := CanonicalTextReads(v.items[i]);
      values := values + [one];
    }
    ListReads(WriteAll(v.items), values);
    read := List(values);
  }

  lemma {:induction false} RecordIsRead(v: Json) returns (read: Json)
    requires IsJson(v) && v.Record?
    ensures ReadsAs(Write(v), read) && Says(read, v)
    decreases v, 0
  {
    hide ReadsAs, Joined, Sort, MemberTexts, Write, StrictlyIncreasing;
    var (fields, values) := (v.fields, []);
    for i := 0 to |fields|
      invariant |values| == i && forall k :: 0 <= k < i ==> ReadsAs(Write(fields[k].value), values[k])
      invariant forall k :: 0 <= k < i ==> Says(values[k], fields[k].value)
    {
      var one := CanonicalTextReads(fields[i].value);
      values := values + [one];
    }
    var pairs := Sort(WritePairs(fields));
    var members := SortedMembers(fields, values, pairs);
    RecordReads(pairs, members);
    RecordText(fields);
    read := Record(members);
    MembersSay(fields, values, pairs, members);
  }

  lemma RecordText(fields: seq<Member>)
    ensures Write(Record(fields))
         == [OPEN_RECORD] + Joined(MemberTexts(Sort(WritePairs(fields))), CLOSE_RECORD)
  {
  }

  /** Each sorted pair with the value that its text is read as. */
  lemma SortedMembers(fields: seq<Member>, values: seq<Json>, pairs: seq<Pair>) returns (members: seq<Member>)
    requires IsJson(Record(fields)) && pairs == Sort(WritePairs(fields)) && |values| == |fields|
    requires forall k :: 0 <= k < |fields| ==> ReadsAs(Write(fields[k].value), values[k])
    ensures MembersRead(pairs, members)
  {
    hide ReadsAs, Sort, Write;
    members := [];
    for i := 0 to |pairs|
      invariant |members| == i
      invariant forall k :: 0 <= k < i ==>
        members[k].name == pairs[k].key && ReadsAs(pairs[k].value, members[k].value)
    {
      var k := SortedMember(fields, i);
      members := members + [Member(fields[k].name, values[k])];
    }
  }

  lemma MembersSay(fields: seq<Member>, values: seq<Json>, pairs: seq<Pair>, members: seq<Member>)
    requires IsJson(Record(fields)) && pairs == Sort(WritePairs(fields)) && |values| == |fields|
    requires forall k :: 0 <= k < |fields| ==> ReadsAs(Write(fields[k].value), values[k])
    requires forall k :: 0 <= k < |fields| ==> Says(values[k], fields[k].value)
    requires MembersRead(pairs, members)
    ensures Says(Record(members), Record(fields))
  {
    hide ReadsAs, Sort, Write, MembersRead, NamesAscend, IsJson, Says;
    NamesIncrease(fields, pairs, members);
    var at: seq<nat> := [];
    for i := 0 to |fields|
      invariant |at| == i
      invariant forall k :: 0 <= k < i ==>
        at[k] < |members| && members[at[k]].name == fields[k].name && members[at[k]].value == values[k]
    {
      var j := MemberIsThere(fields, values, pairs, members, i);
      at := at + [j];
    }
    AllAreThere(fields, members, at);
  }

  lemma AllAreThere(fields: seq<Member>, members: seq<Member>, at: seq<nat>)
    requires NamesAscend(members) && |members| == |fields| == |at|
    requires forall k :: 0 <= k < |at| ==>
      at[k] < |members| && members[at[k]].name == fields[k].name && Says(members[at[k]].value, fields[k].value)
    ensures Says(Record(members), Record(fields))
  {
    hide NamesAscend;
    forall i | 0 <= i < |fields| ensures HasMember(members, fields[i]) {
      assert members[at[i]].name == fields[i].name;
    }
  }

  lemma NamesIncrease(fields: seq<Member>, pairs: seq<Pair>, members: seq<Member>)
    requires IsJson(Record(fields)) && pairs == Sort(WritePairs(fields)) && MembersRead(pairs, members)
    ensures |members| == |fields|
    ensures NamesAscend(members)
  {
    hide ReadsAs, Sort, Write, Before, StrictlyIncreasing;
    SortSorts(WritePairs(fields));
    assert |multiset(pairs)| == |multiset(WritePairs(fields))|;
    KeysAscend(pairs, members);
  }

  lemma KeysAscend(pairs: seq<Pair>, members: seq<Member>)
    requires StrictlyIncreasing(pairs) && MembersRead(pairs, members)
    ensures NamesAscend(members)
  {
    hide ReadsAs, Before;
    forall i, j | 0 <= i < j < |members| ensures ComesFirst(members[i].name, members[j].name) {
      BeforeIsBytewise(pairs[i].key, pairs[j].key);
    }
  }

  lemma MemberIsThere(fields: seq<Member>, values: seq<Json>, pairs: seq<Pair>, members: seq<Member>, i: nat)
    returns (j: nat)
    requires IsJson(Record(fields)) && pairs == Sort(WritePairs(fields)) && |values| == |fields|
    requires MembersRead(pairs, members) && i < |fields| && ReadsAs(Write(fields[i].value), values[i])
    ensures j < |members| && members[j].name == fields[i].name && members[j].value == values[i]
  {
    hide ReadsAs, Sort, Write;
    SortedHas(fields, WritePairs(fields)[i]);
    j :| 0 <= j < |pairs| && pairs[j] == WritePairs(fields)[i];
    ReadsOnce(pairs[j].value, members[j].value, values[i]);
  }
}
