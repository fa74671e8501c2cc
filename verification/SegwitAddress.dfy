/**
  decodeBech32, decodeSegwitAddress and signetAddressToScriptPubKey of the web client.

  Letter case is a parameter: the program only compares an address with its lower- and upper-case
  forms and then reads the lower-case one, and nothing below depends on how those are formed.
  What an address is, by BIP-173 and BIP-350, is said of the text itself (IsBech32, IsAddressOf): by
  character codes, positions in the alphabet, bits of the program and a remainder of polynomials.
  The main result (DecodesExactlyItsAddress) is that a script comes out of an address exactly when it
  is one the gateway accepts and the lower-case address is an address of that script.
 */
module SegwitAddress {
  import opened C = Bech32Checksum
  import B = BitGroups
  import S = BitStrings
  import P = Bech32Polynomial
  import U = CodeUnits
  import G = BurnGateway
  import T = BridgeTypes

  datatype Casing = Casing(lower: string -> string, upper: string -> string)

  datatype Error =
    | MixedCase | InvalidAddress | InvalidCharacter | InvalidChecksum
    | InvalidV0Checksum | InvalidSegwitChecksum | InvalidData | InvalidPadding
    | NotSignet | UnsupportedV0Program | UnsupportedTaprootProgram | UnsupportedVersion

  datatype Result<+T> = Ok(value: T) | Err(error: Error)

  datatype Encoding = Bech32 | Bech32m

  datatype Decoded = Decoded(hrp: string, data: seq<int>, encoding: Encoding)

  datatype Segwit = Segwit(hrp: string, version: int, program: seq<int>)

  const CHARSET: string := "qpzry9x8gf2tvdw0s3jn54khce6mua7l"

  // ----- Characters and symbols -----

  /** text.lastIndexOf(c) */
  function LastIndexOf(text: string, c: char): (i: int)
    ensures -1 <= i < |text|
    ensures i >= 0 ==> text[i] == c
    ensures forall j :: i < j < |text| ==> text[j] != c
  {
    if text == [] then -1
    else if text[|text| - 1] == c then |text| - 1
    else LastIndexOf(text[..|text| - 1], c)
  }

  /** text.indexOf(c), from position i on */
  function IndexFrom(text: string, c: char, i: nat): (k: int)
    requires i <= |text|
    ensures k == -1 || (i <= k < |text| && text[k] == c)
    ensures k == -1 ==> forall j :: i <= j < |text| ==> text[j] != c
    decreases |text| - i
  {
    if i == |text| then -1 else if text[i] == c then i else IndexFrom(text, c, i + 1)
  }

  function SymbolOf(c: char): (k: int)
    ensures -1 <= k < 32
    ensures k >= 0 ==> CHARSET[k] == c
  {
    IndexFrom(CHARSET, c, 0)
  }

  predicate InCharset(text: string) {
    forall i :: 0 <= i < |text| ==> SymbolOf(text[i]) != -1
  }

  function SymbolsOf(text: string): (d: seq<int>)
    ensures |d| == |text|
  {
    seq(|text|, i requires 0 <= i < |text| => SymbolOf(text[i]))
  }

  predicate AreSymbols(data: seq<int>) {
    forall i :: 0 <= i < |data| ==> 0 <= data[i] < 32
  }

  function TextOf(data: seq<int>): (t: string)
    requires AreSymbols(data)
    ensures |t| == |data|
  {
    seq(|data|, i requires 0 <= i < |data| => CHARSET[data[i]])
  }

  function ToWord(n: int): Word
    requires 0 <= n < 0x4000_0000
  {
    n as Word
  }

  function WordsOf(data: seq<int>): (w: seq<Word>)
    requires AreSymbols(data)
    ensures |w| == |data|
  {
    seq(|data|, i requires 0 <= i < |data| => ToWord(data[i]))
  }

  /** charCodeAt(i) >> 5 and charCodeAt(i) & 31 */
  function HighBits(c: char): Word { ToWord(c as int / 32) }

  function LowBits5(c: char): Word { ToWord(c as int % 32) }

  function HrpExpanded(hrp: string): seq<Word> {
    seq(|hrp|, i requires 0 <= i < |hrp| => HighBits(hrp[i])) + [0]
    + seq(|hrp|, i requires 0 <= i < |hrp| => LowBits5(hrp[i]))
  }

  /** The expansion of a prefix, by character codes: the high bits, a zero, and the low five bits. */
  ghost predicate Expands(hrp: string, values: seq<Word>) {
    && |values| == 2 * |hrp| + 1 && values[|hrp|] == 0
    && (forall i :: 0 <= i < |hrp| ==> values[i] as int == hrp[i] as int / 32)
    && (forall k :: |hrp| < k < |values| ==> values[k] as int == hrp[k - |hrp| - 1] as int % 32)
  }

  lemma WordIs(n: int)
    requires 0 <= n < 0x1_0000
    ensures ToWord(n) as int == n
  {
    U.NumberOfWord(n);
  }

  lemma ExpansionExpands(hrp: string)
    ensures Expands(hrp, HrpExpanded(hrp))
    ensures |HrpExpanded(hrp)| == 2 * |hrp| + 1 && HrpExpanded(hrp)[|hrp|] == 0
    ensures forall i :: 0 <= i < |hrp| ==> HrpExpanded(hrp)[i] as int == hrp[i] as int / 32
    ensures forall i :: 0 <= i < |hrp| ==> HrpExpanded(hrp)[|hrp| + 1 + i] as int == hrp[i] as int % 32
  {
    hide ToWord;
    var values := HrpExpanded(hrp);
    forall i | 0 <= i < |hrp|
      ensures values[i] as int == hrp[i] as int / 32 && values[|hrp| + 1 + i] as int == hrp[i] as int % 32
    {
      WordIs(hrp[i] as int / 32);
      WordIs(hrp[i] as int % 32);
    }
  }

  lemma ExpansionIsOne(hrp: string, values: seq<Word>, others: seq<Word>)
    requires Expands(hrp, values) && Expands(hrp, others)
    ensures values == others
  {
    forall k | 0 <= k < |values| ensures values[k] == others[k] {
      SameExpansion(hrp, values, others, k);
    }
  }

  lemma SameExpansion(hrp: string, values: seq<Word>, others: seq<Word>, k: nat)
    requires Expands(hrp, values) && Expands(hrp, others) && k < |values|
    ensures k < |others| && values[k] == others[k]
  {
    assert values[k] as int == others[k] as int;
    U.NumberDetermines(values[k], others[k]);
  }

  /** The prefix of signet addresses. */
  lemma SignetPrefixExpands(values: seq<Word>)
    ensures Expands("tb", values) <==> values == [3, 3, 0, 20, 2]
  {
    assert "tb"[0] as int == 116 && "tb"[1] as int == 98;
    var known: seq<Word> := [3, 3, 0, 20, 2];
    assert Expands("tb", known);
    hide Expands;
    if Expands("tb", values) {
      ExpansionIsOne("tb", values, known);
    }
  }

  // ----- Decoding -----

  function EncodingOf(checksum: Word): T.Option<Encoding> {
    if checksum == 1 then T.Some(Bech32) else if checksum == 0x2bc830a3 then T.Some(Bech32m) else T.None
  }

  function ReadBech32(casing: Casing, address: string): Result<Decoded> {
    if address != casing.lower(address) && address != casing.upper(address) then Err(MixedCase)
    else ReadLower(casing.lower(address))
  }

  function ReadLower(normalized: string): Result<Decoded> {
    var separator := LastIndexOf(normalized, '1');
    if separator < 1 || separator + 7 > |normalized| then Err(InvalidAddress)
    else
      var (hrp, chars) := (normalized[..separator], normalized[separator + 1..]);
      if !InCharset(chars) then Err(InvalidCharacter)
      else
        var data := SymbolsOf(chars);
        match EncodingOf(Polymod(HrpExpanded(hrp) + WordsOf(data)))
        case None => Err(InvalidChecksum)
        case Some(encoding) => Ok(Decoded(hrp, data[..|data| - 6], encoding))
  }

  function DecodeSegwitAddress(casing: Casing, address: string): Result<Segwit> {
    match ReadBech32(casing, address)
    case Err(e) => Err(e)
    case Ok(decoded) => WitnessOf(decoded)
  }

  function WitnessOf(decoded: Decoded): Result<Segwit> {
    if decoded.data == [] then Err(InvalidAddress)
    else
      var version := decoded.data[0];
      match B.Regroup(decoded.data[1..], 5, 8, false)
      case InvalidData => Err(InvalidData)
      case InvalidPadding => Err(InvalidPadding)
      case Values(program) =>
        if version == 0 && decoded.encoding != Bech32 then Err(InvalidV0Checksum)
        else if version > 0 && decoded.encoding != Bech32m then Err(InvalidSegwitChecksum)
        else Ok(Segwit(decoded.hrp, version, program))
  }

  function SignetAddressToScriptPubKey(casing: Casing, address: string): Result<seq<int>> {
    match DecodeSegwitAddress(casing, address)
    case Err(e) => Err(e)
    case Ok(decoded) => ScriptOf(decoded)
  }

  function ScriptOf(decoded: Segwit): Result<seq<int>> {
    if decoded.hrp != "tb" then Err(NotSignet)
    else if decoded.version == 0 && |decoded.program| != 20 && |decoded.program| != 32 then Err(UnsupportedV0Program)
    else if decoded.version == 1 && |decoded.program| != 32 then Err(UnsupportedTaprootProgram)
    else if decoded.version > 1 then Err(UnsupportedVersion)
    else
      var opcode := if decoded.version == 0 then 0 else 0x50 + decoded.version;
      Ok([opcode, |decoded.program|] + decoded.program)
  }

  // ----- The loops -----

  method Bech32HrpExpand(hrp: string) returns (values: seq<Word>)
    ensures values == HrpExpanded(hrp)
    ensures |values| == 2 * |hrp| + 1 && values[|hrp|] == 0
    ensures forall i :: 0 <= i < |hrp| ==> values[i] as int == hrp[i] as int / 32
    ensures forall i :: 0 <= i < |hrp| ==> values[|hrp| + 1 + i] as int == hrp[i] as int % 32
  {
    hide HighBits, LowBits5;
    values := [];
    for i := 0 to |hrp|
      invariant values == HrpExpanded(hrp)[..i]
    {
      values := values + [HighBits(hrp[i])];
    }
    values := values + [0];
    for i := 0 to |hrp|
      invariant values == HrpExpanded(hrp)[..|hrp| + 1 + i]
    {
      values := values + [LowBits5(hrp[i])];
    }
    ExpansionExpands(hrp);
  }

  lemma NoSymbols(chars: string)
    ensures InCharset(chars[..0]) && SymbolsOf(chars[..0]) == []
  {
  }

  lemma NextSymbol(chars: string, i: nat)
    requires i < |chars|
    ensures SymbolOf(chars[i]) == -1 ==> !InCharset(chars)
    ensures InCharset(chars[..i]) && SymbolOf(chars[i]) != -1 ==> InCharset(chars[..i + 1])
    ensures SymbolsOf(chars[..i + 1]) == SymbolsOf(chars[..i]) + [SymbolOf(chars[i])]
  {
    hide SymbolOf;
    assert chars[..i + 1] == chars[..i] + [chars[i]];
  }

  method DecodeBech32(casing: Casing, value: string) returns (result: Result<Decoded>)
    ensures result == ReadBech32(casing, value)
  {
    hide SymbolOf, EncodingOf, Polymod, HrpExpanded, WordsOf, LastIndexOf, InCharset, SymbolsOf;
    if value != casing.lower(value) && value != casing.upper(value) {
      return Err(MixedCase);
    }
    var normalized := casing.lower(value);
    var separator := LastIndexOf(normalized, '1');
    if separator < 1 || separator + 7 > |normalized| {
      return Err(InvalidAddress);
    }
    var hrp, chars := normalized[..separator], normalized[separator + 1..];
    var data: seq<int> := [];
    NoSymbols(chars);
    for i := 0 to |chars|
      invariant InCharset(chars[..i]) && data == SymbolsOf(chars[..i])
    {
      var index := SymbolOf(chars[i]);
      NextSymbol(chars, i);
      if index == -1 {
        return Err(InvalidCharacter);
      }
      data := data + [index];
    }
    assert chars[..|chars|] == chars;
    SymbolsRoundTrip(chars);
    var expanded := Bech32HrpExpand(hrp);
    var checksum := Bech32Polymod(expanded + WordsOf(data));
    match EncodingOf(checksum)
    case None => return Err(InvalidChecksum);
    case Some(encoding) => return Ok(Decoded(hrp, data[..|data| - 6], encoding));
  }

  // ----- Symbols, characters and words are three names for one thing -----

  function Rank(c: char): int {
    match c
    case 'q' => 0 case 'p' => 1 case 'z' => 2 case 'r' => 3
    case 'y' => 4 case '9' => 5 case 'x' => 6 case '8' => 7
    case 'g' => 8 case 'f' => 9 case '2' => 10 case 't' => 11
    case 'v' => 12 case 'd' => 13 case 'w' => 14 case '0' => 15
    case 's' => 16 case '3' => 17 case 'j' => 18 case 'n' => 19
    case '5' => 20 case '4' => 21 case 'k' => 22 case 'h' => 23
    case 'c' => 24 case 'e' => 25 case '6' => 26 case 'm' => 27
    case 'u' => 28 case 'a' => 29 case '7' => 30 case 'l' => 31
    case _ => -1
  }

  lemma RankInCharset(k: int)
    requires 0 <= k < 32
    ensures Rank(CHARSET[k]) == k && CHARSET[k] != '1'
  {
  }

  lemma SymbolAtIndex(k: int)
    requires 0 <= k < 32
    ensures SymbolOf(CHARSET[k]) == k
  {
    hide Rank;
    RankInCharset(k);
    if SymbolOf(CHARSET[k]) != -1 {
      RankInCharset(SymbolOf(CHARSET[k]));
    }
  }

  lemma TextRoundTrip(data: seq<int>)
    requires AreSymbols(data)
    ensures InCharset(TextOf(data)) && SymbolsOf(TextOf(data)) == data
    ensures '1' !in TextOf(data)
  {
    hide SymbolOf, Rank;
    forall i | 0 <= i < |data| ensures SymbolOf(TextOf(data)[i]) == data[i] && TextOf(data)[i] != '1' {
      SymbolAtIndex(data[i]);
      RankInCharset(data[i]);
    }
  }

  lemma SymbolsRoundTrip(text: string)
    requires InCharset(text)
    ensures AreSymbols(SymbolsOf(text)) && TextOf(SymbolsOf(text)) == text
  {
  }

  lemma WordOfSymbol(n: int)
    requires 0 <= n < 32
    ensures IsSymbol(ToWord(n)) && ToWord(n) as int == n
  {
  }

  function FromWords(w: seq<Word>): (d: seq<int>)
    requires Symbols(w)
    ensures |d| == |w|
  {
    seq(|w|, i requires 0 <= i < |w| => w[i] as int)
  }

  lemma WordsRoundTrip(data: seq<int>)
    requires AreSymbols(data)
    ensures Symbols(WordsOf(data)) && FromWords(WordsOf(data)) == data
  {
    hide ToWord, IsSymbol;
    forall i | 0 <= i < |data| ensures IsSymbol(WordsOf(data)[i]) && WordsOf(data)[i] as int == data[i] {
      WordOfSymbol(data[i]);
    }
  }

  lemma FromWordsRoundTrip(w: seq<Word>)
    requires Symbols(w)
    ensures AreSymbols(FromWords(w)) && WordsOf(FromWords(w)) == w
  {
  }

  // ----- Writing an address -----

  function EncodedText(hrp: string, data: seq<int>, encoding: Encoding): (t: string)
    requires AreSymbols(data)
  {
    var text := HrpExpanded(hrp) + WordsOf(data);
    EndingExists(text, Constant(encoding));
    var ending := FromWords(Ending(text, Constant(encoding)));
    FromWordsRoundTrip(Ending(text, Constant(encoding)));
    hrp + "1" + TextOf(data + ending)
  }

  function Constant(encoding: Encoding): Word {
    match encoding
    case Bech32 => 1
    case Bech32m => 0x2bc830a3
  }

  lemma EncodingMeansConstant(checksum: Word, encoding: Encoding)
    ensures EncodingOf(checksum) == T.Some(encoding) <==> checksum == Constant(encoding)
  {
  }

  lemma AfterSeparator(hrp: string, rest: string, i: int)
    requires |hrp| < i < |hrp| + 1 + |rest|
    ensures (hrp + "1" + rest)[i] in rest
  {
    assert (hrp + "1" + rest)[i] == rest[i - |hrp| - 1];
  }

  lemma SeparatorIs(hrp: string, rest: string)
    requires '1' !in rest
    ensures LastIndexOf(hrp + "1" + rest, '1') == |hrp|
  {
    var text := hrp + "1" + rest;
    var i := LastIndexOf(text, '1');
    assert text[|hrp|] == '1';
    if i > |hrp| {
      AfterSeparator(hrp, rest, i);
    }
  }

  lemma WordsAppend(a: seq<int>, b: seq<int>)
    requires AreSymbols(a) && AreSymbols(b)
    ensures AreSymbols(a + b) && WordsOf(a + b) == WordsOf(a) + WordsOf(b)
  {
  }

  lemma EncodedIsRead(hrp: string, data: seq<int>, encoding: Encoding)
    requires |hrp| >= 1 && AreSymbols(data)
    ensures ReadLower(EncodedText(hrp, data, encoding)) == Ok(Decoded(hrp, data, encoding))
  {
    hide HrpExpanded, SymbolOf, ToWord, IsSymbol, EncodingOf, Constant, Polymod, Ending, InCharset, LastIndexOf, TextOf;
    var text := HrpExpanded(hrp) + WordsOf(data);
    var target := Constant(encoding);
    EndingExists(text, target);
    var ending := FromWords(Ending(text, target));
    FromWordsRoundTrip(Ending(text, target));
    WordsAppend(data, ending);
    TextRoundTrip(data + ending);
    SeparatorIs(hrp, TextOf(data + ending));
    var normalized := hrp + "1" + TextOf(data + ending);
    assert normalized == EncodedText(hrp, data, encoding);
    assert normalized[..|hrp|] == hrp && normalized[|hrp| + 1..] == TextOf(data + ending);
    assert HrpExpanded(hrp) + WordsOf(data + ending) == text + Ending(text, target);
    EncodingMeansConstant(target, encoding);
    assert (data + ending)[..|data + ending| - 6] == data;
  }

  lemma ReadIsEncoded(normalized: string)
    requires ReadLower(normalized).Ok?
    ensures var d := ReadLower(normalized).value;
      |d.hrp| >= 1 && AreSymbols(d.data) && normalized == EncodedText(d.hrp, d.data, d.encoding)
  {
    hide HrpExpanded, SymbolOf, ToWord, IsSymbol, EncodingOf, Constant, Polymod, Ending, InCharset, LastIndexOf, TextOf;
    var separator := LastIndexOf(normalized, '1');
    var (hrp, chars) := (normalized[..separator], normalized[separator + 1..]);
    SymbolsRoundTrip(chars);
    var full := SymbolsOf(chars);
    var (data, last) := (full[..|full| - 6], full[|full| - 6..]);
    var d := ReadLower(normalized).value;
    var target := Constant(d.encoding);
    var text := HrpExpanded(hrp) + WordsOf(data);
    assert full == data + last;
    WordsAppend(data, last);
    assert HrpExpanded(hrp) + WordsOf(full) == text + WordsOf(last);
    EncodingMeansConstant(Polymod(text + WordsOf(last)), d.encoding);
    WordsRoundTrip(last);
    EndingIsUnique(text, target, WordsOf(last));
    assert FromWords(Ending(text, target)) == last;
    assert normalized == hrp + "1" + chars;
  }

  // ----- What a Bech32 text is -----

  /** These characters are the symbols, by their position in the alphabet. */
  ghost predicate Spells(words: seq<Word>, chars: string) {
    |words| == |chars| && forall i :: 0 <= i < |chars| ==> 0 <= Rank(chars[i]) && words[i] as int == Rank(chars[i])
  }

  /**
    BIP-173: the prefix, a 1, and the characters of the data and of six symbols more, chosen so that
    the expanded prefix and all symbols leave the remainder of the encoding.
   */
  ghost predicate IsBech32(text: string, hrp: string, data: seq<int>, constant: Word) {
    && |text| == |hrp| + 1 + |data| + 6 && text[..|hrp|] == hrp && text[|hrp|] == '1'
    && exists values: seq<Word>, words: seq<Word> ::
         && Expands(hrp, values) && Spells(words, text[|hrp| + 1..])
         && |words| == |data| + 6 && (forall i :: 0 <= i < |data| ==> words[i] as int == data[i])
         && P.Remainder(values + words) == P.Coefficients(constant)
  }

  lemma RankDetermines(c: char)
    requires 0 <= Rank(c)
    ensures Rank(c) < 32 && CHARSET[Rank(c)] == c
  {
  }

  lemma TextIsSpelled(data: seq<int>)
    requires AreSymbols(data)
    ensures Spells(WordsOf(data), TextOf(data))
  {
    hide Rank, ToWord;
    forall i | 0 <= i < |data| ensures Rank(TextOf(data)[i]) == data[i] && WordsOf(data)[i] as int == data[i] {
      RankInCharset(data[i]);
      WordIs(data[i]);
    }
  }

  lemma SpelledIsText(words: seq<Word>, chars: string)
    requires Spells(words, chars)
    ensures Symbols(words) && AreSymbols(FromWords(words)) && TextOf(FromWords(words)) == chars
  {
    hide Rank;
    forall i | 0 <= i < |words| ensures IsSymbol(words[i]) && CHARSET[words[i] as int] == chars[i] {
      RankDetermines(chars[i]);
      SmallWord(words[i]);
    }
  }

  lemma SmallWord(w: Word)
    ensures IsSymbol(w) <==> w as int < 32
  {
  }

  lemma EncodedIsBech32(hrp: string, data: seq<int>, encoding: Encoding)
    requires AreSymbols(data)
    ensures IsBech32(EncodedText(hrp, data, encoding), hrp, data, Constant(encoding))
  {
    hide HrpExpanded, ToWord, IsSymbol, Constant, Polymod, Ending, TextOf, Rank, Expands, Spells;
    var text := HrpExpanded(hrp) + WordsOf(data);
    var target := Constant(encoding);
    EndingExists(text, target);
    var ending := FromWords(Ending(text, target));
    FromWordsRoundTrip(Ending(text, target));
    WordsAppend(data, ending);
    TextIsSpelled(data + ending);
    var full := EncodedText(hrp, data, encoding);
    assert full == hrp + "1" + TextOf(data + ending);
    assert full[..|hrp|] == hrp && full[|hrp| + 1..] == TextOf(data + ending);
    ExpansionExpands(hrp);
    var words := WordsOf(data + ending);
    assert HrpExpanded(hrp) + words == text + Ending(text, target);
    P.PolymodIsRemainder(HrpExpanded(hrp) + words);
    forall i | 0 <= i < |data| ensures words[i] as int == data[i] {
      assert (data + ending)[i] == data[i];
      WordIs(data[i]);
    }
  }

  lemma Bech32IsEncoded(text: string, hrp: string, data: seq<int>, encoding: Encoding)
    requires IsBech32(text, hrp, data, Constant(encoding))
    ensures AreSymbols(data) && text == EncodedText(hrp, data, encoding)
  {
    hide HrpExpanded, ToWord, IsSymbol, Constant, Polymod, Ending, TextOf, Rank, Expands, Spells, P.Coefficients;
    var target := Constant(encoding);
    var values: seq<Word>, words: seq<Word> :| Expands(hrp, values) && Spells(words, text[|hrp| + 1..])
      && |words| == |data| + 6 && (forall i :: 0 <= i < |data| ==> words[i] as int == data[i])
      && P.Remainder(values + words) == P.Coefficients(target);
    var chars := text[|hrp| + 1..];
    ExpansionExpands(hrp);
    ExpansionIsOne(hrp, values, HrpExpanded(hrp));
    SpelledIsText(words, chars);
    SpelledLength(words, chars);
    FrontIsData(words, data);
    P.PolymodIsRemainder(values + words);
    P.CoefficientsDetermine(C.Polymod(values + words), target);
    LastSixAreTheEnding(hrp, data, words, target);
    FromWordsSplits(words, |data|);
    assert text == hrp + "1" + chars;
  }

  lemma FrontIsData(words: seq<Word>, data: seq<int>)
    requires Symbols(words) && AreSymbols(FromWords(words)) && |data| <= |words|
    requires forall i :: 0 <= i < |data| ==> words[i] as int == data[i]
    ensures FromWords(words)[..|data|] == data && AreSymbols(data)
  {
    hide IsSymbol;
    var all := FromWords(words);
    assert all[..|data|] == data;
    forall i | 0 <= i < |data| ensures 0 <= data[i] < 32 {
      assert data[i] == all[i];
    }
  }

  lemma FromWordsSplits(words: seq<Word>, n: nat)
    requires Symbols(words) && n <= |words|
    ensures Symbols(words[n..]) && FromWords(words) == FromWords(words)[..n] + FromWords(words[n..])
  {
  }

  /** Symbols that give the checksum are the data and its ending. */
  lemma LastSixAreTheEnding(hrp: string, data: seq<int>, words: seq<Word>, target: Word)
    requires Symbols(words) && |words| == |data| + 6 && FromWords(words)[..|data|] == data && AreSymbols(data)
    requires C.Polymod(HrpExpanded(hrp) + words) == target
    ensures words[|data|..] == Ending(HrpExpanded(hrp) + WordsOf(data), target)
  {
    hide HrpExpanded, ToWord, IsSymbol, C.Polymod, Ending;
    var (n, all) := (|data|, FromWords(words));
    FromWordsRoundTrip(words);
    assert data + all[n..] == all;
    WordsAppend(data, all[n..]);
    assert words == WordsOf(data) + words[n..];
    var front := HrpExpanded(hrp) + WordsOf(data);
    assert HrpExpanded(hrp) + words == front + words[n..];
    EndingIsUnique(front, target, words[n..]);
  }

  lemma SpelledLength(words: seq<Word>, chars: string)
    requires Spells(words, chars)
    ensures |words| == |chars|
  {
  }

  /** What is written by BIP-173 or BIP-350, by whoever, is read back. */
  lemma WrittenIsRead(text: string, hrp: string, data: seq<int>, encoding: Encoding)
    requires |hrp| >= 1 && IsBech32(text, hrp, data, if encoding == Bech32 then 1 else 0x2bc830a3)
    ensures ReadLower(text) == Ok(Decoded(hrp, data, encoding))
  {
    hide IsBech32, EncodedText, ReadLower;
    Bech32IsEncoded(text, hrp, data, encoding);
    EncodedIsRead(hrp, data, encoding);
  }

  /** What is read was written so, by the remainder 1 of BIP-173 or 0x2bc830a3 of BIP-350. */
  lemma ReadIsWritten(text: string)
    requires ReadLower(text).Ok?
    ensures var d := ReadLower(text).value;
      |d.hrp| >= 1 && IsBech32(text, d.hrp, d.data, if d.encoding == Bech32 then 1 else 0x2bc830a3)
  {
    hide IsBech32, EncodedText, ReadLower;
    ReadIsEncoded(text);
    var d := ReadLower(text).value;
    EncodedIsBech32(d.hrp, d.data, d.encoding);
  }

  /** The last 1, after a prefix and before six symbols or more. */
  predicate IsSeparator(text: string, i: nat) { 1 <= i && i + 7 <= |text| && text[i] == '1' && '1' !in text[i + 1..] }

  lemma SeparatorIsLast(text: string, i: nat)
    requires IsSeparator(text, i)
    ensures LastIndexOf(text, '1') == i
  {
    assert forall j :: i < j < |text| ==> text[j] == text[i + 1..][j - i - 1];
  }

  lemma LastIsSeparator(text: string)
    ensures var last := LastIndexOf(text, '1');
      1 <= last && last + 7 <= |text| ==> IsSeparator(text, last)
  {
  }

  lemma NoSymbol(c: char)
    ensures SymbolOf(c) == -1 <==> Rank(c) < 0
  {
    if Rank(c) >= 0 {
      RankDetermines(c);
      assert CHARSET[Rank(c)] == c;
    }
    if SymbolOf(c) >= 0 {
      RankInCharset(SymbolOf(c));
    }
  }

  /** Why a text is not read: no separator, a character that is no symbol, or a remainder that is neither constant. */
  lemma ReadIsRefused(text: string, i: nat)
    ensures ReadLower(text) == Err(InvalidAddress) <==> forall k: nat :: !IsSeparator(text, k)
    ensures IsSeparator(text, i) && ReadLower(text).Err? ==>
      ReadLower(text).error
      == if exists j :: i < j < |text| && Rank(text[j]) < 0 then InvalidCharacter else InvalidChecksum
  {
    hide EncodingOf, C.Polymod, HrpExpanded, WordsOf, LastIndexOf, SymbolOf, Rank;
    LastIsSeparator(text);
    forall k: nat | IsSeparator(text, k) ensures LastIndexOf(text, '1') == k {
      SeparatorIsLast(text, k);
    }
    forall c ensures SymbolOf(c) == -1 <==> Rank(c) < 0 {
      NoSymbol(c);
    }
    if IsSeparator(text, i) {
      assert forall j :: i < j < |text| ==> text[j] == text[i + 1..][j - i - 1];
    }
  }

  // ----- Scripts -----

  predicate AreOctets(s: seq<int>) {
    forall i :: 0 <= i < |s| ==> 0 <= s[i] < 256
  }

  /** The scripts the gateway burns for: version 0 with 20 or 32 bytes, or version 1 with 32. */
  predicate IsWitnessScript(s: seq<int>) {
    AreOctets(s) && G.IsAllowedDestinationScript(s)
  }

  lemma PowersOfTwo()
    ensures B.Pow2(5) == 32 && B.Pow2(8) == 256
  {
    assert B.Pow2(2) == 4;
    assert B.Pow2(4) == 16;
    assert B.Pow2(6) == 64;
  }

  function SymbolsOfProgram(program: seq<int>): (d: seq<int>)
    requires AreOctets(program)
    ensures AreSymbols(d)
    ensures B.Regroup(program, 8, 5, true) == B.Values(d)
    ensures B.Regroup(d, 5, 8, false) == B.Values(program)
  {
    PowersOfTwo();
    B.PaddedIsRecovered(program, 8, 5);
    B.Regroup(program, 8, 5, true).values
  }

  /** The lower-case signet address of a script, by BIP-173 (version 0) and BIP-350 (version 1). */
  function AddressOf(s: seq<int>): string
    requires IsWitnessScript(s)
  {
    if s[0] == 0 then EncodedText("tb", [0] + SymbolsOfProgram(s[2..]), Bech32)
    else EncodedText("tb", [1] + SymbolsOfProgram(s[2..]), Bech32m)
  }

  lemma AddressReads(s: seq<int>)
    requires IsWitnessScript(s)
    ensures ReadLower(AddressOf(s)).Ok?
    ensures var d := ReadLower(AddressOf(s)).value; WitnessOf(d).Ok? && ScriptOf(WitnessOf(d).value) == Ok(s)
  {
    hide ReadLower, EncodedText, SymbolsOfProgram, B.Regroup, B.Pow2, B.InRange;
    var program := s[2..];
    var d := SymbolsOfProgram(program);
    var version := if s[0] == 0 then 0 else 1;
    var encoding := if s[0] == 0 then Bech32 else Bech32m;
    EncodedIsRead("tb", [version] + d, encoding);
    assert ([version] + d)[1..] == d;
    assert s == [s[0], s[1]] + program;
  }

  lemma ReadsAsAddress(d: Decoded)
    requires AreSymbols(d.data) && |d.hrp| >= 1
    requires WitnessOf(d).Ok? && ScriptOf(WitnessOf(d).value).Ok?
    ensures var s := ScriptOf(WitnessOf(d).value).value;
      IsWitnessScript(s) && EncodedText(d.hrp, d.data, d.encoding) == AddressOf(s)
  {
    hide EncodedText, B.Regroup, B.Pow2;
    var symbols := d.data[1..];
    B.AcceptedIsRecovered(symbols, 5, 8);
    PowersOfTwo();
    var program := B.Regroup(symbols, 5, 8, false).values;
    var s := ScriptOf(WitnessOf(d).value).value;
    assert s[2..] == program;
    assert AreOctets(s);
    assert SymbolsOfProgram(program) == symbols;
    assert d.data == [d.data[0]] + symbols;
  }

  /**
    BIP-173 and BIP-350 for signet: the prefix tb, the version, and the program in symbols, as many as
    its bits need, which spell it with zeros after it.
   */
  ghost predicate IsAddressOf(text: string, s: seq<int>)
    requires |s| >= 2 && B.InRange(s[2..], 8)
  {
    exists symbols: seq<int> ::
      && B.InRange(symbols, 5) && 8 * |s[2..]| <= 5 * |symbols| < 8 * |s[2..]| + 5
      && S.SpellsTheSame(symbols, 5, s[2..], 8)
      && IsBech32(text, "tb", [if s[0] == 0 then 0 else 1] + symbols, if s[0] == 0 then 1 else 0x2bc830a3)
  }

  lemma OctetsAreInRange(s: seq<int>)
    ensures AreOctets(s) <==> B.InRange(s, 8)
    ensures AreSymbols(s) <==> B.InRange(s, 5)
  {
    hide B.Pow2;
    PowersOfTwo();
  }

  lemma AddressIsItsAddress(s: seq<int>)
    requires IsWitnessScript(s) && B.InRange(s[2..], 8)
    ensures IsAddressOf(AddressOf(s), s)
  {
    hide B.Pow2, B.InRange, B.Regroup, IsBech32, EncodedText, S.SpellsTheSame;
    var (program, symbols) := (s[2..], SymbolsOfProgram(s[2..]));
    OctetsAreInRange(program);
    OctetsAreInRange(symbols);
    S.PaddedKeepsBits(program, 8, 5);
    if s[0] == 0 {
      WordsBefore(0, symbols);
      EncodedIsBech32("tb", [0] + symbols, Bech32);
    } else {
      WordsBefore(1, symbols);
      EncodedIsBech32("tb", [1] + symbols, Bech32m);
    }
  }

  lemma WordsBefore(version: int, symbols: seq<int>)
    requires 0 <= version < 32 && AreSymbols(symbols)
    ensures AreSymbols([version] + symbols)
  {
  }

  /** A script has one address. */
  lemma AddressIsOne(text: string, s: seq<int>)
    requires IsWitnessScript(s) && B.InRange(s[2..], 8) && IsAddressOf(text, s)
    ensures text == AddressOf(s)
  {
    hide B.Pow2, B.InRange, B.Regroup, IsBech32, EncodedText;
    var (program, known) := (s[2..], SymbolsOfProgram(s[2..]));
    OctetsAreInRange(program);
    OctetsAreInRange(known);
    S.PaddedKeepsBits(program, 8, 5);
    var symbols: seq<int> :| B.InRange(symbols, 5) && 8 * |program| <= 5 * |symbols| < 8 * |program| + 5
      && S.SpellsTheSame(symbols, 5, program, 8)
      && IsBech32(text, "tb", [if s[0] == 0 then 0 else 1] + symbols, if s[0] == 0 then 1 else 0x2bc830a3);
    S.SpellingDetermines(symbols, known, 5);
    Bech32IsEncoded(text, "tb", [if s[0] == 0 then 0 else 1] + symbols, if s[0] == 0 then Bech32 else Bech32m);
  }

  /**
    Decoding accepts a script's own address, in one letter case, and nothing else: so it is
    one-to-one up to letter case, and onto the scripts of the gateway.
   */
  lemma DecodesExactlyItsAddress(casing: Casing, address: string, s: seq<int>)
    ensures SignetAddressToScriptPubKey(casing, address) == Ok(s)
       <==> && ((|s| == 22 && s[..2] == [0, 20]) || (|s| == 34 && s[..2] == [0, 32])
                || (|s| == 34 && s[..2] == [0x51, 32]))
            && (address == casing.lower(address) || address == casing.upper(address))
            && B.InRange(s[2..], 8) && IsAddressOf(casing.lower(address), s)
  {
    hide ReadLower, WitnessOf, ScriptOf, AddressOf, EncodedText, IsAddressOf, IsWitnessScript, B.InRange;
    var normalized := casing.lower(address);
    WitnessScriptIs(s);
    if SignetAddressToScriptPubKey(casing, address) == Ok(s) {
      ReadIsEncoded(normalized);
      ReadsAsAddress(ReadLower(normalized).value);
      AddressIsItsAddress(s);
    }
    if IsWitnessScript(s) && IsAddressOf(normalized, s) {
      AddressIsOne(normalized, s);
      AddressReads(s);
    }
  }

  lemma WitnessScriptIs(s: seq<int>)
    ensures IsWitnessScript(s)
        <==> && ((|s| == 22 && s[..2] == [0, 20]) || (|s| == 34 && s[..2] == [0, 32])
                 || (|s| == 34 && s[..2] == [0x51, 32]))
             && B.InRange(s[2..], 8)
  {
    if |s| >= 2 {
      OctetsAreInRange(s[2..]);
      assert s == s[..2] + s[2..] && s[..2] == [s[0], s[1]];
    }
  }

  /** And every script the gateway accepts has exactly one address. */
  lemma EveryScriptHasOneAddress(s: seq<int>)
    requires IsWitnessScript(s)
    ensures B.InRange(s[2..], 8)
    ensures exists text :: IsAddressOf(text, s) && forall other :: IsAddressOf(other, s) ==> other == text
  {
    hide AddressOf, IsAddressOf, IsWitnessScript, B.InRange;
    WitnessScriptIs(s);
    AddressIsItsAddress(s);
    forall other | IsAddressOf(other, s) ensures other == AddressOf(s) {
      AddressIsOne(other, s);
    }
  }

  /** Two addresses of one encoding that differ within six neighbouring characters are not both valid. */
  lemma MistypedAddressIsRejected(a: string, b: string, i: nat, k: nat)
    requires ReadLower(a).Ok? && ReadLower(b).Ok? && |a| == |b|
    requires ReadLower(a).value.hrp == ReadLower(b).value.hrp
    requires ReadLower(a).value.encoding == ReadLower(b).value.encoding
    requires k <= 6 && |ReadLower(a).value.hrp| < i <= i + k <= |a|
    requires a[..i] == b[..i] && a[i + k..] == b[i + k..]
    ensures a == b
  {
    hide ReadLower, HrpExpanded, SymbolOf, ToWord, IsSymbol, Constant, Polymod, InCharset, WordsOf, SymbolsOf;
    var n := |ReadLower(a).value.hrp| + 1;
    var (x, y) := (a[n..], b[n..]);
    ReadParts(a);
    ReadParts(b);
    var (p, q) := (WordsOf(SymbolsOf(x)), WordsOf(SymbolsOf(y)));
    WordsRoundTrip(SymbolsOf(x));
    WordsRoundTrip(SymbolsOf(y));
    var hrp := HrpExpanded(ReadLower(a).value.hrp);
    var j := i - n;
    SameWindows(a, b, n, j, k);
    assert hrp + p == hrp + p[..j] + p[j..j + k] + p[j + k..];
    assert hrp + q == hrp + p[..j] + q[j..j + k] + p[j + k..];
    SlicesAreSymbols(p, j, k);
    SlicesAreSymbols(q, j, k);
    BurstIsDetected(hrp + p[..j], p[j..j + k], q[j..j + k], p[j + k..]);
    assert p == p[..j] + p[j..j + k] + p[j + k..];
    assert q == p[..j] + q[j..j + k] + p[j + k..];
    assert a == a[..n] + x && b == b[..n] + y;
    SymbolsRoundTrip(x);
    SymbolsRoundTrip(y);
    assert a[..n] == a[..i][..n] && b[..n] == b[..i][..n];
  }

  lemma SlicesAreSymbols(words: seq<Word>, j: nat, k: nat)
    requires Symbols(words) && j + k <= |words|
    ensures Symbols(words[j..j + k])
  {
  }

  lemma ReadParts(a: string)
    requires ReadLower(a).Ok?
    ensures var d := ReadLower(a).value; var n := |d.hrp| + 1;
      && n <= |a| && InCharset(a[n..]) && AreSymbols(SymbolsOf(a[n..]))
      && Polymod(HrpExpanded(d.hrp) + WordsOf(SymbolsOf(a[n..]))) == Constant(d.encoding)
  {
    hide HrpExpanded, SymbolOf, ToWord, EncodingOf, Constant, Polymod, InCharset, LastIndexOf, WordsOf;
    var separator := LastIndexOf(a, '1');
    SymbolsRoundTrip(a[separator + 1..]);
    var d := ReadLower(a).value;
    EncodingMeansConstant(Polymod(HrpExpanded(d.hrp) + WordsOf(SymbolsOf(a[separator + 1..]))), d.encoding);
  }

  lemma SameWindows(a: string, b: string, n: nat, j: nat, k: nat)
    requires |a| == |b| && n + j + k <= |a|
    requires AreSymbols(SymbolsOf(a[n..])) && AreSymbols(SymbolsOf(b[n..]))
    requires a[..n + j] == b[..n + j] && a[n + j + k..] == b[n + j + k..]
    ensures WordsOf(SymbolsOf(a[n..]))[..j] == WordsOf(SymbolsOf(b[n..]))[..j]
    ensures WordsOf(SymbolsOf(a[n..]))[j + k..] == WordsOf(SymbolsOf(b[n..]))[j + k..]
  {
    hide SymbolOf, ToWord;
    forall m | 0 <= m < j ensures a[n..][m] == b[n..][m] {
      assert a[..n + j][n + m] == b[..n + j][n + m];
    }
    forall m | j + k <= m < |a| - n ensures a[n..][m] == b[n..][m] {
      assert a[n + j + k..][m - j - k] == b[n + j + k..][m - j - k];
    }
  }
}
