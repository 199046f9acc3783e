/** The textual form of JSON paths: the parser, a canonical renderer, and their round trip. */
module JsonPathText {
  import opened Wrappers
  import opened JsonPaths

  const USIZE_MAX: nat := 0xFFFF_FFFF_FFFF_FFFF

  /** The platform's notion of an alphanumeric character. */
  type CharClass = char -> bool

  predicate NameChar(c: char, alnum: CharClass) {
    alnum(c) || c == '_' || c == '-'
  }

  predicate Digit(c: char) { '0' <= c <= '9' }

  /** No delimiter of the path syntax is alphanumeric. */
  ghost predicate Sane(alnum: CharClass) {
    !alnum('.') && !alnum('[')
  }

  // ---- scanning ----

  /** The position of the first `c`, or the length of the text. */
  function Find(text: string, c: char): (i: nat)
    ensures i <= |text| && c !in text[..i] && (i < |text| ==> text[i] == c)
  {
    if text == [] || text[0] == c then 0
    else
      var rest := Find(text[1..], c);
      assert text[..rest + 1] == [text[0]] + text[1..][..rest];
      rest + 1
  }

  function Split(text: string, c: char): seq<string>
    decreases |text|
  {
    var i := Find(text, c);
    if i == |text| then [text] else [text[..i]] + Split(text[i + 1..], c)
  }

  function Join(parts: seq<string>, c: char): string
    requires parts != []
  {
    if |parts| == 1 then parts[0] else parts[0] + [c] + Join(parts[1..], c)
  }

  lemma FindIn(a: string, c: char, b: string)
    requires c !in a
    ensures Find(a + [c] + b, c) == |a| && Find(a, c) == |a|
  {
    var text := a + [c] + b;
    assert text[|a|] == c && text[..|a|] == a;
    FindUnique(text, c, |a|);
    assert a[..|a|] == a;
    FindUnique(a, c, |a|);
  }

  lemma {:induction false} FindUnique(text: string, c: char, i: nat)
    requires i <= |text| && c !in text[..i] && (i < |text| ==> text[i] == c)
    ensures Find(text, c) == i
  {
    if i > 0 {
      assert text[0] == text[..i][0] && text[1..][..i - 1] == text[..i][1..];
      FindUnique(text[1..], c, i - 1);
    }
  }

  lemma {:induction false} SplitJoin(parts: seq<string>, c: char)
    requires parts != [] && forall i :: 0 <= i < |parts| ==> c !in parts[i]
    ensures Split(Join(parts, c), c) == parts
  {
    if |parts| == 1 {
      FindIn(parts[0], c, []);
    } else {
      var rest := Join(parts[1..], c);
      var text := parts[0] + [c] + rest;
      FindIn(parts[0], c, rest);
      assert text[..|parts[0]|] == parts[0] && text[|parts[0]| + 1..] == rest;
      SplitJoin(parts[1..], c);
    }
  }

  // ---- numbers ----

  function DigitValue(c: char): nat
    requires Digit(c)
  {
    c as int - '0' as int
  }

  /** The value of a digit string; leading zeros are allowed. */
  function Value(digits: string): nat
    requires forall i :: 0 <= i < |digits| ==> Digit(digits[i])
  {
    if digits == [] then 0 else Value(digits[..|digits| - 1]) * 10 + DigitValue(digits[|digits| - 1])
  }

  function Decimal(n: nat): (digits: string)
    ensures digits != [] && forall i :: 0 <= i < |digits| ==> Digit(digits[i])
  {
    var last := ('0' as int + n % 10) as char;
    if n < 10 then [last] else Decimal(n / 10) + [last]
  }

  lemma {:induction false} ValueDecimal(n: nat)
    ensures Value(Decimal(n)) == n
  {
    var digits := Decimal(n);
    if n >= 10 {
      ValueDecimal(n / 10);
      assert digits[..|digits| - 1] == Decimal(n / 10);
    } else {
      assert digits[..0] == [];
    }
  }

  // ---- parsing ----

  /** What follows the name of a segment: any number of bracketed indexes. */
  /** The number in the bracket at the front, and the text behind the bracket. */
  function Bracket(rest: string): (r: Result<(nat, string), PathError>)
    requires rest != []
    ensures r.Ok? ==> |r.value.1| < |rest|
  {
    if rest[0] != '[' then Err(InvalidSegment)
    else
      var inner := rest[1..];
      var close := Find(inner, ']');
      if close == |inner| then Err(InvalidIndex)
      else if close == 0 || exists i :: 0 <= i < close && !Digit(inner[i]) then Err(InvalidIndex)
      else
        var digits := inner[..close];
        if Value(digits) > USIZE_MAX then Err(InvalidIndex) else Ok((Value(digits), inner[close + 1..]))
  }

  function ParseIndexes(rest: string): Result<seq<nat>, PathError>
    decreases |rest|
  {
    if rest == [] then Ok([])
    else
      match Bracket(rest)
      case Err(e) => Err(e)
      case Ok(next) =>
        match ParseIndexes(next.1)
        case Ok(more) => Ok([next.0] + more)
        case Err(e) => Err(e)
  }

  function ParseSegment(text: string, alnum: CharClass): Result<Segment, PathError> {
    var nameEnd := Find(text, '[');
    if nameEnd == 0 || exists i :: 0 <= i < nameEnd && !NameChar(text[i], alnum) then Err(InvalidSegment)
    else
      match ParseIndexes(text[nameEnd..])
      case Ok(indexes) => Ok(Segment(text[..nameEnd], indexes))
      case Err(e) => Err(e)
  }

  /** All segments, or the first error. */
  function ParseAll(parts: seq<string>, alnum: CharClass): Result<seq<Segment>, PathError> {
    if parts == [] then Ok([])
    else
      match ParseSegment(parts[0], alnum)
      case Err(e) => Err(e)
      case Ok(first) =>
        match ParseAll(parts[1..], alnum)
        case Err(e) => Err(e)
        case Ok(more) => Ok([first] + more)
  }

  function Parse(text: string, alnum: CharClass): Result<JsonPath, PathError> {
    if !("$." <= text) then Err(MissingRoot)
    else if text[2..] == [] then Err(Empty)
    else
      match ParseAll(Split(text[2..], '.'), alnum)
      case Ok(segments) => Ok(JsonPath(segments))
      case Err(e) => Err(e)
  }

  /** The two errors about the root: it is missing, or nothing follows it. */
  lemma RootErrors(text: string, alnum: CharClass)
    ensures Parse(text, alnum) == Err(MissingRoot) <==> |text| < 2 || text[0] != '$' || text[1] != '.'
    ensures Parse(text, alnum) == Err(Empty) <==> text == "$."
  {
    hide Find, Split, ParseSegment;
    if |text| >= 2 && text[0] == '$' && text[1] == '.' {
      assert "$." <= text && text == "$." + text[2..];
      OtherErrors(Split(text[2..], '.'), alnum);
    }
  }

  lemma {:induction false} OtherErrors(parts: seq<string>, alnum: CharClass)
    ensures ParseAll(parts, alnum).Err? ==> ParseAll(parts, alnum).error in {InvalidSegment, InvalidIndex}
  {
    if parts != [] {
      IndexErrors(parts[0][Find(parts[0], '[')..]);
      OtherErrors(parts[1..], alnum);
    }
  }

  lemma {:induction false} IndexErrors(rest: string)
    ensures ParseIndexes(rest).Err? ==> ParseIndexes(rest).error in {InvalidSegment, InvalidIndex}
    decreases |rest|
  {
    hide Digit, Value;
    if rest != [] && Bracket(rest).Ok? {
      IndexErrors(Bracket(rest).value.1);
    }
  }

  /** What the rest of the text yields behind the indexes read so far. */
  function Behind(indexes: seq<nat>, rest: Result<seq<nat>, PathError>): Result<seq<nat>, PathError> {
    match rest
    case Ok(more) => Ok(indexes + more)
    case Err(e) => Err(e)
  }

  lemma BehindNothing(rest: Result<seq<nat>, PathError>)
    ensures Behind([], rest) == rest
  {
    if rest.Ok? {
      assert [] + rest.value == rest.value;
    }
  }

  lemma NoIndex(indexes: seq<nat>)
    ensures Behind(indexes, ParseIndexes([])) == Ok(indexes)
  {
    assert indexes + [] == indexes;
  }

  /** One bracket: an index, or the error that ends the segment. */
  lemma NextIndex(indexes: seq<nat>, rest: string)
    requires rest != []
    ensures ParseIndexes(rest).Ok? <==> Bracket(rest).Ok? && ParseIndexes(Bracket(rest).value.1).Ok?
    ensures Behind(indexes, ParseIndexes(rest)) ==
              match Bracket(rest)
              case Err(e) => Err(e)
              case Ok(next) => Behind(indexes + [next.0], ParseIndexes(next.1))
  {
    hide Digit, Value;
    if ParseIndexes(rest).Ok? {
      var (value, after) := Bracket(rest).value;
      var more := ParseIndexes(after).value;
      assert indexes + ([value] + more) == (indexes + [value]) + more;
    }
  }

  /** The loop over the remaining text that reads one segment. */
  method ReadSegment(text: string, alnum: CharClass) returns (r: Result<Segment, PathError>)
    ensures r == ParseSegment(text, alnum)
  {
    hide NameChar, Digit, Value, ParseIndexes;
    var nameEnd := Find(text, '[');
    if nameEnd == 0 || exists i :: 0 <= i < nameEnd && !NameChar(text[i], alnum) {
      return Err(InvalidSegment);
    }
    var indexes: seq<nat> := [];
    var rest := text[nameEnd..];
    BehindNothing(ParseIndexes(rest));
    while rest != []
      invariant ParseIndexes(text[nameEnd..]) == Behind(indexes, ParseIndexes(rest))
      decreases |rest|
    {
      NextIndex(indexes, rest);
      if rest[0] != '[' {
        return Err(InvalidSegment);
      }
      var inner := rest[1..];
      var close := Find(inner, ']');
      if close == |inner| {
        return Err(InvalidIndex);
      }
      if close == 0 || exists i :: 0 <= i < close && !Digit(inner[i]) {
        return Err(InvalidIndex);
      }
      var value := Value(inner[..close]);
      if value > USIZE_MAX {
        return Err(InvalidIndex);
      }
      indexes := indexes + [value];
      rest := inner[close + 1..];
    }
    NoIndex(indexes);
    return Ok(Segment(text[..nameEnd], indexes));
  }

  // ---- rendering ----

  ghost predicate ValidSegment(s: Segment, alnum: CharClass) {
    && s.name != [] && (forall i :: 0 <= i < |s.name| ==> NameChar(s.name[i], alnum))
    && (forall i :: 0 <= i < |s.indexes| ==> s.indexes[i] <= USIZE_MAX)
  }

  ghost predicate ValidPath(p: JsonPath, alnum: CharClass) {
    p.segments != [] && forall i :: 0 <= i < |p.segments| ==> ValidSegment(p.segments[i], alnum)
  }

  function RenderIndexes(indexes: seq<nat>): string {
    if indexes == [] then [] else "[" + Decimal(indexes[0]) + "]" + RenderIndexes(indexes[1..])
  }

  function RenderSegment(s: Segment): string {
    s.name + RenderIndexes(s.indexes)
  }

  function RenderAll(segments: seq<Segment>): (parts: seq<string>)
    ensures |parts| == |segments|
  {
    seq(|segments|, i requires 0 <= i < |segments| => RenderSegment(segments[i]))
  }

  /** The canonical text of a path. */
  function Render(p: JsonPath): string
    requires p.segments != []
  {
    "$." + Join(RenderAll(p.segments), '.')
  }

  lemma ParseOneIndex(digits: string, more: string)
    requires digits != [] && forall i :: 0 <= i < |digits| ==> Digit(digits[i])
    ensures ParseIndexes("[" + digits + "]" + more) ==
            if Value(digits) > USIZE_MAX then Err(InvalidIndex)
            else
              match ParseIndexes(more)
              case Ok(rest) => Ok([Value(digits)] + rest)
              case Err(e) => Err(e)
  {
    hide Value;
    var text := "[" + digits + "]" + more;
    assert ']' !in digits;
    FindIn(digits, ']', more);
    assert text[1..] == digits + [']'] + more;
    assert text[1..][..|digits|] == digits && text[1..][|digits| + 1..] == more;
    assert forall i :: 0 <= i < |digits| ==> text[1..][i] == digits[i];
  }

  lemma RenderHead(indexes: seq<nat>)
    requires indexes != []
    ensures RenderIndexes(indexes) == "[" + Decimal(indexes[0]) + "]" + RenderIndexes(indexes[1..])
  {
    hide Decimal;
  }

  lemma {:induction false} IndexesRoundTrip(indexes: seq<nat>)
    requires forall i :: 0 <= i < |indexes| ==> indexes[i] <= USIZE_MAX
    ensures ParseIndexes(RenderIndexes(indexes)) == Ok(indexes)
  {
    if indexes != [] {
      hide Value, Decimal, Find, ParseIndexes, RenderIndexes;
      RenderHead(indexes);
      ParseOneIndex(Decimal(indexes[0]), RenderIndexes(indexes[1..]));
      ValueDecimal(indexes[0]);
      IndexesRoundTrip(indexes[1..]);
      assert [indexes[0]] + indexes[1..] == indexes;
    }
  }

  lemma {:induction false} IndexesShape(indexes: seq<nat>)
    ensures '.' !in RenderIndexes(indexes)
    ensures indexes != [] ==> RenderIndexes(indexes) != [] && RenderIndexes(indexes)[0] == '['
  {
    if indexes != [] {
      hide Decimal;
      IndexesShape(indexes[1..]);
      assert '.' !in Decimal(indexes[0]);
    }
  }

  lemma SegmentRoundTrip(s: Segment, alnum: CharClass)
    requires Sane(alnum) && ValidSegment(s, alnum)
    ensures ParseSegment(RenderSegment(s), alnum) == Ok(s)
    ensures '.' !in RenderSegment(s)
  {
    hide ParseIndexes;
    var tail := RenderIndexes(s.indexes);
    IndexesRoundTrip(s.indexes);
    IndexesShape(s.indexes);
    assert '[' !in s.name;
    if tail == [] {
      assert s.name + tail == s.name;
      FindIn(s.name, '[', []);
    } else {
      assert s.name + tail == s.name + ['['] + tail[1..];
      FindIn(s.name, '[', tail[1..]);
    }
    assert RenderSegment(s)[..|s.name|] == s.name && RenderSegment(s)[|s.name|..] == tail;
  }

  lemma {:induction false} AllRoundTrip(segments: seq<Segment>, alnum: CharClass)
    requires Sane(alnum) && forall i :: 0 <= i < |segments| ==> ValidSegment(segments[i], alnum)
    ensures ParseAll(RenderAll(segments), alnum) == Ok(segments)
    ensures forall i :: 0 <= i < |segments| ==> '.' !in RenderAll(segments)[i]
  {
    hide ParseSegment, RenderSegment;
    if segments != [] {
      SegmentRoundTrip(segments[0], alnum);
      AllRoundTrip(segments[1..], alnum);
      var parts := RenderAll(segments);
      assert parts == [RenderSegment(segments[0])] + RenderAll(segments[1..]);
      assert parts[1..] == RenderAll(segments[1..]);
      assert segments == [segments[0]] + segments[1..];
    }
  }

  /** Every well-formed path parses back from its canonical text. */
  lemma RoundTrip(p: JsonPath, alnum: CharClass)
    requires Sane(alnum) && ValidPath(p, alnum)
    ensures Parse(Render(p), alnum) == Ok(p)
  {
    var parts := RenderAll(p.segments);
    AllRoundTrip(p.segments, alnum);
    SplitJoin(parts, '.');
    var body := Join(parts, '.');
    assert Render(p)[2..] == body;
    assert parts[0] != [] by {
      assert parts[0] == p.segments[0].name + RenderIndexes(p.segments[0].indexes);
    }
    assert |body| >= |parts[0]|;
  }

  lemma {:induction false} ParsedIndexesValid(rest: string)
    ensures ParseIndexes(rest).Ok? ==>
              forall i :: 0 <= i < |ParseIndexes(rest).value| ==> ParseIndexes(rest).value[i] <= USIZE_MAX
    decreases |rest|
  {
    if rest != [] && rest[0] == '[' {
      var inner := rest[1..];
      var close := Find(inner, ']');
      if close < |inner| {
        ParsedIndexesValid(inner[close + 1..]);
      }
    }
  }

  lemma {:induction false} ParsedAllValid(parts: seq<string>, alnum: CharClass)
    requires ParseAll(parts, alnum).Ok?
    ensures |ParseAll(parts, alnum).value| == |parts|
    ensures forall i :: 0 <= i < |parts| ==> ValidSegment(ParseAll(parts, alnum).value[i], alnum)
  {
    if parts != [] {
      ParsedAllValid(parts[1..], alnum);
      ParsedIndexesValid(parts[0][Find(parts[0], '[')..]);
    }
  }

  /** Every accepted text denotes a well-formed path, and its canonical text denotes the same path. */
  lemma AcceptedTextRoundTrip(text: string, alnum: CharClass)
    requires Sane(alnum) && Parse(text, alnum).Ok?
    ensures ValidPath(Parse(text, alnum).value, alnum)
    ensures Parse(Render(Parse(text, alnum).value), alnum) == Parse(text, alnum)
  {
    ParsedAllValid(Split(text[2..], '.'), alnum);
    RoundTrip(Parse(text, alnum).value, alnum);
  }
}
