/** The comma-insertion scanner for embedded member fragments.

    Text is a sequence of characters. The program works on UTF-8 bytes, but every
    byte of a non-ASCII character takes the scanner's default branch, as the
    character itself does here. */
module MemberCommas {
  import opened Wrappers

  const MAX_DEPTH: nat := 0xFFFF_FFFF

  predicate AsciiWhitespace(c: char) {
    c == ' ' || c == '\t' || c == '\n' || c == '\r' || c == '\U{0C}'
  }

  /** The characters a JSON value can end with. */
  predicate Closer(c: char) {
    c == '}' || c == ']' || c == '"' || '0' <= c <= '9' || c == 'e' || c == 'l'
  }

  /** The last character that is not whitespace. */
  function LastVisible(text: string): Option<char> {
    if text == "" then None
    else if AsciiWhitespace(text[|text| - 1]) then LastVisible(text[..|text| - 1])
    else Some(text[|text| - 1])
  }

  // ----- the scanner as a one-character transducer -----

  /** `gap` holds just after whitespace outside strings and brackets; `last` is
      the last character written that is not whitespace. */
  datatype Scan = Scan(depth: nat, inString: bool, escaped: bool, gap: bool, last: Option<char>)

  const START := Scan(0, false, false, false, None)

  function Visible(last: Option<char>, c: char): Option<char> {
    if AsciiWhitespace(c) then last else Some(c)
  }

  function Advance(s: Scan, c: char): Option<(Scan, string)> {
    var plain := s.(gap := false, last := Visible(s.last, c));
    if s.inString then
      Some((plain.(escaped := !s.escaped && c == '\\', inString := s.escaped || c != '"'), [c]))
    else if c == '"' then
      var quoted := plain.(inString := true);
      if !s.gap then Some((quoted, "\""))
      else if s.last.None? then None
      else Some((quoted, if Closer(s.last.value) then ",\"" else "\""))
    else if c == '{' || c == '[' then
      if s.depth == MAX_DEPTH then None else Some((plain.(depth := s.depth + 1), [c]))
    else if c == '}' || c == ']' then
      if s.depth == 0 then None else Some((plain.(depth := s.depth - 1), [c]))
    else
      Some((plain.(gap := AsciiWhitespace(c) && s.depth == 0), [c]))
  }

  /** A result with more output in front. */
  function Prefixed(first: string, result: Option<(Scan, string)>): Option<(Scan, string)> {
    match result
    case None => None
    case Some((end, rest)) => Some((end, first + rest))
  }

  function Feed(s: Scan, input: string): Option<(Scan, string)>
    decreases |input|
  {
    if input == "" then Some((s, ""))
    else if Advance(s, input[0]).None? then None
    else
      var (next, first) := Advance(s, input[0]).value;
      Prefixed(first, Feed(next, input[1..]))
  }

  /** Go on with `input` from an earlier result. */
  function Then(result: Option<(Scan, string)>, input: string): Option<(Scan, string)> {
    if result.None? then None else Prefixed(result.value.1, Feed(result.value.0, input))
  }

  function InsertCommas(input: string): Option<string> {
    match Feed(START, input)
    case None => None
    case Some((end, output)) => if end.inString || end.depth != 0 then None else Some(output)
  }

  /** Feeding a concatenation is feeding the parts one after the other. */
  lemma {:induction false} FeedAppend(s: Scan, a: string, b: string)
    ensures Feed(s, a + b) == Then(Feed(s, a), b)
    decreases |a|
  {
    if a == "" {
      assert a + b == b;
      if Feed(s, b).Some? {
        assert "" + Feed(s, b).value.1 == Feed(s, b).value.1;
      }
    } else {
      assert (a + b)[1..] == a[1..] + b;
      if Advance(s, a[0]).Some? {
        var (next, first) := Advance(s, a[0]).value;
        FeedAppend(next, a[1..], b);
        if Feed(next, a[1..]).Some? {
          var (middle, rest) := Feed(next, a[1..]).value;
          if Feed(middle, b).Some? {
            assert (first + rest) + Feed(middle, b).value.1 == first + (rest + Feed(middle, b).value.1);
          }
        }
      }
    }
  }

  lemma {:induction false} FeedSingle(s: Scan, c: char)
    ensures Feed(s, [c]) == Advance(s, c)
  {
    assert [c][1..] == "";
    if Advance(s, c).Some? {
      assert Advance(s, c).value.1 + "" == Advance(s, c).value.1;
    }
  }

  lemma {:induction false} FeedLast(s: Scan, text: string, c: char)
    ensures Feed(s, text).None? ==> Feed(s, text + [c]).None?
    ensures Feed(s, text).Some? ==>
              Feed(s, text + [c]) == Prefixed(Feed(s, text).value.1, Advance(Feed(s, text).value.0, c))
  {
    FeedAppend(s, text, [c]);
    if Feed(s, text).Some? {
      FeedSingle(Feed(s, text).value.0, c);
    }
  }

  // ----- the scanner loop -----

  lemma {:induction false} LastVisibleOfAppend(text: string, c: char)
    ensures LastVisible(text + [c]) == Visible(LastVisible(text), c)
  {
    assert (text + [c])[..|text|] == text;
  }

  /** The transducer is in state `s` with output `out` after `index` characters. */
  ghost predicate At(input: string, index: nat, s: Scan, out: string) {
    && index <= |input|
    && Feed(START, input[..index]) == Some((s, out))
    && s.last == LastVisible(out)
    && (s.inString ==> !s.gap)
    && (s.escaped ==> s.inString)
    && s.depth <= MAX_DEPTH
  }

  lemma {:induction false} Consume(input: string, index: nat, s: Scan, out: string)
    requires At(input, index, s, out) && index < |input|
    ensures Advance(s, input[index]).None? ==> InsertCommas(input).None?
    ensures Advance(s, input[index]).Some? ==>
              var (s', written) := Advance(s, input[index]).value;
              At(input, index + 1, s', out + written)
  {
    var c := input[index];
    assert input[..index + 1] == input[..index] + [c];
    FeedLast(START, input[..index], c);
    assert input == input[..index + 1] + input[index + 1..];
    FeedAppend(START, input[..index + 1], input[index + 1..]);
    if Advance(s, c).Some? {
      var written := Advance(s, c).value.1;
      if written == [c] {
        LastVisibleOfAppend(out, c);
      } else {
        LastVisibleOfAppend(out + ",", c);
        assert out + written == (out + ",") + [c];
      }
    }
  }

  /** A whitespace character outside strings and brackets is copied, and is a gap. */
  lemma {:induction false} ConsumeBlank(input: string, start: nat, index: nat, s: Scan, out: string, copied: string)
    returns (s': Scan)
    requires At(input, index, s, out) && start <= index < |input| && AsciiWhitespace(input[index])
    requires s.depth == 0 && !s.inString && out == copied + input[start..index]
    ensures At(input, index + 1, s', copied + input[start..index + 1])
    ensures s'.depth == 0 && !s'.inString && s'.gap
  {
    Consume(input, index, s, out);
    s' := Advance(s, input[index]).value.0;
    assert copied + input[start..index + 1] == out + [input[index]];
  }

  /** The inner loop: the end of a whitespace run outside strings and brackets. */
  method SkipBlankRun(input: string, start: nat, ghost s: Scan, ghost out: string)
    returns (index: nat, ghost s': Scan, ghost out': string)
    requires At(input, start, s, out)
    requires s.depth == 0 && !s.inString && start < |input| && AsciiWhitespace(input[start])
    ensures start < index <= |input|
    ensures At(input, index, s', out')
    ensures s'.depth == 0 && !s'.inString && !s'.escaped && s'.gap
    ensures out' == out + input[start..index]
    ensures index < |input| ==> !AsciiWhitespace(input[index])
  {
    index, s', out' := start, s, out;
    while index < |input| && AsciiWhitespace(input[index])
      invariant start <= index && At(input, index, s', out')
      invariant s'.depth == 0 && !s'.inString
      invariant index > start ==> s'.gap
      invariant out' == out + input[start..index]
    {
      s' := ConsumeBlank(input, start, index, s', out', out);
      index := index + 1;
      out' := out + input[start..index];
    }
  }

  /** The loop over the input. */
  method InsertTopLevelMemberCommas(input: string) returns (result: Option<string>)
    ensures result == InsertCommas(input)
  {
    var output: string := "";
    var index := 0;
    var depth: nat := 0;
    var inString := false;
    var escaped := false;
    // the transducer state and output, and whether its next comma is already written
    ghost var s, out, early := START, "", false;
    while index < |input|
      invariant At(input, index, s, out)
      invariant depth == s.depth && inString == s.inString && escaped == s.escaped
      invariant output == if early then out + "," else out
      invariant early ==> index < |input| && input[index] == '"' && s.gap && s.last.Some? && Closer(s.last.value)
      invariant !early && s.gap && index < |input| && input[index] == '"' ==> s.last.Some? && !Closer(s.last.value)
    {
      var c := input[index];
      Consume(input, index, s, out);
      if inString {
        output := output + [c];
        if escaped {
          escaped := false;
        } else if c == '\\' {
          escaped := true;
        } else if c == '"' {
          inString := false;
        }
        index := index + 1;
        s, out := Advance(s, c).value.0, out + Advance(s, c).value.1;
      } else if c == '"' {
        inString := true;
        output := output + [c];
        index := index + 1;
        assert early ==> (out + ",") + [c] == out + ",\"";
        s, out, early := Advance(s, c).value.0, out + Advance(s, c).value.1, false;
      } else if c == '{' || c == '[' {
        if depth == MAX_DEPTH {
          return None;
        }
        depth := depth + 1;
        output := output + [c];
        index := index + 1;
        s, out := Advance(s, c).value.0, out + Advance(s, c).value.1;
      } else if c == '}' || c == ']' {
        if depth == 0 {
          return None;
        }
        depth := depth - 1;
        output := output + [c];
        index := index + 1;
        s, out := Advance(s, c).value.0, out + Advance(s, c).value.1;
      } else if AsciiWhitespace(c) && depth == 0 {
        var start := index;
        index, s, out := SkipBlankRun(input, index, s, out);
        output := output + input[start..index];
        if index < |input| && input[index] == '"' {
          Consume(input, index, s, out);
          var previous := LastVisible(output);
          if previous.None? {
            return None;
          }
          if Closer(previous.value) {
            output := output + ",";
            early := true;
          }
        }
      } else {
        output := output + [c];
        index := index + 1;
        s, out := Advance(s, c).value.0, out + Advance(s, c).value.1;
      }
    }
    assert input[..index] == input;
    return if inString || depth != 0 then None else Some(output);
  }

  // ----- what the scanner does, told without the scanner -----

  /** Bracket level and string state after a text; the level may be negative. */
  datatype Position = Position(level: int, quoted: bool, escaped: bool)

  const OUTSIDE := Position(0, false, false)

  function Move(p: Position, c: char): Position {
    if p.quoted then p.(escaped := !p.escaped && c == '\\', quoted := p.escaped || c != '"')
    else if c == '"' then p.(quoted := true)
    else if c == '{' || c == '[' then p.(level := p.level + 1)
    else if c == '}' || c == ']' then p.(level := p.level - 1)
    else p
  }

  function Walk(text: string): Position {
    if text == "" then OUTSIDE else Move(Walk(text[..|text| - 1]), text[|text| - 1])
  }

  ghost predicate LevelInRange(text: string, i: nat)
    requires i <= |text|
  {
    0 <= Walk(text[..i]).level <= MAX_DEPTH
  }

  /** Brackets outside strings never close below zero, never nest beyond the
      counter, and end closed with no string open. */
  ghost predicate Balanced(text: string) {
    && (forall i :: 0 <= i <= |text| ==> LevelInRange(text, i))
    && Walk(text).level == 0
    && !Walk(text).quoted
  }

  ghost predicate BlankBeforeQuote(text: string, i: nat)
    requires i < |text|
  {
    i > 0 && text[i] == '"' && LastVisible(text[..i]).None?
  }

  /** The text is whitespace up to its first quote. */
  ghost predicate OpensWithBlankQuote(text: string) {
    exists i: nat :: i < |text| && BlankBeforeQuote(text, i)
  }

  /** A comma is missing before position `i`: a quote outside strings and
      brackets, after whitespace, after the end of a value. */
  predicate MissesComma(text: string, i: nat)
    requires i < |text|
  {
    && i > 0
    && text[i] == '"'
    && AsciiWhitespace(text[i - 1])
    && Walk(text[..i]) == OUTSIDE
    && LastVisible(text[..i]).Some?
    && Closer(LastVisible(text[..i]).value)
  }

  /** The text with every missing comma put in, and nothing else changed. */
  function Woven(text: string): string {
    if text == "" then ""
    else
      var n := |text| - 1;
      Woven(text[..n]) + (if MissesComma(text, n) then "," else "") + [text[n]]
  }

  ghost predicate Accepts(text: string) {
    && (forall i :: 0 <= i <= |text| ==> LevelInRange(text, i))
    && !OpensWithBlankQuote(text)
  }

  /** The transducer state and output, described by the text consumed. */
  ghost predicate Describes(text: string, s: Scan, out: string) {
    && Walk(text) == Position(s.depth, s.inString, s.escaped)
    && (s.gap <==> text != "" && AsciiWhitespace(text[|text| - 1]) && s.depth == 0 && !s.inString)
    && s.last == LastVisible(text)
    && (s.escaped ==> s.inString)
    && out == Woven(text)
  }

  lemma {:induction false} AcceptsPrefix(text: string, c: char)
    ensures Accepts(text + [c]) <==>
            && Accepts(text)
            && 0 <= Walk(text + [c]).level <= MAX_DEPTH
            && !(text != "" && c == '"' && LastVisible(text).None?)
  {
    var longer := text + [c];
    assert longer[..|text|] == text && longer[..|longer|] == longer;
    assert forall i :: 0 <= i <= |text| ==> longer[..i] == text[..i];
    assert LevelInRange(longer, |longer|) <==> 0 <= Walk(longer).level <= MAX_DEPTH;
    assert forall i :: 0 <= i <= |text| ==> (LevelInRange(longer, i) <==> LevelInRange(text, i));
    assert forall i: nat :: i < |text| ==> (BlankBeforeQuote(longer, i) <==> BlankBeforeQuote(text, i));
    assert BlankBeforeQuote(longer, |text|) <==> (text != "" && c == '"' && LastVisible(text).None?);
  }

  lemma {:induction false} FeedDescribed(text: string)
    ensures Feed(START, text).Some? <==> Accepts(text)
    ensures Feed(START, text).Some? ==> Describes(text, Feed(START, text).value.0, Feed(START, text).value.1)
    decreases |text|
  {
    if text == "" {
      assert LevelInRange(text, 0);
    } else {
      var n := |text| - 1;
      var shorter, c := text[..n], text[n];
      assert text == shorter + [c];
      FeedDescribed(shorter);
      FeedLast(START, shorter, c);
      AcceptsPrefix(shorter, c);
      LastVisibleOfAppend(shorter, c);
      if Accepts(shorter) {
        assert shorter != "" ==> shorter[n - 1] == text[n - 1];
        BlankTextHasNothingVisible(shorter);
        assert shorter[..n] == shorter;
        assert LevelInRange(shorter, n);
      }
    }
  }

  /** A text with nothing visible is all whitespace, so it is outside strings and brackets. */
  lemma {:induction false} BlankTextHasNothingVisible(text: string)
    ensures LastVisible(text).None? ==>
              Walk(text) == OUTSIDE && forall i :: 0 <= i < |text| ==> AsciiWhitespace(text[i])
  {
    if text != "" {
      BlankTextHasNothingVisible(text[..|text| - 1]);
    }
  }

  /** The scanner inserts exactly the missing commas, and gives up exactly on
      unbalanced text or a quote with only whitespace before it. */
  lemma {:induction false} InsertsExactlyTheMissingCommas(text: string)
    ensures InsertCommas(text) == if Balanced(text) && !OpensWithBlankQuote(text) then Some(Woven(text)) else None
  {
    FeedDescribed(text);
  }

  /** The characters of `text` whose flag is not set. */
  function Kept(text: string, dropped: seq<bool>): string
    requires |text| == |dropped|
  {
    if text == "" then ""
    else
      var n := |text| - 1;
      Kept(text[..n], dropped[..n]) + if dropped[n] then "" else [text[n]]
  }

  lemma {:induction false} KeptOfAppend(text: string, dropped: seq<bool>, c: char, drop: bool)
    requires |text| == |dropped|
    ensures Kept(text + [c], dropped + [drop]) == Kept(text, dropped) + if drop then "" else [c]
  {
    assert (text + [c])[..|text|] == text && (dropped + [drop])[..|text|] == dropped;
  }

  lemma {:induction false} WalkOfAppend(text: string, c: char)
    ensures Walk(text + [c]) == Move(Walk(text), c)
  {
    assert (text + [c])[..|text|] == text;
  }

  /** Inserted commas change no bracket level and no string state. */
  lemma {:induction false} WalkOfWoven(text: string)
    ensures Walk(Woven(text)) == Walk(text)
  {
    if text != "" {
      var n := |text| - 1;
      WalkOfWoven(text[..n]);
      if MissesComma(text, n) {
        WalkOfAppend(Woven(text[..n]), ',');
        assert Woven(text[..n]) + "," == Woven(text[..n]) + [','];
        WalkOfAppend(Woven(text[..n]) + ",", text[n]);
      } else {
        assert Woven(text[..n]) + "" == Woven(text[..n]);
        WalkOfAppend(Woven(text[..n]), text[n]);
      }
    }
  }

  /** Position `k` of the output holds an inserted comma in an allowed place. */
  ghost predicate InsertedInPlace(output: string, k: nat)
    requires k < |output|
  {
    output[k] == ',' && k + 1 < |output| && output[k + 1] == '"' && Walk(output[..k]) == OUTSIDE
  }

  lemma {:induction false} InPlaceAfterAppend(before: string, more: string, k: nat)
    requires k < |before| && InsertedInPlace(before, k)
    ensures InsertedInPlace(before + more, k)
  {
    assert (before + more)[..k] == before[..k];
  }

  lemma {:induction false} FlagsAfterAppend(before: string, more: string, flags: seq<bool>, extra: seq<bool>)
    requires |flags| == |before| && |extra| == |more|
    requires forall k :: 0 <= k < |flags| && flags[k] ==> InsertedInPlace(before, k)
    requires forall k :: 0 <= k < |extra| && extra[k] ==> InsertedInPlace(before + more, |before| + k)
    ensures forall k :: 0 <= k < |flags + extra| && (flags + extra)[k] ==> InsertedInPlace(before + more, k)
  {
    forall k | 0 <= k < |flags + extra| && (flags + extra)[k]
      ensures InsertedInPlace(before + more, k)
    {
      if k < |flags| {
        InPlaceAfterAppend(before, more, k);
      } else {
        assert extra[k - |flags|];
      }
    }
  }

  lemma {:induction false} WeaveOne(text: string, n: nat) returns (before: string, comma: bool)
    requires text != "" && n == |text| - 1
    ensures before == Woven(text[..n])
    ensures Woven(text) == before + if comma then [',', text[n]] else [text[n]]
    ensures comma ==> InsertedInPlace(Woven(text), |before|)
  {
    before, comma := Woven(text[..n]), MissesComma(text, n);
    if comma {
      assert Woven(text) == before + [',', text[n]];
      assert Woven(text)[..|before|] == before;
      WalkOfWoven(text[..n]);
    }
  }

  /** The flags for one more character, with or without a comma before it. */
  function Flags(comma: bool): seq<bool> {
    if comma then [true, false] else [false]
  }

  lemma {:induction false} KeptOfWoven(before: string, flags: seq<bool>, comma: bool, c: char)
    requires |flags| == |before|
    ensures var more := if comma then [',', c] else [c];
            Kept(before + more, flags + Flags(comma)) == Kept(before, flags) + [c]
  {
    if comma {
      KeptOfAppend(before, flags, ',', true);
      KeptOfAppend(before + [','], flags + [true], c, false);
      assert before + [',', c] == (before + [',']) + [c];
      assert flags + [true, false] == (flags + [true]) + [false];
      assert Kept(before, flags) + "" == Kept(before, flags);
    } else {
      KeptOfAppend(before, flags, c, false);
    }
  }

  lemma {:induction false} ExtendErasure(before: string, whole: string, c: char, comma: bool, flags: seq<bool>)
    requires |flags| == |before|
    requires whole == before + if comma then [',', c] else [c]
    requires comma ==> InsertedInPlace(whole, |before|)
    requires forall k :: 0 <= k < |flags| && flags[k] ==> InsertedInPlace(before, k)
    ensures |flags + Flags(comma)| == |whole|
    ensures Kept(whole, flags + Flags(comma)) == Kept(before, flags) + [c]
    ensures forall k :: 0 <= k < |whole| && (flags + Flags(comma))[k] ==> InsertedInPlace(whole, k)
  {
    KeptOfWoven(before, flags, comma, c);
    FlagsAfterAppend(before, if comma then [',', c] else [c], flags, Flags(comma));
  }

  /** Erasing the inserted commas gives back the input character for character;
      each of them stands outside strings and brackets, just before a quote. */
  lemma {:induction false} ErasureRestoresInput(text: string) returns (inserted: seq<bool>)
    ensures |inserted| == |Woven(text)|
    ensures Kept(Woven(text), inserted) == text
    ensures forall k :: 0 <= k < |inserted| && inserted[k] ==> InsertedInPlace(Woven(text), k)
  {
    if text == "" {
      return [];
    }
    var n := |text| - 1;
    var flags := ErasureRestoresInput(text[..n]);
    var before, comma := WeaveOne(text, n);
    inserted := flags + Flags(comma);
    assert text == text[..n] + [text[n]];
    ExtendErasure(before, Woven(text), text[n], comma, flags);
  }

  /** Feeding the scanner its own output reproduces it from the same states. */
  lemma {:induction false} FeedOwnOutput(s: Scan, text: string)
    requires Feed(s, text).Some?
    ensures Feed(s, Feed(s, text).value.1) == Feed(s, text)
    decreases |text|
  {
    if text != "" {
      var (next, first) := Advance(s, text[0]).value;
      var (end, rest) := Feed(next, text[1..]).value;
      FeedOwnOutput(next, text[1..]);
      FeedAppend(s, first, rest);
      if first == [text[0]] {
        FeedLast(s, "", text[0]);
        assert "" + first == first;
      } else {
        assert first == [','] + ['"'];
        FeedLast(s, "", ',');
        FeedLast(s, [','], '"');
        assert "" + [','] == [','];
      }
    }
  }

  /** Repair is idempotent. */
  lemma {:induction false} InsertionIsIdempotent(text: string)
    requires InsertCommas(text).Some?
    ensures InsertCommas(InsertCommas(text).value) == InsertCommas(text)
  {
    FeedOwnOutput(START, text);
  }
}
