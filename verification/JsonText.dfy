/** JSON text (RFC 8259, sections 2 to 7): concrete syntax trees that keep all
    whitespace, their rendering, a recursive-descent parser, and the proof that
    the parser reads back exactly the tree that was rendered.

    Rendering takes the text that follows as an argument, so that no proof has
    to re-associate concatenations. */
module JsonText {
  import opened Wrappers

  // ----- syntax -----

  /** One character of a string, or one escape. */
  datatype Piece =
    | Plain(c: char)
    | Short(c: char)
    | Unicode(h0: char, h1: char, h2: char, h3: char)

  datatype Syntax =
    | True
    | False
    | Null
    | Number(digits: string)
    | Text(pieces: seq<Piece>)
    | EmptyArray(blank: string)
    | Array(before: string, items: Items)
    | EmptyObject(blank: string)
    | Object(before: string, body: Fragment, after: string)

  /** Array elements, each with the whitespace that follows it. */
  datatype Items =
    | LastItem(value: Syntax, after: string)
    | Item(value: Syntax, after: string, before: string, rest: Items)

  datatype Pair = Pair(key: seq<Piece>, afterKey: string, beforeValue: string, value: Syntax)

  /** What stands between two members: a comma, or (in a fragment to repair) whitespace alone. */
  datatype Separator = Comma(before: string, after: string) | Gap(blank: string)

  /** A non-empty list of members without the surrounding braces. */
  datatype Fragment = Last(pair: Pair) | Join(pair: Pair, separator: Separator, rest: Fragment)

  predicate JsonWhitespace(c: char) {
    c == ' ' || c == '\t' || c == '\n' || c == '\r'
  }

  predicate Blank(text: string) {
    forall i :: 0 <= i < |text| ==> JsonWhitespace(text[i])
  }

  predicate Hex(c: char) {
    '0' <= c <= '9' || 'a' <= c <= 'f' || 'A' <= c <= 'F'
  }

  predicate Digit(c: char) {
    '0' <= c <= '9'
  }

  predicate ShortEscape(c: char) {
    c == '"' || c == '\\' || c == '/' || c == 'b' || c == 'f' || c == 'n' || c == 'r' || c == 't'
  }

  predicate ValidPiece(p: Piece) {
    match p
    case Plain(c) => c >= ' ' && c != '"' && c != '\\'
    case Short(c) => ShortEscape(c)
    case Unicode(h0, h1, h2, h3) => Hex(h0) && Hex(h1) && Hex(h2) && Hex(h3)
  }

  predicate ValidPieces(pieces: seq<Piece>) {
    forall i :: 0 <= i < |pieces| ==> ValidPiece(pieces[i])
  }

  // ----- numbers -----

  function LeadingDigits(s: string): nat {
    if s != "" && Digit(s[0]) then 1 + LeadingDigits(s[1..]) else 0
  }

  predicate AllDigits(s: string) {
    s != "" && forall i :: 0 <= i < |s| ==> Digit(s[i])
  }

  lemma {:induction false} LeadingDigitsBound(s: string)
    ensures LeadingDigits(s) <= |s|
    ensures AllDigits(s[..LeadingDigits(s)]) || LeadingDigits(s) == 0
  {
    if s != "" && Digit(s[0]) {
      LeadingDigitsBound(s[1..]);
      assert s[..LeadingDigits(s)] == [s[0]] + s[1..][..LeadingDigits(s[1..])];
    }
  }

  predicate IsExponent(s: string) {
    s == "" ||
    ((s[0] == 'e' || s[0] == 'E') &&
     AllDigits(if |s| > 1 && (s[1] == '+' || s[1] == '-') then s[2..] else s[1..]))
  }

  predicate IsFraction(s: string) {
    if s != "" && s[0] == '.' then
      var n := LeadingDigits(s[1..]);
      LeadingDigitsBound(s[1..]);
      n > 0 && IsExponent(s[1..][n..])
    else IsExponent(s)
  }

  /** The number grammar: a minus sign if any, digits without a superfluous
      leading zero, a fraction if any, an exponent if any. */
  predicate IsNumber(s: string) {
    var magnitude := if s != "" && s[0] == '-' then s[1..] else s;
    var n := LeadingDigits(magnitude);
    LeadingDigitsBound(magnitude);
    n > 0 && (magnitude[0] == '0' ==> n == 1) && IsFraction(magnitude[n..])
  }

  predicate NumberChar(c: char) {
    Digit(c) || c == '-' || c == '+' || c == '.' || c == 'e' || c == 'E'
  }

  predicate NumberChars(s: string) {
    forall i :: 0 <= i < |s| ==> NumberChar(s[i])
  }

  lemma {:induction false} ExponentShape(s: string)
    requires IsExponent(s)
    ensures NumberChars(s)
    ensures s != "" ==> Digit(s[|s| - 1])
  {
  }

  lemma {:induction false} FractionShape(s: string)
    requires IsFraction(s)
    ensures NumberChars(s)
    ensures s != "" ==> Digit(s[|s| - 1])
  {
    if s != "" && s[0] == '.' {
      var n := LeadingDigits(s[1..]);
      LeadingDigitsBound(s[1..]);
      ExponentShape(s[1..][n..]);
      assert s == [s[0]] + s[1..][..n] + s[1..][n..];
    } else {
      ExponentShape(s);
    }
  }

  lemma {:induction false} NumberShape(s: string)
    requires IsNumber(s)
    ensures s != "" && NumberChars(s) && Digit(s[|s| - 1])
    ensures s[0] == '-' || Digit(s[0])
  {
    var magnitude := if s[0] == '-' then s[1..] else s;
    var n := LeadingDigits(magnitude);
    LeadingDigitsBound(magnitude);
    FractionShape(magnitude[n..]);
    assert magnitude == magnitude[..n] + magnitude[n..];
  }

  // ----- strings: decoding -----

  function HexDigit(c: char): nat
    requires Hex(c)
    ensures HexDigit(c) < 16
  {
    if Digit(c) then c as int - '0' as int
    else if 'a' <= c <= 'f' then c as int - 'a' as int + 10
    else c as int - 'A' as int + 10
  }

  function CodeUnit(p: Piece): (unit: nat)
    requires p.Unicode? && ValidPiece(p)
    ensures unit < 0x1_0000
  {
    ((HexDigit(p.h0) * 16 + HexDigit(p.h1)) * 16 + HexDigit(p.h2)) * 16 + HexDigit(p.h3)
  }

  function DecodeShort(c: char): char {
    if c == 'b' then '\U{08}'
    else if c == 'f' then '\U{0C}'
    else if c == 'n' then '\n'
    else if c == 'r' then '\r'
    else if c == 't' then '\t'
    else c
  }

  /** The decoded string; `None` for a surrogate that is not half of a pair. */
  function Decode(pieces: seq<Piece>): Option<string>
    requires ValidPieces(pieces)
  {
    if pieces == [] then Some("")
    else
      var p := pieces[0];
      if p.Unicode? && 0xD800 <= CodeUnit(p) < 0xDC00 then
        if |pieces| > 1 && pieces[1].Unicode? && 0xDC00 <= CodeUnit(pieces[1]) < 0xE000 then
          var scalar := 0x1_0000 + (CodeUnit(p) - 0xD800) * 0x400 + (CodeUnit(pieces[1]) - 0xDC00);
          match Decode(pieces[2..])
          case None => None
          case Some(tail) => Some([scalar as char] + tail)
        else None
      else if p.Unicode? && 0xDC00 <= CodeUnit(p) < 0xE000 then None
      else
        var c := match p
                 case Plain(c) => c
                 case Short(c) => DecodeShort(c)
                 case Unicode(_, _, _, _) => CodeUnit(p) as char;
        match Decode(pieces[1..])
        case None => None
        case Some(tail) => Some([c] + tail)
  }

  predicate ValidText(pieces: seq<Piece>) {
    ValidPieces(pieces) && Decode(pieces).Some?
  }

  // ----- well-formed trees -----

  predicate ValidSyntax(v: Syntax) {
    match v
    case True => true
    case False => true
    case Null => true
    case Number(digits) => IsNumber(digits)
    case Text(pieces) => ValidText(pieces)
    case EmptyArray(blank) => Blank(blank)
    case Array(before, items) => Blank(before) && ValidItems(items)
    case EmptyObject(blank) => Blank(blank)
    case Object(before, body, after) => Blank(before) && ValidFragment(body) && AllCommas(body) && Blank(after)
  }

  predicate ValidItems(items: Items) {
    match items
    case LastItem(value, after) => ValidSyntax(value) && Blank(after)
    case Item(value, after, before, rest) => ValidSyntax(value) && Blank(after) && Blank(before) && ValidItems(rest)
  }

  predicate ValidPair(pair: Pair) {
    ValidText(pair.key) && Blank(pair.afterKey) && Blank(pair.beforeValue) && ValidSyntax(pair.value)
  }

  predicate ValidSeparator(separator: Separator) {
    match separator
    case Comma(before, after) => Blank(before) && Blank(after)
    case Gap(blank) => blank != "" && Blank(blank)
  }

  /** Members separated by commas with optional whitespace, or by non-empty whitespace alone. */
  predicate ValidFragment(f: Fragment) {
    && ValidText(f.pair.key) && Blank(f.pair.afterKey) && Blank(f.pair.beforeValue) && ValidSyntax(f.pair.value)
    && (f.Join? ==> ValidSeparator(f.separator) && ValidFragment(f.rest))
  }

  predicate AllCommas(f: Fragment) {
    f.Join? ==> f.separator.Comma? && AllCommas(f.rest)
  }

  // ----- rendering -----

  function RenderPiece(p: Piece, next: string): string {
    match p
    case Plain(c) => [c] + next
    case Short(c) => ['\\', c] + next
    case Unicode(h0, h1, h2, h3) => ['\\', 'u'] + ([h0, h1, h2, h3] + next)
  }

  function RenderPieces(pieces: seq<Piece>, next: string): string {
    if pieces == [] then next else RenderPiece(pieces[0], RenderPieces(pieces[1..], next))
  }

  /** The string with its closing quote but without the opening one. */
  function RenderTail(pieces: seq<Piece>, next: string): string {
    RenderPieces(pieces, ['"'] + next)
  }

  function Render(v: Syntax, next: string): string {
    match v
    case True => "true" + next
    case False => "false" + next
    case Null => "null" + next
    case Number(digits) => digits + next
    case Text(pieces) => ['"'] + RenderTail(pieces, next)
    case EmptyArray(blank) => ['['] + (blank + ([']'] + next))
    case Array(before, items) => ['['] + (before + RenderItems(items, next))
    case EmptyObject(blank) => ['{'] + (blank + (['}'] + next))
    case Object(before, body, after) => ['{'] + (before + RenderFragment(body, after + (['}'] + next)))
  }

  function RenderItems(items: Items, next: string): string {
    match items
    case LastItem(value, after) => Render(value, after + ([']'] + next))
    case Item(value, after, before, rest) => Render(value, after + ([','] + (before + RenderItems(rest, next))))
  }

  function RenderPair(pair: Pair, next: string): string {
    ['"'] + RenderTail(pair.key, pair.afterKey + ([':'] + (pair.beforeValue + Render(pair.value, next))))
  }

  function RenderSeparator(separator: Separator, next: string): string {
    match separator
    case Comma(before, after) => before + ([','] + (after + next))
    case Gap(blank) => blank + next
  }

  function RenderFragment(f: Fragment, next: string): string {
    match f
    case Last(pair) => RenderPair(pair, next)
    case Join(pair, separator, rest) => RenderPair(pair, RenderSeparator(separator, RenderFragment(rest, next)))
  }

  // ----- parsing -----

  function SkipBlank(s: string): (r: (string, string))
    ensures |r.1| <= |s|
  {
    if s != "" && JsonWhitespace(s[0]) then
      var (blank, rest) := SkipBlank(s[1..]);
      ([s[0]] + blank, rest)
    else ("", s)
  }

  function TakeNumber(s: string): (r: (string, string))
    ensures |r.0| + |r.1| == |s|
  {
    if s != "" && NumberChar(s[0]) then
      var (digits, rest) := TakeNumber(s[1..]);
      ([s[0]] + digits, rest)
    else ("", s)
  }

  /** The pieces of a string up to and including its closing quote. */
  function ParsePieces(s: string): (r: Option<(seq<Piece>, string)>)
    ensures r.Some? ==> |r.value.1| < |s| && ValidPieces(r.value.0)
    decreases |s|
  {
    if s == "" || s[0] < ' ' then None
    else if s[0] == '"' then Some(([], s[1..]))
    else if s[0] != '\\' then Prepend(Plain(s[0]), ParsePieces(s[1..]))
    else if |s| > 1 && ShortEscape(s[1]) then Prepend(Short(s[1]), ParsePieces(s[2..]))
    else if |s| > 5 && s[1] == 'u' && Hex(s[2]) && Hex(s[3]) && Hex(s[4]) && Hex(s[5]) then
      Prepend(Unicode(s[2], s[3], s[4], s[5]), ParsePieces(s[6..]))
    else None
  }

  function Prepend(p: Piece, tail: Option<(seq<Piece>, string)>): Option<(seq<Piece>, string)> {
    match tail
    case None => None
    case Some((pieces, rest)) => Some(([p] + pieces, rest))
  }

  /** A string after its opening quote, if it decodes. */
  function ParseText(s: string): (r: Option<(seq<Piece>, string)>)
    ensures r.Some? ==> |r.value.1| < |s|
  {
    match ParsePieces(s)
    case None => None
    case Some((pieces, rest)) => if Decode(pieces).Some? then Some((pieces, rest)) else None
  }

  function ParseWord(s: string, word: string, v: Syntax): Option<(Syntax, string)> {
    if word <= s then Some((v, s[|word|..])) else None
  }

  function ParseValue(s: string): (r: Option<(Syntax, string)>)
    ensures r.Some? ==> |r.value.1| < |s|
    decreases |s|, 0
  {
    if s == "" then None
    else if s[0] == 't' then ParseWord(s, "true", True)
    else if s[0] == 'f' then ParseWord(s, "false", False)
    else if s[0] == 'n' then ParseWord(s, "null", Null)
    else if s[0] == '"' then
      match ParseText(s[1..])
      case None => None
      case Some((pieces, rest)) => Some((Text(pieces), rest))
    else if s[0] == '[' then
      var (blank, inner) := SkipBlank(s[1..]);
      if inner != "" && inner[0] == ']' then Some((EmptyArray(blank), inner[1..]))
      else
        match ParseItems(inner)
        case None => None
        case Some((items, rest)) => Some((Array(blank, items), rest))
    else if s[0] == '{' then
      var (blank, inner) := SkipBlank(s[1..]);
      if inner != "" && inner[0] == '}' then Some((EmptyObject(blank), inner[1..]))
      else
        match ParseFragment(inner)
        case None => None
        case Some((body, after, rest)) => Some((Object(blank, body, after), rest))
    else
      var (digits, rest) := TakeNumber(s);
      if IsNumber(digits) then Some((Number(digits), rest)) else None
  }

  function ParseItems(s: string): (r: Option<(Items, string)>)
    ensures r.Some? ==> |r.value.1| < |s|
    decreases |s|, 1
  {
    match ParseValue(s)
    case None => None
    case Some((value, tail)) =>
      var (after, rest) := SkipBlank(tail);
      if rest == "" then None
      else if rest[0] == ']' then Some((LastItem(value, after), rest[1..]))
      else if rest[0] == ',' then
        var (before, inner) := SkipBlank(rest[1..]);
        match ParseItems(inner)
        case None => None
        case Some((items, end)) => Some((Item(value, after, before, items), end))
      else None
  }

  function ParsePair(s: string): (r: Option<(Pair, string)>)
    ensures r.Some? ==> |r.value.1| < |s|
    decreases |s|, 1
  {
    if s == "" || s[0] != '"' then None
    else
      match ParseText(s[1..])
      case None => None
      case Some((key, tail)) =>
        var (afterKey, rest) := SkipBlank(tail);
        if rest == "" || rest[0] != ':' then None
        else
          var (beforeValue, inner) := SkipBlank(rest[1..]);
          match ParseValue(inner)
          case None => None
          case Some((value, end)) => Some((Pair(key, afterKey, beforeValue, value), end))
  }

  /** Members up to and including the closing brace; also the whitespace before the brace. */
  function ParseFragment(s: string): (r: Option<(Fragment, string, string)>)
    ensures r.Some? ==> |r.value.2| < |s|
    decreases |s|, 2
  {
    match ParsePair(s)
    case None => None
    case Some((pair, tail)) =>
      var (after, rest) := SkipBlank(tail);
      if rest == "" then None
      else if rest[0] == '}' then Some((Last(pair), after, rest[1..]))
      else if rest[0] == ',' then
        var (before, inner) := SkipBlank(rest[1..]);
        match ParseFragment(inner)
        case None => None
        case Some((body, end, beyond)) => Some((Join(pair, Comma(after, before), body), end, beyond))
      else None
  }

  /** A whole document: one value with whitespace around it. */
  function ParseDocument(s: string): Option<Syntax> {
    match ParseValue(SkipBlank(s).1)
    case None => None
    case Some((v, rest)) => if SkipBlank(rest).1 == "" then Some(v) else None
  }

  // ----- the parser reads back what was rendered -----

  predicate Solid(s: string) {
    s != "" ==> !JsonWhitespace(s[0])
  }

  predicate Delimited(s: string) {
    s != "" ==> !NumberChar(s[0])
  }

  lemma {:induction false} SkipExactly(blank: string, next: string)
    requires Blank(blank) && Solid(next)
    ensures SkipBlank(blank + next) == (blank, next)
  {
    if blank == "" {
      assert blank + next == next;
    } else {
      assert (blank + next)[1..] == blank[1..] + next;
      SkipExactly(blank[1..], next);
      assert [blank[0]] + blank[1..] == blank;
    }
  }

  lemma {:induction false} TakeExactly(digits: string, next: string)
    requires NumberChars(digits) && Delimited(next)
    ensures TakeNumber(digits + next) == (digits, next)
  {
    if digits == "" {
      assert digits + next == next;
    } else {
      assert (digits + next)[1..] == digits[1..] + next;
      TakeExactly(digits[1..], next);
      assert [digits[0]] + digits[1..] == digits;
    }
  }

  lemma {:induction false} PiecesReadBack(pieces: seq<Piece>, next: string)
    requires ValidPieces(pieces)
    ensures ParsePieces(RenderTail(pieces, next)) == Some((pieces, next))
  {
    if pieces == [] {
      assert (['"'] + next)[1..] == next;
    } else {
      var tail := RenderTail(pieces[1..], next);
      var s := RenderTail(pieces, next);
      PiecesReadBack(pieces[1..], next);
      assert [pieces[0]] + pieces[1..] == pieces;
      assert ValidPiece(pieces[0]);
      match pieces[0]
      case Plain(c) =>
        assert s[1..] == tail;
      case Short(c) =>
        assert s[2..] == tail;
      case Unicode(h0, h1, h2, h3) =>
        assert s[6..] == tail;
    }
  }

  /** A rendered value starts with a character that no separator or bracket end starts with. */
  lemma {:induction false} StartsSolid(v: Syntax, next: string)
    requires ValidSyntax(v)
    ensures var s := Render(v, next);
            s != "" && !JsonWhitespace(s[0]) && s[0] != ']' && s[0] != '}'
  {
    if v.Number? {
      NumberShape(v.digits);
      assert Render(v, next)[0] == v.digits[0];
    }
  }

  lemma {:induction false} ItemsStartSolid(items: Items, next: string)
    requires ValidItems(items)
    ensures var s := RenderItems(items, next);
            s != "" && !JsonWhitespace(s[0]) && s[0] != ']'
  {
    match items
    case LastItem(value, after) =>
      StartsSolid(value, after + ([']'] + next));
    case Item(value, after, before, rest) =>
      StartsSolid(value, after + ([','] + (before + RenderItems(rest, next))));
  }

  lemma {:induction false} DelimitedByBlank(blank: string, c: char, next: string)
    requires Blank(blank) && !NumberChar(c)
    ensures Delimited(blank + ([c] + next))
  {
  }

  lemma {:induction false} WordReadBack(word: string, v: Syntax, next: string)
    ensures ParseWord(word + next, word, v) == Some((v, next))
  {
  }

  lemma {:induction false} NumberReadBack(digits: string, next: string)
    requires IsNumber(digits) && Delimited(next)
    ensures ParseValue(digits + next) == Some((Number(digits), next))
  {
    NumberShape(digits);
    TakeExactly(digits, next);
    assert (digits + next)[0] == digits[0];
  }

  /** The values that contain no other value. */
  lemma {:induction false} ScalarReadBack(v: Syntax, next: string)
    requires ValidSyntax(v) && Delimited(next) && !v.Array? && !v.Object?
    ensures ParseValue(Render(v, next)) == Some((v, next))
  {
    var s := Render(v, next);
    match v
    case True =>
      WordReadBack("true", v, next);
    case False =>
      WordReadBack("false", v, next);
    case Null =>
      WordReadBack("null", v, next);
    case Number(digits) =>
      NumberReadBack(digits, next);
    case Text(pieces) =>
      assert s[1..] == RenderTail(pieces, next);
      PiecesReadBack(pieces, next);
    case EmptyArray(blank) =>
      EmptyReadBack(blank, ']', next);
      assert s[1..] == blank + ([']'] + next);
    case EmptyObject(blank) =>
      EmptyReadBack(blank, '}', next);
      assert s[1..] == blank + (['}'] + next);
    case _ =>
  }

  lemma {:induction false} EmptyReadBack(blank: string, end: char, next: string)
    requires Blank(blank) && !JsonWhitespace(end)
    ensures SkipBlank(blank + ([end] + next)) == (blank, [end] + next)
    ensures ([end] + next)[1..] == next
  {
    SkipExactly(blank, [end] + next);
  }

  lemma {:induction false} AfterBracket(v: Syntax, next: string)
    requires v.Array? || v.Object?
    ensures var s := Render(v, next);
            && s != "" && s[0] == (if v.Array? then '[' else '{')
            && s[1..] ==
                 v.before + if v.Array? then RenderItems(v.items, next)
                 else RenderFragment(v.body, v.after + (['}'] + next))
  {
  }

  /** An array is read back if its items are. */
  lemma {:induction false} ArrayReadBack(v: Syntax, next: string)
    requires v.Array? && ValidSyntax(v)
    requires ParseItems(RenderItems(v.items, next)) == Some((v.items, next))
    ensures ParseValue(Render(v, next)) == Some((v, next))
  {
    AfterBracket(v, next);
    ItemsStartSolid(v.items, next);
    SkipExactly(v.before, RenderItems(v.items, next));
  }

  /** An object is read back if its members are. */
  lemma {:induction false} ObjectReadBack(v: Syntax, next: string)
    requires v.Object? && ValidSyntax(v)
    requires ParseFragment(RenderFragment(v.body, v.after + (['}'] + next))) == Some((v.body, v.after, next))
    ensures ParseValue(Render(v, next)) == Some((v, next))
  {
    AfterBracket(v, next);
    FragmentStartsWithQuote(v.body, v.after + (['}'] + next));
    SkipExactly(v.before, RenderFragment(v.body, v.after + (['}'] + next)));
  }

  lemma {:induction false} ValueReadBack(v: Syntax, next: string)
    requires ValidSyntax(v) && Delimited(next)
    ensures ParseValue(Render(v, next)) == Some((v, next))
    decreases v
  {
    if v.Array? {
      ItemsReadBack(v.items, next);
      ArrayReadBack(v, next);
    } else if v.Object? {
      FragmentReadBack(v.body, v.after, next);
      ObjectReadBack(v, next);
    } else {
      ScalarReadBack(v, next);
    }
  }

  lemma {:induction false} ItemsReadBack(items: Items, next: string)
    requires ValidItems(items)
    ensures ParseItems(RenderItems(items, next)) == Some((items, next))
    decreases items
  {
    match items
    case LastItem(value, after) =>
      DelimitedByBlank(after, ']', next);
      ValueReadBack(value, after + ([']'] + next));
      SkipExactly(after, [']'] + next);
      assert ([']'] + next)[1..] == next;
    case Item(value, after, before, rest) =>
      var inner := RenderItems(rest, next);
      DelimitedByBlank(after, ',', before + inner);
      ValueReadBack(value, after + ([','] + (before + inner)));
      SkipExactly(after, [','] + (before + inner));
      assert ([','] + (before + inner))[1..] == before + inner;
      ItemsStartSolid(rest, next);
      SkipExactly(before, inner);
      ItemsReadBack(rest, next);
  }

  lemma {:induction false} FragmentStartsWithQuote(f: Fragment, next: string)
    ensures RenderFragment(f, next) != "" && RenderFragment(f, next)[0] == '"'
  {
  }

  lemma {:induction false} PairReadBack(pair: Pair, next: string)
    requires ValidPair(pair) && Delimited(next)
    ensures ParsePair(RenderPair(pair, next)) == Some((pair, next))
    decreases pair, 1
  {
    var value := Render(pair.value, next);
    var tail := pair.afterKey + ([':'] + (pair.beforeValue + value));
    assert RenderPair(pair, next)[1..] == RenderTail(pair.key, tail);
    PiecesReadBack(pair.key, tail);
    SkipExactly(pair.afterKey, [':'] + (pair.beforeValue + value));
    assert ([':'] + (pair.beforeValue + value))[1..] == pair.beforeValue + value;
    StartsSolid(pair.value, next);
    SkipExactly(pair.beforeValue, value);
    ValueReadBack(pair.value, next);
  }

  lemma {:induction false} LastReadBack(pair: Pair, after: string, next: string)
    requires ValidPair(pair) && Blank(after)
    requires ParsePair(RenderPair(pair, after + (['}'] + next))) == Some((pair, after + (['}'] + next)))
    ensures ParseFragment(RenderFragment(Last(pair), after + (['}'] + next))) == Some((Last(pair), after, next))
  {
    SkipExactly(after, ['}'] + next);
    assert (['}'] + next)[1..] == next;
  }

  /** After a comma, the rest decides. */
  lemma {:induction false} CommaReadBack(pair: Pair, before: string, behind: string, inner: string)
    requires ValidPair(pair) && Blank(before) && Blank(behind) && Solid(inner)
    requires var tail := before + ([','] + (behind + inner));
             ParsePair(RenderPair(pair, tail)) == Some((pair, tail))
    ensures ParseFragment(RenderPair(pair, before + ([','] + (behind + inner)))) ==
            match ParseFragment(inner)
            case None => None
            case Some((body, end, beyond)) => Some((Join(pair, Comma(before, behind), body), end, beyond))
  {
    SkipExactly(before, [','] + (behind + inner));
    assert ([','] + (behind + inner))[1..] == behind + inner;
    SkipExactly(behind, inner);
  }

  /** Where the comma is missing, the parser stops. */
  lemma {:induction false} GapIsRefused(pair: Pair, blank: string, inner: string)
    requires Blank(blank) && inner != "" && inner[0] == '"'
    requires ParsePair(RenderPair(pair, blank + inner)) == Some((pair, blank + inner))
    ensures ParseFragment(RenderPair(pair, blank + inner)).None?
  {
    SkipExactly(blank, inner);
  }

  /** Comma-separated members up to a closing brace are read back; at the first
      pair of members with only whitespace between them the parser fails. */
  lemma {:induction false} FragmentReadBack(f: Fragment, after: string, next: string)
    requires ValidFragment(f) && Blank(after)
    ensures ParseFragment(RenderFragment(f, after + (['}'] + next))) ==
            if AllCommas(f) then Some((f, after, next)) else None
    decreases f, 2
  {
    var end := after + (['}'] + next);
    match f
    case Last(pair) =>
      DelimitedByBlank(after, '}', next);
      PairReadBack(pair, end);
      LastReadBack(pair, after, next);
    case Join(pair, separator, rest) =>
      var inner := RenderFragment(rest, end);
      FragmentStartsWithQuote(rest, end);
      PairReadBack(pair, RenderSeparator(separator, inner));
      FragmentReadBack(rest, after, next);
      match separator {
        case Comma(before, behind) =>
          CommaReadBack(pair, before, behind, inner);
        case Gap(blank) =>
          GapIsRefused(pair, blank, inner);
      }
  }

  // ----- whatever the parser accepts is a rendering of the tree it returns -----

  lemma {:induction false} SkipSplits(s: string)
    ensures var (blank, rest) := SkipBlank(s);
            Blank(blank) && Solid(rest) && s == blank + rest
  {
    if s != "" && JsonWhitespace(s[0]) {
      SkipSplits(s[1..]);
    }
  }

  lemma {:induction false} TakeSplits(s: string)
    ensures var (digits, rest) := TakeNumber(s);
            Delimited(rest) && s == digits + rest
  {
    if s != "" && NumberChar(s[0]) {
      TakeSplits(s[1..]);
    }
  }

  lemma {:induction false} PiecesAreSound(s: string)
    requires ParsePieces(s).Some?
    ensures var (pieces, rest) := ParsePieces(s).value;
            s == RenderTail(pieces, rest)
    decreases |s|
  {
    if s[0] == '"' {
    } else if s[0] != '\\' {
      PiecesAreSound(s[1..]);
    } else if ShortEscape(s[1]) {
      PiecesAreSound(s[2..]);
      assert s == [s[0], s[1]] + s[2..];
    } else {
      PiecesAreSound(s[6..]);
      assert s == [s[0], s[1]] + ([s[2], s[3], s[4], s[5]] + s[6..]);
    }
  }

  lemma {:induction false} FirstThenRest(s: string)
    requires s != ""
    ensures s == [s[0]] + s[1..]
  {
  }

  lemma {:induction false} ValueIsSound(s: string)
    requires ParseValue(s).Some?
    ensures var (v, rest) := ParseValue(s).value;
            ValidSyntax(v) && s == Render(v, rest)
    decreases |s|, 0
  {
    FirstThenRest(s);
    if s[0] == '"' {
      PiecesAreSound(s[1..]);
    } else if s[0] == '[' {
      SkipSplits(s[1..]);
      var inner := SkipBlank(s[1..]).1;
      if inner != "" && inner[0] == ']' {
        FirstThenRest(inner);
      } else {
        ItemsAreSound(inner);
      }
    } else if s[0] == '{' {
      SkipSplits(s[1..]);
      var inner := SkipBlank(s[1..]).1;
      if inner != "" && inner[0] == '}' {
        FirstThenRest(inner);
      } else {
        FragmentIsSound(inner);
      }
    } else if s[0] != 't' && s[0] != 'f' && s[0] != 'n' {
      TakeSplits(s);
    }
  }

  lemma {:induction false} ItemsAreSound(s: string)
    requires ParseItems(s).Some?
    ensures var (items, rest) := ParseItems(s).value;
            ValidItems(items) && s == RenderItems(items, rest)
    decreases |s|, 1
  {
    ValueIsSound(s);
    var tail := ParseValue(s).value.1;
    SkipSplits(tail);
    var rest := SkipBlank(tail).1;
    FirstThenRest(rest);
    if rest[0] == ',' {
      SkipSplits(rest[1..]);
      ItemsAreSound(SkipBlank(rest[1..]).1);
    }
  }

  lemma {:induction false} PairIsSound(s: string)
    requires ParsePair(s).Some?
    ensures var (pair, rest) := ParsePair(s).value;
            ValidPair(pair) && s == RenderPair(pair, rest)
    decreases |s|, 1
  {
    FirstThenRest(s);
    PiecesAreSound(s[1..]);
    var tail := ParseText(s[1..]).value.1;
    SkipSplits(tail);
    var rest := SkipBlank(tail).1;
    FirstThenRest(rest);
    SkipSplits(rest[1..]);
    ValueIsSound(SkipBlank(rest[1..]).1);
  }

  lemma {:induction false} FragmentIsSound(s: string)
    requires ParseFragment(s).Some?
    ensures var (body, after, rest) := ParseFragment(s).value;
            ValidFragment(body) && AllCommas(body) && Blank(after) && s == RenderFragment(body, after + (['}'] + rest))
    decreases |s|, 2
  {
    PairIsSound(s);
    var tail := ParsePair(s).value.1;
    SkipSplits(tail);
    var rest := SkipBlank(tail).1;
    FirstThenRest(rest);
    if rest[0] == ',' {
      SkipSplits(rest[1..]);
      FragmentIsSound(SkipBlank(rest[1..]).1);
    }
  }

  /** A text is a rendering of `v` with whitespace around it. */
  ghost predicate Spells(s: string, v: Syntax) {
    ValidSyntax(v) && exists before, after :: Blank(before) && Blank(after) && s == before + Render(v, after)
  }

  /** The parser decides the grammar: it accepts exactly the texts that spell a
      tree, and returns that tree, which is therefore the only one. */
  lemma {:induction false} DocumentIsExact(s: string, v: Syntax)
    ensures ParseDocument(s) == Some(v) <==> Spells(s, v)
  {
    if ParseDocument(s) == Some(v) {
      SkipSplits(s);
      ValueIsSound(SkipBlank(s).1);
      var rest := ParseValue(SkipBlank(s).1).value.1;
      SkipSplits(rest);
      assert Blank(rest);
    }
    if Spells(s, v) {
      var before, after :| Blank(before) && Blank(after) && s == before + Render(v, after);
      StartsSolid(v, after);
      SkipExactly(before, Render(v, after));
      ValueReadBack(v, after);
      SkipExactly(after, "");
      assert after + "" == after;
    }
  }
}
