/** Parsing an embedded object or member fragment, with repair of missing commas
    and rejection of repeated member names. */
module FragmentRepair {
  import opened Wrappers
  import opened MemberCommas
  import opened JsonText

  // ----- values -----

  /** Parsed values; a number is represented by its digits. */
  datatype Value =
    | NullValue
    | Boolean(b: bool)
    | Numeric(digits: string)
    | StringValue(text: string)
    | List(values: seq<Value>)
    | Members(fields: map<string, Value>)

  function Name(pieces: seq<Piece>): string
    requires ValidText(pieces)
  {
    Decode(pieces).value
  }

  function Denote(v: Syntax): Value
    requires ValidSyntax(v)
    decreases v
  {
    match v
    case True => Boolean(true)
    case False => Boolean(false)
    case Null => NullValue
    case Number(digits) => Numeric(digits)
    case Text(pieces) => StringValue(Name(pieces))
    case EmptyArray(_) => List([])
    case Array(_, items) => List(DenoteItems(items))
    case EmptyObject(_) => Members(map[])
    case Object(_, body, _) => Members(DenoteMembers(body, map[]))
  }

  function DenoteItems(items: Items): seq<Value>
    requires ValidItems(items)
    decreases items
  {
    match items
    case LastItem(value, _) => [Denote(value)]
    case Item(value, _, _, rest) => [Denote(value)] + DenoteItems(rest)
  }

  /** Inside a value a repeated name takes the last of its values. */
  function DenoteMembers(f: Fragment, earlier: map<string, Value>): map<string, Value>
    requires ValidFragment(f)
    decreases f, 1
  {
    var m := earlier[Name(f.pair.key) := Denote(f.pair.value)];
    if f.Last? then m else DenoteMembers(f.rest, m)
  }

  // ----- the members of a fragment -----

  function Names(f: Fragment): seq<string>
    requires ValidFragment(f)
  {
    if f.Last? then [Name(f.pair.key)] else [Name(f.pair.key)] + Names(f.rest)
  }

  function Values(f: Fragment): (r: seq<Value>)
    requires ValidFragment(f)
    ensures |r| == |Names(f)|
  {
    if f.Last? then [Denote(f.pair.value)] else [Denote(f.pair.value)] + Values(f.rest)
  }

  predicate Distinct(names: seq<string>) {
    forall i, j :: 0 <= i < j < |names| ==> names[i] != names[j]
  }

  /** `fields` is exactly the map from each name to its value. */
  ghost predicate IsMapOf(fields: map<string, Value>, names: seq<string>, values: seq<Value>)
    requires |names| == |values|
  {
    && (forall i :: 0 <= i < |names| ==> names[i] in fields && fields[names[i]] == values[i])
    && (forall name :: name in fields ==> name in names)
  }

  /** Collect members one by one, failing on a name already present. */
  function CollectUnique(f: Fragment, earlier: map<string, Value>): Option<map<string, Value>>
    requires ValidFragment(f)
  {
    var name := Name(f.pair.key);
    if name in earlier then None
    else
      var m := earlier[name := Denote(f.pair.value)];
      if f.Last? then Some(m) else CollectUnique(f.rest, m)
  }

  method VisitMembers(f: Fragment) returns (output: Option<map<string, Value>>)
    requires ValidFragment(f)
    ensures output == CollectUnique(f, map[])
  {
    var fields: map<string, Value> := map[];
    var access := Some(f);
    while access.Some?
      invariant access.Some? ==> ValidFragment(access.value)
      invariant CollectUnique(f, map[]) == if access.Some? then CollectUnique(access.value, fields) else Some(fields)
      decreases if access.Some? then |Names(access.value)| else 0
    {
      var pair := access.value.pair;
      var name := Name(pair.key);
      if name in fields {
        return None;
      }
      fields := fields[name := Denote(pair.value)];
      access := if access.value.Join? then Some(access.value.rest) else None;
    }
    return Some(fields);
  }

  lemma {:induction false} DistinctCons(name: string, tail: seq<string>)
    ensures Distinct([name] + tail) <==> Distinct(tail) && name !in tail
  {
    var names := [name] + tail;
    if Distinct(names) {
      forall i, j | 0 <= i < j < |tail|
        ensures tail[i] != tail[j]
      {
        assert names[i + 1] == tail[i] && names[j + 1] == tail[j];
      }
      forall j | 0 <= j < |tail|
        ensures tail[j] != name
      {
        assert names[0] != names[j + 1];
      }
    }
    if Distinct(tail) && name !in tail {
      forall i, j | 0 <= i < j < |names|
        ensures names[i] != names[j]
      {
        assert names[j] == tail[j - 1];
        assert i > 0 ==> names[i] == tail[i - 1];
      }
    }
  }

  /** `fields` has the earlier members and those of a fragment, and no others. */
  ghost predicate Adds(f: Fragment, earlier: map<string, Value>, fields: map<string, Value>)
    requires ValidFragment(f)
  {
    && (forall i :: 0 <= i < |Names(f)| ==> Names(f)[i] in fields && fields[Names(f)[i]] == Values(f)[i])
    && (forall name :: name in fields <==> name in earlier || name in Names(f))
    && (forall name :: name in earlier ==> name in fields && fields[name] == earlier[name])
  }

  lemma {:induction false} AddsFirst(f: Fragment, earlier: map<string, Value>, fields: map<string, Value>)
    requires f.Join? && ValidFragment(f) && Name(f.pair.key) !in earlier
    requires Adds(f.rest, earlier[Name(f.pair.key) := Denote(f.pair.value)], fields)
    ensures Adds(f, earlier, fields)
  {
    var name := Name(f.pair.key);
    var m := earlier[name := Denote(f.pair.value)];
    forall i | 0 <= i < |Names(f)|
      ensures Names(f)[i] in fields && fields[Names(f)[i]] == Values(f)[i]
    {
      if i == 0 {
        assert name in m;
      } else {
        assert Names(f)[i] == Names(f.rest)[i - 1] && Values(f)[i] == Values(f.rest)[i - 1];
      }
    }
    assert forall n :: n in Names(f) <==> n == name || n in Names(f.rest);
    forall n | n in earlier
      ensures n in fields && fields[n] == earlier[n]
    {
      assert n in m;
    }
  }

  lemma {:induction false} FreshOfRest(f: Fragment, earlier: map<string, Value>)
    requires f.Join? && ValidFragment(f)
    ensures var name, m := Name(f.pair.key), earlier[Name(f.pair.key) := Denote(f.pair.value)];
            Distinct(Names(f)) && (forall n :: n in Names(f) ==> n !in earlier)
            <==> name !in earlier && Distinct(Names(f.rest)) && (forall n :: n in Names(f.rest) ==> n !in m)
  {
    DistinctCons(Name(f.pair.key), Names(f.rest));
    assert forall n :: n in Names(f) <==> n == Name(f.pair.key) || n in Names(f.rest);
  }

  /** Collecting succeeds exactly if no name is repeated or already taken, and
      then adds exactly the members. */
  lemma {:induction false} CollectingIsMapping(f: Fragment, earlier: map<string, Value>)
    requires ValidFragment(f)
    ensures CollectUnique(f, earlier).Some? <==>
            Distinct(Names(f)) && forall name :: name in Names(f) ==> name !in earlier
    ensures CollectUnique(f, earlier).Some? ==> Adds(f, earlier, CollectUnique(f, earlier).value)
    decreases f
  {
    var name := Name(f.pair.key);
    if f.Last? {
      assert Names(f) == [name];
    } else {
      var m := earlier[name := Denote(f.pair.value)];
      CollectingIsMapping(f.rest, m);
      FreshOfRest(f, earlier);
      if CollectUnique(f, earlier).Some? {
        AddsFirst(f, earlier, CollectUnique(f, earlier).value);
      }
    }
  }

  // ----- the limits of the parsing library -----

  function Max(a: nat, b: nat): nat {
    if a >= b then a else b
  }

  /** How deep brackets nest inside a value. */
  function Height(v: Syntax): nat {
    match v
    case Array(_, items) => 1 + ItemsHeight(items)
    case Object(_, body, _) => 1 + FragmentHeight(body)
    case EmptyArray(_) => 1
    case EmptyObject(_) => 1
    case _ => 0
  }

  function ItemsHeight(items: Items): nat {
    match items
    case LastItem(value, _) => Height(value)
    case Item(value, _, _, rest) => Max(Height(value), ItemsHeight(rest))
  }

  function FragmentHeight(f: Fragment): nat {
    match f
    case Last(pair) => Height(pair.value)
    case Join(pair, _, rest) => Max(Height(pair.value), FragmentHeight(rest))
  }

  /** The parsing library refuses a 128th bracket inside the others. */
  const MAX_NESTING: nat := 127

  /** Every number in a value is one the library can represent; `accepts` says which. */
  predicate Numbers(v: Syntax, accepts: string -> bool) {
    match v
    case Number(digits) => accepts(digits)
    case Array(_, items) => ItemsNumbers(items, accepts)
    case Object(_, body, _) => FragmentNumbers(body, accepts)
    case _ => true
  }

  predicate ItemsNumbers(items: Items, accepts: string -> bool) {
    match items
    case LastItem(value, _) => Numbers(value, accepts)
    case Item(value, _, _, rest) => Numbers(value, accepts) && ItemsNumbers(rest, accepts)
  }

  predicate FragmentNumbers(f: Fragment, accepts: string -> bool) {
    match f
    case Last(pair) => Numbers(pair.value, accepts)
    case Join(pair, _, rest) => Numbers(pair.value, accepts) && FragmentNumbers(rest, accepts)
  }

  /** Within the limits of the library. */
  predicate Readable(v: Syntax, accepts: string -> bool) {
    Height(v) <= MAX_NESTING && Numbers(v, accepts)
  }

  /** Within the limits once it is enclosed in braces. */
  predicate FragmentReadable(f: Fragment, accepts: string -> bool) {
    FragmentHeight(f) < MAX_NESTING && FragmentNumbers(f, accepts)
  }

  /** One top-level object, its member names all different. */
  function ParseUniqueObject(text: string, accepts: string -> bool): Option<map<string, Value>> {
    match ParseDocument(text)
    case None => None
    case Some(v) =>
      DocumentIsExact(text, v);
      if !Readable(v, accepts) then None
      else
        match v
        case EmptyObject(_) => Some(map[])
        case Object(_, body, _) => CollectUnique(body, map[])
        case _ => None
  }

  // ----- the fragment parser -----

  /** The characters `trim` removes: the Unicode property White_Space. */
  predicate UnicodeWhitespace(c: char) {
    || '\U{09}' <= c <= '\U{0D}' || c == ' ' || c == '\U{85}' || c == '\U{A0}' || c == '\U{1680}'
    || '\U{2000}' <= c <= '\U{200A}' || c == '\U{2028}' || c == '\U{2029}' || c == '\U{202F}'
    || c == '\U{205F}' || c == '\U{3000}'
  }

  function TrimStart(text: string): string {
    if text != "" && UnicodeWhitespace(text[0]) then TrimStart(text[1..]) else text
  }

  function TrimEnd(text: string): string {
    if text != "" && UnicodeWhitespace(text[|text| - 1]) then TrimEnd(text[..|text| - 1]) else text
  }

  function Trim(text: string): string {
    TrimEnd(TrimStart(text))
  }

  function ParseMemberFragment(input: string, accepts: string -> bool): Option<map<string, Value>> {
    var trimmed := Trim(input);
    if trimmed == "" || '\0' in trimmed then None
    else if trimmed[0] == '{' then ParseUniqueObject(trimmed, accepts)
    else
      match ParseUniqueObject("{" + trimmed + "}", accepts)
      case Some(fields) => Some(fields)
      case None =>
        match InsertCommas(trimmed)
        case None => None
        case Some(normalized) => ParseUniqueObject("{" + normalized + "}", accepts)
  }

  // ----- repairing a fragment -----

  /** The fragment with every missing comma put in, after the whitespace that stood for it. */
  function Repaired(f: Fragment): Fragment {
    match f
    case Last(_) => f
    case Join(pair, separator, rest) =>
      var comma := match separator
                   case Comma(_, _) => separator
                   case Gap(blank) => Comma(blank, "");
      Join(pair, comma, Repaired(rest))
  }

  lemma {:induction false} RepairedKeepsLimits(f: Fragment, accepts: string -> bool)
    ensures FragmentReadable(Repaired(f), accepts) <==> FragmentReadable(f, accepts)
    ensures && FragmentHeight(Repaired(f)) == FragmentHeight(f)
            && FragmentNumbers(Repaired(f), accepts) == FragmentNumbers(f, accepts)
    decreases f
  {
    if f.Join? {
      RepairedKeepsLimits(f.rest, accepts);
    }
  }

  lemma {:induction false} RepairedKeepsMembers(f: Fragment)
    requires ValidFragment(f)
    ensures ValidFragment(Repaired(f)) && AllCommas(Repaired(f))
    ensures Names(Repaired(f)) == Names(f) && Values(Repaired(f)) == Values(f)
    ensures AllCommas(f) ==> Repaired(f) == f
    decreases f
  {
    if f.Join? {
      RepairedKeepsMembers(f.rest);
    }
  }

  // ----- the scanner on rendered text -----

  /** The last character of a rendered value. */
  function Ending(v: Syntax): char
    requires ValidSyntax(v)
    ensures Closer(Ending(v)) && !AsciiWhitespace(Ending(v))
  {
    match v
    case True => 'e'
    case False => 'e'
    case Null => 'l'
    case Number(digits) => NumberShape(digits); digits[|digits| - 1]
    case Text(_) => '"'
    case EmptyArray(_) => ']'
    case Array(_, _) => ']'
    case EmptyObject(_) => '}'
    case Object(_, _, _) => '}'
  }

  /** Outside strings, and no comma would be put before a quote. */
  predicate Quiet(s: Scan) {
    && !s.inString && !s.escaped
    && (s.gap ==> s.depth == 0 && s.last.Some? && !Closer(s.last.value))
  }

  /** The state after writing something that ends in the visible character `c`. */
  function After(s: Scan, c: char): Scan {
    s.(inString := false, escaped := false, gap := false, last := Some(c))
  }

  /** The state after whitespace. */
  function AfterBlank(s: Scan, blank: string): Scan {
    if blank == "" then s else s.(gap := s.depth == 0)
  }

  lemma {:induction false} FeedOne(s: Scan, c: char, next: string)
    ensures Feed(s, [c] + next) == Then(Advance(s, c), next)
  {
    assert ([c] + next)[1..] == next;
  }

  lemma {:induction false} FeedBlank(s: Scan, blank: string, next: string)
    requires Blank(blank) && !s.inString && !s.escaped
    ensures Feed(s, blank + next) == Prefixed(blank, Feed(AfterBlank(s, blank), next))
    decreases |blank|
  {
    if blank == "" {
      assert blank + next == next;
      if Feed(s, next).Some? {
        assert blank + Feed(s, next).value.1 == Feed(s, next).value.1;
      }
    } else {
      assert blank + next == [blank[0]] + (blank[1..] + next);
      FeedOne(s, blank[0], blank[1..] + next);
      var s' := Advance(s, blank[0]).value.0;
      FeedBlank(s', blank[1..], next);
      assert AfterBlank(s', blank[1..]) == AfterBlank(s, blank);
      if Feed(AfterBlank(s, blank), next).Some? {
        var rest := Feed(AfterBlank(s, blank), next).value.1;
        assert [blank[0]] + (blank[1..] + rest) == blank + rest;
      }
    }
  }

  /** Characters that neither open nor close anything, nor end a word. */
  predicate Inert(c: char) {
    c != '"' && c != '{' && c != '[' && c != '}' && c != ']' && !AsciiWhitespace(c)
  }

  // Each lemma below says: if the scanner, in the state it reaches after the
  // rendered part, turns `next` into `out`, then it turns the part followed by
  // `next` into the (repaired) part followed by `out`.

  lemma {:induction false} FeedInert(s: Scan, word: string, next: string, end: Scan, out: string)
    requires word != "" && !s.inString && !s.escaped
    requires forall i :: 0 <= i < |word| ==> Inert(word[i])
    requires Feed(After(s, word[|word| - 1]), next) == Some((end, out))
    ensures Feed(s, word + next) == Some((end, word + out))
    decreases |word|
  {
    assert word + next == [word[0]] + (word[1..] + next);
    FeedOne(s, word[0], word[1..] + next);
    if |word| == 1 {
      assert word[1..] + next == next;
      assert word == [word[0]];
    } else {
      FeedInert(After(s, word[0]), word[1..], next, end, out);
      assert [word[0]] + (word[1..] + out) == word + out;
    }
  }

  lemma {:induction false} FeedInString(s: Scan, c: char, next: string)
    requires s.inString && !s.escaped && c != '"' && c != '\\'
    ensures Feed(s, [c] + next) == Prefixed([c], Feed(s.(gap := false, last := Visible(s.last, c)), next))
  {
    FeedOne(s, c, next);
  }

  lemma {:induction false} FeedEscape(s: Scan, c: char, next: string)
    requires s.inString && !s.escaped
    ensures Feed(s, ['\\', c] + next) ==
              Prefixed(['\\', c], Feed(s.(gap := false, last := Visible(Some('\\'), c)), next))
  {
    assert ['\\', c] + next == ['\\'] + ([c] + next);
    FeedOne(s, '\\', [c] + next);
    var escaped := Advance(s, '\\').value.0;
    FeedOne(escaped, c, next);
    var after := s.(gap := false, last := Visible(Some('\\'), c));
    if Feed(after, next).Some? {
      assert ['\\'] + ([c] + Feed(after, next).value.1) == ['\\', c] + Feed(after, next).value.1;
    }
  }

  lemma {:induction false} FeedTwoInString(s: Scan, a: char, b: char, next: string, end: Scan, out: string)
    requires s.inString && !s.escaped && Hex(a) && Hex(b)
    requires Feed(s.(gap := false, last := Some(b)), next) == Some((end, out))
    ensures Feed(s, [a, b] + next) == Some((end, [a, b] + out))
  {
    FeedInString(s.(gap := false, last := Some(a)), b, next);
    FeedInString(s, a, [b] + next);
    assert [a, b] + next == [a] + ([b] + next);
    assert [a, b] + out == [a] + ([b] + out);
  }

  lemma {:induction false} FeedFourInString(
      s: Scan, a: char, b: char, c: char, d: char, next: string, end: Scan, out: string)
    requires s.inString && !s.escaped
    requires Hex(a) && Hex(b) && Hex(c) && Hex(d)
    requires Feed(s.(gap := false, last := Some(d)), next) == Some((end, out))
    ensures Feed(s, [a, b, c, d] + next) == Some((end, [a, b, c, d] + out))
  {
    FeedTwoInString(s.(gap := false, last := Some(b)), c, d, next, end, out);
    FeedTwoInString(s, a, b, [c, d] + next, end, [c, d] + out);
    assert [a, b, c, d] + next == [a, b] + ([c, d] + next);
    assert [a, b, c, d] + out == [a, b] + ([c, d] + out);
  }

  lemma {:induction false} FeedUnicodeEscape(
      s: Scan, a: char, b: char, c: char, d: char, next: string, end: Scan, out: string)
    requires s.inString && !s.escaped
    requires Hex(a) && Hex(b) && Hex(c) && Hex(d)
    requires Feed(s.(gap := false, last := Some(d)), next) == Some((end, out))
    ensures Feed(s, ['\\', 'u'] + ([a, b, c, d] + next)) == Some((end, ['\\', 'u'] + ([a, b, c, d] + out)))
  {
    FeedFourInString(s.(gap := false, last := Some('u')), a, b, c, d, next, end, out);
    FeedEscape(s, 'u', [a, b, c, d] + next);
  }

  /** What `last` is after one character or escape of a string. */
  function LastAfter(s: Scan, p: Piece): Option<char> {
    match p
    case Plain(c) => Visible(s.last, c)
    case Short(c) => Visible(Some('\\'), c)
    case Unicode(_, _, _, h3) => Some(h3)
  }

  lemma {:induction false} FeedPiece(s: Scan, p: Piece, tail: string, end: Scan, out: string)
    requires s.inString && !s.escaped && ValidPiece(p)
    requires Feed(s.(gap := false, last := LastAfter(s, p)), tail) == Some((end, out))
    ensures Feed(s, RenderPiece(p, tail)) == Some((end, RenderPiece(p, out)))
  {
    match p
    case Plain(c) =>
      FeedInString(s, c, tail);
    case Short(c) =>
      FeedEscape(s, c, tail);
    case Unicode(h0, h1, h2, h3) =>
      FeedUnicodeEscape(s, h0, h1, h2, h3, tail, end, out);
  }

  /** The rest of a string, from inside it to just after its closing quote. */
  lemma {:induction false} FeedTail(s: Scan, pieces: seq<Piece>, next: string, end: Scan, out: string)
    requires s.inString && !s.escaped && ValidPieces(pieces)
    requires Feed(After(s, '"'), next) == Some((end, out))
    ensures Feed(s, RenderTail(pieces, next)) == Some((end, RenderTail(pieces, out)))
    decreases |pieces|
  {
    if pieces == [] {
      FeedOne(s, '"', next);
    } else {
      var tail, result := RenderTail(pieces[1..], next), RenderTail(pieces[1..], out);
      assert ValidPiece(pieces[0]);
      FeedTail(s.(gap := false, last := LastAfter(s, pieces[0])), pieces[1..], next, end, out);
      FeedPiece(s, pieces[0], tail, end, result);
    }
  }

  lemma {:induction false} FeedString(s: Scan, pieces: seq<Piece>, next: string, end: Scan, out: string)
    requires Quiet(s) && ValidPieces(pieces)
    requires Feed(After(s, '"'), next) == Some((end, out))
    ensures Feed(s, ['"'] + RenderTail(pieces, next)) == Some((end, ['"'] + RenderTail(pieces, out)))
  {
    FeedOne(s, '"', RenderTail(pieces, next));
    FeedTail(Advance(s, '"').value.0, pieces, next, end, out);
  }

  /** Whitespace followed by a character that is inert or closes a bracket. */
  lemma {:induction false} FeedBlankThen(
      s: Scan, blank: string, c: char, next: string, after: Scan, end: Scan, out: string)
    requires !s.inString && !s.escaped && Blank(blank)
    requires Advance(s, c) == Some((after, [c])) && after == after.(gap := false, last := Some(c))
    requires c != '"' && !AsciiWhitespace(c)
    requires Feed(after, next) == Some((end, out))
    ensures Feed(s, blank + ([c] + next)) == Some((end, blank + ([c] + out)))
  {
    FeedBlank(s, blank, [c] + next);
    FeedOne(AfterBlank(s, blank), c, next);
  }

  /** The values that contain no other value. */
  lemma {:induction false} FeedScalar(s: Scan, v: Syntax, next: string, end: Scan, out: string)
    requires ValidSyntax(v) && Quiet(s) && !v.Array? && !v.Object? && s.depth + Height(v) <= MAX_DEPTH
    requires Feed(After(s, Ending(v)), next) == Some((end, out))
    ensures Feed(s, Render(v, next)) == Some((end, Render(v, out)))
  {
    match v
    case True =>
      FeedInert(s, "true", next, end, out);
    case False =>
      FeedInert(s, "false", next, end, out);
    case Null =>
      FeedInert(s, "null", next, end, out);
    case Number(digits) =>
      NumberShape(digits);
      FeedInert(s, digits, next, end, out);
    case Text(pieces) =>
      FeedString(s, pieces, next, end, out);
    case EmptyArray(blank) =>
      FeedBlankThen(Inside(s, '['), blank, ']', next, After(s, ']'), end, out);
      FeedOpening(s, '[', blank + ([']'] + next), end, blank + ([']'] + out));
    case EmptyObject(blank) =>
      FeedBlankThen(Inside(s, '{'), blank, '}', next, After(s, '}'), end, out);
      FeedOpening(s, '{', blank + (['}'] + next), end, blank + (['}'] + out));
    case _ =>
  }

  function Inside(s: Scan, bracket: char): Scan {
    After(s, bracket).(depth := s.depth + 1)
  }

  lemma {:induction false} FeedOpening(s: Scan, bracket: char, next: string, end: Scan, out: string)
    requires Quiet(s) && s.depth < MAX_DEPTH && (bracket == '[' || bracket == '{')
    requires Feed(Inside(s, bracket), next) == Some((end, out))
    ensures Feed(s, [bracket] + next) == Some((end, [bracket] + out))
  {
    FeedOne(s, bracket, next);
  }

  lemma {:induction false} FeedValue(s: Scan, v: Syntax, next: string, end: Scan, out: string)
    requires ValidSyntax(v) && Quiet(s) && s.depth + Height(v) <= MAX_DEPTH
    requires Feed(After(s, Ending(v)), next) == Some((end, out))
    ensures Feed(s, Render(v, next)) == Some((end, Render(v, out)))
    decreases v
  {
    if v.Array? {
      var inside := Inside(s, '[');
      var inner, result := RenderItems(v.items, next), RenderItems(v.items, out);
      FeedItems(AfterBlank(inside, v.before), v.items, next, end, out);
      FeedBlank(inside, v.before, inner);
      FeedOpening(s, '[', v.before + inner, end, v.before + result);
    } else if v.Object? {
      var inside := Inside(s, '{');
      var tail, done := v.after + (['}'] + next), v.after + (['}'] + out);
      RepairedKeepsMembers(v.body);
      FeedBlankThen(After(inside, FragmentEnding(v.body)), v.after, '}', next, After(s, '}'), end, out);
      FeedFragment(AfterBlank(inside, v.before), v.body, tail, end, done);
      FeedBlank(inside, v.before, RenderFragment(v.body, tail));
      FeedOpening(s, '{', v.before + RenderFragment(v.body, tail), end, v.before + RenderFragment(v.body, done));
    } else {
      FeedScalar(s, v, next, end, out);
    }
  }

  lemma {:induction false} FeedItems(s: Scan, items: Items, next: string, end: Scan, out: string)
    requires ValidItems(items) && Quiet(s) && s.depth > 0 && s.depth + ItemsHeight(items) <= MAX_DEPTH
    requires Feed(After(s, ']').(depth := s.depth - 1), next) == Some((end, out))
    ensures Feed(s, RenderItems(items, next)) == Some((end, RenderItems(items, out)))
    decreases items
  {
    var finished := After(s, Ending(items.value));
    match items
    case LastItem(value, after) =>
      FeedBlankThen(finished, after, ']', next, After(s, ']').(depth := s.depth - 1), end, out);
      FeedValue(s, value, after + ([']'] + next), end, after + ([']'] + out));
    case Item(value, after, before, rest) =>
      var inner, result := RenderItems(rest, next), RenderItems(rest, out);
      FeedItems(AfterBlank(After(s, ','), before), rest, next, end, out);
      FeedBlank(After(s, ','), before, inner);
      FeedBlankThen(finished, after, ',', before + inner, After(s, ','), end, before + result);
      FeedValue(s, value, after + ([','] + (before + inner)), end, after + ([','] + (before + result)));
  }

  function FragmentEnding(f: Fragment): (c: char)
    requires ValidFragment(f)
    ensures Closer(c)
  {
    if f.Last? then Ending(f.pair.value) else FragmentEnding(f.rest)
  }

  lemma {:induction false} FeedPair(s: Scan, pair: Pair, next: string, end: Scan, out: string)
    requires ValidPair(pair) && Quiet(s) && s.depth + Height(pair.value) <= MAX_DEPTH
    requires Feed(After(s, Ending(pair.value)), next) == Some((end, out))
    ensures Feed(s, RenderPair(pair, next)) == Some((end, RenderPair(pair, out)))
    decreases pair, 1
  {
    var value, result := Render(pair.value, next), Render(pair.value, out);
    var named, colon := After(s, '"'), After(s, ':');
    FeedValue(AfterBlank(colon, pair.beforeValue), pair.value, next, end, out);
    FeedBlank(colon, pair.beforeValue, value);
    FeedBlankThen(named, pair.afterKey, ':', pair.beforeValue + value, colon, end, pair.beforeValue + result);
    FeedString(s, pair.key, pair.afterKey + ([':'] + (pair.beforeValue + value)),
               end, pair.afterKey + ([':'] + (pair.beforeValue + result)));
  }

  /** After a gap the scanner puts the missing comma before the quote, and then
      goes on as if the comma had been there. */
  lemma {:induction false} FeedQuoteAfterGap(s: Scan, text: string, end: Scan, out: string)
    requires !s.inString && !s.escaped && s.gap && s.last.Some? && Closer(s.last.value)
    requires text != "" && text[0] == '"'
    requires Feed(s.(last := Some(',')), text) == Some((end, out))
    ensures Feed(s, text) == Some((end, [','] + out))
  {
    assert text == ['"'] + text[1..];
    FeedOne(s, '"', text[1..]);
    FeedOne(s.(last := Some(',')), '"', text[1..]);
    var rest := Feed(After(s, '"').(inString := true), text[1..]).value.1;
    assert ",\"" + rest == [','] + (['"'] + rest);
  }

  /** A separator is kept, with the missing comma put in. */
  lemma {:induction false} FeedSeparator(s: Scan, separator: Separator, text: string, end: Scan, out: string)
    requires ValidSeparator(separator) && (separator.Gap? ==> s.depth == 0)
    requires !s.inString && !s.escaped && !s.gap && s.last.Some? && Closer(s.last.value)
    requires text != "" && text[0] == '"'
    requires forall gap: bool | gap ==> s.depth == 0 ::
               Feed(s.(gap := gap, last := Some(',')), text) == Some((end, out))
    ensures var repaired := match separator
                            case Comma(_, _) => separator
                            case Gap(blank) => Comma(blank, "");
            Feed(s, RenderSeparator(separator, text)) == Some((end, RenderSeparator(repaired, out)))
  {
    match separator
    case Comma(before, after) =>
      var comma := s.(last := Some(','));
      assert AfterBlank(comma, after) == s.(gap := after != "" && s.depth == 0, last := Some(','));
      FeedBlank(comma, after, text);
      FeedBlankThen(s, before, ',', after + text, comma, end, after + out);
    case Gap(blank) =>
      assert AfterBlank(s, blank) == s.(gap := true);
      FeedQuoteAfterGap(s.(gap := true), text, end, out);
      FeedBlank(s, blank, text);
      assert "" + out == out;
  }

  lemma {:induction false} FeedFragment(s: Scan, f: Fragment, next: string, end: Scan, out: string)
    requires ValidFragment(f) && Quiet(s) && (s.depth == 0 || AllCommas(f))
    requires s.depth + FragmentHeight(f) <= MAX_DEPTH
    requires Feed(After(s, FragmentEnding(f)), next) == Some((end, out))
    ensures Feed(s, RenderFragment(f, next)) == Some((end, RenderFragment(Repaired(f), out)))
    decreases f, 2
  {
    if f.Last? {
      FeedPair(s, f.pair, next, end, out);
    } else {
      var inner, result := RenderFragment(f.rest, next), RenderFragment(Repaired(f.rest), out);
      var finished := After(s, Ending(f.pair.value));
      forall gap: bool | gap ==> s.depth == 0
        ensures Feed(finished.(gap := gap, last := Some(',')), inner) == Some((end, result))
      {
        FeedFragment(finished.(gap := gap, last := Some(',')), f.rest, next, end, out);
      }
      FragmentStartsWithQuote(f.rest, next);
      FeedSeparator(finished, f.separator, inner, end, result);
      FeedPair(s, f.pair, RenderSeparator(f.separator, inner), end, RenderSeparator(Repaired(f).separator, result));
    }
  }

  // ----- framing: what follows a rendered part stays where it is -----

  lemma {:induction false} PiecesFrame(pieces: seq<Piece>, a: string, b: string)
    requires ValidPieces(pieces)
    ensures RenderPieces(pieces, a + b) == RenderPieces(pieces, a) + b
    ensures '\0' !in a ==> '\0' !in RenderPieces(pieces, a)
    decreases |pieces|
  {
    if pieces != [] {
      assert ValidPiece(pieces[0]);
      PiecesFrame(pieces[1..], a, b);
      PieceFrame(pieces[0], RenderPieces(pieces[1..], a), b);
    }
  }

  lemma {:induction false} PieceFrame(p: Piece, a: string, b: string)
    requires ValidPiece(p)
    ensures RenderPiece(p, a + b) == RenderPiece(p, a) + b
    ensures '\0' !in a ==> '\0' !in RenderPiece(p, a)
  {
    match p
    case Plain(c) =>
      assert [c] + (a + b) == ([c] + a) + b;
    case Short(c) =>
      assert ['\\', c] + (a + b) == (['\\', c] + a) + b;
    case Unicode(h0, h1, h2, h3) =>
      assert [h0, h1, h2, h3] + (a + b) == ([h0, h1, h2, h3] + a) + b;
      assert ['\\', 'u'] + (([h0, h1, h2, h3] + a) + b) == (['\\', 'u'] + ([h0, h1, h2, h3] + a)) + b;
  }

  lemma {:induction false} StringFrame(pieces: seq<Piece>, a: string, b: string)
    requires ValidPieces(pieces)
    ensures ['"'] + RenderTail(pieces, a + b) == (['"'] + RenderTail(pieces, a)) + b
    ensures '\0' !in a ==> '\0' !in ['"'] + RenderTail(pieces, a)
  {
    assert ['"'] + (a + b) == (['"'] + a) + b;
    PiecesFrame(pieces, ['"'] + a, b);
  }

  /** Whitespace, one character and more text, followed by `b`. */
  lemma {:induction false} BlankFrame(blank: string, c: char, a: string, b: string)
    requires Blank(blank)
    ensures blank + ([c] + (a + b)) == (blank + ([c] + a)) + b
    ensures blank + (a + b) == (blank + a) + b
    ensures [c] + (a + b) == ([c] + a) + b
    ensures '\0' !in a && c != '\0' ==> '\0' !in blank + ([c] + a) && '\0' !in blank + a && '\0' !in [c] + a
  {
    assert '\0' !in blank;
  }

  lemma {:induction false} ValueFrame(v: Syntax, a: string, b: string)
    requires ValidSyntax(v)
    ensures Render(v, a + b) == Render(v, a) + b
    ensures '\0' !in a ==> '\0' !in Render(v, a)
    decreases v
  {
    match v
    case True =>
    case False =>
    case Null =>
    case Number(digits) =>
      NumberShape(digits);
      assert '\0' !in digits;
    case Text(pieces) =>
      StringFrame(pieces, a, b);
    case EmptyArray(blank) =>
      BlankFrame(blank, ']', a, b);
      BlankFrame("", '[', blank + ([']'] + a), b);
    case Array(before, items) =>
      ItemsFrame(items, a, b);
      BlankFrame(before, '[', RenderItems(items, a), b);
      BlankFrame("", '[', before + RenderItems(items, a), b);
    case EmptyObject(blank) =>
      BlankFrame(blank, '}', a, b);
      BlankFrame("", '{', blank + (['}'] + a), b);
    case Object(before, body, after) =>
      BlankFrame(after, '}', a, b);
      FragmentFrame(body, after + (['}'] + a), b);
      var inner := RenderFragment(body, after + (['}'] + a));
      BlankFrame(before, '{', inner, b);
      BlankFrame("", '{', before + inner, b);
  }

  lemma {:induction false} ItemsFrame(items: Items, a: string, b: string)
    requires ValidItems(items)
    ensures RenderItems(items, a + b) == RenderItems(items, a) + b
    ensures '\0' !in a ==> '\0' !in RenderItems(items, a)
    decreases items
  {
    match items
    case LastItem(value, after) =>
      BlankFrame(after, ']', a, b);
      ValueFrame(value, after + ([']'] + a), b);
    case Item(value, after, before, rest) =>
      ItemsFrame(rest, a, b);
      var inner := RenderItems(rest, a);
      BlankFrame(before, ',', inner, b);
      BlankFrame(after, ',', before + inner, b);
      ValueFrame(value, after + ([','] + (before + inner)), b);
  }

  lemma {:induction false} PairFrame(pair: Pair, a: string, b: string)
    requires ValidPair(pair)
    ensures RenderPair(pair, a + b) == RenderPair(pair, a) + b
    ensures '\0' !in a ==> '\0' !in RenderPair(pair, a)
    decreases pair, 1
  {
    ValueFrame(pair.value, a, b);
    var value := Render(pair.value, a);
    BlankFrame(pair.beforeValue, ':', value, b);
    BlankFrame(pair.afterKey, ':', pair.beforeValue + value, b);
    StringFrame(pair.key, pair.afterKey + ([':'] + (pair.beforeValue + value)), b);
  }

  lemma {:induction false} FragmentFrame(f: Fragment, a: string, b: string)
    requires ValidFragment(f)
    ensures RenderFragment(f, a + b) == RenderFragment(f, a) + b
    ensures '\0' !in a ==> '\0' !in RenderFragment(f, a)
    decreases f, 2
  {
    if f.Last? {
      PairFrame(f.pair, a, b);
    } else {
      FragmentFrame(f.rest, a, b);
      var inner := RenderFragment(f.rest, a);
      match f.separator {
        case Comma(before, after) =>
          BlankFrame(after, ',', inner, b);
          BlankFrame(before, ',', after + inner, b);
        case Gap(blank) =>
          BlankFrame(blank, ',', inner, b);
      }
      PairFrame(f.pair, RenderSeparator(f.separator, inner), b);
    }
  }

  // ----- how rendered text ends -----

  predicate EndsIn(text: string, c: char) {
    text != "" && text[|text| - 1] == c
  }

  lemma {:induction false} AppendedEnd(a: string, b: string, c: char)
    requires EndsIn(b, c)
    ensures EndsIn(a + b, c)
  {
  }

  lemma {:induction false} ItemsEnd(items: Items)
    requires ValidItems(items)
    ensures EndsIn(RenderItems(items, ""), ']')
    decreases items
  {
    match items
    case LastItem(value, after) =>
      var tail := after + ([']'] + "");
      ValueFrame(value, "", tail);
      assert "" + tail == tail;
      AppendedEnd(Render(value, ""), tail, ']');
    case Item(value, after, before, rest) =>
      var tail := after + ([','] + (before + RenderItems(rest, "")));
      ItemsEnd(rest);
      ValueFrame(value, "", tail);
      assert "" + tail == tail;
      AppendedEnd(Render(value, ""), tail, ']');
  }

  lemma {:induction false} TextEnds(pieces: seq<Piece>)
    requires ValidPieces(pieces)
    ensures EndsIn(['"'] + RenderTail(pieces, ""), '"')
  {
    PiecesFrame(pieces, "", "\"");
    assert "" + "\"" == "\"" && ['"'] + "" == "\"";
    AppendedEnd(['"'] + RenderPieces(pieces, ""), "\"", '"');
    assert ['"'] + (RenderPieces(pieces, "") + "\"") == (['"'] + RenderPieces(pieces, "")) + "\"";
  }

  lemma {:induction false} ArrayEnds(before: string, items: Items)
    requires ValidItems(items)
    ensures EndsIn(['['] + (before + RenderItems(items, "")), ']')
  {
    ItemsEnd(items);
    AppendedEnd(before, RenderItems(items, ""), ']');
    AppendedEnd(['['], before + RenderItems(items, ""), ']');
  }

  lemma {:induction false} ObjectEnds(before: string, body: Fragment, after: string)
    requires ValidFragment(body)
    ensures EndsIn(['{'] + (before + RenderFragment(body, after + (['}'] + ""))), '}')
  {
    var tail := after + (['}'] + "");
    FragmentFrame(body, "", tail);
    assert "" + tail == tail;
    AppendedEnd(RenderFragment(body, ""), tail, '}');
    AppendedEnd(before, RenderFragment(body, tail), '}');
    AppendedEnd(['{'], before + RenderFragment(body, tail), '}');
  }

  lemma {:induction false} PlainEnds(v: Syntax)
    requires ValidSyntax(v) && !v.Text? && !v.Array? && !v.Object?
    ensures EndsIn(Render(v, ""), Ending(v))
  {
    if v.Number? {
      NumberShape(v.digits);
      assert v.digits + "" == v.digits;
    }
  }

  lemma {:induction false} ValueEnds(v: Syntax)
    requires ValidSyntax(v)
    ensures EndsIn(Render(v, ""), Ending(v))
  {
    match v
    case Text(pieces) => TextEnds(pieces);
    case Array(before, items) => ArrayEnds(before, items);
    case Object(before, body, after) => ObjectEnds(before, body, after);
    case _ => PlainEnds(v);
  }

  lemma {:induction false} PairEnds(pair: Pair)
    requires ValidPair(pair)
    ensures EndsIn(RenderPair(pair, ""), Ending(pair.value))
  {
    var value := Render(pair.value, "");
    var tail := pair.afterKey + ([':'] + (pair.beforeValue + value));
    ValueEnds(pair.value);
    assert tail == (pair.afterKey + ([':'] + pair.beforeValue)) + value;
    AppendedEnd(pair.afterKey + ([':'] + pair.beforeValue), value, Ending(pair.value));
    StringFrame(pair.key, "", tail);
    assert "" + tail == tail;
    AppendedEnd(['"'] + RenderTail(pair.key, ""), tail, Ending(pair.value));
  }

  lemma {:induction false} FragmentEnds(f: Fragment)
    requires ValidFragment(f)
    ensures EndsIn(RenderFragment(f, ""), FragmentEnding(f))
    decreases f
  {
    if f.Last? {
      PairEnds(f.pair);
    } else {
      var inner := RenderFragment(f.rest, "");
      var tail := RenderSeparator(f.separator, inner);
      FragmentEnds(f.rest);
      match f.separator {
        case Comma(before, after) =>
          AppendedEnd(before + ([','] + after), inner, FragmentEnding(f));
          assert tail == (before + ([','] + after)) + inner;
        case Gap(blank) =>
          AppendedEnd(blank, inner, FragmentEnding(f));
      }
      PairFrame(f.pair, "", tail);
      assert "" + tail == tail;
      AppendedEnd(RenderPair(f.pair, ""), tail, FragmentEnding(f));
    }
  }

  // ----- the scanner on text that is nested too deeply for it -----

  lemma {:induction false} PastValue(s: Scan, v: Syntax, next: string)
    requires ValidSyntax(v) && Quiet(s) && s.depth + Height(v) <= MAX_DEPTH
    requires Feed(After(s, Ending(v)), next).None?
    ensures Feed(s, Render(v, next)).None?
  {
    FeedValue(s, v, "", After(s, Ending(v)), "");
    ValueFrame(v, "", next);
    assert "" + next == next;
    FeedAppend(s, Render(v, ""), next);
  }

  lemma {:induction false} PastPair(s: Scan, pair: Pair, next: string)
    requires ValidPair(pair) && Quiet(s) && s.depth + Height(pair.value) <= MAX_DEPTH
    requires Feed(After(s, Ending(pair.value)), next).None?
    ensures Feed(s, RenderPair(pair, next)).None?
  {
    FeedPair(s, pair, "", After(s, Ending(pair.value)), "");
    PairFrame(pair, "", next);
    assert "" + next == next;
    FeedAppend(s, RenderPair(pair, ""), next);
  }

  lemma {:induction false} PastString(s: Scan, pieces: seq<Piece>, next: string)
    requires Quiet(s) && ValidPieces(pieces)
    requires Feed(After(s, '"'), next).None?
    ensures Feed(s, ['"'] + RenderTail(pieces, next)).None?
  {
    FeedString(s, pieces, "", After(s, '"'), "");
    StringFrame(pieces, "", next);
    assert "" + next == next;
    FeedAppend(s, ['"'] + RenderTail(pieces, ""), next);
  }

  lemma {:induction false} PastBlankThen(s: Scan, blank: string, c: char, next: string, after: Scan)
    requires !s.inString && !s.escaped && Blank(blank)
    requires Advance(AfterBlank(s, blank), c) == Some((after, [c]))
    requires Feed(after, next).None?
    ensures Feed(s, blank + ([c] + next)).None?
  {
    FeedBlank(s, blank, [c] + next);
    FeedOne(AfterBlank(s, blank), c, next);
  }

  lemma {:induction false} PastOpening(s: Scan, bracket: char, blank: string, next: string)
    requires Quiet(s) && (bracket == '[' || bracket == '{') && Blank(blank)
    requires s.depth < MAX_DEPTH ==> Feed(AfterBlank(Inside(s, bracket), blank), next).None?
    requires s.depth <= MAX_DEPTH
    ensures Feed(s, [bracket] + (blank + next)).None?
  {
    FeedOne(s, bracket, blank + next);
    if s.depth < MAX_DEPTH {
      FeedBlank(Inside(s, bracket), blank, next);
    }
  }

  lemma {:induction false} TooDeepValue(s: Scan, v: Syntax, next: string)
    requires ValidSyntax(v) && Quiet(s) && s.depth <= MAX_DEPTH < s.depth + Height(v)
    ensures Feed(s, Render(v, next)).None?
    decreases v
  {
    match v
    case Array(before, items) =>
      if s.depth < MAX_DEPTH {
        TooDeepItems(AfterBlank(Inside(s, '['), before), items, next);
      }
      PastOpening(s, '[', before, RenderItems(items, next));
    case Object(before, body, after) =>
      if s.depth < MAX_DEPTH {
        TooDeepFragment(AfterBlank(Inside(s, '{'), before), body, after + (['}'] + next));
      }
      PastOpening(s, '{', before, RenderFragment(body, after + (['}'] + next)));
    case EmptyArray(blank) =>
      PastOpening(s, '[', blank, [']'] + next);
    case EmptyObject(blank) =>
      PastOpening(s, '{', blank, ['}'] + next);
    case _ =>
  }

  lemma {:induction false} TooDeepItems(s: Scan, items: Items, next: string)
    requires ValidItems(items) && Quiet(s) && 0 < s.depth <= MAX_DEPTH < s.depth + ItemsHeight(items)
    ensures Feed(s, RenderItems(items, next)).None?
    decreases items
  {
    match items
    case LastItem(value, after) =>
      TooDeepValue(s, value, after + ([']'] + next));
    case Item(value, after, before, rest) =>
      var inner := RenderItems(rest, next);
      if s.depth + Height(value) > MAX_DEPTH {
        TooDeepValue(s, value, after + ([','] + (before + inner)));
      } else {
        var comma := After(s, ',');
        TooDeepItems(AfterBlank(comma, before), rest, next);
        FeedBlank(comma, before, inner);
        PastBlankThen(After(s, Ending(value)), after, ',', before + inner, comma);
        PastValue(s, value, after + ([','] + (before + inner)));
      }
  }

  lemma {:induction false} TooDeepPair(s: Scan, pair: Pair, next: string)
    requires ValidPair(pair) && Quiet(s) && s.depth <= MAX_DEPTH < s.depth + Height(pair.value)
    ensures Feed(s, RenderPair(pair, next)).None?
    decreases pair, 1
  {
    var value := Render(pair.value, next);
    var named, colon := After(s, '"'), After(s, ':');
    TooDeepValue(AfterBlank(colon, pair.beforeValue), pair.value, next);
    FeedBlank(colon, pair.beforeValue, value);
    PastBlankThen(named, pair.afterKey, ':', pair.beforeValue + value, colon);
    PastString(s, pair.key, pair.afterKey + ([':'] + (pair.beforeValue + value)));
  }

  lemma {:induction false} PastSeparator(s: Scan, separator: Separator, text: string)
    requires ValidSeparator(separator) && (separator.Gap? ==> s.depth == 0)
    requires !s.inString && !s.escaped && !s.gap && s.last.Some? && Closer(s.last.value)
    requires text != "" && text[0] == '"'
    requires forall gap: bool | gap ==> s.depth == 0 :: Feed(s.(gap := gap, last := Some(',')), text).None?
    ensures Feed(s, RenderSeparator(separator, text)).None?
  {
    match separator
    case Comma(before, after) =>
      var comma := s.(last := Some(','));
      assert AfterBlank(comma, after) == s.(gap := after != "" && s.depth == 0, last := Some(','));
      FeedBlank(comma, after, text);
      PastBlankThen(s, before, ',', after + text, comma);
    case Gap(blank) =>
      assert AfterBlank(s, blank) == s.(gap := true);
      assert text == ['"'] + text[1..];
      FeedOne(s.(gap := true), '"', text[1..]);
      FeedOne(s.(gap := false, last := Some(',')), '"', text[1..]);
      FeedBlank(s, blank, text);
  }

  lemma {:induction false} TooDeepFragment(s: Scan, f: Fragment, next: string)
    requires ValidFragment(f) && Quiet(s) && (s.depth == 0 || AllCommas(f))
    requires s.depth <= MAX_DEPTH < s.depth + FragmentHeight(f)
    ensures Feed(s, RenderFragment(f, next)).None?
    decreases f, 2
  {
    if f.Last? || s.depth + Height(f.pair.value) > MAX_DEPTH {
      TooDeepPair(s, f.pair, if f.Last? then next else RenderSeparator(f.separator, RenderFragment(f.rest, next)));
    } else {
      var inner := RenderFragment(f.rest, next);
      var finished := After(s, Ending(f.pair.value));
      forall gap: bool | gap ==> s.depth == 0
        ensures Feed(finished.(gap := gap, last := Some(',')), inner).None?
      {
        TooDeepFragment(finished.(gap := gap, last := Some(',')), f.rest, next);
      }
      FragmentStartsWithQuote(f.rest, next);
      PastSeparator(finished, f.separator, inner);
      PastPair(s, f.pair, RenderSeparator(f.separator, inner));
    }
  }

  // ----- the repair theorem -----

  predicate AllUnicodeWhitespace(text: string) {
    forall i :: 0 <= i < |text| ==> UnicodeWhitespace(text[i])
  }

  lemma {:induction false} TrimStartSkips(lead: string, text: string)
    requires AllUnicodeWhitespace(lead)
    requires text != "" && !UnicodeWhitespace(text[0])
    ensures TrimStart(lead + text) == text
  {
    if lead == "" {
      assert lead + text == text;
    } else {
      assert (lead + text)[1..] == lead[1..] + text;
      TrimStartSkips(lead[1..], text);
    }
  }

  lemma {:induction false} TrimEndSkips(text: string, trail: string)
    requires AllUnicodeWhitespace(trail)
    requires text != "" && !UnicodeWhitespace(text[|text| - 1])
    ensures TrimEnd(text + trail) == text
    decreases |trail|
  {
    if trail == "" {
      assert text + trail == text;
    } else {
      assert (text + trail)[..|text + trail| - 1] == text + trail[..|trail| - 1];
      TrimEndSkips(text, trail[..|trail| - 1]);
    }
  }

  lemma {:induction false} TrimExactly(lead: string, text: string, trail: string)
    requires AllUnicodeWhitespace(lead) && AllUnicodeWhitespace(trail)
    requires text != "" && !UnicodeWhitespace(text[0]) && !UnicodeWhitespace(text[|text| - 1])
    ensures Trim(lead + text + trail) == text
  {
    assert lead + text + trail == lead + (text + trail);
    TrimStartSkips(lead, text + trail);
    TrimEndSkips(text, trail);
  }

  lemma {:induction false} InsertionFrom(text: string, end: Scan, out: string)
    requires Feed(START, text) == Some((end, out)) && !end.inString && end.depth == 0
    ensures InsertCommas(text) == Some(out)
  {
  }

  /** The scanner turns a fragment into the fragment with its missing commas. */
  lemma {:induction false} ScannerRepairs(f: Fragment)
    requires ValidFragment(f) && FragmentHeight(f) <= MAX_DEPTH
    ensures InsertCommas(RenderFragment(f, "")) == Some(RenderFragment(Repaired(f), ""))
  {
    var end := After(START, FragmentEnding(f));
    FeedFragment(START, f, "", end, "");
    InsertionFrom(RenderFragment(f, ""), end, RenderFragment(Repaired(f), ""));
  }

  /** Nothing of a fragment is trimmed away. */
  lemma {:induction false} FragmentIsTrimmed(f: Fragment)
    requires ValidFragment(f)
    ensures var text := RenderFragment(f, "");
            text != "" && text[0] == '"' && !UnicodeWhitespace(text[|text| - 1])
  {
    FragmentStartsWithQuote(f, "");
    FragmentEnds(f);
  }

  lemma {:induction false} BracedTree(f: Fragment)
    requires ValidFragment(f)
    ensures ParseDocument("{" + RenderFragment(f, "") + "}") == if AllCommas(f) then Some(Object("", f, "")) else None
  {
    var whole := RenderFragment(f, "}");
    FragmentFrame(f, "", "}");
    assert "" + "}" == "}" && "" + (['}'] + "") == "}";
    var text := "{" + RenderFragment(f, "") + "}";
    assert text == ['{'] + whole;
    FragmentReadBack(f, "", "");
    FragmentStartsWithQuote(f, "}");
    BracedDocument(text, whole);
  }

  /** A comma-separated fragment in braces parses to its own tree, within the limits; a
      fragment with a missing comma in braces does not parse. */
  lemma {:induction false} BracedFragment(f: Fragment, accepts: string -> bool)
    requires ValidFragment(f)
    ensures ParseUniqueObject("{" + RenderFragment(f, "") + "}", accepts) ==
            if AllCommas(f) && FragmentReadable(f, accepts) then CollectUnique(f, map[]) else None
  {
    BracedTree(f);
  }

  lemma {:induction false} BracedDocument(text: string, inner: string)
    requires text == ['{'] + inner && inner != "" && inner[0] == '"'
    ensures ParseDocument(text) ==
            if ParseFragment(inner).None? || SkipBlank(ParseFragment(inner).value.2).1 != "" then None
            else Some(Object("", ParseFragment(inner).value.0, ParseFragment(inner).value.1))
  {
    assert text[1..] == inner;
    assert SkipBlank(inner) == ("", inner);
    assert SkipBlank(text) == ("", text);
  }

  /** The meaning of a fragment: the map of its members if their names differ. */
  ghost predicate MeansFragment(f: Fragment, result: Option<map<string, Value>>)
    requires ValidFragment(f)
  {
    && (result.Some? <==> Distinct(Names(f)))
    && (result.Some? ==> IsMapOf(result.value, Names(f), Values(f)))
  }

  lemma {:induction false} CollectingMeansFragment(f: Fragment)
    requires ValidFragment(f)
    ensures MeansFragment(f, CollectUnique(f, map[]))
  {
    CollectingIsMapping(f, map[]);
  }

  lemma {:induction false} RepairedMeansTheSame(f: Fragment)
    requires ValidFragment(f)
    ensures ValidFragment(Repaired(f)) && AllCommas(Repaired(f))
    ensures MeansFragment(f, CollectUnique(Repaired(f), map[]))
  {
    RepairedKeepsMembers(f);
    CollectingMeansFragment(Repaired(f));
  }

  lemma {:induction false} FragmentHasNoNul(f: Fragment)
    requires ValidFragment(f)
    ensures '\0' !in RenderFragment(f, "")
  {
    FragmentFrame(f, "", "");
  }

  /** The meaning of a fragment, or failure beyond the limits of the library. */
  ghost predicate MeansWithin(f: Fragment, accepts: string -> bool, result: Option<map<string, Value>>)
    requires ValidFragment(f)
  {
    if FragmentReadable(f, accepts) then MeansFragment(f, result) else result.None?
  }

  /** What comes of a fragment once the scanner has repaired it, or has given up. */
  lemma {:induction false} RepairedParse(f: Fragment, accepts: string -> bool)
    requires ValidFragment(f)
    ensures var text := RenderFragment(f, "");
            && (FragmentHeight(f) > MAX_DEPTH ==> InsertCommas(text).None?)
            && (FragmentHeight(f) <= MAX_DEPTH ==>
                  && InsertCommas(text).Some?
                  && MeansWithin(f, accepts, ParseUniqueObject("{" + InsertCommas(text).value + "}", accepts)))
  {
    if FragmentHeight(f) > MAX_DEPTH {
      TooDeepFragment(START, f, "");
    } else {
      ScannerRepairs(f);
      RepairedMeansTheSame(f);
      RepairedKeepsLimits(f, accepts);
      BracedFragment(Repaired(f), accepts);
    }
  }

  /** Meaning-preserving repair. Members separated by commas with optional
      whitespace, or by whitespace alone, parse to exactly their map, whatever
      whitespace surrounds them; with a repeated name, or beyond the limits of the
      parsing library, parsing fails. */
  lemma {:induction false} RepairPreservesMeaning(f: Fragment, lead: string, trail: string, accepts: string -> bool)
    requires ValidFragment(f)
    requires AllUnicodeWhitespace(lead) && AllUnicodeWhitespace(trail)
    ensures MeansWithin(f, accepts, ParseMemberFragment(lead + RenderFragment(f, "") + trail, accepts))
  {
    var text := RenderFragment(f, "");
    RepairedParse(f, accepts);
    FragmentIsTrimmed(f);
    TrimExactly(lead, text, trail);
    FragmentHasNoNul(f);
    BracedFragment(f, accepts);
    CollectingMeansFragment(f);
  }

  /** An object is read as such. */
  lemma {:induction false} ObjectIsCollected(
      text: string, before: string, f: Fragment, after: string, accepts: string -> bool)
    requires ValidFragment(f) && ParseDocument(text) == Some(Object(before, f, after))
    ensures ParseUniqueObject(text, accepts) == if FragmentReadable(f, accepts) then CollectUnique(f, map[]) else None
  {
  }

  lemma {:induction false} ObjectText(before: string, f: Fragment, after: string) returns (text: string)
    requires ValidFragment(f) && AllCommas(f) && Blank(before) && Blank(after)
    ensures text == Render(Object(before, f, after), "")
    ensures text != "" && text[0] == '{' && text[|text| - 1] == '}' && '\0' !in text
    ensures ParseDocument(text) == Some(Object(before, f, after))
  {
    var v := Object(before, f, after);
    text := Render(v, "");
    ValueFrame(v, "", "");
    assert after + (['}'] + "") == after + "}";
    FragmentFrame(f, after, "}");
    assert text == (['{'] + (before + RenderFragment(f, after))) + ['}'];
    assert Blank("") && text == "" + Render(v, "");
    DocumentIsExact(text, v);
  }

  /** The same for an input that is already an object in braces. */
  lemma {:induction false} ObjectKeepsMeaning(
      before: string, f: Fragment, after: string, lead: string, trail: string, accepts: string -> bool)
    requires ValidFragment(f) && AllCommas(f) && Blank(before) && Blank(after)
    requires AllUnicodeWhitespace(lead) && AllUnicodeWhitespace(trail)
    ensures MeansWithin(f, accepts, ParseMemberFragment(lead + Render(Object(before, f, after), "") + trail, accepts))
  {
    var text := ObjectText(before, f, after);
    ObjectIsCollected(text, before, f, after, accepts);
    TrimExactly(lead, text, trail);
    CollectingMeansFragment(f);
  }
}
