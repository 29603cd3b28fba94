/** Cutting a text at a separator. */
module Texts {

  /** One more character after the last separator, or a new part after one more separator. */
  function Extended(parts: seq<string>, separator: char, c: char): (longer: seq<string>)
    requires |parts| >= 1
    ensures |longer| >= 1
  {
    if c == separator then parts + [""] else parts[..|parts| - 1] + [parts[|parts| - 1] + [c]]
  }

  /** The parts of `s` between separators. */
  function Split(s: string, separator: char): (parts: seq<string>)
    ensures |parts| >= 1
  {
    if s == "" then [""] else Extended(Split(s[..|s| - 1], separator), separator, s[|s| - 1])
  }

  function Joined(parts: seq<string>, separator: char): string
    requires |parts| >= 1
  {
    if |parts| == 1 then parts[0]
    else Joined(parts[..|parts| - 1], separator) + [separator] + parts[|parts| - 1]
  }

  lemma {:induction false} JoinedExtended(parts: seq<string>, separator: char, c: char)
    requires |parts| >= 1
    ensures Joined(Extended(parts, separator, c), separator) == Joined(parts, separator) + [c]
  {
    var n := |parts| - 1;
    if c == separator {
      assert (parts + [""])[..n + 1] == parts;
    } else {
      assert Extended(parts, separator, c)[..n] == parts[..n];
    }
  }

  ghost predicate Free(parts: seq<string>, separator: char) {
    forall i :: 0 <= i < |parts| ==> separator !in parts[i]
  }

  lemma {:induction false} ExtendedIsFree(parts: seq<string>, separator: char, c: char)
    requires |parts| >= 1 && Free(parts, separator)
    ensures Free(Extended(parts, separator, c), separator)
  {
  }

  /** The parts are the text cut at all of its separators. */
  lemma {:induction false} SplitJoins(s: string, separator: char)
    ensures Joined(Split(s, separator), separator) == s && Free(Split(s, separator), separator)
  {
    if s != "" {
      var n := |s| - 1;
      var parts := Split(s[..n], separator);
      SplitJoins(s[..n], separator);
      JoinedExtended(parts, separator, s[n]);
      ExtendedIsFree(parts, separator, s[n]);
      assert Split(s, separator) == Extended(parts, separator, s[n]);
      assert s == s[..n] + [s[n]];
    }
  }

  lemma {:induction false} SplitAppend(s: string, separator: char, t: string)
    requires separator !in t
    ensures var parts := Split(s, separator);
            Split(s + t, separator) == parts[..|parts| - 1] + [parts[|parts| - 1] + t]
  {
    var parts := Split(s, separator);
    if t == "" {
      assert s + t == s && parts[|parts| - 1] + t == parts[|parts| - 1];
      assert parts == parts[..|parts| - 1] + [parts[|parts| - 1]];
    } else {
      var n := |t| - 1;
      SplitAppend(s, separator, t[..n]);
      assert (s + t)[..|s + t| - 1] == s + t[..n] && (s + t)[|s + t| - 1] == t[n];
      var shorter := Split(s + t[..n], separator);
      assert shorter[..|shorter| - 1] == parts[..|parts| - 1];
      assert parts[|parts| - 1] + t[..n] + [t[n]] == parts[|parts| - 1] + t;
    }
  }

  /** Parts without separators, joined, are the parts again. */
  lemma {:induction false} JoinedSplits(parts: seq<string>, separator: char)
    requires |parts| >= 1 && Free(parts, separator)
    ensures Split(Joined(parts, separator), separator) == parts
  {
    var n := |parts| - 1;
    if n == 0 {
      SplitAppend("", separator, parts[0]);
      assert "" + parts[0] == parts[0] && Split("", separator) == [""];
    } else {
      var before := Joined(parts[..n], separator);
      JoinedSplits(parts[..n], separator);
      var cut := before + [separator];
      assert cut[..|cut| - 1] == before && cut[|cut| - 1] == separator;
      assert Split(cut, separator) == parts[..n] + [""];
      SplitAppend(cut, separator, parts[n]);
      assert (parts[..n] + [""])[..n] == parts[..n] && "" + parts[n] == parts[n];
      assert parts == parts[..n] + [parts[n]];
    }
  }
}
