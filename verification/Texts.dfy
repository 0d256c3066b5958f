/** Strings as the program sees them: sequences of UTF-16 code units. */
module Texts {
  type CodeUnit = u: nat | u < 0x1_0000

  type Text = seq<CodeUnit>

  /** An ASCII string as code units. */
  function Ascii(s: string): (t: Text)
    requires forall i | 0 <= i < |s| :: s[i] as int < 0x80
    ensures |t| == |s|
  {
    seq(|s|, i requires 0 <= i < |s| => s[i] as int)
  }

  /** `parts.join(separator)` for a separator of one code unit. */
  function Join(parts: seq<Text>, separator: CodeUnit): Text
    requires |parts| > 0
  {
    if |parts| == 1 then parts[0] else parts[0] + [separator] + Join(parts[1..], separator)
  }

  /** The first position of a code unit, or the length. */
  function IndexOf(t: Text, c: CodeUnit): (i: nat)
    ensures i <= |t| && c !in t[..i] && (i < |t| ==> t[i] == c)
  {
    if t == [] || t[0] == c then 0 else 1 + IndexOf(t[1..], c)
  }

  /** `text.split(separator)`. */
  function Split(t: Text, separator: CodeUnit): (parts: seq<Text>)
    ensures |parts| > 0
    decreases |t|
  {
    var i := IndexOf(t, separator);
    if i == |t| then [t] else [t[..i]] + Split(t[i + 1..], separator)
  }

  lemma {:induction false} IndexOfPrefix(a: Text, c: CodeUnit, b: Text)
    requires c !in a
    ensures IndexOf(a + [c] + b, c) == |a|
  {
    if a != [] {
      IndexOfPrefix(a[1..], c, b);
      assert (a + [c] + b)[1..] == a[1..] + [c] + b;
    }
  }

  lemma IndexOfAbsent(t: Text, c: CodeUnit)
    requires c !in t
    ensures IndexOf(t, c) == |t|
  {
  }

  lemma SplitOnce(a: Text, c: CodeUnit, rest: Text)
    requires c !in a
    ensures Split(a + [c] + rest, c) == [a] + Split(rest, c)
  {
    IndexOfPrefix(a, c, rest);
    var t := a + [c] + rest;
    assert t[..|a|] == a && t[|a| + 1..] == rest;
  }

  /** Splitting undoes joining when no part holds the separator. */
  lemma {:induction false} SplitJoin(parts: seq<Text>, separator: CodeUnit)
    requires |parts| > 0 && forall k | 0 <= k < |parts| :: separator !in parts[k]
    ensures Split(Join(parts, separator), separator) == parts
  {
    if |parts| == 1 {
      IndexOfAbsent(parts[0], separator);
      assert [parts[0]] == parts;
    } else {
      SplitJoin(parts[1..], separator);
      SplitOnce(parts[0], separator, Join(parts[1..], separator));
      assert [parts[0]] + parts[1..] == parts;
    }
  }
}
