/** String helpers with JavaScript meaning: `split` on one separator
    character, `startsWith`, and the concatenation of a list of strings. */
module Text {

  /** `s.startsWith(prefix)`. */
  predicate StartsWith(s: string, prefix: string)
  {
    |prefix| <= |s| && s[..|prefix|] == prefix
  }

  /** `a` is a prefix of `b`. */
  predicate IsPrefix(a: string, b: string)
  {
    |a| <= |b| && b[..|a|] == a
  }

  /** The strings of `ss` glued together in order (`ss.join('')`). */
  function Concat(ss: seq<string>): string
  {
    if |ss| == 0 then "" else ss[0] + Concat(ss[1..])
  }

  /** The concatenation is empty exactly when every piece is. */
  lemma {:induction false} ConcatEmptyIff(ss: seq<string>)
    ensures Concat(ss) == "" <==> forall i :: 0 <= i < |ss| ==> ss[i] == ""
    decreases |ss|
  {
    if |ss| > 0 {
      ConcatEmptyIff(ss[1..]);
      assert forall i :: 1 <= i < |ss| ==> ss[i] == ss[1..][i - 1];
    }
  }

  /** The pieces of `parts` with `sep` between each two neighbours
      (`parts.join(sep)`); the inverse of `Split`. */
  function Join(parts: seq<string>, sep: char): string
    requires |parts| >= 1
  {
    if |parts| == 1 then parts[0] else parts[0] + [sep] + Join(parts[1..], sep)
  }

  /** `s.split(sep)` for a one-character separator: never empty, a trailing
      separator yields a trailing empty piece, and `""` yields `[""]`. */
  function Split(s: string, sep: char): (parts: seq<string>)
    ensures |parts| >= 1
    ensures forall i :: 0 <= i < |parts| ==> sep !in parts[i]
    ensures Join(parts, sep) == s
    decreases |s|
  {
    if |s| == 0 then [""]
    else
      var rest := Split(s[1..], sep);
      if s[0] == sep then
        [""] + rest
      else
        assert s == [s[0]] + s[1..];
        [[s[0]] + rest[0]] + rest[1..]
  }

  lemma {:induction false} ConcatAppend(a: seq<string>, b: seq<string>)
    ensures Concat(a + b) == Concat(a) + Concat(b)
    decreases |a|
  {
    if |a| == 0 {
      assert a + b == b;
    } else {
      assert (a + b)[1..] == a[1..] + b;
      ConcatAppend(a[1..], b);
    }
  }

  /** Splitting undoes joining whenever no piece contains the separator,
      so `Split` and `Join` are mutually inverse. */
  lemma {:induction false} SplitJoin(parts: seq<string>, sep: char)
    requires |parts| >= 1
    requires forall i :: 0 <= i < |parts| ==> sep !in parts[i]
    ensures Split(Join(parts, sep), sep) == parts
    decreases |parts|, |parts[0]|
  {
    var p := parts[0];
    if |parts| == 1 {
      if |p| > 0 {
        var tail := [p[1..]];
        assert sep !in p[1..];
        SplitJoin(tail, sep);
        assert p == [p[0]] + p[1..];
      }
    } else if |p| == 0 {
      var j := Join(parts, sep);
      assert j == [sep] + Join(parts[1..], sep);
      assert j[1..] == Join(parts[1..], sep);
      SplitJoin(parts[1..], sep);
      assert parts == [""] + parts[1..];
    } else {
      var shorter := [p[1..]] + parts[1..];
      assert forall i :: 0 <= i < |shorter| ==> sep !in shorter[i] by {
        forall i | 0 <= i < |shorter| ensures sep !in shorter[i] {
          if i > 0 { assert shorter[i] == parts[i]; }
        }
      }
      assert shorter[1..] == parts[1..];
      SplitJoin(shorter, sep);
      var j := Join(parts, sep);
      assert j == p + [sep] + Join(parts[1..], sep);
      assert j[0] == p[0];
      assert j[1..] == Join(shorter, sep);
      assert [p[0]] + p[1..] == p;
    }
  }

  /** A string without the separator splits into itself alone. */
  lemma SplitWithoutSeparator(s: string, sep: char)
    requires sep !in s
    ensures Split(s, sep) == [s]
  {
  }
}
