/** Path keys as the daemon compares them: plain strings, with the order "lies strictly below".
    The component view (`Split`) is the reference that the string tests are proved against. */
module Paths {

  /** `cfg!(windows)`: fixed for one build, so everything here holds for either value. */
  const WINDOWS: bool

  /** `str::replace('\\', "/")`. */
  function Slashes(s: string): (r: string)
    ensures |r| == |s|
    ensures forall i :: 0 <= i < |s| ==> r[i] == if s[i] == '\\' then '/' else s[i]
  {
    seq(|s|, i requires 0 <= i < |s| => if s[i] == '\\' then '/' else s[i])
  }

  /** `str::trim_end_matches('/')`. */
  function TrimEnd(s: string): (r: string)
    ensures r <= s && (r == "" || r[|r| - 1] != '/')
    ensures forall i :: |r| <= i < |s| ==> s[i] == '/'
  {
    if s == "" || s[|s| - 1] != '/' then s else TrimEnd(s[..|s| - 1])
  }

  /** `str::trim_start_matches('/')`. */
  function TrimStart(s: string): (r: string)
    ensures |r| <= |s| && r == s[|s| - |r|..] && (r == "" || r[0] != '/')
    ensures forall i :: 0 <= i < |s| - |r| ==> s[i] == '/'
  {
    if s == "" || s[0] != '/' then s else TrimStart(s[1..])
  }

  /** `char::is_whitespace`: the Unicode White_Space property. */
  predicate IsWhitespace(c: char) {
    var n := c as int;
    || 0x09 <= n <= 0x0D || n == 0x20 || n == 0x85 || n == 0xA0 || n == 0x1680
    || 0x2000 <= n <= 0x200A || n == 0x2028 || n == 0x2029 || n == 0x202F || n == 0x205F || n == 0x3000
  }

  function LowerChar(c: char): char {
    if 'A' <= c <= 'Z' then ((c as int) + 32) as char else c
  }

  /** The key's letter case: folded on WINDOWS, kept elsewhere. */
  function Fold(s: string): (r: string)
    ensures |r| == |s|
  {
    if WINDOWS then seq(|s|, i requires 0 <= i < |s| => LowerChar(s[i])) else s
  }

  /** `absolute_path_key(normalize_absolute_path_text(path))`, also `discovery_path_key`. */
  function AbsoluteKey(path: string): string {
    Fold(TrimEnd(Slashes(path)))
  }

  /** `status_path_key`. */
  function StatusKey(path: string): string {
    Fold(TrimEnd(TrimStart(Slashes(path))))
  }

  /** `is_descendant_path_key`: the child is the parent, a slash, and anything. */
  predicate IsDescendant(child: string, parent: string) {
    |parent| < |child| && child[..|parent|] == parent && child[|parent|] == '/'
  }

  /** Two keys overlap when one is the other or lies below it. */
  predicate Overlap(a: string, b: string) {
    a == b || IsDescendant(a, b) || IsDescendant(b, a)
  }

  /** `str::split('/')`. */
  function Split(s: string): (r: seq<string>)
    ensures |r| > 0
  {
    if s == "" then [""]
    else if s[0] == '/' then [""] + Split(s[1..])
    else var t := Split(s[1..]); [[s[0]] + t[0]] + t[1..]
  }

  function Join(parts: seq<string>): string
    requires |parts| > 0
  {
    if |parts| == 1 then parts[0] else parts[0] + "/" + Join(parts[1..])
  }

  lemma {:induction false} SplitConcat(a: string, b: string)
    ensures Split(a + "/" + b) == Split(a) + Split(b)
  {
    var s := a + "/" + b;
    if a == "" {
      assert s[1..] == b;
    } else {
      assert s[1..] == a[1..] + "/" + b;
      SplitConcat(a[1..], b);
    }
  }

  lemma {:induction false} JoinSplit(s: string)
    ensures Join(Split(s)) == s
  {
    if s != "" {
      var t := Split(s[1..]);
      JoinSplit(s[1..]);
      if s[0] == '/' {
        assert Split(s)[1..] == t;
      } else {
        var r := Split(s);
        assert r[0] == [s[0]] + t[0] && r[1..] == t[1..];
        assert s == [s[0]] + s[1..];
      }
    }
  }

  lemma {:induction false} JoinConcat(a: seq<string>, b: seq<string>)
    requires |a| > 0 && |b| > 0
    ensures Join(a + b) == Join(a) + "/" + Join(b)
  {
    if |a| == 1 {
      assert (a + b)[1..] == b;
    } else {
      assert (a + b)[1..] == a[1..] + b;
      JoinConcat(a[1..], b);
      assert Join(a) + "/" + Join(b) == a[0] + "/" + (Join(a[1..]) + "/" + Join(b));
    }
  }

  lemma {:induction false} OneComponent(s: string)
    ensures |Split(s)| == 1 <==> '/' !in s
  {
    if s != "" {
      OneComponent(s[1..]);
      assert s == [s[0]] + s[1..];
    }
  }

  /** The string test `IsDescendant` is exactly "proper prefix, component by component". */
  lemma {:induction false} DescendantIsComponentPrefix(child: string, parent: string)
    ensures IsDescendant(child, parent) <==> Split(parent) < Split(child)
  {
    var p, c := Split(parent), Split(child);
    if IsDescendant(child, parent) {
      var rest := child[|parent| + 1..];
      assert child == parent + "/" + rest;
      SplitConcat(parent, rest);
    }
    if p < c {
      var tail := c[|p|..];
      assert c == p + tail;
      JoinConcat(p, tail);
      JoinSplit(parent);
      JoinSplit(child);
      assert child == parent + "/" + Join(tail);
    }
  }

  /** "Lies strictly below" is a strict forest order: it has no cycles, and what lies above one
      path forms a chain. */
  lemma DescendantIsStrictForestOrder(a: string, b: string, c: string)
    ensures !IsDescendant(a, a)
    ensures IsDescendant(a, b) && IsDescendant(b, c) ==> IsDescendant(a, c)
    ensures IsDescendant(c, a) && IsDescendant(c, b) ==> Overlap(a, b)
    ensures IsDescendant(c, a) && IsDescendant(c, b) && |a| <= |b| ==> a == b || IsDescendant(b, a)
  {
    if IsDescendant(a, b) && IsDescendant(b, c) {
      assert a[..|c|] == a[..|b|][..|c|];
      assert a[|c|] == a[..|b|][|c|];
    }
    if IsDescendant(c, a) && IsDescendant(c, b) {
      if |a| <= |b| { ChainAbove(a, b, c); } else { ChainAbove(b, a, c); }
    }
  }

  lemma ChainAbove(a: string, b: string, c: string)
    requires IsDescendant(c, a) && IsDescendant(c, b) && |a| <= |b|
    ensures a == b || IsDescendant(b, a)
  {
    assert c[..|a|] == c[..|b|][..|a|];
    if |a| < |b| {
      assert c[|a|] == c[..|b|][|a|];
    }
  }
}
