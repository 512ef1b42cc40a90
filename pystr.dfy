/** The Python `str` operations the pipeline uses: `startswith`, `endswith`,
    `strip(chars)`, `split(sep)` and `sep.join(...)`, together with the laws
    that relate them. */
module PyStr {

  /** `s.startswith(c)` for a one-character prefix. */
  predicate StartsWith(s: string, c: char) {
    |s| > 0 && s[0] == c
  }

  /** `s.endswith(c)` for a one-character suffix. */
  predicate EndsWith(s: string, c: char) {
    |s| > 0 && s[|s| - 1] == c
  }

  /** Number of occurrences of `c` in `s` (`s.count(c)`). */
  function CountChar(s: string, c: char): nat {
    if |s| == 0 then 0 else (if s[0] == c then 1 else 0) + CountChar(s[1..], c)
  }

  /** `s.lstrip(chars)`: drops the longest prefix made of characters of `cs`. */
  function LStrip(s: string, cs: set<char>): (r: string)
    ensures |r| <= |s| && r == s[|s| - |r|..]
    ensures forall k :: 0 <= k < |s| - |r| ==> s[k] in cs
    ensures r == [] || r[0] !in cs
  {
    if |s| > 0 && s[0] in cs then LStrip(s[1..], cs) else s
  }

  /** `s.rstrip(chars)`: drops the longest suffix made of characters of `cs`. */
  function RStrip(s: string, cs: set<char>): (r: string)
    ensures |r| <= |s| && r == s[..|r|]
    ensures forall k :: |r| <= k < |s| ==> s[k] in cs
    ensures r == [] || r[|r| - 1] !in cs
  {
    if |s| > 0 && s[|s| - 1] in cs then RStrip(s[..|s| - 1], cs) else s
  }

  /** The index of the first character that `strip` keeps. */
  function StripStart(s: string, cs: set<char>): nat {
    |s| - |LStrip(s, cs)|
  }

  /** `r` is what is left of `s` once its first `i` characters and every
      character after `r` are dropped, all of those dropped characters are in
      `cs`, and neither end of `r` is. */
  predicate StrippedAt(s: string, cs: set<char>, i: nat, r: string) {
    && i + |r| <= |s|
    && r == s[i..i + |r|]
    && (forall k :: 0 <= k < i ==> s[k] in cs)
    && (forall k :: i + |r| <= k < |s| ==> s[k] in cs)
    && (r == [] || (r[0] !in cs && r[|r| - 1] !in cs))
  }

  /** `s.strip(chars)`: the slice of `s` left once every leading and every
      trailing character of `cs` is removed. */
  function Strip(s: string, cs: set<char>): (r: string)
    ensures StrippedAt(s, cs, StripStart(s, cs), r)
  {
    StripShape(s, cs);
    RStrip(LStrip(s, cs), cs)
  }

  lemma StripShape(s: string, cs: set<char>)
    ensures StrippedAt(s, cs, StripStart(s, cs), RStrip(LStrip(s, cs), cs))
  {
    StripIsSlice(s, cs);
    StripOutside(s, cs);
  }

  lemma StripIsSlice(s: string, cs: set<char>)
    ensures
      var r, i := RStrip(LStrip(s, cs), cs), StripStart(s, cs);
      i + |r| <= |s| && r == s[i..i + |r|]
  {
    var l := LStrip(s, cs);
    var r := RStrip(l, cs);
    var i := |s| - |l|;
    assert l == s[i..] && r == l[..|r|];
    SliceOfSuffix(s, i, |r|);
  }

  lemma SliceOfSuffix(s: string, i: nat, k: nat)
    requires i + k <= |s|
    ensures s[i..][..k] == s[i..i + k]
  {
  }

  lemma StripOutside(s: string, cs: set<char>)
    ensures forall k :: StripStart(s, cs) + |RStrip(LStrip(s, cs), cs)| <= k < |s| ==> s[k] in cs
    ensures var r := RStrip(LStrip(s, cs), cs); r == [] || r[0] !in cs
  {
    var l := LStrip(s, cs);
    var r := RStrip(l, cs);
    var i := |s| - |l|;
    assert l == s[i..];
    forall k | i + |r| <= k < |s| ensures s[k] in cs {
      assert s[k] == l[k - i];
    }
    assert |r| > 0 ==> r[0] == l[0];
  }

  /** The characterisation of `Strip` determines it: any slice of `s` whose
      outside consists of characters of `cs` and whose two ends are not in
      `cs` is the stripped string. */
  lemma StripUnique(s: string, cs: set<char>, i: nat, j: nat)
    requires i <= j <= |s|
    requires forall k :: 0 <= k < i ==> s[k] in cs
    requires forall k :: j <= k < |s| ==> s[k] in cs
    requires i == j || (s[i] !in cs && s[j - 1] !in cs)
    ensures Strip(s, cs) == s[i..j]
  {
    var r := Strip(s, cs);
    var i' := StripStart(s, cs);
    var j' := i' + |r|;
    if i == j {
      if r != [] {
        // r[0] is a character of s, so it would be in cs.
        assert false;
      }
    } else {
      // s[i] and s[j - 1] are not in cs, so they lie within [i', j');
      // the ends s[i'] and s[j' - 1] of r are not in cs either, so they lie within [i, j).
      assert s[i'] == r[0] && s[j' - 1] == r[|r| - 1];
      assert i' <= i < j' && i' <= j - 1 < j';
      assert i <= i' && j' <= j;
    }
  }

  /** A string whose first and last characters are not in `cs` is left
      unchanged by `strip`. */
  lemma StripUnchanged(s: string, cs: set<char>)
    requires s != [] && s[0] !in cs && s[|s| - 1] !in cs
    ensures Strip(s, cs) == s
  {
    StripUnique(s, cs, 0, |s|);
  }

  /** `sep.join(xs)`: the pieces of `xs` in order with `sep` between
      neighbours. */
  function Join(xs: seq<string>, sep: string): string {
    if |xs| == 0 then ""
    else if |xs| == 1 then xs[0]
    else xs[0] + sep + Join(xs[1..], sep)
  }

  /** Joining no pieces gives the empty string; otherwise the first piece
      begins the result and the last piece ends it. */
  lemma {:induction false} JoinEnds(xs: seq<string>, sep: string)
    ensures xs == [] ==> Join(xs, sep) == ""
    ensures xs != [] ==> xs[0] <= Join(xs, sep)
    ensures xs != [] ==>
      var r, z := Join(xs, sep), xs[|xs| - 1];
      |z| <= |r| && r[|r| - |z|..] == z
  {
    if |xs| > 1 {
      JoinEnds(xs[1..], sep);
      var z := xs[|xs| - 1];
      var rest := Join(xs[1..], sep);
      assert xs[1..][|xs[1..]| - 1] == z;
      var r := xs[0] + sep + rest;
      assert r[|r| - |z|..] == rest[|rest| - |z|..];
    }
  }

  /** Joining one more piece appends the separator and that piece, so the
      pieces appear in the joined string in the order they are given. */
  lemma {:induction false} JoinAppend(xs: seq<string>, y: string, sep: string)
    requires |xs| >= 1
    ensures Join(xs + [y], sep) == Join(xs, sep) + sep + y
  {
    if |xs| == 1 {
      assert xs + [y] == [xs[0], y];
      assert ([xs[0], y])[1..] == [y];
    } else {
      assert (xs + [y])[1..] == xs[1..] + [y];
      JoinAppend(xs[1..], y, sep);
    }
  }

  /** `s.split(sep)` for a one-character separator: the maximal pieces of `s`
      between occurrences of `sep`; there is always at least one piece. */
  function Split(s: string, sep: char): (r: seq<string>)
    ensures |r| == CountChar(s, sep) + 1
    ensures forall i :: 0 <= i < |r| ==> sep !in r[i]
  {
    if |s| == 0 then [""]
    else
      var rest := Split(s[1..], sep);
      if s[0] == sep then [""] + rest
      else [[s[0]] + rest[0]] + rest[1..]
  }

  /** Joining the pieces of a split with the separator gives the string back. */
  lemma {:induction false} JoinSplit(s: string, sep: char)
    ensures Join(Split(s, sep), [sep]) == s
  {
    if |s| > 0 {
      var rest := Split(s[1..], sep);
      JoinSplit(s[1..], sep);
      if s[0] == sep {
        assert ([""] + rest)[1..] == rest;
      } else {
        var xs := [[s[0]] + rest[0]] + rest[1..];
        if |rest| == 1 {
          assert xs == [[s[0]] + rest[0]];
        } else {
          assert xs[1..] == rest[1..];
          assert Join(rest, [sep]) == rest[0] + [sep] + Join(rest[1..], [sep]);
        }
      }
    }
  }

  /** A string without the separator splits into itself alone. */
  lemma {:induction false} SplitNoSeparator(a: string, sep: char)
    requires sep !in a
    ensures Split(a, sep) == [a]
  {
    if |a| > 0 {
      SplitNoSeparator(a[1..], sep);
      assert [a[0]] + a[1..] == a;
    }
  }

  /** A first piece without the separator is split off exactly. */
  lemma {:induction false} SplitAfterPiece(a: string, b: string, sep: char)
    requires sep !in a
    ensures Split(a + [sep] + b, sep) == [a] + Split(b, sep)
  {
    var s := a + [sep] + b;
    if |a| == 0 {
      assert s[1..] == b;
    } else {
      assert s[1..] == a[1..] + [sep] + b;
      SplitAfterPiece(a[1..], b, sep);
      assert [a[0]] + a[1..] == a;
    }
  }

  /** Splitting a join gives the pieces back, provided there is at least one
      piece and no piece contains the separator. */
  lemma {:induction false} SplitJoin(xs: seq<string>, sep: char)
    requires |xs| >= 1
    requires forall i :: 0 <= i < |xs| ==> sep !in xs[i]
    ensures Split(Join(xs, [sep]), sep) == xs
  {
    if |xs| == 1 {
      SplitNoSeparator(xs[0], sep);
    } else {
      SplitJoin(xs[1..], sep);
      SplitAfterPiece(xs[0], Join(xs[1..], [sep]), sep);
      assert [xs[0]] + xs[1..] == xs;
    }
  }

  /** `str(n)` for a natural number: its decimal digits, most significant first. */
  function Decimal(n: nat): (r: string)
    ensures |r| > 0 && forall k :: 0 <= k < |r| ==> '0' <= r[k] <= '9'
  {
    var d := ["0123456789"[n % 10]];
    if n < 10 then d else Decimal(n / 10) + d
  }
}
