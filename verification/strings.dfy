/** The PHP string functions the engine relies on: `explode` and `implode` with a
    one-character separator, `array_filter` over strings, `str_replace` and `trim`. */
module PhpStrings {
  import opened Values

  /** `explode` with a one-character delimiter: the pieces between delimiters,
      empty pieces included. */
  function Explode(sep: char, s: string): (parts: seq<string>)
    ensures |parts| > 0
    ensures forall i :: 0 <= i < |parts| ==> sep !in parts[i]
    decreases |s|
  {
    if |s| == 0 then [""]
    else
      var rest := Explode(sep, s[1..]);
      if s[0] == sep then [""] + rest
      else [[s[0]] + rest[0]] + rest[1..]
  }

  /** `implode`: the pieces joined by the separator. */
  function Implode(sep: string, parts: seq<string>): string
    decreases |parts|
  {
    if |parts| == 0 then ""
    else if |parts| == 1 then parts[0]
    else parts[0] + sep + Implode(sep, parts[1..])
  }

  lemma ImplodeCons(sep: string, x: string, ys: seq<string>)
    requires |ys| > 0
    ensures Implode(sep, [x] + ys) == x + sep + Implode(sep, ys)
  {
    assert ([x] + ys)[1..] == ys;
  }

  lemma {:induction false} ImplodeSnoc(sep: string, xs: seq<string>, y: string)
    requires |xs| > 0
    ensures Implode(sep, xs + [y]) == Implode(sep, xs) + sep + y
    decreases |xs|
  {
    if |xs| == 1 {
      assert xs + [y] == [xs[0]] + [y];
      ImplodeCons(sep, xs[0], [y]);
    } else {
      assert xs + [y] == [xs[0]] + (xs[1..] + [y]);
      ImplodeCons(sep, xs[0], xs[1..] + [y]);
      ImplodeSnoc(sep, xs[1..], y);
      ImplodeCons(sep, xs[0], xs[1..]);
      assert [xs[0]] + xs[1..] == xs;
    }
  }

  /** Joining what `explode` split gives back the original string. */
  lemma {:induction false} ImplodeExplode(sep: char, s: string)
    ensures Implode([sep], Explode(sep, s)) == s
    decreases |s|
  {
    if |s| > 0 {
      var rest := Explode(sep, s[1..]);
      ImplodeExplode(sep, s[1..]);
      if s[0] == sep {
        ImplodeCons([sep], "", rest);
        assert s == [s[0]] + s[1..];
      } else if |rest| == 1 {
        assert [[s[0]] + rest[0]] + rest[1..] == [[s[0]] + rest[0]];
        assert s == [s[0]] + s[1..];
      } else {
        ImplodeCons([sep], [s[0]] + rest[0], rest[1..]);
        ImplodeCons([sep], rest[0], rest[1..]);
        assert [rest[0]] + rest[1..] == rest;
        assert s == [s[0]] + s[1..];
      }
    }
  }

  /** Exploding a string with a delimiter-free prefix `p` glues `p` onto the first piece. */
  lemma {:induction false} ExplodePrefix(sep: char, p: string, t: string)
    requires sep !in p
    ensures Explode(sep, p + t) == [p + Explode(sep, t)[0]] + Explode(sep, t)[1..]
    decreases |p|
  {
    if |p| == 0 {
      assert p + t == t;
      assert p + Explode(sep, t)[0] == Explode(sep, t)[0];
      assert [Explode(sep, t)[0]] + Explode(sep, t)[1..] == Explode(sep, t);
    } else {
      assert (p + t)[1..] == p[1..] + t;
      assert p[0] != sep by { assert p[0] in p; }
      ExplodePrefix(sep, p[1..], t);
      assert [p[0]] + (p[1..] + Explode(sep, t)[0]) == p + Explode(sep, t)[0];
    }
  }

  /** A string without the delimiter explodes to itself alone. */
  lemma ExplodeWithout(sep: char, s: string)
    ensures sep !in s ==> Explode(sep, s) == [s]
  {
    if sep !in s {
      ExplodePrefix(sep, s, "");
      assert s + "" == s;
    }
  }

  /** Splitting pieces that were joined gives back the pieces, when no piece
      contains the delimiter. */
  lemma {:induction false} ExplodeImplode(sep: char, parts: seq<string>)
    requires |parts| > 0
    requires forall i :: 0 <= i < |parts| ==> sep !in parts[i]
    ensures Explode(sep, Implode([sep], parts)) == parts
    decreases |parts|
  {
    if |parts| == 1 {
      ExplodePrefix(sep, parts[0], "");
      assert parts[0] + "" == parts[0];
    } else {
      var rest := Implode([sep], parts[1..]);
      ExplodeImplode(sep, parts[1..]);
      ImplodeCons([sep], parts[0], parts[1..]);
      assert [parts[0]] + parts[1..] == parts;
      assert parts[0] + [sep] + rest == parts[0] + ([sep] + rest);
      ExplodePrefix(sep, parts[0], [sep] + rest);
      assert ([sep] + rest)[1..] == rest;
      assert parts[0] + "" == parts[0];
    }
  }

  /** `array_filter` over a list of strings: the truthy ones, in order. */
  function KeepTruthy(parts: seq<string>): (kept: seq<string>)
    ensures forall i :: 0 <= i < |kept| ==> StrTruthy(kept[i])
    decreases |parts|
  {
    if |parts| == 0 then []
    else (if StrTruthy(parts[0]) then [parts[0]] else []) + KeepTruthy(parts[1..])
  }

  /** The filter keeps exactly the truthy parts. */
  lemma {:induction false} KeepTruthyMembers(parts: seq<string>)
    ensures forall x :: x in KeepTruthy(parts) <==> x in parts && StrTruthy(x)
    decreases |parts|
  {
    if |parts| > 0 {
      KeepTruthyMembers(parts[1..]);
      assert forall x :: x in parts <==> x == parts[0] || x in parts[1..] by {
        assert parts == [parts[0]] + parts[1..];
      }
    }
  }

  lemma {:induction false} KeepTruthyAppend(xs: seq<string>, ys: seq<string>)
    ensures KeepTruthy(xs + ys) == KeepTruthy(xs) + KeepTruthy(ys)
    decreases |xs|
  {
    if |xs| == 0 {
      assert xs + ys == ys;
    } else {
      assert (xs + ys)[1..] == xs[1..] + ys;
      KeepTruthyAppend(xs[1..], ys);
    }
  }

  /** `str_replace` of one character by another. */
  function ReplaceChar(s: string, from: char, to: char): (r: string)
    ensures |r| == |s|
    ensures forall i :: 0 <= i < |s| ==> r[i] == (if s[i] == from then to else s[i])
    decreases |s|
  {
    if |s| == 0 then ""
    else [if s[0] == from then to else s[0]] + ReplaceChar(s[1..], from, to)
  }

  /** `search` occurs in `s` starting at index `i`. */
  predicate OccursAt(s: string, search: string, i: int) {
    0 <= i && i + |search| <= |s| && s[i..i + |search|] == search
  }

  /** `str_replace` with one search string: every non-overlapping occurrence,
      scanning left to right, is replaced; the result is not scanned again. An empty
      search string leaves the subject unchanged. */
  function ReplaceAll(s: string, search: string, rep: string): string
    decreases |s|
  {
    if |search| == 0 || |s| < |search| then s
    else if s[..|search|] == search then rep + ReplaceAll(s[|search|..], search, rep)
    else [s[0]] + ReplaceAll(s[1..], search, rep)
  }

  /** A subject in which the search string does not occur comes back unchanged. */
  lemma {:induction false} ReplaceAllAbsent(s: string, search: string, rep: string)
    requires forall i :: 0 <= i <= |s| ==> !OccursAt(s, search, i)
    ensures ReplaceAll(s, search, rep) == s
    decreases |s|
  {
    if |search| == 0 || |s| < |search| {
    } else {
      assert !OccursAt(s, search, 0);
      assert s[0..|search|] == s[..|search|];
      forall i | 0 <= i <= |s[1..]|
        ensures !OccursAt(s[1..], search, i)
      {
        assert !OccursAt(s, search, i + 1);
        if i + |search| <= |s[1..]| {
          assert s[1..][i..i + |search|] == s[i + 1..i + 1 + |search|];
        }
      }
      ReplaceAllAbsent(s[1..], search, rep);
      assert [s[0]] + s[1..] == s;
    }
  }

  /** Replacing the search string by itself changes nothing. */
  lemma {:induction false} ReplaceAllSelf(s: string, search: string)
    ensures ReplaceAll(s, search, search) == s
    decreases |s|
  {
    if |search| == 0 || |s| < |search| {
    } else if s[..|search|] == search {
      ReplaceAllSelf(s[|search|..], search);
      assert s[..|search|] + s[|search|..] == s;
    } else {
      ReplaceAllSelf(s[1..], search);
      assert [s[0]] + s[1..] == s;
    }
  }

  /** The number of leading characters of `s` that belong to `cs`. */
  function Leading(s: string, cs: set<char>): (n: nat)
    ensures n <= |s|
    ensures forall k :: 0 <= k < n ==> s[k] in cs
    ensures n < |s| ==> s[n] !in cs
    decreases |s|
  {
    if |s| > 0 && s[0] in cs then 1 + Leading(s[1..], cs) else 0
  }

  /** The number of trailing characters of `s` that belong to `cs`. */
  function Trailing(s: string, cs: set<char>): (n: nat)
    ensures n <= |s|
    ensures forall k :: |s| - n <= k < |s| ==> s[k] in cs
    ensures n < |s| ==> s[|s| - n - 1] !in cs
    decreases |s|
  {
    if |s| > 0 && s[|s| - 1] in cs then 1 + Trailing(s[..|s| - 1], cs) else 0
  }

  /** `trim` with an explicit character list: the longest middle part of `s` that
      neither starts nor ends with a listed character; everything cut off is listed. */
  function Trim(s: string, cs: set<char>): (r: string)
    ensures exists i, j ::
      && 0 <= i <= j <= |s|
      && r == s[i..j]
      && (forall k :: 0 <= k < i ==> s[k] in cs)
      && (forall k :: j <= k < |s| ==> s[k] in cs)
    ensures |r| > 0 ==> r[0] !in cs && r[|r| - 1] !in cs
  {
    var i := Leading(s, cs);
    var j := |s| - Trailing(s[i..], cs);
    TrailingShift(s, cs, i);
    s[i..j]
  }

  /** The trailing run of the rest of `s` after its first `i` characters, read as
      positions of `s`. */
  lemma TrailingShift(s: string, cs: set<char>, i: nat)
    requires i <= |s|
    ensures var n := Trailing(s[i..], cs);
      && (forall k :: |s| - n <= k < |s| ==> s[k] in cs)
      && (i < |s| - n ==> s[|s| - n - 1] !in cs)
  {
    var t := s[i..];
    var n := Trailing(t, cs);
    forall k | |s| - n <= k < |s| ensures s[k] in cs {
      assert s[k] == t[k - i];
    }
    if i < |s| - n {
      assert s[|s| - n - 1] == t[|t| - n - 1];
    }
  }
}
