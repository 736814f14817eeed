/** PHP arrays with string keys, as ordered association lists: lookup,
    `array_merge`, and Laravel's `Arr::has` with its dot notation. */
module PhpArrays {
  import opened Results
  import opened Values
  import opened PhpStrings

  /** The keys of an association list, in order. */
  function Keys<V>(d: seq<(string, V)>): (ks: seq<string>)
    ensures |ks| == |d|
    ensures forall i :: 0 <= i < |d| ==> ks[i] == d[i].0
    decreases |d|
  {
    if |d| == 0 then [] else [d[0].0] + Keys(d[1..])
  }

  predicate Distinct(ks: seq<string>) {
    forall i, j :: 0 <= i < j < |ks| ==> ks[i] != ks[j]
  }

  /** A PHP array: an ordered map, so no key occurs twice. */
  type Dict<V> = d: seq<(string, V)> | Distinct(Keys(d)) witness []

  /** A leading part of a PHP array is a PHP array. */
  lemma PrefixDistinct<V>(d: Dict<V>, n: nat)
    requires n <= |d|
    ensures Distinct(Keys(d[..n]))
  {
    forall i | 0 <= i < n ensures Keys(d[..n])[i] == Keys(d)[i] { }
  }

  /** The rest of a PHP array after its first entry is a PHP array. */
  lemma TailDistinct<V>(d: Dict<V>)
    requires |d| > 0
    ensures Distinct(Keys(d[1..]))
  {
    forall i | 0 <= i < |d| - 1 ensures Keys(d[1..])[i] == Keys(d)[i + 1] { }
  }

  /** An array with the same keys as a PHP array, position by position, is one too. */
  lemma ConsSameKeys<V, W>(d: Dict<V>, w: W, rest: seq<(string, W)>)
    requires |d| > 0 && |rest| == |d| - 1
    requires forall i :: 0 <= i < |rest| ==> rest[i].0 == d[i + 1].0
    ensures Keys([(d[0].0, w)] + rest) == Keys(d)
    ensures Distinct(Keys([(d[0].0, w)] + rest))
  {
    var r := [(d[0].0, w)] + rest;
    var kr, kd := Keys(r), Keys(d);
    forall i | 0 <= i < |kd| ensures kr[i] == kd[i] {
      if i > 0 {
        assert r[i] == rest[i - 1];
      }
    }
    assert kr == kd;
  }

  /** `$array[$key] ?? null`, as an option: the value at the first entry with the key. */
  function Get<V>(d: seq<(string, V)>, k: string): (r: Option<V>)
    ensures r.Some? <==> k in Keys(d)
    ensures r.Some? ==> (k, r.value) in d
    decreases |d|
  {
    if |d| == 0 then None
    else if d[0].0 == k then Some(d[0].1)
    else Get(d[1..], k)
  }

  /** In a PHP array the entry at position `i` is the one a lookup of its key finds. */
  lemma {:induction false} GetAt<V>(d: Dict<V>, i: nat)
    requires i < |d|
    ensures Get(d, d[i].0) == Some(d[i].1)
    decreases i
  {
    if i > 0 {
      assert d[0].0 == Keys(d)[0] != Keys(d)[i] == d[i].0;
      var t: Dict<V> := d[1..];
      GetAt(t, i - 1);
    }
  }

  lemma {:induction false} KeysAppend<V>(x: seq<(string, V)>, y: seq<(string, V)>)
    ensures Keys(x + y) == Keys(x) + Keys(y)
  {
    assert |Keys(x + y)| == |Keys(x) + Keys(y)|;
    forall i | 0 <= i < |x| + |y|
      ensures Keys(x + y)[i] == (Keys(x) + Keys(y))[i]
    {
      if i < |x| {
        assert (x + y)[i] == x[i];
      } else {
        assert (x + y)[i] == y[i - |x|];
      }
    }
  }

  lemma {:induction false} GetAppend<V>(x: seq<(string, V)>, y: seq<(string, V)>, k: string)
    ensures Get(x + y, k) == if k in Keys(x) then Get(x, k) else Get(y, k)
    decreases |x|
  {
    if |x| == 0 {
      assert x + y == y;
    } else {
      assert (x + y)[1..] == x[1..] + y;
      assert Keys(x) == [x[0].0] + Keys(x[1..]);
      GetAppend(x[1..], y, k);
    }
  }

  /** The keys of `a` in their order, each taking `b`'s value when `b` has that key. */
  function Override<V>(a: seq<(string, V)>, b: seq<(string, V)>): (r: seq<(string, V)>)
    ensures Keys(r) == Keys(a)
    decreases |a|
  {
    if |a| == 0 then []
    else [(a[0].0, Get(b, a[0].0).GetOr(a[0].1))] + Override(a[1..], b)
  }

  /** The entries of `b` whose key `a` lacks, in `b`'s order. */
  function Additions<V>(b: seq<(string, V)>, a: seq<(string, V)>): (r: seq<(string, V)>)
    ensures forall k :: k in Keys(r) <==> k in Keys(b) && k !in Keys(a)
    ensures Distinct(Keys(b)) ==> Distinct(Keys(r))
    decreases |b|
  {
    if |b| == 0 then []
    else
      var rest := Additions(b[1..], a);
      KeysCons(b[0], b[1..]);
      KeysCons(b[0], rest);
      DistinctConsSub(b[0].0, Keys(b[1..]), Keys(rest));
      if b[0].0 in Keys(a) then rest else [b[0]] + rest
  }

  lemma KeysCons<V>(e: (string, V), d: seq<(string, V)>)
    ensures Keys([e] + d) == [e.0] + Keys(d)
  {
    assert ([e] + d)[1..] == d;
  }

  /** Behind a key that heads a list without repeats, a repeat-free list of keys
      drawn from the rest stays repeat-free. */
  lemma DistinctConsSub(k: string, ks: seq<string>, sub: seq<string>)
    requires forall x :: x in sub ==> x in ks
    ensures Distinct([k] + ks) && Distinct(sub) ==> Distinct([k] + sub) && Distinct(ks)
  {
    if Distinct([k] + ks) && Distinct(sub) {
      var l := [k] + ks;
      forall i | 0 <= i < |ks| ensures ks[i] != k {
        assert ks[i] == l[i + 1] && l[0] != l[i + 1];
      }
      forall i, j | 0 <= i < j < |ks| ensures ks[i] != ks[j] {
        assert ks[i] == l[i + 1] && ks[j] == l[j + 1];
      }
      var m := [k] + sub;
      forall i, j | 0 <= i < j < |m| ensures m[i] != m[j] {
        if i > 0 {
          assert m[i] == sub[i - 1] && m[j] == sub[j - 1];
        } else {
          assert m[j] == sub[j - 1] && sub[j - 1] in sub;
        }
      }
    }
  }

  lemma {:induction false} GetOverride<V>(a: seq<(string, V)>, b: seq<(string, V)>, k: string)
    requires k in Keys(a)
    ensures Get(Override(a, b), k) == if k in Keys(b) then Get(b, k) else Get(a, k)
    decreases |a|
  {
    assert Keys(a) == [a[0].0] + Keys(a[1..]);
    if a[0].0 != k {
      GetOverride(a[1..], b, k);
    }
  }

  lemma {:induction false} GetAdditions<V>(b: seq<(string, V)>, a: seq<(string, V)>, k: string)
    requires k !in Keys(a)
    ensures Get(Additions(b, a), k) == Get(b, k)
    decreases |b|
  {
    if |b| > 0 {
      GetAdditions(b[1..], a, k);
    }
  }

  lemma DistinctAppend(x: seq<string>, y: seq<string>)
    requires Distinct(x) && Distinct(y)
    requires forall k :: k in x ==> k !in y
    ensures Distinct(x + y)
  {
    forall i, j | 0 <= i < j < |x + y|
      ensures (x + y)[i] != (x + y)[j]
    {
      if j < |x| {
      } else if i >= |x| {
        assert (x + y)[i] == y[i - |x|];
      } else {
        assert (x + y)[i] == x[i] && x[i] in x;
        assert (x + y)[j] == y[j - |x|];
      }
    }
  }

  /** `array_merge($a, $b)` for string keys: `a`'s keys first, in order, with `b`'s
      values winning, then `b`'s new keys in `b`'s order. Integer keys, which PHP
      renumbers, do not occur in this model. */
  function Merge<V>(a: Dict<V>, b: Dict<V>): (r: Dict<V>)
  {
    var r := Override(a, b) + Additions(b, a);
    KeysAppend(Override(a, b), Additions(b, a));
    DistinctAppend(Keys(Override(a, b)), Keys(Additions(b, a)));
    r
  }

  /** The merge keeps every entry of the first array. */
  lemma MergeLonger<V>(a: Dict<V>, b: Dict<V>)
    ensures |Merge(a, b)| >= |a|
  {
    assert |Keys(Override(a, b))| == |Keys(a)|;
  }

  /** Position by position: the first array's entries, each with the second array's
      value when it has that key, then entries taken from the second array. */
  lemma MergeAt<V>(a: Dict<V>, b: Dict<V>, i: nat)
    requires i < |Merge(a, b)|
    ensures i < |a| ==> Merge(a, b)[i] == (a[i].0, Get(b, a[i].0).GetOr(a[i].1))
    ensures i >= |a| ==> Merge(a, b)[i] in b && Merge(a, b)[i].0 !in Keys(a)
  {
    OverrideAt(a, b, i);
    var add := Additions(b, a);
    assert |Override(a, b)| == |a|;
    if i >= |a| {
      assert Merge(a, b)[i] == add[i - |a|];
      AdditionsIn(b, a, i - |a|);
    }
  }

  lemma {:induction false} OverrideAt<V>(a: seq<(string, V)>, b: seq<(string, V)>, i: nat)
    ensures |Override(a, b)| == |a|
    ensures i < |a| ==> Override(a, b)[i] == (a[i].0, Get(b, a[i].0).GetOr(a[i].1))
    decreases |a|
  {
    if |a| > 0 && i > 0 {
      OverrideAt(a[1..], b, i - 1);
    } else if |a| > 0 {
      OverrideAt(a[1..], b, 0);
    }
  }

  lemma {:induction false} AdditionsIn<V>(b: seq<(string, V)>, a: seq<(string, V)>, i: nat)
    requires i < |Additions(b, a)|
    ensures Additions(b, a)[i] in b && Additions(b, a)[i].0 !in Keys(a)
    decreases |b|
  {
    var rest := Additions(b[1..], a);
    if b[0].0 in Keys(a) {
      AdditionsIn(b[1..], a, i);
    } else if i > 0 {
      AdditionsIn(b[1..], a, i - 1);
    }
  }

  /** A lookup in a merge finds the second array's value when it has the key, else
      the first's: later arrays win. */
  lemma MergeGet<V>(a: Dict<V>, b: Dict<V>, k: string)
    ensures Get(Merge(a, b), k) == if k in Keys(b) then Get(b, k) else Get(a, k)
  {
    GetAppend(Override(a, b), Additions(b, a), k);
    if k in Keys(a) {
      GetOverride(a, b, k);
    } else {
      GetAdditions(b, a, k);
    }
  }

  /** A merge keeps the first array's key order and appends the second array's new
      keys in their order; its key set is the union. */
  lemma MergeKeys<V>(a: Dict<V>, b: Dict<V>)
    ensures Keys(Merge(a, b)) == Keys(a) + Keys(Additions(b, a))
    ensures forall k :: k in Keys(Merge(a, b)) <==> k in Keys(a) || k in Keys(b)
  {
    KeysAppend(Override(a, b), Additions(b, a));
  }

  /** `array_merge($a, [])` is `$a`. */
  lemma MergeEmpty<V>(a: Dict<V>)
    ensures Merge(a, []) == a
  {
    forall i | 0 <= i < |a| ensures Override(a, [])[i] == a[i] {
      OverrideAt(a, [], i);
    }
    OverrideAt(a, [], 0);
  }

  lemma {:induction false} OverrideOfMerge<V>(x: Dict<V>, a: Dict<V>, b: Dict<V>)
    requires forall i :: 0 <= i < |x| ==> x[i] in a
    ensures Override(x, Merge(a, b)) == Override(x, b)
    decreases |x|
  {
    if |x| > 0 {
      var k := x[0].0;
      assert Keys(x) == [k] + Keys(x[1..]);
      var t: Dict<V> := x[1..];
      OverrideOfMerge(t, a, b);
      MergeGet(a, b, k);
      var i :| 0 <= i < |a| && a[i] == x[0];
      GetAt(a, i);
    }
  }

  lemma {:induction false} AdditionsAppend<V>(x: seq<(string, V)>, y: seq<(string, V)>, a: seq<(string, V)>)
    ensures Additions(x + y, a) == Additions(x, a) + Additions(y, a)
    decreases |x|
  {
    if |x| == 0 {
      assert x + y == y;
    } else {
      assert (x + y)[1..] == x[1..] + y;
      AdditionsAppend(x[1..], y, a);
    }
  }

  lemma {:induction false} AdditionsAll<V>(x: seq<(string, V)>, a: seq<(string, V)>)
    requires forall k :: k in Keys(x) ==> k in Keys(a)
    ensures Additions(x, a) == []
    decreases |x|
  {
    if |x| > 0 {
      assert Keys(x) == [x[0].0] + Keys(x[1..]);
      AdditionsAll(x[1..], a);
    }
  }

  lemma {:induction false} AdditionsNone<V>(x: seq<(string, V)>, a: seq<(string, V)>)
    requires forall k :: k in Keys(x) ==> k !in Keys(a)
    ensures Additions(x, a) == x
    decreases |x|
  {
    if |x| > 0 {
      assert Keys(x) == [x[0].0] + Keys(x[1..]);
      AdditionsNone(x[1..], a);
      assert [x[0]] + x[1..] == x;
    }
  }

  /** Merging an array into itself-merged-with-`b` is the same as merging `b` once:
      `array_merge($a, array_merge($a, $b)) == array_merge($a, $b)`. */
  lemma MergeAbsorbs<V>(a: Dict<V>, b: Dict<V>)
    ensures Merge(a, Merge(a, b)) == Merge(a, b)
  {
    var m := Merge(a, b);
    forall i | 0 <= i < |a| ensures a[i] in a { }
    OverrideOfMerge(a, a, b);
    AdditionsAppend(Override(a, b), Additions(b, a), a);
    AdditionsAll(Override(a, b), a);
    AdditionsNone(Additions(b, a), a);
    assert Additions(m, a) == Additions(b, a);
  }

  /** Descending into nested arrays along the given key path. */
  function Walk(v: Value, path: seq<string>): bool
    decreases |path|
  {
    if |path| == 0 then true
    else match v
      case Arr(es) => (match Get(es, path[0])
                       case Some(w) => Walk(w, path[1..])
                       case None => false)
      case _ => false
  }

  /** Laravel's `Arr::has($array, $key)` for one string key: false on an empty array;
      true when the key itself is present; otherwise the key is read as a dot path
      into nested arrays. */
  function ArrHas(d: Dict<Value>, key: string): (r: bool)
    ensures r ==> |d| > 0
    ensures |d| > 0 && key in Keys(d) ==> r
    ensures '.' !in key ==> (r <==> key in Keys(d))
  {
    if |d| == 0 then false
    else if key in Keys(d) then true
    else
      ExplodeWithout('.', key);
      Walk(Arr(d), Explode('.', key))
  }
}
