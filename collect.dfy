/** Sequence and dictionary idioms the scraper uses: order-preserving
    de-duplication with a `seen` set, dropping `None` results, and
    insertion-ordered counter dictionaries (`d[k] = d.get(k, 0) + 1`). */
module Collect {
  import opened Text

  ghost predicate Distinct<T>(s: seq<T>) {
    forall i, j :: 0 <= i < j < |s| ==> s[i] != s[j]
  }

  /** The first index of `x` in `s`, or |s| when `x` does not occur. */
  ghost function IndexOf<T>(s: seq<T>, x: T): (r: nat)
    ensures r <= |s|
    ensures r < |s| <==> x in s
    ensures r < |s| ==> s[r] == x
    ensures forall k :: 0 <= k < r ==> s[k] != x
    decreases |s|
  {
    if |s| == 0 then 0 else if s[0] == x then 0 else 1 + IndexOf(s[1..], x)
  }

  lemma IndexOfAppend<T>(s: seq<T>, y: T, x: T)
    requires x in s + [y]
    ensures IndexOf(s + [y], x) == (if x in s then IndexOf(s, x) else |s|)
  {
    var t := s + [y];
    var i := IndexOf(t, x);
    if x in s {
      var j := IndexOf(s, x);
      assert t[j] == x;
      assert i <= j;
      assert s[i] == x;
    } else {
      assert forall k :: 0 <= k < |s| ==> t[k] != x;
    }
  }

  /** `seen = set(); [x for x in s if not (x in seen or seen.add(x))]` */
  ghost function Dedup<T>(s: seq<T>): seq<T>
    decreases |s|
  {
    if |s| == 0 then []
    else
      var d := Dedup(s[..|s| - 1]);
      if s[|s| - 1] in d then d else d + [s[|s| - 1]]
  }

  /** One more element, one step of the scan. */
  lemma DedupSnoc<T>(s: seq<T>, x: T)
    ensures Dedup(s + [x]) == if x in Dedup(s) then Dedup(s) else Dedup(s) + [x]
  {
    assert (s + [x])[..|s|] == s;
  }

  /** De-duplication keeps exactly the elements of its input. */
  lemma {:induction false} DedupElements<T>(s: seq<T>, y: T)
    ensures y in Dedup(s) <==> y in s
    decreases |s|
  {
    if |s| > 0 {
      var init := s[..|s| - 1];
      DedupElements(init, y);
      assert s == init + [s[|s| - 1]];
    }
  }

  /** De-duplication leaves no element twice. */
  lemma {:induction false} DedupDistinct<T>(s: seq<T>)
    ensures Distinct(Dedup(s))
    decreases |s|
  {
    if |s| > 0 {
      DedupDistinct(s[..|s| - 1]);
    }
  }

  /** De-duplication keeps first occurrences, in the order they first occur. */
  lemma {:induction false} DedupFirstOccurrenceOrder<T>(s: seq<T>, i: nat, j: nat)
    requires i < j < |Dedup(s)|
    ensures IndexOf(s, Dedup(s)[i]) < IndexOf(s, Dedup(s)[j]) < |s|
    decreases |s|
  {
    var init, x := s[..|s| - 1], s[|s| - 1];
    assert s == init + [x];
    var d := Dedup(init);
    var a, b := Dedup(s)[i], Dedup(s)[j];
    DedupElements(s, a);
    DedupElements(s, b);
    IndexOfAppend(init, x, a);
    IndexOfAppend(init, x, b);
    if j < |d| {
      assert a == d[i] && b == d[j];
      DedupFirstOccurrenceOrder(init, i, j);
    } else {
      assert a == d[i] && b == x && x !in d;
      DedupElements(init, a);
      DedupElements(init, x);
    }
  }

  /** The element a scan starts with stays first. */
  lemma {:induction false} DedupHead<T>(x: T, s: seq<T>)
    ensures |Dedup([x] + s)| > 0 && Dedup([x] + s)[0] == x
    decreases |s|
  {
    if |s| == 0 {
      assert Dedup([x]) == Dedup([x][..0]) + [x];
    } else {
      var t := [x] + s;
      assert t[..|t| - 1] == [x] + s[..|s| - 1];
      DedupHead(x, s[..|s| - 1]);
    }
  }

  /** `[p for p in xs if p is not None]` */
  function KeepSome<T>(xs: seq<Option<T>>): seq<T>
    decreases |xs|
  {
    if |xs| == 0 then []
    else KeepSome(xs[..|xs| - 1]) + (if xs[|xs| - 1].Some? then [xs[|xs| - 1].value] else [])
  }

  /** The number of `None` entries. */
  function NoneCount<T>(xs: seq<Option<T>>): nat
    decreases |xs|
  {
    if |xs| == 0 then 0 else NoneCount(xs[..|xs| - 1]) + (if xs[|xs| - 1].None? then 1 else 0)
  }

  /** Filtering a concatenation filters each part, in order. */
  lemma {:induction false} KeepSomeAppend<T>(xs: seq<Option<T>>, ys: seq<Option<T>>)
    ensures KeepSome(xs + ys) == KeepSome(xs) + KeepSome(ys)
    decreases |ys|
  {
    if |ys| > 0 {
      var ys' := ys[..|ys| - 1];
      assert (xs + ys)[..|xs + ys| - 1] == xs + ys';
      assert (xs + ys)[|xs + ys| - 1] == ys[|ys| - 1];
      KeepSomeAppend(xs, ys');
      assert KeepSome(xs + ys) == KeepSome(xs + ys') + (if ys[|ys| - 1].Some? then [ys[|ys| - 1].value] else []);
    } else {
      assert xs + ys == xs;
    }
  }

  /** Every entry is kept or counted as a failure. */
  lemma {:induction false} KeepSomeLength<T>(xs: seq<Option<T>>)
    ensures |KeepSome(xs)| + NoneCount(xs) == |xs|
    decreases |xs|
  {
    if |xs| > 0 {
      KeepSomeLength(xs[..|xs| - 1]);
    }
  }

  /** A kept value is exactly a value that some entry carries. */
  lemma {:induction false} KeepSomeElements<T>(xs: seq<Option<T>>, y: T)
    ensures y in KeepSome(xs) <==> Some(y) in xs
    decreases |xs|
  {
    if |xs| > 0 {
      var init := xs[..|xs| - 1];
      KeepSomeElements(init, y);
      assert xs == init + [xs[|xs| - 1]];
    }
  }

  /** An insertion-ordered dictionary of counts. */
  type Counter = seq<(string, nat)>

  /** `d.get(k, 0)` */
  function Get(c: Counter, k: string): nat
    decreases |c|
  {
    if |c| == 0 then 0 else if c[0].0 == k then c[0].1 else Get(c[1..], k)
  }

  /** `if k not in d: d[k] = 0` then `d[k] += 1`: a new key goes last. */
  function Inc(c: Counter, k: string): Counter
    decreases |c|
  {
    if |c| == 0 then [(k, 1)]
    else if c[0].0 == k then [(k, c[0].1 + 1)] + c[1..]
    else [c[0]] + Inc(c[1..], k)
  }

  /** `sum(d.values())` */
  function Total(c: Counter): nat
    decreases |c|
  {
    if |c| == 0 then 0 else c[0].1 + Total(c[1..])
  }

  /** `d.keys()` */
  function Keys(c: Counter): set<string>
    decreases |c|
  {
    if |c| == 0 then {} else {c[0].0} + Keys(c[1..])
  }

  /** No key is listed twice, as in a dictionary. */
  predicate KeysDistinct(c: Counter)
    decreases |c|
  {
    |c| == 0 || (c[0].0 !in Keys(c[1..]) && KeysDistinct(c[1..]))
  }

  /** Increment every key of `ks` in turn. */
  function IncAll(c: Counter, ks: seq<string>): Counter
    decreases |ks|
  {
    if |ks| == 0 then c else Inc(IncAll(c, ks[..|ks| - 1]), ks[|ks| - 1])
  }

  /** One more key, one more increment. */
  lemma IncAllSnoc(c: Counter, ks: seq<string>, k: string)
    ensures IncAll(c, ks + [k]) == Inc(IncAll(c, ks), k)
  {
    assert (ks + [k])[..|ks|] == ks;
  }

  lemma {:induction false} IncTotal(c: Counter, k: string)
    ensures Total(Inc(c, k)) == Total(c) + 1
    decreases |c|
  {
    if |c| > 0 && c[0].0 != k {
      IncTotal(c[1..], k);
      assert (Inc(c, k))[1..] == Inc(c[1..], k);
    } else if |c| > 0 {
      assert (Inc(c, k))[1..] == c[1..];
    }
  }

  lemma {:induction false} IncGet(c: Counter, k: string, j: string)
    ensures Get(Inc(c, k), j) == Get(c, j) + (if j == k then 1 else 0)
    decreases |c|
  {
    if |c| > 0 && c[0].0 != k {
      IncGet(c[1..], k, j);
      assert (Inc(c, k))[1..] == Inc(c[1..], k);
    } else if |c| > 0 {
      assert (Inc(c, k))[1..] == c[1..];
    }
  }

  lemma {:induction false} IncKeys(c: Counter, k: string)
    requires KeysDistinct(c)
    ensures KeysDistinct(Inc(c, k)) && Keys(Inc(c, k)) == Keys(c) + {k}
    decreases |c|
  {
    if |c| > 0 && c[0].0 != k {
      IncKeys(c[1..], k);
      assert (Inc(c, k))[1..] == Inc(c[1..], k);
    } else if |c| > 0 {
      assert (Inc(c, k))[1..] == c[1..];
    }
  }

  lemma {:induction false} IncAllTotal(c: Counter, ks: seq<string>)
    ensures Total(IncAll(c, ks)) == Total(c) + |ks|
    decreases |ks|
  {
    if |ks| > 0 {
      IncAllTotal(c, ks[..|ks| - 1]);
      IncTotal(IncAll(c, ks[..|ks| - 1]), ks[|ks| - 1]);
    }
  }

  /** A counter built from `ks` holds, for each key, how often it occurs in `ks`. */
  lemma {:induction false} IncAllGet(c: Counter, ks: seq<string>, j: string)
    ensures Get(IncAll(c, ks), j) == Get(c, j) + multiset(ks)[j]
    decreases |ks|
  {
    if |ks| > 0 {
      var init := ks[..|ks| - 1];
      IncAllGet(c, init, j);
      IncGet(IncAll(c, init), ks[|ks| - 1], j);
      assert ks == init + [ks[|ks| - 1]];
    }
  }

  lemma {:induction false} IncAllAppend(c: Counter, ks: seq<string>, ls: seq<string>)
    ensures IncAll(c, ks + ls) == IncAll(IncAll(c, ks), ls)
    decreases |ls|
  {
    if |ls| > 0 {
      var ls' := ls[..|ls| - 1];
      assert (ks + ls)[..|ks + ls| - 1] == ks + ls';
      assert (ks + ls)[|ks + ls| - 1] == ls[|ls| - 1];
      IncAllAppend(c, ks, ls');
    } else {
      assert ks + ls == ks;
    }
  }
}
