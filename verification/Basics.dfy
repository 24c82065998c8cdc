/** Optional values and results, used in place of Python's `None` and exceptions. */
module Wrappers {
  datatype Option<+T> = None | Some(value: T)

  datatype Result<+T, +E> = Ok(value: T) | Err(error: E)
}

/** Python's `str` comparison.  A string stands for its UTF-8 bytes, whose lexicographic
    order is the code-point order and whose length is the source's `_component_size`. */
module Lex {
  predicate Less(a: string, b: string) {
    if b == [] then false
    else if a == [] then true
    else if a[0] != b[0] then a[0] < b[0]
    else Less(a[1..], b[1..])
  }

  /** Strings compare at the first place where they differ; a beginning comes before its continuations. */
  lemma {:induction false} LessMeans(a: string, b: string)
    ensures Less(a, b) <==>
      exists k :: 0 <= k < |b| && k <= |a| && a[..k] == b[..k] && (k == |a| || a[k] < b[k])
  {
    if a != [] && b != [] && a[0] == b[0] {
      LessMeans(a[1..], b[1..]);
      if Less(a, b) {
        var k :| 0 <= k < |b[1..]| && k <= |a[1..]| && a[1..][..k] == b[1..][..k] && (k == |a[1..]| || a[1..][k] < b[1..][k]);
        assert a[..k + 1] == [a[0]] + a[1..][..k] && b[..k + 1] == [b[0]] + b[1..][..k];
        assert 0 <= k + 1 < |b| && k + 1 <= |a| && a[..k + 1] == b[..k + 1];
      }
      if exists k :: 0 <= k < |b| && k <= |a| && a[..k] == b[..k] && (k == |a| || a[k] < b[k]) {
        var k :| 0 <= k < |b| && k <= |a| && a[..k] == b[..k] && (k == |a| || a[k] < b[k]);
        assert k > 0;
        assert a[1..][..k - 1] == a[..k][1..] && b[1..][..k - 1] == b[..k][1..];
        assert 0 <= k - 1 < |b[1..]| && k - 1 <= |a[1..]| && a[1..][..k - 1] == b[1..][..k - 1];
      }
    } else if a != [] && b != [] {
      assert forall k :: 0 < k <= |a| && k <= |b| ==> a[..k][0] == a[0] && b[..k][0] == b[0];
      if Less(a, b) { assert a[..0] == b[..0] && a[0] < b[0]; }
    } else if Less(a, b) {
      assert a[..0] == b[..0] && 0 == |a|;
    }
  }

  predicate AtMost(a: string, b: string) {
    a == b || Less(a, b)
  }

  lemma {:induction false} Irreflexive(a: string)
    ensures !Less(a, a)
  {
    if a != [] { Irreflexive(a[1..]); }
  }

  lemma {:induction false} Transitive(a: string, b: string, c: string)
    requires Less(a, b) && Less(b, c)
    ensures Less(a, c)
  {
    if a != [] && a[0] == b[0] && b[0] == c[0] {
      Transitive(a[1..], b[1..], c[1..]);
    }
  }

  lemma {:induction false} Total(a: string, b: string)
    ensures a == b || Less(a, b) || Less(b, a)
  {
    if a != [] && b != [] && a[0] == b[0] {
      Total(a[1..], b[1..]);
      if a[1..] == b[1..] {
        assert a == [a[0]] + a[1..] && b == [b[0]] + b[1..];
      }
    }
  }

  lemma Asymmetric(a: string, b: string)
    requires Less(a, b)
    ensures !Less(b, a) && a != b
  {
    Irreflexive(a);
    if Less(b, a) { Transitive(a, b, a); }
  }
}

/** Numbers written in decimal. */
module Decimals {
  predicate IsDigit(c: char) { '0' <= c <= '9' }

  predicate AllDigits(s: string) { forall i :: 0 <= i < |s| ==> IsDigit(s[i]) }

  /** `str` of a number that is not negative. */
  function Decimal(n: nat): (s: string)
    ensures |s| > 0 && AllDigits(s)
    decreases n
  {
    var digit := ('0' as int + n % 10) as char;
    if n < 10 then [digit] else Decimal(n / 10) + [digit]
  }

  function NumberOf(s: string): nat
    requires AllDigits(s)
  {
    if |s| == 0 then 0 else NumberOf(s[..|s| - 1]) * 10 + (s[|s| - 1] as int - '0' as int)
  }

  /** A number written out reads back as itself. */
  lemma {:induction false} DecimalReadsBack(n: nat)
    ensures NumberOf(Decimal(n)) == n
  {
    if n >= 10 {
      DecimalReadsBack(n / 10);
      assert Decimal(n)[..|Decimal(n)| - 1] == Decimal(n / 10);
    }
  }
}

/** Sums of a weight over the entries of a map. */
module MapSums {
  ghost function SumOver<K, V>(m: map<K, V>, weight: (K, V) -> int): int
    decreases |m|
  {
    if m == map[] then 0
    else
      var k :| k in m;
      assert (m - {k}).Keys == m.Keys - {k};
      weight(k, m[k]) + SumOver(m - {k}, weight)
  }

  lemma {:induction false} SumRemove<K, V>(m: map<K, V>, weight: (K, V) -> int, k: K)
    requires k in m
    ensures SumOver(m, weight) == weight(k, m[k]) + SumOver(m - {k}, weight)
    decreases |m|
  {
    var j :| j in m && SumOver(m, weight) == weight(j, m[j]) + SumOver(m - {j}, weight);
    if j != k {
      assert (m - {j}).Keys == m.Keys - {j} && (m - {k}).Keys == m.Keys - {k};
      SumRemove(m - {j}, weight, k);
      SumRemove(m - {k}, weight, j);
      assert m - {j} - {k} == m - {k} - {j};
    }
  }

  lemma SumInsert<K, V>(m: map<K, V>, weight: (K, V) -> int, k: K, v: V)
    requires k !in m
    ensures SumOver(m[k := v], weight) == weight(k, v) + SumOver(m, weight)
  {
    SumRemove(m[k := v], weight, k);
    assert m[k := v] - {k} == m;
  }

  lemma SumUpdate<K, V>(m: map<K, V>, weight: (K, V) -> int, k: K, v: V)
    ensures SumOver(m[k := v], weight)
         == SumOver(m, weight) - (if k in m then weight(k, m[k]) else 0) + weight(k, v)
  {
    if k in m {
      SumRemove(m, weight, k);
      SumInsert(m - {k}, weight, k, v);
      assert (m - {k})[k := v] == m[k := v];
    } else {
      SumInsert(m, weight, k, v);
    }
  }

  lemma {:induction false} SumNonNegative<K, V>(m: map<K, V>, weight: (K, V) -> int)
    requires forall k :: k in m ==> 0 <= weight(k, m[k])
    ensures 0 <= SumOver(m, weight)
    decreases |m|
  {
    if m != map[] {
      var k :| k in m && SumOver(m, weight) == weight(k, m[k]) + SumOver(m - {k}, weight);
      assert (m - {k}).Keys == m.Keys - {k};
      SumNonNegative(m - {k}, weight);
    }
  }

  /** The entries of `m` that `n` overwrites. */
  ghost function Shared<K, V>(m: map<K, V>, n: map<K, V>): map<K, V> {
    map k | k in m && k in n :: m[k]
  }

  lemma SharedInsert<K, V>(m: map<K, V>, n: map<K, V>, weight: (K, V) -> int, k: K, v: V)
    requires k !in n
    ensures SumOver(Shared(m, n[k := v]), weight) == SumOver(Shared(m, n), weight) + if k in m then weight(k, m[k]) else 0
  {
    if k in m {
      assert Shared(m, n[k := v]) == Shared(m, n)[k := m[k]];
      SumInsert(Shared(m, n), weight, k, m[k]);
    } else {
      assert Shared(m, n[k := v]) == Shared(m, n);
    }
  }

  lemma MergeInsert<K, V>(m: map<K, V>, n: map<K, V>, weight: (K, V) -> int, k: K, v: V)
    requires k !in n
    ensures SumOver(m + n[k := v], weight) == SumOver(m + n, weight) - (if k in m then weight(k, m[k]) else 0) + weight(k, v)
  {
    assert m + n[k := v] == (m + n)[k := v];
    SumUpdate(m + n, weight, k, v);
  }

  /** Overwriting `m` by `n` replaces the weights of the keys they share. */
  lemma {:induction false} SumMerge<K, V>(m: map<K, V>, n: map<K, V>, weight: (K, V) -> int)
    ensures SumOver(m + n, weight) == SumOver(m, weight) - SumOver(Shared(m, n), weight) + SumOver(n, weight)
    decreases |n|
  {
    if n == map[] {
      assert m + n == m && Shared(m, n) == map[];
    } else {
      hide SumOver, Shared;
      var k :| k in n;
      var v, rest := n[k], n - {k};
      assert rest.Keys == n.Keys - {k};
      assert n == rest[k := v];
      SumMerge(m, rest, weight);
      SumInsert(rest, weight, k, v);
      MergeInsert(m, rest, weight, k, v);
      SharedInsert(m, rest, weight, k, v);
    }
  }

  /** Fewer entries with smaller weights weigh no more. */
  lemma {:induction false} SumMonotone<K, V>(m: map<K, V>, n: map<K, V>, weight: (K, V) -> int)
    requires forall k :: k in m ==> k in n && weight(k, m[k]) <= weight(k, n[k])
    requires forall k :: k in n ==> 0 <= weight(k, n[k])
    ensures SumOver(m, weight) <= SumOver(n, weight)
    decreases |m|
  {
    if m == map[] {
      SumNonNegative(n, weight);
    } else {
      var k :| k in m && SumOver(m, weight) == weight(k, m[k]) + SumOver(m - {k}, weight);
      assert (m - {k}).Keys == m.Keys - {k};
      SumRemove(n, weight, k);
      SumMonotone(m - {k}, n - {k}, weight);
    }
  }
}
