/** Counting a relation that is stored as a map from keys to sets of values. */
module Counting {

  /** The values paired with `k`. */
  ghost function Of<K, V>(pairs: set<(K, V)>, k: K): set<V> {
    set p | p in pairs && p.0 == k :: p.1
  }

  ghost function Table<K, V>(pairs: set<(K, V)>, keys: set<K>): map<K, set<V>> {
    map k | k in keys :: Of(pairs, k)
  }

  ghost function Firsts<K, V>(pairs: set<(K, V)>): set<K> {
    set p | p in pairs :: p.0
  }

  /** Adding one value under one key adds one pair to the relation. */
  lemma TableInsert<K, V>(pairs: set<(K, V)>, keys: set<K>, k: K, v: V)
    ensures Table(pairs + {(k, v)}, keys + {k}) == Table(pairs, keys)[k := Of(pairs, k) + {v}]
    ensures Firsts(pairs + {(k, v)}) == Firsts(pairs) + {k}
  {
    forall j ensures Of(pairs + {(k, v)}, j) == if j == k then Of(pairs, j) + {v} else Of(pairs, j) {
      assert (k, v).1 in Of(pairs + {(k, v)}, k);
      forall x | x in Of(pairs, j) ensures x in Of(pairs + {(k, v)}, j) {
        var p :| p in pairs && p.0 == j && p.1 == x;
        assert p in pairs + {(k, v)};
      }
    }
    forall j | j in Firsts(pairs) + {k} ensures j in Firsts(pairs + {(k, v)}) {
      if j == k {
        assert (k, v) in pairs + {(k, v)};
      } else {
        var p :| p in pairs && p.0 == j;
        assert p in pairs + {(k, v)};
      }
    }
  }

  lemma OfEmptyUnlessFirst<K, V>(pairs: set<(K, V)>, k: K)
    ensures Of(pairs, k) == {} <==> k !in Firsts(pairs)
  {
    if k in Firsts(pairs) {
      var p :| p in pairs && p.0 == k;
      assert p.1 in Of(pairs, k);
    }
  }

  /** An injective image is as large as the set. */
  lemma {:induction false} ImageSize<A(!new), B>(s: set<A>, f: A -> B)
    requires forall a, b :: a in s && b in s && f(a) == f(b) ==> a == b
    ensures |set a | a in s :: f(a)| == |s|
  {
    if s == {} {
      assert (set a | a in s :: f(a)) == {};
    } else {
      var x :| x in s;
      var t := s - {x};
      ImageSize(t, f);
      assert (set a | a in s :: f(a)) == (set a | a in t :: f(a)) + {f(x)};
    }
  }

  /** The pairs a table holds under the given keys. */
  ghost function PairsOn<K, V>(t: map<K, set<V>>, keys: set<K>): set<(K, V)> {
    set k, v | k in keys && k in t && v in t[k] :: (k, v)
  }

  lemma PairsOnTable<K, V>(pairs: set<(K, V)>, keys: set<K>)
    requires Firsts(pairs) <= keys
    ensures PairsOn(Table(pairs, keys), keys) == pairs
  {
    var t := Table(pairs, keys);
    forall p | p in pairs ensures p in PairsOn(t, keys) {
      assert p.0 in Firsts(pairs);
      assert p.1 in t[p.0];
      assert p == (p.0, p.1);
    }
    forall p | p in PairsOn(t, keys) ensures p in pairs {
      var q :| q in pairs && q.0 == p.0 && q.1 == p.1;
      assert q == p;
    }
  }

  /** Each further key brings its own values. */
  lemma PairsOnStep<K(!new), V(!new)>(t: map<K, set<V>>, keys: set<K>, k: K)
    requires k in t && k !in keys
    ensures |PairsOn(t, keys + {k})| == |PairsOn(t, keys)| + |t[k]|
  {
    var f := (v: V) => (k, v);
    var own := set v | v in t[k] :: f(v);
    ImageSize(t[k], f);
    forall p | p in PairsOn(t, keys) + own ensures p in PairsOn(t, keys + {k}) {
      assert p == (p.0, p.1);
    }
    forall p | p in PairsOn(t, keys + {k}) ensures p in PairsOn(t, keys) + own {
      if p.0 == k {
        assert f(p.1) in own;
      } else {
        assert p == (p.0, p.1);
      }
    }
    assert PairsOn(t, keys + {k}) == PairsOn(t, keys) + own;
    assert PairsOn(t, keys) !! own;
  }

  /** The sum of the sizes of all the sets in the table. */
  ghost function SumSizes<K, V>(t: map<K, set<V>>, keys: set<K>): nat
    requires keys <= t.Keys
  {
    if keys == {} then 0
    else
      var k :| k in keys;
      |t[k]| + SumSizes(t, keys - {k})
  }

  lemma {:induction false} SumSizesIsPairs<K(!new), V(!new)>(t: map<K, set<V>>, keys: set<K>)
    requires keys <= t.Keys
    ensures SumSizes(t, keys) == |PairsOn(t, keys)|
  {
    if keys == {} {
      assert PairsOn(t, keys) == {};
    } else {
      var k :| k in keys && SumSizes(t, keys) == |t[k]| + SumSizes(t, keys - {k});
      SumSizesIsPairs(t, keys - {k});
      PairsOnStep(t, keys - {k}, k);
      assert keys - {k} + {k} == keys;
    }
  }

  ghost function NonEmpty<K, V>(t: map<K, set<V>>, keys: set<K>): set<K> {
    set k | k in keys && k in t && t[k] != {}
  }

  lemma NonEmptyStep<K, V>(t: map<K, set<V>>, keys: set<K>, k: K)
    requires k in t && k !in keys
    ensures |NonEmpty(t, keys + {k})| == |NonEmpty(t, keys)| + if |t[k]| > 0 then 1 else 0
  {
    if t[k] != {} {
      assert NonEmpty(t, keys + {k}) == NonEmpty(t, keys) + {k};
    } else {
      assert NonEmpty(t, keys + {k}) == NonEmpty(t, keys);
    }
  }

  /** What a set has beyond its first element. */
  function Surplus(n: nat): nat {
    if n > 1 then n - 1 else 0
  }

  /** The sum of (size - 1) over the sets in the table that have more than one element. */
  ghost function SumSurplus<K, V>(t: map<K, set<V>>, keys: set<K>): nat
    requires keys <= t.Keys
  {
    if keys == {} then 0
    else
      var k :| k in keys;
      Surplus(|t[k]|) + SumSurplus(t, keys - {k})
  }

  /** Every pair is the first of its set or one of the surplus. */
  lemma {:induction false} SurplusAndFirsts<K(!new), V(!new)>(t: map<K, set<V>>, keys: set<K>)
    requires keys <= t.Keys
    ensures SumSurplus(t, keys) + |NonEmpty(t, keys)| == |PairsOn(t, keys)|
  {
    if keys == {} {
      assert PairsOn(t, keys) == {} && NonEmpty(t, keys) == {};
    } else {
      var k :| k in keys && SumSurplus(t, keys) == Surplus(|t[k]|) + SumSurplus(t, keys - {k});
      var rest := keys - {k};
      assert rest + {k} == keys;
      SurplusAndFirsts(t, rest);
      PairsOnStep(t, rest, k);
      NonEmptyStep(t, rest, k);
      assert |NonEmpty(t, keys)| == |NonEmpty(t, rest)| + if |t[k]| > 0 then 1 else 0;
      assert |PairsOn(t, keys)| == |PairsOn(t, rest)| + |t[k]|;
      assert SumSurplus(t, keys) == Surplus(|t[k]|) + SumSurplus(t, rest);
    }
  }

  /** So the sum does not depend on the order of the keys. */
  lemma SurplusStep<K(!new), V(!new)>(t: map<K, set<V>>, keys: set<K>, k: K)
    requires keys <= t.Keys && k in t && k !in keys
    ensures SumSurplus(t, keys + {k}) == SumSurplus(t, keys) + Surplus(|t[k]|)
  {
    SurplusAndFirsts(t, keys);
    SurplusAndFirsts(t, keys + {k});
    PairsOnStep(t, keys, k);
    NonEmptyStep(t, keys, k);
  }

  ghost function Swap<K, V>(pairs: set<(K, V)>): set<(V, K)> {
    set p | p in pairs :: (p.1, p.0)
  }

  lemma {:induction false} SwapSize<K, V>(pairs: set<(K, V)>)
    ensures |Swap(pairs)| == |pairs|
  {
    if pairs == {} {
      assert Swap(pairs) == {};
    } else {
      var p :| p in pairs;
      SwapSize(pairs - {p});
      assert Swap(pairs) == Swap(pairs - {p}) + {(p.1, p.0)};
    }
  }

  /** If a value names its key, there are as many values as pairs. */
  lemma {:induction false} SecondsCount<K, V>(pairs: set<(K, V)>)
    requires forall p, q :: p in pairs && q in pairs && p.1 == q.1 ==> p == q
    ensures |set p | p in pairs :: p.1| == |pairs|
  {
    if pairs == {} {
      assert (set p | p in pairs :: p.1) == {};
    } else {
      var x :| x in pairs;
      SecondsCount(pairs - {x});
      assert (set p | p in pairs :: p.1) == (set p | p in pairs - {x} :: p.1) + {x.1};
    }
  }

  // ---------------------------------------------------------------- lists of sizes

  function Sum(s: seq<nat>): nat {
    if s == [] then 0 else s[0] + Sum(s[1..])
  }

  lemma {:induction false} SumAppend(s: seq<nat>, x: nat)
    ensures Sum(s + [x]) == Sum(s) + x
  {
    if s != [] {
      SumAppend(s[1..], x);
      assert (s + [x])[1..] == s[1..] + [x];
    } else {
      assert [x][1..] == [];
      assert s + [x] == [x];
    }
  }

  ghost predicate Descending(s: seq<nat>) {
    forall i, j :: 0 <= i < j < |s| ==> s[i] >= s[j]
  }

  function InsertDescending(x: nat, s: seq<nat>): seq<nat> {
    if s == [] || x >= s[0] then [x] + s else [s[0]] + InsertDescending(x, s[1..])
  }

  lemma {:induction false} InsertAdds(x: nat, s: seq<nat>)
    ensures multiset(InsertDescending(x, s)) == multiset(s) + multiset{x}
    ensures Sum(InsertDescending(x, s)) == Sum(s) + x
  {
    var r := InsertDescending(x, s);
    if s == [] || x >= s[0] {
      assert r[1..] == s;
    } else {
      InsertAdds(x, s[1..]);
      assert s == [s[0]] + s[1..];
      assert r[1..] == InsertDescending(x, s[1..]);
    }
  }

  lemma {:induction false} InsertKeepsOrder(x: nat, s: seq<nat>)
    requires Descending(s)
    ensures Descending(InsertDescending(x, s))
    ensures forall y :: y in InsertDescending(x, s) ==> y == x || y in s
  {
    if s != [] && x < s[0] {
      InsertKeepsOrder(x, s[1..]);
      var t := InsertDescending(x, s[1..]);
      forall i | 0 <= i < |t| ensures t[i] <= s[0] {
        assert t[i] in t;
      }
    }
  }

  lemma MaxIsFirst(s: seq<nat>, t: seq<nat>)
    requires Descending(s) && s != [] && t != [] && multiset(s) == multiset(t)
    ensures t[0] <= s[0]
  {
    assert t[0] in multiset(t);
    var j :| 0 <= j < |s| && s[j] == t[0];
  }

  lemma DropFirst(s: seq<nat>)
    requires s != []
    ensures multiset(s[1..]) == multiset(s) - multiset{s[0]}
  {
    assert s == [s[0]] + s[1..];
  }

  /** A descending list is determined by how often each number occurs. */
  lemma {:induction false} DescendingUnique(s: seq<nat>, t: seq<nat>)
    requires Descending(s) && Descending(t) && multiset(s) == multiset(t)
    ensures s == t
    decreases |s|
  {
    assert |s| == |multiset(s)| && |t| == |multiset(t)|;
    if s != [] {
      MaxIsFirst(s, t);
      MaxIsFirst(t, s);
      DropFirst(s);
      DropFirst(t);
      DescendingUnique(s[1..], t[1..]);
      assert s == [s[0]] + s[1..] && t == [t[0]] + t[1..];
    }
  }
}
