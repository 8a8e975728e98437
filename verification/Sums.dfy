/** Sums over sequences and over the values of finite maps. */
module Sums {

  function SeqSum(s: seq<int>): int {
    if s == [] then 0 else SeqSum(s[..|s| - 1]) + s[|s| - 1]
  }

  ghost function MapSum<K>(m: map<K, int>): int
    decreases |m|
  {
    if m == map[] then 0 else
      var k :| k in m;
      m[k] + MapSum(m - {k})
  }

  /** The sum does not depend on the order in which keys are taken. */
  lemma {:induction false} MapSumRemove<K>(m: map<K, int>, k: K)
    requires k in m
    ensures MapSum(m) == m[k] + MapSum(m - {k})
    decreases |m|
  {
    assert m != map[];
    var j :| j in m && MapSum(m) == m[j] + MapSum(m - {j});
    if j != k {
      MapSumRemove(m - {j}, k);
      MapSumRemove(m - {k}, j);
      assert m - {j} - {k} == m - {k} - {j};
    }
  }

  /** Lowering values never raises the sum, and lowering one of them lowers it. */
  lemma {:induction false} MapSumMonotone<K>(m: map<K, int>, m': map<K, int>)
    requires m.Keys == m'.Keys
    requires forall k :: k in m ==> m'[k] <= m[k]
    ensures MapSum(m') <= MapSum(m)
    ensures (exists k :: k in m && m'[k] < m[k]) ==> MapSum(m') < MapSum(m)
    decreases |m|
  {
    if m == map[] {
      assert m' == map[];
    } else {
      var j :| j in m && ((exists k :: k in m && m'[k] < m[k]) ==> m'[j] < m[j]);
      MapSumRemove(m, j);
      MapSumRemove(m', j);
      MapSumMonotone(m - {j}, m' - {j});
    }
  }

  lemma {:induction false} MapSumAtMostDouble<K>(m: map<K, int>)
    requires forall k :: k in m ==> 0 <= m[k] <= 2
    ensures 0 <= MapSum(m) <= 2 * |m|
    decreases |m|
  {
    if m != map[] {
      var j :| j in m;
      MapSumRemove(m, j);
      MapSumAtMostDouble(m - {j});
    }
  }

  /** The keys list the map's domain, each once, with their values. */
  ghost predicate Enumerates<K(!new)>(m: map<K, int>, keys: seq<K>, values: seq<int>) {
    && |keys| == |values| && (forall i, j :: 0 <= i < j < |keys| ==> keys[i] != keys[j])
    && (forall k :: k in m <==> k in keys)
    && (forall i :: 0 <= i < |keys| ==> m[keys[i]] == values[i])
  }

  lemma EnumeratesFewer<K(!new)>(m: map<K, int>, keys: seq<K>, values: seq<int>)
    requires Enumerates(m, keys, values) && keys != []
    ensures var n := |keys| - 1;
      keys[n] in m && m[keys[n]] == values[n] && Enumerates(m - {keys[n]}, keys[..n], values[..n])
  {
    var n := |keys| - 1;
    assert keys == keys[..n] + [keys[n]];
  }

  /** A map listed by distinct keys sums to the listed values. */
  lemma {:induction false} MapSumEnumerated<K(!new)>(m: map<K, int>, keys: seq<K>, values: seq<int>)
    requires Enumerates(m, keys, values)
    ensures MapSum(m) == SeqSum(values) && |m| == |keys|
  {
    if keys == [] {
      assert m == map[];
    } else {
      var n := |keys| - 1;
      EnumeratesFewer(m, keys, values);
      hide Enumerates, MapSum;
      MapSumEnumerated(m - {keys[n]}, keys[..n], values[..n]);
      MapSumRemove(m, keys[n]);
      assert m.Keys == (m - {keys[n]}).Keys + {keys[n]};
    }
  }

  /** The weights of all elements of a sequence, added up. */
  function Weigh<T>(s: seq<T>, f: T -> int): int {
    if s == [] then 0 else Weigh(s[..|s| - 1], f) + f(s[|s| - 1])
  }

  lemma {:induction false} WeighAppend<T>(a: seq<T>, b: seq<T>, f: T -> int)
    ensures Weigh(a + b, f) == Weigh(a, f) + Weigh(b, f)
  {
    if b == [] {
      assert a + b == a;
    } else {
      var n := |b| - 1;
      assert (a + b)[..|a + b| - 1] == a + b[..n];
      WeighAppend(a, b[..n], f);
    }
  }

  lemma WeighUpdate<T>(s: seq<T>, i: nat, x: T, f: T -> int)
    requires i < |s|
    ensures Weigh(s[i := x], f) == Weigh(s, f) - f(s[i]) + f(x)
  {
    assert s == s[..i] + [s[i]] + s[i + 1..];
    assert s[i := x] == s[..i] + [x] + s[i + 1..];
    WeighAppend(s[..i] + [s[i]], s[i + 1..], f);
    WeighAppend(s[..i] + [x], s[i + 1..], f);
    WeighAppend(s[..i], [s[i]], f);
    WeighAppend(s[..i], [x], f);
  }

  lemma {:induction false} WeighNonNegative<T>(s: seq<T>, f: T -> int)
    requires forall i :: 0 <= i < |s| ==> f(s[i]) >= 0
    ensures Weigh(s, f) >= 0
    ensures Weigh(s, f) == 0 <==> forall i :: 0 <= i < |s| ==> f(s[i]) == 0
  {
    if s != [] {
      var n := |s| - 1;
      WeighNonNegative(s[..n], f);
      assert forall i :: 0 <= i < n ==> s[..n][i] == s[i];
    }
  }
}
