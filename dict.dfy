/** Python dictionaries with string keys, as association lists in insertion order
    (the iteration order Python guarantees). */
module Dict {
  import opened Wrappers

  type Dict<V> = seq<(string, V)>

  /** The keys, in iteration order. */
  function Keys<V>(d: Dict<V>): (ks: seq<string>)
    ensures |ks| == |d| && forall i :: 0 <= i < |d| ==> ks[i] == d[i].0
  {
    if d == [] then [] else [d[0].0] + Keys(d[1..])
  }

  /** What every Python dict satisfies: no key twice. */
  predicate UniqueKeys<V>(d: Dict<V>) {
    forall i, j :: 0 <= i < j < |d| ==> d[i].0 != d[j].0
  }

  /** `d.get(k)`: the value stored under `k`, or `None`. */
  function Get<V>(d: Dict<V>, k: string): (r: Option<V>)
    ensures r.None? <==> k !in Keys(d)
    ensures r.Some? ==> exists i :: 0 <= i < |d| && d[i] == (k, r.value)
  {
    if d == [] then None
    else if d[0].0 == k then Some(d[0].1)
    else Get(d[1..], k)
  }

  /** `d.get(k, default)`. */
  function GetOr<V>(d: Dict<V>, k: string, default: V): (v: V)
    ensures k !in Keys(d) ==> v == default
  {
    match Get(d, k)
    case Some(v) => v
    case None => default
  }

  /** The statement `d[k] = v`: an existing key keeps its place, a new key goes last. */
  function Put<V>(d: Dict<V>, k: string, v: V): (r: Dict<V>)
    ensures k in Keys(d) ==> Keys(r) == Keys(d)
    ensures k !in Keys(d) ==> Keys(r) == Keys(d) + [k]
  {
    if d == [] then [(k, v)]
    else if d[0].0 == k then [(k, v)] + d[1..]
    else [d[0]] + Put(d[1..], k, v)
  }

  lemma {:induction false} GetPut<V>(d: Dict<V>, k: string, v: V, k': string)
    ensures Get(Put(d, k, v), k') == if k' == k then Some(v) else Get(d, k')
  {
    if d != [] && d[0].0 != k {
      GetPut(d[1..], k, v, k');
      assert Put(d, k, v)[1..] == Put(d[1..], k, v);
    }
  }

  lemma {:induction false} PutUnique<V>(d: Dict<V>, k: string, v: V)
    requires UniqueKeys(d)
    ensures UniqueKeys(Put(d, k, v))
  {
    var r := Put(d, k, v);
    forall i, j | 0 <= i < j < |r| ensures r[i].0 != r[j].0 {
      assert Keys(r)[i] == r[i].0 && Keys(r)[j] == r[j].0;
      if k !in Keys(d) && j == |d| {
        assert Keys(d)[i] == r[i].0;
      } else {
        assert Keys(d)[i] == r[i].0 && Keys(d)[j] == r[j].0;
      }
    }
  }

  /** Every count is at least one. */
  predicate Positive(d: Dict<nat>) {
    forall i :: 0 <= i < |d| ==> d[i].1 >= 1
  }

  /** Storing a count of at least one keeps every count at least one. */
  lemma {:induction false} PutPositive(d: Dict<nat>, k: string, v: nat)
    requires v >= 1 && Positive(d)
    ensures Positive(Put<nat>(d, k, v))
  {
    if d != [] && d[0].0 != k {
      PutPositive(d[1..], k, v);
      assert Put<nat>(d, k, v) == [d[0]] + Put<nat>(d[1..], k, v);
    }
  }

  /** The sum of the values of a counting dictionary. */
  function SumValues(d: Dict<nat>): nat {
    if d == [] then 0 else d[0].1 + SumValues(d[1..])
  }

  /** Storing `v` under `k` replaces what `d.get(k, 0)` gave in the total. */
  lemma {:induction false} SumValuesPut(d: Dict<nat>, k: string, v: nat)
    ensures SumValues(Put<nat>(d, k, v)) + GetOr<nat>(d, k, 0) == SumValues(d) + v
  {
    if d != [] {
      var r := Put(d, k, v);
      if d[0].0 == k {
        assert r[1..] == d[1..];
      } else {
        SumValuesPut(d[1..], k, v);
        assert GetOr(d, k, 0) == GetOr(d[1..], k, 0);
        assert r[0] == d[0] && r[1..] == Put(d[1..], k, v);
      }
    }
  }

  /** Incrementing one count raises the total by exactly one. */
  lemma {:induction false} SumValuesIncrement(d: Dict<nat>, k: string)
    ensures SumValues(Put<nat>(d, k, GetOr<nat>(d, k, 0) + 1)) == SumValues(d) + 1
  {
    var c: nat := GetOr<nat>(d, k, 0);
    SumValuesPut(d, k, c + 1);
  }
}
