/**
 * The generic map helpers (maputil/map.go): a lookup with an optional
 * projection, and building a map from a sequence where the last element
 * with a given key wins. A Go nil map or nil slice behaves as the empty one
 * and is modelled by it; Go's zero value of the result type is an argument.
 */
module MapUtil {
  import opened Wrappers

  /**
   * `MapGet`: whether `key` is in `m`, and the projection of its value (the
   * zero value when the key is absent or no projection is given).
   */
  function MapGet<T, K, V>(m: map<K, T>, key: K, project: Option<T -> V>, zero: V): (r: (V, bool))
    ensures r.1 <==> key in m
    ensures !r.1 || project.None? ==> r.0 == zero
    ensures r.1 && project.Some? ==> r.0 == project.value(m[key])
  {
    if key !in m then (zero, false)
    else if project.None? then (zero, true)
    else (project.value(m[key]), true)
  }

  /**
   * `MapBy`: the map from key(x) to value(x) over the elements x of `list`,
   * inserted from first to last so a later element overwrites an earlier one
   * with the same key.
   */
  function MapBy<T, K, V>(list: seq<T>, key: T -> K, value: T -> V): (r: map<K, V>)
    ensures r.Keys == set x | x in list :: key(x)
    ensures |r| <= |list|
    decreases |list|
  {
    if list == [] then map[]
    else
      var init, last := list[..|list| - 1], list[|list| - 1];
      assert list == init + [last];
      MapBy(init, key, value)[key(last) := value(last)]
  }

  /** Position i holds the last element of `list` with its key. */
  ghost predicate LastWithKey<T, K>(list: seq<T>, key: T -> K, i: int)
  {
    0 <= i < |list| && forall j :: i < j < |list| ==> key(list[j]) != key(list[i])
  }

  /** Last write wins: each key maps to the value of the last element carrying it. */
  lemma {:induction false} MapByLastWins<T, K, V>(list: seq<T>, key: T -> K, value: T -> V, i: int)
    requires LastWithKey(list, key, i)
    ensures key(list[i]) in MapBy(list, key, value)
    ensures MapBy(list, key, value)[key(list[i])] == value(list[i])
    decreases |list|
  {
    var init := list[..|list| - 1];
    if i < |list| - 1 {
      assert LastWithKey(init, key, i);
      MapByLastWins(init, key, value, i);
    }
  }

  /** With pairwise distinct keys no element is overwritten: one entry per element. */
  lemma {:induction false} MapByDistinctKeysSize<T, K, V>(list: seq<T>, key: T -> K, value: T -> V)
    requires forall i, j :: 0 <= i < j < |list| ==> key(list[i]) != key(list[j])
    ensures |MapBy(list, key, value)| == |list|
    decreases |list|
  {
    if list != [] {
      var init, last := list[..|list| - 1], list[|list| - 1];
      MapByDistinctKeysSize(init, key, value);
      assert forall x :: x in init ==> key(x) != key(last);
    }
  }

  /** Looking up a key in a `MapBy` map finds the projection of the last element with that key. */
  lemma MapGetOfMapBy<T, K, V, W>(list: seq<T>, key: T -> K, value: T -> V, i: int, project: V -> W, zero: W)
    requires LastWithKey(list, key, i)
    ensures MapGet(MapBy(list, key, value), key(list[i]), Some(project), zero) == (project(value(list[i])), true)
  {
    MapByLastWins(list, key, value, i);
  }

  /** A key no element carries is reported absent, with the zero value. */
  lemma MapGetMissingFromMapBy<T, K, V, W>(list: seq<T>, key: T -> K, value: T -> V, k: K, project: Option<V -> W>, zero: W)
    requires forall j :: 0 <= j < |list| ==> key(list[j]) != k
    ensures MapGet(MapBy(list, key, value), k, project, zero) == (zero, false)
  {
  }
}
