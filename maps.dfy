/** JavaScript `Map` objects filled by `map.set(key(item), value(item))` in a loop over a list:
    a later item with the same key overwrites an earlier one. */
module Maps {
  import opened Wrappers

  /** `map.get(k)`, with `undefined` as `None`. */
  function Get<V>(m: map<string, V>, k: string): (r: Option<V>)
    ensures r.Some? <==> k in m
    ensures r.Some? ==> r.value == m[k]
  {
    if k in m then Some(m[k]) else None
  }

  /** `map.get(k) || []` for a map of lists. */
  function Lookup<T>(m: map<string, seq<T>>, k: string): (r: seq<T>)
    ensures k in m ==> r == m[k]
    ensures k !in m ==> r == []
  {
    if k in m then m[k] else []
  }

  /** `if (!map.has(k)) map.set(k, []); map.get(k)!.push(x)`. */
  function PushAt<T>(m: map<string, seq<T>>, k: string, x: T): (r: map<string, seq<T>>)
    ensures Lookup(r, k) == Lookup(m, k) + [x]
    ensures forall j :: j != k ==> Lookup(r, j) == Lookup(m, j)
  {
    m[k := Lookup(m, k) + [x]]
  }

  /** The map obtained by setting `key(x) := value(x)` for every `x` of `items`, in order. */
  function IndexOf<T, V>(items: seq<T>, key: T -> string, value: T -> V): map<string, V>
  {
    if items == [] then map[]
    else
      var last := items[|items| - 1];
      IndexOf(items[..|items| - 1], key, value)[key(last) := value(last)]
  }

  /** The last item with a given key is the one the map holds; keys never present are absent. */
  lemma {:induction false} IndexOfLast<T, V>(items: seq<T>, key: T -> string, value: T -> V, k: string)
    ensures k in IndexOf(items, key, value) <==> exists i :: 0 <= i < |items| && key(items[i]) == k
    ensures k in IndexOf(items, key, value) ==>
      exists i :: 0 <= i < |items| && key(items[i]) == k && IndexOf(items, key, value)[k] == value(items[i])
              && forall j :: i < j < |items| ==> key(items[j]) != k
  {
    if items != [] {
      var n := |items| - 1;
      var prefix := items[..n];
      IndexOfLast(prefix, key, value, k);
      assert IndexOf(items, key, value) == IndexOf(prefix, key, value)[key(items[n]) := value(items[n])];
      if key(items[n]) != k {
        if k in IndexOf(items, key, value) {
          var i :| 0 <= i < |prefix| && key(prefix[i]) == k && IndexOf(prefix, key, value)[k] == value(prefix[i])
                   && forall j :: i < j < |prefix| ==> key(prefix[j]) != k;
          assert items[i] == prefix[i];
        } else {
          forall i | 0 <= i < |items| ensures key(items[i]) != k {
            if i < n {
              assert items[i] == prefix[i];
            }
          }
        }
      }
    }
  }

  /** The `forEach` loop that fills the map. */
  method BuildIndex<T, V>(items: seq<T>, key: T -> string, value: T -> V) returns (m: map<string, V>)
    ensures m == IndexOf(items, key, value)
  {
    m := map[];
    var i := 0;
    while i < |items|
      invariant 0 <= i <= |items|
      invariant m == IndexOf(items[..i], key, value)
    {
      assert items[..i + 1][..i] == items[..i];
      m := m[key(items[i]) := value(items[i])];
      i := i + 1;
    }
    assert items[..i] == items;
  }
}
