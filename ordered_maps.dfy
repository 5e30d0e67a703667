/** The insertion-ordered string-keyed maps of the harness (`agents` and
    `results` are JavaScript `Map`s): iteration visits keys in the order they
    were first set, `set` on a present key replaces its value where it
    stands, `set` on a new key appends it. */
module OrderedMaps {
  import opened Wrappers

  /** One key/value pair of an insertion-ordered map. */
  datatype Entry<V> = Entry(key: string, value: V)

  /** The keys, in iteration order. */
  function Keys<V>(m: seq<Entry<V>>): seq<string>
  {
    seq(|m|, i requires 0 <= i < |m| => m[i].key)
  }

  /** The values, in iteration order (`Map.prototype.values`). */
  function Values<V>(m: seq<Entry<V>>): seq<V>
  {
    seq(|m|, i requires 0 <= i < |m| => m[i].value)
  }

  /** A JavaScript `Map` never holds a key twice. */
  predicate UniqueKeys<V>(m: seq<Entry<V>>)
  {
    forall i, j :: 0 <= i < j < |m| ==> m[i].key != m[j].key
  }

  /** The position of the first entry with key `k`. */
  function IndexOf<V>(m: seq<Entry<V>>, k: string): (i: nat)
    requires k in Keys(m)
    ensures i < |m| && m[i].key == k
    ensures forall j :: 0 <= j < i ==> m[j].key != k
  {
    if m[0].key == k then 0
    else
      assert k in Keys(m[1..]) by {
        var p :| 0 <= p < |m| && Keys(m)[p] == k;
        assert Keys(m[1..])[p - 1] == k;
      }
      1 + IndexOf(m[1..], k)
  }

  /** The first position holding `k` is the one `IndexOf` finds. */
  lemma IndexOfFirst<V>(m: seq<Entry<V>>, k: string, i: nat)
    requires i < |m| && m[i].key == k
    requires forall j :: 0 <= j < i ==> m[j].key != k
    ensures k in Keys(m) && IndexOf(m, k) == i
  {
    assert Keys(m)[i] == k;
  }

  /** `Map.prototype.get`. */
  function Get<V>(m: seq<Entry<V>>, k: string): (r: Option<V>)
    ensures r.Some? <==> k in Keys(m)
    ensures r.Some? ==> exists i :: 0 <= i < |m| && m[i] == Entry(k, r.value)
  {
    if k in Keys(m) then Some(m[IndexOf(m, k)].value) else None
  }

  /** `Map.prototype.set`: a present key keeps its place, a new one goes last. */
  function Set<V>(m: seq<Entry<V>>, k: string, v: V): seq<Entry<V>>
  {
    if k in Keys(m) then m[IndexOf(m, k) := Entry(k, v)] else m + [Entry(k, v)]
  }

  /** After `set(k, v)`, `get(k)` is `v` and every other key reads as before. */
  lemma SetLookup<V>(m: seq<Entry<V>>, k: string, v: V)
    ensures Get(Set(m, k, v), k) == Some(v)
    ensures forall k' :: k' != k ==> Get(Set(m, k, v), k') == Get(m, k')
  {
    var r := Set(m, k, v);
    if k in Keys(m) {
      assert Keys(r) == Keys(m);
      IndexOfFirst(r, k, IndexOf(m, k));
    } else {
      assert Keys(r) == Keys(m) + [k];
      forall j | 0 <= j < |m| ensures r[j].key != k {
        assert Keys(m)[j] == m[j].key;
      }
      IndexOfFirst(r, k, |m|);
    }
    forall k' | k' != k && k' in Keys(m) ensures IndexOf(r, k') == IndexOf(m, k') {
      IndexOfFirst(r, k', IndexOf(m, k'));
    }
  }

  /** `set` keeps the key order, appending `k` when it is new. */
  lemma SetKeys<V>(m: seq<Entry<V>>, k: string, v: V)
    ensures Keys(Set(m, k, v)) == if k in Keys(m) then Keys(m) else Keys(m) + [k]
  {
    var r := Set(m, k, v);
    if k in Keys(m) {
      assert Keys(r) == Keys(m);
    } else {
      assert Keys(r) == Keys(m) + [k];
    }
  }

  /** `set` never duplicates a key. */
  lemma SetUnique<V>(m: seq<Entry<V>>, k: string, v: V)
    requires UniqueKeys(m)
    ensures UniqueKeys(Set(m, k, v))
  {
    var r := Set(m, k, v);
    if k in Keys(m) {
      assert forall i :: 0 <= i < |m| ==> r[i].key == m[i].key;
    } else {
      forall i | 0 <= i < |m| ensures r[i] == m[i] && m[i].key != k {
        assert Keys(m)[i] == m[i].key;
      }
    }
  }
}
