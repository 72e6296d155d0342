/** A JavaScript plain object with string keys, as an insertion-ordered list of
    (key, value) entries.  Assigning a key that is present overwrites its value
    in place; assigning a new key appends it.  This is the shape of the
    `AgentConfig` records and of the objects `JSON.parse` builds. */
module JsObject {
  import opened Wrappers

  type Entries<V> = seq<(string, V)>

  function Keys<V>(es: Entries<V>): (ks: seq<string>)
    ensures |ks| == |es|
    ensures forall i :: 0 <= i < |es| ==> ks[i] == es[i].0
  {
    seq(|es|, i requires 0 <= i < |es| => es[i].0)
  }

  /** No key occurs twice; every object a program can build has this shape. */
  predicate DistinctKeys<V>(es: Entries<V>) {
    forall i, j :: 0 <= i < j < |es| ==> es[i].0 != es[j].0
  }

  /** `obj[k]`: the value under `k`, or `None` (`undefined`). */
  function Get<V>(es: Entries<V>, k: string): Option<V> {
    if es == [] then None
    else if es[0].0 == k then Some(es[0].1)
    else Get(es[1..], k)
  }

  /** `{...obj, [k]: v}`. */
  function Put<V>(es: Entries<V>, k: string, v: V): Entries<V> {
    if es == [] then [(k, v)]
    else if es[0].0 == k then [(k, v)] + es[1..]
    else [es[0]] + Put(es[1..], k, v)
  }

  /** `Get` finds a key exactly when it is among the keys. */
  lemma {:induction false} GetSomeIffKey<V>(es: Entries<V>, k: string)
    ensures Get(es, k).Some? <==> k in Keys(es)
  {
    if es != [] {
      GetSomeIffKey(es[1..], k);
      assert Keys(es) == [es[0].0] + Keys(es[1..]);
    }
  }

  /** With distinct keys, `Get` returns the value stored beside the key. */
  lemma {:induction false} GetAt<V>(es: Entries<V>, i: nat)
    requires DistinctKeys(es) && i < |es|
    ensures Get(es, es[i].0) == Some(es[i].1)
  {
    if i > 0 {
      GetAt(es[1..], i - 1);
    }
  }

  /** After `Put`, the key reads back as the new value and every other key
      reads as before. */
  lemma {:induction false} GetPut<V>(es: Entries<V>, k: string, v: V, k': string)
    ensures Get(Put(es, k, v), k') == if k' == k then Some(v) else Get(es, k')
  {
    if es != [] && es[0].0 != k {
      GetPut(es[1..], k, v, k');
    }
  }

  /** `Put` of a present key keeps the key order; of a new key, appends it. */
  lemma {:induction false} PutKeys<V>(es: Entries<V>, k: string, v: V)
    ensures k in Keys(es) ==> Keys(Put(es, k, v)) == Keys(es)
    ensures k !in Keys(es) ==> Put(es, k, v) == es + [(k, v)]
  {
    if es != [] {
      var t := es[1..];
      PutKeys(t, k, v);
      assert Keys(es) == [es[0].0] + Keys(t);
      if es[0].0 == k {
        assert Keys(Put(es, k, v)) == [k] + Keys(t);
      } else {
        assert k in Keys(es) <==> k in Keys(t);
        assert Keys(Put(es, k, v)) == [es[0].0] + Keys(Put(t, k, v));
      }
    }
  }

  /** `Put` keeps the keys distinct. */
  lemma {:induction false} PutDistinct<V>(es: Entries<V>, k: string, v: V)
    requires DistinctKeys(es)
    ensures DistinctKeys(Put(es, k, v))
  {
    PutKeys(es, k, v);
    var r := Put(es, k, v);
    if k in Keys(es) {
      forall i, j | 0 <= i < j < |r| ensures r[i].0 != r[j].0 {
        assert Keys(r)[i] == Keys(es)[i] && Keys(r)[j] == Keys(es)[j];
      }
    }
  }

  /** Assigning each entry of `more`, in order, onto `es`: how `JSON.parse`
      builds an object from the members it reads (a repeated key keeps its
      first position and its last value). */
  function PutAll<V>(es: Entries<V>, more: Entries<V>): Entries<V>
    decreases |more|
  {
    if more == [] then es else PutAll(Put(es, more[0].0, more[0].1), more[1..])
  }

  /** When no key repeats, `PutAll` is plain concatenation. */
  lemma {:induction false} PutAllFresh<V>(es: Entries<V>, more: Entries<V>)
    requires DistinctKeys(es + more)
    ensures PutAll(es, more) == es + more
    decreases |more|
  {
    if more != [] {
      var k := more[0].0;
      var all := es + more;
      forall i | 0 <= i < |es| ensures Keys(es)[i] != k {
        assert all[i].0 != all[|es|].0;
      }
      PutKeys(es, k, more[0].1);
      assert es + more == (es + [more[0]]) + more[1..];
      PutAllFresh(es + [more[0]], more[1..]);
    }
  }

  /** An object built member by member never holds a key twice. */
  lemma {:induction false} PutAllDistinct<V>(es: Entries<V>, more: Entries<V>)
    requires DistinctKeys(es)
    ensures DistinctKeys(PutAll(es, more))
    decreases |more|
  {
    if more != [] {
      PutDistinct(es, more[0].0, more[0].1);
      PutAllDistinct(Put(es, more[0].0, more[0].1), more[1..]);
    }
  }
}
