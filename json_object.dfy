/** A JSON object as the stores see it: its properties in insertion order, which is the
    order `Object.keys` and `Object.values` report for non-numeric keys. */
module JsonObject {
  import opened Wrappers

  datatype Prop<+V> = Prop(key: string, value: V)

  /** The metadata key the host adds to serialised maps and records. */
  const TypeKey := "$type"

  /** `Object.keys`. */
  function Keys<V>(ps: seq<Prop<V>>): (r: seq<string>)
    ensures |r| == |ps|
    ensures forall i {:trigger r[i]} :: 0 <= i < |ps| ==> r[i] == ps[i].key
  {
    if ps == [] then [] else [ps[0].key] + Keys(ps[1..])
  }

  /** Property access `o[k]`: the value of the first property named `k`, None when absent. */
  function Get<V>(ps: seq<Prop<V>>, k: string): (r: Option<V>)
    ensures r.Some? <==> k in Keys(ps)
    ensures r.Some? ==> exists i :: 0 <= i < |ps| && ps[i] == Prop(k, r.value)
  {
    if ps == [] then None
    else if ps[0].key == k then Some(ps[0].value)
    else Get(ps[1..], k)
  }

  /** `delete o[k]`: every other property stays, in its order. */
  function Remove<V>(ps: seq<Prop<V>>, k: string): (r: seq<Prop<V>>)
    ensures forall i :: 0 <= i < |r| ==> r[i] in ps && r[i].key != k
    ensures k !in Keys(r)
    ensures forall x :: x in Keys(r) <==> x in Keys(ps) && x != k
    ensures forall x :: x != k ==> Get(r, x) == Get(ps, x)
    ensures k !in Keys(ps) ==> r == ps
  {
    if ps == [] then []
    else if ps[0].key == k then Remove(ps[1..], k)
    else [ps[0]] + Remove(ps[1..], k)
  }

  /** `delete` acts on each stretch of the object on its own, so the remaining properties
      keep their relative order: with the clauses of `Remove` for a single property this
      fixes the result completely. */
  lemma {:induction false} RemoveAppend<V>(a: seq<Prop<V>>, b: seq<Prop<V>>, k: string)
    ensures Remove(a + b, k) == Remove(a, k) + Remove(b, k)
  {
    SplitHead(a, b);
    if a != [] {
      RemoveAppend(a[1..], b, k);
      if a[0].key != k {
        Regroup([a[0]], Remove(a[1..], k), Remove(b, k));
      }
    }
  }

  /** How a concatenation splits at its head. */
  lemma SplitHead<T>(a: seq<T>, b: seq<T>)
    ensures a == [] ==> a + b == b
    ensures a != [] ==> (a + b)[0] == a[0] && (a + b)[1..] == a[1..] + b
  {
  }

  /** Concatenation regroups freely. */
  lemma Regroup<T>(x: seq<T>, y: seq<T>, z: seq<T>)
    ensures x + (y + z) == (x + y) + z
  {
  }

  /** No key occurs twice, as in every object `JSON.parse` produces. */
  predicate DistinctKeys<V>(ps: seq<Prop<V>>)
  {
    forall i, j :: 0 <= i < j < |ps| ==> ps[i].key != ps[j].key
  }

  /** `delete` keeps the keys distinct. */
  lemma {:induction false} RemoveDistinct<V>(ps: seq<Prop<V>>, k: string)
    requires DistinctKeys(ps)
    ensures DistinctKeys(Remove(ps, k))
  {
    if ps != [] {
      var rest := ps[1..];
      assert DistinctKeys(rest) by {
        forall i, j | 0 <= i < j < |rest| ensures rest[i].key != rest[j].key {
          assert rest[i] == ps[i + 1] && rest[j] == ps[j + 1];
        }
      }
      RemoveDistinct(rest, k);
      if ps[0].key != k {
        var r := Remove(ps, k);
        var tail := Remove(rest, k);
        assert ps[0].key !in Keys(rest) by {
          forall i | 0 <= i < |rest| ensures Keys(rest)[i] != ps[0].key {
            assert rest[i] == ps[i + 1];
          }
        }
        assert ps[0].key !in Keys(tail);
        forall i, j | 0 <= i < j < |r| ensures r[i].key != r[j].key {
          if i == 0 {
            assert r[j] == tail[j - 1];
            assert Keys(tail)[j - 1] == r[j].key;
          } else {
            assert r[i] == tail[i - 1] && r[j] == tail[j - 1];
          }
        }
      }
    }
  }

  /** Assignment `o[k] = v`: the key reads as `v` afterwards and every other key reads as
      before. */
  function Put<V>(ps: seq<Prop<V>>, k: string, v: V): (r: seq<Prop<V>>)
    ensures Get(r, k) == Some(v)
    ensures forall x :: x != k ==> Get(r, x) == Get(ps, x)
  {
    if ps == [] then [Prop(k, v)]
    else if ps[0].key == k then [Prop(k, v)] + ps[1..]
    else [ps[0]] + Put(ps[1..], k, v)
  }

  /** An existing property keeps its place under assignment; a new one goes last. */
  lemma {:induction false} PutKeys<V>(ps: seq<Prop<V>>, k: string, v: V)
    ensures Keys(Put(ps, k, v)) == if k in Keys(ps) then Keys(ps) else Keys(ps) + [k]
  {
    if ps != [] {
      var r := Put(ps, k, v);
      assert Keys(ps) == [ps[0].key] + Keys(ps[1..]);
      if ps[0].key == k {
        assert r[1..] == ps[1..];
      } else {
        PutKeys(ps[1..], k, v);
        assert r[1..] == Put(ps[1..], k, v);
      }
    }
  }

  /** Assigning the same value twice is assigning it once. */
  lemma {:induction false} PutTwice<V>(ps: seq<Prop<V>>, k: string, v: V)
    ensures Put(Put(ps, k, v), k, v) == Put(ps, k, v)
  {
    if ps != [] && ps[0].key != k {
      PutTwice(ps[1..], k, v);
    }
  }
}
