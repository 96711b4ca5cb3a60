/**
 * lib/transient-orders.ts: a module-level JavaScript `Map` from id to an
 * order of any shape. A `Map` remembers insertion order; overwriting a key
 * keeps its place.
 */
module TransientOrders {
  import opened Wrappers

  /** `keys` without the entry `k`, order kept. */
  function Without(keys: seq<string>, k: string): (r: seq<string>)
    ensures forall x :: x in r <==> x in keys && x != k
    ensures k !in keys ==> r == keys
  {
    if keys == [] then []
    else if keys[0] == k then Without(keys[1..], k)
    else [keys[0]] + Without(keys[1..], k)
  }

  predicate Distinct(keys: seq<string>) {
    forall i, j :: 0 <= i < j < |keys| ==> keys[i] != keys[j]
  }

  /** Removing a key that occurs once from a list without repeats shortens it by one and keeps it repeat-free. */
  lemma {:induction false} WithoutDistinct(keys: seq<string>, k: string)
    requires Distinct(keys) && k in keys
    ensures Distinct(Without(keys, k)) && |Without(keys, k)| == |keys| - 1
  {
    if keys[0] != k {
      WithoutDistinct(keys[1..], k);
      var r := Without(keys[1..], k);
      assert keys[0] !in r;
      assert Without(keys, k) == [keys[0]] + r;
    } else {
      assert k !in keys[1..];
    }
  }

  class TransientStore<T> {
    /** The Map's keys in insertion order. */
    var keys: seq<string>
    var entries: map<string, T>

    ghost predicate Valid()
      reads this
    {
      && Distinct(keys)
      && (forall k :: k in keys <==> k in entries)
      && |keys| == |entries|
    }

    constructor ()
      ensures Valid() && keys == [] && entries == map[]
    {
      keys := [];
      entries := map[];
    }

    /** `saveTransientOrder`: set or overwrite; a new id goes last. */
    method Save(id: string, order: T)
      requires Valid()
      modifies this
      ensures Valid()
      ensures entries == old(entries)[id := order]
      ensures keys == if id in old(entries) then old(keys) else old(keys) + [id]
    {
      if id !in entries {
        keys := keys + [id];
      }
      entries := entries[id := order];
    }

    /** `getTransientOrder`: the stored value, or null for an id never saved (or cleared). */
    method Get(id: string) returns (r: Option<T>)
      ensures id in entries ==> r == Some(entries[id])
      ensures id !in entries ==> r == None
    {
      if id in entries {
        r := Some(entries[id]);
      } else {
        r := None;
      }
    }

    /** `clearTransientOrder`: drop that id only. */
    method Clear(id: string)
      requires Valid()
      modifies this
      ensures Valid()
      ensures entries == old(entries) - {id}
      ensures keys == Without(old(keys), id)
    {
      if id in entries {
        WithoutDistinct(keys, id);
      }
      keys := Without(keys, id);
      entries := entries - {id};
    }

    /** `listTransientOrders`: one value per stored id, in insertion order. */
    method List() returns (r: seq<T>)
      requires Valid()
      ensures |r| == |keys| == |entries|
      ensures forall i :: 0 <= i < |r| ==> r[i] == entries[keys[i]]
    {
      r := [];
      var i := 0;
      while i < |keys|
        invariant 0 <= i <= |keys|
        invariant |r| == i
        invariant forall j :: 0 <= j < i ==> r[j] == entries[keys[j]]
      {
        r := r + [entries[keys[i]]];
        i := i + 1;
      }
    }
  }
}
