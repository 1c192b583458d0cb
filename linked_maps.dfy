/** Insertion-ordered maps with string keys, as `java.util.LinkedHashMap`
    behaves: the Groovy `Binding` of the REPL and each row read from a
    result set are such maps. */
module LinkedMaps {

  /** The entries, and the keys in the order they were first inserted. */
  datatype LinkedMap<V> = LinkedMap(entries: map<string, V>, order: seq<string>)
  {
    /** Every key is listed once, and exactly the keys are listed. */
    predicate Valid() {
      && (forall i, j :: 0 <= i < j < |order| ==> order[i] != order[j])
      && (forall k :: k in entries ==> k in order)
      && (forall i :: 0 <= i < |order| ==> order[i] in entries)
    }

    /** `put`: a new key goes to the end of the order; an existing key keeps
        its position and takes the new value. */
    function Put(k: string, v: V): (r: LinkedMap<V>)
      requires Valid()
      ensures r.Valid()
      ensures r.entries == entries[k := v]
      ensures k in entries ==> r.order == order
      ensures k !in entries ==> r.order == order + [k]
    {
      if k in entries then LinkedMap(entries[k := v], order)
      else LinkedMap(entries[k := v], order + [k])
    }

    /** A sequence of `put`s, in order. */
    function PutAll(writes: seq<(string, V)>): (r: LinkedMap<V>)
      requires Valid()
      ensures r.Valid()
    {
      if writes == [] then this
      else PutAll(writes[..|writes| - 1]).Put(writes[|writes| - 1].0, writes[|writes| - 1].1)
    }

    /** `isEmpty`. */
    predicate IsEmpty() {
      order == []
    }
  }

  function Empty<V>(): (m: LinkedMap<V>)
    ensures m.Valid() && m.IsEmpty() && m.entries == map[]
  {
    LinkedMap(map[], [])
  }

  /** The keys written by a sequence of `put`s. */
  function WrittenKeys<V>(writes: seq<(string, V)>): (r: set<string>)
    ensures forall i :: 0 <= i < |writes| ==> writes[i].0 in r
    ensures forall k :: k in r ==> exists i :: 0 <= i < |writes| && writes[i].0 == k
  {
    if writes == [] then {}
    else WrittenKeys(writes[..|writes| - 1]) + {writes[|writes| - 1].0}
  }

  /** After a sequence of `put`s the keys are the old keys and the written ones. */
  lemma {:induction false} PutAllKeys<V>(m: LinkedMap<V>, writes: seq<(string, V)>)
    requires m.Valid()
    ensures m.PutAll(writes).entries.Keys == m.entries.Keys + WrittenKeys(writes)
  {
    if writes != [] {
      PutAllKeys(m, writes[..|writes| - 1]);
    }
  }

  /** The value a key ends up with: that of its last write, or the old one. */
  function LastWrite<V>(m: LinkedMap<V>, writes: seq<(string, V)>, k: string): V
    requires k in m.entries || k in WrittenKeys(writes)
  {
    if writes == [] then m.entries[k]
    else if writes[|writes| - 1].0 == k then writes[|writes| - 1].1
    else LastWrite(m, writes[..|writes| - 1], k)
  }

  /** Later writes win over earlier ones and over the old value. */
  lemma {:induction false} PutAllLastWins<V>(m: LinkedMap<V>, writes: seq<(string, V)>, k: string)
    requires m.Valid()
    requires k in m.entries || k in WrittenKeys(writes)
    ensures k in m.PutAll(writes).entries
    ensures m.PutAll(writes).entries[k] == LastWrite(m, writes, k)
  {
    PutAllKeys(m, writes);
    if writes != [] && writes[|writes| - 1].0 != k {
      var init := writes[..|writes| - 1];
      PutAllLastWins(m, init, k);
    }
  }

  /** Writes never reorder or drop keys already present: the old order is a
      prefix of the new one. */
  lemma {:induction false} PutAllExtendsOrder<V>(m: LinkedMap<V>, writes: seq<(string, V)>)
    requires m.Valid()
    ensures m.order <= m.PutAll(writes).order
  {
    if writes != [] {
      PutAllExtendsOrder(m, writes[..|writes| - 1]);
    }
  }
}
