/** A database table with ascending integer keys, written by appending and deleted from by key. */
module KeyedTables {
  import opened Outcomes

  datatype Record<V> = Record(key: nat, value: V)
  type Table<V> = seq<Record<V>>

  /** The record under a key. */
  function Find<V>(t: Table<V>, key: nat): Option<V> {
    if t == [] then None
    else if t[|t| - 1].key == key then Some(t[|t| - 1].value)
    else Find(t[..|t| - 1], key)
  }

  /** The table without the record under a key, which is there. */
  function Delete<V>(t: Table<V>, key: nat): Table<V>
    requires Find(t, key).Some?
  {
    if t[|t| - 1].key == key then t[..|t| - 1]
    else Delete(t[..|t| - 1], key) + [t[|t| - 1]]
  }

  /** An append is refused unless the key is above every key present. */
  function Append<V>(t: Table<V>, key: nat, value: V): Option<Table<V>> {
    if t != [] && t[|t| - 1].key >= key then None else Some(t + [Record(key, value)])
  }

  /** The keys are 0, 1, 2, ... */
  ghost predicate Dense<V>(t: Table<V>) {
    forall i :: 0 <= i < |t| ==> t[i].key == i
  }

  lemma DeleteAppended<V>(t: Table<V>, key: nat, value: V)
    ensures Find(t + [Record(key, value)], key) == Some(value)
    ensures Delete(t + [Record(key, value)], key) == t
  {
    assert (t + [Record(key, value)])[..|t|] == t;
  }

  lemma FindAppended<V>(t: Table<V>, key: nat, value: V, other: nat)
    ensures other != key ==> Find(t + [Record(key, value)], other) == Find(t, other)
  {
    assert (t + [Record(key, value)])[..|t|] == t;
  }

  lemma {:induction false} FindDense<V>(t: Table<V>, key: nat)
    requires Dense(t)
    ensures Find(t, key) == if key < |t| then Some(t[key].value) else None
  {
    if t != [] {
      FindDense(t[..|t| - 1], key);
    }
  }

  lemma {:induction false} FindAbove<V>(t: Table<V>, key: nat)
    requires forall i :: 0 <= i < |t| ==> t[i].key < key
    ensures Find(t, key) == None
  {
    if t != [] {
      FindAbove(t[..|t| - 1], key);
    }
  }
}
