/** A value that may be absent. */
module Options {
  datatype Option<T> = None | Some(value: T)

  function Lookup<K, V>(m: map<K, V>, k: K): Option<V>
  {
    if k in m then Some(m[k]) else None
  }

  /** Stores a value under the key, or drops the key. */
  function Update<K, V>(m: map<K, V>, k: K, v: Option<V>): map<K, V>
  {
    if v.Some? then m[k := v.value] else m - {k}
  }

  /** Maps that answer every lookup alike are equal. */
  lemma {:induction false} SameLookups<K, V>(a: map<K, V>, b: map<K, V>)
    requires forall k :: Lookup(a, k) == Lookup(b, k)
    ensures a == b
  {
    assert forall k :: k in a <==> Lookup(a, k).Some?;
    assert forall k :: k in b <==> Lookup(b, k).Some?;
    assert forall k :: k in a ==> a[k] == Lookup(a, k).value;
    assert forall k :: k in b ==> b[k] == Lookup(b, k).value;
  }
}
