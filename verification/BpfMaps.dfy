/** The contract of the kernel hash maps that the programs update. */
module BpfMaps {
  datatype Option<+T> = None | Some(value: T)

  datatype Flag = BPF_ANY | BPF_NOEXIST

  datatype Errno = OK | EEXIST | E2BIG

  datatype Updated<K, V> = Updated(content: map<K, V>, err: Errno)

  // A present key can always be updated, unless BPF_NOEXIST forbids it; a new
  // key is refused exactly when the map already holds `max` entries.
  function UpdateElem<K, V>(m: map<K, V>, max: nat, k: K, v: V, flag: Flag): (r: Updated<K, V>)
    ensures r.err == OK ==> r.content == m[k := v]
    ensures r.err != OK ==> r.content == m
    ensures r.err == EEXIST <==> k in m && flag == BPF_NOEXIST
    ensures r.err == E2BIG <==> k !in m && |m| >= max
  {
    if k in m then
      if flag == BPF_NOEXIST then Updated(m, EEXIST) else Updated(m[k := v], OK)
    else if |m| >= max then Updated(m, E2BIG)
    else Updated(m[k := v], OK)
  }

  // Deleting an absent key changes nothing.
  function DeleteElem<K, V>(m: map<K, V>, k: K): map<K, V> {
    m - {k}
  }

  lemma DeleteAbsent<K, V>(m: map<K, V>, k: K)
    requires k !in m
    ensures DeleteElem(m, k) == m
  {}

  lemma DeletePut<K, V>(m: map<K, V>, k: K, v: V)
    ensures DeleteElem(m[k := v], k) == DeleteElem(m, k)
  {}
}
