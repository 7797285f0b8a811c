/** Small shared vocabulary. */
module Common {

  datatype Option<+T> = None | Some(value: T)

  /** A table of numbers whose missing entries are Go's zero value. */
  datatype Table = Table(entries: map<nat, nat>)

  const ZERO: Table := Table(map[])

  function At(t: Table, k: nat): nat {
    if k in t.entries then t.entries[k] else 0
  }

  function Put(t: Table, k: nat, v: nat): (r: Table)
    ensures forall j: nat {:trigger At(r, j)} :: At(r, j) == if j == k then v else At(t, j)
  {
    Table(t.entries[k := v])
  }

  lemma PutTwice(t: Table, k: nat, v: nat, w: nat)
    ensures Put(Put(t, k, v), k, w) == Put(t, k, w)
  {
    assert t.entries[k := v][k := w] == t.entries[k := w];
  }
}
