/** The maps and sets shared between threads; every operation is one critical section. */
module Guarded {
  import opened Wrappers

  /** Keeps what is already there. */
  function TryEmplace<K, V>(m: map<K, V>, k: K, v: V): map<K, V> {
    if k in m then m else m[k := v]
  }

  /** Takes the value out if the decider accepts it. */
  function PopIf<K, V>(m: map<K, V>, k: K, decider: V -> bool): (Option<V>, map<K, V>) {
    if k in m && decider(m[k]) then (Some(m[k]), m - {k}) else (None, m)
  }

  class GuardedMap<K(==), V> {
    var data: map<K, V>

    constructor ()
      ensures data == map[]
    {
      data := map[];
    }

    method Put(k: K, v: V) returns (inserted: bool)
      modifies this
      ensures data == TryEmplace(old(data), k, v) && inserted == (k !in old(data))
      ensures data == if k in old(data) then old(data) else old(data)[k := v]
    {
      inserted := k !in data;
      if inserted {
        data := data[k := v];
      }
    }

    method GetAndPopIf(k: K, decider: V -> bool) returns (r: Option<V>)
      modifies this
      ensures (r, data) == PopIf(old(data), k, decider)
      ensures if k in old(data) && decider(old(data)[k])
        then r == Some(old(data)[k]) && data == old(data) - {k} else r == None && data == old(data)
    {
      r := None;
      if k in data && decider(data[k]) {
        r, data := Some(data[k]), data - {k};
      }
    }
  }

  class GuardedSet<T(==)> {
    var data: set<T>

    constructor (values: set<T>)
      ensures data == values
    {
      data := values;
    }

    method Insert(value: T)
      modifies this
      ensures data == old(data) + {value}
    {
      data := data + {value};
    }

    method Contains(value: T) returns (found: bool)
      ensures found <==> value in data
    {
      found := value in data;
    }

    method Erase(value: T)
      modifies this
      ensures data == old(data) - {value}
    {
      data := data - {value};
    }

    method Pull() returns (all: set<T>)
      modifies this
      ensures all == old(data) && data == {}
    {
      all, data := data, {};
    }
  }
}
