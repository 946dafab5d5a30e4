// Shared vocabulary: optional values and the cardinality facts that the counting invariants rest on.
module Prelude {
  datatype Option<+T> = None | Some(value: T)

  /** The keys whose value satisfies `p`. */
  ghost function Selected<K, V>(m: map<K, V>, p: V -> bool): (r: set<K>) {
    set k | k in m && p(m[k])
  }

  function Indicator(b: bool): nat {
    if b then 1 else 0
  }

  /** Rebinding one key changes the number of selected keys by what that key's predicate value changes. */
  lemma SelectedUpdate<K, V>(m: map<K, V>, k: K, v: V, p: V -> bool)
    requires k in m
    ensures |Selected(m[k := v], p)| + Indicator(p(m[k])) == |Selected(m, p)| + Indicator(p(v))
  {
    var rest := Selected(m, p) - {k};
    var after := Selected(m[k := v], p);
    assert after == if p(v) then rest + {k} else rest;
    assert Selected(m, p) == if p(m[k]) then rest + {k} else rest;
  }

  lemma SubsetSize<T>(a: set<T>, b: set<T>)
    requires a <= b
    ensures |a| <= |b|
  {
    assert |b| == |a| + |b - a| by { assert b == a + (b - a); }
  }
}
