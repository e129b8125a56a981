/** Facts about finite maps and sets, stated for any key and value type. */
module Maps {

  lemma AddCount<K, V>(m: map<K, V>, u: K, v: V)
    requires u !in m
    ensures |m[u := v]| == |m| + 1
  {
    assert m[u := v].Keys == m.Keys + {u};
  }

  lemma RemoveCount<K, V>(m: map<K, V>, u: K)
    requires u in m
    ensures |m - {u}| == |m| - 1
  {
    assert m.Keys == (m - {u}).Keys + {u};
  }

  /** Moving one entry from `m` to the disjoint `acc` leaves their union as it was. */
  lemma MoveEntry<K, V>(acc: map<K, V>, m: map<K, V>, u: K)
    requires u in m && u !in acc
    ensures acc[u := m[u]] + (m - {u}) == acc + m
  {
  }

  lemma AddNothing<K, V>(acc: map<K, V>)
    ensures acc + map[] == acc && map[] + acc == acc
  {
  }

  lemma {:induction false} SubsetCount<T>(a: set<T>, b: set<T>)
    requires a <= b
    ensures |a| <= |b|
  {
    if a != {} {
      var x :| x in a;
      SubsetCount(a - {x}, b - {x});
    }
  }

  lemma RemoveMore<K, V>(m: map<K, V>, s: set<K>, u: K)
    ensures m - s - {u} == m - (s + {u})
  {
  }

  lemma RemoveNone<K, V>(m: map<K, V>)
    ensures m - {} == m
  {
  }

  function SetOf<T>(s: seq<T>): set<T> {
    set x | x in s
  }

  lemma SetOfNone<T>(s: seq<T>)
    ensures SetOf(s[..0]) == {}
  {
  }

  lemma SetOfNext<T>(s: seq<T>, i: nat)
    requires i < |s|
    ensures SetOf(s[..i + 1]) == SetOf(s[..i]) + {s[i]}
    ensures s[..|s|] == s
  {
    assert s[..i + 1] == s[..i] + [s[i]];
  }
}
