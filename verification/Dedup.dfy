/** UUID de-duplication over the registered volumes (`DedupFsUuidUnlocked`). */
module Dedup {
  import opened Maps
  import opened Decimal
  import opened Text

  /** The UUID field of every registered volume. */
  type Uuids = map<string, string>

  predicate Occupied(m: Uuids, id: string, uuid: string) {
    exists k :: k in m && k != id && m[k] == uuid
  }

  function Candidate(uuid: string, n: nat): string {
    uuid + [UUID_SEQ_SEPARATOR] + ToString(n)
  }

  /** n is the first sequence number whose candidate no other volume has. */
  predicate FirstUnused(m: Uuids, id: string, uuid: string, n: nat) {
    && n >= 1 && !Occupied(m, id, Candidate(uuid, n))
    && forall k :: 1 <= k < n ==> Occupied(m, id, Candidate(uuid, k))
  }

  // ---------- pigeonhole: the search ends ----------

  lemma CandidateInjective(uuid: string, a: nat, b: nat)
    requires Candidate(uuid, a) == Candidate(uuid, b)
    ensures a == b
  {
    var n := |uuid| + 1;
    assert Candidate(uuid, a)[n..] == ToString(a) && Candidate(uuid, b)[n..] == ToString(b);
    ToStringInjective(a, b);
  }

  /** The UUID and its first n candidates. */
  ghost function Names(uuid: string, n: nat): (r: set<string>)
    ensures forall s :: s in r <==> s == uuid || exists k :: 1 <= k <= n && s == Candidate(uuid, k)
    ensures |r| == n + 1
  {
    if n == 0 then {uuid}
    else
      assert Candidate(uuid, n) !in Names(uuid, n - 1) by {
        assert |Candidate(uuid, n)| > |uuid|;
        if k :| 1 <= k <= n - 1 && Candidate(uuid, n) == Candidate(uuid, k) {
          CandidateInjective(uuid, n, k);
        }
      }
      Names(uuid, n - 1) + {Candidate(uuid, n)}
  }

  ghost function Range(m: Uuids): set<string> {
    set k | k in m :: m[k]
  }

  lemma {:induction false} ValueCount(m: Uuids)
    ensures |Range(m)| <= |m|
  {
    if m != map[] {
      var u :| u in m;
      ValueCount(m - {u});
      RemoveCount(m, u);
      assert Range(m) == Range(m - {u}) + {m[u]};
    }
  }

  /** If the UUID and its first n candidates are all taken, there are more than n other volumes. */
  lemma TakenNamesBound(m: Uuids, id: string, uuid: string, n: nat)
    requires Occupied(m, id, uuid)
    requires forall k :: 1 <= k <= n ==> Occupied(m, id, Candidate(uuid, k))
    ensures n + 1 <= |m - {id}|
  {
    var others := m - {id};
    forall s | s in Names(uuid, n) ensures s in Range(others) {
      assert Occupied(m, id, s);
      var k :| k in m && k != id && m[k] == s;
      assert k in others && others[k] == s;
    }
    SubsetCount(Names(uuid, n), Range(others));
    ValueCount(others);
  }

  // ---------- the loop ----------

  method IsUuidOccupiedUnlocked(m: Uuids, id: string, uuid: string) returns (taken: bool)
    ensures taken <==> Occupied(m, id, uuid)
  {
    var rest := m.Keys;
    while rest != {}
      invariant rest <= m.Keys
      invariant forall k :: k in m && k !in rest && k != id ==> m[k] != uuid
      decreases rest
    {
      var k :| k in rest;
      if k != id && m[k] == uuid {
        return true;
      }
      rest := rest - {k};
    }
    return false;
  }

  /**
   * The unbounded search for a free suffix ends, with a sequence number no larger than the number
   * of other volumes, on a UUID no other volume has.
   */
  method DedupFsUuidUnlocked(m: Uuids, id: string, uuid: string) returns (r: string)
    ensures !Occupied(m, id, r)
    ensures !Occupied(m, id, uuid) ==> r == uuid
    ensures Occupied(m, id, uuid) ==>
              exists n :: 1 <= n <= |m - {id}| && FirstUnused(m, id, uuid, n) && r == Candidate(uuid, n)
    ensures r == Resolve(m, id, uuid)
  {
    var taken := IsUuidOccupiedUnlocked(m, id, uuid);
    if !taken {
      return uuid;
    }
    TakenNamesBound(m, id, uuid, 0);
    var n := 1;
    r := Candidate(uuid, n);
    taken := IsUuidOccupiedUnlocked(m, id, r);
    while taken
      invariant 1 <= n <= |m - {id}| && r == Candidate(uuid, n) && taken == Occupied(m, id, r)
      invariant forall k :: 1 <= k < n ==> Occupied(m, id, Candidate(uuid, k))
      decreases |m - {id}| - n
    {
      TakenNamesBound(m, id, uuid, n);
      n := n + 1;
      r := Candidate(uuid, n);
      taken := IsUuidOccupiedUnlocked(m, id, r);
    }
    assert FirstUnused(m, id, uuid, n);
  }

  // ---------- as a function ----------

  lemma SomeUnused(m: Uuids, id: string, uuid: string) returns (n: nat)
    requires Occupied(m, id, uuid)
    ensures FirstUnused(m, id, uuid, n) && n <= |m - {id}|
  {
    TakenNamesBound(m, id, uuid, 0);
    n := 1;
    while Occupied(m, id, Candidate(uuid, n))
      invariant 1 <= n <= |m - {id}|
      invariant forall k :: 1 <= k < n ==> Occupied(m, id, Candidate(uuid, k))
      decreases |m - {id}| - n
    {
      TakenNamesBound(m, id, uuid, n);
      n := n + 1;
    }
  }

  /** The UUID itself when it is free, otherwise its first unused candidate. */
  ghost function Resolve(m: Uuids, id: string, uuid: string): (r: string)
    ensures !Occupied(m, id, r)
    ensures uuid != "" ==> r != ""
  {
    if !Occupied(m, id, uuid) then uuid
    else
      assert exists n :: FirstUnused(m, id, uuid, n) by { var n := SomeUnused(m, id, uuid); }
      var n :| FirstUnused(m, id, uuid, n);
      Candidate(uuid, n)
  }

  // ---------- distinctness ----------

  predicate Distinct(m: Uuids) {
    forall a, b :: a in m && b in m && a != b && m[a] == m[b] ==> m[a] == ""
  }

  /** Storing a resolved UUID keeps the non-empty UUIDs pairwise distinct. */
  lemma StoreResolvedKeepsDistinct(m: Uuids, id: string, uuid: string)
    requires Distinct(m)
    ensures Distinct(m[id := Resolve(m, id, uuid)])
  {
  }

  /** `LookupVolumeByUuidUnlocked`: walk the map until the UUID matches. */
  method LookupVolumeByUuid(m: Uuids, uuid: string) returns (found: bool, id: string)
    ensures found <==> uuid in m.Values
    ensures found ==> id in m && m[id] == uuid
    ensures found && Distinct(m) && uuid != "" ==> forall k :: k in m && m[k] == uuid ==> k == id
  {
    var rest := m.Keys;
    while rest != {}
      invariant rest <= m.Keys
      invariant forall k :: k in m && k !in rest ==> m[k] != uuid
      decreases rest
    {
      id :| id in rest;
      if m[id] == uuid {
        return true, id;
      }
      rest := rest - {id};
    }
    return false, "";
  }

  // ---------- validity of the result ----------

  /** No refused pattern contains the separator, so appending a suffix creates none. */
  lemma SuffixKeepsPathValid(uuid: string, digits: string)
    requires !PathInvalid(uuid) && AllDigits(digits) && digits != ""
    ensures !PathInvalid(uuid + [UUID_SEQ_SEPARATOR] + digits)
  {
    var s := uuid + [UUID_SEQ_SEPARATOR] + digits;
    var n := |uuid|;
    assert s[n] == '_' && forall i :: n < i < |s| ==> IsDigit(s[i]);
    assert forall i :: 0 <= i < n ==> s[i] == uuid[i];
    forall i | 0 <= i < |s| ensures !DotDotAt(s, i) || '/' !in s {
      if DotDotAt(s, i) && '/' in s {
        assert i + 2 < n && uuid[i + 2] == '/';
        assert DotDotAt(uuid, i);
      }
    }
    forall i | 0 <= i < |s| && s[i] == '\\' ensures !DotDotBefore(s, i) {
      assert i < n;
      assert DotDotBefore(s, i) ==> DotDotBefore(uuid, i);
    }
    forall k | 0 <= k < |ENCODED_PATTERNS| ensures !Contains(s, ENCODED_PATTERNS[k]) {
      SuffixAddsNoPattern(uuid, s, ENCODED_PATTERNS[k]);
    }
  }

  lemma SuffixAddsNoPattern(uuid: string, s: string, pat: string)
    requires |uuid| < |s| && s[..|uuid|] == uuid && s[|uuid|] == '_'
    requires forall i :: |uuid| < i < |s| ==> IsDigit(s[i])
    requires pat != "" && pat[0] in {'%', '\0'} && '_' !in pat
    requires !Contains(uuid, pat)
    ensures !Contains(s, pat)
  {
    var n := |uuid|;
    forall i | 0 <= i <= |s| ensures !OccursAt(s, pat, i) {
      if OccursAt(s, pat, i) {
        OccurrenceChar(s, pat, i, 0);
        assert i < n;
        if i + |pat| > n {
          OccurrenceChar(s, pat, i, n - i);
        } else {
          forall k | 0 <= k < |pat| ensures uuid[i + k] == pat[k] {
            OccurrenceChar(s, pat, i, k);
          }
          assert OccursAt(uuid, pat, i);
        }
      }
    }
  }

  /**
   * A candidate built from a valid UUID is valid exactly when that UUID has at most 128 characters
   * and the sequence number at most four digits.
   */
  lemma CandidateValidExactly(uuid: string, n: nat)
    requires IsUuidValid(uuid)
    ensures IsUuidValid(Candidate(uuid, n)) <==> |uuid| <= UUID_MAX_LEN && n <= 9999
  {
    var s := Candidate(uuid, n);
    SuffixKeepsPathValid(uuid, ToString(n));
    CandidateSeparator(uuid, n);
    assert Pow10(1) == 10 && Pow10(2) == 100 && Pow10(3) == 1000 && Pow10(4) == 10000;
    ToStringLength(n, 4);
  }

  lemma CandidateSeparator(uuid: string, n: nat)
    ensures var s := Candidate(uuid, n);
            LastIndex(s, UUID_SEQ_SEPARATOR) == |uuid| && s[|uuid| + 1..] == ToString(n)
  {
    var s := Candidate(uuid, n);
    assert s[|uuid| + 1..] == ToString(n);
    assert s[|uuid|] == '_' && forall i :: |uuid| < i < |s| ==> s[i] == ToString(n)[i - |uuid| - 1];
  }

  /** The UUID is free, or short enough for a suffix of which one up to 9999 is free. */
  predicate StaysValid(m: Uuids, id: string, uuid: string) {
    || !Occupied(m, id, uuid)
    || (|uuid| <= UUID_MAX_LEN && exists n :: 1 <= n <= 9999 && !Occupied(m, id, Candidate(uuid, n)))
  }

  /** Resolving a valid UUID gives a valid one exactly then. */
  lemma ResolvedValidExactly(m: Uuids, id: string, uuid: string)
    requires IsUuidValid(uuid)
    ensures IsUuidValid(Resolve(m, id, uuid)) <==> StaysValid(m, id, uuid)
  {
    hide IsUuidValid, Candidate;
    if Occupied(m, id, uuid) {
      var n := SomeUnused(m, id, uuid);
      assert forall k :: FirstUnused(m, id, uuid, k) ==> k == n;
      CandidateValidExactly(uuid, n);
    }
  }

  /** With fewer than 10000 volumes a valid UUID of at most 128 characters stays valid. */
  lemma ResolvedIsValid(m: Uuids, id: string, uuid: string)
    requires IsUuidValid(uuid) && |uuid| <= UUID_MAX_LEN && |m| < 10000
    ensures IsUuidValid(Resolve(m, id, uuid))
  {
    hide IsUuidValid, Candidate;
    if Occupied(m, id, uuid) {
      SubsetCount((m - {id}).Keys, m.Keys);
      var n := SomeUnused(m, id, uuid);
    }
    ResolvedValidExactly(m, id, uuid);
  }
}
