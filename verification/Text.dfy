/** Substring search and the string checks of `disk_manager_utils.cpp`. */
module Text {
  import opened Decimal

  const UUID_MAX_LEN := 128
  const ID_SEG_MAX_DIGITS := 4
  const UUID_DEDUP_SUFFIX_MAX_DIGITS := 4
  const UUID_SEQ_SEPARATOR := '_'

  predicate OccursAt(s: string, pat: string, i: int) {
    0 <= i && i + |pat| <= |s| && forall k :: 0 <= k < |pat| ==> s[i + k] == pat[k]
  }

  /** The characters of an occurrence. */
  lemma OccurrenceChar(s: string, pat: string, i: int, k: nat)
    requires k < |pat|
    ensures OccursAt(s, pat, i) ==> 0 <= i && i + k < |s| && s[i + k] == pat[k]
  {
  }

  predicate Contains(s: string, pat: string) {
    exists i :: 0 <= i <= |s| && OccursAt(s, pat, i)
  }

  predicate StartsWith(s: string, pat: string) {
    OccursAt(s, pat, 0)
  }

  /** `std::string::find`: the least position at or after `from`, or -1. */
  method Find(s: string, pat: string, from: nat) returns (pos: int)
    ensures pos == -1 || (from <= pos && OccursAt(s, pat, pos))
    ensures pos == -1 ==> forall i :: from <= i <= |s| ==> !OccursAt(s, pat, i)
    ensures pos != -1 ==> forall i :: from <= i < pos ==> !OccursAt(s, pat, i)
  {
    pos := from;
    while pos + |pat| <= |s|
      invariant from <= pos
      invariant forall i :: from <= i < pos ==> !OccursAt(s, pat, i)
    {
      if OccursAt(s, pat, pos) {
        return;
      }
      pos := pos + 1;
    }
    pos := -1;
  }

  /** `std::string::rfind`: the greatest position, or -1. */
  method FindLast(s: string, pat: string) returns (pos: int)
    ensures pos == -1 || OccursAt(s, pat, pos)
    ensures forall i :: pos < i <= |s| ==> !OccursAt(s, pat, i)
  {
    pos := |s|;
    while pos >= 0
      invariant -1 <= pos <= |s|
      invariant forall i :: pos < i <= |s| ==> !OccursAt(s, pat, i)
    {
      if OccursAt(s, pat, pos) {
        return;
      }
      pos := pos - 1;
    }
  }

  // ---------- components of a path ----------

  /** Index of the first separator, or the length. */
  function FirstSlash(s: string): (k: nat)
    ensures k <= |s|
    ensures k < |s| ==> s[k] == '/'
    ensures forall i :: 0 <= i < k ==> s[i] != '/'
  {
    if s == "" || s[0] == '/' then 0 else 1 + FirstSlash(s[1..])
  }

  /** The components of a path: the string split at every '/'. */
  function Components(s: string): seq<string>
    decreases |s|
  {
    var k := FirstSlash(s);
    if k == |s| then [s] else [s[..k]] + Components(s[k + 1..])
  }

  /** A ".." delimited by separators or the ends of the string starts at i. */
  predicate DotDotAt(s: string, i: int) {
    && 0 <= i && i + 2 <= |s| && s[i] == '.' && s[i + 1] == '.'
    && (i == 0 || s[i - 1] == '/') && (i + 2 == |s| || s[i + 2] == '/')
  }

  lemma {:induction false} ComponentToPosition(s: string) returns (i: int)
    requires ".." in Components(s)
    ensures DotDotAt(s, i)
    decreases |s|
  {
    var k := FirstSlash(s);
    assert s[..|s|] == s;
    if s[..k] == ".." {
      assert s[0] == s[..k][0] && s[1] == s[..k][1];
      i := 0;
    } else {
      var j := ComponentToPosition(s[k + 1..]);
      i := k + 1 + j;
    }
  }

  lemma {:induction false} PositionToComponent(s: string, i: int)
    requires DotDotAt(s, i)
    ensures ".." in Components(s)
    decreases |s|
  {
    var k := FirstSlash(s);
    assert s[..|s|] == s;
    if i == 0 {
      assert k == 2;
      assert s[..k] == "..";
      assert s[..k] == Components(s)[0];
    } else {
      assert k < i;
      PositionToComponent(s[k + 1..], i - k - 1);
    }
  }

  /** The traversal part of the check: a separator is present and a delimited ".." occurs. */
  predicate HasDotDotComponent(s: string) {
    '/' in s && exists i :: 0 <= i < |s| && DotDotAt(s, i)
  }

  /** Which is to say: the path has a separator and splitting it yields the component "..". */
  lemma DotDotIsComponent(s: string)
    ensures HasDotDotComponent(s) <==> '/' in s && ".." in Components(s)
  {
    if i :| 0 <= i < |s| && DotDotAt(s, i) {
      PositionToComponent(s, i);
    } else if ".." in Components(s) {
      var i := ComponentToPosition(s);
    }
  }

  lemma OccursAt3(s: string, pat: string, i: int)
    requires |pat| == 3
    ensures OccursAt(s, pat, i)
            <==> 0 <= i && i + 3 <= |s| && s[i] == pat[0] && s[i + 1] == pat[1] && s[i + 2] == pat[2]
  {
    if OccursAt(s, pat, i) {
      assert s[i + 0] == pat[0];
    }
  }

  /**
   * The search for "../" that resumes three characters after each hit, followed by the test of the
   * tail. The skipping loses no occurrence: a component ".." is reported exactly when there is one.
   */
  method ScanForDotDot(s: string) returns (bad: bool)
    ensures bad <==> HasDotDotComponent(s)
  {
    var inner, outer := "../", "/..";
    var pos := Find(s, inner, 0);
    while pos != -1
      invariant pos == -1 || (0 <= pos && OccursAt(s, inner, pos))
      invariant forall i :: 0 <= i <= |s| && (pos == -1 || i < pos) && OccursAt(s, inner, i)
                            ==> i != 0 && s[i - 1] != '/'
      decreases if pos == -1 then 0 else |s| - pos
    {
      OccursAt3(s, inner, pos);
      OccursAt3(s, inner, pos + 1);
      OccursAt3(s, inner, pos + 2);
      if pos == 0 || s[pos - 1] == '/' {
        assert DotDotAt(s, pos);
        return true;
      }
      pos := Find(s, inner, pos + 3);
    }
    var tail := FindLast(s, outer);
    if tail != -1 && |s| - tail == 3 {
      OccursAt3(s, outer, tail);
      assert DotDotAt(s, tail + 1);
      return true;
    }
    if i :| 0 <= i < |s| && DotDotAt(s, i) && '/' in s {
      OccursAt3(s, inner, i);
      OccursAt3(s, outer, i - 1);
    }
    return false;
  }

  /** A backslash preceded by two dots. */
  predicate HasDotDotBackslash(s: string) {
    exists i :: 0 <= i < |s| && s[i] == '\\' && DotDotBefore(s, i)
  }

  predicate DotDotBefore(s: string, i: int) {
    2 <= i <= |s| && s[i - 1] == '.' && s[i - 2] == '.'
  }

  const ENCODED_PATTERNS: seq<string> := [
    "%2f", "%2F", "%5c", "%5C", "%2e", "%2E",
    "%252e", "%252E", "%252f", "%252F", "%255c", "%255C",
    "%00", "\0"
  ]

  /** What `IsFilePathInvalid` refuses. */
  predicate PathInvalid(s: string) {
    s == ""
    || HasDotDotComponent(s)
    || HasDotDotBackslash(s)
    || exists k :: 0 <= k < |ENCODED_PATTERNS| && Contains(s, ENCODED_PATTERNS[k])
  }

  lemma OccursAt1(s: string, pat: string, i: int)
    requires |pat| == 1
    ensures OccursAt(s, pat, i) <==> 0 <= i < |s| && s[i] == pat[0]
  {
    if OccursAt(s, pat, i) {
      assert s[i + 0] == pat[0];
    }
  }

  method ScanForBackslash(s: string) returns (bad: bool)
    ensures bad <==> HasDotDotBackslash(s)
  {
    var slash := "\\";
    var pos := Find(s, slash, 0);
    while pos != -1
      invariant pos == -1 || (0 <= pos && OccursAt(s, slash, pos))
      invariant forall i :: 2 <= i < |s| && (pos == -1 || i < pos) && OccursAt(s, slash, i)
                            ==> !DotDotBefore(s, i)
      decreases if pos == -1 then 0 else |s| - pos
    {
      OccursAt1(s, slash, pos);
      if pos >= 2 && s[pos - 1] == '.' && s[pos - 2] == '.' {
        assert DotDotBefore(s, pos);
        return true;
      }
      pos := Find(s, slash, pos + 1);
    }
    if i :| 0 <= i < |s| && s[i] == '\\' && DotDotBefore(s, i) {
      OccursAt1(s, slash, i);
    }
    return false;
  }

  method IsFilePathInvalid(s: string) returns (bad: bool)
    ensures bad <==> PathInvalid(s)
  {
    if s == "" {
      return true;
    }
    bad := ScanForDotDot(s);
    if bad {
      return;
    }
    bad := ScanForBackslash(s);
    if bad {
      return;
    }
    for k := 0 to |ENCODED_PATTERNS|
      invariant forall j :: 0 <= j < k ==> !Contains(s, ENCODED_PATTERNS[j])
    {
      var pos := Find(s, ENCODED_PATTERNS[k], 0);
      if pos != -1 {
        return true;
      }
    }
    return false;
  }

  // ---------- identifiers ----------

  predicate PureDigitsInRange(s: string, minLen: nat, maxLen: nat) {
    minLen <= |s| <= maxLen && AllDigits(s)
  }

  method IsPureDigitsInRange(s: string, minLen: nat, maxLen: nat) returns (ok: bool)
    ensures ok <==> PureDigitsInRange(s, minLen, maxLen)
  {
    if |s| < minLen || |s| > maxLen {
      return false;
    }
    for i := 0 to |s|
      invariant forall j :: 0 <= j < i ==> IsDigit(s[j])
    {
      if s[i] < '0' || s[i] > '9' {
        return false;
      }
    }
    return true;
  }

  /** Position of the first `c` at or after `from`, or the length when there is none. */
  function IndexFrom(s: string, c: char, from: nat): (k: nat)
    requires from <= |s|
    ensures from <= k <= |s|
    ensures k < |s| ==> s[k] == c
    ensures forall i :: from <= i < k ==> s[i] != c
    decreases |s| - from
  {
    if from == |s| || s[from] == c then from else IndexFrom(s, c, from + 1)
  }

  /** Position of the last `c`, or -1. */
  function LastIndex(s: string, c: char): (k: int)
    ensures -1 <= k < |s|
    ensures k >= 0 ==> s[k] == c
    ensures forall i :: k < i < |s| ==> s[i] != c
  {
    if s == "" then -1
    else if s[|s| - 1] == c then |s| - 1
    else LastIndex(s[..|s| - 1], c)
  }

  /** The two dash-separated segments after a prefix, each one to four digits. */
  predicate TwoNumericSegments(s: string, prefixLen: nat)
    requires prefixLen <= |s|
  {
    var dash := IndexFrom(s, '-', prefixLen);
    && dash < |s|
    && IndexFrom(s, '-', dash + 1) == |s|
    && PureDigitsInRange(s[prefixLen..dash], 1, ID_SEG_MAX_DIGITS)
    && PureDigitsInRange(s[dash + 1..], 1, ID_SEG_MAX_DIGITS)
  }

  predicate IsDiskIdValid(s: string) {
    !PathInvalid(s) && StartsWith(s, "disk-") && TwoNumericSegments(s, 5)
  }

  predicate IsVolumeIdValid(s: string) {
    && !PathInvalid(s)
    && (StartsWith(s, "mtp-") || StartsWith(s, "ptp-") || StartsWith(s, "vol-crypt-")
        || (StartsWith(s, "vol-") && TwoNumericSegments(s, 4)))
  }

  predicate IsUuidValid(s: string) {
    && !PathInvalid(s)
    && var sep := LastIndex(s, UUID_SEQ_SEPARATOR);
       if sep >= 0 then
         PureDigitsInRange(s[sep + 1..], 1, UUID_DEDUP_SUFFIX_MAX_DIGITS) && sep <= UUID_MAX_LEN
       else
         |s| <= UUID_MAX_LEN
  }
}
