/** `PartitionTableParser`: the partitions listed in the text that the daemon reads from a disk. */
module PartitionTable {
  import opened Decimal
  import opened Ids
  import opened Discovery

  // ---------- text ----------

  predicate IsTrimmed(c: char) {
    c in {' ', '\t', '\r'}
  }

  predicate IsSpace(c: char) {
    c in {' ', '\t', '\r', '\n', '\U{000b}', '\U{000c}'}
  }

  /** The one trimmed form of a line: blanks on both sides gone, nothing else. */
  ghost predicate IsTrimOf(r: string, s: string) {
    exists a, b :: 0 <= a <= b <= |s| && r == s[a..b]
      && (forall i :: 0 <= i < a ==> IsTrimmed(s[i])) && (forall i :: b <= i < |s| ==> IsTrimmed(s[i]))
      && (a < b ==> !IsTrimmed(s[a]) && !IsTrimmed(s[b - 1]))
  }

  method Trim(s: string) returns (r: string)
    ensures IsTrimOf(r, s)
    ensures Tokens(r) == Tokens(s)
  {
    var a := 0;
    while a < |s| && IsTrimmed(s[a])
      invariant 0 <= a <= |s|
      invariant forall i :: 0 <= i < a ==> IsTrimmed(s[i])
    {
      a := a + 1;
    }
    var b := |s|;
    while b > a && IsTrimmed(s[b - 1])
      invariant a <= b <= |s|
      invariant forall i :: b <= i < |s| ==> IsTrimmed(s[i])
    {
      b := b - 1;
    }
    r := s[a..b];
    TrimKeepsTokens(s, a, b);
  }

  /** The length of the first run of characters that are not white space. */
  function WordLength(s: string): (n: nat)
    ensures n <= |s|
    ensures forall i :: 0 <= i < n ==> !IsSpace(s[i])
    ensures n < |s| ==> IsSpace(s[n])
  {
    if s == "" || IsSpace(s[0]) then 0 else 1 + WordLength(s[1..])
  }

  /** The words of a line, as `SplitSpace` collects them. */
  function Tokens(s: string): seq<string>
    decreases |s|
  {
    if s == "" then []
    else if IsSpace(s[0]) then Tokens(s[1..])
    else [s[..WordLength(s)]] + Tokens(s[WordLength(s)..])
  }

  lemma {:induction false} BlankHasNoTokens(s: string)
    requires forall i :: 0 <= i < |s| ==> IsSpace(s[i])
    ensures Tokens(s) == []
    decreases |s|
  {
    if s != "" {
      BlankHasNoTokens(s[1..]);
    }
  }

  lemma {:induction false} LeadingBlanks(s: string, a: nat)
    requires a <= |s| && forall i :: 0 <= i < a ==> IsSpace(s[i])
    ensures Tokens(s) == Tokens(s[a..])
  {
    if a > 0 {
      LeadingBlanks(s[1..], a - 1);
      assert s[1..][a - 1..] == s[a..];
    } else {
      assert s[0..] == s;
    }
  }

  lemma {:induction false} WordLengthPrefix(s: string, t: string)
    requires forall i :: 0 <= i < |t| ==> IsSpace(t[i])
    ensures WordLength(s + t) == WordLength(s)
  {
    if s == "" {
      assert s + t == t;
    } else if !IsSpace(s[0]) {
      assert (s + t)[1..] == s[1..] + t;
      WordLengthPrefix(s[1..], t);
    }
  }

  lemma {:induction false} TrailingBlanks(s: string, t: string)
    requires forall i :: 0 <= i < |t| ==> IsSpace(t[i])
    ensures Tokens(s + t) == Tokens(s)
    decreases |s|
  {
    if s == "" {
      assert s + t == t;
      BlankHasNoTokens(t);
    } else if IsSpace(s[0]) {
      assert (s + t)[1..] == s[1..] + t;
      TrailingBlanks(s[1..], t);
    } else {
      WordLengthPrefix(s, t);
      var n := WordLength(s);
      assert (s + t)[..n] == s[..n] && (s + t)[n..] == s[n..] + t;
      TrailingBlanks(s[n..], t);
    }
  }

  lemma TrimKeepsTokens(s: string, a: nat, b: nat)
    requires a <= b <= |s|
    requires forall i :: 0 <= i < a ==> IsTrimmed(s[i])
    requires forall i :: b <= i < |s| ==> IsTrimmed(s[i])
    ensures Tokens(s[a..b]) == Tokens(s)
  {
    LeadingBlanks(s, a);
    assert s[a..] == s[a..b] + s[b..];
    TrailingBlanks(s[a..b], s[b..]);
  }

  // ---------- numbers ----------

  function DigitsPrefix(s: string): (n: nat)
    ensures n <= |s| && AllDigits(s[..n])
  {
    if s == "" || !IsDigit(s[0]) then 0
    else
      var n := DigitsPrefix(s[1..]);
      assert s[..n + 1] == [s[0]] + s[1..][..n];
      n + 1
  }

  /** `strtoul` in base ten, cut to 32 bits: a sign, then the digits there are; no digits is zero. */
  function PartitionNumber(s: string): nat {
    var negative := s != "" && s[0] == '-';
    var digits := if s != "" && s[0] in {'-', '+'} then s[1..] else s;
    var v := Value(digits[..DigitsPrefix(digits)]);
    if v > ULONG_MAX then ULONG_MAX % UINT32_RANGE
    else if negative then (ULONG_MAX + 1 - v) % UINT32_RANGE
    else v % UINT32_RANGE
  }

  // ---------- the table ----------

  /** What the parser has read so far. */
  datatype Parsed = Parsed(table: string, parts: seq<PartitionRecord>)

  function LowerChar(c: char): char {
    if 'A' <= c <= 'Z' then (c as int + 32) as char else c
  }

  function Lowered(s: string): string {
    seq(|s|, i requires 0 <= i < |s| => LowerChar(s[i]))
  }

  /** One line: a DISK line names the table, a PART line adds a partition of a table that is known. */
  function ParseLine(p: Parsed, tok: seq<string>, supported: string -> bool): Parsed {
    if |tok| < 2 then p
    else if tok[0] == "DISK" then p.(table := Lowered(tok[1]))
    else if tok[0] != "PART" || PartitionNumber(tok[1]) < 1 then p
    else if p.table == "mbr" && |tok| >= 3 then
      if supported(tok[2]) then p.(parts := p.parts + [PartitionRecord(PartitionNumber(tok[1]), "mbr", tok[2])]) else p
    else if p.table == "gpt" then p.(parts := p.parts + [PartitionRecord(PartitionNumber(tok[1]), "gpt", "")])
    else p
  }

  function ParseLines(lines: seq<string>, supported: string -> bool): Parsed {
    if lines == [] then Parsed("", [])
    else
      var n := |lines| - 1;
      ParseLine(ParseLines(lines[..n], supported), Tokens(lines[n]), supported)
  }

  /** `ParseSgdiskDump`, over the lines of the dump; `supported` is the table of MBR types. */
  method ParseSgdiskDump(lines: seq<string>, supported: string -> bool)
    returns (ok: bool, table: string, parts: seq<PartitionRecord>)
    ensures Parsed(table, parts) == ParseLines(lines, supported) && (ok <==> table != "")
  {
    table, parts := "", [];
    for i := 0 to |lines|
      invariant Parsed(table, parts) == ParseLines(lines[..i], supported)
    {
      assert lines[..i + 1][..i] == lines[..i];
      var line := Trim(lines[i]);
      var tok := Tokens(line);
      if |tok| >= 2 && tok[0] == "DISK" {
        table := Lowered(tok[1]);
      } else if |tok| >= 2 && tok[0] == "PART" {
        var number := PartitionNumber(tok[1]);
        if number >= 1 {
          if table == "mbr" && |tok| >= 3 {
            if supported(tok[2]) {
              parts := parts + [PartitionRecord(number, "mbr", tok[2])];
            }
          } else if table == "gpt" {
            parts := parts + [PartitionRecord(number, "gpt", "")];
          }
        }
      }
    }
    assert lines[..|lines|] == lines;
    return table != "", table, parts;
  }

  /**
   * Every partition listed has a number from 1 to 2^32 - 1, belongs to an MBR or GPT table, and in
   * an MBR table has a supported type; and each was named by a PART line of the dump.
   */
  lemma {:induction false} ListedPartitions(lines: seq<string>, supported: string -> bool)
    ensures forall r :: r in ParseLines(lines, supported).parts ==>
              && 1 <= r.number < UINT32_RANGE
              && (r.table == "gpt" || (r.table == "mbr" && supported(r.fsTypeRaw)))
              && exists k :: 0 <= k < |lines| && NamedBy(Tokens(lines[k]), r)
  {
    if lines != [] {
      var n := |lines| - 1;
      ListedPartitions(lines[..n], supported);
      var before, after := ParseLines(lines[..n], supported), ParseLines(lines, supported);
      forall r | r in after.parts
        ensures && 1 <= r.number < UINT32_RANGE
                && (r.table == "gpt" || (r.table == "mbr" && supported(r.fsTypeRaw)))
                && exists k :: 0 <= k < |lines| && NamedBy(Tokens(lines[k]), r)
      {
        if r in before.parts {
          var k :| 0 <= k < n && NamedBy(Tokens(lines[..n][k]), r);
          assert NamedBy(Tokens(lines[k]), r);
        } else {
          assert NamedBy(Tokens(lines[n]), r);
        }
      }
    }
  }

  /** The table type named by the last DISK line before line k. */
  function TableBefore(lines: seq<string>, k: nat): string
    requires k <= |lines|
  {
    if k == 0 then ""
    else
      var tok := Tokens(lines[k - 1]);
      if |tok| >= 2 && tok[0] == "DISK" then Lowered(tok[1]) else TableBefore(lines, k - 1)
  }

  /** Line k is a PART line with a number from 1 up, below a GPT table, or below an MBR table with a supported type. */
  predicate Qualifies(lines: seq<string>, k: nat, supported: string -> bool)
    requires k < |lines|
  {
    var tok, table := Tokens(lines[k]), TableBefore(lines, k);
    && |tok| >= 2 && tok[0] == "PART" && PartitionNumber(tok[1]) >= 1
    && (table == "gpt" || (table == "mbr" && |tok| >= 3 && supported(tok[2])))
  }

  function RecordOf(lines: seq<string>, k: nat, supported: string -> bool): PartitionRecord
    requires k < |lines| && Qualifies(lines, k, supported)
  {
    var tok, table := Tokens(lines[k]), TableBefore(lines, k);
    PartitionRecord(PartitionNumber(tok[1]), table, if table == "mbr" then tok[2] else "")
  }

  lemma {:induction false} TableOfPrefix(lines: seq<string>, n: nat, k: nat)
    requires k <= n <= |lines|
    ensures TableBefore(lines[..n], k) == TableBefore(lines, k)
  {
    if k > 0 {
      TableOfPrefix(lines, n, k - 1);
    }
  }

  /** The listing is exactly the qualifying lines, each once and in order, under the last table type named. */
  lemma {:induction false} ListedExactly(lines: seq<string>, supported: string -> bool) returns (at: seq<nat>)
    ensures ParseLines(lines, supported).table == TableBefore(lines, |lines|)
    ensures var parts := ParseLines(lines, supported).parts;
            && |at| == |parts|
            && (forall i, j :: 0 <= i < j < |at| ==> at[i] < at[j])
            && (forall i :: 0 <= i < |at| ==>
                  && at[i] < |lines| && Qualifies(lines, at[i], supported)
                  && parts[i] == RecordOf(lines, at[i], supported))
            && (forall k :: 0 <= k < |lines| && Qualifies(lines, k, supported) ==> k in at)
  {
    at := [];
    if lines != [] {
      var n := |lines| - 1;
      at := ListedExactly(lines[..n], supported);
      forall k | 0 <= k <= n ensures TableBefore(lines[..n], k) == TableBefore(lines, k) {
        TableOfPrefix(lines, n, k);
      }
      assert forall k :: 0 <= k < n ==> lines[..n][k] == lines[k];
      assert forall k :: 0 <= k < n ==> (Qualifies(lines[..n], k, supported) <==> Qualifies(lines, k, supported));
      if Qualifies(lines, n, supported) {
        at := at + [n];
      }
    }
  }

  predicate NamedBy(tok: seq<string>, r: PartitionRecord) {
    && |tok| >= 2 && tok[0] == "PART" && PartitionNumber(tok[1]) == r.number
    && (r.table == "mbr" ==> |tok| >= 3 && tok[2] == r.fsTypeRaw)
  }

  /** So a dump without a repeated number gives a table that discovery keeps in step with. */
  lemma DumpIsGoodTable(lines: seq<string>, supported: string -> bool)
    requires var parts := ParseLines(lines, supported).parts;
             forall r, q :: r in parts && q in parts && r.number == q.number ==> r == q
    ensures GoodTable(ParseLines(lines, supported).parts)
  {
    ListedPartitions(lines, supported);
  }
}
