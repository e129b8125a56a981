/** The documented order of a volume's published events, as an automaton and as a property. */
module EventOrder {
  import opened Volumes

  datatype Last = Nothing | EjectOk | EjectFailed | UnmountDone | Other | Ended

  /** Reading a log: `open` while a MOUNTED has no EJECT after it. */
  datatype Reader = Rejected | Reading(open: bool, last: Last)

  function Read(q: Reader, e: Event): Reader {
    if q.Rejected? || q.last == Ended then Rejected
    else
      match e
      case MountedEvent => if q.open then Rejected else Reading(true, Other)
      case Eject(failed) => Reading(false, if failed then EjectFailed else EjectOk)
      case UnmountedEvent => if q.last == EjectOk then Reading(q.open, UnmountDone) else Rejected
      case Removed => if q.open then Rejected else Reading(false, Ended)
      case BadRemoval => if q.last in {UnmountDone, EjectFailed} then Reading(q.open, Ended) else Rejected
      case _ => Reading(q.open, Other)
  }

  function ReadFrom(q: Reader, t: seq<Event>): Reader {
    if t == [] then q else Read(ReadFrom(q, t[..|t| - 1]), t[|t| - 1])
  }

  function ReadAll(t: seq<Event>): Reader {
    ReadFrom(Reading(false, Nothing), t)
  }

  lemma {:induction false} ReadAppend(q: Reader, s: seq<Event>, t: seq<Event>)
    ensures ReadFrom(q, s + t) == ReadFrom(ReadFrom(q, s), t)
    decreases |t|
  {
    if t == [] {
      assert s + t == s;
    } else {
      var n := |t| - 1;
      assert (s + t)[..|s + t| - 1] == s + t[..n];
      ReadAppend(q, s, t[..n]);
    }
  }

  predicate Terminal(e: Event) {
    e == Removed || e == BadRemoval
  }

  /**
   * UNMOUNTED comes directly after a successful EJECT; between two MOUNTED there is an EJECT; a
   * terminal event is the last one; BAD_REMOVAL comes directly after UNMOUNTED or a failed EJECT.
   */
  predicate Ordered(t: seq<Event>) {
    && (forall i :: 0 <= i < |t| && t[i] == UnmountedEvent ==> i > 0 && t[i - 1] == Eject(false))
    && (forall i, j :: 0 <= i < j < |t| && t[i] == MountedEvent && t[j] == MountedEvent ==> EjectBetween(t, i, j))
    && (forall i :: 0 <= i < |t| && Terminal(t[i]) ==> i == |t| - 1)
    && (forall i :: 0 <= i < |t| && t[i] == BadRemoval ==>
          i > 0 && (t[i - 1] == UnmountedEvent || t[i - 1] == Eject(true)))
  }

  predicate EjectBetween(t: seq<Event>, i: int, j: int)
    requires 0 <= i <= j <= |t|
  {
    exists k :: i < k < j && t[k].Eject?
  }

  /** What the automaton remembers about an accepted log. */
  predicate Remembers(q: Reader, t: seq<Event>)
  {
    && q.Reading?
    && (!q.open ==> forall i :: 0 <= i < |t| && t[i] == MountedEvent ==> EjectBetween(t, i, |t|))
    && (t == [] <==> q.last == Nothing)
    && (t != [] ==>
          && (q.last == EjectOk <==> t[|t| - 1] == Eject(false))
          && (q.last == EjectFailed <==> t[|t| - 1] == Eject(true))
          && (q.last == UnmountDone <==> t[|t| - 1] == UnmountedEvent)
          && (q.last == Ended <==> Terminal(t[|t| - 1])))
  }

  /** Every accepted log is in the documented order. */
  lemma {:induction false} AcceptedIsOrdered(t: seq<Event>)
    requires ReadAll(t) != Rejected
    ensures Ordered(t) && Remembers(ReadAll(t), t)
  {
    if t != [] {
      var n := |t| - 1;
      var s := t[..n];
      AcceptedIsOrdered(s);
      ExtendOrdered(s, t[n], ReadAll(s));
      assert s + [t[n]] == t;
    }
  }

  lemma EjectStays(s: seq<Event>, e: Event)
    ensures forall i :: 0 <= i < |s| && EjectBetween(s, i, |s|) ==>
              EjectBetween(s + [e], i, |s|) && EjectBetween(s + [e], i, |s| + 1)
    ensures forall i, j :: 0 <= i < j < |s| && EjectBetween(s, i, j) ==> EjectBetween(s + [e], i, j)
  {
    var t := s + [e];
    forall i, j | 0 <= i <= j <= |s| && EjectBetween(s, i, j) ensures EjectBetween(t, i, j) {
      var k :| i < k < j && s[k].Eject?;
      assert t[k].Eject?;
    }
    forall i | 0 <= i < |s| && EjectBetween(s, i, |s|) ensures EjectBetween(t, i, |s| + 1) {
      var k :| i < k < |s| && s[k].Eject?;
      assert t[k].Eject?;
    }
  }

  lemma ExtendOrdered(s: seq<Event>, e: Event, q: Reader)
    requires Ordered(s) && Remembers(q, s) && Read(q, e) != Rejected
    ensures Ordered(s + [e]) && Remembers(Read(q, e), s + [e])
  {
    EjectStays(s, e);
    var t := s + [e];
    if e.Eject? {
      forall i | 0 <= i < |s| ensures EjectBetween(t, i, |t|) {
        assert t[|s|].Eject?;
      }
    }
  }

  // ---------- reading the events of one call ----------

  lemma ReadOne(q: Reader, e: Event)
    ensures ReadFrom(q, [e]) == Read(q, e)
  {
    assert [e][..0] == [];
  }

  lemma ReadTwo(q: Reader, e: Event, f: Event)
    ensures ReadFrom(q, [e, f]) == Read(Read(q, e), f)
  {
    assert [e, f][..1] == [e];
    ReadOne(q, e);
  }

  /** Progress reports say nothing about mounting. */
  predicate Neutral(t: seq<Event>) {
    forall i :: 0 <= i < |t| ==>
      t[i] in {Abnormal, CheckingEvent, RepairStarted, RepairFailed, RepairSucceeded, FormatFailed}
  }

  lemma {:induction false} ReadNeutral(q: Reader, t: seq<Event>)
    requires q.Reading? && q.last != Ended && Neutral(t)
    ensures var r := ReadFrom(q, t); r.Reading? && r.last != Ended && r.open == q.open
  {
    if t != [] {
      ReadNeutral(q, t[..|t| - 1]);
    }
  }

  /** Progress reports, then possibly MOUNTED. */
  predicate MountingEvents(t: seq<Event>, mounted: bool) {
    if mounted then t != [] && t[|t| - 1] == MountedEvent && Neutral(t[..|t| - 1]) else Neutral(t)
  }

  lemma ReadMounting(q: Reader, t: seq<Event>, mounted: bool)
    requires q.Reading? && q.last != Ended && !q.open && MountingEvents(t, mounted)
    ensures var r := ReadFrom(q, t); r.Reading? && r.last != Ended && (!mounted ==> !r.open)
  {
    if mounted {
      ReadNeutral(q, t[..|t| - 1]);
    } else {
      ReadNeutral(q, t);
    }
  }
}
