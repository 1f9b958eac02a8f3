/**
 * What a caller of Mora's free-slot finder gets, said of the rows of the calendar alone: whose events count, which
 * hours are worked and how many slots are answered.
 */
module SlotOutcomes {
  import opened FreeSlots

  /** From eight in the morning up to six in the evening, UTC. */
  predicate InWorkingHours(t: int) {
    8 * 3_600_000 <= t % 86_400_000 < 18 * 3_600_000
  }

  /** An event of this user and scope that was not cancelled; with a space given, only one of that space. */
  predicate IsOwn(e: Event, userId: string, scope: string, space: string) {
    !e.cancelled && e.userId == userId && e.scope == scope && (space != "" ==> e.space == space)
  }

  ghost predicate EndsAt(rows: seq<Event>, userId: string, scope: string, space: string, t: int) {
    exists e <- rows :: IsOwn(e, userId, scope, space) && e.time.end == t
  }

  ghost predicate NothingIn(rows: seq<Event>, userId: string, scope: string, space: string, start: int, end: int) {
    forall e <- rows :: IsOwn(e, userId, scope, space) ==> end <= e.time.start || e.time.end <= start
  }

  /** A slot to offer: in the window, in working hours, free, and begun with the window or where an event ends. */
  ghost predicate IsOffered(rows: seq<Event>, userId: string, scope: string, space: string, from: int, to: int,
                            duration: int, start: int)
  {
    && from <= start && start + duration <= to && InWorkingHours(start)
    && NothingIn(rows, userId, scope, space, start, start + duration)
    && (start == from || EndsAt(rows, userId, scope, space, start))
  }

  lemma WorkingHours(t: int)
    ensures WithinWorkday(t) <==> InWorkingHours(t)
  {
    var days, rest := t / 86_400_000, t % 86_400_000;
    assert t / 3_600_000 == 24 * days + rest / 3_600_000;
    assert 0 <= rest / 3_600_000 < 24;
  }

  /** Exactly the events of the user, scope and space that touch the window are listed. */
  lemma ListsOwnEvents(rows: seq<Event>, userId: string, scope: string, space: string, from: int, to: int, t: Interval)
    ensures t in ListEvents(rows, userId, scope, space, from, to)
       <==> exists e <- rows :: e.time == t && IsOwn(e, userId, scope, space) && t.start <= to && from <= t.end
  {
    if t in ListEvents(rows, userId, scope, space, from, to) {
      var e :| e in rows && e.time == t && Listed(e, userId, scope, space, from, to);
      assert IsOwn(e, userId, scope, space);
    }
    if e :| e in rows && e.time == t && IsOwn(e, userId, scope, space) && t.start <= to && from <= t.end {
      assert Listed(e, userId, scope, space, from, to);
    }
  }

  lemma FreeOfListed(rows: seq<Event>, userId: string, scope: string, space: string, from: int, to: int,
                     duration: int, start: int)
    requires 0 < duration && from <= start && start + duration <= to
    ensures IsFree(ListEvents(rows, userId, scope, space, from, to), start, duration)
       <==> NothingIn(rows, userId, scope, space, start, start + duration)
  {
    var listed := ListEvents(rows, userId, scope, space, from, to);
    if IsFree(listed, start, duration) {
      forall e | e in rows && IsOwn(e, userId, scope, space)
        ensures start + duration <= e.time.start || e.time.end <= start
      {
        ListsOwnEvents(rows, userId, scope, space, from, to, e.time);
        assert e.time in listed ==> !Overlaps(Interval(start, start + duration), e.time);
      }
    }
    if NothingIn(rows, userId, scope, space, start, start + duration) {
      forall b | b in listed ensures !Overlaps(Interval(start, start + duration), b) {
        ListsOwnEvents(rows, userId, scope, space, from, to, b);
      }
    }
  }

  lemma EndOfListed(rows: seq<Event>, userId: string, scope: string, space: string, from: int, to: int, start: int)
    requires from <= start <= to && forall e <- rows :: e.time.start <= e.time.end
    ensures (exists b <- ListEvents(rows, userId, scope, space, from, to) :: b.end == start)
       <==> EndsAt(rows, userId, scope, space, start)
  {
    var listed := ListEvents(rows, userId, scope, space, from, to);
    if b :| b in listed && b.end == start { ListsOwnEvents(rows, userId, scope, space, from, to, b); }
    if e :| e in rows && IsOwn(e, userId, scope, space) && e.time.end == start {
      ListsOwnEvents(rows, userId, scope, space, from, to, e.time);
    }
  }

  /** Every slot there is to offer, in the order of the sweep. */
  function Slots(rows: seq<Event>, userId: string, scope: string, space: string, from: int, to: int, duration: int)
    : seq<Interval>
  {
    Cut(InWorkday(Gaps(SortByStart(ListEvents(rows, userId, scope, space, from, to)), from, to, duration)), duration)
  }

  lemma SlotsAreOffered(rows: seq<Event>, userId: string, scope: string, space: string, from: int, to: int,
                        duration: int, start: int)
    requires 0 < duration && from <= start && start + duration <= to
    requires forall e <- rows :: e.time.start <= e.time.end
    ensures Interval(start, start + duration) in Slots(rows, userId, scope, space, from, to, duration)
       <==> IsOffered(rows, userId, scope, space, from, to, duration, start)
  {
    var listed := ListEvents(rows, userId, scope, space, from, to);
    MoraOffersExactly(listed, from, to, duration, start);
    WorkingHours(start);
    FreeOfListed(rows, userId, scope, space, from, to, duration, start);
    EndOfListed(rows, userId, scope, space, from, to, start);
  }

  lemma FirstTwenty(rows: seq<Event>, userId: string, scope: string, space: string, from: int, to: int, duration: int)
    ensures var all := Slots(rows, userId, scope, space, from, to, duration);
      MoraSlots(rows, userId, scope, space, from, to, duration) == if |all| < 20 then all else all[..20]
  {}

  lemma SlotsFollow(rows: seq<Event>, userId: string, scope: string, space: string, from: int, to: int, duration: int,
                    i: nat, j: nat)
    requires 0 < duration && forall e <- rows :: e.time.start <= e.time.end
    requires i < j < |Slots(rows, userId, scope, space, from, to, duration)|
    ensures var all := Slots(rows, userId, scope, space, from, to, duration);
      && from <= all[i].start && all[i].end == all[i].start + duration && all[j].end == all[j].start + duration
      && all[i].end <= all[j].start
  {
    var busy := SortByStart(ListEvents(rows, userId, scope, space, from, to));
    var gaps := Gaps(busy, from, to, duration);
    BusyHolds(rows, userId, scope, space, from, to);
    GapsFollow(busy, from, to, duration);
    InWorkdayOrdered(gaps, i, j);
    InWorkdayMembers(gaps, InWorkday(gaps)[i]);
    GapBounds(busy, from, to, duration, InWorkday(gaps)[i]);
  }

  /** Whatever is answered is a slot to offer. */
  lemma OnlyOfferedSlots(rows: seq<Event>, userId: string, scope: string, space: string, from: int, to: int,
                         duration: int, i: nat)
    requires 0 < duration && forall e <- rows :: e.time.start <= e.time.end
    requires i < |MoraSlots(rows, userId, scope, space, from, to, duration)|
    ensures var s := MoraSlots(rows, userId, scope, space, from, to, duration)[i];
      s.end == s.start + duration && IsOffered(rows, userId, scope, space, from, to, duration, s.start)
  {
    var all := Slots(rows, userId, scope, space, from, to, duration);
    FirstTwenty(rows, userId, scope, space, from, to, duration);
    MoraSlotIsIn(rows, userId, scope, space, from, to, duration, i);
    assert all[i] in all;
    SlotsAreOffered(rows, userId, scope, space, from, to, duration, all[i].start);
  }

  /** A slot to offer is answered unless twenty earlier ones are. */
  lemma OfferedUnlessTwentyCome(rows: seq<Event>, userId: string, scope: string, space: string, from: int, to: int,
                                duration: int, start: int)
    requires 0 < duration && forall e <- rows :: e.time.start <= e.time.end
    requires IsOffered(rows, userId, scope, space, from, to, duration, start)
    ensures var slots := MoraSlots(rows, userId, scope, space, from, to, duration);
      Interval(start, start + duration) in slots || (|slots| == 20 && forall s <- slots :: s.end <= start)
  {
    var all := Slots(rows, userId, scope, space, from, to, duration);
    var slots := MoraSlots(rows, userId, scope, space, from, to, duration);
    SlotsAreOffered(rows, userId, scope, space, from, to, duration, start);
    FirstTwenty(rows, userId, scope, space, from, to, duration);
    var k :| 0 <= k < |all| && all[k] == Interval(start, start + duration);
    if k < |slots| {
      assert slots[k] == all[k];
    } else {
      forall i | 0 <= i < |slots| ensures slots[i].end <= start {
        SlotsFollow(rows, userId, scope, space, from, to, duration, i, k);
      }
    }
  }

  /**
   * Mora answers the first twenty slots there are to offer, in order: each answer is one, no two overlap, and any other
   * one begins after twenty answered ones have ended.
   */
  lemma MoraAnswersTheFirstTwenty(rows: seq<Event>, userId: string, scope: string, space: string, from: int, to: int,
                                  duration: int)
    requires 0 < duration && forall e <- rows :: e.time.start <= e.time.end
    ensures var slots := MoraSlots(rows, userId, scope, space, from, to, duration);
      && |slots| <= 20
      && (forall i, j | 0 <= i < j < |slots| :: slots[i].end <= slots[j].start)
      && (forall s <- slots ::
            s.end == s.start + duration && IsOffered(rows, userId, scope, space, from, to, duration, s.start))
      && (forall start | IsOffered(rows, userId, scope, space, from, to, duration, start) ::
            Interval(start, start + duration) in slots || (|slots| == 20 && forall s <- slots :: s.end <= start))
  {
    var slots := MoraSlots(rows, userId, scope, space, from, to, duration);
    FirstTwenty(rows, userId, scope, space, from, to, duration);
    MoraSlotsAreFree(rows, userId, scope, space, from, to, duration);
    forall i | 0 <= i < |slots|
      ensures slots[i].end == slots[i].start + duration
      ensures IsOffered(rows, userId, scope, space, from, to, duration, slots[i].start)
    {
      OnlyOfferedSlots(rows, userId, scope, space, from, to, duration, i);
    }
    forall start | IsOffered(rows, userId, scope, space, from, to, duration, start)
      ensures Interval(start, start + duration) in slots || (|slots| == 20 && forall s <- slots :: s.end <= start)
    {
      OfferedUnlessTwentyCome(rows, userId, scope, space, from, to, duration, start);
    }
  }

  /** What Google answers starts in working hours; the filter keeps exactly the gaps that do. */
  lemma GoogleKeepsWorkingHours(answered: seq<Interval>, from: int, to: int, duration: int, g: Interval)
    ensures var gaps := Gaps(SortByStart(answered), from, to, duration);
      g in InWorkday(gaps) <==> g in gaps && InWorkingHours(g.start)
  {
    InWorkdayMembers(Gaps(SortByStart(answered), from, to, duration), g);
    WorkingHours(g.start);
  }
}
