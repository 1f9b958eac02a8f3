/**
 * The two free-slot finders. Instants are milliseconds since the epoch. Both
 * sweep the busy blocks in order of start with one moving cursor.
 */
module FreeSlots {
  import opened Sequences

  datatype Interval = Interval(start: int, end: int)

  datatype Event = Event(userId: string, scope: string, space: string, cancelled: bool, time: Interval)

  const WORKDAY_START_HOUR := 8
  const WORKDAY_END_HOUR := 18
  const MAX_SLOTS := 20

  /** getUTCHours() lies in working hours. */
  predicate WithinWorkday(t: int) {
    WORKDAY_START_HOUR <= (t / 3_600_000) % 24 < WORKDAY_END_HOUR
  }

  // ---------------------------------------------------------------------
  // Sorting by start

  function Insert(x: Interval, s: seq<Interval>): seq<Interval> {
    if s == [] || x.start <= s[0].start then [x] + s else [s[0]] + Insert(x, s[1..])
  }

  /** `.sort((a, b) => a.start - b.start)`: stable. */
  function SortByStart(s: seq<Interval>): seq<Interval> {
    if s == [] then [] else Insert(s[0], SortByStart(s[1..]))
  }

  ghost predicate Sorted(s: seq<Interval>) {
    forall i, j | 0 <= i < j < |s| :: s[i].start <= s[j].start
  }

  lemma {:induction false} InsertAdds(x: Interval, s: seq<Interval>)
    ensures multiset(Insert(x, s)) == multiset(s) + multiset{x}
    decreases |s|
  {
    if s != [] && x.start > s[0].start {
      InsertAdds(x, s[1..]);
      assert s == [s[0]] + s[1..];
    }
  }

  lemma SortedCons(x: Interval, s: seq<Interval>)
    requires Sorted(s) && forall i | 0 <= i < |s| :: x.start <= s[i].start
    ensures Sorted([x] + s)
  {
    var all := [x] + s;
    forall i, j | 0 <= i < j < |all| ensures all[i].start <= all[j].start {
      assert all[j] == s[j - 1] && (i > 0 ==> all[i] == s[i - 1]);
    }
  }

  lemma {:induction false} InsertSorts(x: Interval, s: seq<Interval>)
    requires Sorted(s)
    ensures Sorted(Insert(x, s))
    decreases |s|
  {
    if s == [] || x.start <= s[0].start {
      SortedCons(x, s);
    } else {
      var rest := Insert(x, s[1..]);
      InsertSorts(x, s[1..]);
      InsertAdds(x, s[1..]);
      forall i | 0 <= i < |rest| ensures s[0].start <= rest[i].start {
        assert rest[i] in multiset(rest);
        assert rest[i] == x || rest[i] in s[1..];
      }
      SortedCons(s[0], rest);
    }
  }

  lemma {:induction false} SortSorts(s: seq<Interval>)
    ensures Sorted(SortByStart(s)) && multiset(SortByStart(s)) == multiset(s)
    decreases |s|
  {
    if s != [] {
      SortSorts(s[1..]);
      InsertSorts(s[0], SortByStart(s[1..]));
      InsertAdds(s[0], SortByStart(s[1..]));
      assert s == [s[0]] + s[1..];
    }
  }

  lemma SortMembers(s: seq<Interval>)
    ensures forall x :: x in SortByStart(s) <==> x in s
  {
    SortSorts(s);
    forall x ensures x in SortByStart(s) <==> x in s {
      assert x in SortByStart(s) <==> x in multiset(SortByStart(s));
    }
  }

  // ---------------------------------------------------------------------
  // The sweep

  function Max(a: int, b: int): int {
    if a < b then b else a
  }

  /** The gaps of at least `duration` left between the blocks from `cursor` on, the last one ending at `to`. */
  function Gaps(busy: seq<Interval>, cursor: int, to: int, duration: int): seq<Interval> {
    if busy == [] then
      if to - cursor >= duration then [Interval(cursor, to)] else []
    else
      (if busy[0].start - cursor >= duration then [Interval(cursor, busy[0].start)] else [])
      + Gaps(busy[1..], Max(cursor, busy[0].end), to, duration)
  }

  function InWorkday(gaps: seq<Interval>): seq<Interval> {
    if gaps == [] then [] else (if WithinWorkday(gaps[0].start) then [gaps[0]] else []) + InWorkday(gaps[1..])
  }

  lemma {:induction false} InWorkdayConcat(a: seq<Interval>, b: seq<Interval>)
    ensures InWorkday(a + b) == InWorkday(a) + InWorkday(b)
    decreases |a|
  {
    if a == [] { assert a + b == b; } else {
      assert (a + b)[1..] == a[1..] + b;
      InWorkdayConcat(a[1..], b);
      Regroup(if WithinWorkday(a[0].start) then [a[0]] else [], InWorkday(a[1..]), InWorkday(b));
    }
  }

  /** Each gap cut to the asked duration. */
  function Cut(gaps: seq<Interval>, duration: int): (r: seq<Interval>)
    ensures |r| == |gaps| && forall i | 0 <= i < |r| :: r[i] == Interval(gaps[i].start, gaps[i].start + duration)
  {
    seq(|gaps|, i requires 0 <= i < |gaps| => Interval(gaps[i].start, gaps[i].start + duration))
  }

  predicate Overlaps(a: Interval, b: Interval) {
    a.start < b.end && b.start < a.end
  }

  ghost predicate WellFormed(busy: seq<Interval>) {
    forall b <- busy :: b.start <= b.end
  }

  lemma {:induction false} GapBounds(busy: seq<Interval>, cursor: int, to: int, duration: int, g: Interval)
    requires g in Gaps(busy, cursor, to, duration)
    ensures cursor <= g.start && duration <= g.end - g.start
    ensures (forall b <- busy :: b.start <= to) ==> g.end <= to
    decreases |busy|
  {
    if busy != [] {
      var rest := Gaps(busy[1..], Max(cursor, busy[0].end), to, duration);
      assert busy[0] in busy && forall b <- busy[1..] :: b in busy;
      if g in rest { GapBounds(busy[1..], Max(cursor, busy[0].end), to, duration, g); }
    }
  }

  /** Gaps keep clear of every block. */
  lemma {:induction false} GapsAvoidBlocks(busy: seq<Interval>, cursor: int, to: int, duration: int, g: Interval,
                                           b: Interval)
    requires Sorted(busy) && WellFormed(busy) && 0 < duration
    requires g in Gaps(busy, cursor, to, duration) && b in busy
    ensures !Overlaps(g, b)
    decreases |busy|
  {
    var rest := Gaps(busy[1..], Max(cursor, busy[0].end), to, duration);
    if g in rest {
      if b in busy[1..] {
        GapsAvoidBlocks(busy[1..], Max(cursor, busy[0].end), to, duration, g, b);
      } else {
        GapBounds(busy[1..], Max(cursor, busy[0].end), to, duration, g);
      }
    } else {
      var k :| 0 <= k < |busy| && busy[k] == b;
      assert busy[0].start <= busy[k].start;
    }
  }

  /** Each gap ends before the next one starts. */
  ghost predicate Follows(gaps: seq<Interval>) {
    forall i, j | 0 <= i < j < |gaps| :: gaps[i].end <= gaps[j].start && gaps[i].start < gaps[j].start
  }

  lemma {:induction false} GapsFollow(busy: seq<Interval>, cursor: int, to: int, duration: int)
    requires WellFormed(busy) && 0 < duration
    ensures Follows(Gaps(busy, cursor, to, duration))
    decreases |busy|
  {
    if busy != [] {
      assert busy[0] in busy && forall b <- busy[1..] :: b in busy;
      var rest := Gaps(busy[1..], Max(cursor, busy[0].end), to, duration);
      GapsFollow(busy[1..], Max(cursor, busy[0].end), to, duration);
      if busy[0].start - cursor >= duration {
        forall j | 0 <= j < |rest| ensures busy[0].end <= rest[j].start {
          GapBounds(busy[1..], Max(cursor, busy[0].end), to, duration, rest[j]);
        }
        FollowsCons(Interval(cursor, busy[0].start), rest);
      } else {
        assert Gaps(busy, cursor, to, duration) == rest;
      }
    }
  }

  lemma FollowsCons(g: Interval, gaps: seq<Interval>)
    requires Follows(gaps) && g.start < g.end && forall j | 0 <= j < |gaps| :: g.end <= gaps[j].start
    ensures Follows([g] + gaps)
  {
    var all := [g] + gaps;
    forall i, j | 0 <= i < j < |all| ensures all[i].end <= all[j].start && all[i].start < all[j].start {
      assert all[j] == gaps[j - 1];
      if i > 0 { assert all[i] == gaps[i - 1]; }
    }
  }

  /** Every free interval of that duration in the window lies in one of the gaps. */
  lemma {:induction false} GapsAreComplete(busy: seq<Interval>, cursor: int, to: int, duration: int, start: int)
    requires Sorted(busy) && WellFormed(busy) && 0 < duration
    requires cursor <= start && start + duration <= to
    requires forall b <- busy :: !Overlaps(Interval(start, start + duration), b)
    ensures exists g <- Gaps(busy, cursor, to, duration) :: g.start <= start && start + duration <= g.end
    decreases |busy|
  {
    var gaps := Gaps(busy, cursor, to, duration);
    if busy == [] {
      assert gaps[0] in gaps;
    } else {
      var b := busy[0];
      assert b in busy;
      if start + duration <= b.start {
        assert gaps[0] == Interval(cursor, b.start) && gaps[0] in gaps;
      } else {
        var rest := Gaps(busy[1..], Max(cursor, b.end), to, duration);
        assert forall x <- busy[1..] :: x in busy;
        GapsAreComplete(busy[1..], Max(cursor, b.end), to, duration, start);
        var g :| g in rest && g.start <= start && start + duration <= g.end;
        assert g in gaps;
      }
    }
  }

  lemma {:induction false} InWorkdayMembers(gaps: seq<Interval>, g: Interval)
    ensures g in InWorkday(gaps) <==> g in gaps && WithinWorkday(g.start)
    decreases |gaps|
  {
    if gaps != [] { InWorkdayMembers(gaps[1..], g); }
  }

  lemma {:induction false} InWorkdayOrdered(gaps: seq<Interval>, i: nat, j: nat)
    requires Follows(gaps)
    requires i < j < |InWorkday(gaps)|
    ensures InWorkday(gaps)[i].end <= InWorkday(gaps)[j].start && InWorkday(gaps)[i].start < InWorkday(gaps)[j].start
    decreases |gaps|
  {
    var k := if WithinWorkday(gaps[0].start) then 1 else 0;
    if i < k {
      assert InWorkday(gaps)[j] == InWorkday(gaps[1..])[j - k];
      InWorkdayMembers(gaps[1..], InWorkday(gaps)[j]);
    } else {
      assert Follows(gaps[1..]);
      InWorkdayOrdered(gaps[1..], i - k, j - k);
    }
  }

  // ---------------------------------------------------------------------
  // The finders

  /** listEvents: the events of this user and scope, and of this space if one is given, that touch the window. */
  function ListEvents(rows: seq<Event>, userId: string, scope: string, space: string, from: int, to: int)
    : (r: seq<Interval>)
    ensures forall t :: t in r <==> exists e <- rows :: e.time == t && Listed(e, userId, scope, space, from, to)
  {
    if rows == [] then []
    else
      var rest := ListEvents(rows[1..], userId, scope, space, from, to);
      assert rows == [rows[0]] + rows[1..];
      if Listed(rows[0], userId, scope, space, from, to) then [rows[0].time] + rest else rest
  }

  /** An event of the calendar being searched; the empty space stands for all of them. */
  predicate Relevant(e: Event, userId: string, scope: string, space: string) {
    e.userId == userId && e.scope == scope && (space == "" || e.space == space) && !e.cancelled
  }

  predicate Listed(e: Event, userId: string, scope: string, space: string, from: int, to: int) {
    Relevant(e, userId, scope, space) && e.time.start <= to && from <= e.time.end
  }

  function Take(s: seq<Interval>, n: nat): seq<Interval> {
    if |s| <= n then s else s[..n]
  }

  /** One block of the sweep. */
  lemma GapsUnfold(done: seq<Interval>, busy: seq<Interval>, i: nat, cursor: int, to: int, duration: int)
    requires i < |busy|
    ensures var b := busy[i];
      done + Gaps(busy[i..], cursor, to, duration)
      == (if b.start - cursor >= duration then done + [Interval(cursor, b.start)] else done)
         + Gaps(busy[i + 1..], Max(cursor, b.end), to, duration)
  {
    assert busy[i..][1..] == busy[i + 1..];
  }

  lemma SlotsSnoc(gaps: seq<Interval>, gap: Interval, duration: int)
    ensures Cut(InWorkday(gaps + [gap]), duration)
         == Cut(InWorkday(gaps), duration)
            + if WithinWorkday(gap.start) then [Interval(gap.start, gap.start + duration)] else []
  {
    InWorkdayConcat(gaps, [gap]);
    assert [gap][1..] == [];
  }

  /** The slots pushed for the gaps swept so far. */
  ghost predicate SlotsOf(slots: seq<Interval>, gaps: seq<Interval>, duration: int) {
    slots == Cut(InWorkday(gaps), duration)
  }

  /** The gap from the cursor to the next block, or to the end of the window, if it is long enough. */
  method Offer(slots: seq<Interval>, cursor: int, end: int, duration: int, ghost gaps: seq<Interval>)
    returns (slots': seq<Interval>, ghost gaps': seq<Interval>)
    requires SlotsOf(slots, gaps, duration)
    ensures gaps' == (if end - cursor >= duration then gaps + [Interval(cursor, end)] else gaps)
    ensures SlotsOf(slots', gaps', duration)
  {
    slots', gaps' := slots, gaps;
    if end - cursor >= duration {
      SlotsSnoc(gaps, Interval(cursor, end), duration);
      gaps' := gaps + [Interval(cursor, end)];
      if WithinWorkday(cursor) { slots' := slots + [Interval(cursor, cursor + duration)]; }
    }
  }

  lemma GapsEnd(done: seq<Interval>, busy: seq<Interval>, cursor: int, to: int, duration: int)
    ensures done + Gaps(busy[|busy|..], cursor, to, duration)
         == if to - cursor >= duration then done + [Interval(cursor, to)] else done
  {}

  method MoraFindFreeSlots(rows: seq<Event>, userId: string, scope: string, space: string, from: int, to: int,
      durationMinutes: int)
    returns (slots: seq<Interval>)
    ensures slots == MoraSlots(rows, userId, scope, space, from, to, durationMinutes * 60_000)
  {
    var busy := SortByStart(ListEvents(rows, userId, scope, space, from, to));
    var cursor := from;
    var duration := durationMinutes * 60_000;
    slots := [];
    ghost var gaps: seq<Interval> := [];
    for i := 0 to |busy|
      invariant gaps + Gaps(busy[i..], cursor, to, duration) == Gaps(busy, from, to, duration)
      invariant SlotsOf(slots, gaps, duration)
    {
      GapsUnfold(gaps, busy, i, cursor, to, duration);
      slots, gaps := Offer(slots, cursor, busy[i].start, duration, gaps);
      if busy[i].end > cursor { cursor := busy[i].end; }
    }
    GapsEnd(gaps, busy, cursor, to, duration);
    slots, gaps := Offer(slots, cursor, to, duration, gaps);
    slots := Take(slots, MAX_SLOTS);
  }

  method GoogleFindFreeSlots(answered: seq<Interval>, from: int, to: int, durationMinutes: int)
    returns (slots: seq<Interval>)
    ensures slots == InWorkday(Gaps(SortByStart(answered), from, to, durationMinutes * 60_000))
  {
    var busy := SortByStart(answered);
    var duration := durationMinutes * 60_000;
    var cursor := from;
    slots := [];
    for i := 0 to |busy|
      invariant slots + Gaps(busy[i..], cursor, to, duration) == Gaps(busy, from, to, duration)
    {
      GapsUnfold(slots, busy, i, cursor, to, duration);
      if busy[i].start - cursor >= duration { slots := slots + [Interval(cursor, busy[i].start)]; }
      cursor := Max(cursor, busy[i].end);
    }
    if to - cursor >= duration { slots := slots + [Interval(cursor, to)]; }
    assert slots == Gaps(busy, from, to, duration);
    slots := InWorkday(slots);
  }

  // ---------------------------------------------------------------------
  // What callers get

  function MoraSlots(rows: seq<Event>, userId: string, scope: string, space: string, from: int, to: int, duration: int)
    : seq<Interval>
  {
    Take(Cut(InWorkday(Gaps(SortByStart(ListEvents(rows, userId, scope, space, from, to)), from, to, duration)),
             duration), MAX_SLOTS)
  }

  ghost predicate SlotIsIn(s: Interval, from: int, to: int, duration: int) {
    from <= s.start && s.end == s.start + duration && s.end <= to && WithinWorkday(s.start)
  }

  /** The gap a Mora slot was cut from. */
  function GapOf(rows: seq<Event>, userId: string, scope: string, space: string, from: int, to: int, duration: int,
                 i: nat): Interval
    requires i < |MoraSlots(rows, userId, scope, space, from, to, duration)|
  {
    InWorkday(Gaps(SortByStart(ListEvents(rows, userId, scope, space, from, to)), from, to, duration))[i]
  }

  lemma GapOfSlot(rows: seq<Event>, userId: string, scope: string, space: string, from: int, to: int, duration: int,
                  i: nat)
    requires i < |MoraSlots(rows, userId, scope, space, from, to, duration)|
    ensures var gap := GapOf(rows, userId, scope, space, from, to, duration, i);
      && gap in Gaps(SortByStart(ListEvents(rows, userId, scope, space, from, to)), from, to, duration)
      && WithinWorkday(gap.start)
      && MoraSlots(rows, userId, scope, space, from, to, duration)[i] == Interval(gap.start, gap.start + duration)
  {
    var gaps := Gaps(SortByStart(ListEvents(rows, userId, scope, space, from, to)), from, to, duration);
    InWorkdayMembers(gaps, InWorkday(gaps)[i]);
  }

  /** The blocks the sweep goes over. */
  lemma BusyHolds(rows: seq<Event>, userId: string, scope: string, space: string, from: int, to: int)
    requires forall e <- rows :: e.time.start <= e.time.end
    ensures var busy := SortByStart(ListEvents(rows, userId, scope, space, from, to));
      && Sorted(busy) && WellFormed(busy) && (forall b <- busy :: b.start <= to)
      && forall e <- rows :: Listed(e, userId, scope, space, from, to) ==> e.time in busy
  {
    SortSorts(ListEvents(rows, userId, scope, space, from, to));
    SortMembers(ListEvents(rows, userId, scope, space, from, to));
  }

  lemma MoraSlotIsIn(rows: seq<Event>, userId: string, scope: string, space: string, from: int, to: int, duration: int,
                     i: nat)
    requires 0 < duration && forall e <- rows :: e.time.start <= e.time.end
    requires i < |MoraSlots(rows, userId, scope, space, from, to, duration)|
    ensures SlotIsIn(MoraSlots(rows, userId, scope, space, from, to, duration)[i], from, to, duration)
  {
    var busy := SortByStart(ListEvents(rows, userId, scope, space, from, to));
    BusyHolds(rows, userId, scope, space, from, to);
    GapOfSlot(rows, userId, scope, space, from, to, duration, i);
    GapBounds(busy, from, to, duration, GapOf(rows, userId, scope, space, from, to, duration, i));
  }

  lemma MoraSlotIsFree(rows: seq<Event>, userId: string, scope: string, space: string, from: int, to: int,
                       duration: int, i: nat, e: Event)
    requires 0 < duration && forall e <- rows :: e.time.start <= e.time.end
    requires i < |MoraSlots(rows, userId, scope, space, from, to, duration)|
    requires e in rows && Relevant(e, userId, scope, space)
    ensures !Overlaps(MoraSlots(rows, userId, scope, space, from, to, duration)[i], e.time)
  {
    var busy := SortByStart(ListEvents(rows, userId, scope, space, from, to));
    MoraSlotIsIn(rows, userId, scope, space, from, to, duration, i);
    BusyHolds(rows, userId, scope, space, from, to);
    GapOfSlot(rows, userId, scope, space, from, to, duration, i);
    var gap := GapOf(rows, userId, scope, space, from, to, duration, i);
    GapBounds(busy, from, to, duration, gap);
    if Listed(e, userId, scope, space, from, to) { GapsAvoidBlocks(busy, from, to, duration, gap, e.time); }
  }

  lemma MoraSlotsFollow(rows: seq<Event>, userId: string, scope: string, space: string, from: int, to: int,
                        duration: int, i: nat, j: nat)
    requires 0 < duration && forall e <- rows :: e.time.start <= e.time.end
    requires i < j < |MoraSlots(rows, userId, scope, space, from, to, duration)|
    ensures var slots := MoraSlots(rows, userId, scope, space, from, to, duration); slots[i].end <= slots[j].start
  {
    var busy := SortByStart(ListEvents(rows, userId, scope, space, from, to));
    BusyHolds(rows, userId, scope, space, from, to);
    GapsFollow(busy, from, to, duration);
    InWorkdayOrdered(Gaps(busy, from, to, duration), i, j);
    GapOfSlot(rows, userId, scope, space, from, to, duration, i);
    GapOfSlot(rows, userId, scope, space, from, to, duration, j);
    GapBounds(busy, from, to, duration, GapOf(rows, userId, scope, space, from, to, duration, i));
  }

  /**
   * Each Mora slot lies in the window, lasts exactly as asked, starts in working hours and overlaps no event of the
   * searched calendar, listed or not; slots follow one another, and there are at most twenty.
   */
  lemma MoraSlotsAreFree(rows: seq<Event>, userId: string, scope: string, space: string, from: int, to: int,
                         duration: int)
    requires 0 < duration && forall e <- rows :: e.time.start <= e.time.end
    ensures var slots := MoraSlots(rows, userId, scope, space, from, to, duration);
      && |slots| <= MAX_SLOTS
      && (forall s <- slots :: SlotIsIn(s, from, to, duration))
      && (forall s <- slots, e <- rows :: Relevant(e, userId, scope, space) ==> !Overlaps(s, e.time))
      && (forall i, j | 0 <= i < j < |slots| :: slots[i].end <= slots[j].start)
  {
    var slots := MoraSlots(rows, userId, scope, space, from, to, duration);
    forall i | 0 <= i < |slots|
      ensures SlotIsIn(slots[i], from, to, duration)
      ensures forall e <- rows :: Relevant(e, userId, scope, space) ==> !Overlaps(slots[i], e.time)
    {
      MoraSlotIsIn(rows, userId, scope, space, from, to, duration, i);
      forall e | e in rows && Relevant(e, userId, scope, space) ensures !Overlaps(slots[i], e.time) {
        MoraSlotIsFree(rows, userId, scope, space, from, to, duration, i, e);
      }
    }
    forall i, j | 0 <= i < j < |slots| ensures slots[i].end <= slots[j].start {
      MoraSlotsFollow(rows, userId, scope, space, from, to, duration, i, j);
    }
  }

  /** Google's gaps, before the working-hours filter, hold every free interval of the asked duration. */
  lemma GoogleGapsHoldEveryFreeInterval(answered: seq<Interval>, from: int, to: int, duration: int, start: int)
    requires 0 < duration && WellFormed(answered)
    requires from <= start && start + duration <= to
    requires forall b <- answered :: !Overlaps(Interval(start, start + duration), b)
    ensures exists g <- Gaps(SortByStart(answered), from, to, duration) :: g.start <= start && start + duration <= g.end
  {
    SortSorts(answered);
    SortMembers(answered);
    GapsAreComplete(SortByStart(answered), from, to, duration, start);
  }

  /** What Google answers starts in working hours, is long enough, and overlaps no busy block. */
  lemma GoogleAnswersWorkdayGaps(answered: seq<Interval>, from: int, to: int, duration: int, g: Interval)
    requires 0 < duration && WellFormed(answered)
    requires g in InWorkday(Gaps(SortByStart(answered), from, to, duration))
    ensures WithinWorkday(g.start) && from <= g.start && duration <= g.end - g.start
    ensures forall b <- answered :: !Overlaps(g, b)
  {
    var busy := SortByStart(answered);
    SortSorts(answered);
    SortMembers(answered);
    InWorkdayMembers(Gaps(busy, from, to, duration), g);
    GapBounds(busy, from, to, duration, g);
    forall b | b in answered ensures !Overlaps(g, b) { GapsAvoidBlocks(busy, from, to, duration, g, b); }
  }

  // ---------------------------------------------------------------------
  // What the working-hours filter drops

  /** The last end of a block up to `start`, or the start of the window. */
  ghost predicate IsLastEnd(blocks: seq<Interval>, from: int, start: int, c: int) {
    && from <= c <= start && (c == from || exists b <- blocks :: b.end == c)
    && forall b <- blocks :: b.end <= start ==> b.end <= c
  }

  ghost predicate IsFree(blocks: seq<Interval>, start: int, duration: int) {
    forall b <- blocks :: !Overlaps(Interval(start, start + duration), b)
  }

  /** The gap that holds a free interval starts there. */
  lemma {:induction false} GapOfFreeInterval(busy: seq<Interval>, cursor: int, to: int, duration: int, start: int)
    returns (g: Interval)
    requires Sorted(busy) && WellFormed(busy) && 0 < duration
    requires cursor <= start && start + duration <= to && IsFree(busy, start, duration)
    ensures g in Gaps(busy, cursor, to, duration) && g.start <= start && start + duration <= g.end
    ensures IsLastEnd(busy, cursor, start, g.start)
    decreases |busy|
  {
    if busy == [] {
      g := Interval(cursor, to);
    } else {
      var b, rest := busy[0], busy[1..];
      assert b in busy && busy == [b] + rest && forall x <- rest :: x in busy;
      if start + duration <= b.start {
        g := Interval(cursor, b.start);
        forall x | x in busy ensures start < x.end {
          var k :| 0 <= k < |busy| && busy[k] == x;
        }
      } else {
        g := GapOfFreeInterval(rest, Max(cursor, b.end), to, duration, start);
        LastEndGoesOn(b, rest, cursor, start, g.start);
      }
    }
  }

  lemma LastEndGoesOn(b: Interval, rest: seq<Interval>, cursor: int, start: int, c: int)
    requires b.end <= start && IsLastEnd(rest, Max(cursor, b.end), start, c)
    ensures IsLastEnd([b] + rest, cursor, start, c)
  {
    var busy := [b] + rest;
    assert b in busy && forall x <- rest :: x in busy;
  }

  lemma OneGapAt(gaps: seq<Interval>, i: nat, j: nat, start: int, duration: int)
    requires Follows(gaps) && i < |gaps| && j < |gaps| && 0 < duration
    requires gaps[i].start <= start && start + duration <= gaps[i].end
    requires gaps[j].start <= start && start + duration <= gaps[j].end
    ensures i == j
  {}

  lemma OneGapHolds(gaps: seq<Interval>, g: Interval, h: Interval, start: int, duration: int)
    requires Follows(gaps) && g in gaps && h in gaps && 0 < duration
    requires g.start <= start && start + duration <= g.end && h.start <= start && start + duration <= h.end
    ensures g == h
  {
    var i :| 0 <= i < |gaps| && gaps[i] == g;
    var j :| 0 <= j < |gaps| && gaps[j] == h;
    OneGapAt(gaps, i, j, start, duration);
  }

  lemma SortedMeansTheSame(blocks: seq<Interval>, from: int, start: int, duration: int, c: int)
    requires WellFormed(blocks)
    ensures Sorted(SortByStart(blocks)) && WellFormed(SortByStart(blocks))
    ensures IsFree(SortByStart(blocks), start, duration) <==> IsFree(blocks, start, duration)
    ensures IsLastEnd(SortByStart(blocks), from, start, c) <==> IsLastEnd(blocks, from, start, c)
  {
    SortSorts(blocks);
    SortMembers(blocks);
  }

  /**
   * A gap that starts before or after working hours is dropped whole: a free interval of the window lies in an answer
   * exactly when the last block that ends before it, or else the window's start, ends within working hours.
   */
  lemma FreeIntervalIsAnsweredIff(blocks: seq<Interval>, from: int, to: int, duration: int, start: int, c: int)
    requires 0 < duration && WellFormed(blocks) && from <= start && start + duration <= to
    requires IsFree(blocks, start, duration) && IsLastEnd(blocks, from, start, c)
    ensures (exists g <- InWorkday(Gaps(SortByStart(blocks), from, to, duration)) ::
               g.start <= start && start + duration <= g.end)
       <==> WithinWorkday(c)
  {
    var busy := SortByStart(blocks);
    var gaps := Gaps(busy, from, to, duration);
    SortedMeansTheSame(blocks, from, start, duration, c);
    var g := GapOfFreeInterval(busy, from, to, duration, start);
    SortedMeansTheSame(blocks, from, start, duration, g.start);
    assert g.start == c;
    InWorkdayMembers(gaps, g);
    GapsFollow(busy, from, to, duration);
    if h :| h in InWorkday(gaps) && h.start <= start && start + duration <= h.end {
      InWorkdayMembers(gaps, h);
      OneGapHolds(gaps, g, h, start, duration);
    }
  }

  ghost predicate StartsAGap(blocks: seq<Interval>, from: int, start: int, duration: int) {
    IsFree(blocks, start, duration) && IsLastEnd(blocks, from, start, start)
  }

  lemma GapStartsFree(busy: seq<Interval>, from: int, to: int, duration: int, g: Interval)
    requires Sorted(busy) && WellFormed(busy) && 0 < duration
    requires g in Gaps(busy, from, to, duration) && g.start + duration <= to
    ensures StartsAGap(busy, from, g.start, duration)
  {
    GapBounds(busy, from, to, duration, g);
    forall b | b in busy ensures !Overlaps(Interval(g.start, g.start + duration), b) {
      GapsAvoidBlocks(busy, from, to, duration, g, b);
    }
    var h := GapOfFreeInterval(busy, from, to, duration, g.start);
    GapsFollow(busy, from, to, duration);
    OneGapHolds(Gaps(busy, from, to, duration), g, h, g.start, duration);
  }

  lemma CutMembers(gaps: seq<Interval>, duration: int, start: int)
    ensures Interval(start, start + duration) in Cut(gaps, duration) <==> exists g <- gaps :: g.start == start
  {
    var slots := Cut(gaps, duration);
    if i :| 0 <= i < |gaps| && gaps[i].start == start { assert slots[i] == Interval(start, start + duration); }
    if i :| 0 <= i < |slots| && slots[i] == Interval(start, start + duration) { assert gaps[i] in gaps; }
  }

  /**
   * Mora only offers the beginning of each gap: an interval is among its slots, before the cut at twenty, exactly when
   * it is free, starts where the last block before it ended, or with the window, and starts in working hours.
   */
  lemma MoraOffersExactly(blocks: seq<Interval>, from: int, to: int, duration: int, start: int)
    requires 0 < duration && WellFormed(blocks) && from <= start && start + duration <= to
    ensures Interval(start, start + duration) in Cut(InWorkday(Gaps(SortByStart(blocks), from, to, duration)), duration)
       <==> StartsAGap(blocks, from, start, duration) && WithinWorkday(start)
  {
    var busy := SortByStart(blocks);
    var gaps := Gaps(busy, from, to, duration);
    SortedMeansTheSame(blocks, from, start, duration, start);
    CutMembers(InWorkday(gaps), duration, start);
    if g :| g in InWorkday(gaps) && g.start == start {
      InWorkdayMembers(gaps, g);
      GapStartsFree(busy, from, to, duration, g);
    }
    if StartsAGap(busy, from, start, duration) && WithinWorkday(start) {
      var g := GapOfFreeInterval(busy, from, to, duration, start);
      InWorkdayMembers(gaps, g);
    }
  }

  /**
   * On the same blocks the two finders agree: Mora's slots are the starts of Google's gaps, up to the twentieth, each
   * cut to the asked duration inside its gap.
   */
  lemma FindersAgree(rows: seq<Event>, userId: string, scope: string, space: string, from: int, to: int, duration: int,
                     i: nat)
    ensures var mora := MoraSlots(rows, userId, scope, space, from, to, duration);
      var google := InWorkday(Gaps(SortByStart(ListEvents(rows, userId, scope, space, from, to)), from, to, duration));
      && |mora| == (if |google| <= MAX_SLOTS then |google| else MAX_SLOTS)
      && (i < |mora| ==> mora[i].start == google[i].start && mora[i].end <= google[i].end)
  {
    var busy := SortByStart(ListEvents(rows, userId, scope, space, from, to));
    var gaps := Gaps(busy, from, to, duration);
    if i < |InWorkday(gaps)| {
      InWorkdayMembers(gaps, InWorkday(gaps)[i]);
      GapBounds(busy, from, to, duration, InWorkday(gaps)[i]);
    }
  }
}
