/**
 * What committing a fact does to the table of memories, said without the lookup's own arithmetic: which cell the fact
 * belongs to, which memory it is measured against, and what becomes of the two.
 */
module MemoryOutcomes {
  import opened Wrappers
  import opened MemorySupersession
  import Text

  /** The share of tokens two texts have in common. */
  function Likeness(a: set<string>, b: set<string>): real {
    if a == {} || b == {} then 0.0
    else
      assert a + b != {};
      |a * b| as real / |a + b| as real
  }

  /** The cell a fact belongs to: a space only means something in the batch's own scope. */
  ghost predicate BelongsIn(cell: Cell, user: string, scope: string, space: string, c: Candidate) {
    && cell.user == user && cell.kind == c.kind
    && (c.scope == Some(cell.scope) || (c.scope == None && cell.scope == scope))
    && (cell.scope == "personal" ==> cell.space == "personal")
    && (cell.scope != "personal" && cell.scope == scope ==> cell.space == space)
    && (cell.scope != "personal" && cell.scope != scope ==> cell.space == "general")
  }

  predicate IsLive(rows: seq<Memory>, cell: Cell, id: nat) {
    id < |rows| && rows[id].cell == cell && rows[id].status == Active
  }

  /** Up to twenty live memories of the cell, each once, and all of them if there are fewer. */
  ghost predicate LooksAt(rows: seq<Memory>, cell: Cell, listed: seq<nat>) {
    && |listed| <= 20
    && (forall i | 0 <= i < |listed| :: IsLive(rows, cell, listed[i]))
    && (forall i, j | 0 <= i < |listed| && 0 <= j < |listed| && i != j :: listed[i] != listed[j])
    && (|listed| < 20 ==> forall id: nat | IsLive(rows, cell, id) :: id in listed)
  }

  function LikenessOf(rows: seq<Memory>, content: Content, id: nat): real
    requires id < |rows|
  {
    Likeness(content.tokens, rows[id].content.tokens)
  }

  /** The k-th listed memory shares three fifths of the tokens or more, and no other shares more, or as much earlier. */
  ghost predicate IsClosest(rows: seq<Memory>, listed: seq<nat>, content: Content, k: nat)
    requires k < |listed| && forall i | 0 <= i < |listed| :: listed[i] < |rows|
  {
    && LikenessOf(rows, content, listed[k]) >= 0.6
    && (forall i | 0 <= i < |listed| :: LikenessOf(rows, content, listed[i]) <= LikenessOf(rows, content, listed[k]))
    && (forall i | 0 <= i < k :: LikenessOf(rows, content, listed[i]) < LikenessOf(rows, content, listed[k]))
  }

  function DigitPlaces(text: string): set<int> {
    set i | 0 <= i < |text| && '0' <= text[i] <= '9'
  }

  /** The fact is new: it becomes a memory. */
  ghost predicate IsAdded(rows: seq<Memory>, cell: Cell, content: Content, rows': seq<Memory>) {
    rows' == rows + [Memory(cell, content, Active, None)]
  }

  /** The fact is measured against a memory: it takes its place, unless it carries fewer digits. */
  ghost predicate IsMeasured(rows: seq<Memory>, cell: Cell, content: Content, id: nat, rows': seq<Memory>)
    requires id < |rows|
  {
    if |DigitPlaces(content.text)| < |DigitPlaces(rows[id].content.text)| then rows' == rows
    else
      && |rows'| == |rows| + 1 && rows'[|rows|] == Memory(cell, content, Active, None)
      && rows'[id] == Memory(rows[id].cell, rows[id].content, Superseded, Some(|rows|))
      && forall i | 0 <= i < |rows| && i != id :: rows'[i] == rows[i]
  }

  ghost predicate IsCommitted(rows: seq<Memory>, cell: Cell, content: Content, listed: seq<nat>, rows': seq<Memory>)
    requires forall i | 0 <= i < |listed| :: listed[i] < |rows|
  {
    if forall i | 0 <= i < |listed| :: LikenessOf(rows, content, listed[i]) < 0.6
    then IsAdded(rows, cell, content, rows')
    else exists k: nat ::
      k < |listed| && IsClosest(rows, listed, content, k) && IsMeasured(rows, cell, content, listed[k], rows')
  }

  ghost predicate FactIsCommitted(rows: seq<Memory>, user: string, scope: string, space: string, c: Candidate,
                                  rows': seq<Memory>)
  {
    exists cell, listed ::
      BelongsIn(cell, user, scope, space, c) && LooksAt(rows, cell, listed)
      && IsCommitted(rows, cell, c.content, listed, rows')
  }

  // ---------------------------------------------------------------------
  // The arithmetic

  lemma {:induction false} CountDigitsSnoc(text: string, c: char)
    ensures CountDigits(text + [c]) == CountDigits(text) + if '0' <= c <= '9' then 1 else 0
    decreases |text|
  {
    if text == "" {
      assert (text + [c])[1..] == "";
    } else {
      assert (text + [c])[1..] == text[1..] + [c];
      CountDigitsSnoc(text[1..], c);
    }
  }

  lemma {:induction false} DigitsAreCounted(text: string)
    ensures CountDigits(text) == |DigitPlaces(text)|
    decreases |text|
  {
    if text != "" {
      var n := |text| - 1;
      DigitsAreCounted(text[..n]);
      CountDigitsSnoc(text[..n], text[n]);
      assert text == text[..n] + [text[n]];
      assert DigitPlaces(text) == DigitPlaces(text[..n]) + if '0' <= text[n] <= '9' then {n} else {};
    }
  }

  lemma Quotients(a: nat, b: nat, c: nat, d: nat)
    requires b > 0 && d > 0
    ensures (a as real / b as real > c as real / d as real) <==> a * d > c * b
  {
    var x, y := a as real / b as real, c as real / d as real;
    var m := b as real * d as real;
    assert x * m == a as real * d as real && y * m == c as real * b as real;
    assert a as real * d as real == (a * d) as real && c as real * b as real == (c * b) as real;
    if x > y { assert (x - y) * m > 0.0; }
    if x <= y { assert (y - x) * m >= 0.0; }
  }

  lemma LikenessIs(a: set<string>, b: set<string>)
    ensures var r := Similarity(a, b); r.Valid() && Likeness(a, b) == r.common as real / r.all as real
  {}

  lemma MoreAlikeIff(a: set<string>, b: set<string>, c: set<string>)
    ensures Similarity(a, b).Above(Similarity(a, c)) <==> Likeness(a, b) > Likeness(a, c)
  {
    var r, s := Similarity(a, b), Similarity(a, c);
    LikenessIs(a, b);
    LikenessIs(a, c);
    Quotients(r.common, r.all, s.common, s.all);
  }

  lemma AlikeIff(a: set<string>, b: set<string>)
    ensures Similarity(a, b).AtLeastThreeFifths() <==> Likeness(a, b) >= 0.6
  {
    var r := Similarity(a, b);
    LikenessIs(a, b);
    Quotients(3, 5, r.common, r.all);
    assert 3 as real / 5 as real == 0.6;
  }

  // ---------------------------------------------------------------------
  // One commit

  lemma GoesWhereItBelongs(user: string, scope: string, space: string, c: Candidate)
    ensures BelongsIn(Target(user, scope, space, c), user, scope, space, c)
  {}

  lemma LookupLooksAt(rows: seq<Memory>, cell: Cell, listed: seq<nat>)
    requires Lists(rows, cell, listed)
    ensures LooksAt(rows, cell, listed)
  {
    forall i | 0 <= i < |listed| ensures IsLive(rows, cell, listed[i]) { assert listed[i] in ActiveIds(rows, cell); }
    if |listed| < 20 {
      forall id: nat | IsLive(rows, cell, id) ensures id in listed { assert id in ActiveIds(rows, cell); }
    }
  }

  lemma BestIsClosest(rows: seq<Memory>, listed: seq<nat>, content: Content, id: nat) returns (k: nat)
    requires forall i | 0 <= i < |listed| :: listed[i] < |rows|
    requires IsBest(rows, listed, content, Some(id))
    ensures k < |listed| && listed[k] == id && IsClosest(rows, listed, content, k)
  {
    k :| 0 <= k < |listed|
      && listed[k] == id && Match(rows, content, id).AtLeastThreeFifths()
      && (forall i | 0 <= i < |listed| :: !Match(rows, content, listed[i]).Above(Match(rows, content, id)))
      && (forall i | 0 <= i < k :: !Match(rows, content, listed[i]).AtLeastThreeFifths()
                                   || Match(rows, content, id).Above(Match(rows, content, listed[i])));
    var tokens := content.tokens;
    var best := rows[id].content.tokens;
    AlikeIff(tokens, best);
    forall i | 0 <= i < |listed|
      ensures LikenessOf(rows, content, listed[i]) <= LikenessOf(rows, content, listed[k])
      ensures i < k ==> LikenessOf(rows, content, listed[i]) < LikenessOf(rows, content, listed[k])
    {
      var other := rows[listed[i]].content.tokens;
      MoreAlikeIff(tokens, other, best);
      MoreAlikeIff(tokens, best, other);
      AlikeIff(tokens, other);
      assert !Match(rows, content, listed[i]).Above(Match(rows, content, id));
    }
  }

  lemma NoneIsClose(rows: seq<Memory>, listed: seq<nat>, content: Content)
    requires forall i | 0 <= i < |listed| :: listed[i] < |rows|
    requires IsBest(rows, listed, content, None)
    ensures forall i | 0 <= i < |listed| :: LikenessOf(rows, content, listed[i]) < 0.6
  {
    forall i | 0 <= i < |listed| ensures LikenessOf(rows, content, listed[i]) < 0.6 {
      assert !Match(rows, content, listed[i]).AtLeastThreeFifths();
      AlikeIff(content.tokens, rows[listed[i]].content.tokens);
    }
  }

  lemma AfterMeasuring(rows: seq<Memory>, cell: Cell, content: Content, id: nat)
    requires id < |rows|
    ensures IsMeasured(rows, cell, content, id, AfterCommit(rows, cell, content, Some(id)))
  {
    DigitsAreCounted(content.text);
    DigitsAreCounted(rows[id].content.text);
  }

  /**
   * A commit looks at the live memories of the cell the fact belongs to. If none shares three fifths of its tokens the
   * fact becomes a memory; otherwise it takes the place of the first closest one, unless it carries fewer digits.
   */
  lemma CommitMeansThis(rows: seq<Memory>, user: string, scope: string, space: string, c: Candidate,
                        rows': seq<Memory>)
    requires OneCommit(rows, Target(user, scope, space, c), c.content, rows')
    ensures FactIsCommitted(rows, user, scope, space, c, rows')
  {
    var cell := Target(user, scope, space, c);
    var listed, best :| Lists(rows, cell, listed) && IsBest(rows, listed, c.content, best)
      && rows' == AfterCommit(rows, cell, c.content, best);
    GoesWhereItBelongs(user, scope, space, c);
    LookupLooksAt(rows, cell, listed);
    if best.None? {
      NoneIsClose(rows, listed, c.content);
    } else {
      var k := BestIsClosest(rows, listed, c.content, best.value);
      AfterMeasuring(rows, cell, c.content, best.value);
      assert LikenessOf(rows, c.content, listed[k]) >= 0.6;
    }
    assert IsCommitted(rows, cell, c.content, listed, rows');
  }

  // ---------------------------------------------------------------------
  // A batch, and an archive

  /** The states a loop goes through: one before each item, and one after the last. */
  ghost predicate Chained<S(!new), T(!new)>(step: (S, T, S) -> bool, items: seq<T>, states: seq<S>) {
    && |states| == |items| + 1
    && forall i: nat | i < |items| :: StepAt(step, items, states, i)
  }

  ghost predicate StepAt<S(!new), T(!new)>(step: (S, T, S) -> bool, items: seq<T>, states: seq<S>, i: nat)
    requires i < |items| && i + 1 < |states|
  {
    step(states[i], items[i], states[i + 1])
  }

  lemma ChainedSnoc<S(!new), T(!new)>(step: (S, T, S) -> bool, items: seq<T>, states: seq<S>, last: S)
    requires items != [] && Chained(step, items[..|items| - 1], states)
    requires step(states[|items| - 1], items[|items| - 1], last)
    ensures Chained(step, items, states + [last])
  {
    var n := |items| - 1;
    forall i: nat | i < |items| ensures StepAt(step, items, states + [last], i) {
      if i < n { assert StepAt(step, items[..n], states, i); }
    }
  }

  /** The step holds of every commit of the batch. */
  ghost predicate Covers(step: (seq<Memory>, Candidate, seq<Memory>) -> bool, user: string, scope: string,
                         space: string)
  {
    forall rows, c, rows' | OneCommit(rows, Target(user, scope, space, c), c.content, rows') :: step(rows, c, rows')
  }

  lemma LastFact(step: (seq<Memory>, Candidate, seq<Memory>) -> bool, rows: seq<Memory>, user: string, scope: string,
                 space: string, cs: seq<Candidate>, rows': seq<Memory>)
    returns (mid: seq<Memory>)
    requires Covers(step, user, scope, space)
    requires cs != [] && Committed(rows, user, scope, space, cs, rows')
    ensures Committed(rows, user, scope, space, cs[..|cs| - 1], mid) && step(mid, cs[|cs| - 1], rows')
  {
    var c := cs[|cs| - 1];
    mid :| Committed(rows, user, scope, space, cs[..|cs| - 1], mid)
      && OneCommit(mid, Target(user, scope, space, c), c.content, rows');
  }

  lemma {:induction false} BatchIsChained(step: (seq<Memory>, Candidate, seq<Memory>) -> bool, rows: seq<Memory>,
                                          user: string, scope: string, space: string, cs: seq<Candidate>,
                                          rows': seq<Memory>)
    returns (tables: seq<seq<Memory>>)
    requires Covers(step, user, scope, space) && Committed(rows, user, scope, space, cs, rows')
    ensures Chained(step, cs, tables) && tables[0] == rows && tables[|cs|] == rows'
    decreases |cs|
  {
    if cs == [] {
      tables := [rows];
    } else {
      var mid := LastFact(step, rows, user, scope, space, cs, rows');
      tables := BatchIsChained(step, rows, user, scope, space, cs[..|cs| - 1], mid);
      ChainedSnoc(step, cs, tables, rows');
      tables := tables + [rows'];
    }
  }

  /** A batch commits its facts in the order given, each to the table the one before it left. */
  lemma BatchGoesInOrder(rows: seq<Memory>, user: string, scope: string, space: string, cs: seq<Candidate>,
                         rows': seq<Memory>)
    returns (tables: seq<seq<Memory>>)
    requires Committed(rows, user, scope, space, cs, rows')
    ensures tables != [] && tables[0] == rows && tables[|tables| - 1] == rows'
    ensures Chained((rows, c, rows') => FactIsCommitted(rows, user, scope, space, c, rows'), cs, tables)
  {
    var step := (rows, c, rows') => FactIsCommitted(rows, user, scope, space, c, rows');
    forall before, c, after | OneCommit(before, Target(user, scope, space, c), c.content, after)
      ensures step(before, c, after)
    {
      CommitMeansThis(before, user, scope, space, c, after);
    }
    tables := BatchIsChained(step, rows, user, scope, space, cs, rows');
  }

  // ---------------------------------------------------------------------
  // One await of a commit, whoever else has been at the table

  lemma BeginningChoosesTheCell(w: World, call: nat, user: string, scope: string, space: string, c: Candidate)
    requires Enabled(w, Begin(call, user, scope, space, c))
    ensures var w' := Next(w, Begin(call, user, scope, space, c));
      && w'.rows == w.rows && call in w'.calls && BelongsIn(w'.calls[call].cell, user, scope, space, c)
      && w'.calls == w.calls[call := Call(w'.calls[call].cell, c.content, Seeking)]
  {
    GoesWhereItBelongs(user, scope, space, c);
  }

  /** The fact is dropped for a closest memory with more digits, and created otherwise. */
  lemma LookupDecides(w: World, call: nat, listed: seq<nat>, best: Option<nat>)
    requires Enabled(w, Find(call, listed, best)) && (best.Some? ==> best.value < |w.rows|)
    ensures var w' := Next(w, Find(call, listed, best)); var c := w.calls[call];
      && w'.rows == w.rows && LooksAt(w.rows, c.cell, listed)
      && w'.calls == w.calls[call := Call(c.cell, c.content,
           if best.Some? && |DigitPlaces(c.content.text)| < |DigitPlaces(w.rows[best.value].content.text)|
           then Skipped(best.value) else Creating(best))]
  {
    LookupLooksAt(w.rows, w.calls[call].cell, listed);
    DigitsAreCounted(w.calls[call].content.text);
    if best.Some? { DigitsAreCounted(w.rows[best.value].content.text); }
  }

  /** And for no other: the one found is the first closest, or none is close. */
  lemma LookupFindsTheClosest(w: World, call: nat, listed: seq<nat>, best: Option<nat>)
    requires Enabled(w, Find(call, listed, best))
    ensures forall i | 0 <= i < |listed| :: listed[i] < |w.rows|
    ensures match best
            case None => forall i | 0 <= i < |listed| :: LikenessOf(w.rows, w.calls[call].content, listed[i]) < 0.6
            case Some(id) =>
              exists k: nat :: k < |listed| && listed[k] == id && IsClosest(w.rows, listed, w.calls[call].content, k)
  {
    LookupLooksAt(w.rows, w.calls[call].cell, listed);
    if best.None? {
      NoneIsClose(w.rows, listed, w.calls[call].content);
    } else {
      var k := BestIsClosest(w.rows, listed, w.calls[call].content, best.value);
    }
  }

  lemma CreatingAdds(w: World, call: nat)
    requires Enabled(w, Create(call))
    ensures var w' := Next(w, Create(call)); var c := w.calls[call]; var existing := c.pc.existing;
      && w'.rows == w.rows + [Memory(c.cell, c.content, Active, None)]
      && w'.calls == w.calls[call := Call(c.cell, c.content,
           if existing.Some? then Marking(existing.value, |w.rows|) else Kept(|w.rows|))]
  {}

  lemma MarkingRetires(w: World, call: nat)
    requires Enabled(w, Mark(call))
    ensures var w' := Next(w, Mark(call)); var c := w.calls[call]; var row := w.rows[c.pc.retired];
      && w'.rows == w.rows[c.pc.retired := Memory(row.cell, row.content, Superseded, Some(c.pc.replacement))]
      && w'.calls == w.calls[call := Call(c.cell, c.content, Kept(c.pc.replacement))]
  {}

  /** What a cell is said to have lost to archiving is one memory for each event that archived a live one of it. */
  lemma {:induction false} ArchivesAreCounted(w: World, events: seq<Event>, mid: World, e: Event, cell: Cell)
    requires Run(w, events, mid) && Enabled(mid, e)
    ensures Run(w, events + [e], Next(mid, e)) && ArchivesIn(w, [], w, cell) == 0
    ensures ArchivesIn(w, events + [e], Next(mid, e), cell)
         == ArchivesIn(w, events, mid, cell) + if e.Archive? && IsLive(mid.rows, cell, e.id) then 1 else 0
    decreases |events|
  {
    var all := events + [e];
    if events == [] {
      assert all[0] == e && all[1..] == [];
    } else {
      assert all[0] == events[0] && all[1..] == events[1..] + [e];
      ArchivesAreCounted(Next(w, events[0]), events[1..], mid, e, cell);
    }
  }

  /** Archiving takes a memory out of the live ones and leaves what it says and where it points. */
  lemma ArchiveMarksOnlyThat(w: World, id: nat)
    requires Enabled(w, Archive(id))
    ensures var w' := Next(w, Archive(id));
      && w'.calls == w.calls && |w'.rows| == |w.rows|
      && w'.rows[id] == Memory(w.rows[id].cell, w.rows[id].content, Archived, w.rows[id].supersededBy)
      && forall i | 0 <= i < |w.rows| && i != id :: w'.rows[i] == w.rows[i]
  {}
}
