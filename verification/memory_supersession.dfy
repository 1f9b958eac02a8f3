/**
 * Long-term memories. A commit looks for a similar active memory, and replaces it unless the new one carries fewer
 * digits. Any number of commits and archives run at once, one await at a time.
 */
module MemorySupersession {
  import opened Wrappers
  import opened Text

  datatype Cell = Cell(user: string, scope: string, space: string, kind: string)

  datatype Status = Active | Superseded | Archived

  /** What is remembered; `tokens` is what tokenize answers for it. */
  datatype Content = Content(text: string, tokens: set<string>)

  /** A row's id is its place in the table, in order of creation. */
  datatype Memory = Memory(cell: Cell, content: Content, status: Status, supersededBy: Option<nat>)

  datatype Candidate = Candidate(scope: Option<string>, kind: string, content: Content)

  const PERSONAL := "personal"
  const GENERAL := "general"
  const LOOKUP_LIMIT := 20

  // ---------------------------------------------------------------------
  // Where a candidate goes, and what it resembles

  /** The fact's own scope wins over the batch's. */
  function Target(user: string, scope: string, space: string, c: Candidate): Cell {
    var own := if c.scope.Some? then c.scope.value else scope;
    Cell(user, own, if own == PERSONAL then PERSONAL else if own == scope then space else GENERAL, c.kind)
  }

  function CountDigits(text: string): nat {
    if text == "" then 0 else (if IsDigit(text[0]) then 1 else 0) + CountDigits(text[1..])
  }

  function Digits(c: Content): nat {
    CountDigits(c.text)
  }

  /** A Jaccard similarity as an exact fraction; no tokens on either side counts as none in common. */
  datatype Ratio = Ratio(common: nat, all: nat) {
    ghost predicate Valid() { 0 < all }
    predicate AtLeastThreeFifths() { 5 * common >= 3 * all }
    predicate Above(r: Ratio) { common * r.all > r.common * all }
  }

  function Similarity(a: set<string>, b: set<string>): (r: Ratio)
    ensures r.Valid()
  {
    if a == {} || b == {} then Ratio(0, 1)
    else
      assert a + b != {};
      Ratio(|a * b|, |a + b|)
  }

  method JaccardSimilarity(a: set<string>, b: set<string>) returns (r: Ratio)
    ensures r == Similarity(a, b)
  {
    if |a| == 0 || |b| == 0 { return Ratio(0, 1); }
    var intersection := 0;
    var rest := a;
    while rest != {}
      invariant rest <= a && intersection == |(a - rest) * b|
      decreases |rest|
    {
      var token :| token in rest;
      assert (a - (rest - {token})) * b == (a - rest) * b + ({token} * b);
      assert {token} * b == if token in b then {token} else {};
      if token in b { intersection := intersection + 1; }
      rest := rest - {token};
    }
    assert (a - {}) * b == a * b;
    assert |a + b| == |a| + |b| - |a * b|;
    r := Ratio(intersection, |a| + |b| - intersection);
  }

  // ---------------------------------------------------------------------
  // The lookup

  function ActiveIds(rows: seq<Memory>, cell: Cell): set<nat> {
    set id: nat | id < |rows| && rows[id].cell == cell && rows[id].status == Active
  }

  /** What the database may answer: at most twenty active rows of the cell, all of them when there are fewer. */
  ghost predicate Lists(rows: seq<Memory>, cell: Cell, listed: seq<nat>) {
    && |listed| <= LOOKUP_LIMIT
    && (forall i | 0 <= i < |listed| :: listed[i] in ActiveIds(rows, cell))
    && (forall i, j | 0 <= i < j < |listed| :: listed[i] != listed[j])
    && (|listed| < LOOKUP_LIMIT ==> forall id <- ActiveIds(rows, cell) :: id in listed)
  }

  function Match(rows: seq<Memory>, content: Content, id: nat): Ratio
    requires id < |rows|
  {
    Similarity(content.tokens, rows[id].content.tokens)
  }

  /** The first listed row of the highest similarity, if that is three fifths or more. */
  ghost predicate IsBest(rows: seq<Memory>, listed: seq<nat>, content: Content, best: Option<nat>)
    requires forall i | 0 <= i < |listed| :: listed[i] < |rows|
  {
    match best
    case None => forall i | 0 <= i < |listed| :: !Match(rows, content, listed[i]).AtLeastThreeFifths()
    case Some(id) =>
      exists k | 0 <= k < |listed| ::
        && listed[k] == id && Match(rows, content, id).AtLeastThreeFifths()
        && (forall i | 0 <= i < |listed| :: !Match(rows, content, listed[i]).Above(Match(rows, content, id)))
        && (forall i | 0 <= i < k :: !Match(rows, content, listed[i]).AtLeastThreeFifths()
                                     || Match(rows, content, id).Above(Match(rows, content, listed[i])))
  }

  // ---------------------------------------------------------------------
  // The machine

  datatype Pc =
    | Seeking
    | Creating(existing: Option<nat>)
    | Marking(retired: nat, replacement: nat)
    | Kept(memory: nat)
    | Skipped(richer: nat)

  datatype Call = Call(cell: Cell, content: Content, pc: Pc)

  datatype World = World(rows: seq<Memory>, calls: map<nat, Call>)

  datatype Event =
    | Begin(call: nat, user: string, scope: string, space: string, candidate: Candidate)
    | Find(call: nat, listed: seq<nat>, best: Option<nat>)
    | Create(call: nat)
    | Mark(call: nat)
    | Archive(id: nat)

  ghost predicate Enabled(w: World, e: Event) {
    match e
    case Begin(call, _, _, _, _) => call !in w.calls
    case Find(call, listed, best) =>
      && call in w.calls && w.calls[call].pc == Seeking && Lists(w.rows, w.calls[call].cell, listed)
      && IsBest(w.rows, listed, w.calls[call].content, best)
    case Create(call) => call in w.calls && w.calls[call].pc.Creating?
    case Mark(call) => call in w.calls && w.calls[call].pc.Marking? && w.calls[call].pc.retired < |w.rows|
    case Archive(id) => id < |w.rows|
  }

  function At(w: World, call: nat, pc: Pc): World
    requires call in w.calls
  {
    w.(calls := w.calls[call := w.calls[call].(pc := pc)])
  }

  function AfterFind(rows: seq<Memory>, content: Content, best: Option<nat>): Pc
    requires best.Some? ==> best.value < |rows|
  {
    if best.Some? && Digits(content) < Digits(rows[best.value].content) then Skipped(best.value) else Creating(best)
  }

  function New(cell: Cell, content: Content): Memory {
    Memory(cell, content, Active, None)
  }

  function Next(w: World, e: Event): World
    requires Enabled(w, e)
  {
    match e
    case Begin(call, user, scope, space, c) =>
      w.(calls := w.calls[call := Call(Target(user, scope, space, c), c.content, Seeking)])
    case Find(call, listed, best) => At(w, call, AfterFind(w.rows, w.calls[call].content, best))
    case Create(call) =>
      var c := w.calls[call];
      var id := |w.rows|;
      At(w.(rows := w.rows + [New(c.cell, c.content)]), call,
         if c.pc.existing.Some? then Marking(c.pc.existing.value, id) else Kept(id))
    case Mark(call) =>
      var pc := w.calls[call].pc;
      var retired := w.rows[pc.retired].(status := Superseded, supersededBy := Some(pc.replacement));
      At(w.(rows := w.rows[pc.retired := retired]), call, Kept(pc.replacement))
    case Archive(id) => w.(rows := w.rows[id := w.rows[id].(status := Archived)])
  }

  ghost predicate Run(w: World, events: seq<Event>, w': World)
    decreases |events|
  {
    if events == [] then w == w'
    else Enabled(w, events[0]) && Run(Next(w, events[0]), events[1..], w')
  }

  // ---------------------------------------------------------------------
  // What every run keeps

  /** One row may stand in for another: created later, in the same cell, with no fewer digits. */
  ghost predicate Succeeds(rows: seq<Memory>, earlier: nat, later: nat) {
    && earlier < later < |rows| && rows[earlier].cell == rows[later].cell
    && Digits(rows[earlier].content) <= Digits(rows[later].content)
  }

  ghost predicate InvRow(rows: seq<Memory>, id: nat)
    requires id < |rows|
  {
    && (rows[id].status == Superseded ==> rows[id].supersededBy.Some?)
    && (rows[id].supersededBy.Some? ==> Succeeds(rows, id, rows[id].supersededBy.value))
    && (rows[id].cell.scope == PERSONAL ==> rows[id].cell.space == PERSONAL)
  }

  ghost predicate InvCall(rows: seq<Memory>, c: Call) {
    && (c.cell.scope == PERSONAL ==> c.cell.space == PERSONAL)
    && match c.pc
       case Seeking => true
       case Creating(existing) =>
         existing.Some? ==> (
           && existing.value < |rows| && rows[existing.value].cell == c.cell
           && Digits(rows[existing.value].content) <= Digits(c.content))
       case Marking(retired, replacement) => Succeeds(rows, retired, replacement) && rows[retired].cell == c.cell
       case Kept(memory) => memory < |rows| && rows[memory].cell == c.cell && rows[memory].content == c.content
       case Skipped(richer) =>
         && richer < |rows| && rows[richer].cell == c.cell
         && Digits(c.content) < Digits(rows[richer].content)
  }

  ghost predicate Inv(w: World) {
    && (forall id: nat | id < |w.rows| :: InvRow(w.rows, id))
    && (forall call <- w.calls :: InvCall(w.rows, w.calls[call]))
    && (forall call <- w.calls :: w.calls[call].pc.Marking? ==>
          w.rows[w.calls[call].pc.replacement].content == w.calls[call].content)
  }

  /** Rows keep their cell and content for ever, and are never removed. */
  ghost predicate Keeps(rows: seq<Memory>, rows': seq<Memory>) {
    && |rows| <= |rows'|
    && forall id: nat | id < |rows| :: rows'[id].cell == rows[id].cell && rows'[id].content == rows[id].content
  }

  lemma InvCallStays(rows: seq<Memory>, rows': seq<Memory>, c: Call)
    requires InvCall(rows, c) && Keeps(rows, rows')
    ensures InvCall(rows', c)
  {}

  lemma StepKeeps(w: World, e: Event)
    requires Inv(w) && Enabled(w, e)
    ensures Keeps(w.rows, Next(w, e).rows)
  {}

  lemma StepKeepsRows(w: World, e: Event)
    requires Inv(w) && Enabled(w, e)
    ensures forall id: nat | id < |Next(w, e).rows| :: InvRow(Next(w, e).rows, id)
  {
    var rows' := Next(w, e).rows;
    if e.Mark? { assert InvCall(w.rows, w.calls[e.call]); }
    if e.Create? { assert InvCall(w.rows, w.calls[e.call]); }
    forall id: nat | id < |rows'| ensures InvRow(rows', id) {
      if id < |w.rows| { assert InvRow(w.rows, id); }
    }
  }

  lemma StepKeepsInv(w: World, e: Event)
    requires Inv(w) && Enabled(w, e)
    ensures Inv(Next(w, e)) && Keeps(w.rows, Next(w, e).rows)
  {
    StepKeeps(w, e);
    StepKeepsRows(w, e);
    var w' := Next(w, e);
    forall call | call in w'.calls
      ensures InvCall(w'.rows, w'.calls[call])
      ensures w'.calls[call].pc.Marking? ==> w'.rows[w'.calls[call].pc.replacement].content == w'.calls[call].content
    {
      if call in w.calls {
        assert InvCall(w.rows, w.calls[call]);
        InvCallStays(w.rows, w'.rows, w.calls[call]);
      }
    }
  }

  lemma {:induction false} RunKeepsInv(w: World, events: seq<Event>, w': World)
    requires Inv(w) && Run(w, events, w')
    ensures Inv(w') && Keeps(w.rows, w'.rows)
    decreases |events|
  {
    if events != [] {
      StepKeepsInv(w, events[0]);
      RunKeepsInv(Next(w, events[0]), events[1..], w');
    }
  }

  /** Following the pointers from a row. Each leads to a later row, so this ends. */
  ghost function Head(rows: seq<Memory>, id: nat): (head: nat)
    requires id < |rows| && forall k: nat | k < |rows| :: InvRow(rows, k)
    ensures id <= head < |rows| && rows[head].supersededBy.None?
    decreases |rows| - id
  {
    assert InvRow(rows, id);
    if rows[id].supersededBy.None? then id else Head(rows, rows[id].supersededBy.value)
  }

  lemma {:induction false} HeadKeepsDetail(rows: seq<Memory>, id: nat)
    requires id < |rows| && forall k: nat | k < |rows| :: InvRow(rows, k)
    ensures var head := Head(rows, id);
      && rows[head].status != Superseded && rows[head].cell == rows[id].cell
      && Digits(rows[id].content) <= Digits(rows[head].content)
    decreases |rows| - id
  {
    assert InvRow(rows, id);
    if rows[id].supersededBy.Some? { HeadKeepsDetail(rows, rows[id].supersededBy.value); }
  }

  /**
   * However commits and archives interleave, every memory ever stored leads, through later and later rows of its own
   * cell, to one that is not superseded and carries at least as many digits.
   */
  lemma DetailIsNeverLost(events: seq<Event>, w: World, id: nat)
    requires Run(World([], map[]), events, w) && id < |w.rows|
    ensures forall k: nat | k < |w.rows| :: InvRow(w.rows, k)
    ensures var head := Head(w.rows, id);
      && id <= head < |w.rows| && w.rows[head].status != Superseded && w.rows[head].cell == w.rows[id].cell
      && Digits(w.rows[id].content) <= Digits(w.rows[head].content)
  {
    RunKeepsInv(World([], map[]), events, w);
    HeadKeepsDetail(w.rows, id);
  }

  /** A finished commit left the candidate's detail in its cell: the memory itself, or one with more digits. */
  lemma FinishedCommitIsCovered(events: seq<Event>, w: World, call: nat)
    requires Run(World([], map[]), events, w) && call in w.calls
    requires w.calls[call].pc.Kept? || w.calls[call].pc.Skipped?
    ensures exists id: nat ::
      && id < |w.rows| && w.rows[id].cell == w.calls[call].cell
      && (w.rows[id].content == w.calls[call].content || Digits(w.calls[call].content) < Digits(w.rows[id].content))
  {
    RunKeepsInv(World([], map[]), events, w);
    assert InvCall(w.rows, w.calls[call]);
    var id := if w.calls[call].pc.Kept? then w.calls[call].pc.memory else w.calls[call].pc.richer;
    assert id < |w.rows|;
  }

  // ---------------------------------------------------------------------
  // How many memories stay active

  /** Commits of this cell that have created a replacement and not yet retired the old row. */
  function MarkingCalls(w: World, cell: Cell): set<nat> {
    set call | call in w.calls && w.calls[call].cell == cell && w.calls[call].pc.Marking?
  }

  function Balance(w: World, cell: Cell): int {
    |ActiveIds(w.rows, cell)| - |MarkingCalls(w, cell)|
  }

  /** The event archives a row that is active in this cell. */
  predicate ArchivesFrom(w: World, e: Event, cell: Cell) {
    e.Archive? && e.id in ActiveIds(w.rows, cell)
  }

  /** How often a run does. */
  ghost function ArchivesIn(w: World, events: seq<Event>, w': World, cell: Cell): nat
    requires Run(w, events, w')
    decreases |events|
  {
    if events == [] then 0
    else (if ArchivesFrom(w, events[0], cell) then 1 else 0) + ArchivesIn(Next(w, events[0]), events[1..], w', cell)
  }

  lemma OneLess(s: set<nat>, t: set<nat>, x: nat)
    requires s - {x} <= t
    ensures |t| >= |s| - 1
  {
    if x in s { assert |s - {x}| == |s| - 1; } else { assert s - {x} == s; }
    Subset(s - {x}, t);
  }

  lemma {:induction false} Subset(s: set<nat>, t: set<nat>)
    requires s <= t
    ensures |s| <= |t|
    decreases |s|
  {
    if s != {} {
      var x :| x in s;
      Subset(s - {x}, t - {x});
    }
  }

  lemma CreatedIsActive(rows: seq<Memory>, m: Memory, cell: Cell)
    requires m.status == Active
    ensures |ActiveIds(rows + [m], cell)| == |ActiveIds(rows, cell)| + if m.cell == cell then 1 else 0
  {
    var a, a' := ActiveIds(rows, cell), ActiveIds(rows + [m], cell);
    if m.cell == cell {
      assert a' == a + {|rows|} && |rows| !in a;
    } else {
      assert a' == a;
    }
  }

  lemma CreateKeepsBalance(w: World, call: nat, cell: Cell)
    requires Enabled(w, Create(call))
    ensures Balance(Next(w, Create(call)), cell) >= Balance(w, cell)
  {
    var c := w.calls[call];
    CreatedIsActive(w.rows, New(c.cell, c.content), cell);
    var m, m' := MarkingCalls(w, cell), MarkingCalls(Next(w, Create(call)), cell);
    assert m' == if c.cell == cell && c.pc.existing.Some? then m + {call} else m;
  }

  lemma MarkKeepsBalance(w: World, call: nat, cell: Cell)
    requires Enabled(w, Mark(call)) && InvCall(w.rows, w.calls[call])
    ensures Balance(Next(w, Mark(call)), cell) >= Balance(w, cell)
  {
    var w' := Next(w, Mark(call));
    var a, a' := ActiveIds(w.rows, cell), ActiveIds(w'.rows, cell);
    var m, m' := MarkingCalls(w, cell), MarkingCalls(w', cell);
    var retired := w.calls[call].pc.retired;
    if w.calls[call].cell == cell {
      assert m' == m - {call} && call in m && a - {retired} <= a';
      OneLess(a, a', retired);
    } else {
      assert a' == a && m' == m;
    }
  }

  lemma ArchiveKeepsBalance(w: World, id: nat, cell: Cell)
    requires Enabled(w, Archive(id))
    ensures Balance(Next(w, Archive(id)), cell) == Balance(w, cell) - if id in ActiveIds(w.rows, cell) then 1 else 0
  {
    var w' := Next(w, Archive(id));
    assert MarkingCalls(w', cell) == MarkingCalls(w, cell);
    assert ActiveIds(w'.rows, cell) == ActiveIds(w.rows, cell) - {id};
  }

  lemma StepKeepsBalance(w: World, e: Event, cell: Cell)
    requires Inv(w) && Enabled(w, e)
    ensures Balance(Next(w, e), cell) >= Balance(w, cell) - if ArchivesFrom(w, e, cell) then 1 else 0
  {
    match e
    case Archive(id) => ArchiveKeepsBalance(w, id, cell);
    case Create(call) => CreateKeepsBalance(w, call, cell);
    case Mark(call) =>
      assert InvCall(w.rows, w.calls[call]);
      MarkKeepsBalance(w, call, cell);
    case _ =>
      assert ActiveIds(Next(w, e).rows, cell) == ActiveIds(w.rows, cell);
      assert MarkingCalls(Next(w, e), cell) == MarkingCalls(w, cell);
  }

  lemma {:induction false} RunKeepsBalance(w: World, events: seq<Event>, w': World, cell: Cell)
    requires Inv(w) && Run(w, events, w')
    ensures Balance(w', cell) >= Balance(w, cell) - ArchivesIn(w, events, w', cell)
    decreases |events|
  {
    if events != [] {
      StepKeepsInv(w, events[0]);
      StepKeepsBalance(w, events[0], cell);
      RunKeepsBalance(Next(w, events[0]), events[1..], w', cell);
    }
  }

  /** Between two moments when no commit is halfway, a cell loses at most what was archived from it while active. */
  lemma CommitsNeverShrinkACell(w: World, events: seq<Event>, w': World, cell: Cell)
    requires Inv(w) && Run(w, events, w') && MarkingCalls(w, cell) == {} && MarkingCalls(w', cell) == {}
    ensures |ActiveIds(w'.rows, cell)| >= |ActiveIds(w.rows, cell)| - ArchivesIn(w, events, w', cell)
  {
    RunKeepsBalance(w, events, w', cell);
  }

  predicate OnlyCommits(events: seq<Event>) {
    forall e <- events :: !e.Archive?
  }

  lemma {:induction false} CommitsArchiveNothing(w: World, events: seq<Event>, w': World, cell: Cell)
    requires Run(w, events, w') && OnlyCommits(events)
    ensures ArchivesIn(w, events, w', cell) == 0
    decreases |events|
  {
    if events != [] {
      assert events[0] in events;
      CommitsArchiveNothing(Next(w, events[0]), events[1..], w', cell);
    }
  }

  // ---------------------------------------------------------------------
  // Commits run one after the other

  function AfterCommit(rows: seq<Memory>, cell: Cell, content: Content, best: Option<nat>): seq<Memory>
    requires best.Some? ==> best.value < |rows|
  {
    if AfterFind(rows, content, best).Skipped? then rows
    else
      var grown := rows + [New(cell, content)];
      if best.None? then grown
      else grown[best.value := rows[best.value].(status := Superseded, supersededBy := Some(|rows|))]
  }

  ghost predicate OneCommit(rows: seq<Memory>, cell: Cell, content: Content, rows': seq<Memory>) {
    exists listed, best ::
      && Lists(rows, cell, listed) && IsBest(rows, listed, content, best)
      && rows' == AfterCommit(rows, cell, content, best)
  }

  ghost predicate Committed(rows: seq<Memory>, user: string, scope: string, space: string, cs: seq<Candidate>,
                            rows': seq<Memory>)
    decreases |cs|
  {
    if cs == [] then rows == rows'
    else
      var c := cs[|cs| - 1];
      exists mid :: Committed(rows, user, scope, space, cs[..|cs| - 1], mid)
                    && OneCommit(mid, Target(user, scope, space, c), c.content, rows')
  }

  datatype Error = NotFound | Forbidden

  class Memories {
    var rows: seq<Memory>

    constructor ()
      ensures rows == []
    {
      rows := [];
    }

    method ListActive(cell: Cell) returns (listed: seq<nat>)
      ensures Lists(rows, cell, listed)
    {
      listed := [];
      for id := 0 to |rows|
        invariant |listed| <= LOOKUP_LIMIT
        invariant forall i | 0 <= i < |listed| :: listed[i] < id && listed[i] in ActiveIds(rows, cell)
        invariant forall i, j | 0 <= i < j < |listed| :: listed[i] != listed[j]
        invariant |listed| < LOOKUP_LIMIT ==> forall k <- ActiveIds(rows, cell) :: k < id ==> k in listed
      {
        if |listed| < LOOKUP_LIMIT && rows[id].cell == cell && rows[id].status == Active {
          listed := listed + [id];
        }
      }
    }

    method FindSupersessionCandidate(cell: Cell, content: Content) returns (best: Option<nat>, ghost listed: seq<nat>)
      ensures Lists(rows, cell, listed) && IsBest(rows, listed, content, best)
      ensures best.Some? ==> best.value < |rows|
    {
      var candidates := ListActive(cell);
      listed := candidates;
      best := None;
      var bestOverlap := Ratio(0, 1);
      for i := 0 to |candidates|
        invariant IsBest(rows, candidates[..i], content, best)
        invariant best.Some? ==> best.value < |rows| && bestOverlap == Match(rows, content, best.value)
      {
        var id := candidates[i];
        var overlap := JaccardSimilarity(content.tokens, rows[id].content.tokens);
        assert candidates[..i + 1][..i] == candidates[..i] && candidates[..i + 1][i] == id;
        BestSoFar(rows, candidates[..i], id, content, best);
        assert candidates[..i] + [id] == candidates[..i + 1];
        if overlap.AtLeastThreeFifths() && (best.None? || overlap.Above(bestOverlap)) {
          best, bestOverlap := Some(id), overlap;
        }
      }
      assert candidates[..|candidates|] == candidates;
    }

    method Archive(user: string, id: nat) returns (r: Result<Memory, Error>)
      modifies this
      ensures id >= |old(rows)| ==> r == Err(NotFound) && rows == old(rows)
      ensures id < |old(rows)| && old(rows)[id].cell.user != user ==> r == Err(Forbidden) && rows == old(rows)
      ensures id < |old(rows)| && old(rows)[id].cell.user == user ==>
                Enabled(World(old(rows), map[]), Event.Archive(id))
                && rows == Next(World(old(rows), map[]), Event.Archive(id)).rows && r == Ok(rows[id])
    {
      if id >= |rows| { return Err(NotFound); }
      if rows[id].cell.user != user { return Err(Forbidden); }
      rows := rows[id := rows[id].(status := Archived)];
      r := Ok(rows[id]);
    }

    method CommitCandidate(user: string, scope: string, space: string, c: Candidate)
      modifies this
      ensures OneCommit(old(rows), Target(user, scope, space, c), c.content, rows)
    {
      var cell := Target(user, scope, space, c);
      var existing, listed := FindSupersessionCandidate(cell, c.content);
      ghost var before := rows;
      if existing.Some? && CountDigits(c.content.text) < CountDigits(rows[existing.value].content.text) {
      } else if existing.Some? {
        var replacement := |rows|;
        rows := rows + [Memory(cell, c.content, Active, None)];
        rows := rows[existing.value := rows[existing.value].(status := Superseded, supersededBy := Some(replacement))];
      } else {
        rows := rows + [Memory(cell, c.content, Active, None)];
      }
      assert rows == AfterCommit(before, cell, c.content, existing);
    }

    method CommitCandidates(user: string, scope: string, space: string, candidates: seq<Candidate>)
      modifies this
      ensures Committed(old(rows), user, scope, space, candidates, rows)
    {
      for i := 0 to |candidates|
        invariant Committed(old(rows), user, scope, space, candidates[..i], rows)
      {
        ghost var mid := rows;
        CommitCandidate(user, scope, space, candidates[i]);
        assert candidates[..i + 1] == candidates[..i] + [candidates[i]];
        CommittedSnoc(old(rows), user, scope, space, candidates[..i], mid, candidates[i], rows);
      }
      assert candidates[..|candidates|] == candidates;
    }
  }

  lemma CommittedSnoc(rows: seq<Memory>, user: string, scope: string, space: string, cs: seq<Candidate>,
                      mid: seq<Memory>, c: Candidate, rows': seq<Memory>)
    requires Committed(rows, user, scope, space, cs, mid)
      && OneCommit(mid, Target(user, scope, space, c), c.content, rows')
    ensures Committed(rows, user, scope, space, cs + [c], rows')
  {
    var all := cs + [c];
    assert all[..|all| - 1] == cs && all[|all| - 1] == c;
    assert Committed(rows, user, scope, space, all[..|all| - 1], mid);
  }

  /** One round of the loop in FindSupersessionCandidate. */
  lemma BestSoFar(rows: seq<Memory>, done: seq<nat>, id: nat, content: Content, best: Option<nat>)
    requires id < |rows| && (forall i | 0 <= i < |done| :: done[i] < |rows|) && IsBest(rows, done, content, best)
    ensures best.Some? ==> best.value < |rows|
    ensures var overlap := Match(rows, content, id);
      IsBest(rows, done + [id], content,
             if overlap.AtLeastThreeFifths() && (best.None? || overlap.Above(Match(rows, content, best.value)))
             then Some(id)
             else best)
  {
    var all := done + [id];
    var overlap := Match(rows, content, id);
    if overlap.AtLeastThreeFifths() && (best.None? || overlap.Above(Match(rows, content, best.value))) {
      assert all[|done|] == id;
      forall i | 0 <= i < |done|
        ensures !Match(rows, content, all[i]).Above(overlap)
        ensures !Match(rows, content, all[i]).AtLeastThreeFifths() || overlap.Above(Match(rows, content, all[i]))
      {
        var r := Match(rows, content, done[i]);
        if best.Some? {
          AboveIsTransitive(r, Match(rows, content, best.value), overlap);
        } else {
          LowIsBelowHigh(r, overlap);
        }
      }
    } else if best.Some? {
      var k :| 0 <= k < |done| && done[k] == best.value
        && Match(rows, content, best.value).AtLeastThreeFifths()
        && (forall i | 0 <= i < |done| :: !Match(rows, content, done[i]).Above(Match(rows, content, best.value)))
        && (forall i | 0 <= i < k :: !Match(rows, content, done[i]).AtLeastThreeFifths()
                                     || Match(rows, content, best.value).Above(Match(rows, content, done[i])));
      assert all[k] == best.value;
      if !overlap.AtLeastThreeFifths() { LowIsBelowHigh(overlap, Match(rows, content, best.value)); }
    }
  }

  lemma AboveIsTransitive(low: Ratio, mid: Ratio, high: Ratio)
    requires low.Valid() && mid.Valid() && high.Valid() && !low.Above(mid) && high.Above(mid)
    ensures high.Above(low) && !low.Above(high)
  {
    CrossMultiply(low.common, low.all, mid.common, mid.all, high.common, high.all);
  }

  /** a/b <= c/d <= e/f, not both equal. */
  lemma CrossMultiply(a: nat, b: nat, c: nat, d: nat, e: nat, f: nat)
    requires b > 0 && d > 0 && f > 0 && a * d <= c * b && e * d >= c * f && (a * d < c * b || e * d > c * f)
    ensures a * f < e * b
  {
    var ad, cb, cf, ed := a * d, c * b, c * f, e * d;
    Times(ad, cb, f);
    Times(cf, ed, b);
    if ad < cb { Times(ad + 1, cb, f); assert (ad + 1) * f == ad * f + f; }
    if cf < ed { Times(cf + 1, ed, b); assert (cf + 1) * b == cf * b + b; }
    Swap(c, b, f);
    Swap(a, d, f);
    Swap(e, d, b);
    if a * f >= e * b { Times(e * b, a * f, d); }
  }

  lemma Swap(x: nat, y: nat, z: nat)
    ensures (x * y) * z == (x * z) * y
  {}

  lemma Times(x: nat, y: nat, k: nat)
    requires x <= y
    ensures x * k <= y * k
  {}

  lemma LowIsBelowHigh(low: Ratio, high: Ratio)
    requires low.Valid() && high.Valid() && !low.AtLeastThreeFifths() && high.AtLeastThreeFifths()
    ensures high.Above(low) && !low.Above(high)
  {
    CrossMultiply(low.common, low.all, 3, 5, high.common, high.all);
  }

  // ---------------------------------------------------------------------
  // Lone commits are runs

  lemma {:induction false} RunConcat(w: World, a: seq<Event>, mid: World, b: seq<Event>, w': World)
    requires Run(w, a, mid) && Run(mid, b, w')
    ensures Run(w, a + b, w')
    decreases |a|
  {
    if a == [] {
      assert a + b == b;
    } else {
      RunConcat(Next(w, a[0]), a[1..], mid, b, w');
      assert (a + b)[1..] == a[1..] + b;
    }
  }

  lemma RunCons(w: World, e: Event, es: seq<Event>, w': World) returns (events: seq<Event>)
    requires Enabled(w, e) && Run(Next(w, e), es, w') && !e.Archive? && OnlyCommits(es)
    ensures Run(w, events, w') && OnlyCommits(events)
  {
    events := [e] + es;
    assert events[1..] == es;
  }

  /** The rest of a call that is to create a memory. */
  lemma CreatingEnds(w: World, call: nat, cell: Cell, content: Content, best: Option<nat>)
    returns (events: seq<Event>, w': World)
    requires call in w.calls && w.calls[call] == Call(cell, content, Creating(best))
    requires best.Some? ==> best.value < |w.rows|
    ensures Run(w, events, w') && OnlyCommits(events)
    ensures w' == World(
        if best.None? then w.rows + [New(cell, content)]
        else (w.rows + [New(cell, content)])
          [best.value := w.rows[best.value].(status := Superseded, supersededBy := Some(|w.rows|))],
        w.calls[call := Call(cell, content, Kept(|w.rows|))])
  {
    var w1 := Next(w, Create(call));
    if best.None? {
      w' := w1;
      events := RunCons(w, Create(call), [], w');
    } else {
      w' := Next(w1, Mark(call));
      events := RunCons(w1, Mark(call), [], w');
      events := RunCons(w, Create(call), events, w');
    }
  }

  lemma LoneCommitIsARun(w: World, call: nat, user: string, scope: string, space: string, c: Candidate,
                         rows': seq<Memory>)
    returns (events: seq<Event>, w': World)
    requires call !in w.calls && OneCommit(w.rows, Target(user, scope, space, c), c.content, rows')
    ensures Run(w, events, w') && w'.rows == rows' && OnlyCommits(events)
    ensures exists done: Call :: !done.pc.Marking? && w'.calls == w.calls[call := done]
  {
    var cell := Target(user, scope, space, c);
    var listed, best :| Lists(w.rows, cell, listed) && IsBest(w.rows, listed, c.content, best)
      && rows' == AfterCommit(w.rows, cell, c.content, best);
    var begin, find := Begin(call, user, scope, space, c), Find(call, listed, best);
    var w1 := Next(w, begin);
    var w2 := Next(w1, find);
    var pc := AfterFind(w.rows, c.content, best);
    assert w2 == World(w.rows, w.calls[call := Call(cell, c.content, pc)]);
    if pc.Creating? {
      events, w' := CreatingEnds(w2, call, cell, c.content, best);
      assert w'.calls == w.calls[call := Call(cell, c.content, Kept(|w.rows|))];
    } else {
      events, w' := [], w2;
    }
    events := RunCons(w1, find, events, w');
    events := RunCons(w, begin, events, w');
  }

  /** No commit is halfway, and the call ids from `next` on are unused. */
  ghost predicate Quiet(w: World, next: nat) {
    forall call <- w.calls :: call < next && !w.calls[call].pc.Marking?
  }

  lemma {:induction false} BatchIsARun(w: World, next: nat, user: string, scope: string, space: string,
                                       cs: seq<Candidate>, rows': seq<Memory>)
    returns (events: seq<Event>, w': World)
    requires Quiet(w, next) && Committed(w.rows, user, scope, space, cs, rows')
    ensures Run(w, events, w') && w'.rows == rows' && OnlyCommits(events) && Quiet(w', next + |cs|)
    decreases |cs|
  {
    if cs == [] {
      events, w' := [], w;
    } else {
      var n := |cs| - 1;
      var mid :| Committed(w.rows, user, scope, space, cs[..n], mid)
        && OneCommit(mid, Target(user, scope, space, cs[n]), cs[n].content, rows');
      var before, between := BatchIsARun(w, next, user, scope, space, cs[..n], mid);
      var after;
      after, w' := LoneCommitIsARun(between, next + n, user, scope, space, cs[n], rows');
      RunConcat(w, before, between, after, w');
      events := before + after;
    }
  }

  /** So a batch on its own keeps every row's chain sound and shrinks no cell. */
  lemma BatchKeepsMemories(rows: seq<Memory>, user: string, scope: string, space: string, cs: seq<Candidate>,
                           rows': seq<Memory>, cell: Cell)
    requires Inv(World(rows, map[])) && Committed(rows, user, scope, space, cs, rows')
    ensures Inv(World(rows', map[])) && Keeps(rows, rows')
    ensures |ActiveIds(rows', cell)| >= |ActiveIds(rows, cell)|
  {
    var w := World(rows, map[]);
    var events, w' := BatchIsARun(w, 0, user, scope, space, cs, rows');
    RunKeepsInv(w, events, w');
    assert MarkingCalls(w, cell) == {} == MarkingCalls(w', cell);
    CommitsNeverShrinkACell(w, events, w', cell);
    CommitsArchiveNothing(w, events, w', cell);
  }
}
