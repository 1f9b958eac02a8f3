/**
 * The essential profile facts: rows are only ever added or marked, yet the active ones behave as a map from user and
 * lower-cased key to a value and a confidence. Calls run one at a time.
 */
module ProfileFacts {
  import opened Wrappers
  import opened Text

  datatype Status = Active | Superseded | Archived

  /** A row's id is its place in the table, in order of creation. */
  datatype Fact = Fact(user: string, key: string, value: string, confidence: real, status: Status,
                       supersededBy: Option<nat>)

  datatype Key = Key(user: string, key: string)
  datatype Entry = Entry(value: string, confidence: real)

  type Facts = map<Key, Entry>

  /** Keys are compared without case. */
  function KeyOf(user: string, key: string): Key {
    Key(user, ToLower(key))
  }

  predicate SameValue(a: string, b: string) {
    ToLower(Trim(a)) == ToLower(Trim(b))
  }

  function Max(a: real, b: real): real {
    if a < b then b else a
  }

  /**
   * What an upsert does to the map: a repeated value keeps its
   * wording and can only gain confidence, another replaces it.
   */
  function Upserted(facts: Facts, k: Key, e: Entry): Facts {
    if k in facts && SameValue(facts[k].value, e.value) then
      facts[k := Entry(facts[k].value, Max(facts[k].confidence, e.confidence))]
    else facts[k := e]
  }

  // ---------------------------------------------------------------------
  // The table

  ghost predicate ActiveAt(rows: seq<Fact>, id: nat, k: Key) {
    id < |rows| && rows[id].status == Active && KeyOf(rows[id].user, rows[id].key) == k
  }

  /** The active rows hold each entry of the map once; a superseded row points to a later one with its key. */
  ghost predicate Holds(rows: seq<Fact>, facts: Facts) {
    && (forall id: nat, k | ActiveAt(rows, id, k) ::
        k in facts && facts[k] == Entry(rows[id].value, rows[id].confidence))
    && (forall k <- facts :: exists id: nat :: ActiveAt(rows, id, k))
    && (forall i: nat, j: nat, k | ActiveAt(rows, i, k) && ActiveAt(rows, j, k) :: i == j)
    && (forall id: nat | id < |rows| :: Points(rows, id))
  }

  ghost predicate Points(rows: seq<Fact>, id: nat)
    requires id < |rows|
  {
    && (rows[id].status == Superseded ==> rows[id].supersededBy.Some?)
    && (rows[id].supersededBy.Some? ==>
          && id < rows[id].supersededBy.value < |rows|
          && var next := rows[rows[id].supersededBy.value];
             KeyOf(next.user, next.key) == KeyOf(rows[id].user, rows[id].key))
  }

  lemma AddedHolds(rows: seq<Fact>, facts: Facts, f: Fact)
    requires Holds(rows, facts) && f.status == Active && f.supersededBy == None && KeyOf(f.user, f.key) !in facts
    ensures Holds(rows + [f], facts[KeyOf(f.user, f.key) := Entry(f.value, f.confidence)])
  {
    var rows' := rows + [f];
    forall id: nat, k | ActiveAt(rows', id, k) ensures id == |rows| || ActiveAt(rows, id, k) {}
    forall k | k in facts ensures exists id: nat :: ActiveAt(rows', id, k) {
      var id: nat :| ActiveAt(rows, id, k);
      assert ActiveAt(rows', id, k);
    }
    assert ActiveAt(rows', |rows|, KeyOf(f.user, f.key));
    forall id: nat | id < |rows'| ensures Points(rows', id) {
      if id < |rows| { assert Points(rows, id); }
    }
  }

  /** A row that stops being active takes its entry with it. */
  lemma RetiredHolds(rows: seq<Fact>, facts: Facts, id: nat, f: Fact)
    requires Holds(rows, facts) && id < |rows| && rows[id].status == Active && f.status != Active
    requires f.user == rows[id].user && f.key == rows[id].key && Points(rows[id := f], id)
    ensures Holds(rows[id := f], facts - {KeyOf(f.user, f.key)})
  {
    var gone := KeyOf(f.user, f.key);
    var rows' := rows[id := f];
    assert ActiveAt(rows, id, gone);
    forall j: nat, k | ActiveAt(rows', j, k) ensures ActiveAt(rows, j, k) && j != id {}
    forall k | k in facts - {gone} ensures exists j: nat :: ActiveAt(rows', j, k) {
      var j: nat :| ActiveAt(rows, j, k);
      assert ActiveAt(rows', j, k);
    }
    forall j: nat | j < |rows'| ensures Points(rows', j) {
      if j != id { assert Points(rows, j); }
    }
  }

  lemma RaisedHolds(rows: seq<Fact>, facts: Facts, id: nat, confidence: real)
    requires Holds(rows, facts) && id < |rows| && rows[id].status == Active
    ensures Holds(rows[id := rows[id].(confidence := confidence)],
                  facts[KeyOf(rows[id].user, rows[id].key) := Entry(rows[id].value, confidence)])
  {
    var rows' := rows[id := rows[id].(confidence := confidence)];
    forall j: nat, k ensures ActiveAt(rows', j, k) <==> ActiveAt(rows, j, k) {}
    assert ActiveAt(rows, id, KeyOf(rows[id].user, rows[id].key));
    forall j: nat | j < |rows'| ensures Points(rows', j) { assert Points(rows, j); }
  }

  // ---------------------------------------------------------------------
  // The service

  class ProfileFactsService {
    var rows: seq<Fact>
    ghost var facts: Facts

    ghost predicate Valid()
      reads this
    {
      Holds(rows, facts)
    }

    constructor ()
      ensures Valid() && facts == map[]
    {
      rows, facts := [], map[];
    }

    method FindActive(user: string, key: string) returns (found: Option<nat>)
      requires Valid()
      ensures found.Some? <==> KeyOf(user, key) in facts
      ensures found.Some? ==> ActiveAt(rows, found.value, KeyOf(user, key))
    {
      found := None;
      for id := 0 to |rows|
        invariant forall i: nat | i < id :: !ActiveAt(rows, i, KeyOf(user, key))
      {
        if rows[id].status == Active && rows[id].user == user && ToLower(rows[id].key) == ToLower(key) {
          assert ActiveAt(rows, id, KeyOf(user, key));
          return Some(id);
        }
      }
    }

    method UpsertEssential(user: string, key: string, value: string, confidence: real) returns (row: Fact)
      requires Valid()
      modifies this
      ensures Valid() && facts == Upserted(old(facts), KeyOf(user, key), Entry(value, confidence))
      ensures row.status == Active && KeyOf(row.user, row.key) == KeyOf(user, key)
      ensures facts[KeyOf(user, key)] == Entry(row.value, row.confidence)
      ensures |rows| >= |old(rows)|
    {
      ghost var k := KeyOf(user, key);
      var existing := FindActive(user, key);
      if existing.None? {
        row := Fact(user, key, value, confidence, Active, None);
        AddedHolds(rows, facts, row);
        rows := rows + [row];
        facts := facts[k := Entry(value, confidence)];
        return;
      }
      var id := existing.value;
      if SameValue(rows[id].value, value) {
        var raised := Max(rows[id].confidence, confidence);
        RaisedHolds(rows, facts, id, raised);
        facts := facts[k := Entry(rows[id].value, raised)];
        rows := rows[id := rows[id].(confidence := raised)];
        row := rows[id];
        return;
      }
      row := Fact(user, key, value, confidence, Active, None);
      var replacement := |rows|;
      ghost var before := facts;
      ReplacedHolds(rows, facts, id, row);
      rows := rows + [row];
      rows := rows[id := rows[id].(status := Superseded, supersededBy := Some(replacement))];
      facts := facts[k := Entry(value, confidence)];
    }

    method ArchiveEssentialByKey(user: string, key: string) returns (row: Option<Fact>)
      requires Valid()
      modifies this
      ensures Valid() && facts == old(facts) - {KeyOf(user, key)}
      ensures row.Some? <==> KeyOf(user, key) in old(facts)
      ensures row.Some? ==>
        row.value.status == Archived && old(facts)[KeyOf(user, key)] == Entry(row.value.value, row.value.confidence)
      ensures |rows| == |old(rows)|
    {
      var existing := FindActive(user, key);
      if existing.None? { return None; }
      var id := existing.value;
      var archived := rows[id].(status := Archived);
      assert Points(rows, id);
      RetiredHolds(rows, facts, id, archived);
      rows := rows[id := archived];
      facts := facts - {KeyOf(user, key)};
      row := Some(archived);
    }
  }

  /** Adding the replacement and retiring the old row, which now points to it. */
  lemma ReplacedHolds(rows: seq<Fact>, facts: Facts, id: nat, f: Fact)
    requires Holds(rows, facts) && ActiveAt(rows, id, KeyOf(f.user, f.key)) && f.status == Active
      && f.supersededBy == None
    ensures var retired := rows[id].(status := Superseded, supersededBy := Some(|rows|));
      Holds((rows + [f])[id := retired], facts[KeyOf(f.user, f.key) := Entry(f.value, f.confidence)])
  {
    var k := KeyOf(f.user, f.key);
    var retired := rows[id].(status := Superseded, supersededBy := Some(|rows|));
    var rows' := (rows + [f])[id := retired];
    forall j: nat, c | ActiveAt(rows', j, c) ensures j == |rows| || (ActiveAt(rows, j, c) && j != id) {}
    var facts' := facts[k := Entry(f.value, f.confidence)];
    forall c | c in facts' ensures exists j: nat :: ActiveAt(rows', j, c) {
      if c == k {
        assert ActiveAt(rows', |rows|, c);
      } else {
        var j: nat :| ActiveAt(rows, j, c);
        assert ActiveAt(rows', j, c);
      }
    }
    forall j: nat | j < |rows'| ensures Points(rows', j) {
      if j < |rows| { assert Points(rows, j); }
    }
  }

  // ---------------------------------------------------------------------
  // What teaching does over time

  function Taught(facts: Facts, k: Key, lessons: seq<Entry>): Facts {
    if lessons == [] then facts else Upserted(Taught(facts, k, lessons[..|lessons| - 1]), k, lessons[|lessons| - 1])
  }

  /**
   * Repeating a value in whatever case and spacing keeps its
   * first wording, and its confidence is the highest ever given.
   */
  lemma {:induction false} RepeatingOnlyRaisesConfidence(facts: Facts, k: Key, lessons: seq<Entry>)
    requires k in facts && forall i | 0 <= i < |lessons| :: SameValue(facts[k].value, lessons[i].value)
    ensures Taught(facts, k, lessons) == facts[k := Entry(facts[k].value, Highest(facts[k].confidence, lessons))]
    decreases |lessons|
  {
    if lessons != [] {
      RepeatingOnlyRaisesConfidence(facts, k, lessons[..|lessons| - 1]);
    }
  }

  function Highest(start: real, lessons: seq<Entry>): (r: real)
    ensures r >= start && forall i | 0 <= i < |lessons| :: r >= lessons[i].confidence
    ensures r == start || exists i :: 0 <= i < |lessons| && r == lessons[i].confidence
  {
    if lessons == [] then start else Max(Highest(start, lessons[..|lessons| - 1]), lessons[|lessons| - 1].confidence)
  }

  /** A different value replaces the old one outright, confidence included; the other keys are untouched. */
  lemma CorrectionReplaces(facts: Facts, k: Key, e: Entry)
    requires k in facts
    ensures Upserted(facts, k, e) - {k} == facts - {k} && k in Upserted(facts, k, e)
    ensures Upserted(facts, k, e)[k].value == e.value
       <==> !SameValue(facts[k].value, e.value) || facts[k].value == e.value
  {}
}
