/**
 * Which AI provider row serves a use case: own rows before system ones, then by how exactly they match, then by rank.
 */
module ProviderSelection {
  import opened Wrappers

  datatype Provider = Provider(
    id: string, userId: Option<string>, kind: string, isActive: bool, scope: Option<string>, space: Option<string>,
    isDefault: bool, priority: int, createdAt: int)

  /** A missing scope or space is undefined or null alike; an empty one is neither, but it is falsy. */
  datatype Request = Request(userId: string, kind: string, scope: Option<string>, space: Option<string>)

  predicate Truthy(s: Option<string>) {
    s.Some? && s.value != ""
  }

  // ---------------------------------------------------------------------
  // The selection as it runs

  const POOLS := 2
  const TIERS := 3

  predicate InPool(row: Provider, r: Request, pool: nat) {
    row.userId == if pool == 0 then Some(r.userId) else None
  }

  predicate MatchesExactly(row: Provider, r: Request) {
    row.scope == r.scope && row.space == r.space && (Truthy(r.scope) || Truthy(r.space))
  }

  predicate MatchesScope(row: Provider, r: Request) {
    row.scope == r.scope && row.space == None && Truthy(r.scope)
  }

  predicate IsGlobal(row: Provider) {
    row.scope == None && row.space == None
  }

  predicate InTier(row: Provider, r: Request, tier: nat) {
    if tier == 0 then MatchesExactly(row, r) else if tier == 1 then MatchesScope(row, r) else IsGlobal(row)
  }

  predicate Candidate(row: Provider, r: Request) {
    row.kind == r.kind && row.isActive
  }

  /** The comparator is negative: default first, then higher priority, then older. */
  predicate Before(a: Provider, b: Provider) {
    if a.isDefault != b.isDefault then a.isDefault
    else if a.priority != b.priority then a.priority > b.priority
    else a.createdAt < b.createdAt
  }

  predicate InGroup(row: Provider, r: Request, pool: nat, tier: nat) {
    Candidate(row, r) && InPool(row, r, pool) && InTier(row, r, tier)
  }

  /** The first row of the sorted tier; sorting keeps the order of rows that compare equal. */
  ghost predicate FirstSorted(rows: seq<Provider>, r: Request, pool: nat, tier: nat, k: nat) {
    && k < |rows| && InGroup(rows[k], r, pool, tier)
    && (forall i | 0 <= i < |rows| && InGroup(rows[i], r, pool, tier) :: !Before(rows[i], rows[k]))
    && (forall i | 0 <= i < k && InGroup(rows[i], r, pool, tier) :: Before(rows[k], rows[i]))
  }

  method SortedFirst(rows: seq<Provider>, r: Request, pool: nat, tier: nat) returns (k: Option<nat>)
    ensures k.None? <==> forall i | 0 <= i < |rows| :: !InGroup(rows[i], r, pool, tier)
    ensures k.Some? ==> FirstSorted(rows, r, pool, tier, k.value)
  {
    k := None;
    for i := 0 to |rows|
      invariant k.None? ==> forall j | 0 <= j < i :: !InGroup(rows[j], r, pool, tier)
      invariant k.Some? ==> k.value < i && FirstSorted(rows[..i], r, pool, tier, k.value)
    {
      assert forall j | 0 <= j < i :: rows[..i + 1][j] == rows[..i][j];
      if InGroup(rows[i], r, pool, tier) && (k.None? || Before(rows[i], rows[k.value])) { k := Some(i); }
    }
    assert rows[..|rows|] == rows;
  }

  method SelectProviderRow(rows: seq<Provider>, r: Request) returns (k: Option<nat>)
    ensures k.None? <==> forall i | 0 <= i < |rows| :: !Eligible(rows[i], r)
    ensures k.Some? ==> IsLeast(rows, r, k.value)
  {
    for pool := 0 to POOLS
      invariant forall i, p, t | 0 <= i < |rows| && 0 <= p < pool && 0 <= t < TIERS :: !InGroup(rows[i], r, p, t)
    {
      for tier := 0 to TIERS
        invariant forall i, t | 0 <= i < |rows| && 0 <= t < tier :: !InGroup(rows[i], r, pool, t)
      {
        k := SortedFirst(rows, r, pool, tier);
        if k.Some? {
          FirstGroupHoldsTheLeast(rows, r, pool, tier, k.value);
          return;
        }
      }
    }
    k := None;
    forall i | 0 <= i < |rows| ensures !Eligible(rows[i], r) {
      EligibleIsInAGroup(rows[i], r);
    }
  }

  // ---------------------------------------------------------------------
  // What it means

  /** The row may serve the request at all. */
  predicate Eligible(row: Provider, r: Request) {
    && Candidate(row, r)
    && (row.userId == Some(r.userId) || row.userId == None)
    && (MatchesExactly(row, r) || MatchesScope(row, r) || IsGlobal(row))
  }

  /** The row's place in one lexicographic order, smallest first. */
  function Rank(row: Provider, r: Request): (int, int, int, int, int) {
    (if row.userId == Some(r.userId) then 0 else 1,
     if MatchesExactly(row, r) then 0 else if MatchesScope(row, r) then 1 else 2,
     if row.isDefault then 0 else 1,
     -row.priority,
     row.createdAt)
  }

  predicate Less(a: (int, int, int, int, int), b: (int, int, int, int, int)) {
    if a.0 != b.0 then a.0 < b.0 else if a.1 != b.1 then a.1 < b.1 else if a.2 != b.2 then a.2 < b.2
    else if a.3 != b.3 then a.3 < b.3 else a.4 < b.4
  }

  /** No eligible row ranks lower, and none that ranks the same stands before it. */
  ghost predicate IsLeast(rows: seq<Provider>, r: Request, k: nat) {
    && k < |rows| && Eligible(rows[k], r)
    && (forall i | 0 <= i < |rows| && Eligible(rows[i], r) :: !Less(Rank(rows[i], r), Rank(rows[k], r)))
    && (forall i | 0 <= i < k && Eligible(rows[i], r) :: Less(Rank(rows[k], r), Rank(rows[i], r)))
  }

  /** The group a row is first found in. */
  lemma GroupOf(row: Provider, r: Request) returns (pool: nat, tier: nat)
    requires Eligible(row, r)
    ensures pool < POOLS && tier < TIERS && InGroup(row, r, pool, tier)
    ensures Rank(row, r).0 == pool && Rank(row, r).1 == tier
  {
    pool, tier := Rank(row, r).0, Rank(row, r).1;
  }

  lemma EligibleIsInAGroup(row: Provider, r: Request)
    ensures Eligible(row, r) <==> exists p, t | 0 <= p < POOLS && 0 <= t < TIERS :: InGroup(row, r, p, t)
  {
    if Eligible(row, r) { var p, t := GroupOf(row, r); }
  }

  lemma FirstGroupHoldsTheLeast(rows: seq<Provider>, r: Request, pool: nat, tier: nat, k: nat)
    requires pool < POOLS && tier < TIERS && FirstSorted(rows, r, pool, tier, k)
    requires forall i, p, t | 0 <= i < |rows| && 0 <= p < pool && 0 <= t < TIERS :: !InGroup(rows[i], r, p, t)
    requires forall i, t | 0 <= i < |rows| && 0 <= t < tier :: !InGroup(rows[i], r, pool, t)
    ensures IsLeast(rows, r, k)
  {
    forall i | 0 <= i < |rows| && Eligible(rows[i], r)
      ensures !Less(Rank(rows[i], r), Rank(rows[k], r)) && (i < k ==> Less(Rank(rows[k], r), Rank(rows[i], r)))
      ensures Rank(rows[k], r).0 == pool && Rank(rows[k], r).1 == tier
    {
      var p, t := GroupOf(rows[k], r);
      var p', t' := GroupOf(rows[i], r);
      assert InGroup(rows[i], r, p', t') && InGroup(rows[k], r, p, t);
    }
  }

  /** The answer does not depend on the order the rows come in, unless two eligible rows share a rank. */
  lemma OrderDoesNotMatter(rows: seq<Provider>, rows': seq<Provider>, r: Request, k: nat, k': nat)
    requires forall row :: row in rows <==> row in rows'
    requires IsLeast(rows, r, k) && IsLeast(rows', r, k')
    requires forall a <- rows, b <- rows | Eligible(a, r) && Eligible(b, r) && Rank(a, r) == Rank(b, r) :: a == b
    ensures rows[k] == rows'[k']
  {
    var a, b := rows[k], rows'[k'];
    assert a in rows && b in rows' && a in rows' && b in rows;
    var i :| 0 <= i < |rows| && rows[i] == b;
    var j :| 0 <= j < |rows'| && rows'[j] == a;
    assert !Less(Rank(rows[i], r), Rank(a, r)) && !Less(Rank(rows'[j], r), Rank(b, r));
  }

  /** A user's own provider is never passed over for a system one. */
  lemma OwnRowsComeFirst(rows: seq<Provider>, r: Request, k: nat, own: nat)
    requires IsLeast(rows, r, k) && own < |rows| && Eligible(rows[own], r) && rows[own].userId == Some(r.userId)
    ensures rows[k].userId == Some(r.userId)
  {
    assert !Less(Rank(rows[own], r), Rank(rows[k], r));
  }
}
