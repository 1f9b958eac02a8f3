/**
 * Which AI provider a request gets, as a list of preferences: whose row it is, how exactly it fits the request, and
 * how it is ranked.
 */
module ProviderOutcomes {
  import opened Wrappers
  import opened ProviderSelection

  predicate IsGiven(s: Option<string>) {
    s != None && s != Some("")
  }

  /** The row is for this scope and space; a request that gives neither has no such row. */
  predicate FitsExactly(row: Provider, r: Request) {
    (IsGiven(r.scope) || IsGiven(r.space)) && row.scope == r.scope && row.space == r.space
  }

  /** The row is for this scope, whatever the space. */
  predicate FitsScope(row: Provider, r: Request) {
    IsGiven(r.scope) && row.scope == r.scope && row.space == None
  }

  predicate FitsAnything(row: Provider) {
    row.scope == None && row.space == None
  }

  /** The user's own rows and the system's, of the kind asked for and switched on. */
  predicate MayServe(row: Provider, r: Request) {
    && row.isActive && row.kind == r.kind && (row.userId == None || row.userId == Some(r.userId))
    && (FitsExactly(row, r) || FitsScope(row, r) || FitsAnything(row))
  }

  /** Own before system, exact before scope before anything, default first, higher priority first, older first. */
  predicate IsPreferred(a: Provider, b: Provider, r: Request) {
    if a.userId != b.userId then b.userId == None
    else if FitsExactly(a, r) != FitsExactly(b, r) then FitsExactly(a, r)
    else if FitsScope(a, r) != FitsScope(b, r) then FitsScope(a, r)
    else if a.isDefault != b.isDefault then a.isDefault
    else if a.priority != b.priority then a.priority > b.priority
    else a.createdAt < b.createdAt
  }

  /** The chosen row is preferred to every other one that may serve, and stands before those it is not preferred to. */
  ghost predicate IsChosen(rows: seq<Provider>, r: Request, k: nat) {
    && k < |rows| && MayServe(rows[k], r)
    && forall i | 0 <= i < |rows| && i != k && MayServe(rows[i], r) ::
         IsPreferred(rows[k], rows[i], r) || (k < i && !IsPreferred(rows[i], rows[k], r))
  }

  /** So a request is refused exactly when no row may serve it. */
  lemma EligibleMeansMayServe(row: Provider, r: Request)
    ensures Eligible(row, r) <==> MayServe(row, r)
  {}

  lemma RankIsPreference(a: Provider, b: Provider, r: Request)
    requires MayServe(a, r) && MayServe(b, r)
    ensures Less(Rank(a, r), Rank(b, r)) <==> IsPreferred(a, b, r)
  {}

  /** The least eligible row is the chosen one, and conversely. */
  lemma LeastIsChosen(rows: seq<Provider>, r: Request, k: nat)
    ensures IsLeast(rows, r, k) <==> IsChosen(rows, r, k)
  {
    forall i | 0 <= i < |rows| ensures Eligible(rows[i], r) <==> MayServe(rows[i], r) {
      EligibleMeansMayServe(rows[i], r);
    }
    if k < |rows| && MayServe(rows[k], r) {
      forall i | 0 <= i < |rows| && MayServe(rows[i], r)
        ensures Less(Rank(rows[i], r), Rank(rows[k], r)) <==> IsPreferred(rows[i], rows[k], r)
        ensures Less(Rank(rows[k], r), Rank(rows[i], r)) <==> IsPreferred(rows[k], rows[i], r)
      {
        RankIsPreference(rows[i], rows[k], r);
        RankIsPreference(rows[k], rows[i], r);
      }
    }
  }
}
