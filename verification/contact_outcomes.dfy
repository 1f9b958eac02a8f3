/** What an import does to the names, links and identities of an address book, person by person, spelled out. */
module ContactOutcomes {
  import opened Wrappers
  import opened Text
  import opened ContactImport

  // ---------------------------------------------------------------------
  // Names that are only a number

  /** Nothing but the signs of a telephone number, and white space. */
  ghost predicate IsNumberLike(name: string) {
    forall i | 0 <= i < |name| :: IsNumberSign(name[i])
  }

  ghost predicate IsNumberSign(c: char) {
    '0' <= c <= '9' || c == '+' || c == '(' || c == ')' || c == '-' || c == '.' || IsSpace(c)
  }

  /** An empty name, or one the user did not set: it has no letter in it. */
  lemma PlaceholderIsNumberLike(name: string)
    ensures IsPlaceholderName(name) <==> IsNumberLike(name)
  {
    var front, back := TrimTakesOffSpace(name);
    var t := Trim(name);
    assert forall i | 0 <= i < |name| ::
        name[i] == if i < |front| then front[i]
                   else if i < |front| + |t| then t[i - |front|] else back[i - |front| - |t|];
    if IsNumberLike(name) {
      forall c | c in t ensures IsNumberSign(c) {
        var k :| 0 <= k < |t| && t[k] == c;
        assert name[|front| + k] == c;
      }
    }
    if IsPlaceholderName(name) {
      forall i | 0 <= i < |name| ensures IsNumberSign(name[i]) {
        if |front| <= i < |front| + |t| { assert t[i - |front|] in t; }
      }
    }
  }

  // ---------------------------------------------------------------------
  // One person

  /** The first of the person's identities on file belongs to this contact. */
  ghost predicate KnownAs(b: Book, p: Entry, id: nat) {
    exists i | 0 <= i < |p.keys| ::
      p.keys[i] in b.identities && b.identities[p.keys[i]] == id && forall j | 0 <= j < i :: p.keys[j] !in b.identities
  }

  lemma {:induction false} FirstKnownIs(b: Book, keys: seq<(IdentityType, string)>, i: nat)
    requires i < |keys| && keys[i] in b.identities && forall j | 0 <= j < i :: keys[j] !in b.identities
    ensures FirstKnown(b, keys) == Some(keys[i])
    decreases |keys|
  {
    if i > 0 {
      assert keys[0] !in b.identities;
      FirstKnownIs(b, keys[1..], i - 1);
    }
  }

  lemma {:induction false} SomeFirstKnown(b: Book, keys: seq<(IdentityType, string)>, n: nat) returns (i: nat)
    requires n < |keys| && keys[n] in b.identities
    ensures i <= n && keys[i] in b.identities && forall j | 0 <= j < i :: keys[j] !in b.identities
    decreases n
  {
    if j: nat :| j < n && keys[j] in b.identities { i := SomeFirstKnown(b, keys, j); } else { i := n; }
  }

  lemma KnownAsFirst(b: Book, p: Entry, id: nat)
    ensures KnownAs(b, p, id)
       <==> FirstKnown(b, p.keys).Some? && b.identities[FirstKnown(b, p.keys).value] == id
  {
    if KnownAs(b, p, id) {
      var i :| 0 <= i < |p.keys| && p.keys[i] in b.identities && b.identities[p.keys[i]] == id
        && forall j | 0 <= j < i :: p.keys[j] !in b.identities;
      FirstKnownIs(b, p.keys, i);
    }
    if FirstKnown(b, p.keys).Some? {
      var n :| 0 <= n < |p.keys| && p.keys[n] == FirstKnown(b, p.keys).value;
      var i := SomeFirstKnown(b, p.keys, n);
      FirstKnownIs(b, p.keys, i);
    }
  }

  /** Some contact carries the person's Google name already. */
  ghost predicate AlreadyLinked(b: Book, p: Entry) {
    p.resource.Some? && exists id <- b.contacts :: b.contacts[id].resource == p.resource
  }

  /** A person is renamed to exactly when an identity is known, and that contact's name has no letter in it. */
  lemma RenamedIff(b: Book, p: Entry, b': Book, kind: Kind)
    requires Inv(b) && Imports(b, p, b', kind)
    ensures kind == Renamed
       <==> p.name != "" && !AlreadyLinked(b, p)
            && exists id <- b.contacts :: KnownAs(b, p, id) && IsNumberLike(b.contacts[id].name)
  {
    if p.name != "" && !Linked(b, p) && FirstKnown(b, p.keys).Some? {
      var id := b.identities[FirstKnown(b, p.keys).value];
      KnownAsFirst(b, p, id);
      PlaceholderIsNumberLike(b.contacts[id].name);
    }
    forall id ensures KnownAs(b, p, id)
                 <==> FirstKnown(b, p.keys).Some? && b.identities[FirstKnown(b, p.keys).value] == id
    {
      KnownAsFirst(b, p, id);
    }
  }

  /** A name the user set is never overwritten: one that changes had no letter in it, and becomes the person's. */
  lemma NamesTheUserSetStay(b: Book, p: Entry, b': Book, kind: Kind, id: nat)
    requires Inv(b) && Imports(b, p, b', kind) && id in b.contacts
    ensures id in b'.contacts && b'.contacts[id].company == b.contacts[id].company
    ensures if kind == Renamed && KnownAs(b, p, id) then
              b'.contacts[id].name == p.name && IsNumberLike(b.contacts[id].name)
            else b'.contacts[id].name == b.contacts[id].name
  {
    KnownAsFirst(b, p, id);
    PlaceholderIsNumberLike(b.contacts[id].name);
  }

  /** A contact gets a Google name only if it had none, and then the person's. */
  lemma LinksAreOnlyAdded(b: Book, p: Entry, b': Book, kind: Kind, id: nat)
    requires Inv(b) && Imports(b, p, b', kind) && id in b.contacts
    ensures id in b'.contacts
    ensures b'.contacts[id].resource == b.contacts[id].resource
         || (b.contacts[id].resource.None? && b'.contacts[id].resource == p.resource)
    ensures p.name != "" && !AlreadyLinked(b, p) && KnownAs(b, p, id) && b.contacts[id].resource.None? ==>
              b'.contacts[id].resource == p.resource
  {
    KnownAsFirst(b, p, id);
  }

  /** Somebody new gets one contact with their name, Google name and company, and every one of their identities. */
  lemma NewcomersAreFiled(b: Book, p: Entry, b': Book, kind: Kind)
    requires Imports(b, p, b', kind) && kind == Imported
    ensures p.name != "" && !AlreadyLinked(b, p) && forall key <- p.keys :: key !in b.identities
    ensures b'.contacts == b.contacts[b.next := Contact(p.name, p.resource, p.company)] && b'.next == b.next + 1
    ensures forall key :: key in b'.identities <==> key in b.identities || key in p.keys
    ensures forall key <- b'.identities ::
      b'.identities[key] == if key in b.identities then b.identities[key] else b.next
  {}

  /** A contact to recognise by its name alone: linked to nobody, and with no identity on file. */
  ghost predicate FitsByName(b: Book, p: Entry, id: nat) {
    && id in b.contacts && b.contacts[id].name == p.name && b.contacts[id].resource == None
    && forall key <- b.identities :: b.identities[key] != id
  }

  lemma FitsMeansSameName(b: Book, p: Entry, id: nat)
    ensures FitsByName(b, p, id) <==> SameName(b, p, id)
  {}

  /** Somebody with a Google name and no identity is recognised by name alone; that contact gets the Google name. */
  lemma RecognisedByNameIff(b: Book, p: Entry, b': Book, kind: Kind)
    requires Imports(b, p, b', kind)
    requires p.name != "" && !AlreadyLinked(b, p) && p.keys == [] && p.resource.Some?
    ensures kind == (if exists id :: FitsByName(b, p, id) then AlreadyKnown else Imported)
    ensures kind == AlreadyKnown ==>
      (exists id :: FitsByName(b, p, id)
                    && b' == b.(contacts := b.contacts[id := Contact(p.name, p.resource, b.contacts[id].company)]))
  {
    forall id ensures FitsByName(b, p, id) <==> SameName(b, p, id) { FitsMeansSameName(b, p, id); }
  }

  /** A contact is made exactly for a named person with no link, no identity on file and no name to go by. */
  lemma ImportedIff(b: Book, p: Entry, b': Book, kind: Kind)
    requires Imports(b, p, b', kind)
    ensures kind == Imported
       <==> && p.name != "" && !AlreadyLinked(b, p) && (forall key <- p.keys :: key !in b.identities)
            && !(p.keys == [] && p.resource.Some? && exists id :: FitsByName(b, p, id))
  {
    forall id ensures FitsByName(b, p, id) <==> SameName(b, p, id) { FitsMeansSameName(b, p, id); }
  }

  /** And whoever is counted otherwise adds nobody and no identity; without a name, nothing at all changes. */
  lemma NobodyElseIsFiled(b: Book, p: Entry, b': Book, kind: Kind)
    requires Imports(b, p, b', kind) && kind != Imported
    ensures b'.contacts.Keys == b.contacts.Keys && b'.identities == b.identities && b'.next == b.next
    ensures kind == SkippedNoName <==> p.name == ""
    ensures p.name == "" || AlreadyLinked(b, p) ==> b' == b
  {}

  /** After every person no two contacts share a Google name, and every identity leads to a contact. */
  lemma GoogleNamesAreUnique(b: Book, p: Entry, b': Book, kind: Kind, c: nat, d: nat, key: (IdentityType, string))
    requires Inv(b) && Imports(b, p, b', kind)
    ensures c in b'.contacts && d in b'.contacts && c != d && b'.contacts[c].resource.Some? ==>
              b'.contacts[d].resource != b'.contacts[c].resource
    ensures key in b'.identities ==> b'.identities[key] in b'.contacts
  {
    ImportIsSoundStep(b, p, b', kind);
    assert ShareResource(b', c, d) ==> c == d;
  }

  // ---------------------------------------------------------------------
  // A whole import

  lemma {:induction false} NamesStayUpTo(log: Log, people: seq<Entry>, first: Book, last: Book, id: nat, n: nat)
    requires Inv(first) && IsImport(log, people, first, last) && id in first.contacts && n <= |people|
    ensures id in log.books[n].contacts
    ensures log.books[n].contacts[id].name != first.contacts[id].name ==>
              IsNumberLike(first.contacts[id].name)
              && exists i | 0 <= i < n :: log.kinds[i] == Renamed && log.books[n].contacts[id].name == people[i].name
    decreases n
  {
    if n > 0 {
      NamesStayUpTo(log, people, first, last, id, n - 1);
      PrefixIsSound(log, people, first, last, n - 1);
      ImportAt(log, people, first, last, n - 1);
      NamesTheUserSetStay(log.books[n - 1], people[n - 1], log.books[n], log.kinds[n - 1], id);
    }
  }

  /** So no import overwrites a name with a letter in it, and a name it sets is that of someone counted as renamed. */
  lemma ImportKeepsNames(log: Log, people: seq<Entry>, first: Book, last: Book, id: nat)
    requires Inv(first) && IsImport(log, people, first, last) && id in first.contacts
    ensures id in last.contacts
    ensures !IsNumberLike(first.contacts[id].name) ==> last.contacts[id].name == first.contacts[id].name
    ensures last.contacts[id].name == first.contacts[id].name
         || exists i | 0 <= i < |people| :: log.kinds[i] == Renamed && last.contacts[id].name == people[i].name
  {
    NamesStayUpTo(log, people, first, last, id, |people|);
  }

  /** How many people were counted as `kind`. */
  function CountOf(kinds: seq<Kind>, kind: Kind): nat {
    multiset(kinds)[kind]
  }

  lemma {:induction false} TallyUpToCounts(kinds: seq<Kind>, n: nat)
    requires n <= |kinds|
    ensures TallyUpTo(kinds, n)
         == SyncResult(CountOf(kinds[..n], Imported), CountOf(kinds[..n], AlreadyKnown), CountOf(kinds[..n], Renamed),
                       CountOf(kinds[..n], SkippedNoName))
    decreases n
  {
    if n > 0 {
      TallyUpToCounts(kinds, n - 1);
      assert kinds[..n] == kinds[..n - 1] + [kinds[n - 1]];
    }
  }

  /** Each counter is the number of people of its kind. */
  lemma TallyCounts(kinds: seq<Kind>)
    ensures Tally(kinds)
         == SyncResult(CountOf(kinds, Imported), CountOf(kinds, AlreadyKnown), CountOf(kinds, Renamed),
                       CountOf(kinds, SkippedNoName))
  {
    TallyUpToCounts(kinds, |kinds|);
    assert kinds[..|kinds|] == kinds;
  }

  // ---------------------------------------------------------------------
  // Reading a person

  /** The i-th is the first that is there and not empty. */
  ghost predicate FirstFilled(xs: seq<Option<string>>, i: nat) {
    i < |xs| && xs[i].Some? && xs[i].value != "" && forall j | 0 <= j < i :: xs[j].None? || xs[j].value == ""
  }

  lemma {:induction false} FirstTruthyIs(xs: seq<Option<string>>)
    ensures forall i: nat :: FirstFilled(xs, i) ==> FirstTruthy(xs) == xs[i]
    ensures FirstTruthy(xs).None? <==> forall j | 0 <= j < |xs| :: xs[j].None? || xs[j].value == ""
    ensures FirstTruthy(xs).Some? ==> exists i: nat :: FirstFilled(xs, i)
    decreases |xs|
  {
    if xs != [] {
      FirstTruthyIs(xs[1..]);
      if OrEmpty(xs[0]) != "" {
        assert FirstFilled(xs, 0);
      } else {
        forall i: nat | FirstFilled(xs, i) ensures FirstTruthy(xs) == xs[i] {
          assert FirstFilled(xs[1..], i - 1);
        }
        if i: nat :| FirstFilled(xs[1..], i) { assert FirstFilled(xs, i + 1); }
      }
    }
  }

  lemma NameIsRead(p: Person, i: nat)
    requires FirstFilled(p.displayNames, i)
    ensures Trimmed(Read(p).name) && exists front, back ::
      Blank(front) && Blank(back) && p.displayNames[i].value == front + Read(p).name + back
  {
    FirstTruthyIs(p.displayNames);
    var front, back := TrimTakesOffSpace(p.displayNames[i].value);
  }

  ghost predicate NoneFilled(xs: seq<Option<string>>) {
    forall j | 0 <= j < |xs| :: xs[j].None? || xs[j].value == ""
  }

  /** The name read is the first display name without the white space around it; company and Google name as they are. */
  lemma PersonIsRead(p: Person, i: nat, k: nat)
    ensures FirstFilled(p.displayNames, i) ==>
              Trimmed(Read(p).name) && exists front, back ::
                Blank(front) && Blank(back) && p.displayNames[i].value == front + Read(p).name + back
    ensures NoneFilled(p.displayNames) ==> Read(p).name == ""
    ensures FirstFilled(p.organizations, k) ==> Read(p).company == p.organizations[k]
    ensures NoneFilled(p.organizations) ==> Read(p).company == None
    ensures Read(p).resource == if p.resourceName == Some("") then None else p.resourceName
  {
    FirstTruthyIs(p.displayNames);
    FirstTruthyIs(p.organizations);
    if FirstFilled(p.displayNames, i) { NameIsRead(p, i); }
  }
}
