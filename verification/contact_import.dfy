/**
 * The Google contact import: a reconciliation by Google resource name and by
 * phone or e-mail identity, over the address book of one user.
 */
module ContactImport {
  import opened Wrappers
  import opened Text

  datatype IdentityType = WhatsApp | Email

  datatype Contact = Contact(name: string, resource: Option<string>, company: Option<string>)

  /** The contact and identity tables; the key of an identity is its unique index. */
  datatype Book = Book(contacts: map<nat, Contact>, identities: map<(IdentityType, string), nat>, next: nat)

  /** What the People API answers for one person; any part may be missing. */
  datatype Person = Person(
    resourceName: Option<string>,
    displayNames: seq<Option<string>>,
    phoneNumbers: seq<Option<string>>,
    emailAddresses: seq<Option<string>>,
    organizations: seq<Option<string>>)

  datatype Page = Page(connections: seq<Person>, more: bool)

  datatype Kind = Imported | AlreadyKnown | Renamed | SkippedNoName

  datatype SyncResult = SyncResult(imported: nat, alreadyKnown: nat, renamed: nat, skippedNoName: nat)

  datatype Error = IdentityConflict | ContactNotFound

  const MAX_PAGES := 20

  // ---------------------------------------------------------------------
  // Reading a person

  /** `[0-9+]` */
  predicate IsPhoneChar(c: char) {
    IsDigit(c) || c == '+'
  }

  /** Not one of `[\s()\-.]`, which the import takes out of a number. */
  predicate IsNotPunctuation(c: char) {
    !(IsSpace(c) || c == '(' || c == ')' || c == '-' || c == '.')
  }

  /** normalizeIdentityValue: the key a number or an address is filed under. */
  function Normalize(kind: IdentityType, raw: string): string {
    match kind
    case Email => ToLower(Trim(raw))
    case WhatsApp => Keep(raw, IsPhoneChar)
  }

  function OrEmpty(s: Option<string>): string {
    if s.Some? then s.value else ""
  }

  /** The first element JavaScript finds truthy. */
  function FirstTruthy(xs: seq<Option<string>>): Option<string> {
    if xs == [] then None else if OrEmpty(xs[0]) != "" then xs[0] else FirstTruthy(xs[1..])
  }

  /** /^\+\d{8,15}$/ */
  predicate IsE164(s: string) {
    9 <= |s| <= 16 && s[0] == '+' && forall i | 1 <= i < |s| :: IsDigit(s[i])
  }

  /** A number as the import compares it. */
  function PhoneOf(raw: Option<string>): string {
    Keep(OrEmpty(raw), IsNotPunctuation)
  }

  function EmailOf(raw: Option<string>): string {
    ToLower(Trim(OrEmpty(raw)))
  }

  function Phones(raw: seq<Option<string>>): seq<string> {
    if raw == [] then [] else (if IsE164(PhoneOf(raw[0])) then [PhoneOf(raw[0])] else []) + Phones(raw[1..])
  }

  function Emails(raw: seq<Option<string>>): seq<string> {
    if raw == [] then [] else (if '@' in EmailOf(raw[0]) then [EmailOf(raw[0])] else []) + Emails(raw[1..])
  }

  function KeysOf(kind: IdentityType, values: seq<string>): (keys: seq<(IdentityType, string)>)
    ensures |keys| == |values| && forall i | 0 <= i < |values| :: keys[i] == (kind, Normalize(kind, values[i]))
  {
    seq(|values|, i requires 0 <= i < |values| => (kind, Normalize(kind, values[i])))
  }

  /** What the import goes by: the display name, the Google name if there is one, and the identities, numbers first. */
  datatype Entry = Entry(name: string, resource: Option<string>, keys: seq<(IdentityType, string)>,
                         company: Option<string>)

  function Read(p: Person): Entry {
    Entry(Trim(OrEmpty(FirstTruthy(p.displayNames))),
          if OrEmpty(p.resourceName) != "" then p.resourceName else None,
          KeysOf(WhatsApp, Phones(p.phoneNumbers)) + KeysOf(Email, Emails(p.emailAddresses)),
          FirstTruthy(p.organizations))
  }

  lemma {:induction false} KeepsAll(s: string, keep: char -> bool)
    requires forall i | 0 <= i < |s| :: keep(s[i])
    ensures Keep(s, keep) == s
  {
    if s != "" {
      KeepsAll(s[1..], keep);
      assert [s[0]] + s[1..] == s;
    }
  }

  lemma InternationalNumbersAreNormal(v: string)
    requires IsE164(v)
    ensures Normalize(WhatsApp, v) == v
  {
    KeepsAll(v, IsPhoneChar);
  }

  lemma LoweredAddressesAreNormal(raw: Option<string>)
    ensures Normalize(Email, EmailOf(raw)) == EmailOf(raw)
  {
    var t, v := Trim(OrEmpty(raw)), EmailOf(raw);
    assert Trimmed(v) by {
      if v != "" { assert v[0] == LowerChar(t[0]) && v[|v| - 1] == LowerChar(t[|t| - 1]); }
    }
    assert ToLower(v) == v;
  }

  /** The numbers kept are exactly those in international form once the punctuation is out, in order. */
  lemma {:induction false} PhonesAreInternational(raw: seq<Option<string>>, v: string)
    ensures v in Phones(raw) <==> IsE164(v) && exists r <- raw :: PhoneOf(r) == v
    decreases |raw|
  {
    if raw != [] {
      PhonesAreInternational(raw[1..], v);
      assert raw == [raw[0]] + raw[1..];
    }
  }

  /** The addresses kept are exactly those with an at sign, trimmed and in lower case. */
  lemma {:induction false} EmailsHaveAnAt(raw: seq<Option<string>>, v: string)
    ensures v in Emails(raw) <==> '@' in v && exists r <- raw :: EmailOf(r) == v
    decreases |raw|
  {
    if raw != [] {
      EmailsHaveAnAt(raw[1..], v);
      assert raw == [raw[0]] + raw[1..];
    }
  }

  /**
   * A person's keys: first the numbers, each in international form, then the addresses, each with an at sign; all of
   * them are already what addIdentity and findByIdentity normalise them to, so lookup and storage agree.
   */
  lemma KeysAreUsable(p: Person, i: nat)
    requires i < |Read(p).keys|
    ensures var (kind, value) := Read(p).keys[i];
      && Normalize(kind, value) == value
      && (kind == WhatsApp <==> i < |Phones(p.phoneNumbers)|)
      && (kind == WhatsApp ==> IsE164(value) && exists r <- p.phoneNumbers :: PhoneOf(r) == value)
      && (kind == Email ==> '@' in value && exists r <- p.emailAddresses :: EmailOf(r) == value)
  {
    var phones, emails := Phones(p.phoneNumbers), Emails(p.emailAddresses);
    if i < |phones| {
      assert phones[i] in phones;
      PhonesAreInternational(p.phoneNumbers, phones[i]);
      InternationalNumbersAreNormal(phones[i]);
    } else {
      var v := emails[i - |phones|];
      assert v in emails;
      EmailsHaveAnAt(p.emailAddresses, v);
      var r :| r in p.emailAddresses && EmailOf(r) == v;
      LoweredAddressesAreNormal(r);
    }
  }

  lemma NumberIsAKey(p: Person, r: Option<string>)
    requires r in p.phoneNumbers && IsE164(PhoneOf(r))
    ensures (WhatsApp, PhoneOf(r)) in Read(p).keys
  {
    var phones := Phones(p.phoneNumbers);
    PhonesAreInternational(p.phoneNumbers, PhoneOf(r));
    var i :| 0 <= i < |phones| && phones[i] == PhoneOf(r);
    InternationalNumbersAreNormal(phones[i]);
    assert KeysOf(WhatsApp, phones)[i] == (WhatsApp, PhoneOf(r));
    assert Read(p).keys[i] == KeysOf(WhatsApp, phones)[i];
  }

  lemma AddressIsAKey(p: Person, r: Option<string>)
    requires r in p.emailAddresses && '@' in EmailOf(r)
    ensures (Email, EmailOf(r)) in Read(p).keys
  {
    var phones, emails := Phones(p.phoneNumbers), Emails(p.emailAddresses);
    EmailsHaveAnAt(p.emailAddresses, EmailOf(r));
    var i :| 0 <= i < |emails| && emails[i] == EmailOf(r);
    LoweredAddressesAreNormal(r);
    assert KeysOf(Email, emails)[i] == (Email, EmailOf(r));
    assert Read(p).keys[|phones| + i] == KeysOf(Email, emails)[i];
  }

  /** And every number in international form, and every address with an at sign, is one of the keys. */
  lemma KeysAreComplete(p: Person, r: Option<string>)
    ensures r in p.phoneNumbers && IsE164(PhoneOf(r)) ==> (WhatsApp, PhoneOf(r)) in Read(p).keys
    ensures r in p.emailAddresses && '@' in EmailOf(r) ==> (Email, EmailOf(r)) in Read(p).keys
  {
    if r in p.phoneNumbers && IsE164(PhoneOf(r)) { NumberIsAKey(p, r); }
    if r in p.emailAddresses && '@' in EmailOf(r) { AddressIsAKey(p, r); }
  }

  /** The import can recognise this entry again. */
  predicate Recognisable(p: Entry) {
    p.resource.Some? || p.keys != []
  }

  predicate IsPlaceholderName(name: string) {
    var t := Trim(name);
    forall c <- t :: c == '+' || IsDigit(c) || IsSpace(c) || c == '(' || c == ')' || c == '-' || c == '.'
  }

  // ---------------------------------------------------------------------
  // Importing a person

  predicate Linked(b: Book, p: Entry) {
    p.resource.Some? && exists id <- b.contacts :: b.contacts[id].resource == p.resource
  }

  /** An unlinked contact without identities and with this very name. */
  predicate SameName(b: Book, p: Entry, id: nat) {
    && id in b.contacts && b.contacts[id].name == p.name && b.contacts[id].resource.None?
    && id !in b.identities.Values
  }

  function FirstKnown(b: Book, keys: seq<(IdentityType, string)>): (k: Option<(IdentityType, string)>)
    ensures k.Some? ==> k.value in keys && k.value in b.identities
    ensures k.None? <==> forall key <- keys :: key !in b.identities
  {
    if keys == [] then None else if keys[0] in b.identities then Some(keys[0]) else FirstKnown(b, keys[1..])
  }

  function SetResource(b: Book, id: nat, p: Entry): Book
    requires id in b.contacts
  {
    if p.resource.Some? && b.contacts[id].resource.None?
    then b.(contacts := b.contacts[id := b.contacts[id].(resource := p.resource)]) else b
  }

  /** The person is attached to an existing contact through one of its identities. */
  function Attach(b: Book, id: nat, p: Entry): (Book, Kind)
    requires id in b.contacts
  {
    var b1 := SetResource(b, id, p);
    if IsPlaceholderName(b.contacts[id].name)
    then (b1.(contacts := b1.contacts[id := b1.contacts[id].(name := p.name)]), Renamed)
    else (b1, AlreadyKnown)
  }

  function AddKeys(ids: map<(IdentityType, string), nat>, keys: seq<(IdentityType, string)>, contact: nat)
    : (r: map<(IdentityType, string), nat>)
    ensures forall k :: k in r <==> k in ids || k in keys
    ensures forall k | k in r :: r[k] == if k in ids then ids[k] else contact
  {
    ids + map k | k in keys && k !in ids :: contact
  }

  /** Some of these keys belong to another contact. */
  predicate Conflicts(ids: map<(IdentityType, string), nat>, keys: seq<(IdentityType, string)>, contact: nat) {
    exists key <- keys :: key in ids && ids[key] != contact
  }

  function Create(b: Book, p: Entry): Book {
    Book(b.contacts[b.next := Contact(p.name, p.resource, p.company)],
         AddKeys(b.identities, p.keys, b.next), b.next + 1)
  }

  /**
   * One person is imported: `b` becomes `b'`, counted as `kind`.
   * Which of several same-named contacts is linked is open.
   */
  ghost predicate Imports(b: Book, p: Entry, b': Book, kind: Kind) {
    if p.name == "" then b' == b && kind == SkippedNoName
    else if Linked(b, p) then b' == b && kind == AlreadyKnown
    else if p.keys == [] && p.resource.Some? && (exists id :: SameName(b, p, id)) then
      kind == AlreadyKnown && exists id :: SameName(b, p, id) && b' == SetResource(b, id, p)
    else
      var known := FirstKnown(b, p.keys);
      if known.Some? then
        b.identities[known.value] in b.contacts && (b', kind) == Attach(b, b.identities[known.value], p)
      else b' == Create(b, p) && kind == Imported
  }

  /** Both contacts are linked to one Google name. */
  predicate ShareResource(b: Book, c: nat, d: nat) {
    c in b.contacts && d in b.contacts && b.contacts[c].resource.Some?
      && b.contacts[c].resource == b.contacts[d].resource
  }

  /** The tables are sound: identities point at contacts, and no Google name is linked to two contacts. */
  ghost predicate Inv(b: Book) {
    && (forall id <- b.contacts :: id < b.next)
    && (forall key <- b.identities :: b.identities[key] in b.contacts)
    && (forall c: nat, d: nat | ShareResource(b, c, d) :: c == d)
  }

  /** Nothing is unlinked: contacts, resource names and identities only ever accumulate. */
  ghost predicate Grows(b: Book, b': Book) {
    && (forall id <- b.contacts ::
        id in b'.contacts && (b.contacts[id].resource.Some? ==> b'.contacts[id].resource == b.contacts[id].resource))
    && (forall key <- b.identities :: key in b'.identities && b'.identities[key] == b.identities[key])
  }

  ghost predicate Sound(b: Book, b': Book, kind: Kind) {
    Inv(b') && Grows(b, b') && |b'.contacts| == |b.contacts| + if kind == Imported then 1 else 0
  }

  lemma LinkingIsSound(b: Book, id: nat, p: Entry)
    requires Inv(b) && id in b.contacts && !Linked(b, p)
    ensures Sound(b, SetResource(b, id, p), AlreadyKnown)
  {
    var b' := SetResource(b, id, p);
    assert b'.contacts.Keys == b.contacts.Keys;
    forall c: nat, d: nat | ShareResource(b', c, d) ensures c == d {
      assert c != id && d != id ==> ShareResource(b, c, d);
      assert b' == b ==> ShareResource(b, c, d);
    }
  }

  lemma RenamingIsSound(b: Book, id: nat, name: string)
    requires Inv(b) && id in b.contacts
    ensures Sound(b, b.(contacts := b.contacts[id := b.contacts[id].(name := name)]), Renamed)
  {
    var b' := b.(contacts := b.contacts[id := b.contacts[id].(name := name)]);
    assert b'.contacts.Keys == b.contacts.Keys;
    forall c: nat, d: nat | ShareResource(b', c, d) ensures c == d { assert ShareResource(b, c, d); }
  }

  lemma GrowsTransitive(a: Book, b: Book, c: Book)
    requires Grows(a, b) && Grows(b, c)
    ensures Grows(a, c)
  {}

  lemma AttachingIsSound(b: Book, id: nat, p: Entry)
    requires Inv(b) && id in b.contacts && !Linked(b, p)
    ensures var (b', kind) := Attach(b, id, p); Sound(b, b', kind) && kind != Imported
  {
    var b1 := SetResource(b, id, p);
    LinkingIsSound(b, id, p);
    if IsPlaceholderName(b.contacts[id].name) {
      RenamingIsSound(b1, id, p.name);
      GrowsTransitive(b, b1, Attach(b, id, p).0);
    }
  }

  lemma CreatingKeepsInv(b: Book, p: Entry)
    requires Inv(b) && !Linked(b, p)
    ensures Inv(Create(b, p))
  {
    var b' := Create(b, p);
    forall key | key in b'.identities ensures b'.identities[key] in b'.contacts {
      if key in b.identities { assert b.identities[key] in b.contacts; }
    }
    forall c | c in b.contacts && p.resource.Some? ensures b.contacts[c].resource != p.resource {}
    forall c: nat, d: nat | ShareResource(b', c, d) ensures c == d {
      assert c != b.next && d != b.next ==> ShareResource(b, c, d);
    }
  }

  lemma CreatingGrows(b: Book, p: Entry)
    requires Inv(b)
    ensures Grows(b, Create(b, p)) && |Create(b, p).contacts| == |b.contacts| + 1
  {
    assert b.next !in b.contacts;
    assert Create(b, p).contacts.Keys == b.contacts.Keys + {b.next};
  }

  lemma ImportIsSoundStep(b: Book, p: Entry, b': Book, kind: Kind)
    requires Inv(b) && Imports(b, p, b', kind)
    ensures Sound(b, b', kind)
  {
    if p.name != "" && !Linked(b, p) {
      if p.keys == [] && p.resource.Some? && exists id :: SameName(b, p, id) {
        var id :| SameName(b, p, id) && b' == SetResource(b, id, p);
        LinkingIsSound(b, id, p);
      } else if FirstKnown(b, p.keys).Some? {
        AttachingIsSound(b, b.identities[FirstKnown(b, p.keys).value], p);
      } else {
        CreatingKeepsInv(b, p);
        CreatingGrows(b, p);
      }
    }
  }

  /** The import will recognise this person in this book. */
  ghost predicate Recognised(b: Book, p: Entry) {
    Linked(b, p) || exists key <- p.keys :: key in b.identities
  }

  lemma RecognisedStays(b: Book, b': Book, p: Entry)
    requires Grows(b, b') && Recognised(b, p)
    ensures Recognised(b', p)
  {
    if Linked(b, p) {
      var id :| id in b.contacts && b.contacts[id].resource == p.resource;
      assert id in b'.contacts && b'.contacts[id].resource == p.resource;
    } else {
      var key :| key in p.keys && key in b.identities;
      assert key in b'.identities;
    }
  }

  lemma ImportedIsRecognised(b: Book, p: Entry, b': Book, kind: Kind)
    requires Inv(b) && Imports(b, p, b', kind) && p.name != "" && Recognisable(p)
    ensures Recognised(b', p)
  {
    if kind == Imported {
      if p.resource.Some? {
        assert b'.contacts[b.next].resource == p.resource;
      } else {
        assert p.keys[0] in p.keys && p.keys[0] in b'.identities;
      }
    } else if !Linked(b, p) && p.keys == [] && p.resource.Some? && exists id :: SameName(b, p, id) {
      var id :| SameName(b, p, id) && b' == SetResource(b, id, p);
      assert b'.contacts[id].resource == p.resource;
    }
  }

  lemma RecognisedIsNotImported(b: Book, p: Entry, b': Book, kind: Kind)
    requires Imports(b, p, b', kind) && Recognised(b, p)
    ensures kind != Imported
  {}

  lemma UnrecognisableIsImported(b: Book, p: Entry, b': Book, kind: Kind)
    requires Imports(b, p, b', kind) && p.name != "" && !Recognisable(p)
    ensures kind == Imported
  {}

  // ---------------------------------------------------------------------
  // Importing a list

  /** The books an import goes through, one per person, and how each person was counted. */
  datatype Log = Log(books: seq<Book>, kinds: seq<Kind>)

  ghost predicate IsImport(log: Log, people: seq<Entry>, first: Book, last: Book) {
    && |log.kinds| == |people| && |log.books| == |people| + 1
    && log.books[0] == first && log.books[|people|] == last
    && forall i: nat | i < |people| :: StepAt(log, people, i)
  }

  ghost predicate StepAt(log: Log, people: seq<Entry>, i: nat)
    requires |log.kinds| == |people| && |log.books| == |people| + 1 && i < |people|
  {
    Imports(log.books[i], people[i], log.books[i + 1], log.kinds[i])
  }

  lemma ImportAt(log: Log, people: seq<Entry>, first: Book, last: Book, i: nat)
    requires IsImport(log, people, first, last) && i < |people|
    ensures Imports(log.books[i], people[i], log.books[i + 1], log.kinds[i])
  {
    assert StepAt(log, people, i);
  }

  lemma StepIsSound(log: Log, people: seq<Entry>, first: Book, last: Book, i: nat)
    requires IsImport(log, people, first, last) && i < |people| && Inv(log.books[i])
    ensures Sound(log.books[i], log.books[i + 1], log.kinds[i])
  {
    ImportAt(log, people, first, last, i);
    ImportIsSoundStep(log.books[i], people[i], log.books[i + 1], log.kinds[i]);
  }

  /** `result.imported += 1`, or the counter the person goes under. */
  function Bump(t: SyncResult, kind: Kind): SyncResult {
    match kind
    case Imported => t.(imported := t.imported + 1)
    case AlreadyKnown => t.(alreadyKnown := t.alreadyKnown + 1)
    case Renamed => t.(renamed := t.renamed + 1)
    case SkippedNoName => t.(skippedNoName := t.skippedNoName + 1)
  }

  /** The counters after the first `n` people. */
  function TallyUpTo(kinds: seq<Kind>, n: nat): SyncResult
    requires n <= |kinds|
  {
    if n == 0 then SyncResult(0, 0, 0, 0) else Bump(TallyUpTo(kinds, n - 1), kinds[n - 1])
  }

  function Tally(kinds: seq<Kind>): SyncResult {
    TallyUpTo(kinds, |kinds|)
  }

  lemma {:induction false} CountsAddUp(kinds: seq<Kind>, n: nat)
    requires n <= |kinds|
    ensures var t := TallyUpTo(kinds, n); t.imported + t.alreadyKnown + t.renamed + t.skippedNoName == n
  {
    if n > 0 { CountsAddUp(kinds, n - 1); }
  }

  /** Each book of an import is sound and keeps everything the first one held. */
  lemma {:induction false} PrefixIsSound(log: Log, people: seq<Entry>, first: Book, last: Book, n: nat)
    requires Inv(first) && IsImport(log, people, first, last) && n <= |people|
    ensures Inv(log.books[n]) && Grows(first, log.books[n])
    decreases n
  {
    if n > 0 {
      var b, b' := log.books[n - 1], log.books[n];
      PrefixIsSound(log, people, first, last, n - 1);
      StepIsSound(log, people, first, last, n - 1);
      GrowsTransitive(first, b, b');
    }
  }

  /** And holds as many contacts more as people were imported. */
  lemma {:induction false} PrefixCounts(log: Log, people: seq<Entry>, first: Book, last: Book, n: nat)
    requires Inv(first) && IsImport(log, people, first, last) && n <= |people|
    ensures |log.books[n].contacts| == |first.contacts| + TallyUpTo(log.kinds, n).imported
    decreases n
  {
    if n > 0 {
      PrefixCounts(log, people, first, last, n - 1);
      StepCounts(log, people, first, last, n - 1);
    }
  }

  lemma StepCounts(log: Log, people: seq<Entry>, first: Book, last: Book, i: nat)
    requires Inv(first) && IsImport(log, people, first, last) && i < |people|
    ensures |log.books[i + 1].contacts| == |log.books[i].contacts| + if log.kinds[i] == Imported then 1 else 0
  {
    PrefixIsSound(log, people, first, last, i);
    StepIsSound(log, people, first, last, i);
  }

  lemma NextBookGrows(log: Log, people: seq<Entry>, first: Book, last: Book, i: nat)
    requires Inv(first) && IsImport(log, people, first, last) && i < |people|
    ensures Grows(log.books[i], log.books[i + 1])
  {
    PrefixIsSound(log, people, first, last, i);
    StepIsSound(log, people, first, last, i);
  }

  lemma {:induction false} LaterBooksGrow(log: Log, people: seq<Entry>, first: Book, last: Book, m: nat, n: nat)
    requires Inv(first) && IsImport(log, people, first, last) && m <= n <= |people|
    ensures Grows(log.books[m], log.books[n])
    decreases n - m
  {
    if m < n {
      LaterBooksGrow(log, people, first, last, m, n - 1);
      NextBookGrows(log, people, first, last, n - 1);
      GrowsTransitive(log.books[m], log.books[n - 1], log.books[n]);
    }
  }

  /** An import adds exactly as many contacts as it reports, keeps Google names injective, and counts everyone once. */
  lemma ImportIsSound(log: Log, people: seq<Entry>, first: Book, last: Book)
    requires Inv(first) && IsImport(log, people, first, last)
    ensures Inv(last)
    ensures |last.contacts| == |first.contacts| + Tally(log.kinds).imported
    ensures var t := Tally(log.kinds); t.imported + t.alreadyKnown + t.renamed + t.skippedNoName == |people|
  {
    PrefixIsSound(log, people, first, last, |people|);
    PrefixCounts(log, people, first, last, |people|);
    CountsAddUp(log.kinds, |people|);
  }

  lemma StepRecognises(log: Log, people: seq<Entry>, first: Book, last: Book, i: nat)
    requires Inv(first) && IsImport(log, people, first, last)
    requires i < |people| && people[i].name != "" && Recognisable(people[i])
    ensures Recognised(log.books[i + 1], people[i])
  {
    PrefixIsSound(log, people, first, last, i);
    ImportAt(log, people, first, last, i);
    ImportedIsRecognised(log.books[i], people[i], log.books[i + 1], log.kinds[i]);
  }

  /** After an import, whatever was added since, every named recognisable person of the list is recognised. */
  lemma EveryoneIsRecognised(log: Log, people: seq<Entry>, first: Book, last: Book, i: nat)
    requires Inv(first) && IsImport(log, people, first, last)
    requires i < |people| && people[i].name != "" && Recognisable(people[i])
    ensures Recognised(last, people[i])
  {
    StepRecognises(log, people, first, last, i);
    LaterBooksGrow(log, people, first, last, i + 1, |people|);
    RecognisedStays(log.books[i + 1], last, people[i]);
  }

  /**
   * Importing the same list again creates a contact for exactly those named people who carry neither a Google name
   * nor a usable number or address; it creates none when everyone is recognisable.
   */
  lemma SecondImportIsExact(people: seq<Entry>, first: Book, middle: Book, last: Book, log1: Log, log2: Log, i: nat)
    requires Inv(first) && IsImport(log1, people, first, middle) && IsImport(log2, people, middle, last)
    requires i < |people|
    ensures log2.kinds[i] == Imported <==> people[i].name != "" && !Recognisable(people[i])
  {
    ImportIsSound(log1, people, first, middle);
    ImportAt(log2, people, middle, last, i);
    if people[i].name != "" {
      if Recognisable(people[i]) {
        EveryoneIsRecognised(log1, people, first, middle, i);
        PrefixIsSound(log2, people, middle, last, i);
        RecognisedStays(middle, log2.books[i], people[i]);
        RecognisedIsNotImported(log2.books[i], people[i], log2.books[i + 1], log2.kinds[i]);
      } else {
        UnrecognisableIsImported(log2.books[i], people[i], log2.books[i + 1], log2.kinds[i]);
      }
    }
  }

  predicate IsAnonymous(p: Entry) {
    p.name != "" && !Recognisable(p)
  }

  /** How many of the first `n` people are named, but an import has no way to recognise them. */
  function AnonymousUpTo(people: seq<Entry>, n: nat): nat
    requires n <= |people|
  {
    if n == 0 then 0 else AnonymousUpTo(people, n - 1) + if IsAnonymous(people[n - 1]) then 1 else 0
  }

  function Anonymous(people: seq<Entry>): nat {
    AnonymousUpTo(people, |people|)
  }

  lemma {:induction false} AnonymousAreCounted(kinds: seq<Kind>, people: seq<Entry>, n: nat)
    requires n <= |kinds| == |people|
    requires forall i | 0 <= i < |people| :: kinds[i] == Imported <==> IsAnonymous(people[i])
    ensures TallyUpTo(kinds, n).imported == AnonymousUpTo(people, n)
  {
    if n > 0 { AnonymousAreCounted(kinds, people, n - 1); }
  }

  // ---------------------------------------------------------------------
  // The pages of one sync

  function ReadAll(people: seq<Person>): (r: seq<Entry>)
    ensures |r| == |people|
  {
    seq(|people|, i requires 0 <= i < |people| => Read(people[i]))
  }

  /** The entries of the first `n` pages; `api` is what each of the twenty possible requests would be answered. */
  function Entries(api: seq<Page>, n: nat): seq<Entry>
    requires n <= |api|
  {
    if n == 0 then [] else Entries(api, n - 1) + ReadAll(api[n - 1].connections)
  }

  /** The first `n` pages all announce a next one. */
  predicate AllMore(api: seq<Page>, n: nat)
    requires n <= |api|
  {
    n == 0 || (AllMore(api, n - 1) && api[n - 1].more)
  }

  /** sync() reads `n` pages: up to the first one without a successor, or twenty. */
  ghost predicate ReadsPages(api: seq<Page>, n: nat) {
    |api| == MAX_PAGES && 1 <= n <= MAX_PAGES && AllMore(api, n - 1) && (n == MAX_PAGES || !api[n - 1].more)
  }

  lemma {:induction false} AllMoreAt(api: seq<Page>, n: nat, i: nat)
    requires i < n <= |api| && AllMore(api, n)
    ensures api[i].more
    decreases n
  {
    if i < n - 1 { AllMoreAt(api, n - 1, i); }
  }

  lemma ReadsPagesOnce(api: seq<Page>, m: nat, n: nat)
    requires ReadsPages(api, m) && ReadsPages(api, n)
    ensures m == n
  {
    if m - 1 < n - 1 { AllMoreAt(api, n - 1, m - 1); }
    if n - 1 < m - 1 { AllMoreAt(api, m - 1, n - 1); }
  }

  /** A step found again in another log. */
  lemma SameStep(log: Log, people: seq<Entry>, i: nat, log': Log, people': seq<Entry>, i': nat)
    requires |log.kinds| == |people| && |log.books| == |people| + 1 && i < |people| && StepAt(log, people, i)
    requires |log'.kinds| == |people'| && |log'.books| == |people'| + 1 && i' < |people'|
    requires log'.books[i'] == log.books[i] && log'.books[i' + 1] == log.books[i + 1]
    requires people'[i'] == people[i] && log'.kinds[i'] == log.kinds[i]
    ensures StepAt(log', people', i')
  {}

  lemma ExtendImport(log: Log, people: seq<Entry>, first: Book, middle: Book, p: Entry, last: Book, kind: Kind)
    returns (log': Log)
    requires IsImport(log, people, first, middle) && Imports(middle, p, last, kind)
    ensures IsImport(log', people + [p], first, last) && log'.kinds == log.kinds + [kind]
  {
    log' := Log(log.books + [last], log.kinds + [kind]);
    forall i: nat | i < |people + [p]| ensures StepAt(log', people + [p], i) {
      if i < |people| {
        ImportAt(log, people, first, middle, i);
        SameStep(log, people, i, log', people + [p], i);
      }
    }
  }

  function Plus(s: SyncResult, t: SyncResult): SyncResult {
    SyncResult(s.imported + t.imported, s.alreadyKnown + t.alreadyKnown,
               s.renamed + t.renamed, s.skippedNoName + t.skippedNoName)
  }

  /** The first counters do not depend on who comes later. */
  lemma {:induction false} TallyIsLocal(a: seq<Kind>, b: seq<Kind>, n: nat)
    requires n <= |a|
    ensures TallyUpTo(a + b, n) == TallyUpTo(a, n)
  {
    if n > 0 { TallyIsLocal(a, b, n - 1); }
  }

  lemma {:induction false} TallyConcat(a: seq<Kind>, b: seq<Kind>, n: nat)
    requires n <= |b|
    ensures TallyUpTo(a + b, |a| + n) == Plus(TallyUpTo(a, |a|), TallyUpTo(b, n))
  {
    if n == 0 {
      TallyIsLocal(a, b, |a|);
    } else {
      TallyConcat(a, b, n - 1);
      assert (a + b)[|a| + n - 1] == b[n - 1];
    }
  }

  lemma JoinImports(a: Log, ps: seq<Entry>, first: Book, middle: Book, b: Log, qs: seq<Entry>, last: Book)
    returns (log: Log)
    requires IsImport(a, ps, first, middle) && IsImport(b, qs, middle, last)
    ensures IsImport(log, ps + qs, first, last) && Tally(log.kinds) == Plus(Tally(a.kinds), Tally(b.kinds))
  {
    TallyConcat(a.kinds, b.kinds, |b.kinds|);
    log := Log(a.books + b.books[1..], a.kinds + b.kinds);
    forall i: nat | i < |ps + qs| ensures StepAt(log, ps + qs, i) {
      if i < |ps| {
        SameStep(a, ps, i, log, ps + qs, i);
      } else {
        SameStep(b, qs, i - |ps|, log, ps + qs, i);
      }
    }
  }

  lemma AddKeysSnoc(ids: map<(IdentityType, string), nat>, keys: seq<(IdentityType, string)>,
                    key: (IdentityType, string), id: nat)
    ensures AddKeys(ids, keys + [key], id) == AddKeys(AddKeys(ids, keys, id), [key], id)
  {}

  class ContactBook {
    var contacts: map<nat, Contact>
    var identities: map<(IdentityType, string), nat>
    var next: nat

    constructor (contacts: map<nat, Contact>, identities: map<(IdentityType, string), nat>, next: nat)
      ensures View() == Book(contacts, identities, next)
    {
      this.contacts, this.identities, this.next := contacts, identities, next;
    }

    ghost function View(): Book
      reads this
    {
      Book(contacts, identities, next)
    }

    /** ContactService.addIdentity: an identity belongs to one contact; the unique index makes the key. */
    method AddIdentity(id: nat, key: (IdentityType, string)) returns (r: Result<nat, Error>)
      modifies this`identities
      ensures r.Err? ==> View() == old(View())
      ensures r == if id !in contacts then Err(ContactNotFound)
                   else if key in old(identities) && old(identities)[key] != id then Err(IdentityConflict) else Ok(id)
      ensures r.Ok? ==> identities == AddKeys(old(identities), [key], id)
    {
      if id !in contacts { return Err(ContactNotFound); }
      if key in identities && identities[key] != id { return Err(IdentityConflict); }
      if key in identities { return Ok(identities[key]); }
      identities := identities[key := id];
      r := Ok(id);
    }

    /** The two loops at the end of importPerson: they stop at the first identity that belongs to another contact. */
    method AddIdentities(id: nat, keys: seq<(IdentityType, string)>) returns (r: Result<nat, Error>)
      requires id in contacts
      modifies this`identities
      ensures r == (if Conflicts(old(identities), keys, id) then Err(IdentityConflict) else Ok(id))
      ensures r.Ok? <==> forall key <- keys | key in old(identities) :: old(identities)[key] == id
      ensures r.Ok? ==> identities == AddKeys(old(identities), keys, id)
    {
      var i := 0;
      while i < |keys|
        invariant 0 <= i <= |keys|
        invariant identities == AddKeys(old(identities), keys[..i], id)
        invariant !Conflicts(old(identities), keys[..i], id)
      {
        AddKeysSnoc(old(identities), keys[..i], keys[i], id);
        assert keys[..i + 1] == keys[..i] + [keys[i]];
        assert keys[i] in keys;
        var added := AddIdentity(id, keys[i]);
        if added.Err? { return added; }
        i := i + 1;
      }
      assert keys[..i] == keys;
      r := Ok(id);
    }

    method FindLinked(resource: Option<string>) returns (found: bool)
      ensures found <==> exists id <- contacts :: contacts[id].resource == resource
    {
      found := exists id <- contacts :: contacts[id].resource == resource;
    }

    /** The lookup loop: the first identity already on file, numbers before addresses. */
    method FindByIdentities(keys: seq<(IdentityType, string)>) returns (found: Option<(IdentityType, string)>)
      ensures found == FirstKnown(View(), keys)
    {
      var i := 0;
      while i < |keys|
        invariant 0 <= i <= |keys|
        invariant FirstKnown(View(), keys) == FirstKnown(View(), keys[i..])
      {
        if keys[i] in identities { return Some(keys[i]); }
        i := i + 1;
      }
      found := None;
    }

    /** An unlinked contact of that name and without identities; which one is up to the database. */
    method FindSameName(p: Entry) returns (found: Option<nat>)
      ensures found.Some? ==> SameName(View(), p, found.value)
      ensures found.None? ==> forall id :: !SameName(View(), p, id)
    {
      var candidates := set id | id in contacts && contacts[id].name == p.name && contacts[id].resource.None?
        && id !in identities.Values;
      if candidates == {} {
        assert forall id :: SameName(View(), p, id) ==> id in candidates;
        return None;
      }
      var id :| id in candidates;
      found := Some(id);
    }

    /** A contact known by one of its identities: link it if it is unlinked, name it if it only had a number. */
    method AttachTo(id: nat, p: Entry) returns (kind: Kind)
      requires id in contacts
      modifies this`contacts
      ensures (View(), kind) == Attach(old(View()), id, p)
    {
      var existing := contacts[id];
      if p.resource.Some? && existing.resource.None? {
        contacts := contacts[id := contacts[id].(resource := p.resource)];
      }
      if IsPlaceholderName(existing.name) {
        contacts := contacts[id := contacts[id].(name := p.name)];
        return Renamed;
      }
      kind := AlreadyKnown;
    }

    /** Nobody knows this person: a contact, its Google name, then its identities. */
    method CreateFrom(p: Entry) returns (r: Result<nat, Error>)
      requires Inv(View())
      modifies this
      ensures r.Ok? <==> forall key <- p.keys :: key !in old(identities)
      ensures r == (if r.Ok? then Ok(old(next)) else Err(IdentityConflict))
      ensures r.Ok? ==> View() == Create(old(View()), p)
    {
      var id := next;
      contacts := contacts[id := Contact(p.name, None, p.company)];
      next := next + 1;
      if p.resource.Some? { contacts := contacts[id := contacts[id].(resource := p.resource)]; }
      r := AddIdentities(id, p.keys);
    }

    method ImportPerson(p: Entry) returns (r: Result<Kind, Error>)
      requires Inv(View())
      modifies this
      ensures r.Ok? && Imports(old(View()), p, View(), r.value)
      ensures Inv(View())
    {
      ghost var before := View();
      if p.name == "" { return Ok(SkippedNoName); }
      if p.resource.Some? {
        var linked := FindLinked(p.resource);
        if linked { return Ok(AlreadyKnown); }
      }
      var same: Option<nat> := None;
      if p.keys == [] && p.resource.Some? { same := FindSameName(p); }
      if same.Some? {
        contacts := contacts[same.value := contacts[same.value].(resource := p.resource)];
        assert SameName(before, p, same.value) && View() == SetResource(before, same.value, p);
        r := Ok(AlreadyKnown);
      } else {
        var known := FindByIdentities(p.keys);
        if known.Some? {
          var kind := AttachTo(identities[known.value], p);
          r := Ok(kind);
        } else {
          var created := CreateFrom(p);
          match created {
            case Ok(_) => r := Ok(Imported);
            case Err(error) => r := Err(error);
          }
        }
      }
      ImportIsSoundStep(before, p, View(), r.value);
    }

    /** One page of people. */
    method ImportAll(people: seq<Entry>) returns (r: Result<SyncResult, Error>, ghost log: Log)
      requires Inv(View())
      modifies this
      ensures Inv(View()) && IsImport(log, people, old(View()), View())
      ensures r == Ok(Tally(log.kinds))
    {
      log := Log([View()], []);
      var result := SyncResult(0, 0, 0, 0);
      var i := 0;
      while i < |people|
        invariant 0 <= i <= |people|
        invariant Inv(View()) && IsImport(log, people[..i], old(View()), View())
        invariant result == Tally(log.kinds)
      {
        ghost var before := View();
        var one := ImportPerson(people[i]);
        match one.value {
          case Imported => result := result.(imported := result.imported + 1);
          case AlreadyKnown => result := result.(alreadyKnown := result.alreadyKnown + 1);
          case Renamed => result := result.(renamed := result.renamed + 1);
          case SkippedNoName => result := result.(skippedNoName := result.skippedNoName + 1);
        }
        assert people[..i + 1] == people[..i] + [people[i]];
        ghost var longer := ExtendImport(log, people[..i], old(View()), before, people[i], View(), one.value);
        TallyIsLocal(log.kinds, [one.value], |log.kinds|);
        log := longer;
        i := i + 1;
      }
      assert people[..i] == people;
      r := Ok(result);
    }

    method SyncPage(page: Page, ghost log: Log, ghost done: seq<Entry>, ghost start: Book, result: SyncResult)
      returns (ghost log': Log, result': SyncResult)
      requires Inv(View()) && IsImport(log, done, start, View()) && result == Tally(log.kinds)
      modifies this
      ensures Inv(View()) && IsImport(log', done + ReadAll(page.connections), start, View())
        && result' == Tally(log'.kinds)
    {
      ghost var before := View();
      var people := ReadAll(page.connections);
      var one, pageLog := ImportAll(people);
      log' := JoinImports(log, done, start, before, pageLog, people, View());
      result' := Plus(result, one.value);
    }

    /** sync(): page after page, until the last one or the twentieth. */
    method Sync(api: seq<Page>) returns (r: Result<SyncResult, Error>, ghost pages: nat, ghost log: Log)
      requires Inv(View()) && |api| == MAX_PAGES
      modifies this
      ensures ReadsPages(api, pages)
      ensures Inv(View()) && IsImport(log, Entries(api, pages), old(View()), View())
      ensures r == Ok(Tally(log.kinds))
    {
      log := Log([View()], []);
      var result := SyncResult(0, 0, 0, 0);
      var page := 0;
      var more := true;
      ghost var start := View();
      while page < MAX_PAGES && more
        invariant 0 <= page <= MAX_PAGES && (page == 0 ==> more)
        invariant if more then AllMore(api, page) else page > 0 && !api[page - 1].more && AllMore(api, page - 1)
        invariant Inv(View()) && IsImport(log, Entries(api, page), start, View())
        invariant result == Tally(log.kinds)
      {
        log, result := SyncPage(api[page], log, Entries(api, page), start, result);
        more := api[page].more;
        page := page + 1;
      }
      pages := page;
      r := Ok(result);
    }

    /** Syncing again with the same answers creates one contact per named person nobody can recognise, and no other. */
    method SyncTwice(api: seq<Page>)
      returns (first: Result<SyncResult, Error>, second: Result<SyncResult, Error>, ghost pages: nat)
      requires Inv(View()) && |api| == MAX_PAGES
      modifies this
      ensures Inv(View()) && first.Ok? && second.Ok? && ReadsPages(api, pages)
      ensures |contacts| == |old(contacts)| + first.value.imported + second.value.imported
      ensures second.value.imported == Anonymous(Entries(api, pages))
    {
      ghost var start := View();
      ghost var pages2, log1, log2;
      first, pages, log1 := Sync(api);
      ghost var middle := View();
      second, pages2, log2 := Sync(api);
      ReadsPagesOnce(api, pages, pages2);
      ghost var people := Entries(api, pages);
      ImportIsSound(log1, people, start, middle);
      ImportIsSound(log2, people, middle, View());
      forall i | 0 <= i < |people|
        ensures log2.kinds[i] == Imported <==> people[i].name != "" && !Recognisable(people[i])
      {
        SecondImportIsExact(people, start, middle, View(), log1, log2, i);
      }
      AnonymousAreCounted(log2.kinds, people, |people|);
    }
  }
}
