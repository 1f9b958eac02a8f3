/**
 * Which identities the import takes from a person, and which people from the pages of a sync, character by character
 * and place by place.
 */
module ContactKeys {
  import opened Wrappers
  import opened Text
  import opened ContactImport

  // ---------------------------------------------------------------------
  // Numbers

  predicate IsPunctuation(c: char) {
    c == '(' || c == ')' || c == '-' || c == '.' || IsSpace(c)
  }

  /** What is left of a number as written when its punctuation is taken out. */
  ghost predicate IsBare(raw: string, v: string) {
    if raw == "" then v == ""
    else if IsPunctuation(raw[0]) then IsBare(raw[1..], v)
    else v != "" && v[0] == raw[0] && IsBare(raw[1..], v[1..])
  }

  /** A plus sign and eight to fifteen digits. */
  predicate IsInternational(v: string) {
    8 <= |v| - 1 <= 15 && v[0] == '+' && forall i | 0 < i < |v| :: '0' <= v[i] <= '9'
  }

  lemma {:induction false} BareIff(raw: string, v: string)
    ensures IsBare(raw, v) <==> v == Keep(raw, IsNotPunctuation)
    decreases |raw|
  {
    if raw != "" {
      if IsPunctuation(raw[0]) {
        BareIff(raw[1..], v);
      } else if v != "" {
        BareIff(raw[1..], v[1..]);
        assert v == [v[0]] + v[1..];
      }
    }
  }

  lemma InternationalIff(v: string)
    ensures IsE164(v) <==> IsInternational(v)
  {}

  /** A number is a key exactly when it was written down, and is international once bare: none is guessed into one. */
  lemma NumbersAreKeysIff(p: Person, v: string)
    ensures (WhatsApp, v) in Read(p).keys
       <==> IsInternational(v) && exists r <- p.phoneNumbers :: r.Some? && IsBare(r.value, v)
  {
    InternationalIff(v);
    if (WhatsApp, v) in Read(p).keys {
      var i :| 0 <= i < |Read(p).keys| && Read(p).keys[i] == (WhatsApp, v);
      KeysAreUsable(p, i);
      var r :| r in p.phoneNumbers && PhoneOf(r) == v;
      BareIff(OrEmpty(r), v);
    }
    if r :| r in p.phoneNumbers && IsInternational(v) && r.Some? && IsBare(r.value, v) {
      BareIff(r.value, v);
      KeysAreComplete(p, r);
    }
  }

  // ---------------------------------------------------------------------
  // Addresses

  predicate IsLowerOf(c: char, d: char) {
    if 'A' <= c <= 'Z' then d as int == c as int + 32 else d == c
  }

  /** The core of a text with every capital letter in lower case. */
  ghost predicate IsLowered(core: string, v: string) {
    |v| == |core| && forall i | 0 <= i < |v| :: IsLowerOf(core[i], v[i])
  }

  ghost predicate IsAddressOf(raw: string, v: string) {
    exists core :: IsCore(core, raw) && IsLowered(core, v)
  }

  lemma LoweredIff(core: string, v: string)
    ensures IsLowered(core, v) <==> v == ToLower(core)
  {
    if IsLowered(core, v) {
      forall i | 0 <= i < |v| ensures v[i] == ToLower(core)[i] { assert IsLowerOf(core[i], v[i]); }
    }
    if v == ToLower(core) {
      forall i | 0 <= i < |v| ensures IsLowerOf(core[i], v[i]) { assert v[i] == LowerChar(core[i]); }
    }
  }

  lemma AddressIff(raw: string, v: string)
    ensures IsAddressOf(raw, v) <==> v == EmailOf(Some(raw))
  {
    OneCore(Trim(raw), raw);
    LoweredIff(Trim(raw), v);
    if core :| IsCore(core, raw) && IsLowered(core, v) { OneCore(core, raw); }
  }

  lemma AddressKeyWasWritten(p: Person, v: string)
    requires (Email, v) in Read(p).keys
    ensures '@' in v && exists r <- p.emailAddresses :: r.Some? && IsAddressOf(r.value, v)
  {
    var i :| 0 <= i < |Read(p).keys| && Read(p).keys[i] == (Email, v);
    KeysAreUsable(p, i);
    var r :| r in p.emailAddresses && EmailOf(r) == v;
    AddressIff(OrEmpty(r), v);
    assert r.Some?;
  }

  lemma WrittenAddressIsAKey(p: Person, r: Option<string>, v: string)
    requires r in p.emailAddresses && '@' in v && r.Some? && IsAddressOf(r.value, v)
    ensures (Email, v) in Read(p).keys
  {
    AddressIff(r.value, v);
    KeysAreComplete(p, r);
  }

  /** An address is a key exactly when it was written down, in whatever case, and has an at sign. */
  lemma AddressesAreKeysIff(p: Person, v: string)
    ensures (Email, v) in Read(p).keys
       <==> '@' in v && exists r <- p.emailAddresses :: r.Some? && IsAddressOf(r.value, v)
  {
    if (Email, v) in Read(p).keys { AddressKeyWasWritten(p, v); }
    if r :| r in p.emailAddresses && '@' in v && r.Some? && IsAddressOf(r.value, v) { WrittenAddressIsAKey(p, r, v); }
  }

  lemma {:induction false} PhonesConcat(a: seq<Option<string>>, b: seq<Option<string>>)
    ensures Phones(a + b) == Phones(a) + Phones(b)
    decreases |a|
  {
    if a == [] {
      assert a + b == b;
    } else {
      assert (a + b)[1..] == a[1..] + b;
      PhonesConcat(a[1..], b);
      var first := if IsE164(PhoneOf(a[0])) then [PhoneOf(a[0])] else [];
      assert first + (Phones(a[1..]) + Phones(b)) == (first + Phones(a[1..])) + Phones(b);
    }
  }

  lemma {:induction false} EmailsConcat(a: seq<Option<string>>, b: seq<Option<string>>)
    ensures Emails(a + b) == Emails(a) + Emails(b)
    decreases |a|
  {
    if a == [] {
      assert a + b == b;
    } else {
      assert (a + b)[1..] == a[1..] + b;
      EmailsConcat(a[1..], b);
      var first := if '@' in EmailOf(a[0]) then [EmailOf(a[0])] else [];
      assert first + (Emails(a[1..]) + Emails(b)) == (first + Emails(a[1..])) + Emails(b);
    }
  }

  lemma OnePhone(r: Option<string>)
    ensures Phones([r]) == if IsInternational(PhoneOf(r)) then [PhoneOf(r)] else []
  {
    InternationalIff(PhoneOf(r));
    assert [r][1..] == [] && Phones([]) == [];
  }

  lemma OneEmail(r: Option<string>)
    ensures Emails([r]) == if '@' in EmailOf(r) then [EmailOf(r)] else []
  {
    assert [r][1..] == [] && Emails([]) == [];
  }

  /** One more number comes after those before it: the keys keep the order in which they are written. */
  lemma NumbersKeepTheirOrder(p: Person, r: Option<string>)
    ensures Phones(p.phoneNumbers + [r])
         == Phones(p.phoneNumbers) + if IsInternational(PhoneOf(r)) then [PhoneOf(r)] else []
  {
    PhonesConcat(p.phoneNumbers, [r]);
    OnePhone(r);
  }

  lemma AddressesKeepTheirOrder(p: Person, r: Option<string>)
    ensures Emails(p.emailAddresses + [r])
         == Emails(p.emailAddresses) + if '@' in EmailOf(r) then [EmailOf(r)] else []
  {
    EmailsConcat(p.emailAddresses, [r]);
    OneEmail(r);
  }

  /** What the address book files a number under: its digits and plus signs, one after the other. */
  lemma NumbersAreFiledUnder(raw: string, c: char)
    ensures Normalize(WhatsApp, "") == ""
    ensures Normalize(WhatsApp, raw + [c])
         == Normalize(WhatsApp, raw) + if '0' <= c <= '9' || c == '+' then [c] else ""
  {
    KeepConcat(raw, [c], IsPhoneChar);
    KeepOne(c, IsPhoneChar);
  }

  /** And an address: its core in lower case. */
  lemma AddressesAreFiledUnder(raw: string, v: string)
    ensures Normalize(Email, raw) == v <==> IsAddressOf(raw, v)
  {
    AddressIff(raw, v);
  }

  // ---------------------------------------------------------------------
  // Pages

  /** A sync reads up to twenty pages, and stops after the first that announces no other. */
  lemma ReadsPagesIff(api: seq<Page>, n: nat)
    ensures ReadsPages(api, n)
       <==> && |api| == 20 && 1 <= n <= 20
            && (forall i | 0 <= i < n - 1 :: api[i].more) && (n < 20 ==> !api[n - 1].more)
  {
    if |api| == 20 && 1 <= n <= 20 { AllMoreIff(api, n - 1); }
  }

  lemma {:induction false} AllMoreIff(api: seq<Page>, n: nat)
    requires n <= |api|
    ensures AllMore(api, n) <==> forall i | 0 <= i < n :: api[i].more
    decreases n
  {
    if n > 0 { AllMoreIff(api, n - 1); }
  }

  /** How many people the first `n` pages hold. */
  function PeopleOn(api: seq<Page>, n: nat): nat
    requires n <= |api|
  {
    if n == 0 then 0 else PeopleOn(api, n - 1) + |api[n - 1].connections|
  }

  lemma {:induction false} AsManyAreRead(api: seq<Page>, n: nat)
    requires n <= |api|
    ensures |Entries(api, n)| == PeopleOn(api, n)
    decreases n
  {
    if n > 0 { AsManyAreRead(api, n - 1); }
  }

  /** Everyone on the pages read is imported, page after page, each in their place. */
  lemma {:induction false} EveryoneIsRead(api: seq<Page>, n: nat, k: nat, i: nat)
    requires k < n <= |api| && i < |api[k].connections|
    ensures PeopleOn(api, k) + i < PeopleOn(api, n) == |Entries(api, n)|
    ensures Entries(api, n)[PeopleOn(api, k) + i] == Read(api[k].connections[i])
    decreases n
  {
    AsManyAreRead(api, n - 1);
    AsManyAreRead(api, n);
    if k < n - 1 {
      EveryoneIsRead(api, n - 1, k, i);
    } else {
      assert Entries(api, n)[PeopleOn(api, k) + i] == ReadAll(api[k].connections)[i];
    }
  }

  // ---------------------------------------------------------------------
  // Whom a second sync takes for new

  function AnonymousPlaces(people: seq<Entry>): set<int> {
    set i | 0 <= i < |people| && people[i].name != "" && people[i].resource == None && people[i].keys == []
  }

  lemma OneMorePlace(people: seq<Entry>, n: nat)
    requires 0 < n <= |people|
    ensures |AnonymousPlaces(people[..n])|
         == |AnonymousPlaces(people[..n - 1])| + if IsAnonymous(people[n - 1]) then 1 else 0
  {
    var before, now := AnonymousPlaces(people[..n - 1]), AnonymousPlaces(people[..n]);
    assert n - 1 !in before;
    assert now == before + if IsAnonymous(people[n - 1]) then {n - 1} else {};
  }

  lemma {:induction false} AnonymousUpToIs(people: seq<Entry>, n: nat)
    requires n <= |people|
    ensures AnonymousUpTo(people, n) == |AnonymousPlaces(people[..n])|
    decreases n
  {
    if n > 0 {
      AnonymousUpToIs(people, n - 1);
      OneMorePlace(people, n);
    }
  }

  /** Those counted again are the people with a name, but neither Google name nor identity. */
  lemma AnonymousAre(people: seq<Entry>)
    ensures Anonymous(people) == |AnonymousPlaces(people)|
  {
    AnonymousUpToIs(people, |people|);
    assert people[..|people|] == people;
  }
}
