/** The string operations the models need, as JavaScript defines them; case folding is ASCII only. */
module Text {
  /** `\s`, which is also what trim() removes. */
  predicate IsSpace(c: char) {
    c == ' ' || '\U{0009}' <= c <= '\U{000D}' || c == '\U{00A0}' || c == '\U{1680}' || '\U{2000}' <= c <= '\U{200A}'
    || c == '\U{2028}' || c == '\U{2029}' || c == '\U{202F}' || c == '\U{205F}' || c == '\U{3000}' || c == '\U{FEFF}'
  }

  predicate IsDigit(c: char) {
    '0' <= c <= '9'
  }

  function TrimStart(s: string): (r: string)
    ensures |r| <= |s|
  {
    if s != "" && IsSpace(s[0]) then TrimStart(s[1..]) else s
  }

  function TrimEnd(s: string): (r: string)
    ensures |r| <= |s|
  {
    if s != "" && IsSpace(s[|s| - 1]) then TrimEnd(s[..|s| - 1]) else s
  }

  lemma {:induction false} TrimStartIsSuffix(s: string)
    ensures var r := TrimStart(s);
      && r == s[|s| - |r|..] && (r != "" ==> !IsSpace(r[0]))
      && forall i | 0 <= i < |s| - |r| :: IsSpace(s[i])
  {
    if s != "" && IsSpace(s[0]) {
      TrimStartIsSuffix(s[1..]);
      var r := TrimStart(s);
      forall i | 0 <= i < |s| - |r| ensures IsSpace(s[i]) {
        if i > 0 { assert s[i] == s[1..][i - 1]; }
      }
    }
  }

  lemma {:induction false} TrimEndIsPrefix(s: string)
    ensures var r := TrimEnd(s);
      && r == s[..|r|] && (r != "" ==> !IsSpace(r[|r| - 1]))
      && forall i | |r| <= i < |s| :: IsSpace(s[i])
    decreases |s|
  {
    if s != "" && IsSpace(s[|s| - 1]) {
      TrimEndIsPrefix(s[..|s| - 1]);
    }
  }

  predicate Trimmed(s: string) {
    s == "" || (!IsSpace(s[0]) && !IsSpace(s[|s| - 1]))
  }

  function Trim(s: string): (r: string)
    ensures Trimmed(r) && |r| <= |s|
    ensures Trimmed(s) ==> r == s
  {
    TrimStartIsSuffix(s);
    TrimEndIsPrefix(TrimStart(s));
    TrimEnd(TrimStart(s))
  }

  function LowerChar(c: char): char {
    if 'A' <= c <= 'Z' then c - 'A' + 'a' else c
  }

  function ToLower(s: string): (r: string)
    ensures |r| == |s|
  {
    seq(|s|, i requires 0 <= i < |s| => LowerChar(s[i]))
  }

  /** The characters of `s` that satisfy `keep`, in order. */
  function Keep(s: string, keep: char -> bool): string {
    if s == "" then "" else (if keep(s[0]) then [s[0]] else "") + Keep(s[1..], keep)
  }

  function Join(parts: seq<string>, separator: string): string {
    if parts == [] then "" else if |parts| == 1 then parts[0] else parts[0] + separator + Join(parts[1..], separator)
  }

  // ---------------------------------------------------------------------
  // What they come to

  const WHITE_SPACE: set<int> :=
    {0x09, 0x0A, 0x0B, 0x0C, 0x0D, 0x20, 0xA0, 0x1680, 0x2000, 0x2001, 0x2002, 0x2003, 0x2004, 0x2005, 0x2006, 0x2007,
     0x2008, 0x2009, 0x200A, 0x2028, 0x2029, 0x202F, 0x205F, 0x3000, 0xFEFF}

  /** The white space and line terminators of ECMAScript. */
  lemma WhiteSpaceIs(c: char)
    ensures IsSpace(c) <==> c as int in WHITE_SPACE
  {}

  lemma JoinOne(part: string, separator: string)
    ensures Join([part], separator) == part && Join([], separator) == ""
  {}

  /** The separator stands between any two parts, and nowhere else. */
  lemma {:induction false} JoinConcat(a: seq<string>, b: seq<string>, separator: string)
    requires a != [] && b != []
    ensures Join(a + b, separator) == Join(a, separator) + separator + Join(b, separator)
    decreases |a|
  {
    var all := a + b;
    if |a| == 1 {
      assert all[1..] == b;
    } else {
      assert all[1..] == a[1..] + b;
      JoinConcat(a[1..], b, separator);
      var head, rest, tail := a[0] + separator, Join(a[1..], separator), separator + Join(b, separator);
      assert head + (rest + tail) == (head + rest) + tail;
    }
  }

  ghost predicate Blank(s: string) {
    forall i | 0 <= i < |s| :: IsSpace(s[i])
  }

  /** trim() takes off the white space at both ends, and nothing else. */
  lemma TrimTakesOffSpace(s: string) returns (front: string, back: string)
    ensures s == front + Trim(s) + back && Blank(front) && Blank(back)
  {
    TrimStartIsSuffix(s);
    var t := TrimStart(s);
    TrimEndIsPrefix(t);
    front, back := s[..|s| - |t|], t[|Trim(s)|..];
    assert t == Trim(s) + back && s == front + t;
  }

  /** Filtering distributes over concatenation, and a character stays exactly when it satisfies `keep`. */
  lemma {:induction false} KeepConcat(a: string, b: string, keep: char -> bool)
    ensures Keep(a + b, keep) == Keep(a, keep) + Keep(b, keep)
    decreases |a|
  {
    if a == "" {
      assert a + b == b;
    } else {
      assert (a + b)[1..] == a[1..] + b;
      KeepConcat(a[1..], b, keep);
      var head := if keep(a[0]) then [a[0]] else "";
      assert head + (Keep(a[1..], keep) + Keep(b, keep)) == (head + Keep(a[1..], keep)) + Keep(b, keep);
    }
  }

  lemma KeepOne(c: char, keep: char -> bool)
    ensures Keep([c], keep) == if keep(c) then [c] else ""
  {
    assert [c][1..] == "";
  }

  predicate IsInk(c: char) {
    !IsSpace(c)
  }

  /** What is left of a text without its white space. */
  function Ink(s: string): string {
    Keep(s, IsInk)
  }

  lemma {:induction false} BlankHasNoInk(s: string)
    requires Blank(s)
    ensures Ink(s) == ""
    decreases |s|
  {
    if s != "" {
      assert Blank(s[1..]);
      BlankHasNoInk(s[1..]);
    }
  }

  lemma InkConcat(a: string, b: string)
    ensures Ink(a + b) == Ink(a) + Ink(b)
  {
    KeepConcat(a, b, IsInk);
  }

  lemma TrimKeepsInk(s: string)
    ensures Ink(Trim(s)) == Ink(s)
  {
    var front, back := TrimTakesOffSpace(s);
    InkConcat(front + Trim(s), back);
    InkConcat(front, Trim(s));
    BlankHasNoInk(front);
    BlankHasNoInk(back);
  }

  lemma {:induction false} TrimStartOf(blank: string, rest: string)
    requires Blank(blank) && rest != "" && !IsSpace(rest[0])
    ensures TrimStart(blank + rest) == rest
    decreases |blank|
  {
    if blank == "" {
      assert blank + rest == rest;
    } else {
      assert (blank + rest)[0] == blank[0] && (blank + rest)[1..] == blank[1..] + rest;
      TrimStartOf(blank[1..], rest);
    }
  }

  /** Nothing else that trims a text comes to anything else. */
  lemma {:induction false} TrimIsUnique(front: string, middle: string, back: string)
    requires Blank(front) && Blank(back) && Trimmed(middle)
    ensures Trim(front + middle + back) == middle
    decreases |front|
  {
    if front != "" {
      assert (front + middle + back)[1..] == front[1..] + middle + back;
      TrimIsUnique(front[1..], middle, back);
    } else if middle == "" {
      assert front + middle + back == back;
      TrimStartIsSuffix(back);
    } else {
      assert front + middle + back == middle + back;
      TrimEndDrops(middle, back);
    }
  }

  lemma {:induction false} TrimEndDrops(middle: string, back: string)
    requires Blank(back) && middle != "" && !IsSpace(middle[|middle| - 1])
    ensures TrimEnd(middle + back) == middle
    decreases |back|
  {
    if back == "" {
      assert middle + back == middle;
    } else {
      assert (middle + back)[..|middle + back| - 1] == middle + back[..|back| - 1];
      TrimEndDrops(middle, back[..|back| - 1]);
    }
  }

  /** A text without the white space around it. */
  ghost predicate IsCore(core: string, s: string) {
    Trimmed(core) && exists front, back :: Blank(front) && Blank(back) && s == front + core + back
  }

  lemma OneCore(core: string, s: string)
    ensures IsCore(core, s) <==> core == Trim(s)
  {
    if IsCore(core, s) {
      var front, back :| Blank(front) && Blank(back) && s == front + core + back;
      TrimIsUnique(front, core, back);
    }
    var front, back := TrimTakesOffSpace(s);
  }

  lemma BlankIsTrimmedAway(s: string)
    ensures Trim(s) == "" <==> Blank(s)
  {
    var front, back := TrimTakesOffSpace(s);
    if Blank(s) {
      assert s == s + "" + "";
      TrimIsUnique(s, "", "");
    }
  }

  /** The same character, or one letter in two cases. */
  predicate SameLetter(c: char, d: char) {
    || c == d
    || ('A' <= c <= 'Z' && d as int == c as int + 32)
    || ('A' <= d <= 'Z' && c as int == d as int + 32)
  }

  ghost predicate SameLetters(s: string, t: string) {
    |s| == |t| && forall i | 0 <= i < |s| :: SameLetter(s[i], t[i])
  }

  /** Lower case forgets exactly the case of the letters. */
  lemma LowerForgetsCase(s: string, t: string)
    ensures ToLower(s) == ToLower(t) <==> SameLetters(s, t)
  {
    forall c: char, d: char ensures LowerChar(c) == LowerChar(d) <==> SameLetter(c, d) {}
    if ToLower(s) == ToLower(t) {
      forall i | 0 <= i < |s| ensures SameLetter(s[i], t[i]) { assert ToLower(s)[i] == ToLower(t)[i]; }
    }
    if SameLetters(s, t) { assert ToLower(s) == ToLower(t); }
  }
}
