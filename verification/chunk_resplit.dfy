/** The chunker's two splits undo its two joins. */
module ChunkResplit {
  import opened Text
  import opened DocumentChunker

  // ---------------------------------------------------------------------
  // Paragraphs re-split

  ghost predicate NoBlankLine(s: string) {
    forall i, j | 0 <= i < j < |s| && j == i + 1 :: s[i] != '\n' || s[j] != '\n'
  }

  /** What the first split produces. */
  ghost predicate IsParagraph(p: string) {
    p != "" && Trimmed(p) && NoBlankLine(p)
  }

  ghost predicate AreParagraphs(ps: seq<string>) {
    forall p <- ps :: IsParagraph(p)
  }

  lemma {:induction false} PartsHaveNoBlankLine(s: string)
    ensures forall p <- SplitBlankLines(s) :: NoBlankLine(p)
    ensures s != "" && s[0] != '\n' ==> SplitBlankLines(s)[0] != "" && SplitBlankLines(s)[0][0] == s[0]
    ensures s != "" && s[0] == '\n' && !AtBlankLine(s)
      ==> SplitBlankLines(s)[0] != "" && SplitBlankLines(s)[0][0] == s[0]
    decreases |s|
  {
    if s == "" {
    } else if AtBlankLine(s) {
      PartsHaveNoBlankLine(DropNewlines(s));
    } else {
      PartsHaveNoBlankLine(s[1..]);
      var rest := SplitBlankLines(s[1..]);
      var first := [s[0]] + rest[0];
      assert rest[0] in rest;
      assert SplitBlankLines(s) == [first] + rest[1..];
      if s[0] == '\n' && rest[0] != "" {
        assert s[1..] != "" && !AtBlankLine(s[1..]);
        assert rest[0][0] == s[1];
      }
      assert NoBlankLine(first) by {
        forall i, j | 0 <= i < j < |first| && j == i + 1 ensures first[i] != '\n' || first[j] != '\n' {
          if i > 0 { assert first[i] == rest[0][i - 1] && first[j] == rest[0][j - 1]; }
        }
      }
    }
  }

  lemma TrimKeepsNoBlankLine(s: string)
    requires NoBlankLine(s)
    ensures NoBlankLine(Trim(s))
  {
    var t := TrimStart(s);
    TrimStartIsSuffix(s);
    TrimEndIsPrefix(t);
    var k := |s| - |t|;
    var r := Trim(s);
    assert r == TrimEnd(t) == t[..|r|];
    forall i, j | 0 <= i < j < |r| && j == i + 1 ensures r[i] != '\n' || r[j] != '\n' {
      assert r[i] == t[i] == s[k + i] && r[j] == t[j] == s[k + j];
    }
  }

  lemma {:induction false} TrimAllParagraphs(parts: seq<string>)
    requires forall p <- parts :: NoBlankLine(p)
    ensures AreParagraphs(TrimAll(parts))
  {
    if parts != [] {
      assert parts[0] in parts;
      TrimKeepsNoBlankLine(parts[0]);
      TrimAllParagraphs(parts[1..]);
    }
  }

  lemma ParagraphsAreParagraphs(text: string)
    ensures AreParagraphs(Paragraphs(text))
  {
    PartsHaveNoBlankLine(text);
    TrimAllParagraphs(SplitBlankLines(text));
  }

  /** A blank line after text without one splits right there. */
  lemma {:induction false} SplitAtBlankLine(p: string, rest: string)
    requires NoBlankLine(p) && (p != "" ==> p[|p| - 1] != '\n')
    requires rest != "" && rest[0] != '\n'
    ensures SplitBlankLines(p + "\n\n" + rest) == [p] + SplitBlankLines(rest)
    decreases |p|
  {
    var s := p + "\n\n" + rest;
    if p == "" {
      assert s[1..] == "\n" + rest && s[1..][1..] == rest;
      assert DropNewlines(s) == DropNewlines(s[1..]) == DropNewlines(rest) == rest;
    } else {
      assert !AtBlankLine(s) by {
        if |p| > 1 { assert p[0] != '\n' || p[1] != '\n'; }
      }
      SplitAtBlankLine(p[1..], rest);
      assert s[1..] == p[1..] + "\n\n" + rest;
      assert [p[0]] + p[1..] == p;
    }
  }

  lemma {:induction false} UnsplitParagraph(p: string)
    requires NoBlankLine(p)
    ensures SplitBlankLines(p) == [p]
    decreases |p|
  {
    if p != "" {
      UnsplitParagraph(p[1..]);
      assert [p[0]] + p[1..] == p;
    }
  }

  lemma {:induction false} JoinedParagraphs(ps: seq<string>)
    requires ps != [] && AreParagraphs(ps)
    ensures var s := Join(ps, "\n\n"); s != "" && Trimmed(s) && SplitBlankLines(s) == ps
    ensures |Join(ps, "\n\n")| == Chars(ps) + 2 * (|ps| - 1)
    decreases |ps|
  {
    CharsCons(ps);
    assert ps[0] in ps;
    if |ps| == 1 {
      UnsplitParagraph(ps[0]);
      assert Chars([]) == 0;
    } else {
      JoinedParagraphs(ps[1..]);
      var rest := Join(ps[1..], "\n\n");
      assert Join(ps, "\n\n") == ps[0] + "\n\n" + rest;
      SplitAtBlankLine(ps[0], rest);
      assert Join(ps, "\n\n")[0] == ps[0][0];
      assert Join(ps, "\n\n")[|Join(ps, "\n\n")| - 1] == rest[|rest| - 1];
    }
  }

  lemma {:induction false} CharsCons(ps: seq<string>)
    requires ps != []
    ensures Chars(ps) == |ps[0]| + Chars(ps[1..])
    decreases |ps|
  {
    var init := ps[..|ps| - 1];
    if |ps| == 1 {
      assert ps[1..] == [] && init == [];
    } else {
      CharsCons(init);
      assert ps[1..][..|ps| - 2] == init[1..];
    }
  }

  lemma {:induction false} TrimAllTrimmed(ps: seq<string>)
    requires AreParagraphs(ps)
    ensures TrimAll(ps) == ps
  {
    if ps != [] {
      assert ps[0] in ps;
      TrimAllTrimmed(ps[1..]);
    }
  }

  /** The paragraphs of paragraphs joined by blank lines are those paragraphs. */
  lemma ParagraphsOfJoined(ps: seq<string>)
    requires ps != [] && AreParagraphs(ps)
    ensures Paragraphs(Join(ps, "\n\n")) == ps
  {
    JoinedParagraphs(ps);
    TrimAllTrimmed(ps);
  }

  // ---------------------------------------------------------------------
  // Sentences re-split

  /** No white space directly after a full stop. */
  ghost predicate NoBreak(s: string) {
    forall i, j | 0 <= i < j < |s| && j == i + 1 :: !(IsStop(s[i]) && IsSpace(s[j]))
  }

  predicate EndsWithStop(s: string) {
    s != "" && IsStop(s[|s| - 1])
  }

  /** Sentences in a row: whole, trimmed, without a blank line, each but the last ended by a full stop. */
  ghost predicate AreSentences(ss: seq<string>) {
    && (forall s <- ss :: IsParagraph(s) && NoBreak(s))
    && (forall i | 0 <= i < |ss| - 1 :: EndsWithStop(ss[i]))
  }

  lemma {:induction false} SplitAtStop(p: string, rest: string, afterStop: bool)
    requires NoBreak(p) && (if p == "" then afterStop else EndsWithStop(p) && !(afterStop && IsSpace(p[0])))
    requires rest != "" && !IsSpace(rest[0])
    ensures SplitSentences(p + " " + rest, afterStop) == [p] + SplitSentences(rest, false)
    decreases |p|
  {
    var s := p + " " + rest;
    if p == "" {
      assert s[1..] == rest;
      assert TrimStart(rest) == rest;
    } else {
      if |p| > 1 { assert !(IsStop(p[0]) && IsSpace(p[1])); }
      assert NoBreak(p[1..]) by {
        forall i, j | 0 <= i < j < |p[1..]| && j == i + 1 ensures !(IsStop(p[1..][i]) && IsSpace(p[1..][j])) {
          assert p[1..][i] == p[i + 1] && p[1..][j] == p[j + 1];
        }
      }
      SplitAtStop(p[1..], rest, IsStop(p[0]));
      assert s[1..] == p[1..] + " " + rest;
      assert [p[0]] + p[1..] == p;
    }
  }

  lemma {:induction false} UnsplitSentence(p: string, afterStop: bool)
    requires NoBreak(p) && !(p != "" && afterStop && IsSpace(p[0]))
    ensures SplitSentences(p, afterStop) == [p]
    decreases |p|
  {
    if p != "" {
      if |p| > 1 { assert !(IsStop(p[0]) && IsSpace(p[1])); }
      assert NoBreak(p[1..]) by {
        forall i, j | 0 <= i < j < |p[1..]| && j == i + 1 ensures !(IsStop(p[1..][i]) && IsSpace(p[1..][j])) {
          assert p[1..][i] == p[i + 1] && p[1..][j] == p[j + 1];
        }
      }
      UnsplitSentence(p[1..], IsStop(p[0]));
      assert [p[0]] + p[1..] == p;
    }
  }

  lemma JoinWithSpace(a: string, b: string)
    requires IsParagraph(a) && IsParagraph(b)
    ensures IsParagraph(a + " " + b)
  {
    var s := a + " " + b;
    assert s[0] == a[0] && s[|s| - 1] == b[|b| - 1];
    forall i, j | 0 <= i < j < |s| && j == i + 1 ensures s[i] != '\n' || s[j] != '\n' {
      if j < |a| {
        assert s[i] == a[i] && s[j] == a[j];
      } else if i > |a| {
        assert s[i] == b[i - |a| - 1] && s[j] == b[j - |a| - 1];
      } else {
        assert s[|a|] == ' ';
      }
    }
  }

  /** Sentences joined by spaces are one paragraph again, and split into those sentences. */
  lemma {:induction false} SentencesOfJoined(ss: seq<string>)
    requires ss != [] && AreSentences(ss)
    ensures var s := Join(ss, " "); IsParagraph(s) && Sentences(s) == ss && s[0] == ss[0][0]
    decreases |ss|
  {
    assert ss[0] in ss;
    if |ss| == 1 {
      UnsplitSentence(ss[0], false);
    } else {
      SentencesOfJoined(ss[1..]);
      var rest := Join(ss[1..], " ");
      assert ss[1] in ss && rest[0] == ss[1][0];
      assert Join(ss, " ") == ss[0] + " " + rest;
      JoinWithSpace(ss[0], rest);
      SplitAtStop(ss[0], rest, false);
    }
  }

  /**
   * What the sentence split of `s` produces: only the first part
   * can be empty, and only the last can end without a full stop.
   */
  ghost predicate GoodParts(parts: seq<string>, s: string, afterStop: bool)
    requires parts != [] && s != ""
  {
    var last := parts[|parts| - 1];
    && (forall p <- parts :: NoBreak(p) && NoBlankLine(p))
    && (forall i | 1 <= i < |parts| :: parts[i] != "" && !IsSpace(parts[i][0]))
    && (forall i | 0 <= i < |parts| - 1 :: EndsWithStop(parts[i]) || (i == 0 && parts[0] == "" && afterStop))
    && last != "" && last[|last| - 1] == s[|s| - 1]
    && if afterStop && IsSpace(s[0]) then parts[0] == "" else parts[0] != "" && parts[0][0] == s[0]
  }

  lemma SuffixHasNoBlankLine(s: string, k: nat)
    requires NoBlankLine(s) && k <= |s|
    ensures NoBlankLine(s[k..])
  {
    forall i, j | 0 <= i < j < |s[k..]| && j == i + 1 ensures s[k..][i] != '\n' || s[k..][j] != '\n' {
      assert s[k..][i] == s[k + i] && s[k..][j] == s[k + j];
    }
  }

  /** One more character in front of the first part. */
  lemma PushedPart(c: char, part: string)
    requires NoBreak(part) && NoBlankLine(part)
    requires part != "" ==> !(IsStop(c) && IsSpace(part[0])) && (c != '\n' || part[0] != '\n')
    ensures NoBreak([c] + part) && NoBlankLine([c] + part)
  {
    var r := [c] + part;
    forall i, j | 0 <= i < j < |r| && j == i + 1
      ensures !(IsStop(r[i]) && IsSpace(r[j])) && (r[i] != '\n' || r[j] != '\n')
    {
      if i > 0 { assert r[i] == part[i - 1] && r[j] == part[j - 1]; }
    }
  }

  lemma GoodAfterSpace(inner: seq<string>, rest: string, s: string)
    requires inner != [] && rest != "" && s != ""
    requires GoodParts(inner, rest, false) && !IsSpace(rest[0])
    requires IsSpace(s[0]) && s[|s| - 1] == rest[|rest| - 1]
    ensures GoodParts([""] + inner, s, true)
  {
    var parts := [""] + inner;
    forall i | 0 <= i < |parts| - 1 ensures EndsWithStop(parts[i]) || (i == 0 && parts[0] == "") {
      if i > 0 { assert parts[i] == inner[i - 1]; }
    }
    forall i | 1 <= i < |parts| ensures parts[i] != "" && !IsSpace(parts[i][0]) {
      assert parts[i] == inner[i - 1];
    }
    assert parts[|parts| - 1] == inner[|inner| - 1];
  }

  lemma GoodPush(inner: seq<string>, s: string, afterStop: bool)
    requires inner != [] && |s| > 1 && NoBlankLine(s) && !(afterStop && IsSpace(s[0]))
    requires GoodParts(inner, s[1..], IsStop(s[0]))
    ensures GoodParts(Push(s[0], inner), s, afterStop)
  {
    var first := [s[0]] + inner[0];
    var parts := [first] + inner[1..];
    assert inner[0] in inner && (s[0] != '\n' || s[1] != '\n');
    PushedPart(s[0], inner[0]);
    forall p | p in parts ensures NoBreak(p) && NoBlankLine(p) {
      if p != first { assert p in inner; }
    }
    if inner[0] == "" {
      assert EndsWithStop(first);
    } else {
      assert first[|first| - 1] == inner[0][|inner[0]| - 1];
    }
  }

  lemma {:induction false} SplitIsGood(s: string, afterStop: bool)
    requires s != "" && NoBlankLine(s) && !IsSpace(s[|s| - 1])
    ensures GoodParts(SplitSentences(s, afterStop), s, afterStop)
    decreases |s|
  {
    if afterStop && IsSpace(s[0]) {
      var rest := TrimStart(s[1..]);
      TrimStartIsSuffix(s[1..]);
      var k := |s| - |rest|;
      assert rest == s[k..];
      assert |s| > 1 ==> !IsSpace(s[1..][|s| - 2]);
      SuffixHasNoBlankLine(s, k);
      SplitIsGood(rest, false);
      GoodAfterSpace(SplitSentences(rest, false), rest, s);
    } else if |s| == 1 {
      assert s[1..] == "";
      assert [s[0]] + "" == s;
    } else {
      SuffixHasNoBlankLine(s, 1);
      SplitIsGood(s[1..], IsStop(s[0]));
      GoodPush(SplitSentences(s[1..], IsStop(s[0])), s, afterStop);
    }
  }

  lemma EndIsNoSpace(part: string, end: char)
    requires part != "" && (EndsWithStop(part) || (part[|part| - 1] == end && !IsSpace(end)))
    ensures !IsSpace(part[|part| - 1])
  {}

  lemma PartIsSentence(parts: seq<string>, s: string, i: nat)
    requires parts != [] && s != "" && Trimmed(s) && GoodParts(parts, s, false) && i < |parts|
    ensures IsParagraph(parts[i]) && NoBreak(parts[i])
  {
    assert parts[i] in parts;
    assert parts[i] != "" && !IsSpace(parts[i][0]);
    EndIsNoSpace(parts[i], s[|s| - 1]);
  }

  lemma GoodPartsAreSentences(parts: seq<string>, s: string)
    requires parts != [] && s != "" && Trimmed(s) && GoodParts(parts, s, false)
    ensures AreSentences(parts)
  {
    forall p | p in parts ensures IsParagraph(p) && NoBreak(p) {
      var i :| 0 <= i < |parts| && parts[i] == p;
      PartIsSentence(parts, s, i);
    }
  }

  lemma SentencesAreSentences(p: string)
    requires IsParagraph(p)
    ensures Sentences(p) != [] && AreSentences(Sentences(p))
  {
    SplitIsGood(p, false);
    GoodPartsAreSentences(SplitSentences(p, false), p);
  }
}
