/**
 * What counts as a heading, spelled out; what a heading does; and that everything else of a document is in its chunks,
 * character by character.
 */
module ChunkHeadings {
  import opened Wrappers
  import opened Text
  import opened DocumentChunker
  import opened ChunkResplit
  import opened ChunkConservation
  import opened Sequences

  // ---------------------------------------------------------------------
  // What a heading is

  /** One to six marks, white space, and a title in one line that starts with no white space. */
  ghost predicate IsMarkedTitle(p: string, marks: string, blank: string, title: string) {
    && p == marks + blank + title
    && 1 <= |marks| <= 6 && (forall i | 0 <= i < |marks| :: marks[i] == '#')
    && 1 <= |blank| && Blank(blank)
    && title != "" && (forall i | 0 <= i < |title| :: title[i] !in ['\n', '\r', '\U{2028}', '\U{2029}'])
  }

  /** A capital letter without accent, a digit, or one of five signs. */
  ghost predicate IsTitleSign(c: char) {
    'A' <= c <= 'Z' || '0' <= c <= '9' || c == ' ' || c == ',' || c == '.' || c == '\'' || c == '-'
  }

  /** 5 to 81 of those, a letter first. */
  ghost predicate IsCapitals(p: string) {
    5 <= |p| <= 81 && 'A' <= p[0] <= 'Z' && forall i | 0 <= i < |p| :: IsTitleSign(p[i])
  }

  lemma MarkedIsHeading(p: string, marks: string, blank: string, title: string)
    requires IsMarkedTitle(p, marks, blank, title) && |p| < 120
    ensures IsHeading(p)
  {
    assert IsMarked(p, |marks|, |marks| + |blank|) by {
      assert forall i | |marks| <= i < |marks| + |blank| :: p[i] == blank[i - |marks|];
      assert forall i | |marks| + |blank| <= i < |p| :: p[i] == title[i - |marks| - |blank|];
    }
  }

  lemma HeadingIsMarked(p: string, m: nat, body: nat) returns (marks: string, blank: string, title: string)
    requires 1 <= m <= 6 && m < body < |p| && IsMarked(p, m, body)
    ensures IsMarkedTitle(p, marks, blank, title)
  {
    marks, blank, title := p[..m], p[m..body], p[body..];
    assert p == marks + blank + title;
  }

  /** A paragraph is a heading exactly when it is shorter than 120 characters and has one of the two forms. */
  lemma HeadingIff(p: string)
    ensures IsHeading(p)
       <==> |p| < 120 && ((exists marks, blank, title :: IsMarkedTitle(p, marks, blank, title)) || IsCapitals(p))
  {
    if |p| < 120 {
      if marks, blank, title :| IsMarkedTitle(p, marks, blank, title) { MarkedIsHeading(p, marks, blank, title); }
      if m, body :| 1 <= m <= 6 && m < body < |p| && IsMarked(p, m, body) {
        var marks, blank, title := HeadingIsMarked(p, m, body);
      }
      CapitalsIff(p);
    }
  }

  lemma CapitalsIff(p: string)
    ensures IsCapitals(p)
       <==> 5 <= |p| <= 81 && IsCapital(p[0])
            && forall i | 1 <= i < |p| :: IsCapital(p[i]) || IsDigit(p[i]) || p[i] in " ,.'-"
  {
    assert forall c :: c in " ,.'-" <==> c == ' ' || c == ',' || c == '.' || c == '\'' || c == '-';
  }

  /** It does not start with a mark, and holds a character no heading in capitals may hold. */
  ghost predicate IsProse(p: string) {
    p != "" && p[0] != '#' && exists i | 0 <= i < |p| :: !IsTitleSign(p[i])
  }

  lemma MarkedStartsWithAMark(p: string, marks: string, blank: string, title: string)
    requires IsMarkedTitle(p, marks, blank, title)
    ensures p[0] == '#'
  {
    assert p[0] == marks[0];
  }

  lemma ProseIsNoHeading(p: string)
    requires IsProse(p)
    ensures !IsHeading(p)
  {
    HeadingIff(p);
    forall marks, blank, title | IsMarkedTitle(p, marks, blank, title) ensures p[0] == '#' {
      MarkedStartsWithAMark(p, marks, blank, title);
    }
  }

  // ---------------------------------------------------------------------
  // What a heading does

  /** Marks and the white space behind them are not part of the title; a heading in capitals is its own title. */
  lemma TitleOfMarked(p: string, marks: string, blank: string, title: string)
    requires IsMarkedTitle(p, marks, blank, title) && !IsSpace(title[0])
    ensures Title(p) == title
  {
    DropMarksOf(marks, blank + title);
    assert p == marks + (blank + title) && p[0] == marks[0];
    TrimStartOf(blank, title);
  }

  lemma {:induction false} DropMarksOf(marks: string, rest: string)
    requires (forall i | 0 <= i < |marks| :: marks[i] == '#') && (rest != "" ==> rest[0] != '#')
    ensures DropMarks(marks + rest) == rest
    decreases |marks|
  {
    if marks == "" {
      assert marks + rest == rest;
    } else {
      assert (marks + rest)[0] == marks[0] && (marks + rest)[1..] == marks[1..] + rest;
      DropMarksOf(marks[1..], rest);
    }
  }

  /** A marked title says nothing itself: it closes what waits, and names the section of what follows. */
  lemma MarkedTitleNamesTheSection(p: string, marks: string, blank: string, title: string, after: seq<string>,
                                   section: Option<string>, buffer: seq<string>)
    requires IsMarkedTitle(p, marks, blank, title) && !IsSpace(title[0]) && |p| < 120
    ensures Pack([p] + after, section, buffer) == Pack([], section, buffer) + Pack(after, Some(title), [])
  {
    MarkedIsHeading(p, marks, blank, title);
    TitleOfMarked(p, marks, blank, title);
    HeadingsSeparate([], p, after, section, buffer);
    assert [] + [p] + after == [p] + after;
  }

  /** So does a line in capitals. */
  lemma CapitalsNameTheSection(p: string, after: seq<string>, section: Option<string>, buffer: seq<string>)
    requires IsCapitals(p)
    ensures Pack([p] + after, section, buffer) == Pack([], section, buffer) + Pack(after, Some(p), [])
  {
    HeadingIff(p);
    HeadingsSeparate([], p, after, section, buffer);
    assert [] + [p] + after == [p] + after;
  }

  // ---------------------------------------------------------------------
  // When a chunk ends

  /** A paragraph that does not fit beside what waits starts a chunk of its own. */
  lemma OverflowStartsAnew(p: string, after: seq<string>, section: Option<string>, buffer: seq<string>)
    requires !IsHeading(p) && |p| <= MAX_CHUNK_CHARS && buffer != [] && Chars(buffer) + |p| > MAX_CHUNK_CHARS
    ensures Pack([p] + after, section, buffer) == Pack([], section, buffer) + Pack([p] + after, section, [])
  {
    var ps := [p] + after;
    assert ps[0] == p && ps[1..] == after && [] + [p] == [p];
    PackCons(ps, section, buffer);
    PackCons(ps, section, []);
    assert Chars([]) == 0;
    assert [] + Pack(after, section, [p]) == Pack(after, section, [p]);
  }

  /** One over the limit by itself becomes pieces of its own. */
  lemma LongParagraphStandsAlone(p: string, after: seq<string>, section: Option<string>, buffer: seq<string>)
    requires !IsHeading(p) && |p| > MAX_CHUNK_CHARS
    ensures Pack([p] + after, section, buffer)
         == Pack([], section, buffer) + InSection(section, LongPieces(p, MAX_CHUNK_CHARS)) + Pack(after, section, [])
  {
    var ps := [p] + after;
    assert ps[0] == p && ps[1..] == after;
    PackCons(ps, section, buffer);
  }

  /** Sentences that fit together, with the spaces between them, stay in one piece. */
  lemma {:induction false} FittingSentencesStayTogether(held: seq<string>, ss: seq<string>, maxChars: nat)
    requires AreSentences(held + ss) && held + ss != [] && |Join(held + ss, " ")| <= maxChars
    ensures Fill(ss, Join(held, " "), maxChars) == [Join(held + ss, " ")]
    decreases |ss|
  {
    if ss == [] {
      assert held + ss == held;
      SentencesOfJoined(held);
    } else {
      var more := held + [ss[0]];
      assert more + ss[1..] == held + ss;
      PrefixIsShorter(more, ss[1..]);
      assert ss[0] in held + ss;
      if held == [] {
        assert more == [ss[0]];
      } else {
        JoinSnoc(held, ss[0]);
        HeldIsInk(held, ss);
      }
      FittingSentencesStayTogether(more, ss[1..], maxChars);
    }
  }

  lemma HeldIsInk(held: seq<string>, ss: seq<string>)
    requires AreSentences(held + ss) && held != []
    ensures Join(held, " ") != ""
  {
    assert held[0] in held + ss;
  }

  lemma {:induction false} PrefixIsShorter(a: seq<string>, b: seq<string>)
    ensures |Join(a, " ")| <= |Join(a + b, " ")|
    decreases |a|
  {
    if |a| > 1 {
      assert (a + b)[1..] == a[1..] + b;
      PrefixIsShorter(a[1..], b);
    } else if |a| == 1 {
      if b == [] { assert a + b == a; }
    }
  }

  // ---------------------------------------------------------------------
  // Every character

  function InkOfAll(parts: seq<string>): string {
    if parts == [] then "" else Ink(parts[0]) + InkOfAll(parts[1..])
  }

  lemma {:induction false} InkOfPushed(c: char, parts: seq<string>)
    requires parts != []
    ensures InkOfAll(Push(c, parts)) == Ink([c]) + InkOfAll(parts)
  {
    InkConcat([c], parts[0]);
    assert Push(c, parts)[1..] == parts[1..];
    Regroup(Ink([c]), Ink(parts[0]), InkOfAll(parts[1..]));
  }

  lemma NoInkInFront(parts: seq<string>)
    ensures InkOfAll([""] + parts) == InkOfAll(parts)
  {
    assert ([""] + parts)[1..] == parts;
    assert "" + InkOfAll(parts) == InkOfAll(parts);
  }

  lemma InkOfCons(s: string)
    requires s != ""
    ensures Ink(s) == Ink([s[0]]) + Ink(s[1..])
  {
    InkConcat([s[0]], s[1..]);
    assert [s[0]] + s[1..] == s;
  }

  lemma InkOfSuffix(s: string, k: nat)
    requires k <= |s| && Blank(s[..k])
    ensures Ink(s) == Ink(s[k..])
  {
    InkConcat(s[..k], s[k..]);
    BlankHasNoInk(s[..k]);
    assert s[..k] + s[k..] == s;
    assert "" + Ink(s[k..]) == Ink(s[k..]);
  }

  /** Splitting into sentences drops white space only. */
  lemma {:induction false} SentencesKeepInk(s: string, afterStop: bool)
    ensures InkOfAll(SplitSentences(s, afterStop)) == Ink(s)
    decreases |s|
  {
    if s == "" {
    } else if afterStop && IsSpace(s[0]) {
      var rest := TrimStart(s[1..]);
      TrimStartIsSuffix(s[1..]);
      SentencesKeepInk(rest, false);
      NoInkInFront(SplitSentences(rest, false));
      var k := |s| - |rest|;
      assert rest == s[k..];
      assert Blank(s[..k]) by {
        forall i | 0 <= i < k ensures IsSpace(s[i]) { if i > 0 { assert s[i] == s[1..][i - 1]; } }
      }
      InkOfSuffix(s, k);
    } else {
      SentencesKeepInk(s[1..], IsStop(s[0]));
      InkOfPushed(s[0], SplitSentences(s[1..], IsStop(s[0])));
      InkOfCons(s);
    }
  }

  lemma {:induction false} NewlinesHaveNoInk(s: string)
    ensures Ink(DropNewlines(s)) == Ink(s)
    decreases |s|
  {
    if s != "" && s[0] == '\n' {
      NewlinesHaveNoInk(s[1..]);
      assert Blank(s[..1]);
      InkOfSuffix(s, 1);
    }
  }

  lemma {:induction false} BlankLinesHaveNoInk(s: string)
    ensures InkOfAll(SplitBlankLines(s)) == Ink(s)
    decreases |s|
  {
    if s == "" {
    } else if AtBlankLine(s) {
      NewlinesHaveNoInk(s);
      BlankLinesHaveNoInk(DropNewlines(s));
      NoInkInFront(SplitBlankLines(DropNewlines(s)));
    } else {
      BlankLinesHaveNoInk(s[1..]);
      InkOfPushed(s[0], SplitBlankLines(s[1..]));
      InkOfCons(s);
    }
  }

  lemma {:induction false} TrimmingKeepsInk(parts: seq<string>)
    ensures InkOfAll(TrimAll(parts)) == InkOfAll(parts)
    decreases |parts|
  {
    if parts != [] {
      TrimmingKeepsInk(parts[1..]);
      TrimKeepsInk(parts[0]);
      var t := Trim(parts[0]);
      if t != "" {
        assert ([t] + TrimAll(parts[1..]))[1..] == TrimAll(parts[1..]);
      } else {
        assert "" + InkOfAll(parts[1..]) == InkOfAll(parts[1..]);
        assert [] + TrimAll(parts[1..]) == TrimAll(parts[1..]);
      }
    }
  }

  /** The paragraphs of a text hold every character of it that is not white space, in order. */
  lemma ParagraphsKeepInk(text: string)
    ensures InkOfAll(Paragraphs(text)) == Ink(text)
  {
    BlankLinesHaveNoInk(text);
    TrimmingKeepsInk(SplitBlankLines(text));
  }

  // ---------------------------------------------------------------------
  // Every character of a document

  function InkSaid(said: Said): string {
    if said == [] then "" else Ink(said[0].1) + InkSaid(said[1..])
  }

  lemma {:induction false} InkSaidConcat(a: Said, b: Said)
    ensures InkSaid(a + b) == InkSaid(a) + InkSaid(b)
    decreases |a|
  {
    if a == [] {
      assert a + b == b;
      assert "" + InkSaid(b) == InkSaid(b);
    } else {
      assert (a + b)[1..] == a[1..] + b;
      InkSaidConcat(a[1..], b);
      Regroup(Ink(a[0].1), InkSaid(a[1..]), InkSaid(b));
    }
  }

  lemma {:induction false} InkOfTagged(section: Option<string>, ss: seq<string>)
    ensures InkSaid(Tag(section, ss)) == InkOfAll(ss)
    decreases |ss|
  {
    if ss != [] {
      assert Tag(section, ss)[1..] == Tag(section, ss[1..]);
      InkOfTagged(section, ss[1..]);
    }
  }

  lemma {:induction false} InkSaidUnder(section: Option<string>, ps: seq<string>)
    ensures InkSaid(SaidUnder(section, ps)) == InkOfAll(ps)
    decreases |ps|
  {
    if ps != [] {
      InkSaidUnder(section, ps[1..]);
      InkSaidConcat(Tag(section, Sentences(ps[0])), SaidUnder(section, ps[1..]));
      InkOfTagged(section, Sentences(ps[0]));
      SentencesKeepInk(ps[0], false);
    }
  }

  /** The characters of the chunks, in order. */
  function InkOfPassages(passages: seq<Passage>): string {
    if passages == [] then "" else Ink(passages[0].content) + InkOfPassages(passages[1..])
  }

  lemma {:induction false} InkSaidBack(passages: seq<Passage>)
    ensures InkSaid(SaidBack(passages)) == InkOfPassages(passages)
    decreases |passages|
  {
    if passages != [] {
      var (p, rest) := (passages[0], passages[1..]);
      InkSaidBack(rest);
      InkSaidConcat(SaidUnder(p.section, Paragraphs(p.content)), SaidBack(rest));
      InkSaidUnder(p.section, Paragraphs(p.content));
      ParagraphsKeepInk(p.content);
    }
  }

  /** The paragraphs that are no headings. */
  function Body(ps: seq<string>): seq<string> {
    if ps == [] then [] else (if IsHeading(ps[0]) then [] else [ps[0]]) + Body(ps[1..])
  }

  lemma {:induction false} InkSaidFrom(ps: seq<string>, section: Option<string>)
    ensures InkSaid(SaidFrom(ps, section)) == InkOfAll(Body(ps))
    decreases |ps|
  {
    if ps != [] {
      if IsHeading(ps[0]) {
        InkSaidFrom(ps[1..], Some(Title(ps[0])));
        assert [] + Body(ps[1..]) == Body(ps[1..]);
      } else {
        InkSaidFrom(ps[1..], section);
        InkSaidConcat(Tag(section, Sentences(ps[0])), SaidFrom(ps[1..], section));
        InkOfTagged(section, Sentences(ps[0]));
        SentencesKeepInk(ps[0], false);
        assert ([ps[0]] + Body(ps[1..]))[1..] == Body(ps[1..]);
      }
    }
  }

  /** The chunks hold exactly the characters of the paragraphs that are no headings, white space apart, in order. */
  lemma EveryCharacterIsKept(text: string)
    ensures InkOfPassages(PassagesOf(Chunks(text))) == InkOfAll(Body(Paragraphs(text)))
  {
    NothingIsLost(text);
    InkSaidBack(PassagesOf(Chunks(text)));
    InkSaidFrom(Paragraphs(text), None);
  }

  lemma {:induction false} ProseIsAllBody(ps: seq<string>, section: Option<string>)
    requires forall p <- ps :: IsProse(p)
    ensures Body(ps) == ps && SaidFrom(ps, section) == SaidUnder(section, ps)
    decreases |ps|
  {
    if ps != [] {
      assert ps[0] in ps && ps == [ps[0]] + ps[1..];
      ProseIsNoHeading(ps[0]);
      ProseIsAllBody(ps[1..], section);
    }
  }

  /** So a document of prose is in its chunks sentence by sentence, and character by character. */
  lemma ProseIsKept(text: string)
    requires forall p <- Paragraphs(text) :: IsProse(p)
    ensures SaidBack(PassagesOf(Chunks(text))) == SaidUnder(None, Paragraphs(text))
    ensures InkOfPassages(PassagesOf(Chunks(text))) == Ink(text)
  {
    NothingIsLost(text);
    EveryCharacterIsKept(text);
    ProseIsAllBody(Paragraphs(text), None);
    ParagraphsKeepInk(text);
  }

  /** And one that consists of one short paragraph of prose is one chunk. */
  lemma ShortProseIsOneChunk(p: string)
    requires IsParagraph(p) && IsProse(p) && |p| <= 1500
    ensures Chunks(p) == [Chunk(0, None, p, (|p| + 3) / 4)]
  {
    ProseIsNoHeading(p);
    assert Join([p], "\n\n") == p && [] + [p] == [p];
    CharsSnoc([], p);
    SeparatorsAreNotCounted([p]);
    assert Chunks(p)[0].content == p;
  }
}
