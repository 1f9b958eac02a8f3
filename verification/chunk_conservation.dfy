/** What chunking keeps: every sentence, in order, under the heading it stood under; and how long a chunk can be. */
module ChunkConservation {
  import opened Wrappers
  import opened Text
  import opened DocumentChunker
  import opened ChunkResplit
  import opened Sequences

  /** A sentence and the heading it stands under. */
  type Said = seq<(Option<string>, string)>

  function Tag(section: Option<string>, sentences: seq<string>): (r: Said)
    ensures |r| == |sentences|
  {
    seq(|sentences|, i requires 0 <= i < |sentences| => (section, sentences[i]))
  }

  /** What paragraphs say under one heading. */
  function SaidUnder(section: Option<string>, paragraphs: seq<string>): Said {
    if paragraphs == [] then [] else Tag(section, Sentences(paragraphs[0])) + SaidUnder(section, paragraphs[1..])
  }

  /** What a document says, each sentence under the last heading before it. */
  function SaidFrom(paragraphs: seq<string>, section: Option<string>): Said {
    if paragraphs == [] then []
    else if IsHeading(paragraphs[0]) then SaidFrom(paragraphs[1..], Some(Title(paragraphs[0])))
    else Tag(section, Sentences(paragraphs[0])) + SaidFrom(paragraphs[1..], section)
  }

  /** What passages say, read back: split on blank lines, then into sentences. */
  function SaidBack(passages: seq<Passage>): Said {
    if passages == [] then []
    else SaidUnder(passages[0].section, Paragraphs(passages[0].content)) + SaidBack(passages[1..])
  }

  function PassagesOf(chunks: seq<Chunk>): (r: seq<Passage>)
    ensures |r| == |chunks|
  {
    seq(|chunks|, i requires 0 <= i < |chunks| => Passage(chunks[i].section, chunks[i].content))
  }

  lemma {:induction false} SaidBackConcat(a: seq<Passage>, b: seq<Passage>)
    ensures SaidBack(a + b) == SaidBack(a) + SaidBack(b)
    decreases |a|
  {
    if a == [] { assert a + b == b; } else {
      assert (a + b)[1..] == a[1..] + b;
      SaidBackConcat(a[1..], b);
      Regroup(SaidUnder(a[0].section, Paragraphs(a[0].content)), SaidBack(a[1..]), SaidBack(b));
    }
  }

  lemma {:induction false} SaidUnderSnoc(section: Option<string>, ps: seq<string>, p: string)
    ensures SaidUnder(section, ps + [p]) == SaidUnder(section, ps) + Tag(section, Sentences(p))
    decreases |ps|
  {
    if ps == [] {
      assert [p][1..] == [] && ps + [p] == [p];
    } else {
      assert (ps + [p])[1..] == ps[1..] + [p];
      SaidUnderSnoc(section, ps[1..], p);
    }
  }

  // ---------------------------------------------------------------------
  // Pieces of a long paragraph

  /** A piece holds some sentences in a row: at most 1 over the limit, unless it is a single sentence. */
  ghost predicate IsPiece(piece: string, maxChars: nat) {
    && IsParagraph(piece)
    && (|piece| <= maxChars + 1 || Sentences(piece) == [piece])
  }

  ghost predicate ArePieces(pieces: seq<string>, maxChars: nat) {
    forall p <- pieces :: IsPiece(p, maxChars)
  }

  function AllSentences(pieces: seq<string>): seq<string> {
    if pieces == [] then [] else Sentences(pieces[0]) + AllSentences(pieces[1..])
  }

  lemma {:induction false} JoinSnoc(ss: seq<string>, s: string)
    requires ss != []
    ensures Join(ss + [s], " ") == Join(ss, " ") + " " + s
    decreases |ss|
  {
    if |ss| == 1 {
      assert (ss + [s])[1..] == [s];
    } else {
      assert (ss + [s])[1..] == ss[1..] + [s];
      JoinSnoc(ss[1..], s);
    }
  }

  lemma PartOfSentences(ss: seq<string>, i: nat, j: nat)
    requires AreSentences(ss) && i <= j <= |ss|
    ensures AreSentences(ss[i..j])
  {
    forall k | 0 <= k < j - i - 1 ensures EndsWithStop(ss[i..j][k]) {
      assert ss[i..j][k] == ss[i + k];
    }
  }

  /** Filling loses no sentence; `held` are the sentences of the piece under way. */
  lemma {:induction false} FillKeeps(ss: seq<string>, held: seq<string>, maxChars: nat)
    requires AreSentences(held + ss)
    requires |held| > 1 ==> |Join(held, " ")| <= maxChars + 1
    ensures var pieces := Fill(ss, Join(held, " "), maxChars);
      ArePieces(pieces, maxChars) && AllSentences(pieces) == held + ss
    decreases |ss|
  {
    var current := Join(held, " ");
    var all := held + ss;
    if held != [] {
      PartOfSentences(all, 0, |held|);
      assert all[0..|held|] == held;
      SentencesOfJoined(held);
    }
    if ss == [] {
      assert held + ss == held;
      if held != [] {
        assert Fill(ss, current, maxChars) == [current];
        assert [current][1..] == [] && AllSentences([current]) == held;
      }
    } else {
      var s, rest := ss[0], ss[1..];
      if |current| + |s| > maxChars && |current| > 0 {
        PartOfSentences(all, |held|, |all|);
        assert all[|held|..|all|] == ss == [s] + rest;
        FillKeeps(rest, [s], maxChars);
        var tail := Fill(rest, s, maxChars);
        assert ([current] + tail)[1..] == tail;
        assert IsPiece(current, maxChars);
      } else {
        if held == [] { assert held + [s] == [s]; } else { JoinSnoc(held, s); }
        assert (held + [s]) + rest == all;
        FillKeeps(rest, held + [s], maxChars);
      }
    }
  }

  lemma LongPiecesKeep(p: string, maxChars: nat)
    requires IsParagraph(p)
    ensures ArePieces(LongPieces(p, maxChars), maxChars)
    ensures AllSentences(LongPieces(p, maxChars)) == Sentences(p)
  {
    SentencesAreSentences(p);
    assert [] + Sentences(p) == Sentences(p);
    FillKeeps(Sentences(p), [], maxChars);
  }

  // ---------------------------------------------------------------------
  // Chunks

  /** The bound a chunk really keeps, by its number of paragraphs. */
  ghost predicate WithinBound(content: string) {
    var k := |Paragraphs(content)|;
    || |content| <= MAX_CHUNK_CHARS + 2 * (k - 1)
    || (k == 1 && (|content| <= MAX_CHUNK_CHARS + 1 || Sentences(content) == [content]))
  }

  ghost predicate Whole(passages: seq<Passage>) {
    forall p <- passages :: p.content != "" && Trimmed(p.content) && WithinBound(p.content)
  }

  /** The paragraphs waiting in the buffer. */
  ghost predicate Held(buffer: seq<string>) {
    AreParagraphs(buffer) && (Chars(buffer) <= MAX_CHUNK_CHARS)
  }

  lemma FlushKeeps(section: Option<string>, buffer: seq<string>)
    requires Held(buffer)
    ensures SaidBack(Flushed(section, buffer)) == SaidUnder(section, buffer)
    ensures Whole(Flushed(section, buffer))
    ensures buffer != [] ==> Flushed(section, buffer) == [Passage(section, Join(buffer, "\n\n"))]
  {
    if buffer != [] {
      JoinedParagraphs(buffer);
      ParagraphsOfJoined(buffer);
      var f := Flushed(section, buffer);
      assert f == [Passage(section, Join(buffer, "\n\n"))] && f[1..] == [];
    }
  }

  lemma PieceSays(section: Option<string>, p: string)
    requires IsPiece(p, MAX_CHUNK_CHARS)
    ensures SaidUnder(section, Paragraphs(p)) == Tag(section, Sentences(p)) && WithinBound(p)
  {
    assert Join([p], "\n\n") == p;
    ParagraphsOfJoined([p]);
    SaidUnderSnoc(section, [], p);
    assert [] + [p] == [p];
  }

  lemma TagConcat(section: Option<string>, a: seq<string>, b: seq<string>)
    ensures Tag(section, a + b) == Tag(section, a) + Tag(section, b)
  {}

  lemma {:induction false} PiecesSay(section: Option<string>, pieces: seq<string>)
    requires ArePieces(pieces, MAX_CHUNK_CHARS)
    ensures SaidBack(InSection(section, pieces)) == Tag(section, AllSentences(pieces))
    ensures Whole(InSection(section, pieces))
    decreases |pieces|
  {
    if pieces != [] {
      var p, rest := pieces[0], pieces[1..];
      var more := InSection(section, rest);
      assert p in pieces;
      assert InSection(section, pieces) == [Passage(section, p)] + more;
      PiecesSay(section, rest);
      PieceSays(section, p);
      SaidBackConcat([Passage(section, p)], more);
      TagConcat(section, Sentences(p), AllSentences(rest));
    }
  }

  lemma LongStepKeeps(p: string, section: Option<string>, buffer: seq<string>)
    requires IsParagraph(p) && Held(buffer) && |p| > MAX_CHUNK_CHARS
    ensures var out := Flushed(section, buffer) + InSection(section, LongPieces(p, MAX_CHUNK_CHARS));
      Whole(out) && SaidBack(out) == SaidUnder(section, buffer) + Tag(section, Sentences(p))
  {
    FlushKeeps(section, buffer);
    var pieces := LongPieces(p, MAX_CHUNK_CHARS);
    LongPiecesKeep(p, MAX_CHUNK_CHARS);
    PiecesSay(section, pieces);
    SaidBackConcat(Flushed(section, buffer), InSection(section, pieces));
  }

  lemma HeldSnoc(buffer: seq<string>, p: string, section: Option<string>)
    requires IsParagraph(p) && AreParagraphs(buffer) && Chars(buffer) + |p| <= MAX_CHUNK_CHARS
    ensures Held(buffer + [p])
    ensures SaidUnder(section, buffer + [p]) == SaidUnder(section, buffer) + Tag(section, Sentences(p))
  {
    CharsSnoc(buffer, p);
    SaidUnderSnoc(section, buffer, p);
  }

  /** What a turn emits and leaves waiting is `said`, whole and within the buffer's bound. */
  ghost predicate TurnSays(turn: Turn, said: Said) {
    Held(turn.buffer) && Whole(turn.out) && SaidBack(turn.out) + SaidUnder(turn.section, turn.buffer) == said
  }

  lemma NothingHeld(section: Option<string>)
    ensures Held([]) && SaidUnder(section, []) == []
  {}

  lemma NothingSaid()
    ensures Whole([]) && SaidBack([]) == []
  {}

  lemma HeadingKeeps(p: string, section: Option<string>, buffer: seq<string>)
    requires Held(buffer)
    ensures TurnSays(Turn(Flushed(section, buffer), Some(Title(p)), []), SaidUnder(section, buffer))
  {
    FlushKeeps(section, buffer);
    NothingHeld(Some(Title(p)));
  }

  lemma LongTurnKeeps(p: string, section: Option<string>, buffer: seq<string>, out: seq<Passage>)
    requires IsParagraph(p) && Held(buffer) && |p| > MAX_CHUNK_CHARS
    requires out == Flushed(section, buffer) + InSection(section, LongPieces(p, MAX_CHUNK_CHARS))
    ensures TurnSays(Turn(out, section, []), SaidUnder(section, buffer) + Tag(section, Sentences(p)))
  {
    LongStepKeeps(p, section, buffer);
    NothingHeld(section);
  }

  lemma FullTurnKeeps(p: string, section: Option<string>, buffer: seq<string>)
    requires IsParagraph(p) && Held(buffer) && |p| <= MAX_CHUNK_CHARS
    ensures TurnSays(Turn(Flushed(section, buffer), section, [p]),
                     SaidUnder(section, buffer) + Tag(section, Sentences(p)))
  {
    FlushKeeps(section, buffer);
    NothingHeld(section);
    assert Chars([]) == 0 && [] + [p] == [p];
    HeldSnoc([], p, section);
    assert [] + Tag(section, Sentences(p)) == Tag(section, Sentences(p));
  }

  lemma RoomyTurnKeeps(p: string, section: Option<string>, buffer: seq<string>)
    requires IsParagraph(p) && Held(buffer) && Chars(buffer) + |p| <= MAX_CHUNK_CHARS
    ensures TurnSays(Turn([], section, buffer + [p]), SaidUnder(section, buffer) + Tag(section, Sentences(p)))
  {
    HeldSnoc(buffer, p, section);
    NothingSaid();
    assert [] + SaidUnder(section, buffer + [p]) == SaidUnder(section, buffer + [p]);
  }

  /** One paragraph: what it emits and leaves waiting is what was waiting and, unless it is a heading, itself. */
  lemma StepKeeps(p: string, section: Option<string>, buffer: seq<string>)
    requires IsParagraph(p) && Held(buffer)
    ensures var turn := Step(p, section, buffer);
      && TurnSays(turn, SaidUnder(section, buffer) + (if IsHeading(p) then [] else Tag(section, Sentences(p))))
      && turn.section == if IsHeading(p) then Some(Title(p)) else section
  {
    if IsHeading(p) {
      HeadingKeeps(p, section, buffer);
      assert SaidUnder(section, buffer) + [] == SaidUnder(section, buffer);
    } else if |p| > MAX_CHUNK_CHARS {
      LongTurnKeeps(p, section, buffer, Step(p, section, buffer).out);
    } else if Chars(buffer) + |p| > MAX_CHUNK_CHARS && |buffer| > 0 {
      FullTurnKeeps(p, section, buffer);
    } else {
      assert buffer == [] ==> Chars(buffer) == 0;
      RoomyTurnKeeps(p, section, buffer);
    }
  }

  lemma {:induction false} PackKeeps(ps: seq<string>, section: Option<string>, buffer: seq<string>)
    requires AreParagraphs(ps) && Held(buffer)
    ensures SaidBack(Pack(ps, section, buffer)) == SaidUnder(section, buffer) + SaidFrom(ps, section)
    ensures Whole(Pack(ps, section, buffer))
    decreases |ps|
  {
    FlushKeeps(section, buffer);
    if ps != [] {
      var p, rest := ps[0], ps[1..];
      assert p in ps;
      var turn := Step(p, section, buffer);
      StepKeeps(p, section, buffer);
      PackKeeps(rest, turn.section, turn.buffer);
      SaidBackConcat(turn.out, Pack(rest, turn.section, turn.buffer));
      var own := if IsHeading(p) then [] else Tag(section, Sentences(p));
      Regroup(SaidBack(turn.out), SaidUnder(turn.section, turn.buffer), SaidFrom(rest, turn.section));
      Regroup(SaidUnder(section, buffer), own, SaidFrom(rest, turn.section));
      assert SaidFrom(ps, section) == own + SaidFrom(rest, turn.section);
    }
  }

  lemma PassagesOfNumbered(passages: seq<Passage>)
    ensures PassagesOf(Numbered(passages)) == passages
  {}

  lemma PassagesSay(ps: seq<string>)
    requires AreParagraphs(ps)
    ensures SaidBack(Pack(ps, None, [])) == SaidFrom(ps, None) && Whole(Pack(ps, None, []))
  {
    PackKeeps(ps, None, []);
    assert SaidUnder(None, []) + SaidFrom(ps, None) == SaidFrom(ps, None);
  }

  /**
   * Chunking loses and reorders nothing: the chunks, split again on blank lines
   * and then into sentences, give back every sentence of every paragraph that is
   * not a heading, in order, each in the section of the last heading before it.
   */
  lemma NothingIsLost(text: string)
    ensures SaidBack(PassagesOf(Chunks(text))) == SaidFrom(Paragraphs(text), None)
  {
    ParagraphsAreParagraphs(text);
    PassagesSay(Paragraphs(text));
    PassagesOfNumbered(Pack(Paragraphs(text), None, []));
  }

  /** How long a chunk can be: separators are not counted, and a single sentence is never split. */
  lemma ChunksKeepTheBound(text: string, i: nat)
    requires i < |Chunks(text)|
    ensures var chunk := Chunks(text)[i];
      && chunk.chunkIndex == i && chunk.tokenCount == TokenCount(chunk.content)
      && chunk.content != "" && Trimmed(chunk.content) && WithinBound(chunk.content)
  {
    ParagraphsAreParagraphs(text);
    var passages := Pack(Paragraphs(text), None, []);
    PassagesSay(Paragraphs(text));
    assert passages[i] in passages;
  }

  /** No chunk spans a heading: what comes after one is chunked as if it stood alone. */
  lemma {:induction false} HeadingsSeparate(before: seq<string>, heading: string, after: seq<string>,
      section: Option<string>, buffer: seq<string>)
    requires IsHeading(heading)
    ensures Pack(before + [heading] + after, section, buffer)
         == Pack(before, section, buffer) + Pack(after, Some(Title(heading)), [])
    decreases |before|
  {
    var all := before + [heading] + after;
    if before == [] {
      assert all[0] == heading && all[1..] == after;
    } else {
      var turn := Step(before[0], section, buffer);
      assert all[0] == before[0] && all[1..] == before[1..] + [heading] + after;
      HeadingsSeparate(before[1..], heading, after, turn.section, turn.buffer);
      PackCons(all, section, buffer);
      PackCons(before, section, buffer);
      Regroup(turn.out, Pack(before[1..], turn.section, turn.buffer), Pack(after, Some(Title(heading)), []));
    }
  }

  lemma PackCons(ps: seq<string>, section: Option<string>, buffer: seq<string>)
    requires ps != []
    ensures var turn := Step(ps[0], section, buffer);
      Pack(ps, section, buffer) == turn.out + Pack(ps[1..], turn.section, turn.buffer)
  {}

  lemma ShortStep(p: string, section: Option<string>, buffer: seq<string>)
    requires !IsHeading(p) && Chars(buffer) + |p| <= MAX_CHUNK_CHARS
    ensures Step(p, section, buffer) == Turn([], section, buffer + [p])
  {}

  /** Paragraphs under one heading that fit together stay together. */
  lemma {:induction false} FittingParagraphsStayTogether(ps: seq<string>, section: Option<string>, buffer: seq<string>)
    requires AreParagraphs(buffer + ps) && Chars(buffer + ps) <= MAX_CHUNK_CHARS && buffer + ps != []
    requires forall p <- ps :: !IsHeading(p)
    ensures Pack(ps, section, buffer) == [Passage(section, Join(buffer + ps, "\n\n"))]
    ensures |Join(buffer + ps, "\n\n")| == Chars(buffer + ps) + 2 * (|buffer + ps| - 1)
    decreases |ps|
  {
    JoinedParagraphs(buffer + ps);
    if ps == [] {
      assert buffer + ps == buffer;
      FlushKeeps(section, buffer);
    } else {
      var p, rest := ps[0], ps[1..];
      assert p in ps;
      assert (buffer + [p]) + rest == buffer + ps;
      CharsSnoc(buffer, p);
      CharsGrow(buffer + [p], rest);
      PackCons(ps, section, buffer);
      ShortStep(p, section, buffer);
      FittingParagraphsStayTogether(rest, section, buffer + [p]);
      assert [] + Pack(rest, section, buffer + [p]) == Pack(rest, section, buffer + [p]);
    }
  }

  lemma {:induction false} CharsGrow(a: seq<string>, b: seq<string>)
    ensures Chars(a) <= Chars(a + b)
    decreases |b|
  {
    if b == [] { assert a + b == a; } else {
      assert (a + b)[..|a + b| - 1] == a + b[..|b| - 1];
      CharsGrow(a, b[..|b| - 1]);
    }
  }

  /**
   * The constant is not the bound: paragraphs that fit it together make one chunk, two characters longer for each
   * separator, and it passes the constant exactly when they do not leave that many characters free.
   */
  lemma SeparatorsAreNotCounted(ps: seq<string>)
    requires AreParagraphs(ps) && ps != [] && (forall p <- ps :: !IsHeading(p)) && Chars(ps) <= MAX_CHUNK_CHARS
    ensures var chunks := Chunks(Join(ps, "\n\n"));
      && |chunks| == 1 && chunks[0].content == Join(ps, "\n\n") && chunks[0].section == None
      && |chunks[0].content| == Chars(ps) + 2 * (|ps| - 1)
      && (|chunks[0].content| > MAX_CHUNK_CHARS <==> Chars(ps) > MAX_CHUNK_CHARS - 2 * (|ps| - 1))
  {
    ParagraphsOfJoined(ps);
    assert [] + ps == ps;
    FittingParagraphsStayTogether(ps, None, []);
  }

  /** A chunk of 1502 characters. */
  lemma AChunkOverTheConstant() returns (text: string)
    ensures |Chunks(text)| == 1 && |Chunks(text)[0].content| == MAX_CHUNK_CHARS + 2
  {
    var p := seq(750, i => 'a');
    var ps := [p, p];
    assert IsParagraph(p) && !IsHeading(p);
    assert forall x <- ps :: x == p;
    CharsSnoc([p], p);
    CharsSnoc([], p);
    assert [p] + [p] == ps && [] + [p] == [p];
    SeparatorsAreNotCounted(ps);
    text := Join(ps, "\n\n");
  }
}
