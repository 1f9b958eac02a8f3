/**
 * The structure-aware chunker: paragraphs are packed into chunks, a heading closes the chunk before it and names the
 * section of those after it, and a paragraph over the budget alone is split between sentences.
 */
module DocumentChunker {
  import opened Wrappers
  import opened Text

  const MAX_CHUNK_CHARS := 1500

  datatype Chunk = Chunk(chunkIndex: nat, section: Option<string>, content: string, tokenCount: nat)

  /** A chunk before it is numbered. */
  datatype Passage = Passage(section: Option<string>, content: string)

  // ---------------------------------------------------------------------
  // Paragraphs: split at runs of two or more newlines, trim, drop the empty ones

  function DropNewlines(s: string): (r: string)
    ensures |r| <= |s|
    ensures s != "" && s[0] == '\n' ==> |r| < |s|
  {
    if s != "" && s[0] == '\n' then DropNewlines(s[1..]) else s
  }

  predicate AtBlankLine(s: string) {
    |s| >= 2 && s[0] == '\n' && s[1] == '\n'
  }

  /** Puts a character in front of the first part. */
  function Push(c: char, parts: seq<string>): (r: seq<string>)
    requires parts != []
    ensures r != []
  {
    [[c] + parts[0]] + parts[1..]
  }

  function SplitBlankLines(s: string): (r: seq<string>)
    ensures r != []
    decreases |s|
  {
    if s == "" then [""]
    else if AtBlankLine(s) then [""] + SplitBlankLines(DropNewlines(s))
    else Push(s[0], SplitBlankLines(s[1..]))
  }

  function TrimAll(parts: seq<string>): seq<string> {
    if parts == [] then [] else (if Trim(parts[0]) != "" then [Trim(parts[0])] else []) + TrimAll(parts[1..])
  }

  function Paragraphs(text: string): seq<string> {
    TrimAll(SplitBlankLines(text))
  }

  // ---------------------------------------------------------------------
  // Sentences: split at white space that follows a full stop

  predicate IsStop(c: char) {
    c == '.' || c == '!' || c == '?'
  }

  /** The split of what follows a character that is a full stop or is not. */
  function SplitSentences(s: string, afterStop: bool): (r: seq<string>)
    ensures r != []
    decreases |s|
  {
    if s == "" then [""]
    else if afterStop && IsSpace(s[0]) then [""] + SplitSentences(TrimStart(s[1..]), false)
    else Push(s[0], SplitSentences(s[1..], IsStop(s[0])))
  }

  function Sentences(paragraph: string): seq<string> {
    SplitSentences(paragraph, false)
  }

  // ---------------------------------------------------------------------
  // Headings

  /** What `.` does not match. */
  predicate IsLineTerminator(c: char) {
    c == '\n' || c == '\r' || c == '\U{2028}' || c == '\U{2029}'
  }

  predicate IsMarked(p: string, marks: nat, body: nat)
    requires marks <= body <= |p|
  {
    && (forall i | 0 <= i < marks :: p[i] == '#')
    && (forall i | marks <= i < body :: IsSpace(p[i]))
    && (forall i | body <= i < |p| :: !IsLineTerminator(p[i]))
  }

  predicate IsCapital(c: char) {
    'A' <= c <= 'Z'
  }

  /**
   * HEADING_PATTERN and the length limit: one to six marks, white space and a line; or 5 to 81 capitals, digits and `
   * ,.'-`.
   */
  predicate IsHeading(p: string) {
    && |p| < 120
    && ((exists marks, body | 1 <= marks <= 6 && marks < body < |p| :: IsMarked(p, marks, body))
        || (5 <= |p| <= 81 && IsCapital(p[0])
            && forall i | 1 <= i < |p| :: IsCapital(p[i]) || IsDigit(p[i]) || p[i] in " ,.'-"))
  }

  function DropMarks(p: string): string {
    if p != "" && p[0] == '#' then DropMarks(p[1..]) else p
  }

  function Title(heading: string): string {
    if heading != "" && heading[0] == '#' then TrimStart(DropMarks(heading)) else heading
  }

  // ---------------------------------------------------------------------
  // The chunker as functions

  /** The pieces of a long paragraph, `current` being the one under way. */
  function Fill(sentences: seq<string>, current: string, maxChars: nat): seq<string> {
    if sentences == [] then
      if Trim(current) != "" then [Trim(current)] else []
    else if |current| + |sentences[0]| > maxChars && |current| > 0 then
      [Trim(current)] + Fill(sentences[1..], sentences[0], maxChars)
    else
      Fill(sentences[1..], if current == "" then sentences[0] else current + " " + sentences[0], maxChars)
  }

  function LongPieces(paragraph: string, maxChars: nat): seq<string> {
    var pieces := Fill(Sentences(paragraph), "", maxChars);
    if pieces != [] then pieces else [if |paragraph| <= maxChars then paragraph else paragraph[..maxChars]]
  }

  function Chars(buffer: seq<string>): nat {
    if buffer == [] then 0 else Chars(buffer[..|buffer| - 1]) + |buffer[|buffer| - 1]|
  }

  function Flushed(section: Option<string>, buffer: seq<string>): seq<Passage> {
    var content := Trim(Join(buffer, "\n\n"));
    if buffer == [] || content == "" then [] else [Passage(section, content)]
  }

  function InSection(section: Option<string>, contents: seq<string>): (r: seq<Passage>)
    ensures |r| == |contents|
  {
    seq(|contents|, i requires 0 <= i < |contents| => Passage(section, contents[i]))
  }

  /** What one paragraph adds, and the section and the buffer it leaves. */
  datatype Turn = Turn(out: seq<Passage>, section: Option<string>, buffer: seq<string>)

  function Step(p: string, section: Option<string>, buffer: seq<string>): Turn {
    if IsHeading(p) then
      Turn(Flushed(section, buffer), Some(Title(p)), [])
    else if |p| > MAX_CHUNK_CHARS then
      Turn(Flushed(section, buffer) + InSection(section, LongPieces(p, MAX_CHUNK_CHARS)), section, [])
    else if Chars(buffer) + |p| > MAX_CHUNK_CHARS && |buffer| > 0 then
      Turn(Flushed(section, buffer), section, [p])
    else
      Turn([], section, buffer + [p])
  }

  function Pack(paragraphs: seq<string>, section: Option<string>, buffer: seq<string>): seq<Passage> {
    if paragraphs == [] then Flushed(section, buffer)
    else
      var turn := Step(paragraphs[0], section, buffer);
      turn.out + Pack(paragraphs[1..], turn.section, turn.buffer)
  }

  function Numbered(passages: seq<Passage>): (r: seq<Chunk>)
    ensures |r| == |passages|
  {
    seq(|passages|, i requires 0 <= i < |passages| =>
      Chunk(i, passages[i].section, passages[i].content, TokenCount(passages[i].content)))
  }

  function TokenCount(text: string): nat {
    (|text| + 3) / 4
  }

  function Chunks(text: string): seq<Chunk> {
    Numbered(Pack(Paragraphs(text), None, []))
  }

  // ---------------------------------------------------------------------
  // The chunker as it runs

  /** One sentence of the loop below. */
  lemma FillUnfold(done: seq<string>, sentences: seq<string>, i: nat, current: string, maxChars: nat)
    requires i < |sentences|
    ensures done + Fill(sentences[i..], current, maxChars)
         == if |current| + |sentences[i]| > maxChars && |current| > 0
            then done + [Trim(current)] + Fill(sentences[i + 1..], sentences[i], maxChars)
            else done + Fill(sentences[i + 1..],
                             if current == "" then sentences[i] else current + " " + sentences[i], maxChars)
  {
    assert sentences[i..][1..] == sentences[i + 1..];
  }

  method SplitLongParagraph(paragraph: string, maxChars: nat) returns (pieces: seq<string>)
    ensures pieces == LongPieces(paragraph, maxChars)
  {
    var sentences := Sentences(paragraph);
    pieces := [];
    var current := "";
    for i := 0 to |sentences|
      invariant pieces + Fill(sentences[i..], current, maxChars) == Fill(sentences, "", maxChars)
    {
      var sentence := sentences[i];
      FillUnfold(pieces, sentences, i, current, maxChars);
      if |current| + |sentence| > maxChars && |current| > 0 {
        pieces := pieces + [Trim(current)];
        current := "";
      }
      current := if current == "" then sentence else current + " " + sentence;
    }
    if Trim(current) != "" { pieces := pieces + [Trim(current)]; }
    assert pieces == Fill(sentences, "", maxChars);
    if pieces == [] { pieces := [if |paragraph| <= maxChars then paragraph else paragraph[..maxChars]]; }
  }

  lemma NumberedSnoc(passages: seq<Passage>, more: Passage)
    ensures Numbered(passages + [more])
         == Numbered(passages) + [Chunk(|passages|, more.section, more.content, TokenCount(more.content))]
  {}

  method Flush(chunks: seq<Chunk>, section: Option<string>, buffer: seq<string>, ghost passages: seq<Passage>)
    returns (r: seq<Chunk>)
    requires chunks == Numbered(passages)
    ensures r == Numbered(passages + Flushed(section, buffer))
  {
    if |buffer| == 0 {
      assert passages + Flushed(section, buffer) == passages;
      return chunks;
    }
    var content := Trim(Join(buffer, "\n\n"));
    r := chunks;
    if |content| > 0 {
      r := r + [Chunk(|r|, section, content, TokenCount(content))];
      NumberedSnoc(passages, Passage(section, content));
    } else {
      assert passages + Flushed(section, buffer) == passages;
    }
  }

  method AddPieces(chunks: seq<Chunk>, section: Option<string>, pieces: seq<string>, ghost passages: seq<Passage>)
    returns (r: seq<Chunk>)
    requires chunks == Numbered(passages)
    ensures r == Numbered(passages + InSection(section, pieces))
  {
    r := chunks;
    assert passages + InSection(section, pieces)[..0] == passages;
    for i := 0 to |pieces|
      invariant r == Numbered(passages + InSection(section, pieces)[..i])
    {
      r := r + [Chunk(|r|, section, pieces[i], TokenCount(pieces[i]))];
      NumberedSnoc(passages + InSection(section, pieces)[..i], Passage(section, pieces[i]));
      assert InSection(section, pieces)[..i] + [Passage(section, pieces[i])] == InSection(section, pieces)[..i + 1];
      assert passages + InSection(section, pieces)[..i] + [Passage(section, pieces[i])]
        == passages + InSection(section, pieces)[..i + 1];
    }
    assert InSection(section, pieces)[..|pieces|] == InSection(section, pieces);
  }

  /** One paragraph of the loop below. */
  lemma PackUnfold(done: seq<Passage>, paragraphs: seq<string>, i: nat, section: Option<string>, buffer: seq<string>)
    requires i < |paragraphs|
    ensures var turn := Step(paragraphs[i], section, buffer);
      done + Pack(paragraphs[i..], section, buffer)
        == done + turn.out + Pack(paragraphs[i + 1..], turn.section, turn.buffer)
  {
    assert paragraphs[i..][1..] == paragraphs[i + 1..];
  }

  lemma CharsSnoc(buffer: seq<string>, p: string)
    ensures Chars(buffer + [p]) == Chars(buffer) + |p|
  {
    assert (buffer + [p])[..|buffer|] == buffer;
  }

  /** One round of the loop below, with the captured variables passed in and out. */
  method AddParagraph(paragraph: string, chunks: seq<Chunk>, section: Option<string>, buffer: seq<string>,
                      bufferChars: nat, ghost passages: seq<Passage>)
    returns (chunks': seq<Chunk>, section': Option<string>, buffer': seq<string>, bufferChars': nat)
    requires chunks == Numbered(passages) && bufferChars == Chars(buffer)
    ensures var turn := Step(paragraph, section, buffer);
      chunks' == Numbered(passages + turn.out) && section' == turn.section && buffer' == turn.buffer
    ensures bufferChars' == Chars(buffer')
  {
    chunks', section', buffer', bufferChars' := chunks, section, buffer, bufferChars;
    if IsHeading(paragraph) {
      chunks' := Flush(chunks', section, buffer, passages);
      buffer', bufferChars' := [], 0;
      section' := Some(Title(paragraph));
    } else if |paragraph| > MAX_CHUNK_CHARS {
      chunks' := Flush(chunks', section, buffer, passages);
      buffer', bufferChars' := [], 0;
      var pieces := SplitLongParagraph(paragraph, MAX_CHUNK_CHARS);
      chunks' := AddPieces(chunks', section, pieces, passages + Flushed(section, buffer));
      assert passages + Flushed(section, buffer) + InSection(section, pieces)
        == passages + (Flushed(section, buffer) + InSection(section, pieces));
    } else {
      if bufferChars + |paragraph| > MAX_CHUNK_CHARS && |buffer| > 0 {
        chunks' := Flush(chunks', section, buffer, passages);
        buffer', bufferChars' := [], 0;
      } else {
        assert passages + [] == passages;
      }
      CharsSnoc(buffer', paragraph);
      buffer', bufferChars' := buffer' + [paragraph], bufferChars' + |paragraph|;
    }
  }

  method ChunkText(text: string) returns (chunks: seq<Chunk>)
    ensures chunks == Chunks(text)
  {
    var paragraphs := Paragraphs(text);
    chunks := [];
    var section: Option<string> := None;
    var buffer: seq<string> := [];
    var bufferChars := 0;
    ghost var out: seq<Passage> := [];
    for i := 0 to |paragraphs|
      invariant out + Pack(paragraphs[i..], section, buffer) == Pack(paragraphs, None, [])
      invariant chunks == Numbered(out)
      invariant bufferChars == Chars(buffer)
    {
      PackUnfold(out, paragraphs, i, section, buffer);
      ghost var before, turn := out, Step(paragraphs[i], section, buffer);
      out := before + turn.out;
      chunks, section, buffer, bufferChars := AddParagraph(paragraphs[i], chunks, section, buffer, bufferChars, before);
    }
    chunks := Flush(chunks, section, buffer, out);
  }
}
