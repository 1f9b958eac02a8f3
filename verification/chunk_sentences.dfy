/** Where a paragraph is cut into sentences, and the few things the chunker does besides: blank texts, and tokens. */
module ChunkSentences {
  import opened Wrappers
  import opened Text
  import opened DocumentChunker

  predicate EndsASentence(c: char) {
    c == '.' || c == '!' || c == '?'
  }

  /** Nowhere does white space follow the end of a sentence. */
  ghost predicate IsOneSentence(s: string) {
    forall i: nat | i < |s| - 1 :: !IsBreak(s, i)
  }

  predicate IsBreak(s: string, i: nat)
    requires i < |s| - 1
  {
    EndsASentence(s[i]) && IsSpace(s[i + 1])
  }

  lemma TailIsOneSentence(s: string)
    requires s != "" && IsOneSentence(s)
    ensures IsOneSentence(s[1..])
  {
    forall i: nat | i < |s[1..]| - 1 ensures !IsBreak(s[1..], i) { assert !IsBreak(s, i + 1); }
  }

  lemma CutAfterStop(blank: string, rest: string)
    requires blank != "" && Blank(blank) && rest != "" && !IsSpace(rest[0])
    ensures SplitSentences(blank + rest, true) == [""] + SplitSentences(rest, false)
  {
    assert (blank + rest)[0] == blank[0] && (blank + rest)[1..] == blank[1..] + rest;
    TrimStartOf(blank[1..], rest);
  }

  /** One character that is not cut off goes in front of what follows. */
  lemma CutOneOn(c: char, s: string, afterStop: bool, first: string, more: seq<string>)
    requires !(afterStop && IsSpace(c)) && SplitSentences(s, EndsASentence(c)) == [first] + more
    ensures SplitSentences([c] + s, afterStop) == [[c] + first] + more
  {
    assert ([c] + s)[1..] == s;
  }

  lemma {:induction false} CutAtBreak(s: string, tail: string, afterStop: bool, more: seq<string>)
    requires IsOneSentence(s) && !(s != "" && afterStop && IsSpace(s[0]))
    requires if s == "" then afterStop else EndsASentence(s[|s| - 1])
    requires SplitSentences(tail, true) == [""] + more
    ensures SplitSentences(s + tail, afterStop) == [s] + more
    decreases |s|
  {
    if s == "" {
      assert s + tail == tail;
    } else {
      if |s| > 1 { assert !IsBreak(s, 0); }
      TailIsOneSentence(s);
      CutAtBreak(s[1..], tail, EndsASentence(s[0]), more);
      CutOneOn(s[0], s[1..] + tail, afterStop, s[1..], more);
      assert s + tail == [s[0]] + (s[1..] + tail) && [s[0]] + s[1..] == s;
    }
  }

  /** A sentence ends at a full stop, exclamation or question mark before white space; the rest is cut likewise. */
  lemma SentenceEndsBeforeSpace(s: string, blank: string, rest: string)
    requires s != "" && EndsASentence(s[|s| - 1]) && IsOneSentence(s)
    requires blank != "" && Blank(blank) && rest != "" && !IsSpace(rest[0])
    ensures Sentences(s + blank + rest) == [s] + Sentences(rest)
  {
    CutAfterStop(blank, rest);
    CutAtBreak(s, blank + rest, false, Sentences(rest));
    assert s + blank + rest == s + (blank + rest);
  }

  lemma {:induction false} NotCut(s: string, afterStop: bool)
    requires IsOneSentence(s) && !(s != "" && afterStop && IsSpace(s[0]))
    ensures SplitSentences(s, afterStop) == [s]
    decreases |s|
  {
    if s != "" {
      if |s| > 1 { assert !IsBreak(s, 0); }
      TailIsOneSentence(s);
      NotCut(s[1..], IsStop(s[0]));
      assert [s[0]] + s[1..] == s;
    }
  }

  /** And it ends nowhere else. */
  lemma OneSentenceIsNotCut(s: string)
    requires IsOneSentence(s)
    ensures Sentences(s) == [s]
  {
    NotCut(s, false);
  }

  lemma {:induction false} BlankIsOneSentence(s: string)
    requires Blank(s)
    ensures IsOneSentence(s)
  {}

  /** A long paragraph that is blank has no sentence to keep: it is cut off at the limit. */
  lemma BlankParagraphIsCut(s: string, maxChars: nat)
    requires Blank(s)
    ensures |LongPieces(s, maxChars)| == 1 && LongPieces(s, maxChars)[0] <= s
    ensures |LongPieces(s, maxChars)[0]| == if |s| < maxChars then |s| else maxChars
  {
    BlankIsOneSentence(s);
    OneSentenceIsNotCut(s);
    BlankIsTrimmedAway(s);
    assert [s][1..] == [];
    assert Fill([s], "", maxChars) == Fill([], s, maxChars) == [];
  }

  /** A buffer is written as one chunk under its section, paragraphs apart by a blank line, unless it is blank. */
  lemma BufferIsWritten(section: Option<string>, buffer: seq<string>)
    ensures Blank(Join(buffer, "\n\n")) ==> Flushed(section, buffer) == []
    ensures !Blank(Join(buffer, "\n\n")) ==> Flushed(section, buffer) == [Passage(section, Trim(Join(buffer, "\n\n")))]
  {
    BlankIsTrimmedAway(Join(buffer, "\n\n"));
  }

  /** Four characters to the token, and a token for what is left over. */
  lemma TokensAreQuarters(text: string)
    ensures 4 * TokenCount(text) >= |text| && 4 * TokenCount(text) < |text| + 4
  {}
}
