/**
 * Which audio frames reach the STT session: speech while a session is live, plus a short pre-roll kept from before
 * each onset. A session is created for the next frame after the last one was finalized, and frames that arrive until
 * it is there go nowhere. Accepted frames are numbered in order of arrival.
 */
module VoiceAudio {
  const MAX_FRAMES_PER_TURN := 2000
  const PRE_SPEECH_BUFFER_FRAMES := 3

  datatype Vad = NoChange | SpeechStarted | SpeechEnded

  datatype Event = Frame(vad: Vad) | SttReady(found: bool) | Finalize

  /**
   * Frames [start, end) pushed in one go to one session: from what the buffer held at an onset, or from a frame that
   * arrived in mid-speech when a session had just become live. Nothing before `floor` could be pushed with them.
   */
  datatype Window = Window(floor: nat, start: nat, onset: nat, end: nat)

  /** The audio part of the session state, and the history the properties speak of. */
  datatype Intake = Intake(
    live: bool,                  // sttSession is not null
    starting: nat,               // createStt calls not yet answered
    speaking: bool,
    buffer: seq<nat>,
    pushedCount: nat,            // sttPushedFrameCount
    sinceFinalize: nat,          // framesSinceLastFinalize
    received: nat,               // frames accepted so far
    pushed: seq<nat>,            // what the STT sessions were given
    spokenAt: seq<bool>,         // was the user speaking when the frame arrived?
    liveAt: seq<bool>,           // and was a session live?
    onsets: set<nat>,            // the frames at which speech started
    cuts: set<nat>,              // how many frames had been accepted each time the buffer was emptied or passed by
    finalizes: set<nat>,         // and at each finalize
    floor: nat,                  // the last of the cuts
    windows: seq<Window>)

  const QUIET := Intake(false, 0, false, [], 0, 0, 0, [], [], [], {}, {}, {}, 0, [])

  /** `preSpeechBuffer.push(frame)`, then the oldest frame goes when there are more than three. */
  function Remember(buffer: seq<nat>, frame: nat): seq<nat> {
    var grown := buffer + [frame];
    if |grown| > PRE_SPEECH_BUFFER_FRAMES then grown[1..] else grown
  }

  /** The frame about to arrive goes on with the last window: to the same session, right behind it. */
  predicate Continues(s: Intake) {
    s.windows != [] && s.windows[|s.windows| - 1].end == s.received && s.received !in s.finalizes
  }

  function Extended(s: Intake): seq<Window> {
    var f, n := s.received, |s.windows|;
    if Continues(s) then s.windows[n - 1 := s.windows[n - 1].(end := f + 1)]
    else s.windows + [Window(s.floor, f, f, f + 1)]
  }

  /** A spoken frame is given to the session there is, and counted even when there is none. */
  function Speak(s: Intake): Intake {
    var f := s.received;
    s.(received := f + 1, spokenAt := s.spokenAt + [true], liveAt := s.liveAt + [s.live],
       pushed := if s.live then s.pushed + [f] else s.pushed, pushedCount := s.pushedCount + 1,
       floor := f + 1, cuts := s.cuts + {f + 1}, windows := if s.live then Extended(s) else s.windows)
  }

  function Keep(s: Intake): Intake {
    s.(received := s.received + 1, spokenAt := s.spokenAt + [false], liveAt := s.liveAt + [s.live],
       buffer := Remember(s.buffer, s.received))
  }

  /** One accepted frame, before the detector has looked at it. */
  function Store(s: Intake): Intake {
    if s.speaking then Speak(s) else Keep(s)
  }

  function Opening(s: Intake): Window
    requires 0 < s.received && s.buffer != []
  {
    Window(s.floor, s.buffer[0], s.received - 1, s.received)
  }

  /** speech_started: the buffer is flushed. A detector that says so twice flushes an empty buffer. */
  function Onset(s: Intake): Intake
    requires 0 < s.received
  {
    s.(speaking := true, buffer := [], floor := s.received, cuts := s.cuts + {s.received},
       onsets := if s.speaking then s.onsets else s.onsets + {s.received - 1},
       pushed := if s.live then s.pushed + s.buffer else s.pushed,
       windows := if s.live && s.buffer != [] then s.windows + [Opening(s)] else s.windows)
  }

  /** The frame is counted, and asks for a session when there is none. */
  function Admitted(s: Intake): Intake {
    s.(sinceFinalize := s.sinceFinalize + 1, starting := if s.live then s.starting else s.starting + 1)
  }

  function Stored(s: Intake): Intake {
    Store(Admitted(s))
  }

  /** A frame is stored, and an onset then flushes the buffer. */
  function AfterFrame(s: Intake, vad: Vad): Intake {
    match vad
    case NoChange => Stored(s)
    case SpeechStarted => Onset(Stored(s))
    case SpeechEnded => Stored(s).(speaking := false)
  }

  /** finalizeTurn returns at once without a session; else it takes the session away. */
  function TakeSession(s: Intake): Intake {
    if !s.live then s
    else
      s.(live := false, buffer := [], pushedCount := 0, sinceFinalize := 0, floor := s.received,
         cuts := s.cuts + {s.received}, finalizes := s.finalizes + {s.received})
  }

  /** createStt(...).then(...) */
  function SessionReady(s: Intake, found: bool): Intake {
    if s.starting == 0 then s else s.(starting := s.starting - 1, live := s.live || found)
  }

  predicate Accepts(s: Intake) {
    s.sinceFinalize < MAX_FRAMES_PER_TURN
  }

  function Step(s: Intake, e: Event): Intake {
    match e
    case Finalize => TakeSession(s)
    case SttReady(found) => SessionReady(s, found)
    case Frame(vad) => if Accepts(s) then AfterFrame(s, vad) else s.(sinceFinalize := s.sinceFinalize + 1)
  }

  function Exec(s: Intake, events: seq<Event>): Intake
    decreases |events|
  {
    if events == [] then s else Exec(Step(s, events[0]), events[1..])
  }

  // ---------------------------------------------------------------------
  // What every run keeps

  /** The frames from, …, to - 1. */
  function Range(from: nat, to: nat): seq<nat>
    requires from <= to
  {
    seq(to - from, i requires 0 <= i < to - from => from + i)
  }

  /** The frames of all windows, in order. */
  function Flat(windows: seq<Window>): seq<nat>
    requires forall w <- windows :: w.start <= w.end
  {
    if windows == [] then []
    else Flat(windows[..|windows| - 1]) + Range(windows[|windows| - 1].start, windows[|windows| - 1].end)
  }

  function Max(a: int, b: int): int {
    if a < b then b else a
  }

  /** `floor` is the last cut up to frame `at`. */
  ghost predicate IsFloor(cuts: set<nat>, floor: nat, at: nat) {
    floor <= at && (floor == 0 || floor in cuts) && forall p <- cuts :: p <= at ==> p <= floor
  }

  /** The buffer holds the latest three frames since the last cut. */
  ghost predicate Buffered(s: Intake) {
    && |s.spokenAt| == |s.liveAt| == s.received
    && IsFloor(s.cuts, s.floor, s.received) && (forall p <- s.cuts :: p <= s.received)
    && (if s.speaking then s.buffer == [] && s.floor == s.received
        else |s.buffer| == s.received - Max(s.floor, s.received - PRE_SPEECH_BUFFER_FRAMES))
    && s.buffer == Range(s.received - |s.buffer|, s.received)
    && s.finalizes <= s.cuts
    && forall o <- s.onsets :: o < s.received && !s.spokenAt[o]
  }

  /**
   * A window starts at an onset's third last frame, but not before the last cut; or in mid-speech, where the last cut
   * is the frame itself. From its onset on every frame found a session, and after it was speech; and no finalize took
   * the session away in between.
   */
  ghost predicate WindowOk(s: Intake, w: Window) {
    && w.floor <= w.start <= w.onset < w.end <= s.received && s.received == |s.spokenAt| == |s.liveAt|
    && w.start == Max(w.floor, w.onset - (PRE_SPEECH_BUFFER_FRAMES - 1)) && IsFloor(s.cuts, w.floor, w.onset)
    && (if s.spokenAt[w.onset] then w.start == w.onset else w.onset in s.onsets)
    && (forall f | w.start <= f < w.onset :: !s.spokenAt[f])
    && (forall f | w.onset < f < w.end :: s.spokenAt[f])
    && (forall f | w.onset <= f < w.end :: s.liveAt[f])
    && (forall p <- s.finalizes :: p <= w.floor || w.end <= p)
  }

  ghost predicate InSomeWindow(windows: seq<Window>, f: nat) {
    exists w <- windows :: w.start <= f < w.end
  }

  ghost predicate OpensSomeWindow(windows: seq<Window>, o: nat) {
    exists w <- windows :: w.onset == o
  }

  /** No frame that was spoken to a session, and no onset that found one, is left out. */
  ghost predicate Covered(s: Intake)
    requires s.received == |s.spokenAt| == |s.liveAt|
  {
    && (forall f | 0 <= f < s.received && s.spokenAt[f] && s.liveAt[f] :: InSomeWindow(s.windows, f))
    && (forall o <- s.onsets :: o < s.received && s.liveAt[o] ==> OpensSomeWindow(s.windows, o))
  }

  ghost predicate Ordered(windows: seq<Window>, floor: nat) {
    && (forall i, j | 0 <= i < j < |windows| && j == i + 1 :: windows[i].end <= windows[j].floor)
    && (windows != [] ==> windows[|windows| - 1].end <= floor)
  }

  ghost predicate Inv(s: Intake) {
    && Buffered(s) && Covered(s) && Ordered(s.windows, s.floor)
    && (forall w <- s.windows :: WindowOk(s, w))
    && s.pushed == Flat(s.windows)
  }

  lemma {:induction false} FlatMember(windows: seq<Window>, f: nat)
    requires forall w <- windows :: w.start <= w.end
    ensures f in Flat(windows) <==> InSomeWindow(windows, f)
    decreases |windows|
  {
    if windows != [] {
      var (front, last) := (windows[..|windows| - 1], windows[|windows| - 1]);
      FlatMember(front, f);
      assert windows == front + [last];
      assert f in Range(last.start, last.end) <==> last.start <= f < last.end by {
        if last.start <= f < last.end { assert Range(last.start, last.end)[f - last.start] == f; }
      }
    }
  }

  lemma FlatSnoc(windows: seq<Window>, w: Window)
    requires (forall v <- windows :: v.start <= v.end) && w.start <= w.end
    ensures forall v <- windows + [w] :: v.start <= v.end
    ensures Flat(windows + [w]) == Flat(windows) + Range(w.start, w.end)
  {
    assert (windows + [w])[..|windows|] == windows;
  }

  lemma RangeGrows(from: nat, to: nat)
    requires from <= to
    ensures Range(from, to + 1) == Range(from, to) + [to]
  {}

  lemma FlatExtended(windows: seq<Window>, f: nat)
    requires windows != [] && (forall v <- windows :: v.start <= v.end) && windows[|windows| - 1].end == f
    ensures var longer := windows[|windows| - 1 := windows[|windows| - 1].(end := f + 1)];
      (forall v <- longer :: v.start <= v.end) && Flat(longer) == Flat(windows) + [f]
  {
    var n := |windows| - 1;
    var w := windows[n];
    var longer := windows[n := w.(end := f + 1)];
    assert w in windows;
    assert longer[..n] == windows[..n];
    RangeGrows(w.start, f);
  }

  /** A window stays as it was when frames, and cuts behind it, are added. */
  lemma WindowStays(s: Intake, s': Intake, w: Window)
    requires WindowOk(s, w) && s.received <= s'.received == |s'.spokenAt| == |s'.liveAt|
    requires s.spokenAt <= s'.spokenAt && s.liveAt <= s'.liveAt && s.onsets <= s'.onsets
    requires (forall p <- s'.cuts :: p in s.cuts || s.received <= p) && s.cuts <= s'.cuts
    requires forall p <- s'.finalizes :: p in s.finalizes || s.received <= p
    ensures WindowOk(s', w)
  {}

  lemma MoreIsCovered(s: Intake, s': Intake, w: Window)
    requires s.received == |s.spokenAt| == |s.liveAt| && Covered(s)
    requires s'.windows == s.windows + [w] && s'.received == s.received && s'.onsets <= s.onsets + {w.onset}
    requires s'.spokenAt == s.spokenAt && s'.liveAt == s.liveAt
    ensures Covered(s')
  {
    assert w in s'.windows;
    forall f | 0 <= f < s'.received && s'.spokenAt[f] && s'.liveAt[f] ensures InSomeWindow(s'.windows, f) {
      var v :| v in s.windows && v.start <= f < v.end;
      assert v in s'.windows;
    }
    forall o | o in s'.onsets && o < s'.received && s'.liveAt[o] ensures OpensSomeWindow(s'.windows, o) {
      if o != w.onset {
        var v :| v in s.windows && v.onset == o;
        assert v in s'.windows;
      }
    }
  }

  // ---------------------------------------------------------------------
  // A frame that arrives in silence

  lemma KeptIsBuffered(s: Intake)
    requires Buffered(s) && !s.speaking
    ensures Buffered(Keep(s)) && Keep(s).buffer != []
  {
    var s' := Keep(s);
    RangeGrows(s.received - |s.buffer|, s.received);
    assert s'.buffer == Range(s'.received - |s'.buffer|, s'.received);
    assert forall o <- s'.onsets :: s'.spokenAt[o] == s.spokenAt[o];
  }

  lemma KeptIsCovered(s: Intake)
    requires Buffered(s) && Covered(s)
    ensures Covered(Keep(s))
  {
    var s' := Keep(s);
    forall f | 0 <= f < s'.received && s'.spokenAt[f] && s'.liveAt[f] ensures InSomeWindow(s'.windows, f) {
      assert s.spokenAt[f] && s.liveAt[f];
    }
    forall o | o in s'.onsets && o < s'.received && s'.liveAt[o] ensures OpensSomeWindow(s'.windows, o) {
      assert o < s.received && s.liveAt[o];
    }
  }

  lemma KeepKeepsInv(s: Intake)
    requires Inv(s) && !s.speaking
    ensures Inv(Keep(s)) && Keep(s).buffer != []
  {
    KeptIsBuffered(s);
    KeptIsCovered(s);
    forall w | w in s.windows ensures WindowOk(Keep(s), w) { WindowStays(s, Keep(s), w); }
  }

  // ---------------------------------------------------------------------
  // A frame that arrives during speech

  lemma SpokenIsBuffered(s: Intake)
    requires Buffered(s) && s.speaking
    ensures Buffered(Speak(s))
  {
    assert forall o <- s.onsets :: Speak(s).spokenAt[o] == s.spokenAt[o];
  }

  /** Without a session the frame is lost. */
  lemma LostFrameKeepsInv(s: Intake)
    requires Inv(s) && s.speaking && !s.live
    ensures Inv(Speak(s))
  {
    var s' := Speak(s);
    SpokenIsBuffered(s);
    forall w | w in s.windows ensures WindowOk(s', w) { WindowStays(s, s', w); }
    forall f | 0 <= f < s'.received && s'.spokenAt[f] && s'.liveAt[f] ensures InSomeWindow(s'.windows, f) {
      assert s.spokenAt[f] && s.liveAt[f];
    }
    forall o | o in s'.onsets && o < s'.received && s'.liveAt[o] ensures OpensSomeWindow(s'.windows, o) {
      assert o < s.received && s.liveAt[o];
    }
  }

  lemma LateWindowOk(s: Intake)
    requires Buffered(s) && s.speaking && s.live
    ensures WindowOk(Speak(s), Window(s.floor, s.received, s.received, s.received + 1))
  {}

  lemma WindowGrows(s: Intake, w: Window)
    requires WindowOk(s, w) && w.end < s.received && w.end !in s.finalizes && s.spokenAt[w.end] && s.liveAt[w.end]
    ensures WindowOk(s, w.(end := w.end + 1))
  {}

  lemma ExtendedWindowsOk(s: Intake, i: nat)
    requires Buffered(s) && s.speaking && s.live && (forall w <- s.windows :: WindowOk(s, w)) && i < |Extended(s)|
    ensures WindowOk(Speak(s), Extended(s)[i])
  {
    var n := |s.windows|;
    if i < n {
      assert s.windows[i] in s.windows;
      WindowStays(s, Speak(s), s.windows[i]);
    }
    if Continues(s) {
      if i == n - 1 { WindowGrows(Speak(s), s.windows[i]); }
    } else if i == n {
      LateWindowOk(s);
    }
  }

  /** Every window goes on in the extended list, with its onset. */
  lemma ExtendedHas(s: Intake, w: Window) returns (w': Window)
    requires w in s.windows
    ensures w' in Extended(s) && w'.start == w.start && w'.onset == w.onset && w.end <= w'.end
  {
    var i :| 0 <= i < |s.windows| && s.windows[i] == w;
    w' := Extended(s)[i];
  }

  lemma ExtendedCovers(s: Intake)
    requires Buffered(s) && Covered(s) && s.speaking && s.live && forall w <- s.windows :: WindowOk(s, w)
    ensures Covered(Speak(s))
  {
    var s' := Speak(s);
    var last := s'.windows[|s'.windows| - 1];
    assert last in s'.windows;
    assert last.start <= s.received < last.end by { ExtendedWindowsOk(s, |s'.windows| - 1); }
    forall f | 0 <= f < s'.received && s'.spokenAt[f] && s'.liveAt[f] ensures InSomeWindow(s'.windows, f) {
      if f < s.received {
        assert s.spokenAt[f] && s.liveAt[f];
        var w :| w in s.windows && w.start <= f < w.end;
        var w' := ExtendedHas(s, w);
      }
    }
    forall o | o in s'.onsets && o < s'.received && s'.liveAt[o] ensures OpensSomeWindow(s'.windows, o) {
      assert o < s.received && s.liveAt[o];
      var w :| w in s.windows && w.onset == o;
      var w' := ExtendedHas(s, w);
    }
  }

  lemma ExtendedFlat(s: Intake)
    requires forall w <- s.windows :: w.start <= w.end
    ensures (forall w <- Extended(s) :: w.start <= w.end) && Flat(Extended(s)) == Flat(s.windows) + [s.received]
  {
    if Continues(s) {
      FlatExtended(s.windows, s.received);
    } else {
      FlatSnoc(s.windows, Window(s.floor, s.received, s.received, s.received + 1));
    }
  }

  lemma ExtendedOrdered(s: Intake)
    requires Ordered(s.windows, s.floor) && s.floor == s.received
    ensures Ordered(Extended(s), s.received + 1)
  {
    if !Continues(s) {
      OrderedSnoc(s.windows, s.floor, Window(s.floor, s.received, s.received, s.received + 1), s.received + 1);
    }
  }

  lemma SpokenFrameKeepsInv(s: Intake)
    requires Inv(s) && s.speaking && s.live
    ensures Inv(Speak(s))
  {
    var s' := Speak(s);
    SpokenIsBuffered(s);
    ExtendedCovers(s);
    ExtendedOrdered(s);
    forall w | w in s.windows ensures w.start <= w.end { assert WindowOk(s, w); }
    ExtendedFlat(s);
    forall w | w in s'.windows ensures WindowOk(s', w) {
      var i :| 0 <= i < |s'.windows| && s'.windows[i] == w;
      ExtendedWindowsOk(s, i);
    }
  }

  // ---------------------------------------------------------------------
  // An onset

  lemma OnsetIsBuffered(s: Intake)
    requires Buffered(s) && 0 < s.received && (!s.speaking ==> !s.spokenAt[s.received - 1])
    ensures Buffered(Onset(s))
  {}

  /** What the buffer holds becomes a new window, ending at the frame that triggered the onset. */
  lemma OpeningOk(s: Intake)
    requires Buffered(s) && 0 < s.received && s.buffer != [] && s.liveAt[s.received - 1] && !s.speaking
    requires forall f | s.received - |s.buffer| <= f < s.received :: !s.spokenAt[f]
    ensures WindowOk(Onset(s), Opening(s)) && s.buffer == Range(Opening(s).start, Opening(s).end)
  {
    var w := Opening(s);
    assert w.start == s.received - |s.buffer|;
    assert forall p <- s.finalizes :: p in s.cuts;
  }

  /** No kept frame was spoken: a spoken one would have been a cut. */
  ghost predicate SpokenIsCut(s: Intake) {
    |s.spokenAt| == s.received && forall f | 0 <= f < s.received && s.spokenAt[f] :: f + 1 <= s.floor
  }

  lemma LostOnsetIsCovered(s: Intake)
    requires s.received == |s.spokenAt| == |s.liveAt| && 0 < s.received && Covered(s)
    requires s.liveAt[s.received - 1] ==> s.speaking
    ensures Onset(s).windows == s.windows ==> Covered(Onset(s))
  {}

  /** Without a session, or with nothing to flush, the windows stay as they are. */
  lemma LostOnsetKeepsInv(s: Intake)
    requires Inv(s) && 0 < s.received && s.liveAt[s.received - 1] == s.live && (!s.speaking ==> SpokenIsCut(s))
    requires s.speaking <==> s.buffer == []
    requires !s.live || s.speaking
    ensures Inv(Onset(s))
  {
    if !s.speaking { LastIsQuiet(s); }
    OnsetIsBuffered(s);
    LostOnsetIsCovered(s);
    assert Onset(s).pushed == s.pushed;
    forall w | w in s.windows ensures WindowOk(Onset(s), w) { WindowStays(s, Onset(s), w); }
  }

  lemma LastIsQuiet(s: Intake)
    requires Buffered(s) && SpokenIsCut(s) && s.buffer != []
    ensures forall f | s.received - |s.buffer| <= f < s.received :: !s.spokenAt[f]
  {}

  lemma OpeningKeepsWindows(s: Intake)
    requires Inv(s) && 0 < s.received && s.buffer != [] && s.liveAt[s.received - 1] && s.live && !s.speaking
    requires SpokenIsCut(s)
    ensures forall w <- Onset(s).windows :: WindowOk(Onset(s), w)
    ensures Onset(s).pushed == Flat(Onset(s).windows)
  {
    LastIsQuiet(s);
    OpeningOk(s);
    forall w | w in s.windows ensures WindowOk(Onset(s), w) { WindowStays(s, Onset(s), w); }
    FlatSnoc(s.windows, Opening(s));
  }

  lemma OrderedSnoc(windows: seq<Window>, floor: nat, w: Window, floor': nat)
    requires Ordered(windows, floor) && floor <= w.floor && w.end <= floor'
    ensures Ordered(windows + [w], floor')
  {
    var all := windows + [w];
    forall i, j | 0 <= i < j < |all| && j == i + 1 ensures all[i].end <= all[j].floor {
      if j < |windows| { assert all[i] == windows[i] && all[j] == windows[j]; }
    }
  }

  lemma OnsetKeepsInv(s: Intake)
    requires Inv(s) && SpokenIsCut(s) && 0 < s.received && s.liveAt[s.received - 1] == s.live
    requires s.speaking <==> s.buffer == []
    ensures Inv(Onset(s))
  {
    if !s.live || s.speaking {
      LostOnsetKeepsInv(s);
    } else {
      LastIsQuiet(s);
      OnsetIsBuffered(s);
      OpeningKeepsWindows(s);
      MoreIsCovered(s, Onset(s), Opening(s));
      OrderedSnoc(s.windows, s.floor, Opening(s), s.received);
    }
  }

  // ---------------------------------------------------------------------
  // Steps and runs

  ghost predicate Sound(s: Intake) {
    Inv(s) && SpokenIsCut(s)
  }

  /** Nothing but the counters, the session and the detector's state differ. */
  lemma SameHistory(s: Intake, s': Intake)
    requires Sound(s) && (s'.speaking ==> s.speaking)
    requires s' == s.(live := s'.live, starting := s'.starting, sinceFinalize := s'.sinceFinalize,
                      speaking := s'.speaking)
    ensures Sound(s')
  {
    forall w | w in s.windows ensures WindowOk(s', w) { WindowStays(s, s', w); }
  }

  lemma StoreOnHistory(s: Intake)
    requires Buffered(s) && SpokenIsCut(s)
    ensures SpokenIsCut(Store(s)) && 0 < Store(s).received == |Store(s).liveAt|
    ensures Store(s).liveAt[Store(s).received - 1] == s.live
    ensures s.speaking ==> Store(s).buffer == []
  {}

  lemma StoreKeepsSound(s: Intake)
    requires Sound(s)
    ensures Sound(Store(s)) && 0 < Store(s).received && (s.speaking <==> Store(s).buffer == [])
    ensures Store(s).liveAt[Store(s).received - 1] == s.live
  {
    StoreOnHistory(s);
    if !s.speaking {
      KeepKeepsInv(s);
    } else if s.live {
      SpokenFrameKeepsInv(s);
    } else {
      LostFrameKeepsInv(s);
    }
  }

  lemma FrameKeepsSound(s: Intake, vad: Vad)
    requires Sound(s)
    ensures Sound(AfterFrame(s, vad))
  {
    SameHistory(s, Admitted(s));
    StoreKeepsSound(Admitted(s));
    match vad
    case NoChange =>
    case SpeechStarted => OnsetKeepsInv(Stored(s));
    case SpeechEnded => SameHistory(Stored(s), Stored(s).(speaking := false));
  }

  lemma TakeSessionKeepsSound(s: Intake)
    requires Sound(s)
    ensures Sound(TakeSession(s))
  {
    forall w | w in s.windows ensures WindowOk(TakeSession(s), w) { WindowStays(s, TakeSession(s), w); }
  }

  lemma StepKeepsSound(s: Intake, e: Event)
    requires Sound(s)
    ensures Sound(Step(s, e))
  {
    match e
    case Finalize => TakeSessionKeepsSound(s);
    case SttReady(_) => SameHistory(s, Step(s, e));
    case Frame(vad) =>
      if Accepts(s) { FrameKeepsSound(s, vad); } else { SameHistory(s, Step(s, e)); }
  }

  lemma {:induction false} ExecKeepsSound(s: Intake, events: seq<Event>)
    requires Sound(s)
    ensures Sound(Exec(s, events))
    decreases |events|
  {
    if events != [] {
      StepKeepsSound(s, events[0]);
      ExecKeepsSound(Step(s, events[0]), events[1..]);
    }
  }

  lemma {:induction false} WindowsOrdered(windows: seq<Window>, floor: nat, i: nat, j: nat)
    requires Ordered(windows, floor) && i < j < |windows|
    requires forall w <- windows :: w.floor <= w.end
    ensures windows[i].end <= windows[j].floor
    decreases j - i
  {
    if i + 1 < j {
      WindowsOrdered(windows, floor, i, j - 1);
      assert windows[j - 1] in windows && windows[j - 1].end <= windows[j].floor;
    }
  }

  /**
   * Whatever the detector says and whenever sessions come and go: the STT sessions get the windows and nothing else,
   * each a contiguous run of frames between two finalizes, opened by an onset or in mid-speech.
   */
  lemma PushedFramesAreWindows(events: seq<Event>)
    ensures var s := Exec(QUIET, events);
      && (forall w <- s.windows :: WindowOk(s, w))
      && (forall i, j | 0 <= i < j < |s.windows| :: s.windows[i].end <= s.windows[j].start)
      && s.pushed == Flat(s.windows)
  {
    ExecKeepsSound(QUIET, events);
    var s := Exec(QUIET, events);
    forall w | w in s.windows ensures w.floor <= w.end { assert WindowOk(s, w); }
    forall i, j | 0 <= i < j < |s.windows| ensures s.windows[i].end <= s.windows[j].start {
      WindowsOrdered(s.windows, s.floor, i, j);
      assert s.windows[j] in s.windows && WindowOk(s, s.windows[j]);
    }
  }

  /** In order, each at most once. */
  lemma PushedInOrder(events: seq<Event>, i: nat, j: nat)
    requires i < j < |Exec(QUIET, events).pushed|
    ensures Exec(QUIET, events).pushed[i] < Exec(QUIET, events).pushed[j]
  {
    PushedFramesAreWindows(events);
    FlatIncreases(Exec(QUIET, events).windows, i, j);
  }

  lemma {:induction false} FlatIncreases(windows: seq<Window>, i: nat, j: nat)
    requires forall w <- windows :: w.start <= w.end
    requires forall a, b | 0 <= a < b < |windows| :: windows[a].end <= windows[b].start
    requires i < j < |Flat(windows)|
    ensures Flat(windows)[i] < Flat(windows)[j]
    decreases |windows|
  {
    var (front, last) := (windows[..|windows| - 1], windows[|windows| - 1]);
    var head := |Flat(front)|;
    if j < head {
      FlatIncreases(front, i, j);
    } else if i < head {
      assert Flat(front)[i] in Flat(front);
      FlatMember(front, Flat(front)[i]);
      var w :| w in front && w.start <= Flat(front)[i] < w.end;
      var a :| 0 <= a < |front| && front[a] == w;
      assert windows[a].end <= windows[|windows| - 1].start;
    }
  }

  /** Frame `f` was still kept when speech started at frame `o`: one of the last three, and no cut since. */
  ghost predicate KeptUntil(s: Intake, f: nat, o: nat) {
    f <= o < f + PRE_SPEECH_BUFFER_FRAMES && forall p <- s.cuts :: p <= f || o < p
  }

  /** A frame is pushed exactly when it was spoken to a live session, or was still kept at an onset that found one. */
  lemma PushedIff(events: seq<Event>, f: nat)
    requires f < Exec(QUIET, events).received
    ensures var s := Exec(QUIET, events);
      && |s.spokenAt| == |s.liveAt| == s.received
      && (f in s.pushed <==>
            || (s.spokenAt[f] && s.liveAt[f])
            || exists o <- s.onsets :: o < s.received && s.liveAt[o] && KeptUntil(s, f, o))
  {
    ExecKeepsSound(QUIET, events);
    var s := Exec(QUIET, events);
    FlatMember(s.windows, f);
    if f in s.pushed {
      var w :| w in s.windows && w.start <= f < w.end;
      InWindowIsMeant(s, w, f);
    } else if o :| o in s.onsets && o < s.received && s.liveAt[o] && KeptUntil(s, f, o) {
      var w :| w in s.windows && w.onset == o;
      KeptIsInWindow(s, w, f);
    }
  }

  lemma InWindowIsMeant(s: Intake, w: Window, f: nat)
    requires WindowOk(s, w) && w.start <= f < w.end
    ensures (s.spokenAt[f] && s.liveAt[f]) || (w.onset in s.onsets && s.liveAt[w.onset] && KeptUntil(s, f, w.onset))
  {}

  lemma KeptIsInWindow(s: Intake, w: Window, f: nat)
    requires WindowOk(s, w) && KeptUntil(s, f, w.onset)
    ensures w.start <= f < w.end
  {}
}
