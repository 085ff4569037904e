/** The PMT packet and stream round trips. */
module PmtRoundTrip {
  import opened Division
  import opened Words
  import opened FemHeader
  import opened Machine
  import opened Streams
  import opened PmtSpec
  import opened PmtPackets
  import PmtXmit

  /** What one FEM sends for one event. */
  datatype Packet = Packet(
    moduleAddress: u8,
    moduleId: u8,
    eventNumber: u32,
    frame: u32,
    trigFrame: u32,
    trigSample: u32,
    firstField: u12,
    shots: seq<Shot>)

  const FEM_LAST: u16 := 0xc000

  predicate WellFormed(p: Packet) {
    && ValidShots(p.shots) && |ShotsWords(p.shots)| < 0xff_ffff
    && p.moduleAddress < 32 && p.moduleId < 16
    && p.eventNumber < 0x100_0000 && p.frame < 0x100_0000 && p.trigSample < 0x1000
  }

  /** The words that are counted and summed: all but the last. */
  function CountedWords(p: Packet): seq<u16>
    requires WellFormed(p)
  {
    [Tagged(4, p.firstField)] + ShotsWords(p.shots)
  }

  function HeaderOf(p: Packet): HeaderInfo
    requires WellFormed(p)
  {
    HeaderInfo(p.moduleAddress, p.moduleId, p.eventNumber, p.frame, p.trigFrame, p.trigSample,
               |CountedWords(p)|, Sum(CountedWords(p)) % 0x100_0000)
  }

  function PacketWords(p: Packet): seq<Word>
    requires WellFormed(p)
  {
    EncodeHeader(HeaderOf(p)) + PackPairs(CountedWords(p) + [FEM_LAST])
  }

  /** The packet stored with its own frames. */
  function Expected(p: Packet): StoredEvent
    requires WellFormed(p)
  {
    StoredEvent(HeaderOf(p), Sent(p.shots, HeaderOf(p)))
  }

  function Sent(ps: seq<Shot>, h: HeaderInfo): seq<Pulse>
  {
    if ps == [] then [] else [PulseOf(ps[0], h, ps[0].frame)] + Sent(ps[1..], h)
  }

  /** A header may begin. Pulses of a packet that was cut off may be left in the buffer,
      and a pulse of it may be under way. */
  predicate Ready(s: State) { s.headerCount == 0 && !s.searching && s.event.Some? }

  function Unfinished(s: State): Open { Open(s.ch, s.chHeaderCount, s.wordsInCh) }

  /** Between packets, inside an event, with nothing left behind. */
  predicate Idle(s: State) {
    && s.headerCount == 0 && !s.searching && s.event == Some([])
    && s.ch == BLANK_PULSE && s.chHeaderCount == 0 && s.wordsInCh == 0
    && (Class(s.last) == EventHeader || Class(s.last) == FemLastWord)
  }

  // ----- the parity of a packet -----

  lemma {:induction false} ShotsEven(ps: seq<Shot>)
    requires ValidShots(ps)
    ensures |ShotsWords(ps)| % 2 == 0
  {
    if ps != [] {
      ShotsEven(ps[1..]);
      assert |ShotWords(ps[0])| == 4 + |ps[0].samples| + |ps[0].samples| % 2;
    }
  }

  // ----- header words -----

  lemma HeaderStep(s: State, w: Word)
    requires !s.searching && s.headerCount < FEM_HEADER_COUNT - 1 && HeaderWord(w) && w != ALL_ONES
    ensures var words := s.headerWords[s.headerCount := w];
            Step(s, w) == (s.(headerWords := words, headerCount := s.headerCount + 1, last := w), Accepted)
    ensures Class(w) == FemHeader
  {
  }

  function WithHeader(s: State, words: HeaderWords, h: HeaderInfo): State
  {
    s.(headerWords := words, headerCount := 0, header := h, checksum := 0, nwords := 0,
    last := words[FEM_HEADER_COUNT - 1])
  }

  /** The state behind the exception: what was decoded before the trigger frame stays. */
  function Thrown(s: State, words: HeaderWords): State
  {
    s.(headerWords := words, headerCount := FEM_HEADER_COUNT, header := DecodeFields(words))
  }

  lemma LastHeaderStep(s: State, w: Word)
    requires !s.searching && s.headerCount == FEM_HEADER_COUNT - 1 && HeaderWord(w) && w != ALL_ONES
    ensures var words := s.headerWords[FEM_HEADER_COUNT - 1 := w];
            match DecodeHeader(words)
            case None => Step(s, w).1 == Threw && Step(s, w).0 == Thrown(s, words)
            case Some(h) => Step(s, w) == (WithHeader(s, words, h), Accepted)
    ensures Class(w) == FemHeader
  {
    hide DecodeHeader, DecodeFields;
  }

  /** The state after `n` of six header words. */
  function Prefix(s: State, words: HeaderWords, n: nat): State
    requires n < FEM_HEADER_COUNT
  {
    if n == 0 then s
    else s.(headerWords := words[..n] + s.headerWords[n..], headerCount := n, last := words[n - 1])
  }

  lemma {:induction false} PrefixRun(s: State, words: HeaderWords, n: nat)
    requires n < FEM_HEADER_COUNT && !s.searching && s.headerCount == 0
    requires forall i :: 0 <= i < FEM_HEADER_COUNT ==> HeaderWord(words[i])
    requires forall i :: 0 <= i < n ==> words[i] != ALL_ONES
    ensures Run(s, words[..n]) == (Prefix(s, words, n), Accepted)
    ensures n > 0 ==> Class(Prefix(s, words, n).last) == FemHeader
  {
    hide Step, Class;
    if n == 0 {
      assert words[..0] == [];
    } else {
      PrefixRun(s, words, n - 1);
      var s1 := Prefix(s, words, n - 1);
      HeaderStep(s1, words[n - 1]);
      FeedMore(Step, s, words, n - 1);
      assert s1.headerWords[n - 1 := words[n - 1]] == words[..n] + s.headerWords[n..];
    }
  }

  lemma HeaderRun(s: State, words: HeaderWords)
    requires !s.searching && s.headerCount == 0
    requires forall i :: 0 <= i < FEM_HEADER_COUNT ==> HeaderWord(words[i]) && words[i] != ALL_ONES
    ensures match DecodeHeader(words)
            case None =>
              && Run(s, words).1 == Threw
              && Run(s, words).0 == Thrown(Prefix(s, words, FEM_HEADER_COUNT - 1), words)
            case Some(h) => Run(s, words) == (WithHeader(s, words, h), Accepted)
    ensures Class(words[FEM_HEADER_COUNT - 1]) == FemHeader
  {
    hide Step, Class, DecodeHeader;
    var n := FEM_HEADER_COUNT - 1;
    PrefixRun(s, words, n);
    var s1 := Prefix(s, words, n);
    assert s1.headerWords[n := words[n]] == words;
    LastHeaderStep(s1, words[n]);
    FeedMore(Step, s, words, n);
    assert words[..n + 1] == words;
  }

  /** An all-ones header word is taken for an event marker and refused. */
  lemma MarkerStep(s: State)
    requires !s.searching && s.event.Some? && Class(s.last) != EventLastWord
    ensures Step(s, ALL_ONES).1 == Rejected && Step(s, ALL_ONES).0.log == s.log
  {
  }

  lemma DirtyHeaderRun(s: State, words: HeaderWords)
    requires Ready(s) && ALL_ONES in words && words[0] != ALL_ONES
    requires forall i :: 0 <= i < FEM_HEADER_COUNT ==> HeaderWord(words[i])
    ensures Run(s, words).1 == Rejected && Run(s, words).0.log == s.log
  {
    hide Step, Class;
    var n := FirstMarker(words, 0);
    PrefixRun(s, words, n);
    MarkerStep(Prefix(s, words, n));
    CutAt(words, n);
    FeedAppend(Step, s, words[..n], words[n..]);
    FeedAppend(Step, Prefix(s, words, n), [ALL_ONES], words[n + 1..]);
    FeedOne(Step, Prefix(s, words, n), ALL_ONES);
  }

  lemma CutAt(ws: seq<Word>, n: nat)
    requires n < |ws|
    ensures ws[..n] + ws[n..] == ws && [ws[n]] + ws[n + 1..] == ws[n..]
  {
  }

  function FirstMarker(words: seq<Word>, i: nat): (n: nat)
    requires i <= |words| && ALL_ONES in words[i..]
    ensures i <= n < |words| && words[n] == ALL_ONES && forall k :: i <= k < n ==> words[k] != ALL_ONES
    decreases |words| - i
  {
    if words[i] == ALL_ONES then i else FirstMarker(words, i + 1)
  }

  // ----- from 16-bit words to 32-bit words -----

  /** One 16-bit word on its way through the base class. */
  function Half(s: State, w: u16): (State, Outcome)
  {
    if w == FEM_LAST then FemLastStep(s, w) else ChWord(s, w)
  }

  predicate ShotWord(w: u16) { Tag(w) in {4, 8, 9, 10, 11} }

  lemma ReadKeeps(s: State, w: u16, before: Outcome)
    ensures ReadAndConclude(s, w, before).0.searching == s.searching
  {
    hide RollOver, Class;
  }

  lemma PulseKeeps(s: State, w: u16)
    ensures PulseWord(s, w).0.searching == s.searching
  {
    hide Class, ReadAndConclude;
    ReadKeeps(s, w, Accepted);
    ReadKeeps(s, w, Rejected);
    if BackOdd(s).Some? {
      ReadKeeps(Continue(s), w, Accepted);
    }
  }

  lemma HalfKeeps(s: State, w: u16)
    ensures Half(s, w).0.searching == s.searching
  {
    hide Class, PulseWord;
    PulseKeeps(s, w);
  }

  lemma PairStep(s: State, w: Word)
    requires !s.searching && ShotWord(w.lo) && (ShotWord(w.hi) || w.hi == FEM_LAST)
    ensures var (s1, o1) := Half(s, w.lo);
            var (s2, o2) := if o1 == Accepted then Half(s1, w.hi) else (s1, o1);
            var (s', o) := Step(s, w);
            o == o2 && s'.log == s2.log && (o == Accepted ==> s' == s2)
  {
    hide ChWord, FemLastStep;
  }

  /** Even positions hold shot words, odd ones shot words or the FEM's last word. */
  ghost predicate Paired(ws: seq<u16>) {
    && |ws| % 2 == 0
    && forall i :: 0 <= i < |ws| ==> ShotWord(ws[i]) || (i % 2 == 1 && ws[i] == FEM_LAST)
  }

  lemma PairedTail(ws: seq<u16>)
    requires Paired(ws) && ws != []
    ensures |ws| >= 2 && ShotWord(ws[0]) && (ShotWord(ws[1]) || ws[1] == FEM_LAST) && Paired(ws[2..])
  {
    assert ShotWord(ws[0]);
    forall i | 0 <= i < |ws[2..]|
      ensures ShotWord(ws[2..][i]) || (i % 2 == 1 && ws[2..][i] == FEM_LAST)
    {
      assert ws[2..][i] == ws[i + 2];
    }
  }

  lemma {:induction false} PairsRun(s: State, ws: seq<u16>)
    requires !s.searching && Paired(ws)
    ensures var (s1, o1) := Feed(Half, s, ws);
            var (s2, o2) := Run(s, PackPairs(ws));
            o1 == o2 && s1.log == s2.log && (o1 == Accepted ==> s1 == s2)
    decreases |ws|
  {
    hide Half, Step, ShotWord;
    if ws != [] {
      PairedTail(ws);
      var w := Word(ws[1], ws[0]);
      assert PackPairs(ws) == [w] + PackPairs(ws[2..]);
      PairStep(s, w);
      FeedTwo(Half, s, ws);
      if Step(s, w).1 == Accepted {
        HalfKeeps(s, ws[0]);
        HalfKeeps(Half(s, ws[0]).0, ws[1]);
        PairsRun(Step(s, w).0, ws[2..]);
      }
    }
  }

  lemma {:induction false} SampleWordsAreShot(samples: seq<u12>, k: nat)
    ensures forall i :: 0 <= i < |samples| ==> ShotWord(SampleWords(samples, k)[i])
    decreases |samples|
  {
    if samples != [] {
      SampleWordsAreShot(samples[1..], k + 1);
      TaggedParts(MarkerTag(k), samples[0]);
    }
  }

  lemma ShotWordsAreShot(p: Shot)
    requires ValidShot(p)
    ensures forall i :: 0 <= i < |ShotWords(p)| ==> ShotWord(ShotWords(p)[i])
  {
    TaggedParts(9, p.disc * 512 + p.number);
    UpperParts(p);
    TaggedParts(10, p.sample % 0x1000);
    TaggedParts(11, p.lastField);
    SampleWordsAreShot(p.samples, 3);
  }

  lemma {:induction false} ShotsWordsAreShot(ps: seq<Shot>)
    requires ValidShots(ps)
    ensures forall i :: 0 <= i < |ShotsWords(ps)| ==> ShotWord(ShotsWords(ps)[i])
  {
    if ps != [] {
      ShotWordsAreShot(ps[0]);
      ShotsWordsAreShot(ps[1..]);
    }
  }

  /** The FEM's last word always lands in the upper half. */
  lemma PacketPaired(p: Packet)
    requires WellFormed(p)
    ensures Paired(CountedWords(p) + [FEM_LAST])
  {
    ShotsEven(p.shots);
    ShotsWordsAreShot(p.shots);
    TaggedParts(4, p.firstField);
  }

  lemma {:induction false} HalfIsChWord(s: State, ws: seq<u16>)
    requires forall i :: 0 <= i < |ws| ==> ShotWord(ws[i])
    ensures Feed(Half, s, ws) == Feed(ChWord, s, ws)
    decreases |ws|
  {
    if ws != [] {
      assert ShotWord(ws[0]) && ws[0] != FEM_LAST;
      hide ChWord;
      HalfIsChWord(ChWord(s, ws[0]).0, ws[1..]);
    }
  }

  // ----- one packet -----

  lemma FirstStep(base: State, open: Open, event: seq<Pulse>, last: Word, field: u12)
    requires Class(last) == FemHeader
    ensures var w := Tagged(4, field);
            && ChWord(At(base, open, event, 0, 0, last), w) == (At(base, open, event, 1, w, Short(w)), Accepted)
            && Boundary(event, Short(w))
  {
    TaggedParts(4, field);
    DivMod(field, 0x1000, 0, field);
  }

  lemma StoreStep(base: State, open: Open, event: seq<Pulse>, n: nat, c: nat, last: Word)
    requires Boundary(event, last)
    requires n == base.header.nwords && n < 0xffff_ffff && c % 0x100_0000 == base.header.checksum
    ensures var (s', o) := FemLastStep(At(base, open, event, n, c, last), FEM_LAST);
            && o == Accepted && s'.log == base.log + [StoredEvent(base.header, event)]
            && (base.searching || Idle(s')) && s'.searching == base.searching
            && Class(s'.last) == FemLastWord
  {
    WrapAdd(n, 1);
    DivMod(n, 0x1_0000_0000, 0, n);
    DivMod(n + 1, 0x1_0000_0000, 0, n + 1);
    WrapLow24(c);
  }

  /** The words after the header: they are stored with whatever was in the buffer. */
  lemma ContentRun(base: State, open: Open, left: seq<Pulse>, p: Packet)
    requires WellFormed(p) && !base.searching && Class(base.last) == FemHeader
    requires base == At(base, open, left, 0, 0, base.last)
    requires base.header == HeaderOf(p).(trigFrame := base.header.trigFrame)
    ensures var (s', o) := Run(base, PackPairs(CountedWords(p) + [FEM_LAST]));
            var pulses := Pulses(p.shots, base.header);
            if pulses.None? || FirstBlocked(base.checkOverflow, open.wc, p.shots) then
              o != Accepted && s'.log == base.log
            else
              && o == Accepted && s'.log == base.log + [StoredEvent(base.header, left + pulses.value)]
              && Idle(s') && Class(s'.last) == FemLastWord
  {
    hide ChWord, Class, At, Step, FemLastStep, Boundary, FrameOf, Wrap, Idle, FirstBlocked;
    var ws := CountedWords(p);
    PacketPaired(p);
    PairsRun(base, ws + [FEM_LAST]);
    ShotsWordsAreShot(p.shots);
    TaggedParts(4, p.firstField);
    HalfIsChWord(base, ws);
    FeedAppend(Half, base, ws, [FEM_LAST]);
    var open', last' := CountedRun(base, open, left, p);
    if Pulses(p.shots, base.header).Some? && !FirstBlocked(base.checkOverflow, open.wc, p.shots) {
      StoreStep(base, open', left + Pulses(p.shots, base.header).value, |ws|, Sum(ws), last');
      FeedOne(Half, Feed(ChWord, base, ws).0, FEM_LAST);
    }
  }

  /** All of a packet's words but the last. */
  lemma CountedRun(base: State, open: Open, left: seq<Pulse>, p: Packet) returns (open': Open, last': Word)
    requires WellFormed(p) && Class(base.last) == FemHeader && base.header.frame != INVALID_WORD
    requires base == At(base, open, left, 0, 0, base.last)
    ensures var ws := CountedWords(p);
            var r := Feed(ChWord, base, ws);
            var pulses := Pulses(p.shots, base.header);
            if pulses.None? || FirstBlocked(base.checkOverflow, open.wc, p.shots) then Stopped(base, r)
            else
              && r == (At(base, open', left + pulses.value, |ws|, Sum(ws), last'), Accepted)
              && Boundary(left + pulses.value, last')
  {
    hide ChWord, Class, At, Boundary, FrameOf, Wrap, FirstBlocked;
    var first := Tagged(4, p.firstField);
    FirstStep(base, open, left, base.last, p.firstField);
    FeedAppend(ChWord, base, [first], ShotsWords(p.shots));
    FeedOne(ChWord, base, first);
    open', last' := ShotsRun(base, open, left, 1, first, Short(first), p.shots);
    SumAppend([first], ShotsWords(p.shots));
    SumOne(first);
  }

  /** Words still counted of an unfinished pulse make the overflow check refuse a word of
      the packet's first pulse. */
  predicate MarkerMissed(s: State, p: Packet) { FirstBlocked(s.checkOverflow, s.wordsInCh, p.shots) }

  /** Where a packet ends up, by what its truncated frames decode to. Pulses left in the
      buffer are stored with its own. */
  lemma PacketRun(s: State, p: Packet)
    requires Ready(s) && WellFormed(p)
    ensures var h0 := HeaderOf(p);
            var (s', o) := Run(s, PacketWords(p));
            if !FieldsClean(h0) || WithTriggerFrame(h0).None? || Pulses(p.shots, WithTriggerFrame(h0).value).None?
               || MarkerMissed(s, p) then
              o != Accepted && s'.log == s.log
            else
              var h := WithTriggerFrame(h0).value;
              && o == Accepted && s'.log == s.log + [StoredEvent(h, s.event.value + Pulses(p.shots, h).value)]
              && Idle(s') && Class(s'.last) == FemLastWord
  {
    hide Step, ChWord, Class, FieldWord, FirstWord, TriggerWord, DecodeHeader, RollOver, PackPairs, Pulses, FieldsClean,
         FirstBlocked, Idle;
    var h0 := HeaderOf(p);
    var words := EncodeHeader(h0);
    var data := PackPairs(CountedWords(p) + [FEM_LAST]);
    CleanWords(h0);
    HeaderWordsTagged(h0);
    DecodeEncoded(h0);
    FeedAppend(Step, s, words, data);
    if !FieldsClean(h0) {
      FirstWordRoundTrip(h0.moduleAddress, h0.moduleId);
      DirtyHeaderRun(s, words);
    } else {
      HeaderRun(s, words);
      if WithTriggerFrame(h0).Some? {
        var s1 := WithHeader(s, words, WithTriggerFrame(h0).value);
        HeaderAt(s, words, WithTriggerFrame(h0).value);
        ContentRun(s1, Unfinished(s), s.event.value, p);
      }
    }
  }

  lemma HeaderAt(s: State, words: HeaderWords, h: HeaderInfo)
    requires s.event.Some?
    ensures var s1 := WithHeader(s, words, h); s1 == At(s1, Unfinished(s), s.event.value, 0, 0, s1.last)
  {
    assert Wrap(0) == 0;
    DivMod(s.wordsInCh, 0x1_0000, 0, s.wordsInCh);
  }

  /** What a packet needs: no all-ones header field, and frames that their sent bits
      determine. */
  predicate Carried(p: Packet)
    requires WellFormed(p)
  {
    && FieldsClean(HeaderOf(p))
    && Near(p.trigFrame, p.frame, 8)
    && ShotsNear(p.shots, p.frame)
  }

  predicate ShotsNear(ps: seq<Shot>, frame: u32) { forall i :: 0 <= i < |ps| ==> Near(ps[i].frame, frame, 4) }

  lemma {:induction false} PulsesSent(ps: seq<Shot>, h: HeaderInfo)
    ensures Pulses(ps, h) == Some(Sent(ps, h)) <==> ShotsNear(ps, h.frame)
  {
    hide RollOver, Near;
    if ps != [] {
      var rest := ps[1..];
      PulsesSent(rest, h);
      RollOverRecovers(h.frame, ps[0].frame, 3);
      assert ShotsNear(ps, h.frame) <==> Near(ps[0].frame, h.frame, 4) && ShotsNear(rest, h.frame) by {
        if Near(ps[0].frame, h.frame, 4) && ShotsNear(rest, h.frame) {
          forall i | 0 <= i < |ps|
            ensures Near(ps[i].frame, h.frame, 4)
          {
            if i > 0 {
              assert ps[i] == rest[i - 1];
            }
          }
        }
      }
      if Pulses(ps, h).Some? {
        var f := FrameOf(ps[0], h).value;
        var tail := Pulses(rest, h).value;
        assert Pulses(ps, h).value[0] == PulseOf(ps[0], h, f) && Pulses(ps, h).value[1..] == tail;
        assert Sent(ps, h)[0] == PulseOf(ps[0], h, ps[0].frame) && Sent(ps, h)[1..] == Sent(rest, h);
      }
    }
  }

  lemma {:induction false} SentCount(ps: seq<Shot>, h: HeaderInfo)
    ensures |Sent(ps, h)| == |ps| && (Pulses(ps, h).Some? ==> |Pulses(ps, h).value| == |ps|)
  {
    hide FrameOf, PulseOf;
    if ps != [] {
      SentCount(ps[1..], h);
    }
  }

  /** The packet round trip: wherever a header may begin, a well-formed packet adds exactly
      itself to the log if and only if it is carried, no pulse was left in the buffer, and
      no unfinished pulse puts the overflow check out of step. */
  lemma PacketRoundTrip(s: State, p: Packet)
    requires Ready(s) && WellFormed(p)
    ensures Run(s, PacketWords(p)).0.log == s.log + [Expected(p)]
            <==> Carried(p) && s.event == Some([]) && !MarkerMissed(s, p)
  {
    hide Run, FieldsClean, Near, RollOver, Idle, Pulses, Sent, PacketWords, ShotsNear, FirstBlocked;
    var h0 := HeaderOf(p);
    var log' := Run(s, PacketWords(p)).0.log;
    assert s.log + [Expected(p)] != s.log by { assert |s.log + [Expected(p)]| == |s.log| + 1; }
    RollOverRecovers(h0.frame, h0.trigFrame, 4);
    PacketRun(s, p);
    SentCount(p.shots, h0);
    if WithTriggerFrame(h0).Some? {
      var h := WithTriggerFrame(h0).value;
      PulsesSent(p.shots, h);
      SentCount(p.shots, h);
      assert h == h0.(trigFrame := h.trigFrame);
      if log' != s.log {
        var pulses := Pulses(p.shots, h).value;
        assert log'[|s.log|] == StoredEvent(h, s.event.value + pulses);
        assert (s.log + [Expected(p)])[|s.log|] == Expected(p);
        assert [] + pulses == pulses;
      }
    }
  }

  // ----- streams -----

  predicate Good(p: Packet) { WellFormed(p) && Carried(p) }

  /** Before the first event, or after an end word. */
  predicate Between(s: State) {
    && s.headerCount == 0 && !s.searching
    && s.ch == BLANK_PULSE && s.chHeaderCount == 0 && s.wordsInCh == 0
    && (s.event == None || (s.event == Some([]) && Class(s.last) == EventLastWord))
  }

  lemma MarkerOpens(s: State)
    requires Between(s)
    ensures var (s', o) := Step(s, ALL_ONES); o == Accepted && Idle(s') && s'.log == s.log
  {
  }

  lemma EndWordCloses(s: State)
    requires Idle(s) && Behind(s)
    ensures var (s', o) := Step(s, EVENT_LAST); o == Accepted && Between(s') && s'.log == s.log
  {
  }

  /** A carried packet is stored behind the pulses left in the buffer, unless the overflow
      check is out of step. */
  lemma GoodPacketRun(s: State, p: Packet)
    requires Ready(s) && Good(p)
    ensures var (s', o) := Run(s, PacketWords(p));
            if MarkerMissed(s, p) then o != Accepted && s'.log == s.log
            else
              var h := HeaderOf(p);
              && o == Accepted && s'.log == s.log + [StoredEvent(h, s.event.value + Sent(p.shots, h))]
              && Idle(s') && Behind(s')
  {
    hide Run, Class, RollOver, Near, PacketWords, FieldsClean, Idle, Pulses, Sent, ShotsNear, FirstBlocked;
    RollOverRecovers(HeaderOf(p).frame, HeaderOf(p).trigFrame, 4);
    PulsesSent(p.shots, HeaderOf(p));
    PacketRun(s, p);
  }

  lemma IdlePacketRun(s: State, p: Packet)
    requires Idle(s) && Good(p)
    ensures var (s', o) := Run(s, PacketWords(p));
            o == Accepted && s'.log == s.log + [Expected(p)] && Idle(s') && Behind(s')
  {
    hide Run, Class, PacketWords, Sent, FirstBlocked;
    NoneBlocked(s.checkOverflow, p.shots);
    GoodPacketRun(s, p);
    assert [] + Sent(p.shots, HeaderOf(p)) == Sent(p.shots, HeaderOf(p));
  }

  /** The decoder and its packets, for streams of events. */
  function Pmt(): Protocol<State, Packet, StoredEvent> {
    Protocol(Step, (s: State) => s.log,
             (p: Packet) => if WellFormed(p) then PacketWords(p) else [],
             (p: Packet) => if WellFormed(p) then Expected(p) else StoredEvent(BLANK_HEADER, []),
             Good, Between, Idle, Behind)
  }

  /** Behind a packet. */
  predicate Behind(s: State) { Class(s.last) == FemLastWord }

  lemma PmtSound()
    ensures Sound(Pmt())
  {
    hide Step, Idle, Between, Behind, WellFormed, Carried, PacketWords, Expected;
    forall s | Between(s)
      ensures Opens(Pmt(), s)
    {
      MarkerOpens(s);
    }
    forall s | Idle(s) && Behind(s)
      ensures Closes(Pmt(), s)
    {
      EndWordCloses(s);
    }
    forall s, p | Idle(s) && Good(p)
      ensures Passes(Pmt(), s, p)
    {
      IdlePacketRun(s, p);
    }
  }

  lemma StartsBetween(checkOverflow: bool, debug: bool)
    ensures Between(Fresh(checkOverflow, debug)) && Fresh(checkOverflow, debug).log == []
  {
  }

  /** The stream round trip, with or without the overflow check. */
  lemma StreamRoundTrip(checkOverflow: bool, debug: bool, events: seq<seq<Packet>>)
    requires GoodEvents(Pmt(), events)
    ensures Run(Fresh(checkOverflow, debug), Stream(Pmt(), events)).1 == Accepted
    ensures Run(Fresh(checkOverflow, debug), Stream(Pmt(), events)).0.log == ExpectedLog(Pmt(), events)
  {
    hide Sound, Stream, ExpectedLog, Step, Fresh, Between, GoodEvents;
    PmtSound();
    StartsBetween(checkOverflow, debug);
    StreamRun(Pmt(), Fresh(checkOverflow, debug), events);
    assert [] + ExpectedLog(Pmt(), events) == ExpectedLog(Pmt(), events);
  }

  // ----- zero words -----

  /** While no event is being searched for, a zero word is passed over behind a FEM's last
      word or an end word, and refused anywhere else, with nothing stored. */
  lemma ZeroExactly(s: State)
    requires !s.searching
    ensures if Class(s.last) == FemLastWord || Class(s.last) == EventLastWord then Step(s, ZERO) == (s, Accepted)
            else Step(s, ZERO).1 == Rejected && Step(s, ZERO).0.log == s.log
  {
  }

  lemma PmtSkipsZeros()
    ensures SkipsZeros(Pmt())
  {
    hide Step, Idle, Behind, Good, PacketWords, Expected;
    forall s | Idle(s) && Behind(s)
      ensures Skips(Pmt(), s) && Skips(Pmt(), Step(s, EVENT_LAST).0)
    {
      BehindSkips(s);
    }
  }

  lemma BehindSkips(s: State)
    requires Idle(s) && Behind(s)
    ensures var t := Step(s, EVENT_LAST).0; Step(s, ZERO) == (s, Accepted) && Step(t, ZERO) == (t, Accepted)
  {
  }

  /** The stream round trip with any number of zero words behind packets and end words. */
  lemma PaddedRoundTrip(checkOverflow: bool, debug: bool, events: seq<Padded<seq<Padded<Packet>>>>)
    requires GoodEvents(Pmt(), Events(events))
    ensures Run(Fresh(checkOverflow, debug), PaddedStream(Pmt(), events)).1 == Accepted
    ensures Run(Fresh(checkOverflow, debug), PaddedStream(Pmt(), events)).0.log == ExpectedLog(Pmt(), Events(events))
  {
    hide Sound, SkipsZeros, Stream, PaddedStream, ExpectedLog, Step, Fresh, Between, GoodEvents, Events;
    PmtSound();
    PmtSkipsZeros();
    StartsBetween(checkOverflow, debug);
    PaddedRun(Pmt(), Fresh(checkOverflow, debug), events);
    StreamRoundTrip(checkOverflow, debug, Events(events));
  }

  /** A new decoder fed a whole stream of carried packets. */
  method Replay(checkOverflow: bool, debug: bool, events: seq<seq<Packet>>)
    returns (stored: seq<StoredEvent>, o: Outcome)
    requires GoodEvents(Pmt(), events)
    ensures o == Accepted
    ensures stored == ExpectedLog(Pmt(), events)
  {
    var decoder := new PmtXmit.Decoder(checkOverflow, debug);
    o := decoder.Decode(Stream(Pmt(), events));
    stored := decoder.storage;
    StreamRoundTrip(checkOverflow, debug, events);
  }
}
