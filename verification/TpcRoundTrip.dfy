/** Whole packets and whole streams through the TPC decoder. */
module TpcRoundTrip {
  import opened Division
  import opened Words
  import opened FemHeader
  import opened DeltaCode
  import opened Machine
  import opened Streams
  import opened TpcSpec
  import opened TpcChannels
  import opened TpcGate

  /** What one FEM sends for one event. */
  datatype Packet = Packet(
    moduleAddress: u8,
    moduleId: u8,
    eventNumber: u32,
    frame: u32,
    trigFrame: u32,
    trigSample: u32,
    blocks: seq<Block>)

  /** The packet fits its header fields and its words can be counted in 24 bits. */
  predicate WellFormed(p: Packet) {
    && p.blocks != [] && ValidBlocks(p.blocks)
    && |ChannelWords(p.blocks)| <= 0x100_0000
    && p.moduleAddress < 32 && p.moduleId < 16
    && p.eventNumber < 0x100_0000 && p.frame < 0x100_0000 && p.trigSample < 0x1000
  }

  /** The header announces one word less than the channel words, and their sum. */
  function HeaderOf(p: Packet): HeaderInfo
    requires WellFormed(p)
  {
    var ws := ChannelWords(p.blocks);
    HeaderInfo(p.moduleAddress, p.moduleId, p.eventNumber, p.frame, p.trigFrame, p.trigSample,
               |ws| - 1, Sum(ws) % 0x100_0000)
  }

  function PacketWords(p: Packet): seq<Word>
    requires WellFormed(p)
  {
    EncodeHeader(HeaderOf(p)) + PackPairs(ChannelWords(p.blocks))
  }

  function StoredAs(p: Packet, h: HeaderInfo): StoredEvent { StoredEvent(h, Channels(p.blocks, h)) }

  function Expected(p: Packet): StoredEvent
    requires WellFormed(p)
  {
    StoredAs(p, HeaderOf(p))
  }

  /** The packet stored with the channels that were left in the buffer before it. */
  function StoredBehind(left: seq<Channel>, p: Packet, h: HeaderInfo): StoredEvent {
    StoredEvent(h, left + Channels(p.blocks, h))
  }

  /** No header is at hand or under way; channels may be left in the buffer. */
  predicate Ready(s: State) { s.headerCount == 0 && s.header == BLANK_HEADER && !s.searching && s.event.Some? }

  /** A header word is admitted here. */
  predicate MayOpen(s: State) {
    || Class(s.last) == EventHeader || Class(s.last) == FemHeader || Class(s.last) == ChannelLastWord
    || s.lastMissing
  }

  /** Between packets, inside an event, with nothing left behind. */
  predicate Idle(s: State) {
    && s.headerCount == 0 && s.header == BLANK_HEADER && !s.searching && s.event == Some([])
    && (Class(s.last) == EventHeader || Class(s.last) == ChannelLastWord)
  }

  // ----- the header words -----

  predicate HeaderReady(s: State) {
    s.header == BLANK_HEADER && !s.searching && s.event.Some? && MayOpen(s)
  }

  lemma HeaderStep(s: State, w: Word)
    requires HeaderReady(s) && s.headerCount < FEM_HEADER_COUNT - 1
    requires HeaderWord(w) && w != ALL_ONES
    ensures Step(s, w) == (s.(headerWords := s.headerWords[s.headerCount := w], headerCount := s.headerCount + 1,
                              lastMissing := false, last := w), Accepted)
    ensures HeaderReady(Step(s, w).0) && Class(w) == FemHeader
  {
  }

  lemma LastHeaderStep(s: State, w: Word)
    requires HeaderReady(s) && s.headerCount == FEM_HEADER_COUNT - 1
    requires HeaderWord(w) && w != ALL_ONES
    ensures var ws := s.headerWords[FEM_HEADER_COUNT - 1 := w];
            match DecodeHeader(ws)
            case None => Step(s, w).1 == Threw && Step(s, w).0 == Thrown(s, ws)
            case Some(h) =>
              Step(s, w) == (s.(headerWords := ws, headerCount := FEM_HEADER_COUNT, header := h,
                                checksum := 0, nwords := 0, lastMissing := false, last := w), Accepted)
    ensures Class(w) == FemHeader
  {
    hide DecodeHeader, DecodeFields;
  }

  /** The state behind the exception: what was decoded before the trigger frame stays. */
  function Thrown(s: State, words: HeaderWords): State
  {
    s.(headerWords := words, headerCount := FEM_HEADER_COUNT, header := DecodeFields(words))
  }

  function WithHeader(s: State, words: HeaderWords, h: HeaderInfo): State
  {
    s.(headerWords := words, headerCount := FEM_HEADER_COUNT, header := h, checksum := 0, nwords := 0,
    lastMissing := false, last := words[FEM_HEADER_COUNT - 1])
  }

  /** The state after `n` of six header words. */
  function Prefix(s: State, words: HeaderWords, n: nat): State
    requires n < FEM_HEADER_COUNT
  {
    if n == 0 then s
    else
      s.(headerWords := words[..n] + s.headerWords[n..], headerCount := n, lastMissing := false, last := words[n - 1])
  }

  lemma {:induction false} PrefixRun(s: State, words: HeaderWords, n: nat)
    requires n < FEM_HEADER_COUNT && HeaderReady(s) && s.headerCount == 0
    requires forall i :: 0 <= i < FEM_HEADER_COUNT ==> HeaderWord(words[i]) && words[i] != ALL_ONES
    ensures Run(s, words[..n]) == (Prefix(s, words, n), Accepted) && HeaderReady(Prefix(s, words, n))
  {
    hide Step, Class;
    if n == 0 {
      assert words[..0] == [];
    } else {
      PrefixRun(s, words, n - 1);
      var s1 := Prefix(s, words, n - 1);
      HeaderStep(s1, words[n - 1]);
      FeedMore(Step, s, words, n - 1);
      assert s1.headerWords[n - 1 := words[n - 1]] == words[..n] + s.headerWords[n..];
    }
  }

  /** Six clean header words install the header they decode to, or throw. */
  lemma HeaderRun(s: State, words: HeaderWords)
    requires HeaderReady(s) && s.headerCount == 0
    requires forall i :: 0 <= i < FEM_HEADER_COUNT ==> HeaderWord(words[i]) && words[i] != ALL_ONES
    ensures match DecodeHeader(words)
            case None =>
              && Run(s, words).1 == Threw && Run(s, words).0.log == s.log
              && Run(s, words).0.header == DecodeFields(words)
            case Some(h) => Run(s, words) == (WithHeader(s, words, h), Accepted)
    ensures Class(words[FEM_HEADER_COUNT - 1]) == FemHeader
  {
    hide Step, Class, DecodeHeader;
    var n := FEM_HEADER_COUNT - 1;
    PrefixRun(s, words, n);
    var s1 := Prefix(s, words, n);
    assert s1.headerWords[n := words[n]] == words;
    LastHeaderStep(s1, words[n]);
    FeedMore(Step, s, words, n);
    assert words[..n + 1] == words;
  }

  // ----- one packet -----

  /** The packet's header with some checksum put in place of the sum of its words. */
  function Claimed(p: Packet, checksum: u32): HeaderInfo
    requires WellFormed(p)
  {
    HeaderOf(p).(checksum := checksum)
  }

  function ClaimedWords(p: Packet, checksum: u32): seq<Word>
    requires WellFormed(p)
  {
    EncodeHeader(Claimed(p, checksum)) + PackPairs(ChannelWords(p.blocks))
  }

  /** The gate in terms of what was sent. */
  predicate PassesFor(p: Packet, checksum: u32)
    requires WellFormed(p)
  {
    var sum := Sum(ChannelWords(p.blocks));
    checksum == sum % 0x100_0000 || checksum == (sum + 0x503f) % 0x100_0000
  }

  /** The header words, and the state in which the channel words find the decoder. */
  lemma ClaimedHeaderRun(s: State, p: Packet, checksum: u32, h: HeaderInfo) returns (s1: State)
    requires Ready(s) && MayOpen(s) && WellFormed(p) && checksum < 0x100_0000 && FieldsClean(Claimed(p, checksum))
    requires WithTriggerFrame(Claimed(p, checksum)) == Some(h)
    ensures Run(s, EncodeHeader(Claimed(p, checksum))) == (s1, Accepted)
    ensures s1 == At(s1, s1.ch, s.event.value, 0, 0, s1.last) && s1.header == h && s1.log == s.log
    ensures !s1.searching && !s1.lastMissing && Class(s1.last) == FemHeader && h.nwords >= 1
  {
    hide Step, ChWord, Class, FieldWord, FirstWord, TriggerWord, DecodeHeader, RollOver;
    var h0 := Claimed(p, checksum);
    var words := EncodeHeader(h0);
    CleanWords(h0);
    HeaderWordsTagged(h0);
    DecodeEncoded(h0);
    HeaderRun(s, words);
    s1 := WithHeader(s, words, h);
    assert Wrap(0) == 0;
  }

  /** The channel words after the header: stored when the sum passes, else refused. */
  lemma ClaimedBlocksRun(s1: State, left: seq<Channel>, p: Packet, checksum: u32, h: HeaderInfo)
    requires WellFormed(p) && ZERO !in PackPairs(ChannelWords(p.blocks))
    requires WithTriggerFrame(Claimed(p, checksum)) == Some(h)
    requires s1 == At(s1, s1.ch, left, 0, 0, s1.last) && s1.header == h
    requires !s1.searching && Class(s1.last) == FemHeader && h.nwords >= 1
    ensures var sum := Sum(ChannelWords(p.blocks));
            var last := Short(LastOf(p.blocks[|p.blocks| - 1]));
            var (t, o) := Done(s1, left + Channels(p.blocks, h), h.nwords, sum, last);
            var data := PackPairs(ChannelWords(p.blocks));
            if PassesFor(p, checksum) then o == Accepted && Run(s1, data) == (t, o) else Run(s1, data).0.log == s1.log
  {
    hide Step, ChWord, Class, RollOver, LastOf, At;
    var data := ChannelWords(p.blocks);
    BlocksRun(s1, s1.ch, left, 0, 0, s1.last, p.blocks);
    LastClass(p.blocks[|p.blocks| - 1]);
    ChannelWordsAreData(p.blocks);
    if PassesFor(p, checksum) {
      PairsRun(s1, data);
    } else {
      PairsRefused(s1, data);
    }
  }

  /** The checksum gate on packets: with any clean 24-bit checksum in its header, the packet
      is stored, behind the channels left in the buffer, exactly when that is the sum of its
      words or the sum plus 0x503f. */
  lemma ChecksumExactly(s: State, p: Packet, checksum: u32, h: HeaderInfo)
    requires Ready(s) && MayOpen(s) && WellFormed(p) && checksum < 0x100_0000 && FieldsClean(Claimed(p, checksum))
    requires ZERO !in PackPairs(ChannelWords(p.blocks)) && WithTriggerFrame(Claimed(p, checksum)) == Some(h)
    ensures Run(s, ClaimedWords(p, checksum)).0.log ==
            if PassesFor(p, checksum) then s.log + [StoredBehind(s.event.value, p, h)] else s.log
  {
    hide Run, FieldsClean, PassesFor, WithTriggerFrame, MayOpen, At, Class, EncodeHeader;
    var words, data := EncodeHeader(Claimed(p, checksum)), PackPairs(ChannelWords(p.blocks));
    var s1 := ClaimedHeaderRun(s, p, checksum, h);
    ClaimedBlocksRun(s1, s.event.value, p, checksum, h);
    RunAppend(s, words, data);
  }

  lemma RunAppend(s: State, a: seq<Word>, b: seq<Word>)
    requires Run(s, a).1 == Accepted
    ensures Run(s, a + b) == Run(Run(s, a).0, b)
  {
    FeedAppend(Step, s, a, b);
  }

  /** The packet stored with the trigger frame that came back, behind what was left. */
  lemma CleanPacketRun(s: State, p: Packet, h: HeaderInfo)
    requires Ready(s) && MayOpen(s)
    requires WellFormed(p) && FieldsClean(HeaderOf(p)) && ZERO !in PackPairs(ChannelWords(p.blocks))
    requires WithTriggerFrame(HeaderOf(p)) == Some(h)
    ensures var (s', o) := Run(s, PacketWords(p));
            o == Accepted && s'.log == s.log + [StoredBehind(s.event.value, p, h)] && Idle(s')
            && Class(s'.last) == ChannelLastWord && s'.nwords != 0
  {
    hide Run, FieldsClean, WithTriggerFrame, Class, EncodeHeader, MayOpen;
    var checksum := Sum(ChannelWords(p.blocks)) % 0x100_0000;
    assert Claimed(p, checksum) == HeaderOf(p);
    var s1 := ClaimedHeaderRun(s, p, checksum, h);
    ClaimedBlocksRun(s1, s.event.value, p, checksum, h);
    RunAppend(s, EncodeHeader(HeaderOf(p)), PackPairs(ChannelWords(p.blocks)));
    LastClass(p.blocks[|p.blocks| - 1]);
    DivMod(h.nwords, 0x1_0000_0000, 0, h.nwords);
  }

  // ----- why an unclean packet is lost -----

  /** Waiting for a header that never completes. */
  predicate Waiting(s: State) { s.header == BLANK_HEADER && !s.searching && s.event.Some? }

  /** Nothing was added but events without a header. */
  ghost predicate OnlyHeaderless(log: seq<StoredEvent>, more: seq<StoredEvent>) {
    log <= more && forall i :: |log| <= i < |more| ==> HeaderLess(more[i])
  }

  /** Then nothing can be stored at all, if the counters are in order. */
  predicate Stuck(s: State, log: seq<StoredEvent>) {
    Waiting(s) && s.log == log && (s.nwords == 0 ==> s.checksum == 0)
  }

  /** The event marker inside a header is swallowed as two samples. */
  lemma MarkerStep(s: State)
    requires HeaderReady(s) && Class(s.last) == FemHeader
    ensures var (s', o) := Step(s, ALL_ONES);
            && o == Accepted && HeaderReady(s') && s' == s.(ch := s'.ch, last := Short(0xffff))
            && Class(s'.last) == FemHeader
  {
  }

  lemma {:induction false} DirtyHeaderRun(s: State, words: HeaderWords, dirty: nat, n: nat)
    requires HeaderReady(s) && s.headerCount == 0 && words[0] != ALL_ONES
    requires dirty < FEM_HEADER_COUNT && words[dirty] == ALL_ONES
    requires forall i :: 0 <= i < FEM_HEADER_COUNT ==> HeaderWord(words[i])
    requires n <= FEM_HEADER_COUNT
    ensures var (s', o) := Run(s, words[..n]);
            && o == Accepted && HeaderReady(s') && (n > 0 ==> Class(s'.last) == FemHeader)
            && s'.log == s.log && s'.nwords == s.nwords && s'.checksum == s.checksum
            && s'.headerCount <= n && (n > dirty ==> s'.headerCount < n)
  {
    hide Step, Class;
    if n == 0 {
      assert words[..0] == [];
    } else {
      DirtyHeaderRun(s, words, dirty, n - 1);
      var s1 := Run(s, words[..n - 1]).0;
      FeedAppend(Step, s, words[..n - 1], [words[n - 1]]);
      assert words[..n] == words[..n - 1] + [words[n - 1]];
      FeedOne(Step, s1, words[n - 1]);
      if words[n - 1] == ALL_ONES {
        MarkerStep(s1);
      } else {
        HeaderStep(s1, words[n - 1]);
      }
    }
  }

  lemma StuckClose(s: State, log: seq<StoredEvent>, w: u16)
    requires Stuck(s, log) && Tag(w) == 5
    ensures CloseChannel(s, w).0.log == log
    ensures CloseChannel(s, w).1 == Accepted ==> Stuck(CloseChannel(s, w).0, log)
  {
    if s.nwords == 0 {
      assert Wrap(0 + w) == w by { DivMod(w, 0x1_0000_0000, 0, w); }
      assert w % 0x100_0000 == w by { DivMod(w, 0x100_0000, 0, w); }
      assert (w + 0x503f) % 0x100_0000 != 0 by { DivMod(w + 0x503f, 0x100_0000, 0, w + 0x503f); }
    }
  }

  lemma StuckChWord(s: State, log: seq<StoredEvent>, w: u16)
    requires Stuck(s, log) && DataWord(w)
    ensures ChWord(s, w).0.log == log
    ensures ChWord(s, w).1 == Accepted ==> Stuck(ChWord(s, w).0, log)
  {
    hide DecodeWord, CloseChannel, Wrap;
    if Tag(w) == 5 {
      StuckClose(s, log, w);
    }
  }

  ghost predicate DataPairs(ws: seq<Word>) {
    forall i :: 0 <= i < |ws| ==> DataWord(ws[i].lo) && DataWord(ws[i].hi)
  }

  lemma {:induction false} StuckRun(s: State, log: seq<StoredEvent>, ws: seq<Word>)
    requires Stuck(s, log)
    requires DataPairs(ws)
    ensures Run(s, ws).0.log == log
    decreases |ws|
  {
    hide ChWord, Dispatch;
    if ws != [] {
      var w := ws[0];
      if w != ZERO {
        PairStep(s, w);
        StuckChWord(s, log, w.lo);
        if ChWord(s, w.lo).1 == Accepted {
          StuckChWord(ChWord(s, w.lo).0, log, w.hi);
        }
      }
      if Step(s, w).1 == Accepted {
        StuckRun(Step(s, w).0, log, ws[1..]);
      }
    }
  }

  lemma {:induction false} PairsAreData(ws: seq<u16>)
    requires DataWords(ws)
    ensures DataPairs(PackPairs(ws))
    decreases |ws|
  {
    if |ws| > 1 {
      PairsAreData(ws[2..]);
      assert DataWord(ws[0]) && DataWord(ws[1]);
    } else if |ws| == 1 {
      assert DataWord(ws[0]) && DataWord(0);
    }
  }

  /** The six words of a dirty header: none is at hand when the channel words come. */
  lemma DirtyRun(s: State, p: Packet) returns (s1: State)
    requires Ready(s) && MayOpen(s) && WellFormed(p) && !FieldsClean(HeaderOf(p))
    ensures Run(s, EncodeHeader(HeaderOf(p))) == (s1, Accepted)
    ensures Waiting(s1) && s1.log == s.log && s1.nwords == s.nwords && s1.checksum == s.checksum
  {
    hide Step, Class, FieldWord, FirstWord, TriggerWord;
    var h, words := HeaderOf(p), EncodeHeader(HeaderOf(p));
    CleanWords(h);
    HeaderWordsTagged(h);
    FirstWordRoundTrip(h.moduleAddress, h.moduleId);
    var dirty :| 0 <= dirty < FEM_HEADER_COUNT && words[dirty] == ALL_ONES;
    DirtyHeaderRun(s, words, dirty, FEM_HEADER_COUNT);
    assert words[..FEM_HEADER_COUNT] == words;
    s1 := Run(s, words).0;
  }

  lemma DirtyPacketLost(s: State, p: Packet)
    requires Ready(s) && MayOpen(s) && (s.nwords == 0 ==> s.checksum == 0)
    requires WellFormed(p) && !FieldsClean(HeaderOf(p))
    ensures Run(s, PacketWords(p)).0.log == s.log
  {
    hide Step, Class, EncodeHeader, FieldsClean, MayOpen;
    var data := PackPairs(ChannelWords(p.blocks));
    var s1 := DirtyRun(s, p);
    FeedAppend(Step, s, EncodeHeader(HeaderOf(p)), data);
    ChannelWordsAreData(p.blocks);
    PairsAreData(ChannelWords(p.blocks));
    StuckRun(s1, s.log, data);
  }

  lemma WaitingTwo(s: State, w: Word)
    requires Waiting(s)
    ensures var (t, o) := TwoChWords(s, w); OnlyHeaderless(s.log, t.log) && (o == Accepted ==> Waiting(t))
  {
    hide ChWord, HeaderLess, ClosesHeaderless;
    HeaderlessChWord(s, w.lo);
    HeaderlessChWord(ChWord(s, w.lo).0, w.hi);
    ChWordKeeps(s, w.lo);
    ChWordKeeps(ChWord(s, w.lo).0, w.hi);
  }

  /** While no header is at hand, channel words can add only events without one. */
  lemma {:induction false} WaitingRun(s: State, ws: seq<Word>)
    requires Waiting(s) && DataPairs(ws)
    ensures OnlyHeaderless(s.log, Run(s, ws).0.log)
    decreases |ws|
  {
    hide TwoChWords, Dispatch, HeaderLess;
    if ws != [] {
      var w := ws[0];
      if w != ZERO {
        PairStep(s, w);
        WaitingTwo(s, w);
      }
      var (t, o) := Step(s, w);
      if o == Accepted {
        WaitingRun(t, ws[1..]);
      }
    }
  }

  /** With stale counters the words of a dirty packet may add events, but none that has a
      header. */
  lemma DirtyPacketStray(s: State, p: Packet)
    requires Ready(s) && MayOpen(s) && WellFormed(p) && !FieldsClean(HeaderOf(p))
    ensures OnlyHeaderless(s.log, Run(s, PacketWords(p)).0.log)
  {
    hide Step, Class, EncodeHeader, FieldsClean, MayOpen;
    var data := PackPairs(ChannelWords(p.blocks));
    var s1 := DirtyRun(s, p);
    FeedAppend(Step, s, EncodeHeader(HeaderOf(p)), data);
    ChannelWordsAreData(p.blocks);
    PairsAreData(ChannelWords(p.blocks));
    WaitingRun(s1, data);
  }

  /** A packet in a place where no header word is admitted. */
  lemma MisplacedPacketLost(s: State, p: Packet)
    requires Ready(s) && !MayOpen(s) && WellFormed(p)
    ensures Run(s, PacketWords(p)).0.log == s.log
  {
    hide FieldWord, TriggerWord, FirstWord, PackPairs, Class;
    var h, words := HeaderOf(p), PacketWords(p);
    var w := words[0];
    assert w == EncodeHeader(h)[0] == FirstWord(h.moduleAddress, h.moduleId);
    FirstWordRoundTrip(h.moduleAddress, h.moduleId);
    HeaderWordsTagged(h);
    MisplacedStep(s, w);
    assert words == [w] + words[1..];
    FeedAppend(Step, s, [w], words[1..]);
    FeedOne(Step, s, w);
  }

  lemma MisplacedStep(s: State, w: Word)
    requires Ready(s) && !MayOpen(s) && HeaderWord(w) && w != ALL_ONES
    ensures Step(s, w).1 == Rejected && Step(s, w).0.log == s.log
  {
  }

  /** Counting towards an announced total that is still out of reach. */
  predicate Counting(s: State, total: nat, log: seq<StoredEvent>) {
    total > 0 && s.header.nwords == total && !s.searching && s.event.Some? && s.log == log
  }

  lemma CountUp(n: u32)
    ensures Wrap(n + 1) <= n + 1
  {
    if n + 1 < 0x1_0000_0000 {
      DivMod(n + 1, 0x1_0000_0000, 0, n + 1);
    }
  }

  lemma CountChWord(s: State, total: nat, log: seq<StoredEvent>, w: u16)
    requires Counting(s, total, log) && s.nwords < total
    ensures ChWord(s, w).0.log == log && ChWord(s, w).1 != Undefined
    ensures ChWord(s, w).0.event.Some?
    ensures ChWord(s, w).1 == Accepted ==> Counting(ChWord(s, w).0, total, log) && ChWord(s, w).0.nwords <= s.nwords + 1
  {
    hide DecodeWord, Class, Wrap, SumAgrees, SumFixable;
    CountUp(s.nwords);
  }

  function NonZero(ws: seq<Word>): nat
  {
    if ws == [] then 0 else (if ws[0] == ZERO then 0 else 1) + NonZero(ws[1..])
  }

  lemma {:induction false} CountRun(s: State, total: nat, log: seq<StoredEvent>, ws: seq<Word>)
    requires Counting(s, total, log) && s.nwords + 2 * NonZero(ws) <= total
    requires DataPairs(ws)
    ensures Run(s, ws).0.log == log
    decreases |ws|
  {
    hide ChWord, Dispatch;
    if ws != [] {
      var w := ws[0];
      if w != ZERO {
        PairStep(s, w);
        CountChWord(s, total, log, w.lo);
        if ChWord(s, w.lo).1 == Accepted {
          CountChWord(ChWord(s, w.lo).0, total, log, w.hi);
        }
      }
      if Step(s, w).1 == Accepted {
        CountRun(Step(s, w).0, total, log, ws[1..]);
      }
    }
  }

  lemma {:induction false} ZeroPairCount(ws: seq<u16>)
    ensures var ps := PackPairs(ws);
            2 * |ps| <= |ws| + 1 && NonZero(ps) <= |ps| && (ZERO in ps ==> NonZero(ps) < |ps|)
    decreases |ws|
  {
    if |ws| == 1 {
      assert PackPairs(ws)[1..] == [];
    } else if |ws| > 1 {
      assert PackPairs(ws)[1..] == PackPairs(ws[2..]);
      ZeroPairCount(ws[2..]);
    }
  }

  lemma ZeroPairPacketLost(s: State, p: Packet)
    requires Ready(s) && MayOpen(s)
    requires WellFormed(p) && FieldsClean(HeaderOf(p)) && ZERO in PackPairs(ChannelWords(p.blocks))
    requires WithTriggerFrame(HeaderOf(p)).Some?
    ensures Run(s, PacketWords(p)).0.log == s.log
  {
    hide Step, ChWord, Class, FieldWord, FirstWord, TriggerWord, DecodeHeader, RollOver;
    var h0 := HeaderOf(p);
    var words := EncodeHeader(h0);
    var data := ChannelWords(p.blocks);
    CleanWords(h0);
    HeaderWordsTagged(h0);
    DecodeEncoded(h0);
    HeaderRun(s, words);
    var s1 := Run(s, words).0;
    ChannelWordsAreData(p.blocks);
    PairsAreData(data);
    ZeroPairCount(data);
    CountRun(s1, h0.nwords, s.log, PackPairs(data));
    FeedAppend(Step, s, words, PackPairs(data));
  }

  lemma ThrowingPacketLost(s: State, p: Packet)
    requires Ready(s) && MayOpen(s)
    requires WellFormed(p) && FieldsClean(HeaderOf(p)) && WithTriggerFrame(HeaderOf(p)).None?
    ensures Run(s, PacketWords(p)).0.log == s.log && Run(s, PacketWords(p)).1 == Threw
    ensures Run(s, PacketWords(p)).0.header == HeaderOf(p).(trigFrame := INVALID_WORD, trigSample := INVALID_WORD)
  {
    hide Step, Class, FieldWord, FirstWord, TriggerWord, DecodeHeader, DecodeFields, RollOver;
    var h0 := HeaderOf(p);
    var words := EncodeHeader(h0);
    CleanWords(h0);
    HeaderWordsTagged(h0);
    DecodeEncoded(h0);
    HeaderRun(s, words);
    FeedAppend(Step, s, words, PackPairs(ChannelWords(p.blocks)));
  }

  /** The words of the packet carry it through the decoder: no all-ones header field, no
      pair of zero words, and a trigger frame that four bits determine. */
  predicate Carried(p: Packet)
    requires WellFormed(p)
  {
    && FieldsClean(HeaderOf(p))
    && ZERO !in PackPairs(ChannelWords(p.blocks))
    && Near(p.trigFrame, p.frame, 8)
  }

  lemma NotHeaderless(log: seq<StoredEvent>, more: seq<StoredEvent>, p: Packet)
    requires WellFormed(p) && OnlyHeaderless(log, more)
    ensures more != log + [Expected(p)]
  {
    assert !HeaderLess(Expected(p)) && (log + [Expected(p)])[|log|] == Expected(p);
  }

  /** The packet round trip: wherever no header is at hand, a well-formed packet adds
      exactly itself to the log if and only if it is carried, the buffer was empty, and a
      header word was admitted. */
  lemma PacketRoundTrip(s: State, p: Packet)
    requires Ready(s) && WellFormed(p)
    ensures Run(s, PacketWords(p)).0.log == s.log + [Expected(p)]
            <==> Carried(p) && s.event == Some([]) && MayOpen(s)
  {
    hide Run, FieldsClean, Near, RollOver, MayOpen, OnlyHeaderless;
    var h0 := HeaderOf(p);
    var log' := Run(s, PacketWords(p)).0.log;
    assert s.log + [Expected(p)] != s.log by { assert |s.log + [Expected(p)]| == |s.log| + 1; }
    RollOverRecovers(h0.frame, h0.trigFrame, 4);
    if !MayOpen(s) {
      MisplacedPacketLost(s, p);
    } else if !FieldsClean(h0) {
      DirtyPacketStray(s, p);
      NotHeaderless(s.log, log', p);
    } else if WithTriggerFrame(h0).None? {
      ThrowingPacketLost(s, p);
    } else if ZERO in PackPairs(ChannelWords(p.blocks)) {
      ZeroPairPacketLost(s, p);
    } else {
      var h := WithTriggerFrame(h0).value;
      CleanPacketRun(s, p, h);
      StoredExpected(s.log, s.event.value, p, h);
    }
  }

  lemma StoredExpected(log: seq<StoredEvent>, left: seq<Channel>, p: Packet, h: HeaderInfo)
    requires WellFormed(p) && h == HeaderOf(p).(trigFrame := h.trigFrame)
    ensures log + [StoredBehind(left, p, h)] == log + [Expected(p)] <==> left == [] && h == HeaderOf(p)
  {
    hide ChannelOf;
    assert (log + [StoredBehind(left, p, h)])[|log|] == StoredBehind(left, p, h);
    assert (log + [Expected(p)])[|log|] == Expected(p);
    assert [] + Channels(p.blocks, h) == Channels(p.blocks, h);
  }

  // ----- streams -----

  predicate Good(p: Packet) { WellFormed(p) && Carried(p) }

  /** Before the first event, or behind an end word, perhaps while searching for a marker. */
  predicate Between(s: State) {
    && s.headerCount == 0 && s.header == BLANK_HEADER
    && ((s.event == None && !s.searching) || (s.event == Some([]) && Class(s.last) == EventLastWord))
  }

  lemma MarkerOpens(s: State)
    requires Between(s)
    ensures var (s', o) := Step(s, ALL_ONES); o == Accepted && Idle(s') && s'.log == s.log
  {
  }

  lemma EndWordCloses(s: State)
    requires Idle(s) && Behind(s)
    ensures var (s', o) := Step(s, EVENT_LAST); o == Accepted && Between(s') && s'.log == s.log
  {
  }

  /** A carried packet is stored behind the channels left in the buffer. */
  lemma GoodPacketRun(s: State, p: Packet)
    requires Ready(s) && MayOpen(s) && Good(p)
    ensures var (s', o) := Run(s, PacketWords(p));
            && o == Accepted && s'.log == s.log + [StoredBehind(s.event.value, p, HeaderOf(p))]
            && Idle(s') && Behind(s')
  {
    hide Run, Class, RollOver, Near, PacketWords, FieldsClean, Idle, MayOpen;
    RollOverRecovers(HeaderOf(p).frame, HeaderOf(p).trigFrame, 4);
    CleanPacketRun(s, p, HeaderOf(p));
  }

  lemma IdlePacketRun(s: State, p: Packet)
    requires Idle(s) && Good(p)
    ensures var (s', o) := Run(s, PacketWords(p));
            o == Accepted && s'.log == s.log + [Expected(p)] && Idle(s') && Behind(s')
  {
    hide Run, Class, PacketWords, Carried;
    GoodPacketRun(s, p);
    StoredExpected(s.log, [], p, HeaderOf(p));
  }

  /** The decoder and its packets, for streams of events. */
  function Tpc(): Protocol<State, Packet, StoredEvent> {
    Protocol(Step, (s: State) => s.log,
             (p: Packet) => if WellFormed(p) then PacketWords(p) else [],
             (p: Packet) => if WellFormed(p) then Expected(p) else StoredEvent(BLANK_HEADER, []),
             Good, Between, Idle, Behind)
  }

  /** Behind a packet. */
  predicate Behind(s: State) { Class(s.last) == ChannelLastWord && s.nwords != 0 }

  lemma TpcSound()
    ensures Sound(Tpc())
  {
    hide Step, Idle, Between, Behind, WellFormed, Carried, PacketWords, Expected;
    forall s | Between(s)
      ensures Opens(Tpc(), s)
    {
      MarkerOpens(s);
    }
    forall s | Idle(s) && Behind(s)
      ensures Closes(Tpc(), s)
    {
      EndWordCloses(s);
    }
    forall s, p | Idle(s) && Good(p)
      ensures Passes(Tpc(), s, p)
    {
      IdlePacketRun(s, p);
    }
  }

  lemma StartsBetween(debug: bool)
    ensures Between(Fresh(debug)) && Fresh(debug).log == []
  {
  }

  /** The stream round trip: a fresh decoder accepts every word of a stream of carried
      packets and logs exactly one event per packet, in order. */
  lemma StreamRoundTrip(debug: bool, events: seq<seq<Packet>>)
    requires GoodEvents(Tpc(), events)
    ensures Run(Fresh(debug), Stream(Tpc(), events)).1 == Accepted
    ensures Run(Fresh(debug), Stream(Tpc(), events)).0.log == ExpectedLog(Tpc(), events)
  {
    hide Sound, Stream, ExpectedLog, Step, Fresh, Between, GoodEvents;
    TpcSound();
    StartsBetween(debug);
    StreamRun(Tpc(), Fresh(debug), events);
    assert [] + ExpectedLog(Tpc(), events) == ExpectedLog(Tpc(), events);
  }

  lemma TpcSkipsZeros()
    ensures SkipsZeros(Tpc())
  {
  }

  /** The stream round trip with any number of zero words behind packets and end words. */
  lemma PaddedRoundTrip(debug: bool, events: seq<Padded<seq<Padded<Packet>>>>)
    requires GoodEvents(Tpc(), Events(events))
    ensures Run(Fresh(debug), PaddedStream(Tpc(), events)).1 == Accepted
    ensures Run(Fresh(debug), PaddedStream(Tpc(), events)).0.log == ExpectedLog(Tpc(), Events(events))
  {
    hide Sound, SkipsZeros, Stream, PaddedStream, ExpectedLog, Step, Fresh, Between, GoodEvents, Events;
    TpcSound();
    TpcSkipsZeros();
    StartsBetween(debug);
    PaddedRun(Tpc(), Fresh(debug), events);
    StreamRoundTrip(debug, Events(events));
  }
}
