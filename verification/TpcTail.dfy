/** TPC packets whose last 16-bit word is missing: when they are stored all the same, and
    what becomes of what follows. */
module TpcTail {
  import opened Division
  import opened Words
  import opened FemHeader
  import opened DeltaCode
  import opened Machine
  import opened TpcSpec
  import opened TpcChannels
  import opened TpcRoundTrip

  function LastBlock(p: Packet): Block
    requires p.blocks != []
  {
    p.blocks[|p.blocks| - 1]
  }

  function FrontBlocks(p: Packet): seq<Block>
    requires p.blocks != []
  {
    p.blocks[..|p.blocks| - 1]
  }

  /** The channel words without the very last. */
  function BareData(p: Packet): seq<u16>
    requires WellFormed(p)
  {
    ChannelWords(p.blocks)[..|ChannelWords(p.blocks)| - 1]
  }

  function BareWords(p: Packet): seq<Word>
    requires WellFormed(p)
  {
    EncodeHeader(HeaderOf(p)) + PackPairs(BareData(p))
  }

  /** What comes before the missing word fills whole 32-bit words and gets through. */
  predicate BareCarried(p: Packet) {
    && WellFormed(p) && FieldsClean(HeaderOf(p)) && Near(p.trigFrame, p.frame, 8)
    && |ChannelWords(p.blocks)| % 2 == 1 && ZERO !in PackPairs(BareData(p))
  }

  /** The channels as they are stored: the last one, which nothing closed, if it has
      samples. */
  function BareChannels(p: Packet): seq<Channel>
    requires WellFormed(p)
  {
    if Samples(LastBlock(p).items) == [] then Channels(FrontBlocks(p), HeaderOf(p))
    else Channels(p.blocks, HeaderOf(p))
  }

  // ----- the words that are there -----

  lemma {:induction false} ChannelWordsSnoc(blocks: seq<Block>, b: Block)
    requires ValidBlocks(blocks) && ValidItems(b.items) && ValidBlocks(blocks + [b])
    ensures ChannelWords(blocks + [b]) == ChannelWords(blocks) + BlockWords(b)
  {
    hide BlockWords;
    if blocks == [] {
      assert blocks + [b] == [b] && [b][1..] == [];
      assert BlockWords(b) + [] == [] + BlockWords(b);
    } else {
      assert (blocks + [b])[1..] == blocks[1..] + [b];
      ChannelWordsSnoc(blocks[1..], b);
      AppendAssoc(BlockWords(blocks[0]), ChannelWords(blocks[1..]), BlockWords(b));
    }
  }

  /** Complete channels before the announced words are all there: nothing is stored yet. */
  lemma {:induction false} FrontRun(base: State, ch: Channel, event: seq<Channel>, n: nat, c: nat, last: Word,
                                    blocks: seq<Block>) returns (ch': Channel, last': Word)
    requires base.header.nwords != 0 && ValidBlocks(blocks)
    requires Class(last) == FemHeader || Class(last) == ChannelLastWord
    requires n + |ChannelWords(blocks)| <= base.header.nwords
    ensures ChWords(At(base, ch, event, n, c, last), ChannelWords(blocks)) ==
            (At(base, ch', event + Channels(blocks, base.header), n + |ChannelWords(blocks)|,
                c + Sum(ChannelWords(blocks)), last'), Accepted)
    ensures Class(last') == FemHeader || Class(last') == ChannelLastWord
    decreases |blocks|
  {
    hide ChWord, Class, Wrap, At, ChannelOf, BlockWords, LastOf, Channels, Sum;
    ch', last' := ch, last;
    if blocks == [] {
      NoChannels(base.header);
      assert event + [] == event;
    } else {
      var b, rest := blocks[0], blocks[1..];
      var ws := BlockWords(b);
      var channel := ChannelOf(b, base.header);
      assert blocks == [b] + rest;
      ChannelsCons(b, rest, base.header);
      BlockRun(base, ch, event, n, c, last, b);
      FeedAppend(ChWord, At(base, ch, event, n, c, last), ws, ChannelWords(rest));
      LastClass(b);
      ch', last' := FrontRun(base, BLANK_CHANNEL, event + [channel], n + |ws|, c + Sum(ws), Short(LastOf(b)), rest);
      AppendAssoc(event, [channel], Channels(rest, base.header));
      SumAppend(ws, ChannelWords(rest));
    }
  }

  lemma NoChannels(h: HeaderInfo)
    ensures Channels([], h) == [] && Sum([]) == 0
  {
  }

  function Unclosed(b: Block): Channel { BLANK_CHANNEL.(number := b.number, samples := Samples(b.items)) }

  lemma BareSplit(p: Packet)
    requires WellFormed(p)
    ensures var b := LastBlock(p);
            && ValidBlocks(FrontBlocks(p)) && ValidItems(b.items)
            && BareData(p) == ChannelWords(FrontBlocks(p)) + ([FirstOf(b)] + ItemWords(b.items))
            && ChannelWords(p.blocks) == BareData(p) + [LastOf(b)]
            && Sum(ChannelWords(p.blocks)) == Sum(BareData(p)) + LastOf(b)
  {
    hide ItemWords, FirstOf, LastOf, Sum;
    var b := LastBlock(p);
    assert p.blocks == FrontBlocks(p) + [b];
    ChannelWordsSnoc(FrontBlocks(p), b);
    assert ChannelWords(p.blocks) == ChannelWords(FrontBlocks(p)) + ([FirstOf(b)] + ItemWords(b.items)) + [LastOf(b)];
    SumAppend(BareData(p), [LastOf(b)]);
    SumOne(LastOf(b));
  }

  /** The state in which the missing word leaves the decoder: all announced words are
      counted, and the last channel is still open. */
  function Hanging(base: State, left: seq<Channel>, p: Packet, last: Word): State
    requires WellFormed(p)
  {
    At(base, Unclosed(LastBlock(p)), left + Channels(FrontBlocks(p), base.header), |BareData(p)|, Sum(BareData(p)),
       last)
  }

  lemma BareDataRun(base: State, left: seq<Channel>, p: Packet) returns (last': Word)
    requires WellFormed(p) && base.header == HeaderOf(p) && Class(base.last) == FemHeader
    requires base == At(base, base.ch, left, 0, 0, base.last)
    ensures ChWords(base, BareData(p)) == (Hanging(base, left, p, last'), Accepted)
    ensures Class(last') != ChannelLastWord
  {
    hide ChWord, Class, Wrap, At, ItemWords, FirstOf, LastOf, Channels, Sum, Samples;
    var b, front := LastBlock(p), FrontBlocks(p);
    var body := [FirstOf(b)] + ItemWords(b.items);
    BareSplit(p);
    var ch1, last1 := FrontRun(base, base.ch, left, 0, 0, base.last, front);
    var ws := ChannelWords(front);
    last' := BlockBodyRun(base, ch1, left + Channels(front, base.header), |ws|, Sum(ws), last1, b);
    FeedAppend(ChWord, base, ws, body);
    SumAppend(ws, body);
  }

  /** An even number of accepted 16-bit words goes through in pairs. */
  lemma {:induction false} EvenPairsRun(s: State, ws: seq<u16>)
    requires !s.searching && |ws| % 2 == 0 && DataWords(ws) && ZERO !in PackPairs(ws)
    requires ChWords(s, ws).1 == Accepted
    ensures Run(s, PackPairs(ws)) == ChWords(s, ws)
    decreases |ws|
  {
    hide ChWord, Class, Dispatch;
    if ws != [] {
      var w := Word(ws[1], ws[0]);
      var s1 := ChWord(s, ws[0]).0;
      FeedTwo(ChWord, s, ws);
      ChWordKeeps(s, ws[0]);
      ChWordKeeps(s1, ws[1]);
      PairStep(s, w);
      assert PackPairs(ws)[1..] == PackPairs(ws[2..]);
      assert forall x :: x in PackPairs(ws[2..]) ==> x in PackPairs(ws);
      EvenPairsRun(ChWord(s1, ws[1]).0, ws[2..]);
    }
  }

  /** Every word of the packet is accepted, and nothing is stored yet. */
  lemma BareRun(s: State, p: Packet) returns (base: State, last': Word)
    requires Ready(s) && MayOpen(s) && BareCarried(p)
    ensures Run(s, BareWords(p)) == (Hanging(base, s.event.value, p, last'), Accepted)
    ensures base.header == HeaderOf(p) && base.log == s.log && !base.searching && !base.lastMissing
    ensures Class(last') != ChannelLastWord
  {
    hide Step, ChWord, Class, RollOver, Near, FieldsClean, MayOpen, EncodeHeader, PackPairs, ChannelWords, At, Hanging;
    var h := HeaderOf(p);
    RollOverRecovers(h.frame, h.trigFrame, 4);
    assert Claimed(p, h.checksum) == h;
    base := ClaimedHeaderRun(s, p, h.checksum, h);
    last' := BareDataRun(base, s.event.value, p);
    ChannelWordsAreData(p.blocks);
    BareSplit(p);
    EvenPairsRun(base, BareData(p));
    RunAppend(s, EncodeHeader(h), PackPairs(BareData(p)));
    KeepsAt(base, s.event.value, p, last');
  }

  lemma KeepsAt(base: State, left: seq<Channel>, p: Packet, last: Word)
    requires WellFormed(p)
    ensures var t := Hanging(base, left, p, last);
            t.log == base.log && t.header == base.header && t.searching == base.searching
  {
  }

  // ----- what comes next -----

  /** A sum that lacks the last word is let through exactly for channel 63. */
  lemma TailSum(p: Packet)
    requires WellFormed(p)
    ensures var c := Sum(BareData(p));
            && c % 0x100_0000 != HeaderOf(p).checksum
            && ((c + 0x503f) % 0x100_0000 == HeaderOf(p).checksum <==> LastBlock(p).number == 63)
  {
    hide Sum;
    BareSplit(p);
    var c, b := Sum(BareData(p)), LastBlock(p);
    var q, r := c / 0x100_0000, c % 0x100_0000;
    AddSmall(c, 0x5000 + b.number);
    AddSmall(c, 0x503f);
  }

  lemma AddSmall(c: nat, d: nat)
    requires d < 0x100_0000
    ensures var r := c % 0x100_0000 + d;
            (c + d) % 0x100_0000 == if r < 0x100_0000 then r else r - 0x100_0000
  {
    var q, r := c / 0x100_0000, c % 0x100_0000 + d;
    if r < 0x100_0000 {
      DivMod(c + d, 0x100_0000, q, r);
    } else {
      DivMod(c + d, 0x100_0000, q + 1, r - 0x100_0000);
    }
  }

  /** An open channel with samples is closed before the event is stored. */
  lemma FlushCloses(s: State, event: seq<Channel>)
    requires s.event.Some? && s.nwords == s.header.nwords && !SumAgrees(s)
    requires event == s.event.value + (if s.ch.samples == [] then [] else [Finished(s.ch, s.header)])
    ensures var (t, o) := FlushAndStore(s);
            && t.headerCount == 0 && t.header == BLANK_HEADER && t.event == Some([])
            && t.searching == s.searching && t.last == s.last && t.nwords == s.nwords
            && if SumFixable(s) then
                 o == Accepted && t.lastMissing && t.log == s.log + [StoredEvent(s.header, event)]
               else o == Rejected && t.lastMissing == s.lastMissing && t.log == s.log
  {
    assert s.event.value + [] == s.event.value;
  }

  /** Closing the last channel and storing, or not. */
  lemma HangingStored(base: State, left: seq<Channel>, p: Packet, last: Word, s: State)
    requires WellFormed(p) && base.header == HeaderOf(p) && !base.lastMissing
    requires s == Hanging(base, left, p, last).(checksum := s.checksum)
    requires s.checksum % 0x100_0000 == Sum(BareData(p)) % 0x100_0000
    ensures var (t, o) := FlushAndStore(s);
            && t.headerCount == 0 && t.header == BLANK_HEADER && t.event == Some([])
            && t.searching == base.searching && t.last == last && t.nwords == HeaderOf(p).nwords != 0
            && if LastBlock(p).number == 63 then
                 && o == Accepted && t.lastMissing
                 && t.log == base.log + [StoredEvent(HeaderOf(p), left + BareChannels(p))]
               else o == Rejected && !t.lastMissing && t.log == base.log
  {
    hide Sum, Channels, ChannelWords, Samples, Wrap, FlushAndStore;
    TailSum(p);
    FixableSum(s.checksum, Sum(BareData(p)));
    ChannelsSplit(p, HeaderOf(p));
    BareCount(p);
    var front, last1 := Channels(FrontBlocks(p), HeaderOf(p)), ChannelOf(LastBlock(p), HeaderOf(p));
    AppendAssoc(left, front, [last1]);
    assert left + front + [] == left + front;
    FlushCloses(s, left + BareChannels(p));
  }

  lemma BareCount(p: Packet)
    requires WellFormed(p)
    ensures Wrap(|BareData(p)|) == |BareData(p)| == HeaderOf(p).nwords != 0
  {
    assert |ChannelWords(p.blocks)| >= |BlockWords(p.blocks[0])| >= 2;
    DivMod(|BareData(p)|, 0x1_0000_0000, 0, |BareData(p)|);
  }

  lemma FixableSum(a: nat, b: nat)
    requires a % 0x100_0000 == b % 0x100_0000
    ensures (a + 0x503f) % 0x100_0000 == (b + 0x503f) % 0x100_0000
  {
    AddSmall(a, 0x503f);
    AddSmall(b, 0x503f);
  }

  lemma ChannelsSplit(p: Packet, h: HeaderInfo)
    requires p.blocks != []
    ensures Channels(p.blocks, h) == Channels(FrontBlocks(p), h) + [ChannelOf(LastBlock(p), h)]
  {
  }

  // ----- an end word or a packet behind it -----

  lemma EndSum(c: u32)
    ensures Wrap(c + EVENT_LAST.Value()) % 0x100_0000 == c % 0x100_0000
  {
    assert EVENT_LAST.Value() == 0xe0 * 0x100_0000;
    var q, r := c / 0x100_0000, c % 0x100_0000;
    DivMod(c + EVENT_LAST.Value(), 0x100_0000, q + 0xe0, r);
    WrapLow24(c + EVENT_LAST.Value());
  }

  /** The end word. */
  lemma EndStep(s: State, s1: State)
    requires s1 == s.(checksum := Wrap(s.checksum + EVENT_LAST.Value()))
    requires s.nwords == s.header.nwords && !s.searching && Class(s.last) != ChannelLastWord
    requires var (t, o) := FlushAndStore(s1);
             && o in {Accepted, Rejected} && t.last == s.last && t.event == Some([]) && t.headerCount == 0
             && t.header == BLANK_HEADER && !t.searching && t.nwords != 0 && t.lastMissing == (o == Accepted)
    ensures var (t, o) := FlushAndStore(s1);
            var (u, o') := Step(s, EVENT_LAST);
            o' == o && u.log == t.log && (o == Accepted ==> Between(u))
  {
    hide FlushAndStore, Wrap;
  }

  /** A header word: with the event stored before it, it is as if no header had been at hand. */
  lemma HeaderStores(s: State, w: Word)
    requires s.nwords == s.header.nwords != 0 && !s.searching && Class(w) == FemHeader
    requires var (t, o) := FlushAndStore(s);
             && o in {Accepted, Rejected} && t.event == Some([]) && t.header == BLANK_HEADER && !t.searching
    ensures var (t, o) := FlushAndStore(s);
            if o == Accepted then Step(s, w) == Step(t, w)
            else Step(s, w).1 == Rejected && Step(s, w).0.log == t.log
  {
    hide FlushAndStore, FemHeaderWord, Class, TwoChWords;
    assert Class(ZERO) == UndefinedWord by { ZeroClass(); }
  }

  lemma ZeroClass()
    ensures Class(ZERO) == UndefinedWord
  {
  }

  /** The program stores a packet whose last word is missing at the end word, with all its
      channels, exactly when that word would have ended channel 63. */
  lemma TailEnds(s: State, p: Packet)
    requires Ready(s) && MayOpen(s) && BareCarried(p)
    ensures Run(s, BareWords(p)).1 == Accepted && Run(s, BareWords(p)).0.log == s.log
    ensures var (t, o) := Run(s, BareWords(p) + [EVENT_LAST]);
            if LastBlock(p).number == 63 then
              && o == Accepted && Between(t)
              && t.log == s.log + [StoredEvent(HeaderOf(p), s.event.value + BareChannels(p))]
            else o == Rejected && t.log == s.log
  {
    hide Run, FieldsClean, Near, BareWords, Hanging, FlushAndStore, Wrap, BareChannels, MayOpen, Between, Class, Step;
    var base, last := BareRun(s, p);
    var t := Run(s, BareWords(p)).0;
    var t1 := t.(checksum := Wrap(t.checksum + EVENT_LAST.Value()));
    HangingAt(base, s.event.value, p, last);
    EndSum(t.checksum);
    HangingStored(base, s.event.value, p, last, t1);
    EndStep(t, t1);
    RunAppend(s, BareWords(p), [EVENT_LAST]);
    RunOne(t, EVENT_LAST);
  }

  lemma RunOne(s: State, w: Word)
    ensures Run(s, [w]) == Step(s, w)
  {
    FeedOne(Step, s, w);
  }

  lemma HangingAt(base: State, left: seq<Channel>, p: Packet, last: Word)
    requires BareCarried(p) && base.header == HeaderOf(p)
    ensures var t := Hanging(base, left, p, last);
            && t.log == base.log && t.header == base.header && t.searching == base.searching && t.last == last
            && t.lastMissing == base.lastMissing && t.nwords == t.header.nwords != 0
            && t.checksum % 0x100_0000 == Sum(BareData(p)) % 0x100_0000
  {
    hide Sum, ChannelWords, Samples, Wrap;
    BareCount(p);
    WrapLow24(Sum(BareData(p)));
  }

  /** Likewise at the header of the next packet, which is then stored too. */
  lemma TailThenPacket(s: State, p: Packet, q: Packet)
    requires Ready(s) && MayOpen(s) && BareCarried(p) && Good(q)
    ensures var (t, o) := Run(s, BareWords(p) + PacketWords(q));
            if LastBlock(p).number == 63 then
              && o == Accepted && Idle(t) && Behind(t)
              && t.log == s.log + [StoredEvent(HeaderOf(p), s.event.value + BareChannels(p)), Expected(q)]
            else o == Rejected && t.log == s.log
  {
    hide Run, FieldsClean, Near, BareWords, PacketWords, Hanging, FlushAndStore, Wrap, BareChannels, Class, Step,
         Carried, Idle, Behind, Expected;
    var base, last := BareRun(s, p);
    var t := Run(s, BareWords(p)).0;
    HangingAt(base, s.event.value, p, last);
    HangingStored(base, s.event.value, p, last, t);
    var w, rest := FirstOfPacket(q);
    HeaderStores(t, w);
    RunAppend(s, BareWords(p), PacketWords(q));
    RunCons(t, w, rest);
    var (t1, o1) := FlushAndStore(t);
    if o1 == Accepted {
      RunCons(t1, w, rest);
      GoodPacketRun(t1, q);
      StoredExpected(t1.log, [], q, HeaderOf(q));
    }
  }

  lemma FirstOfPacket(q: Packet) returns (w: Word, rest: seq<Word>)
    requires WellFormed(q)
    ensures PacketWords(q) == [w] + rest && Class(w) == FemHeader
  {
    hide FieldWord, TriggerWord, PackPairs;
    var h := HeaderOf(q);
    w, rest := PacketWords(q)[0], PacketWords(q)[1..];
    assert w == EncodeHeader(h)[0];
    HeaderWordsTagged(h);
    FirstWordRoundTrip(h.moduleAddress, h.moduleId);
  }

  lemma RunCons(s: State, w: Word, rest: seq<Word>)
    ensures Run(s, [w] + rest) == if Step(s, w).1 == Accepted then Run(Step(s, w).0, rest) else Step(s, w)
  {
    assert ([w] + rest)[1..] == rest;
  }

  /** In an empty buffer: a last channel 63 with samples comes back whole, before an end word
      and before a packet. */
  lemma TailStored(s: State, p: Packet, q: Packet)
    requires Ready(s) && MayOpen(s) && s.event == Some([]) && BareCarried(p) && Good(q)
    requires LastBlock(p).number == 63 && Samples(LastBlock(p).items) != []
    ensures Run(s, BareWords(p) + [EVENT_LAST]).1 == Accepted
    ensures Run(s, BareWords(p) + [EVENT_LAST]).0.log == s.log + [Expected(p)]
    ensures Run(s, BareWords(p) + PacketWords(q)).1 == Accepted
    ensures Run(s, BareWords(p) + PacketWords(q)).0.log == s.log + [Expected(p), Expected(q)]
  {
    hide Run, FieldsClean, Near, BareWords, PacketWords, Carried, Channels, Between, Idle, Behind, MayOpen, Samples;
    TailEnds(s, p);
    TailThenPacket(s, p, q);
    assert [] + BareChannels(p) == Channels(p.blocks, HeaderOf(p));
  }
}
