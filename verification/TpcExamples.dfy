/** Packets that the TPC decoder loses, stores although their checksum is wrong, or stores
    with channels that are not theirs. */
module TpcExamples {
  import opened Words
  import opened FemHeader
  import opened DeltaCode
  import opened Machine
  import opened TpcSpec
  import opened TpcChannels
  import opened TpcRoundTrip
  import opened TpcStray
  import opened TpcTail

  /** A packet of one channel, number 0. */
  function OneChannel(eventNumber: u32, trigFrame: u32, items: seq<Item>): Packet {
    Packet(0, 0, eventNumber, 0, trigFrame, 0, [Block(0, items)])
  }

  /** A new decoder behind an event marker. */
  function Opened(): State { Step(Fresh(false), ALL_ONES).0 }

  lemma OpenedIdle()
    ensures Idle(Opened()) && Ready(Opened()) && MayOpen(Opened()) && Opened().log == []
    ensures Opened().event == Some([]) && (Opened().nwords == 0 ==> Opened().checksum == 0)
  {
    StartsBetween(false);
    MarkerOpens(Fresh(false));
  }

  lemma OneChannelWords(items: seq<Item>)
    requires ValidItems(items)
    ensures var blocks := [Block(0, items)];
            ValidBlocks(blocks) && ChannelWords(blocks) == [0x4000] + ItemWords(items) + [0x5000]
  {
    var blocks := [Block(0, items)];
    assert blocks[1..] == [];
    assert FirstOf(blocks[0]) == 0x4000 && LastOf(blocks[0]) == 0x5000;
  }

  /** One sample, of value 1. */
  lemma ShortWords()
    ensures var p := OneChannel(0, 0, [Raw(1)]);
            && ValidItems([Raw(1)]) && ValidBlocks(p.blocks)
            && ChannelWords(p.blocks) == [0x4000, 1, 0x5000]
            && PackPairs(ChannelWords(p.blocks)) == [Word(1, 0x4000), Word(0, 0x5000)]
            && Sum(ChannelWords(p.blocks)) == 0x9001
  {
    assert [Raw(1)][1..] == [];
    assert ItemWords([Raw(1)]) == [1];
    OneChannelWords([Raw(1)]);
    var ws: seq<u16> := [0x4000, 1, 0x5000];
    assert ws == [0x4000] + [1] + [0x5000];
    assert ws[2..] == [0x5000];
    assert PackPairs(ws) == [Word(1, 0x4000)] + PackPairs([0x5000]);
    SumOne(0x4000);
    SumOne(1);
    SumOne(0x5000);
    SumAppend([0x4000], [1]);
    SumAppend([0x4000] + [1], [0x5000]);
  }

  /** An event number of all ones makes a header word the event marker. */
  lemma DirtyPacket() returns (p: Packet)
    ensures p == OneChannel(0xff_ffff, 0, [Raw(1)]) && WellFormed(p) && !FieldsClean(HeaderOf(p))
    ensures Run(Opened(), PacketWords(p)).0.log == []
  {
    hide Run, Idle, Step, MayOpen, Opened;
    p := OneChannel(0xff_ffff, 0, [Raw(1)]);
    ShortWords();
    assert p.blocks == OneChannel(0, 0, [Raw(1)]).blocks;
    OpenedIdle();
    DirtyPacketLost(Opened(), p);
  }

  /** A trigger frame eight behind the event frame ends the run by exception. */
  lemma ThrowingPacket() returns (p: Packet)
    ensures p == OneChannel(0, 8, [Raw(1)]) && WellFormed(p) && FieldsClean(HeaderOf(p))
    ensures WithTriggerFrame(HeaderOf(p)).None? && Run(Opened(), PacketWords(p)).0.log == []
  {
    hide Run, Idle, Step, MayOpen, Opened;
    p := OneChannel(0, 8, [Raw(1)]);
    ShortWords();
    assert p.blocks == OneChannel(0, 0, [Raw(1)]).blocks;
    OpenedIdle();
    RollOverThrows(0, 8, 4);
    ThrowingPacketLost(Opened(), p);
  }

  lemma OpenedZeroPair(p: Packet)
    requires WellFormed(p) && p.frame == 0 && p.trigFrame == 0
    requires FieldsClean(HeaderOf(p)) && ZERO in PackPairs(ChannelWords(p.blocks))
    ensures Run(Opened(), PacketWords(p)).0.log == []
  {
    hide Run, Step, MayOpen, Opened, PacketWords, PackPairs, FieldsClean, ChannelWords;
    OpenedIdle();
    ZeroPairPacketLost(Opened(), p);
  }

  /** Two samples of zero that fall into one 32-bit word. */
  lemma ZeroPairPacket() returns (p: Packet)
    ensures p == OneChannel(0, 0, [Raw(1), Raw(0), Raw(0)]) && WellFormed(p) && FieldsClean(HeaderOf(p))
    ensures ZERO in PackPairs(ChannelWords(p.blocks)) && Run(Opened(), PacketWords(p)).0.log == []
  {
    hide Run, Step, Opened, PacketWords;
    ZeroPairWords();
    p := OneChannel(0, 0, [Raw(1), Raw(0), Raw(0)]);
    OpenedZeroPair(p);
  }

  lemma ZeroPairWords()
    ensures var p := OneChannel(0, 0, [Raw(1), Raw(0), Raw(0)]);
            && ValidItems(p.blocks[0].items) && ValidBlocks(p.blocks)
            && |ChannelWords(p.blocks)| == 5
            && PackPairs(ChannelWords(p.blocks)) == [Word(1, 0x4000), ZERO, Word(0, 0x5000)]
            && Sum(ChannelWords(p.blocks)) == 0x9001
  {
    var items := [Raw(1), Raw(0), Raw(0)];
    assert items[1..] == [Raw(0), Raw(0)] && items[1..][1..] == [Raw(0)] && [Raw(0)][1..] == [];
    assert ItemWords(items) == [1, 0, 0];
    OneChannelWords(items);
    var ws: seq<u16> := [0x4000, 1, 0, 0, 0x5000];
    assert ws == [0x4000] + [1, 0, 0] + [0x5000];
    assert ws[2..] == [0, 0, 0x5000] && ws[2..][2..] == [0x5000];
    SumOne(0x5000);
    SumOne(0x4000);
    SumOne(1);
    SumOne(0);
    assert ws == [0x4000] + [1] + [0] + [0] + [0x5000];
    SumAppend([0x4000], [1]);
    SumAppend([0x4000] + [1], [0]);
    SumAppend([0x4000] + [1] + [0], [0]);
    SumAppend([0x4000] + [1] + [0] + [0], [0x5000]);
  }

  /** The gate for a packet of frame 0 behind the first event marker. */
  lemma OpenedGate(p: Packet, checksum: u32)
    requires WellFormed(p) && p.frame == 0 && p.trigFrame == 0 && ZERO !in PackPairs(ChannelWords(p.blocks))
    requires checksum < 0x100_0000 && FieldsClean(Claimed(p, checksum))
    ensures Run(Opened(), ClaimedWords(p, checksum)).0.log ==
            if PassesFor(p, checksum) then [StoredAs(p, Claimed(p, checksum))] else []
  {
    hide Run, Idle, Step, MayOpen, Opened, Channels, PassesFor, FieldsClean, ClaimedWords;
    var h := Claimed(p, checksum);
    OpenedIdle();
    assert [] + Channels(p.blocks, h) == Channels(p.blocks, h);
    ChecksumExactly(Opened(), p, checksum, h);
  }

  /** The words of this packet sum to 0x9001; it is stored with a checksum of 0xe040, but
      not with one of 0x9002. */
  lemma ShortSumStored() returns (p: Packet)
    ensures p == OneChannel(0, 0, [Raw(1)]) && WellFormed(p) && Sum(ChannelWords(p.blocks)) == 0x9001
    ensures Run(Opened(), ClaimedWords(p, 0xe040)).0.log == [StoredAs(p, Claimed(p, 0xe040))]
    ensures Run(Opened(), ClaimedWords(p, 0x9002)).0.log == []
  {
    hide Run, Opened, StoredAs, ClaimedWords;
    ShortWords();
    p := OneChannel(0, 0, [Raw(1)]);
    OpenedGate(p, 0xe040);
    OpenedGate(p, 0x9002);
  }

  // ----- a channel between packets -----

  const STRAY_WORDS := [Word(5, 0x4001), Word(0, 0x5001)]
  const STRAY := Channel(1, INVALID_UCHAR, INVALID_UCHAR, [5])

  lemma StrayWords()
    ensures var blocks := [Block(1, [Raw(5)])];
            && ValidBlocks(blocks) && PackPairs(ChannelWords(blocks)) == STRAY_WORDS
            && Channels(blocks, BLANK_HEADER) == [STRAY]
  {
    var b := Block(1, [Raw(5)]);
    assert [Raw(5)][1..] == [] && [b][1..] == [];
    assert ItemWords([Raw(5)]) == [5] && Samples([Raw(5)]) == [5];
    assert FirstOf(b) == 0x4001 && LastOf(b) == 0x5001;
    var ws: seq<u16> := [0x4001, 5, 0x5001];
    assert ChannelWords([b]) == ws;
    assert ws[2..] == [0x5001];
    assert PackPairs(ws) == [Word(5, 0x4001)] + PackPairs([0x5001]);
  }

  /** Two words behind any packet put a channel into the next event. */
  lemma StrayChannel(s: State, q: Packet)
    requires Idle(s) && Behind(s) && Good(q)
    ensures Run(s, STRAY_WORDS + PacketWords(q)).0.log == s.log + [StoredBehind([STRAY], q, HeaderOf(q))]
  {
    hide Run, Idle, Behind, PacketWords, Carried, ValidBlocks, PackPairs, ChannelWords;
    StrayWords();
    StrayStored(s, [Block(1, [Raw(5)])], q);
  }

  lemma ShortCarried(eventNumber: u32)
    requires eventNumber < 0xff_ffff
    ensures Good(OneChannel(eventNumber, 0, [Raw(1)]))
  {
    ShortWords();
    assert OneChannel(eventNumber, 0, [Raw(1)]).blocks == OneChannel(0, 0, [Raw(1)]).blocks;
    assert Wrap(0) == 0;
  }

  /** Two packets with a channel between them: the second is stored with that channel. */
  lemma StrayBetween() returns (p: Packet, q: Packet)
    ensures p == OneChannel(1, 0, [Raw(1)]) && q == OneChannel(2, 0, [Raw(1)]) && Good(p) && Good(q)
    ensures Run(Opened(), PacketWords(p) + (STRAY_WORDS + PacketWords(q))).0.log ==
            [Expected(p), StoredBehind([STRAY], q, HeaderOf(q))]
  {
    hide Run, Idle, Step, MayOpen, Opened, Behind, PacketWords, Carried, Expected, StoredBehind;
    p, q := OneChannel(1, 0, [Raw(1)]), OneChannel(2, 0, [Raw(1)]);
    ShortCarried(1);
    ShortCarried(2);
    OpenedIdle();
    IdlePacketRun(Opened(), p);
    var s1 := Run(Opened(), PacketWords(p)).0;
    StrayChannel(s1, q);
    RunAppend(Opened(), PacketWords(p), STRAY_WORDS + PacketWords(q));
    assert [] + [Expected(p)] + [StoredBehind([STRAY], q, HeaderOf(q))]
        == [Expected(p), StoredBehind([STRAY], q, HeaderOf(q))];
  }

  // ----- a missing last word -----

  lemma BareOne() returns (p: Packet)
    ensures p == Packet(0, 0, 1, 0, 0, 0, [Block(63, [Raw(5)])]) && BareCarried(p)
    ensures HeaderOf(p).nwords == 2 && HeaderOf(p).checksum == 0x9083 && PackPairs(BareData(p)) == [Word(5, 0x403f)]
  {
    p := Packet(0, 0, 1, 0, 0, 0, [Block(63, [Raw(5)])]);
    var b := p.blocks[0];
    assert [Raw(5)][1..] == [] && p.blocks[1..] == [];
    assert ItemWords([Raw(5)]) == [5];
    assert FirstOf(b) == 0x403f && LastOf(b) == 0x503f;
    var ws: seq<u16> := [0x403f, 5, 0x503f];
    assert ChannelWords(p.blocks) == ws && ws == [0x403f] + [5] + [0x503f];
    SumOne(0x403f);
    SumOne(5);
    SumOne(0x503f);
    SumAppend([0x403f], [5]);
    SumAppend([0x403f] + [5], [0x503f]);
    assert BareData(p) == [0x403f, 5] && BareData(p)[2..] == [];
    assert Wrap(0) == 0;
  }

  /** One word of data, 0x0005403f, and the end word: channel 63 is stored with its sample,
      although nothing closed it. */
  lemma TailOne() returns (p: Packet)
    ensures p == Packet(0, 0, 1, 0, 0, 0, [Block(63, [Raw(5)])]) && WellFormed(p)
    ensures var (t, o) := Run(Opened(), EncodeHeader(HeaderOf(p)) + [Word(5, 0x403f)] + [EVENT_LAST]);
            o == Accepted && t.log == [StoredEvent(HeaderOf(p), [Channel(63, 0, 0, [5])])]
  {
    hide Run, Opened, Idle, MayOpen, EncodeHeader, ChannelWords, PackPairs, FieldsClean, Near;
    p := BareOne();
    OpenedIdle();
    TailEnds(Opened(), p);
    assert [Raw(5)][1..] == [] && Samples(LastBlock(p).items) == [5];
    assert Channels(p.blocks, HeaderOf(p)) == [Channel(63, 0, 0, [5])];
    assert [] + BareChannels(p) == [Channel(63, 0, 0, [5])];
    assert [] + [StoredEvent(HeaderOf(p), [Channel(63, 0, 0, [5])])]
        == [StoredEvent(HeaderOf(p), [Channel(63, 0, 0, [5])])];
  }
}
