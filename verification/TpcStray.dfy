/** Channels sent between packets: what they leave in the TPC decoder, and what becomes of
    the packet behind them. */
module TpcStray {
  import opened Words
  import opened FemHeader
  import opened DeltaCode
  import opened Machine
  import opened TpcSpec
  import opened TpcChannels
  import opened TpcRoundTrip

  /** No header is at hand, and the counter of an earlier packet still stands. */
  predicate Headless(s: State) { s.header == BLANK_HEADER && s.nwords != 0 && s.event.Some? }

  function Having(s: State, ch: Channel, event: seq<Channel>, last: Word): State
  {
    s.(ch := ch, event := Some(event), last := last)
  }

  // ----- one channel -----

  lemma StrayItemStep(s: State, ch: Channel, event: seq<Channel>, last: Word, item: Item)
    requires Headless(s) && Class(last) != ChannelLastWord && ValidItem(item) && (ch.samples == [] ==> item.Raw?)
    ensures var w := ItemWord(item);
            && ChWord(Having(s, ch, event, last), w) ==
               (Having(s, ch.(samples := Extend(ch.samples, item)), event, Short(w)), Accepted)
            && Class(Short(w)) != ChannelLastWord
  {
    hide Class, ItemWord, DecodeWord, Extend, Tag, OpenChannel, CloseChannel;
    ItemRoundTrip(ch.samples, item);
    DataClass(ItemWord(item));
  }

  lemma {:induction false} StrayItemsRun(s: State, ch: Channel, event: seq<Channel>, last: Word, items: seq<Item>)
    returns (last': Word)
    requires Headless(s) && Class(last) != ChannelLastWord
    requires AllValid(items) && (ch.samples == [] && items != [] ==> items[0].Raw?)
    ensures ChWords(Having(s, ch, event, last), ItemWords(items)) ==
            (Having(s, ch.(samples := SamplesFrom(ch.samples, items)), event, last'), Accepted)
    ensures Class(last') != ChannelLastWord
    decreases |items|
  {
    hide ChWord, Class, Having, ItemWord;
    last' := last;
    if items != [] {
      var w := ItemWord(items[0]);
      StrayItemStep(s, ch, event, last, items[0]);
      last' := StrayItemsRun(s, ch.(samples := Extend(ch.samples, items[0])), event, Short(w), items[1..]);
      ItemsCons(ch.samples, items);
    }
  }

  lemma StrayOpenStep(s: State, ch: Channel, event: seq<Channel>, last: Word, b: Block)
    requires Headless(s) && (Class(last) == FemHeader || Class(last) == ChannelLastWord)
    ensures var w := FirstOf(b);
            && ChWord(Having(s, ch, event, last), w) ==
               (Having(s, BLANK_CHANNEL.(number := b.number), event, Short(w)), Accepted)
            && Class(Short(w)) == ChannelHeader
  {
    TaggedParts(4, b.number);
  }

  lemma StrayCloseStep(s: State, ch: Channel, event: seq<Channel>, last: Word, b: Block)
    requires Headless(s) && ch.number == b.number
    ensures var w := LastOf(b);
            ChWord(Having(s, ch, event, last), w) ==
            (Having(s, BLANK_CHANNEL, event + [Finished(ch, BLANK_HEADER)], Short(w)), Accepted)
  {
    LastClass(b);
  }

  lemma StrayBlockRun(s: State, ch: Channel, event: seq<Channel>, last: Word, b: Block)
    requires Headless(s) && ValidItems(b.items) && (Class(last) == FemHeader || Class(last) == ChannelLastWord)
    ensures ChWords(Having(s, ch, event, last), BlockWords(b)) ==
            (Having(s, BLANK_CHANNEL, event + [ChannelOf(b, BLANK_HEADER)], Short(LastOf(b))), Accepted)
  {
    hide ChWord, Class, Having, ItemWord, LastOf, FirstOf;
    var s0, first, items := Having(s, ch, event, last), FirstOf(b), ItemWords(b.items);
    StrayOpenStep(s, ch, event, last, b);
    FeedOne(ChWord, s0, first);
    FeedAppend(ChWord, s0, [first], items);
    var blank := BLANK_CHANNEL.(number := b.number);
    var last' := StrayItemsRun(s, blank, event, Short(first), b.items);
    SamplesFromNothing(b.items);
    FeedAppend(ChWord, s0, [first] + items, [LastOf(b)]);
    StrayCloseStep(s, blank.(samples := Samples(b.items)), event, last', b);
    FeedOne(ChWord, ChWords(s0, [first] + items).0, LastOf(b));
  }

  // ----- any number of channels -----

  lemma {:induction false} StrayBlocksRun(s: State, ch: Channel, event: seq<Channel>, last: Word, blocks: seq<Block>)
    requires Headless(s) && blocks != [] && ValidBlocks(blocks)
    requires Class(last) == FemHeader || Class(last) == ChannelLastWord
    ensures ChWords(Having(s, ch, event, last), ChannelWords(blocks)) ==
            (Having(s, BLANK_CHANNEL, event + Channels(blocks, BLANK_HEADER), Short(LastOf(blocks[|blocks| - 1]))),
             Accepted)
    decreases |blocks|
  {
    hide ChWord, Class, Having, ChannelOf, BlockWords, LastOf, Channels;
    var b, rest := blocks[0], blocks[1..];
    assert blocks == [b] + rest;
    ChannelsCons(b, rest, BLANK_HEADER);
    StrayBlockRun(s, ch, event, last, b);
    if rest == [] {
      assert ChannelWords(blocks) == BlockWords(b);
      ChannelsOne(b, BLANK_HEADER);
      assert blocks == [b];
    } else {
      FeedAppend(ChWord, Having(s, ch, event, last), BlockWords(b), ChannelWords(rest));
      LastClass(b);
      StrayBlocksRun(s, BLANK_CHANNEL, event + [ChannelOf(b, BLANK_HEADER)], Short(LastOf(b)), rest);
      AppendAssoc(event, [ChannelOf(b, BLANK_HEADER)], Channels(rest, BLANK_HEADER));
    }
  }

  /** Channels behind a packet, with no header of their own: every word is accepted, nothing
      is stored, and the channels stay in the buffer without module numbers. */
  lemma StrayRun(s: State, blocks: seq<Block>)
    requires Idle(s) && Behind(s) && blocks != [] && ValidBlocks(blocks) && ZERO !in PackPairs(ChannelWords(blocks))
    ensures var (t, o) := Run(s, PackPairs(ChannelWords(blocks)));
            && o == Accepted && t.log == s.log && Ready(t) && MayOpen(t)
            && t.event == Some(Channels(blocks, BLANK_HEADER))
  {
    hide ChWord, Class, Channels, LastOf, Step;
    var b := blocks[|blocks| - 1];
    assert s == Having(s, s.ch, [], s.last);
    StrayBlocksRun(s, s.ch, [], s.last, blocks);
    assert [] + Channels(blocks, BLANK_HEADER) == Channels(blocks, BLANK_HEADER);
    LastClass(b);
    ChannelWordsAreData(blocks);
    PairsRun(s, ChannelWords(blocks));
  }

  /** The packet behind them is stored with the stray channels, which its count and its
      checksum do not cover, in front of its own. */
  lemma StrayStored(s: State, blocks: seq<Block>, p: Packet)
    requires Idle(s) && Behind(s) && blocks != [] && ValidBlocks(blocks) && ZERO !in PackPairs(ChannelWords(blocks))
    requires Good(p)
    ensures Run(s, PackPairs(ChannelWords(blocks)) + PacketWords(p)).0.log ==
            s.log + [StoredBehind(Channels(blocks, BLANK_HEADER), p, HeaderOf(p))]
  {
    hide Step, PacketWords, Channels, Carried, Idle, Behind, PackPairs;
    StrayRun(s, blocks);
    GoodPacketRun(Run(s, PackPairs(ChannelWords(blocks))).0, p);
    RunAppend(s, PackPairs(ChannelWords(blocks)), PacketWords(p));
  }
}
