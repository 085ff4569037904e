/** Feeding well-formed channel blocks to the TPC state machine. */
module TpcChannels {
  import opened Division
  import opened Words
  import opened FemHeader
  import opened DeltaCode
  import opened Machine
  import opened TpcSpec

  /** One channel: its number and the data items between its first and last word. */
  datatype Block = Block(number: u12, items: seq<Item>)

  predicate ValidBlocks(blocks: seq<Block>) { forall i :: 0 <= i < |blocks| ==> ValidItems(blocks[i].items) }

  function FirstOf(b: Block): u16 { Tagged(4, b.number) }

  function LastOf(b: Block): u16 { Tagged(5, b.number) }

  function BlockWords(b: Block): seq<u16>
    requires ValidItems(b.items)
  {
    [FirstOf(b)] + ItemWords(b.items) + [LastOf(b)]
  }

  function ChannelWords(blocks: seq<Block>): seq<u16>
    requires ValidBlocks(blocks)
  {
    if blocks == [] then [] else BlockWords(blocks[0]) + ChannelWords(blocks[1..])
  }

  function ChannelOf(b: Block, h: HeaderInfo): Channel
  {
    Channel(b.number, h.moduleAddress, h.moduleId, Samples(b.items))
  }

  function Channels(blocks: seq<Block>, h: HeaderInfo): seq<Channel>
  {
    seq(|blocks|, i requires 0 <= i < |blocks| => ChannelOf(blocks[i], h))
  }

  /** `ChWord` along a list, until one is not accepted. */
  function ChWords(s: State, ws: seq<u16>): (State, Outcome) { Feed(ChWord, s, ws) }

  /** The state in the middle of a packet: `n` words counted, summing to `c`. */
  function At(base: State, ch: Channel, event: seq<Channel>, n: nat, c: nat, last: Word): State
  {
    base.(ch := ch, event := Some(event), nwords := Wrap(n), checksum := Wrap(c), last := last)
  }

  /** The state after the packet's last word, with words summing to `c`: the event is
      logged if the sum is the header's or short by 0x503f. */
  function Done(base: State, event: seq<Channel>, n: nat, c: nat, last: Word): (State, Outcome)
  {
    var agrees, fixable := c % 0x100_0000 == base.header.checksum, (c + 0x503f) % 0x100_0000 == base.header.checksum;
    var t := base.(headerCount := 0, header := BLANK_HEADER, ch := BLANK_CHANNEL, event := Some([]),
    nwords := Wrap(n), checksum := Wrap(c), last := last, lastMissing := base.lastMissing || (!agrees && fixable));
    if agrees || fixable then (t.(log := base.log + [StoredEvent(base.header, event)]), Accepted) else (t, Rejected)
  }

  lemma DataClass(w: u16)
    requires Tag(w) in {0, 8, 9, 10, 11}
    ensures Class(Short(w)) !in {ChannelHeader, ChannelLastWord, FemLastWord}
  {
  }

  lemma ItemStep(base: State, ch: Channel, event: seq<Channel>, n: nat, c: nat, last: Word, item: Item)
    requires base.header.nwords != 0 && Class(last) != ChannelLastWord
    requires ValidItem(item) && (ch.samples == [] ==> item.Raw?)
    ensures var w := ItemWord(item);
            && ChWord(At(base, ch, event, n, c, last), w) ==
               (At(base, ch.(samples := Extend(ch.samples, item)), event, n + 1, c + w, Short(w)), Accepted)
            && Class(Short(w)) != ChannelLastWord
  {
    hide Class, ItemWord, DecodeWord, Wrap, Extend, Tag, OpenChannel, CloseChannel;
    ItemRoundTrip(ch.samples, item);
    WrapAdd(n, 1);
    WrapAdd(c, ItemWord(item));
    DataClass(ItemWord(item));
  }

  lemma OpenStep(base: State, ch: Channel, event: seq<Channel>, n: nat, c: nat, last: Word, b: Block)
    requires base.header.nwords != 0 && (Class(last) == FemHeader || Class(last) == ChannelLastWord)
    ensures var w := FirstOf(b);
            && ChWord(At(base, ch, event, n, c, last), w) ==
               (At(base, BLANK_CHANNEL.(number := b.number), event, n + 1, c + w, Short(w)), Accepted)
            && Class(Short(w)) == ChannelHeader
  {
    TaggedParts(4, b.number);
    WrapAdd(n, 1);
    WrapAdd(c, FirstOf(b));
  }

  function Finished(ch: Channel, h: HeaderInfo): Channel
  {
    ch.(moduleId := h.moduleId, moduleAddress := h.moduleAddress)
  }

  lemma LastClass(b: Block)
    ensures Class(Short(LastOf(b))) == ChannelLastWord && Field(LastOf(b)) == b.number && LastOf(b) != 0
  {
    TaggedParts(5, b.number);
  }

  lemma CloseStep(base: State, ch: Channel, event: seq<Channel>, n: nat, c: nat, last: Word, b: Block)
    requires base.header.nwords != 0 && ch.number == b.number && n < base.header.nwords
    ensures var w := LastOf(b);
            ChWord(At(base, ch, event, n, c, last), w) ==
            (At(base, BLANK_CHANNEL, event + [Finished(ch, base.header)], n + 1, c + w, Short(w)), Accepted)
  {
    LastClass(b);
    DivMod(n, 0x1_0000_0000, 0, n);
    WrapAdd(n, 1);
    WrapAdd(c, LastOf(b));
  }

  lemma StoreStep(base: State, ch: Channel, event: seq<Channel>, n: nat, c: nat, last: Word, b: Block)
    requires ch.number == b.number && n == base.header.nwords != 0
    ensures var w := LastOf(b);
            ChWord(At(base, ch, event, n, c, last), w) ==
            Done(base, event + [Finished(ch, base.header)], n, c + w, Short(w))
  {
    LastClass(b);
    DivMod(n, 0x1_0000_0000, 0, n);
    WrapAdd(c, LastOf(b));
    WrapLow24(c + LastOf(b));
    WrapLow24Plus(c + LastOf(b), 0x503f);
    hide Class, Field, LastOf;
  }

  lemma ItemsCons(wf: seq<u16>, items: seq<Item>)
    requires items != [] && AllValid(items)
    ensures var w, ws := ItemWord(items[0]), ItemWords(items);
            && ws != [] && ws[0] == w && ws[1..] == ItemWords(items[1..])
            && Sum(ws) == w + Sum(ws[1..])
            && SamplesFrom(wf, items) == SamplesFrom(Extend(wf, items[0]), items[1..])
  {
    var w, rest := ItemWord(items[0]), items[1..];
    assert ItemWords(items) == [w] + ItemWords(rest);
    SumAppend([w], ItemWords(rest));
    assert items == [items[0]] + rest;
    SamplesPrefix(items[0], rest, wf);
  }

  lemma {:induction false} ItemsRun(base: State, ch: Channel, event: seq<Channel>, n: nat, c: nat, last: Word,
                                    items: seq<Item>) returns (last': Word)
    requires base.header.nwords != 0 && Class(last) != ChannelLastWord
    requires AllValid(items) && (ch.samples == [] && items != [] ==> items[0].Raw?)
    ensures var ws := ItemWords(items);
            ChWords(At(base, ch, event, n, c, last), ws) ==
            (At(base, ch.(samples := SamplesFrom(ch.samples, items)), event, n + |ws|, c + Sum(ws), last'), Accepted)
    ensures Class(last') != ChannelLastWord
    decreases |items|
  {
    hide ChWord, Class, Wrap, At, Done, ItemWord;
    if items == [] {
      last' := last;
    } else {
      var rest := items[1..];
      var w := ItemWord(items[0]);
      ItemStep(base, ch, event, n, c, last, items[0]);
      last' := ItemsRun(base, ch.(samples := Extend(ch.samples, items[0])), event, n + 1, c + w, Short(w), rest);
      ItemsCons(ch.samples, items);
    }
  }

  /** Everything of a block but its last word. */
  lemma BlockBodyRun(base: State, ch: Channel, event: seq<Channel>, n: nat, c: nat, last: Word, b: Block)
    returns (last': Word)
    requires base.header.nwords != 0 && ValidItems(b.items)
    requires Class(last) == FemHeader || Class(last) == ChannelLastWord
    ensures var ws := [FirstOf(b)] + ItemWords(b.items);
            ChWords(At(base, ch, event, n, c, last), ws) ==
            (At(base, BLANK_CHANNEL.(number := b.number, samples := Samples(b.items)), event,
                n + |ws|, c + Sum(ws), last'), Accepted)
    ensures Class(last') != ChannelLastWord
  {
    hide ChWord, Class, Wrap, At, Done, ItemWord;
    var w := FirstOf(b);
    var s := At(base, ch, event, n, c, last);
    OpenStep(base, ch, event, n, c, last, b);
    FeedOne(ChWord, s, w);
    FeedAppend(ChWord, s, [w], ItemWords(b.items));
    last' := ItemsRun(base, BLANK_CHANNEL.(number := b.number), event, n + 1, c + w, Short(w), b.items);
    SamplesFromNothing(b.items);
    SumAppend([w], ItemWords(b.items));
  }

  lemma BlockRun(base: State, ch: Channel, event: seq<Channel>, n: nat, c: nat, last: Word, b: Block)
    requires base.header.nwords != 0 && ValidItems(b.items)
    requires Class(last) == FemHeader || Class(last) == ChannelLastWord
    requires n + |BlockWords(b)| - 1 < base.header.nwords
    ensures var ws := BlockWords(b);
            ChWords(At(base, ch, event, n, c, last), ws) ==
            (At(base, BLANK_CHANNEL, event + [ChannelOf(b, base.header)], n + |ws|, c + Sum(ws), Short(LastOf(b))),
             Accepted)
  {
    hide ChWord, Class, Wrap, At, Done, ItemWord;
    var body := [FirstOf(b)] + ItemWords(b.items);
    var s := At(base, ch, event, n, c, last);
    var last' := BlockBodyRun(base, ch, event, n, c, last, b);
    var full := BLANK_CHANNEL.(number := b.number, samples := Samples(b.items));
    FeedAppend(ChWord, s, body, [LastOf(b)]);
    CloseStep(base, full, event, n + |body|, c + Sum(body), last', b);
    FeedOne(ChWord, ChWords(s, body).0, LastOf(b));
  }

  lemma LastBlockRun(base: State, ch: Channel, event: seq<Channel>, n: nat, c: nat, last: Word, b: Block)
    requires base.header.nwords != 0 && ValidItems(b.items)
    requires Class(last) == FemHeader || Class(last) == ChannelLastWord
    requires n + |BlockWords(b)| - 1 == base.header.nwords
    ensures ChWords(At(base, ch, event, n, c, last), BlockWords(b)) ==
            Done(base, event + [ChannelOf(b, base.header)], base.header.nwords, c + Sum(BlockWords(b)),
                 Short(LastOf(b)))
  {
    hide ChWord, Class, Wrap, At, Done, ItemWord;
    var body := [FirstOf(b)] + ItemWords(b.items);
    var s := At(base, ch, event, n, c, last);
    var last' := BlockBodyRun(base, ch, event, n, c, last, b);
    var full := BLANK_CHANNEL.(number := b.number, samples := Samples(b.items));
    FeedAppend(ChWord, s, body, [LastOf(b)]);
    StoreStep(base, full, event, n + |body|, c + Sum(body), last', b);
    FeedOne(ChWord, ChWords(s, body).0, LastOf(b));
  }

  lemma ChannelsOne(b: Block, h: HeaderInfo)
    ensures Channels([b], h) == [ChannelOf(b, h)]
  {
  }

  lemma ChannelsCons(b: Block, rest: seq<Block>, h: HeaderInfo)
    ensures Channels([b] + rest, h) == [ChannelOf(b, h)] + Channels(rest, h)
  {
  }

  /** All blocks of a packet whose header announces their words: one event is stored, if
      the sum passes. */
  lemma {:induction false} BlocksRun(base: State, ch: Channel, event: seq<Channel>, n: nat, c: nat, last: Word,
                                     blocks: seq<Block>)
    requires base.header.nwords != 0 && blocks != [] && ValidBlocks(blocks)
    requires Class(last) == FemHeader || Class(last) == ChannelLastWord
    requires n + |ChannelWords(blocks)| == base.header.nwords + 1
    ensures ChWords(At(base, ch, event, n, c, last), ChannelWords(blocks)) ==
            Done(base, event + Channels(blocks, base.header), base.header.nwords, c + Sum(ChannelWords(blocks)),
                 Short(LastOf(blocks[|blocks| - 1])))
    decreases |blocks|
  {
    hide ChWord, Class, Wrap, At, Done, ItemWord, ChannelOf, ItemWords, LastOf, FirstOf, Channels, Sum;
    var b, rest := blocks[0], blocks[1..];
    var ws := BlockWords(b);
    SumAppend(ws, ChannelWords(rest));
    assert blocks == [b] + rest;
    ChannelsCons(b, rest, base.header);
    if rest == [] {
      assert ChannelWords(blocks) == ws;
      LastBlockRun(base, ch, event, n, c, last, b);
      ChannelsOne(b, base.header);
      assert blocks == [b];
    } else {
      assert |ChannelWords(rest)| >= |BlockWords(rest[0])|;
      BlockRun(base, ch, event, n, c, last, b);
      FeedAppend(ChWord, At(base, ch, event, n, c, last), ws, ChannelWords(rest));
      LastClass(b);
      BlocksRun(base, BLANK_CHANNEL, event + [ChannelOf(b, base.header)], n + |ws|, c + Sum(ws), Short(LastOf(b)),
                rest);
      AppendAssoc(event, [ChannelOf(b, base.header)], Channels(rest, base.header));
    }
  }

  // ----- from 16-bit words to 32-bit words -----

  /** No 16-bit word of a block looks like a header, an end-of-event or a reserved word. */
  predicate DataWord(w: u16) { Tag(w) in {0, 4, 5, 8, 9, 10, 11} }

  ghost predicate DataWords(ws: seq<u16>) { forall i :: 0 <= i < |ws| ==> DataWord(ws[i]) }

  lemma {:induction false} ChannelWordsAreData(blocks: seq<Block>)
    requires ValidBlocks(blocks)
    ensures DataWords(ChannelWords(blocks))
  {
    if blocks != [] {
      var b := blocks[0];
      forall i | 0 <= i < |b.items|
        ensures DataWord(ItemWords(b.items)[i])
      {
        ItemRoundTrip([0], b.items[i]);
      }
      TaggedParts(4, b.number);
      TaggedParts(5, b.number);
      ChannelWordsAreData(blocks[1..]);
    }
  }

  lemma ChWordKeeps(s: State, w: u16)
    ensures ChWord(s, w).0.searching == s.searching
  {
    hide DecodeWord, Class, Wrap;
  }

  /** A non-zero pair of data words is taken as two channel words. */
  lemma PairStep(s: State, w: Word)
    requires !s.searching && w != ZERO && DataWord(w.lo) && DataWord(w.hi)
    ensures Dispatch(s, w) == TwoChWords(s, w)
    ensures Step(s, w) == Settle(TwoChWords(s, w).0, TwoChWords(s, w).1)
  {
  }

  /** Feeding the packed words is feeding the 16-bit words, unless a pair is zero. */
  lemma {:induction false} PairsRun(s: State, ws: seq<u16>)
    requires !s.searching && DataWords(ws) && ZERO !in PackPairs(ws)
    requires ChWords(s, ws).1 == Accepted && Class(ChWords(s, ws).0.last) == ChannelLastWord
    ensures Run(s, PackPairs(ws)) == ChWords(s, ws)
    decreases |ws|
  {
    hide ChWord, Class, Dispatch;
    if |ws| == 0 {
    } else if |ws| == 1 {
      var w := Word(0, ws[0]);
      assert ws == [ws[0]];
      FeedOne(ChWord, s, ws[0]);
      PadStep(ChWord(s, ws[0]).0);
      PairStep(s, w);
      FeedOne(Step, s, w);
    } else {
      var w := Word(ws[1], ws[0]);
      var s1 := ChWord(s, ws[0]).0;
      FeedTwo(ChWord, s, ws);
      ChWordKeeps(s, ws[0]);
      ChWordKeeps(s1, ws[1]);
      PairStep(s, w);
      assert PackPairs(ws)[1..] == PackPairs(ws[2..]);
      assert forall x :: x in PackPairs(ws[2..]) ==> x in PackPairs(ws);
      PairsRun(ChWord(s1, ws[1]).0, ws[2..]);
    }
  }

  /** When a 16-bit word is refused on the way, feeding the packed words logs the same. */
  lemma {:induction false} PairsRefused(s: State, ws: seq<u16>)
    requires !s.searching && DataWords(ws) && ZERO !in PackPairs(ws)
    requires ChWords(s, ws).1 == Rejected
    ensures Run(s, PackPairs(ws)).0.log == ChWords(s, ws).0.log
    decreases |ws|
  {
    hide ChWord, Class, Dispatch;
    if |ws| == 1 {
      assert ws == [ws[0]];
      FeedOne(ChWord, s, ws[0]);
      PairStep(s, Word(0, ws[0]));
      FeedOne(Step, s, Word(0, ws[0]));
    } else {
      var w := Word(ws[1], ws[0]);
      var s1 := ChWord(s, ws[0]).0;
      FeedTwo(ChWord, s, ws);
      ChWordKeeps(s, ws[0]);
      ChWordKeeps(s1, ws[1]);
      PairStep(s, w);
      assert PackPairs(ws)[1..] == PackPairs(ws[2..]);
      assert forall x :: x in PackPairs(ws[2..]) ==> x in PackPairs(ws);
      if ChWord(s, ws[0]).1 == Accepted && ChWord(s1, ws[1]).1 == Accepted {
        PairsRefused(ChWord(s1, ws[1]).0, ws[2..]);
      }
    }
  }

  /** A zero after a channel's last word is padding. */
  lemma PadStep(s: State)
    requires Class(s.last) == ChannelLastWord
    ensures ChWord(s, 0) == (s, Accepted)
  {
  }
}
