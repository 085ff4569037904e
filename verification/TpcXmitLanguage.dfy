/** The language of the plain TPC decoder: complete channel blocks, then perhaps the
    beginning of one. */
module TpcXmitLanguage {
  import opened Words
  import opened FemHeader
  import opened DeltaCode
  import opened Machine
  import opened TpcXmit
  import Tpc = TpcSpec

  datatype Block = Block(number: u12, words: seq<u16>)

  /** Complete blocks, and the one that has been begun. */
  datatype Reading = Reading(blocks: seq<Block>, begun: Option<Block>)

  predicate DataWord(w: u16) { Tag(w) == 0 || Tag(w) == 8 }

  function DataStep(wf: seq<u16>, w: u16): (seq<u16>, Outcome) {
    if !DataWord(w) then (wf, Rejected)
    else
      var (wf', ok) := DecodeWord(wf, w);
      (wf', if ok then Accepted else Rejected)
  }

  /** The samples that a block's words decode to. */
  function Samples(ws: seq<u16>): seq<u16> { Feed(DataStep, [], ws).0 }

  predicate Decodes(ws: seq<u16>) { Feed(DataStep, [], ws).1 == Accepted }

  function Beginning(b: Block): seq<u16> { [Tagged(4, b.number)] + b.words }

  function Complete(b: Block): seq<u16> { Beginning(b) + [Tagged(5, b.number)] }

  function Completes(blocks: seq<Block>): seq<u16> {
    if blocks == [] then [] else Completes(blocks[..|blocks| - 1]) + Complete(blocks[|blocks| - 1])
  }

  function Text(r: Reading): seq<u16> {
    Completes(r.blocks) + if r.begun.Some? then Beginning(r.begun.value) else []
  }

  ghost predicate WellFormed(r: Reading) {
    && (forall i :: 0 <= i < |r.blocks| ==> r.blocks[i].words != [] && Decodes(r.blocks[i].words))
    && (r.begun.Some? ==> Decodes(r.begun.value.words))
  }

  // ----- reading one word more -----

  function Next(r: Reading, w: u16): Option<Reading> {
    match r.begun
    case None => if Tag(w) == 4 then Some(r.(begun := Some(Block(Field(w), [])))) else None
    case Some(b) =>
      if Tag(w) == 5 && Field(w) == b.number && b.words != [] then Some(Reading(r.blocks + [b], None))
      else if DataWord(w) && DecodeWord(Samples(b.words), w).1 then
        Some(r.(begun := Some(b.(words := b.words + [w]))))
      else None
  }

  function Parse(ws: seq<u16>): Option<Reading> {
    if ws == [] then Some(Reading([], None))
    else
      match Parse(ws[..|ws| - 1])
      case None => None
      case Some(r) => Next(r, ws[|ws| - 1])
  }

  lemma MoreData(ws: seq<u16>, w: u16)
    requires Decodes(ws)
    ensures Decodes(ws + [w]) <==> DataWord(w) && DecodeWord(Samples(ws), w).1
    ensures DataWord(w) ==> Samples(ws + [w]) == DecodeWord(Samples(ws), w).0
  {
    hide DecodeWord, DataWord;
    FeedAppend(DataStep, [], ws, [w]);
    FeedOne(DataStep, Samples(ws), w);
  }

  lemma NoData()
    ensures Decodes([]) && Samples([]) == []
  {
  }

  lemma LessData(ws: seq<u16>, w: u16)
    requires Decodes(ws + [w])
    ensures Decodes(ws)
  {
    FeedAppend(DataStep, [], ws, [w]);
  }

  lemma NextText(r: Reading, w: u16)
    requires WellFormed(r) && Next(r, w).Some?
    ensures WellFormed(Next(r, w).value) && Text(Next(r, w).value) == Text(r) + [w]
  {
    hide Decodes, DecodeWord, Samples;
    NoData();
    var n := Next(r, w).value;
    if r.begun.Some? {
      var b := r.begun.value;
      if n.begun.None? {
        assert n.blocks[..|n.blocks| - 1] == r.blocks;
        assert Complete(b) == Beginning(b) + [w];
      } else {
        MoreData(b.words, w);
        assert Beginning(n.begun.value) == Beginning(b) + [w];
      }
    }
  }

  /** What is read is what was written, and is well formed. */
  lemma {:induction false} ParseSound(ws: seq<u16>)
    requires Parse(ws).Some?
    ensures WellFormed(Parse(ws).value) && Text(Parse(ws).value) == ws
  {
    if ws != [] {
      hide WellFormed, Text, Next;
      var front, w := ws[..|ws| - 1], ws[|ws| - 1];
      ParseSound(front);
      NextText(Parse(front).value, w);
      assert ws == front + [w];
    }
  }

  lemma ParseMore(ws: seq<u16>, w: u16, r: Reading)
    requires Parse(ws) == Some(r)
    ensures Parse(ws + [w]) == Next(r, w)
  {
    assert (ws + [w])[..|ws|] == ws;
  }

  /** Every well-formed text is read back. */
  lemma {:induction false} ParseComplete(r: Reading)
    requires WellFormed(r)
    ensures Parse(Text(r)) == Some(r)
    decreases |Text(r)|
  {
    hide Decodes, DecodeWord, Samples, Parse;
    if r.begun.Some? {
      var b := r.begun.value;
      if b.words == [] {
        BeforeHeader(r);
      } else {
        BeforeData(r);
      }
    } else if r.blocks == [] {
      ParseNothing();
      assert Text(r) == [];
    } else {
      BeforeLast(r);
    }
  }

  lemma ParseNothing()
    ensures Parse([]) == Some(Reading([], None))
  {
  }

  lemma {:induction false} BeforeHeader(r: Reading)
    requires WellFormed(r) && r.begun.Some? && r.begun.value.words == []
    ensures Parse(Text(r)) == Some(r)
    decreases |Text(r)|, 0
  {
    hide Decodes, DecodeWord, Samples, Parse;
    var w := Tagged(4, r.begun.value.number);
    TaggedParts(4, r.begun.value.number);
    var before := Reading(r.blocks, None);
    assert Text(r) == Text(before) + [w];
    ParseComplete(before);
    ParseMore(Text(before), w, before);
  }

  lemma {:induction false} BeforeData(r: Reading)
    requires WellFormed(r) && r.begun.Some? && r.begun.value.words != []
    ensures Parse(Text(r)) == Some(r)
    decreases |Text(r)|, 0
  {
    hide Decodes, DecodeWord, Samples, Parse;
    var b := r.begun.value;
    var n := |b.words| - 1;
    var front, w := b.words[..n], b.words[n];
    assert b.words == front + [w];
    LessData(front, w);
    MoreData(front, w);
    var before := Reading(r.blocks, Some(Block(b.number, front)));
    assert Text(r) == Text(before) + [w];
    ParseComplete(before);
    ParseMore(Text(before), w, before);
  }

  lemma {:induction false} BeforeLast(r: Reading)
    requires WellFormed(r) && r.begun.None? && r.blocks != []
    ensures Parse(Text(r)) == Some(r)
    decreases |Text(r)|, 0
  {
    hide Decodes, DecodeWord, Samples, Parse;
    var n := |r.blocks| - 1;
    var b := r.blocks[n];
    var w := Tagged(5, b.number);
    TaggedParts(5, b.number);
    var before := Reading(r.blocks[..n], Some(b));
    assert Text(r) == Text(before) + [w];
    ParseComplete(before);
    ParseMore(Text(before), w, before);
    assert r.blocks[..n] + [b] == r.blocks;
  }

  // ----- the decoder reads the same -----

  function ChannelOf(b: Block, h: HeaderInfo): Tpc.Channel {
    Tpc.Channel(b.number, h.moduleAddress, h.moduleId, Samples(b.words))
  }

  function Channels(blocks: seq<Block>, h: HeaderInfo): seq<Tpc.Channel> {
    if blocks == [] then []
    else Channels(blocks[..|blocks| - 1], h) + [ChannelOf(blocks[|blocks| - 1], h)]
  }

  /** The state after a reading: its complete blocks stored, the begun one at hand, its
      words counted and summed. */
  function After(s: State, r: Reading): (t: State)
    requires s.event.Some?
    ensures t.event.Some?
  {
    var ws := Text(r);
    s.(last := if ws == [] then s.last else Short(ws[|ws| - 1]),
       ch := if r.begun.Some? then
               Tpc.BLANK_CHANNEL.(number := r.begun.value.number, samples := Samples(r.begun.value.words))
             else if r.blocks == [] then s.ch else Tpc.BLANK_CHANNEL,
       event := Some(s.event.value + Channels(r.blocks, s.header)),
       nwords := Wrap(s.nwords + |ws|),
       checksum := Wrap(s.checksum + Sum(ws)))
  }

  /** What the last word read says about where the reading stands. */
  lemma LastClass(s: State, r: Reading)
    requires s.event.Some? && Class(s.last) == FemHeader && WellFormed(r)
    ensures Class(After(s, r).last) ==
            if r.begun.None? then (if r.blocks == [] then FemHeader else ChannelLastWord)
            else if r.begun.value.words == [] then ChannelHeader else ChannelWord
  {
    hide DecodeWord, Samples, Channels, Sum;
    if r.begun.Some? {
      var b := r.begun.value;
      TaggedParts(4, b.number);
      if b.words != [] {
        var n := |b.words| - 1;
        assert b.words == b.words[..n] + [b.words[n]];
        LessData(b.words[..n], b.words[n]);
        MoreData(b.words[..n], b.words[n]);
      }
    } else if r.blocks != [] {
      TaggedParts(5, r.blocks[|r.blocks| - 1].number);
    }
  }

  lemma AfterMore(s: State, r: Reading, n: Reading, w: u16)
    requires s.event.Some? && Text(n) == Text(r) + [w]
    ensures After(s, n).nwords == Wrap(After(s, r).nwords + 1)
    ensures After(s, n).checksum == Wrap(After(s, r).checksum + w)
    ensures After(s, n).last == Short(w)
  {
    hide Text, Channels, Samples;
    var ws := Text(r);
    WrapAdd(s.nwords + |ws|, 1);
    SumAppend(ws, [w]);
    SumOne(w);
    WrapAdd(s.checksum + Sum(ws), w);
  }

  lemma ClassOfShort(w: u16)
    ensures Class(Short(w)) ==
            if Tag(w) == 15 then FemHeader
            else if Tag(w) == 4 then ChannelHeader
            else if DataWord(w) then ChannelWord
            else if Tag(w) == 5 then ChannelLastWord
            else UndefinedWord
  {
  }

  /** `s1` is the state after reading `n`, but for the bookkeeping of the last word. */
  ghost predicate Reads(s: State, r: Reading, n: Reading, s1: State)
    requires s.event.Some?
  {
    && s1 == After(s, n).(last := s1.last, nwords := s1.nwords, checksum := s1.checksum)
    && s1.nwords == After(s, r).nwords && s1.checksum == After(s, r).checksum
  }

  lemma ReadHeader(s: State, r: Reading, w: u16)
    requires s.event.Some? && Class(s.last) == FemHeader && WellFormed(r) && r.begun.None?
    ensures var (s1, o) := ChannelAction(After(s, r), w);
            if Next(r, w).Some? then o == Accepted && Reads(s, r, Next(r, w).value, s1)
            else o == Rejected && s1.event.Some?
  {
    LastClass(s, r);
    ClassOfShort(w);
    NoData();
    hide DecodeWord, Samples, Decodes, Sum, Text, Class, Tag, Field, Channels, DataWord, Wrap;
  }

  lemma ReadClose(s: State, r: Reading, w: u16)
    requires s.event.Some? && Class(s.last) == FemHeader && WellFormed(r) && r.begun.Some? && Tag(w) == 5
    ensures var (s1, o) := ChannelAction(After(s, r), w);
            if Next(r, w).Some? then o == Accepted && Reads(s, r, Next(r, w).value, s1)
            else o == Rejected && s1.event.Some?
  {
    LastClass(s, r);
    ClassOfShort(w);
    var b := r.begun.value;
    ChannelsMore(s.event.value, r.blocks, b, s.header);
    hide DecodeWord, Samples, Decodes, Sum, Text, Class, Field, Channels, Wrap;
  }

  lemma ChannelsMore(event: seq<Tpc.Channel>, blocks: seq<Block>, b: Block, h: HeaderInfo)
    ensures event + Channels(blocks + [b], h) == event + Channels(blocks, h) + [ChannelOf(b, h)]
  {
    assert (blocks + [b])[..|blocks|] == blocks;
  }

  lemma ReadData(s: State, r: Reading, w: u16)
    requires s.event.Some? && Class(s.last) == FemHeader && WellFormed(r) && r.begun.Some? && Tag(w) != 5
    ensures var (s1, o) := ChannelAction(After(s, r), w);
            if Next(r, w).Some? then o == Accepted && Reads(s, r, Next(r, w).value, s1)
            else o == Rejected && s1.event.Some?
  {
    LastClass(s, r);
    ClassOfShort(w);
    MoreData(r.begun.value.words, w);
    hide DecodeWord, Samples, Decodes, Sum, Text, Class, Field, Channels, DataWord, Wrap;
  }

  /** Nothing is left of the event. */
  predicate Emptied(s: State) {
    s.event == Some([]) && s.header == BLANK_HEADER && s.headerCount == 0 && s.ch.samples == []
  }

  /** One word: accepted exactly when the reading can go on, and then along with it. */
  lemma StepReads(s: State, r: Reading, w: u16)
    requires s.event.Some? && Class(s.last) == FemHeader && WellFormed(r)
    ensures var (s1, o) := ChWord(After(s, r), w);
            if Next(r, w).Some? then (s1, o) == (After(s, Next(r, w).value), Accepted)
            else o == Rejected && Emptied(s1)
  {
    hide DecodeWord, Samples, Sum, Text, ChannelAction, After, Decodes, Class, Wrap, Next, WellFormed, Tag, DataWord;
    if r.begun.None? {
      ReadHeader(s, r, w);
    } else if Tag(w) == 5 {
      ReadClose(s, r, w);
    } else {
      ReadData(s, r, w);
    }
    if Next(r, w).Some? {
      NextText(r, w);
      AfterMore(s, r, Next(r, w).value, w);
      NextDefined(r, w);
      ClassOfShort(w);
    }
  }

  lemma NextDefined(r: Reading, w: u16)
    requires Next(r, w).Some?
    ensures Tag(w) == 4 || Tag(w) == 5 || DataWord(w)
  {
  }

  /** The decoder follows the reading over a whole run. */
  lemma {:induction false} RunReads(s: State, ws: seq<u16>)
    requires s.event.Some? && Class(s.last) == FemHeader
    ensures match Parse(ws)
            case Some(r) => Run(s, ws) == (After(s, r), Accepted)
            case None => Run(s, ws).1 == Rejected && Emptied(Run(s, ws).0)
    decreases |ws|
  {
    hide ChWord, Next, Class, WellFormed;
    if ws == [] {
      AfterNothing(s);
    } else {
      var front, w := ws[..|ws| - 1], ws[|ws| - 1];
      assert ws == front + [w];
      RunReads(s, front);
      FeedAppend(ChWord, s, front, [w]);
      if Parse(front).Some? {
        ParseSound(front);
        FeedOne(ChWord, Run(s, front).0, w);
        StepReads(s, Parse(front).value, w);
      }
    }
  }

  lemma AfterNothing(s: State)
    requires s.event.Some?
    ensures After(s, Reading([], None)) == s
  {
    assert Text(Reading([], None)) == [];
    assert s.event.value + [] == s.event.value;
    assert Wrap(s.nwords + 0) == s.nwords && Wrap(s.checksum + 0) == s.checksum;
  }

  // ----- the results -----

  /** After a header, the decoder accepts exactly the prefixes of lists of blocks: a
      header word, at least one data word, all decoding, and a last word with the same
      channel number. */
  lemma AcceptedExactly(s: State, ws: seq<u16>)
    requires s.event.Some? && Class(s.last) == FemHeader
    ensures Run(s, ws).1 == Accepted <==> exists r :: WellFormed(r) && Text(r) == ws
    ensures Run(s, ws).1 != Accepted ==> Run(s, ws).1 == Rejected && Emptied(Run(s, ws).0)
  {
    hide Run, WellFormed, Text, Class;
    RunReads(s, ws);
    if Parse(ws).Some? {
      ParseSound(ws);
    }
    if r :| WellFormed(r) && Text(r) == ws {
      ParseComplete(r);
    }
  }

  /** What has been accepted is stored: the complete blocks in order with their decoded
      samples, the count and the sum of all words. */
  lemma StoredExactly(s: State, r: Reading)
    requires s.event.Some? && Class(s.last) == FemHeader && WellFormed(r)
    ensures Run(s, Text(r)) == (After(s, r), Accepted)
  {
    hide Run, WellFormed, Text, Class, After;
    ParseComplete(r);
    RunReads(s, Text(r));
  }

  /** From cleared counters, the event of complete blocks is written exactly when the header
      has its number of words and the low 24 bits of their sum. */
  lemma WrittenExactly(s: State, r: Reading)
    requires s.event == Some([]) && Class(s.last) == FemHeader && WellFormed(r)
    requires s.nwords == 0 && s.checksum == 0
    ensures Run(s, Text(r)) == (After(s, r), Accepted)
    ensures var (s2, o) := Stored(After(s, r));
            if |Text(r)| % 0x1_0000_0000 == s.header.nwords && Sum(Text(r)) % 0x100_0000 == s.header.checksum then
              o == Accepted && s2.log == s.log + [Tpc.StoredEvent(s.header, Channels(r.blocks, s.header))]
            else o == Rejected && s2.log == s.log
  {
    StoredExactly(s, r);
    WrapLow24(Sum(Text(r)));
    hide Run, Text, Sum, Channels, Class, Samples;
    assert [] + Channels(r.blocks, s.header) == Channels(r.blocks, s.header);
  }

  // ----- events one after the other -----

  /** A header with its last word, and any words behind it. */
  datatype Sent = Sent(header: HeaderInfo, last: Word, words: seq<u16>)

  /** The header is installed, the words are read, and the event is stored if they are
      accepted. */
  function Turn(s: State, e: Sent): State
  {
    var (t, o) := Run(s.(header := e.header, last := e.last, nwords := 0, checksum := 0), e.words);
    if o == Accepted && t.event.Some? then Stored(t).0 else t
  }

  function Turns(s: State, es: seq<Sent>): State
  {
    if es == [] then s else Turn(Turns(s, es[..|es| - 1]), es[|es| - 1])
  }

  /** What is written of it, whatever came before: the channels of its own words, if these
      have the header's count and checksum. */
  function Written(e: Sent): seq<Tpc.StoredEvent>
  {
    match Parse(e.words)
    case None => []
    case Some(r) =>
      if |e.words| % 0x1_0000_0000 == e.header.nwords && Sum(e.words) % 0x100_0000 == e.header.checksum then
        [Tpc.StoredEvent(e.header, Channels(r.blocks, e.header))]
      else []
  }

  function WrittenAll(es: seq<Sent>): seq<Tpc.StoredEvent>
  {
    if es == [] then [] else WrittenAll(es[..|es| - 1]) + Written(es[|es| - 1])
  }

  lemma TurnWrites(s: State, e: Sent)
    requires s.event == Some([]) && Class(e.last) == FemHeader
    ensures Turn(s, e).log == s.log + Written(e) && Emptied(Turn(s, e))
  {
    hide Run, Text, Sum, Channels, Class, Samples, WellFormed, Parse;
    var s0 := s.(header := e.header, last := e.last, nwords := 0, checksum := 0);
    RunReads(s0, e.words);
    assert s.log + [] == s.log;
    if Parse(e.words).Some? {
      ParseSound(e.words);
      WrittenExactly(s0, Parse(e.words).value);
    } else {
      RefusedKeepsLog(s0, e.words);
    }
  }

  lemma WordKeepsLog(s: State, w: u16)
    ensures ChWord(s, w).0.log == s.log
  {
    hide DecodeWord, Class, Wrap;
  }

  lemma {:induction false} RefusedKeepsLog(s: State, ws: seq<u16>)
    ensures Run(s, ws).0.log == s.log
    decreases |ws|
  {
    hide ChWord;
    if ws != [] {
      WordKeepsLog(s, ws[0]);
      RefusedKeepsLog(ChWord(s, ws[0]).0, ws[1..]);
    }
  }

  /** Whatever words come behind whatever headers, each event is written with the channels
      of its own words, or not at all: none is left over from an event that was stored, from
      one whose check failed, or from one with a refused word. */
  lemma {:induction false} EventsApart(s: State, es: seq<Sent>)
    requires s.event == Some([]) && forall i :: 0 <= i < |es| ==> Class(es[i].last) == FemHeader
    ensures Turns(s, es).log == s.log + WrittenAll(es) && Turns(s, es).event == Some([])
    ensures es != [] ==> Emptied(Turns(s, es))
  {
    hide Turn, Written, Class;
    if es == [] {
      assert s.log + [] == s.log;
    } else {
      var n := |es| - 1;
      EventsApart(s, es[..n]);
      TurnWrites(Turns(s, es[..n]), es[n]);
      AppendAssoc(s.log, WrittenAll(es[..n]), Written(es[n]));
    }
  }

  /** The header counts and sums the blocks. */
  predicate Announces(h: HeaderInfo, r: Reading) {
    h.nwords == |Text(r)| % 0x1_0000_0000 && h.checksum == Sum(Text(r)) % 0x100_0000
  }

  /** Two events in a row, read, stored, read again and stored: two entries, each with its
      own channels. */
  lemma TwoEvents(s: State, h1: HeaderInfo, r1: Reading, h2: HeaderInfo, r2: Reading, last: Word)
    requires s.event == Some([]) && Class(last) == FemHeader && WellFormed(r1) && WellFormed(r2)
    requires Announces(h1, r1) && Announces(h2, r2)
    ensures Turns(s, [Sent(h1, last, Text(r1)), Sent(h2, last, Text(r2))]).log ==
            s.log + [Tpc.StoredEvent(h1, Channels(r1.blocks, h1)), Tpc.StoredEvent(h2, Channels(r2.blocks, h2))]
  {
    hide Run, Text, Sum, Channels, Class, Samples, WellFormed, Parse, Turn;
    var e1, e2 := Sent(h1, last, Text(r1)), Sent(h2, last, Text(r2));
    ParseComplete(r1);
    ParseComplete(r2);
    EventsApart(s, [e1, e2]);
    var es := [e1, e2];
    assert es[..1] == [e1] && [e1][..0] == [];
    assert WrittenAll(es) == WrittenAll([e1]) + Written(e2) && WrittenAll([e1]) == [] + Written(e1);
  }

  // ----- refused words -----

  predicate IsData(w: Word) { (w.lo < 0x1000 && w != Word(0xe000, 0)) || 0x8000 <= w.lo < 0x9000 }

  predicate LooksLikeHeader(w: Word) { w.lo >= 0xf000 && w != Word(0xffff, 0xffff) }

  predicate EndsChannel(w: Word) { 0x5000 <= w.lo < 0x6000 }

  predicate OpensChannel(w: Word) { 0x4000 <= w.lo < 0x5000 }

  lemma ClassIs(w: Word)
    ensures Class(w) == FemHeader <==> LooksLikeHeader(w)
    ensures Class(w) == ChannelHeader <==> OpensChannel(w)
    ensures Class(w) == ChannelWord <==> IsData(w)
    ensures Class(w) == ChannelLastWord <==> EndsChannel(w)
  {
  }

  /** A channel begins behind a header or a channel's last word, has data before it ends, and
      ends with its own number; codes need a sample before them and no long gap. */
  predicate Acceptable(s: State, w: u16) {
    if 0x4000 <= w < 0x5000 then LooksLikeHeader(s.last) || EndsChannel(s.last)
    else if 0x5000 <= w < 0x6000 then IsData(s.last) && w - 0x5000 == s.ch.number
    else IsData(Short(w)) && (OpensChannel(s.last) || IsData(s.last)) && DecodeWord(s.ch.samples, w).1
  }

  /** Any other word is refused; the event is cleared, and the word is remembered if it means
      anything at all. */
  lemma RefusedExactly(s: State, w: u16)
    requires s.event.Some?
    ensures var (t, o) := ChWord(s, w);
            var means := w < 0x1000 || 0x4000 <= w < 0x6000 || 0x8000 <= w < 0x9000 || w >= 0xf000;
            && (o == Accepted <==> Acceptable(s, w)) && (o != Accepted ==> o == Rejected)
            && t.last == (if means then Short(w) else s.last)
            && (o == Rejected ==>
                  Emptied(t) && t.log == s.log && t.nwords == s.nwords && t.checksum == s.checksum)
  {
    hide Class, DecodeWord, Wrap, Tag;
    ClassIs(s.last);
    ClassIs(Short(w));
    ClassOfShort(w);
    TagRanges(w);
  }

  lemma TagRanges(w: u16)
    ensures Tag(w) == 15 <==> w >= 0xf000
    ensures Tag(w) == 4 <==> 0x4000 <= w < 0x5000
    ensures Tag(w) == 5 <==> 0x5000 <= w < 0x6000
    ensures Tag(w) == 0 <==> w < 0x1000
    ensures Tag(w) == 8 <==> 0x8000 <= w < 0x9000
    ensures 0x5000 <= w < 0x6000 ==> Field(w) == w - 0x5000
  {
  }
}
