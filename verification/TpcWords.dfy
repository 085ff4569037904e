/** Which words the Huffman TPC decoder refuses, in plain numbers, and how it goes on behind
    a refused word. */
module TpcWords {
  import opened Words
  import opened FemHeader
  import opened DeltaCode
  import opened Machine
  import opened Streams
  import opened TpcSpec
  import opened TpcGate
  import opened TpcRoundTrip
  import opened TpcTail

  // ----- 16-bit words -----

  /** A header word, by its value. */
  predicate LooksLikeHeader(w: Word) { w.lo >= 0xf000 && w != Word(0xffff, 0xffff) }

  predicate EndsChannel(w: Word) { 0x5000 <= w.lo < 0x6000 }

  lemma ClassIs(w: Word)
    ensures Class(w) == EventHeader <==> w == Word(0xffff, 0xffff)
    ensures Class(w) == FemHeader <==> LooksLikeHeader(w)
    ensures Class(w) == ChannelHeader <==> 0x4000 <= w.lo < 0x5000
    ensures Class(w) == ChannelLastWord <==> EndsChannel(w)
    ensures Class(w) == FemLastWord <==> w.lo == 0xc000
  {
  }

  /** A channel is opened behind a header or a channel's last word, and nowhere else. */
  lemma OpeningExactly(s: State, w: u16)
    requires 0x4000 <= w < 0x5000
    ensures var (t, o) := ChWord(s, w);
            if LooksLikeHeader(s.last) || EndsChannel(s.last) then
              o == Accepted && t.ch == Channel(w - 0x4000, 0xff, 0xff, []) && t.last == Short(w)
            else o == Rejected && t == s.(last := Short(w))
  {
    hide Class;
    ClassIs(s.last);
    ClassIs(Short(w));
    assert w % 0x1000 == w - 0x4000;
  }

  /** It is closed by a last word with its number, and by no other. */
  lemma ClosingExactly(s: State, w: u16)
    requires 0x5000 <= w < 0x6000 && s.event.Some? && s.nwords != s.header.nwords
    ensures var (t, o) := ChWord(s, w);
            if w - 0x5000 == s.ch.number then
              && o == Accepted && t.last == Short(w) && t.ch == Channel(0xffff, 0xff, 0xff, [])
              && t.event == Some(s.event.value + [Channel(s.ch.number, s.header.moduleAddress, s.header.moduleId,
                                                          s.ch.samples)])
            else o == Rejected && t == s.(last := Short(w))
  {
  }

  lemma SampleExactly(s: State, w: u16)
    ensures var (t, o) := Sample(s, w);
            && t == s.(ch := s.ch.(samples := t.ch.samples))
            && if 0x8000 <= w < 0xc000 then
                 o == if s.ch.samples == [] || LongGap(ToBits(w % 0x4000, 14)) then Rejected else Accepted
               else o == Accepted && t.ch.samples == s.ch.samples + [w % 0x1000]
  {
    hide DecodeBits, LongGap, ToBits;
    assert IsCompressed(w) <==> 0x8000 <= w < 0xc000;
    if 0x8000 <= w < 0xc000 && s.ch.samples != [] {
      DecodeExactness(s.ch.samples, w);
    }
  }

  /** What any other word does, by the class of what came before. */
  lemma OtherAction(s: State, w: u16)
    requires Class(Short(w)) != ChannelHeader && Class(Short(w)) != ChannelLastWord
    ensures ChWord(s, w) ==
            if w == 0 && Class(s.last) == ChannelLastWord then (s, Accepted)
            else if Class(Short(w)) == FemLastWord && Class(s.last) == ChannelLastWord then
              (s.(last := Short(w)), Rejected)
            else
              var (t, o) := Sample(s, w);
              ((if o == Accepted then Count(t, w) else t).(last := Short(w)), o)
  {
    hide Class, DecodeWord, Count;
  }

  /** Any other word: padding, the end of a FEM where it is not expected, codes without a
      sample before them or with too long a gap, or data. */
  lemma DataExactly(s: State, w: u16)
    requires w < 0x4000 || w >= 0x6000
    ensures var (t, o) := ChWord(s, w);
            if w == 0 && EndsChannel(s.last) then (t, o) == (s, Accepted)
            else if w == 0xc000 && EndsChannel(s.last) then o == Rejected && t == s.(last := Short(w))
            else if 0x8000 <= w < 0xc000 then
              && t.last == Short(w) && t.log == s.log && t.event == s.event
              && o == if s.ch.samples == [] || LongGap(ToBits(w % 0x4000, 14)) then Rejected else Accepted
            else o == Accepted && t.last == Short(w) && t.ch == s.ch.(samples := s.ch.samples + [w % 0x1000])
  {
    hide Class, Sample, ChWord, LongGap, ToBits;
    ClassIs(s.last);
    ClassIs(Short(w));
    OtherAction(s, w);
    SampleExactly(s, w);
  }

  // ----- 32-bit words -----

  predicate AdmitsHeader(s: State) {
    s.last == Word(0xffff, 0xffff) || LooksLikeHeader(s.last) || EndsChannel(s.last) || s.lastMissing
  }

  lemma GatherExactly(s: State, w: Word)
    requires s.headerCount < FEM_HEADER_COUNT
    ensures var (t, o) := FemHeaderWord(s, w);
            && (o == Rejected <==> !AdmitsHeader(s) || !LooksLikeHeader(Short(w.hi)))
            && (o == Rejected ==> t == s.(lastMissing := false, last := w))
            && (o != Rejected ==> o == Accepted || (o == Threw && s.headerCount == FEM_HEADER_COUNT - 1))
  {
    hide Class, DecodeHeader, DecodeFields;
    ClassIs(s.last);
    ClassIs(Short(w.hi));
  }

  /** A header word while no header is at hand is refused in the wrong place, or if its upper
      half does not look like one. */
  lemma HeaderWordExactly(s: State, w: Word)
    requires s.header == BLANK_HEADER && s.event.Some? && !s.searching && s.headerCount < FEM_HEADER_COUNT
    requires LooksLikeHeader(w)
    ensures var (t, o) := Step(s, w);
            && (o == Rejected <==> !AdmitsHeader(s) || w.hi < 0xf000)
            && (o == Rejected ==> t.log == s.log && t.last == w && !t.lastMissing && t.headerCount == 0)
            && (o != Rejected ==> o == Accepted || (o == Threw && s.headerCount == FEM_HEADER_COUNT - 1))
  {
    hide Class, FemHeaderWord, AdmitsHeader;
    ClassIs(w);
    GatherExactly(s, w);
  }

  /** The end word is accepted behind a channel's last word when no header is at hand or the
      event has just been stored, and elsewhere when a missing last word was noticed. */
  lemma EndWordExactly(s: State)
    requires s.event.Some? && !s.searching
    ensures var (t, o) := Step(s, EVENT_LAST);
            var stores := s.nwords == s.header.nwords;
            var short := (s.checksum + 0x503f) % 0x100_0000 == s.header.checksum;
            && t.last == EVENT_LAST
            && (o == Accepted <==>
                if EndsChannel(s.last) then stores || s.header.eventNumber == 0xffff_ffff
                else s.lastMissing || (stores && short))
            && (o != Accepted ==> o == Rejected)
            && (!EndsChannel(s.last) ==> !t.lastMissing)
  {
    hide Class, FlushAndStore, Wrap, Dispatch, SumAgrees, SumFixable, EventLastWordStep;
    var s1 := s.(checksum := Wrap(s.checksum + EVENT_LAST.Value()));
    EndSums(s.checksum, s.header.checksum);
    FlushMissing(s1);
    SumsIn(s1);
    EndIsEnd();
    EndDispatch(s, EVENT_LAST);
    EndWordStep(s);
    EndWordStep(FlushAndStore(s1).0);
    EndSettles(s);
  }

  lemma SumsIn(s: State)
    ensures SumAgrees(s) <==> s.checksum % 0x100_0000 == s.header.checksum
    ensures SumFixable(s) <==> (s.checksum + 0x503f) % 0x100_0000 == s.header.checksum
  {
  }

  lemma EndWordStep(s: State)
    ensures var (t, o) := EventLastWordStep(s, EVENT_LAST);
            && t == s.(last := EVENT_LAST, lastMissing := t.lastMissing)
            && o == (if (if EndsChannel(s.last) then s.header.eventNumber == 0xffff_ffff else s.lastMissing)
                     then Accepted else Rejected)
            && (!EndsChannel(s.last) ==> !t.lastMissing)
  {
    hide Class;
    ClassIs(s.last);
  }

  lemma EndSettles(s: State)
    requires !s.searching
    ensures var (t, o) := Dispatch(s, EVENT_LAST); Step(s, EVENT_LAST) == Settle(t, o)
  {
    hide Dispatch;
  }

  lemma EndSums(c: u32, checksum: u32)
    ensures var c1 := Wrap(c + EVENT_LAST.Value());
            && c1 % 0x100_0000 == c % 0x100_0000
            && (c1 + 0x503f) % 0x100_0000 == (c + 0x503f) % 0x100_0000
    ensures c % 0x100_0000 == checksum ==> (c + 0x503f) % 0x100_0000 != checksum
  {
    EndSum(c);
    FixableSum(Wrap(c + EVENT_LAST.Value()), c);
    AddSmall(c, 0x503f);
  }

  lemma FlushMissing(s: State)
    requires s.event.Some?
    ensures var (t, o) := FlushAndStore(s);
            && o in {Accepted, Rejected} && t.last == s.last && t.event == Some([]) && t.header == BLANK_HEADER
            && t.lastMissing == (s.lastMissing || (!SumAgrees(s) && SumFixable(s)))
  {
  }

  // ----- behind a refused word -----

  /** A refused word clears the event; in debug mode the next one is searched for. */
  lemma RefusedExactly(s: State, w: Word)
    requires Step(s, w).1 == Rejected
    ensures var t := Step(s, w).0;
            && t.header == BLANK_HEADER && t.headerCount == 0 && t.event == Some([]) && t.ch.samples == []
            && t.debug == s.debug && (s.debug ==> t.searching) && (t.searching ==> s.debug || s.searching)
  {
    hide Dispatch, Class;
    DispatchMode(s, w);
  }

  lemma DispatchMode(s: State, w: Word)
    ensures var t := Dispatch(s, w).0; t.debug == s.debug && (t.searching ==> s.searching)
  {
    hide Class, ChWord, DecodeHeader, DecodeFields, StoreEvent, Wrap;
    ChWordMode(s, w.lo);
    ChWordMode(ChWord(s, w.lo).0, w.hi);
    FlushMode(s);
    FlushMode(s.(checksum := Wrap(s.checksum + w.Value())));
    ChWordMode(FlushAndStore(s).0, w.lo);
    ChWordMode(ChWord(FlushAndStore(s).0, w.lo).0, w.hi);
  }

  lemma FlushMode(s: State)
    ensures var t := FlushAndStore(s).0; t.debug == s.debug && t.searching == s.searching
  {
  }

  lemma ChWordMode(s: State, w: u16)
    ensures var t := ChWord(s, w).0; t.debug == s.debug && t.searching == s.searching
  {
    hide Class, DecodeWord, FlushAndStore, Wrap;
    if s.event.Some? {
      var s1 := PushChannel(s);
      FlushMode(s1.(checksum := Wrap(s1.checksum + w)));
    }
  }

  /** The word the decoder remembers: zero words are not looked at. */
  function LastSeen(last: Word, ws: seq<Word>): Word
    decreases |ws|
  {
    if ws == [] then last else LastSeen(if ws[0] == ZERO then last else ws[0], ws[1..])
  }

  /** No event marker stands right behind an end word, zero words aside. */
  predicate Quiet(last: Word, ws: seq<Word>)
    decreases |ws|
  {
    ws == []
    || (ws[0] == ZERO && Quiet(last, ws[1..]))
    || (ws[0] != ZERO && !(last == EVENT_LAST && ws[0] == ALL_ONES) && Quiet(ws[0], ws[1..]))
  }

  lemma SearchStep(s: State, w: Word)
    requires s.searching && !(s.last == EVENT_LAST && w == ALL_ONES)
    ensures Step(s, w) == (if w == ZERO then s else s.(last := w), Accepted)
  {
  }

  /** While an event is searched for, nothing else happens. */
  lemma {:induction false} SearchRun(s: State, ws: seq<Word>)
    requires s.searching && Quiet(s.last, ws)
    ensures Run(s, ws) == (s.(last := LastSeen(s.last, ws)), Accepted)
    decreases |ws|
  {
    hide Step;
    if ws != [] {
      SearchStep(s, ws[0]);
      SearchRun(Step(s, ws[0]).0, ws[1..]);
    }
  }

  /** In debug mode everything behind a refused word is passed over up to an event marker
      right behind an end word; from there on events of carried packets are all stored. */
  lemma Recovers(s: State, w: Word, junk: seq<Word>, events: seq<seq<Packet>>)
    requires s.debug && Step(s, w).1 == Rejected && GoodEvents(Tpc(), events)
    requires var t := Step(s, w).0; Quiet(t.last, junk) && LastSeen(t.last, junk) == EVENT_LAST
    ensures var t := Step(s, w).0;
            var (u, o) := Run(t, junk + Stream(Tpc(), events));
            o == Accepted && u.log == t.log + ExpectedLog(Tpc(), events)
  {
    hide Step, Stream, ExpectedLog, GoodEvents, Sound, LastSeen, Quiet;
    var t := Step(s, w).0;
    RefusedExactly(s, w);
    SearchRun(t, junk);
    var t1 := Run(t, junk).0;
    assert Between(t1) by { EndIsEnd(); }
    TpcSound();
    StreamRun(Tpc(), t1, events);
    RunAppend(t, junk, Stream(Tpc(), events));
  }
}
