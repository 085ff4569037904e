/** Which words the PMT decoder refuses, in plain numbers, what it makes of words without a
    channel header, and how it goes on behind a refused word. */
module PmtWords {
  import opened Words
  import opened FemHeader
  import opened Machine
  import opened Streams
  import opened PmtSpec
  import opened PmtPackets
  import opened PmtRoundTrip

  // ----- words by their values -----

  predicate LooksLikeHeader(w: Word) { w.lo >= 0xf000 && w != Word(0xffff, 0xffff) }

  predicate OpensPacket(w: Word) { 0x4000 <= w.lo < 0x5000 || 0x2000 <= w.lo < 0x3000 }

  predicate OpensPulse(w: Word) { 0x9000 <= w.lo < 0xa000 }

  predicate IsData(w: Word) { 0x8000 <= w.lo < 0x9000 || 0xa000 <= w.lo < 0xb000 }

  predicate EndsPulse(w: Word) { 0xb000 <= w.lo < 0xc000 }

  predicate EndsPacket(w: Word) { 0xc000 <= w.lo < 0xd000 }

  lemma ClassIs(w: Word)
    ensures Class(w) == EventHeader <==> w == Word(0xffff, 0xffff)
    ensures Class(w) == FemHeader <==> LooksLikeHeader(w)
    ensures Class(w) == FemFirstWord <==> OpensPacket(w)
    ensures Class(w) == ChannelHeader <==> OpensPulse(w)
    ensures Class(w) == ChannelWord <==> IsData(w)
    ensures Class(w) == ChannelLastWord <==> EndsPulse(w)
    ensures Class(w) == FemLastWord <==> EndsPacket(w)
  {
  }

  /** The pulse stored last has an odd number of samples, so that padding is due. */
  predicate PaddingDue(s: State) {
    s.event.Some? && s.event.value != [] && |s.event.value[|s.event.value| - 1].samples| % 2 == 1
  }

  // ----- 16-bit words -----

  /** The refused word is remembered; nothing is counted. */
  predicate Refuses(s: State, t: State, o: Outcome, w: u16) {
    && o == Rejected && t.last == Short(w) && t.log == s.log
    && t.nwords == s.nwords && t.checksum == s.checksum && t.header == s.header
  }

  /** A packet's first word comes right behind a header. */
  lemma FirstExactly(s: State, w: u16)
    requires OpensPacket(Short(w))
    ensures var (t, o) := ChWord(s, w);
            if LooksLikeHeader(s.last) then o == Accepted && t.event == s.event && t.last == Short(w)
            else Refuses(s, t, o, w)
  {
    hide Class, Wrap;
    ClassIs(Short(w));
    ClassIs(s.last);
  }

  /** A pulse begins behind the first word, behind another pulse's last word, or behind the
      padding that was due. */
  lemma OpeningExactly(s: State, w: u16)
    requires 0x9000 <= w < 0xa000 && s.event.Some?
    ensures var (t, o) := ChWord(s, w);
            if OpensPacket(s.last) || EndsPulse(s.last) || (s.last == Word(0, 0x8000) && PaddingDue(s)) then
              && o == Accepted && t.last == Short(w) && t.chHeaderCount == 1
              && t.ch == Pulse(w % 64, (w - 0x9000) / 512, 0xff, 0xff, 0xffff_ffff, 0xffff_ffff, [])
            else Refuses(s, t, o, w)
  {
    hide Class, Wrap;
    ClassIs(Short(w));
    ClassIs(s.last);
    assert w % 0x1000 == w - 0x9000;
  }

  /** Everything that is not a packet's first word, a pulse's header, data or last word. */
  lemma OtherRefused(s: State, w: u16)
    requires w < 0x2000 || 0x3000 <= w < 0x4000 || 0x5000 <= w < 0x8000 || w >= 0xc000
    ensures Refuses(s, ChWord(s, w).0, ChWord(s, w).1, w)
  {
    hide Class, Wrap;
    ClassIs(Short(w));
  }

  /** The time word cannot be used: no event frame, or one half a period away. */
  predicate NoFrame(s: State) { s.header.frame == 0xffff_ffff }

  predicate FrameThrows(s: State, w: u16) { (w % 256 / 32 - s.header.frame) % 8 == 4 }

  /** The overflow check misses a bit marker on the `count`-th word of a pulse. */
  predicate MarkerAbsent(s: State, count: nat, w: u16) {
    s.checkOverflow && count != 0 && count % 8 == 0 && 0x9000 <= w < 0xb000
  }

  /** The words of the pulse with this one; the first of a pulse without a header is not
      counted. */
  function Counted(s: State): nat {
    if EndsPulse(s.last) then s.wordsInCh else (s.wordsInCh + 1) % 0x1_0000
  }

  /** How a data or last word of a pulse ends, when it is read at all. */
  function ReadOutcome(s: State, w: u16): Outcome {
    if OpensPulse(s.last) && s.chHeaderCount != 3 && NoFrame(s) then Rejected
    else if OpensPulse(s.last) && s.chHeaderCount != 3 && FrameThrows(s, w) then Threw
    else if (OpensPulse(s.last) && s.chHeaderCount == 3) || MarkerAbsent(s, Counted(s), w) then Rejected
    else Accepted
  }

  lemma FrameOutcome(s: State, w: u16)
    ensures RollOver(s.header.frame, w % 256 / 32, 3) == None <==> FrameThrows(s, w)
  {
    RollOverThrows(s.header.frame, w % 256 / 32, 3);
  }

  lemma ReadWordExactly(s: State, w: u16)
    requires OpensPulse(s.last) || IsData(s.last) || (EndsPulse(s.last) && s.chHeaderCount == 1)
    ensures var (t, o) := ReadWord(s, w);
            && t.checkOverflow == s.checkOverflow && t.event == s.event && t.log == s.log
            && t.nwords == s.nwords && t.checksum == s.checksum && t.header == s.header
            && (o in {Accepted, Rejected} && !(o == Rejected && s.chHeaderCount != 3) ==> t.wordsInCh == Counted(s))
            && o == (if OpensPulse(s.last) && s.chHeaderCount != 3 && NoFrame(s) then Rejected
                     else if OpensPulse(s.last) && s.chHeaderCount != 3 && FrameThrows(s, w) then Threw
                     else if OpensPulse(s.last) && s.chHeaderCount == 3 then Rejected
                     else Accepted)
  {
    hide Class, RollOver, Wrap;
    ClassIs(s.last);
    FrameOutcome(s, w);
  }

  lemma ConcludeExactly(s: State, w: u16, o: Outcome)
    requires s.event.Some? && (IsData(Short(w)) || EndsPulse(Short(w)))
    ensures var (t, o') := Conclude(s, w, o);
            && t.log == s.log && t.nwords == s.nwords && t.checksum == s.checksum && t.header == s.header
            && o' == if MarkerAbsent(s, s.wordsInCh, w) then Rejected else o
  {
    hide Class;
    ClassIs(Short(w));
    assert Tag(w) != 8 <==> !(0x8000 <= w < 0x9000);
  }

  lemma ReadExactly(s: State, w: u16)
    requires s.event.Some? && (IsData(Short(w)) || EndsPulse(Short(w)))
    requires OpensPulse(s.last) || IsData(s.last) || (EndsPulse(s.last) && s.chHeaderCount == 1)
    ensures var (t, o) := ReadAndConclude(s, w, Accepted);
            && o == ReadOutcome(s, w) && t.log == s.log
            && t.nwords == s.nwords && t.checksum == s.checksum && t.header == s.header
  {
    hide Class, ReadWord, Conclude;
    ReadWordExactly(s, w);
    var (s1, o) := ReadWord(s, w);
    ConcludeExactly(s1, w, o);
  }

  /** Data and last words of pulses: refused where no pulse is under way, where padding is
      not due, where a frame number or a bit marker is missing, and right behind a pulse's
      header that comes too late. */
  lemma DataExactly(s: State, w: u16)
    requires 0x8000 <= w < 0x9000 || 0xa000 <= w < 0xc000
    requires s.event.Some? && (EndsPulse(s.last) ==> s.event != Some([]))
    ensures var (t, o) := ChWord(s, w);
            if !(OpensPulse(s.last) || IsData(s.last) || EndsPulse(s.last)) then Refuses(s, t, o, w)
            else if EndsPulse(s.last) && w == 0x8000 then
              if PaddingDue(s) then o == Accepted && t.event == s.event && t.ch == s.ch && t.last == Short(w)
              else Refuses(s, t, o, w)
            else o == ReadOutcome(s, w) && (o == Rejected ==> Refuses(s, t, o, w))
  {
    hide Class, ReadAndConclude, Wrap, ReadOutcome;
    ClassIs(Short(w));
    ClassIs(s.last);
    if OpensPulse(s.last) || IsData(s.last) {
      ReadExactly(s, w);
    } else if EndsPulse(s.last) && w != 0x8000 {
      ReadExactly(Continue(s), w);
      assert ReadOutcome(Continue(s), w) == ReadOutcome(s, w) by { Continued(s, w); }
    } else if EndsPulse(s.last) {
      LateConclude(s, w);
    }
  }

  lemma Continued(s: State, w: u16)
    requires s.event.Some? && s.event.value != [] && EndsPulse(s.last)
    ensures ReadOutcome(Continue(s), w) == ReadOutcome(s, w)
  {
  }

  lemma LateConclude(s: State, w: u16)
    requires s.event.Some? && w == 0x8000 && EndsPulse(s.last)
    ensures var (t, o) := ReadAndConclude(s, w, Rejected);
            && o == Rejected && t.log == s.log
            && t.nwords == s.nwords && t.checksum == s.checksum && t.header == s.header
  {
    hide Class, RollOver;
    ClassIs(Short(w));
    ClassIs(s.last);
  }

  /** A pulse's last word that is refused right behind the pulse's header stores the pulse
      all the same if three header words had been counted before that header. */
  lemma RefusedEnd(s: State, w: u16)
    requires s.event.Some? && OpensPulse(s.last) && EndsPulse(Short(w))
    ensures var (t, o) := ChWord(s, w);
            && (s.chHeaderCount == 3 ==> o == Rejected && t.event == Some(s.event.value + [Closed(s.ch, s.header)]))
            && (s.chHeaderCount != 3 && o != Accepted ==> t.event == s.event)
  {
    hide Class, RollOver;
    ClassIs(Short(w));
    ClassIs(s.last);
  }

  /** When the program reads the last pulse of an empty event, or uses an event it never made:
      a header that could only be saved by padding, a word behind a last word, a last word. */
  lemma UndefinedExactly(s: State, w: u16)
    ensures ChWord(s, w).1 == Undefined <==>
            || (OpensPulse(Short(w)) && s.event.None? && !OpensPacket(s.last) && !EndsPulse(s.last))
            || ((IsData(Short(w)) || EndsPulse(Short(w))) && EndsPulse(s.last) && s.event in {None, Some([])})
            || (EndsPulse(Short(w)) && s.event.None?
                && (IsData(s.last)
                    || (OpensPulse(s.last) && (s.chHeaderCount == 3 || (!NoFrame(s) && !FrameThrows(s, w))))))
  {
    hide Class, RollOver;
    ClassIs(Short(w));
    ClassIs(s.last);
    FrameOutcome(s, w);
  }

  /** The same for the end of a packet. */
  lemma UndefinedEnd(s: State, w: u16)
    ensures FemLastStep(s, w).1 == Undefined <==>
            || (s.last == Word(0, 0x8000) && s.event in {None, Some([])})
            || ((EndsPulse(s.last) || OpensPacket(s.last)) && s.event.None?
                && s.nwords == s.header.nwords && s.checksum % 0x100_0000 == s.header.checksum)
  {
    hide Class;
    ClassIs(s.last);
    CountedLast(s.nwords);
  }

  /** The end of a packet: stored behind a pulse, behind the first word, or behind padding that
      was due, when count and checksum agree. */
  lemma PacketEndExactly(s: State, w: u16)
    requires 0xc000 <= w < 0xd000 && s.event.Some?
    requires s.last == Word(0, 0x8000) ==> s.event != Some([])
    ensures var (t, o) := FemLastStep(s, w);
            && t.last == Short(w)
            && if (EndsPulse(s.last) || OpensPacket(s.last) || (s.last == Word(0, 0x8000) && PaddingDue(s)))
                  && s.nwords == s.header.nwords && s.checksum % 0x100_0000 == s.header.checksum then
                 o == Accepted && t.log == s.log + [StoredEvent(s.header, s.event.value)]
               else o == Rejected && t.log == s.log
  {
    hide Class;
    ClassIs(s.last);
    CountedLast(s.nwords);
  }

  lemma CountedLast(n: u32)
    ensures Wrap(Wrap(n + 1) - 1) == n
  {
    WrapAdd(n + 1, -1);
    assert Wrap(n) == n;
  }

  // ----- 32-bit words -----

  /** Two 16-bit words, the lower half first; only an upper half ends a packet. */
  lemma PairExactly(s: State, w: Word)
    requires !s.searching
    requires OpensPacket(w) || OpensPulse(w) || IsData(w) || EndsPulse(w) || EndsPacket(w)
    ensures var (s1, o1) := ChWord(s, w.lo);
            var (t, o) := Step(s, w);
            var hi := Short(w.hi);
            && (o1 != Accepted ==> o == o1 && t.log == s1.log)
            && (o1 == Accepted ==>
                  var (s2, o2) := if EndsPacket(hi) then FemLastStep(s1, w.hi) else ChWord(s1, w.hi);
                  if OpensPacket(hi) || OpensPulse(hi) || IsData(hi) || EndsPulse(hi) || EndsPacket(hi) then
                    o == o2 && t.log == s2.log
                  else o == Rejected && t.log == s1.log)
  {
    hide Class, ChWord, FemLastStep;
    ClassIs(w);
    ClassIs(Short(w.hi));
  }

  /** An event marker opens the first event, and else comes behind an end word only. */
  lemma MarkerExactly(s: State)
    requires !s.searching
    ensures var (t, o) := Step(s, ALL_ONES);
            && t.log == s.log
            && if s.event == None then o == Accepted && t.event == Some([]) && t.last == ALL_ONES
               else t.last == ALL_ONES && o == if Class(s.last) == EventLastWord then Accepted else Rejected
  {
    hide Class;
    ClassIs(ALL_ONES);
  }

  /** An end word comes behind the end of a packet only. */
  lemma EndWordExactly(s: State, w: Word)
    requires !s.searching && Class(w) == EventLastWord
    ensures var (t, o) := Step(s, w);
            && t.log == s.log && t.last == w && o == if EndsPacket(s.last) then Accepted else Rejected
  {
    hide Class;
    ClassIs(s.last);
  }

  /** A header word is refused if its upper half does not look like one. */
  lemma HeaderWordExactly(s: State, w: Word)
    requires !s.searching && s.headerCount < FEM_HEADER_COUNT && LooksLikeHeader(w)
    ensures var (t, o) := Step(s, w);
            && t.log == s.log
            && (o == Rejected <==> w.hi < 0xf000)
            && (o in {Accepted, Rejected} ==> t.last == w)
            && (o !in {Accepted, Rejected} ==> o == Threw && s.headerCount == FEM_HEADER_COUNT - 1)
  {
    hide Class, DecodeHeader, DecodeFields;
    ClassIs(w);
    ClassIs(Short(w.hi));
  }

  // ----- pulses without a header -----

  /** One time word of such a pulse: it is added to the sample number. */
  lemma TimeStep(base: State, ch: Pulse, hc: nat, wc: nat, event: seq<Pulse>, n: nat, c: nat, last: Word, w: u16)
    requires IsData(last) && IsData(Short(w)) && hc < 3 && wc < 7
    ensures ChWord(At(base, Open(ch, hc, wc), event, n, c, last), w) ==
            (At(base, Open(ch.(sample := Wrap(ch.sample + w % 0x1000)), hc + 1, wc + 1), event, n + 1, c + w, Short(w)),
             Accepted)
  {
    hide Class, RollOver, OpenPulse, StorePulse, Continue, BackOdd, TimeUpper;
    ClassIs(last);
    ClassIs(Short(w));
    WrapAdd(n, 1);
    WrapAdd(c, w);
  }

  /** The word behind a pulse's last word that is neither padding nor a header: the channel
      goes on, and nothing is read from this word. */
  lemma GoOnStep(base: State, event: seq<Pulse>, n: nat, c: nat, last: Word, w: u16)
    requires EndsPulse(last) && IsData(Short(w)) && w != 0x8000 && event != []
    ensures var prev := event[|event| - 1];
            var ch := Pulse(prev.number, prev.disc, 0xff, 0xff, 0xffff_ffff, 0xffff_ffff, []);
            ChWord(At(base, NOTHING_OPEN, event, n, c, last), w) ==
            (At(base, Open(ch, 1, 0), event, n + 1, c + w, Short(w)), Accepted)
  {
    hide Class;
    ClassIs(last);
    ClassIs(Short(w));
    WrapAdd(n, 1);
    WrapAdd(c, w);
  }

  /** Samples and last word behind the time words. */
  lemma TailRun(base: State, ch: Pulse, k: nat, event: seq<Pulse>, n: nat, c: nat, last: Word, samples: seq<u12>,
                lastField: u12)
    requires IsData(last) && k > 0 && ch.samples == []
    ensures var ws := SampleWords(samples, k) + [Tagged(11, lastField)];
            Feed(ChWord, At(base, Open(ch, 3, k - 1), event, n, c, last), ws) ==
            (At(base, NOTHING_OPEN, event + [Closed(ch.(samples := samples), base.header)],
                n + |ws|, c + Sum(ws), Short(Tagged(11, lastField))), Accepted)
  {
    hide ChWord, Class, Wrap, At, SampleWords, Tagged;
    ClassIs(last);
    var p := Shot(0, 0, 0, 0, samples, lastField);
    var body, s := SampleWords(samples, k), At(base, Open(ch, 3, k - 1), event, n, c, last);
    NeverBlocked(base.checkOverflow, k, k + |samples|);
    assert s == Mid(base, ch, 0, [], k, event, n, c, last);
    var last' := SamplesRun(base, ch, 0, [], k, event, n, c, last, samples);
    assert [] + samples == samples;
    LastStep(base, Open(ch.(samples := samples), 3, k - 1 + |body|), event, n + |body|, c + Sum(body), last', p);
    FeedAppend(ChWord, s, body, [LastWord(p)]);
    FeedOne(ChWord, Feed(ChWord, s, body).0, LastWord(p));
    SumAppend(body, [LastWord(p)]);
    SumOne(LastWord(p));
  }

  /** A pulse without a header has the number and the discriminator of the one before and no
      frame; its first word is passed over, the next two count from the invalid sample. */
  lemma HeaderlessRun(base: State, event: seq<Pulse>, n: nat, c: nat, last: Word, w0: u16, w1: u16, w2: u16,
                      samples: seq<u12>, lastField: u12)
    requires EndsPulse(last) && event != [] && w0 != 0x8000
    requires IsData(Short(w0)) && IsData(Short(w1)) && IsData(Short(w2))
    ensures var prev := event[|event| - 1];
            var ws := [w0, w1, w2] + (SampleWords(samples, 3) + [Tagged(11, lastField)]);
            var sample := Wrap(Wrap(0xffff_ffff + w1 % 0x1000) + w2 % 0x1000);
            var pulse := Pulse(prev.number, prev.disc, base.header.moduleAddress, base.header.moduleId,
                               0xffff_ffff, sample, samples);
            Feed(ChWord, At(base, NOTHING_OPEN, event, n, c, last), ws) ==
            (At(base, NOTHING_OPEN, event + [pulse], n + |ws|, c + Sum(ws), Short(Tagged(11, lastField))), Accepted)
  {
    hide ChWord, Class, Wrap, At, SampleWords, Tagged;
    var prev := event[|event| - 1];
    var ch := Pulse(prev.number, prev.disc, 0xff, 0xff, 0xffff_ffff, 0xffff_ffff, []);
    var ch1 := ch.(sample := Wrap(0xffff_ffff + w1 % 0x1000));
    var ch2 := ch1.(sample := Wrap(ch1.sample + w2 % 0x1000));
    var start, rest := [w0, w1, w2], SampleWords(samples, 3) + [Tagged(11, lastField)];
    var s := At(base, NOTHING_OPEN, event, n, c, last);
    GoOnStep(base, event, n, c, last, w0);
    TimeStep(base, ch, 1, 0, event, n + 1, c + w0, Short(w0), w1);
    TimeStep(base, ch1, 2, 1, event, n + 2, c + w0 + w1, Short(w1), w2);
    FeedThree(s, w0, w1, w2);
    TailRun(base, ch2, 3, event, n + 3, c + w0 + w1 + w2, Short(w2), samples, lastField);
    FeedAppend(ChWord, s, start, rest);
    SumThree(w0, w1, w2);
    SumAppend(start, rest);
  }

  lemma FeedThree(s: State, a: u16, b: u16, c: u16)
    ensures var (s1, o1) := ChWord(s, a);
            var (s2, o2) := ChWord(s1, b);
            o1 == Accepted && o2 == Accepted ==> Feed(ChWord, s, [a, b, c]) == ChWord(s2, c)
  {
    hide ChWord;
    FeedTwo(ChWord, s, [a, b, c]);
    assert [a, b, c][2..] == [c];
    FeedOne(ChWord, ChWord(ChWord(s, a).0, b).0, c);
  }

  /** Behind padding such words start a pulse of no channel at all, with three time words. */
  lemma NamelessRun(base: State, event: seq<Pulse>, n: nat, c: nat, w1: u16, w2: u16, w3: u16, samples: seq<u12>,
                    lastField: u12)
    requires IsData(Short(w1)) && IsData(Short(w2)) && IsData(Short(w3))
    ensures var ws := [w1, w2, w3] + (SampleWords(samples, 4) + [Tagged(11, lastField)]);
            var sample := Wrap(Wrap(Wrap(0xffff_ffff + w1 % 0x1000) + w2 % 0x1000) + w3 % 0x1000);
            var pulse := Pulse(0xffff, 5, base.header.moduleAddress, base.header.moduleId,
                               0xffff_ffff, sample, samples);
            Feed(ChWord, At(base, NOTHING_OPEN, event, n, c, Word(0, 0x8000)), ws) ==
            (At(base, NOTHING_OPEN, event + [pulse], n + |ws|, c + Sum(ws), Short(Tagged(11, lastField))), Accepted)
  {
    hide ChWord, Class, Wrap, At, SampleWords, Tagged;
    var ch := Pulse(0xffff, 5, 0xff, 0xff, 0xffff_ffff, 0xffff_ffff, []);
    assert NOTHING_OPEN == Open(ch, 0, 0);
    var ch1 := ch.(sample := Wrap(0xffff_ffff + w1 % 0x1000));
    var ch2 := ch1.(sample := Wrap(ch1.sample + w2 % 0x1000));
    var ch3 := ch2.(sample := Wrap(ch2.sample + w3 % 0x1000));
    var start, rest := [w1, w2, w3], SampleWords(samples, 4) + [Tagged(11, lastField)];
    var s := At(base, NOTHING_OPEN, event, n, c, Word(0, 0x8000));
    TimeStep(base, ch, 0, 0, event, n, c, Word(0, 0x8000), w1);
    TimeStep(base, ch1, 1, 1, event, n + 1, c + w1, Short(w1), w2);
    TimeStep(base, ch2, 2, 2, event, n + 2, c + w1 + w2, Short(w2), w3);
    FeedThree(s, w1, w2, w3);
    TailRun(base, ch3, 4, event, n + 3, c + w1 + w2 + w3, Short(w3), samples, lastField);
    FeedAppend(ChWord, s, start, rest);
    SumThree(w1, w2, w3);
    SumAppend(start, rest);
  }

  // ----- behind a refused word -----

  /** In debug mode a refused word clears the event and starts the search for a header. */
  lemma RefusedExactly(s: State, w: Word)
    requires Step(s, w).1 == Rejected
    ensures var t := Step(s, w).0;
            && t.searching == s.debug && t.debug == s.debug
            && (s.debug ==>
                  && t.header == BLANK_HEADER && t.headerCount == 0 && t.ch == BLANK_PULSE && t.chHeaderCount == 0
                  && t.wordsInCh == 0 && (s.event.Some? ==> t.event == Some([]))
                  && (s.event.None? ==> t.event == None))
  {
    hide Class, Dispatch;
    DispatchMode(s.(searching := false), w);
  }

  lemma DispatchMode(s: State, w: Word)
    ensures var t := Dispatch(s, w).0;
            && t.debug == s.debug && t.searching == s.searching && (s.event.Some? ==> t.event.Some?)
            && (Dispatch(s, w).1 == Rejected ==> t.event.Some? == s.event.Some?)
  {
    hide Class, ChWord, FemLastStep, DecodeHeader, DecodeFields;
    ChWordMode(s, w.lo);
    ChWordMode(ChWord(s, w.lo).0, w.hi);
    LastMode(ChWord(s, w.lo).0, w.hi);
  }

  lemma LastMode(s: State, w: u16)
    ensures var t := FemLastStep(s, w).0;
            t.debug == s.debug && t.searching == s.searching && t.event.Some? == s.event.Some?
  {
    hide Class;
  }

  lemma ChWordMode(s: State, w: u16)
    ensures var t := ChWord(s, w).0;
            t.debug == s.debug && t.searching == s.searching && t.event.Some? == s.event.Some?
  {
    hide Class, ReadAndConclude;
    ReadMode(s, w, Accepted);
    ReadMode(s, w, Rejected);
    if BackOdd(s).Some? {
      ReadMode(Continue(s), w, Accepted);
    }
  }

  lemma ReadMode(s: State, w: u16, before: Outcome)
    ensures var t := ReadAndConclude(s, w, before).0;
            t.debug == s.debug && t.searching == s.searching && t.event.Some? == s.event.Some?
  {
    hide Class, ReadWord, MarkerMissing;
    ReadWordMode(s, w);
  }

  lemma ReadWordMode(s: State, w: u16)
    ensures var t := ReadWord(s, w).0;
            t.debug == s.debug && t.searching == s.searching && t.event == s.event
  {
    hide Class, RollOver, Wrap;
  }

  /** The search ends at a header word that does not come right behind another. */
  lemma SearchStep(s: State, w: Word)
    requires s.searching
    ensures if LooksLikeHeader(w) && !LooksLikeHeader(s.last) then Step(s, w) == Step(s.(searching := false), w)
            else Step(s, w) == (s.(last := ALL_ONES), Accepted)
  {
    hide Class, Dispatch;
    ClassIs(w);
    ClassIs(s.last);
  }

  lemma {:induction false} SearchRun(s: State, ws: seq<Word>)
    requires s.searching && forall i :: 0 <= i < |ws| ==> !LooksLikeHeader(ws[i])
    ensures Run(s, ws) == (if ws == [] then s else s.(last := ALL_ONES), Accepted)
    decreases |ws|
  {
    hide Step;
    if ws != [] {
      SearchStep(s, ws[0]);
      SearchRun(Step(s, ws[0]).0, ws[1..]);
    }
  }

  /** In debug mode everything behind a refused word is passed over up to a header word (but
      not one right behind a refused header word); from there on all carried packets of this
      event and of those behind it are stored. */
  lemma Recovers(s: State, w: Word, junk: seq<Word>, p: Packet, ps: seq<Packet>, events: seq<seq<Packet>>)
    requires s.debug && s.event.Some? && Step(s, w).1 == Rejected
    requires forall i :: 0 <= i < |junk| ==> !LooksLikeHeader(junk[i])
    requires junk != [] || !LooksLikeHeader(Step(s, w).0.last)
    requires Good(p) && AllGood(Pmt(), ps) && ps != [] && GoodEvents(Pmt(), events)
    ensures var t := Step(s, w).0;
            var words := junk + PacketWords(p) + PacketsWords(Pmt(), ps) + [EVENT_LAST] + Stream(Pmt(), events);
            var (u, o) := Run(t, words);
            && o == Accepted
            && u.log == t.log + [Expected(p)] + StoredAll(Pmt(), ps) + ExpectedLog(Pmt(), events)
  {
    hide Step, Stream, ExpectedLog, GoodEvents, AllGood, PacketsWords, StoredAll, Sound, PacketWords, Idle, Between,
         Behind, Carried, FirstBlocked, Expected;
    var t := Step(s, w).0;
    RefusedExactly(s, w);
    SearchRun(t, junk);
    var t1 := Run(t, junk).0;
    PacketFound(t1, p);
    var t2 := Run(t1, PacketWords(p)).0;
    PmtSound();
    PacketsRun(Pmt(), t2, ps);
    var t3 := Run(t2, PacketsWords(Pmt(), ps)).0;
    assert Closes(Pmt(), t3) by { SoundCloses(t3); }
    StreamRun(Pmt(), Step(t3, EVENT_LAST).0, events);
    FeedOne(Step, t3, EVENT_LAST);
    FeedAppend(Step, t, junk, PacketWords(p));
    FeedAppend(Step, t, junk + PacketWords(p), PacketsWords(Pmt(), ps));
    FeedAppend(Step, t, junk + PacketWords(p) + PacketsWords(Pmt(), ps), [EVENT_LAST]);
    FeedAppend(Step, t, junk + PacketWords(p) + PacketsWords(Pmt(), ps) + [EVENT_LAST], Stream(Pmt(), events));
  }

  lemma SoundCloses(s: State)
    requires Idle(s) && Behind(s)
    ensures Closes(Pmt(), s)
  {
    EndWordCloses(s);
  }

  /** The packet at which the search ends. */
  lemma PacketFound(s: State, p: Packet)
    requires s.searching && s.headerCount == 0 && s.event == Some([]) && s.wordsInCh == 0 && Good(p)
    requires !LooksLikeHeader(s.last)
    ensures var (t, o) := Run(s, PacketWords(p));
            o == Accepted && t.log == s.log + [Expected(p)] && Idle(t) && Behind(t)
  {
    hide Step, PacketWords, Idle, Behind, Carried, FirstBlocked, Sent;
    var s' := s.(searching := false);
    NoneBlocked(s.checkOverflow, p.shots);
    GoodPacketRun(s', p);
    assert [] + Sent(p.shots, HeaderOf(p)) == Sent(p.shots, HeaderOf(p));
    FirstIsHeader(p);
    SearchStep(s, PacketWords(p)[0]);
  }

  lemma FirstIsHeader(p: Packet)
    requires WellFormed(p)
    ensures PacketWords(p) != [] && LooksLikeHeader(PacketWords(p)[0])
  {
    hide FieldWord, TriggerWord, PackPairs, FirstWord;
    var h := HeaderOf(p);
    assert PacketWords(p)[0] == EncodeHeader(h)[0];
    HeaderWordsTagged(h);
    FirstWordRoundTrip(h.moduleAddress, h.moduleId);
  }
}
