/** Single pulses, and lists of them, through the PMT state machine. */
module PmtPackets {
  import opened Division
  import opened Words
  import opened FemHeader
  import opened Machine
  import opened PmtSpec

  /** One readout of one channel; the last word's own field is not a sample. */
  datatype Shot = Shot(number: u32, disc: nat, frame: u32, sample: u32, samples: seq<u12>, lastField: u12)

  predicate ValidShot(p: Shot) { p.number < 64 && p.disc < 8 && p.sample < 0x2_0000 }

  predicate ValidShots(ps: seq<Shot>) { forall i :: 0 <= i < |ps| ==> ValidShot(ps[i]) }

  /** Every eighth word of a channel carries the bit marker. */
  function MarkerTag(k: nat): int { if k % 8 == 0 then 8 else 10 }

  function OpenWord(p: Shot): u16
    requires ValidShot(p)
  {
    Tagged(9, p.disc * 512 + p.number)
  }

  function UpperWord(p: Shot): u16
    requires ValidShot(p)
  {
    Tagged(10, p.frame % 8 * 32 + p.sample / 0x1000)
  }

  function LowerWord(p: Shot): u16
    requires ValidShot(p)
  {
    Tagged(10, p.sample % 0x1000)
  }

  /** Samples from the `k`-th word of the channel on. */
  function SampleWords(samples: seq<u12>, k: nat): (ws: seq<u16>)
    ensures |ws| == |samples|
    decreases |samples|
  {
    if samples == [] then [] else [Tagged(MarkerTag(k), samples[0])] + SampleWords(samples[1..], k + 1)
  }

  function LastWord(p: Shot): u16 { Tagged(11, p.lastField) }

  function PadWords(p: Shot): seq<u16> { if |p.samples| % 2 == 1 then [PADDING] else [] }

  /** An odd number of samples is made up by a padding word. */
  function ShotWords(p: Shot): seq<u16>
    requires ValidShot(p)
  {
    [OpenWord(p), UpperWord(p), LowerWord(p)] + SampleWords(p.samples, 3) + [LastWord(p)] + PadWords(p)
  }

  function ShotsWords(ps: seq<Shot>): seq<u16>
    requires ValidShots(ps)
  {
    if ps == [] then [] else ShotWords(ps[0]) + ShotsWords(ps[1..])
  }

  /** The pulse as stored, with the frame that its three sent bits give. */
  function PulseOf(p: Shot, h: HeaderInfo, frame: u32): Pulse
  {
    Pulse(p.number, p.disc, h.moduleAddress, h.moduleId, frame, p.sample, p.samples)
  }

  function FrameOf(p: Shot, h: HeaderInfo): Option<u32> { RollOver(h.frame, p.frame % 8, 3) }

  /** The pulses as stored; `None` when some frame throws. */
  function Pulses(ps: seq<Shot>, h: HeaderInfo): Option<seq<Pulse>>
  {
    if ps == [] then Some([])
    else
      match (FrameOf(ps[0], h), Pulses(ps[1..], h))
      case (Some(f), Some(rest)) => Some([PulseOf(ps[0], h, f)] + rest)
      case _ => None
  }

  // ----- the bit marker -----

  /** The overflow check asks for a marker on the `k`-th word of a pulse, which has none,
      when `wc` words of a pulse that was cut off are still counted. */
  predicate MarkerDue(wc: nat, k: nat) {
    (wc + k) % 0x1_0000 != 0 && (wc + k) % 8 == 0 && k % 8 != 0
  }

  /** The check refuses one of the words `from` to `to` of a pulse. */
  predicate Blocked(check: bool, wc: nat, from: nat, to: nat) {
    check && exists k :: from <= k < to && MarkerDue(wc, k)
  }

  /** It refuses a word of the first pulse; later ones are counted from zero. */
  predicate FirstBlocked(check: bool, wc: nat, ps: seq<Shot>) {
    ps != [] && Blocked(check, wc, 1, 3 + |ps[0].samples|)
  }

  lemma BlockedParts(check: bool, wc: nat, from: nat, mid: nat, to: nat)
    requires from <= mid <= to
    ensures Blocked(check, wc, from, to) <==> Blocked(check, wc, from, mid) || Blocked(check, wc, mid, to)
  {
    hide MarkerDue;
  }

  lemma BlockedOne(check: bool, wc: nat, k: nat)
    ensures Blocked(check, wc, k, k + 1) <==> check && MarkerDue(wc, k)
  {
    hide MarkerDue;
  }

  lemma NeverBlocked(check: bool, from: nat, to: nat)
    ensures !Blocked(check, 0, from, to)
  {
  }

  // ----- one pulse -----

  /** The pulse under way, how much of its channel header is read, and its words. */
  datatype Open = Open(ch: Pulse, hc: nat, wc: nat)

  const NOTHING_OPEN := Open(BLANK_PULSE, 0, 0)

  function At(base: State, open: Open, event: seq<Pulse>, n: nat, c: nat, last: Word): State
  {
    base.(ch := open.ch, chHeaderCount := open.hc, wordsInCh := open.wc % 0x1_0000, event := Some(event),
    nwords := Wrap(n), checksum := Wrap(c), last := last)
  }

  /** The word was refused or threw, and nothing was stored. */
  predicate Stopped(base: State, r: (State, Outcome)) { r.1 in {Rejected, Threw} && r.0.log == base.log }

  /** A place where a new pulse, or the end of the packet, may follow. */
  predicate Boundary(event: seq<Pulse>, last: Word) {
    || Class(last) == FemFirstWord
    || Class(last) == ChannelLastWord
    || (last == Short(PADDING) && event != [] && |event[|event| - 1].samples| % 2 == 1)
  }

  /** Whatever pulse was under way is given up, but not the count of its words. */
  lemma OpenStep(base: State, open: Open, event: seq<Pulse>, n: nat, c: nat, last: Word, p: Shot)
    requires Boundary(event, last) && ValidShot(p)
    ensures var w := OpenWord(p);
            var ch := BLANK_PULSE.(number := p.number, disc := p.disc);
            && ChWord(At(base, open, event, n, c, last), w) ==
               (At(base, Open(ch, 1, open.wc), event, n + 1, c + w, Short(w)), Accepted)
            && Class(Short(w)) == ChannelHeader
  {
    var x := p.disc * 512 + p.number;
    TaggedParts(9, x);
    DivMod(OpenWord(p), 64, 9 * 64 + p.disc * 8, p.number);
    DivMod(x, 512, p.disc, p.number);
    WrapAdd(n, 1);
    WrapAdd(c, OpenWord(p));
  }

  lemma UpperParts(p: Shot)
    requires ValidShot(p)
    ensures var w := UpperWord(p);
            && w % 32 == p.sample / 0x1000 && w % 256 / 32 == p.frame % 8
            && Class(Short(w)) == ChannelWord && Tag(w) == 10
  {
    var bits, coarse := p.frame % 8, p.sample / 0x1000;
    var x := bits * 32 + coarse;
    TaggedParts(10, x);
    DivMod(UpperWord(p), 32, 10 * 128 + bits, coarse);
    DivMod(UpperWord(p), 256, 10 * 16, x);
    DivMod(x, 32, bits, coarse);
  }

  lemma UpperStep(base: State, ch: Pulse, wc: nat, event: seq<Pulse>, n: nat, c: nat, last: Word, p: Shot)
    requires Class(last) == ChannelHeader && ValidShot(p) && base.header.frame != INVALID_WORD
    ensures var w := UpperWord(p);
            var r := ChWord(At(base, Open(ch, 1, wc), event, n, c, last), w);
            var f := FrameOf(p, base.header);
            if f.None? || Blocked(base.checkOverflow, wc, 1, 2) then Stopped(base, r)
            else
              var ch' := ch.(sample := p.sample / 0x1000 * 0x1000, frame := f.value);
              r == (At(base, Open(ch', 2, wc + 1), event, n + 1, c + w, Short(w)), Accepted)
  {
    hide RollOver, Blocked;
    UpperParts(p);
    CountMod(wc);
    BlockedOne(base.checkOverflow, wc, 1);
    WrapAdd(n, 1);
    WrapAdd(c, UpperWord(p));
  }

  lemma LowerStep(base: State, ch: Pulse, wc: nat, event: seq<Pulse>, n: nat, c: nat, last: Word, p: Shot)
    requires Class(last) == ChannelWord && ValidShot(p) && ch.sample == p.sample / 0x1000 * 0x1000
    ensures var w := LowerWord(p);
            var r := ChWord(At(base, Open(ch, 2, wc + 1), event, n, c, last), w);
            if Blocked(base.checkOverflow, wc, 2, 3) then Stopped(base, r)
            else r == (At(base, Open(ch.(sample := p.sample), 3, wc + 2), event, n + 1, c + w, Short(w)), Accepted)
  {
    hide Blocked;
    TaggedParts(10, p.sample % 0x1000);
    CountMod(wc + 1);
    BlockedOne(base.checkOverflow, wc, 2);
    DivMod(p.sample, 0x1_0000_0000, 0, p.sample);
    WrapAdd(n, 1);
    WrapAdd(c, LowerWord(p));
  }

  lemma LowerClass(p: Shot)
    requires ValidShot(p)
    ensures Class(Short(LowerWord(p))) == ChannelWord
  {
    TaggedParts(10, p.sample % 0x1000);
  }

  lemma CountMod(k: nat)
    ensures (k % 0x1_0000 + 1) % 0x1_0000 == (k + 1) % 0x1_0000
    ensures (k + 1) % 0x1_0000 % 8 == (k + 1) % 8
  {
    var q, r := (k + 1) / 0x1_0000, (k + 1) % 0x1_0000;
    DivMod(k + 1, 8, q * 0x2000 + r / 8, r % 8);
    if r == 0 {
      DivMod(k, 0x1_0000, q - 1, 0xffff);
    } else {
      DivMod(k, 0x1_0000, q, r - 1);
    }
  }

  /** The state with `got` of the pulse's samples read, the `k`-th word being next. */
  function Mid(base: State, ch: Pulse, wc: nat, got: seq<u16>, k: nat, event: seq<Pulse>, n: nat, c: nat, last: Word)
    : State
    requires k > 0
  {
    At(base, Open(ch.(samples := got), 3, wc + k - 1), event, n, c, last)
  }

  lemma SampleStep(base: State, ch: Pulse, wc: nat, got: seq<u16>, k: nat, event: seq<Pulse>, n: nat, c: nat,
                   last: Word, v: u12)
    requires Class(last) == ChannelWord && k > 0
    ensures var w := Tagged(MarkerTag(k), v);
            var r := ChWord(Mid(base, ch, wc, got, k, event, n, c, last), w);
            && Class(Short(w)) == ChannelWord
            && if Blocked(base.checkOverflow, wc, k, k + 1) then Stopped(base, r)
               else r == (Mid(base, ch, wc, got + [v], k + 1, event, n + 1, c + w, Short(w)), Accepted)
  {
    hide Blocked;
    TaggedParts(MarkerTag(k), v);
    CountMod(wc + k - 1);
    BlockedOne(base.checkOverflow, wc, k);
    WrapAdd(n, 1);
    WrapAdd(c, Tagged(MarkerTag(k), v));
  }

  function Closed(ch: Pulse, h: HeaderInfo): Pulse { ch.(moduleId := h.moduleId, moduleAddress := h.moduleAddress) }

  lemma LastStep(base: State, open: Open, event: seq<Pulse>, n: nat, c: nat, last: Word, p: Shot)
    requires Class(last) == ChannelWord && open.hc == 3
    ensures var w := LastWord(p);
            && ChWord(At(base, open, event, n, c, last), w) ==
               (At(base, NOTHING_OPEN, event + [Closed(open.ch, base.header)], n + 1, c + w, Short(w)), Accepted)
            && Class(Short(w)) == ChannelLastWord
  {
    TaggedParts(11, p.lastField);
    WrapAdd(n, 1);
    WrapAdd(c, LastWord(p));
  }

  lemma PadStep(base: State, event: seq<Pulse>, n: nat, c: nat, last: Word)
    requires Class(last) == ChannelLastWord && event != [] && |event[|event| - 1].samples| % 2 == 1
    ensures ChWord(At(base, NOTHING_OPEN, event, n, c, last), PADDING) ==
            (At(base, NOTHING_OPEN, event, n + 1, c + PADDING, Short(PADDING)), Accepted)
  {
    WrapAdd(n, 1);
    WrapAdd(c, PADDING);
  }

  lemma SampleWordsCons(samples: seq<u12>, k: nat)
    requires samples != []
    ensures var ws, rest := SampleWords(samples, k), SampleWords(samples[1..], k + 1);
            ws[0] == Tagged(MarkerTag(k), samples[0]) && ws[1..] == rest && Sum(ws) == ws[0] + Sum(rest)
  {
    var w := Tagged(MarkerTag(k), samples[0]);
    SumAppend([w], SampleWords(samples[1..], k + 1));
    SumOne(w);
  }

  lemma MoveOne(got: seq<u16>, samples: seq<u12>)
    requires samples != []
    ensures got + [samples[0]] + samples[1..] == got + samples
  {
  }

  lemma {:induction false} SamplesRun(base: State, ch: Pulse, wc: nat, got: seq<u16>, k: nat, event: seq<Pulse>,
                                      n: nat, c: nat, last: Word, samples: seq<u12>) returns (last': Word)
    requires Class(last) == ChannelWord && k > 0
    ensures var ws := SampleWords(samples, k);
            var r := Feed(ChWord, Mid(base, ch, wc, got, k, event, n, c, last), ws);
            if Blocked(base.checkOverflow, wc, k, k + |samples|) then Stopped(base, r)
            else
              r == (Mid(base, ch, wc, got + samples, k + |ws|, event, n + |ws|, c + Sum(ws), last'), Accepted)
    ensures Class(last') == ChannelWord
    decreases |samples|
  {
    hide ChWord, Class, Mid, Blocked;
    last' := last;
    if samples == [] {
      assert got + samples == got;
      assert !Blocked(base.checkOverflow, wc, k, k) by { EmptyNotBlocked(base.checkOverflow, wc, k); }
    } else {
      hide Tagged, Sum, SampleWords;
      SampleWordsCons(samples, k);
      var w := Tagged(MarkerTag(k), samples[0]);
      SampleStep(base, ch, wc, got, k, event, n, c, last, samples[0]);
      BlockedParts(base.checkOverflow, wc, k, k + 1, k + |samples|);
      if !Blocked(base.checkOverflow, wc, k, k + 1) {
        var next: seq<u16> := got + [samples[0]];
        last' := SamplesRun(base, ch, wc, next, k + 1, event, n + 1, c + w, Short(w), samples[1..]);
        MoveOne(got, samples);
      }
    }
  }

  lemma EmptyNotBlocked(check: bool, wc: nat, k: nat)
    ensures !Blocked(check, wc, k, k)
  {
  }

  lemma SumThree(a: u16, b: u16, c: u16)
    ensures Sum([a, b, c]) == a + b + c
  {
    SumAppend([a], [b]);
    SumAppend([a] + [b], [c]);
    SumOne(a);
    SumOne(b);
    SumOne(c);
    assert [a] + [b] + [c] == [a, b, c];
  }

  /** The pulse with its number and time read. */
  function Begun(p: Shot, frame: u32): Pulse
  {
    BLANK_PULSE.(number := p.number, disc := p.disc, sample := p.sample, frame := frame)
  }

  function StartWords(p: Shot): seq<u16>
    requires ValidShot(p)
  {
    [OpenWord(p), UpperWord(p), LowerWord(p)]
  }

  /** Header and time words: the pulse begins, or its frame throws, or a marker is missed. */
  lemma StartRun(base: State, open: Open, event: seq<Pulse>, n: nat, c: nat, last: Word, p: Shot)
    requires Boundary(event, last) && ValidShot(p) && base.header.frame != INVALID_WORD
    ensures var ws := StartWords(p);
            var r := Feed(ChWord, At(base, open, event, n, c, last), ws);
            var f := FrameOf(p, base.header);
            && Class(Short(LowerWord(p))) == ChannelWord
            && if f.None? || Blocked(base.checkOverflow, open.wc, 1, 3) then Stopped(base, r)
               else
                 var begun := Open(Begun(p, f.value), 3, open.wc + 2);
                 r == (At(base, begun, event, n + 3, c + Sum(ws), Short(LowerWord(p))), Accepted)
  {
    hide ChWord, Class, Wrap, At, FrameOf, Boundary, Blocked;
    var wc := open.wc;
    var ws := StartWords(p);
    var s := At(base, open, event, n, c, last);
    var ch1 := BLANK_PULSE.(number := p.number, disc := p.disc);
    OpenStep(base, open, event, n, c, last, p);
    UpperStep(base, ch1, wc, event, n + 1, c + ws[0], Short(ws[0]), p);
    FeedTwo(ChWord, s, ws);
    SumThree(ws[0], ws[1], ws[2]);
    UpperParts(p);
    LowerClass(p);
    BlockedParts(base.checkOverflow, wc, 1, 2, 3);
    if FrameOf(p, base.header).Some? && !Blocked(base.checkOverflow, wc, 1, 2) {
      var ch2 := ch1.(sample := p.sample / 0x1000 * 0x1000, frame := FrameOf(p, base.header).value);
      LowerStep(base, ch2, wc, event, n + 2, c + ws[0] + ws[1], Short(ws[1]), p);
      assert ws[2..] == [ws[2]];
      FeedOne(ChWord, At(base, Open(ch2, 2, wc + 1), event, n + 2, c + ws[0] + ws[1], Short(ws[1])), ws[2]);
    }
  }

  /** Padding, when the pulse just stored is odd. */
  lemma PadRun(base: State, event: seq<Pulse>, n: nat, c: nat, last: Word, p: Shot) returns (last': Word)
    requires Class(last) == ChannelLastWord && event != [] && event[|event| - 1].samples == p.samples
    ensures var ws := PadWords(p);
            Feed(ChWord, At(base, NOTHING_OPEN, event, n, c, last), ws) ==
            (At(base, NOTHING_OPEN, event, n + |ws|, c + Sum(ws), last'), Accepted)
    ensures Boundary(event, last')
  {
    hide ChWord, Class, Wrap, At;
    last' := last;
    if |p.samples| % 2 == 1 {
      PadStep(base, event, n, c, last);
      FeedOne(ChWord, At(base, NOTHING_OPEN, event, n, c, last), PADDING);
      SumOne(PADDING);
      last' := Short(PADDING);
    }
  }

  /** A pulse up to its last sample. */
  function SampledWords(p: Shot): seq<u16>
    requires ValidShot(p)
  {
    StartWords(p) + SampleWords(p.samples, 3)
  }

  lemma StoppedStays(base: State, s: State, a: seq<u16>, b: seq<u16>)
    requires Stopped(base, Feed(ChWord, s, a))
    ensures Stopped(base, Feed(ChWord, s, a + b))
  {
    FeedAppend(ChWord, s, a, b);
  }

  lemma SampledRun(base: State, open: Open, event: seq<Pulse>, n: nat, c: nat, last: Word, p: Shot)
    returns (last': Word)
    requires Boundary(event, last) && ValidShot(p) && base.header.frame != INVALID_WORD
    ensures var ws := SampledWords(p);
            var r := Feed(ChWord, At(base, open, event, n, c, last), ws);
            var f := FrameOf(p, base.header);
            if f.None? || Blocked(base.checkOverflow, open.wc, 1, 3 + |p.samples|) then Stopped(base, r)
            else
              && r == (At(base, Open(Begun(p, f.value).(samples := p.samples), 3, open.wc + 2 + |p.samples|), event,
                          n + |ws|, c + Sum(ws), last'), Accepted)
              && Class(last') == ChannelWord
  {
    hide ChWord, Class, Wrap, At, FrameOf, Boundary, Blocked, SampleWords, Stopped;
    var wc, start, body := open.wc, StartWords(p), SampleWords(p.samples, 3);
    var s := At(base, open, event, n, c, last);
    StartRun(base, open, event, n, c, last, p);
    BlockedParts(base.checkOverflow, wc, 1, 3, 3 + |p.samples|);
    last' := last;
    if FrameOf(p, base.header).None? || Blocked(base.checkOverflow, wc, 1, 3) {
      StoppedStays(base, s, start, body);
    } else {
      var ch := Begun(p, FrameOf(p, base.header).value);
      var lower := Short(LowerWord(p));
      FeedAppend(ChWord, s, start, body);
      assert At(base, Open(ch, 3, wc + 2), event, n + 3, c + Sum(start), lower)
          == Mid(base, ch, wc, [], 3, event, n + 3, c + Sum(start), lower);
      last' := SamplesRun(base, ch, wc, [], 3, event, n + 3, c + Sum(start), lower, p.samples);
      assert [] + p.samples == p.samples;
      SumAppend(start, body);
    }
  }

  /** A whole pulse but its padding. */
  lemma UnpaddedRun(base: State, open: Open, event: seq<Pulse>, n: nat, c: nat, last: Word, p: Shot)
    requires Boundary(event, last) && ValidShot(p) && base.header.frame != INVALID_WORD
    ensures var ws := SampledWords(p) + [LastWord(p)];
            var r := Feed(ChWord, At(base, open, event, n, c, last), ws);
            var f := FrameOf(p, base.header);
            && Class(Short(LastWord(p))) == ChannelLastWord
            && if f.None? || Blocked(base.checkOverflow, open.wc, 1, 3 + |p.samples|) then Stopped(base, r)
               else
                 r == (At(base, NOTHING_OPEN, event + [PulseOf(p, base.header, f.value)], n + |ws|, c + Sum(ws),
                          Short(LastWord(p))), Accepted)
  {
    hide ChWord, Class, Wrap, At, FrameOf, Boundary, Blocked, SampledWords, Stopped, LastWord;
    var s, body := At(base, open, event, n, c, last), SampledWords(p);
    var last' := SampledRun(base, open, event, n, c, last, p);
    LastClass(p);
    if FrameOf(p, base.header).None? || Blocked(base.checkOverflow, open.wc, 1, 3 + |p.samples|) {
      StoppedStays(base, s, body, [LastWord(p)]);
    } else {
      var ch := Begun(p, FrameOf(p, base.header).value).(samples := p.samples);
      var full := Open(ch, 3, open.wc + 2 + |p.samples|);
      LastStep(base, full, event, n + |body|, c + Sum(body), last', p);
      FeedAppend(ChWord, s, body, [LastWord(p)]);
      FeedOne(ChWord, Feed(ChWord, s, body).0, LastWord(p));
      SumAppend(body, [LastWord(p)]);
      SumOne(LastWord(p));
    }
  }

  lemma LastClass(p: Shot)
    ensures Class(Short(LastWord(p))) == ChannelLastWord
  {
    TaggedParts(11, p.lastField);
  }

  /** One pulse, behind any unfinished one. */
  lemma ShotRun(base: State, open: Open, event: seq<Pulse>, n: nat, c: nat, last: Word, p: Shot)
    returns (last': Word)
    requires Boundary(event, last) && ValidShot(p) && base.header.frame != INVALID_WORD
    ensures var ws := ShotWords(p);
            var r := Feed(ChWord, At(base, open, event, n, c, last), ws);
            var f := FrameOf(p, base.header);
            if f.None? || Blocked(base.checkOverflow, open.wc, 1, 3 + |p.samples|) then Stopped(base, r)
            else
              var event' := event + [PulseOf(p, base.header, f.value)];
              && r == (At(base, NOTHING_OPEN, event', n + |ws|, c + Sum(ws), last'), Accepted)
              && Boundary(event', last')
  {
    hide ChWord, Class, Wrap, At, FrameOf, Boundary, Blocked, SampleWords, PadWords, Stopped, LastWord;
    var s, body := At(base, open, event, n, c, last), SampledWords(p) + [LastWord(p)];
    assert ShotWords(p) == body + PadWords(p);
    UnpaddedRun(base, open, event, n, c, last, p);
    last' := last;
    if FrameOf(p, base.header).None? || Blocked(base.checkOverflow, open.wc, 1, 3 + |p.samples|) {
      StoppedStays(base, s, body, PadWords(p));
    } else {
      var event' := event + [PulseOf(p, base.header, FrameOf(p, base.header).value)];
      last' := PadRun(base, event', n + |body|, c + Sum(body), Short(LastWord(p)), p);
      FeedAppend(ChWord, s, body, PadWords(p));
      SumAppend(body, PadWords(p));
    }
  }

  // ----- all pulses of a packet -----

  lemma {:induction false} ShotsRun(base: State, open: Open, event: seq<Pulse>, n: nat, c: nat, last: Word,
                                    ps: seq<Shot>) returns (open': Open, last': Word)
    requires Boundary(event, last) && ValidShots(ps) && base.header.frame != INVALID_WORD
    ensures var ws := ShotsWords(ps);
            var r := Feed(ChWord, At(base, open, event, n, c, last), ws);
            var pulses := Pulses(ps, base.header);
            if pulses.None? || FirstBlocked(base.checkOverflow, open.wc, ps) then Stopped(base, r)
            else
              && r == (At(base, open', event + pulses.value, n + |ws|, c + Sum(ws), last'), Accepted)
              && Boundary(event + pulses.value, last')
    ensures open' == if ps == [] then open else NOTHING_OPEN
    decreases |ps|
  {
    hide ChWord, Class, Wrap, At, FrameOf, Boundary, ShotWords, PulseOf, Blocked, Stopped;
    last' := last;
    open' := if ps == [] then open else NOTHING_OPEN;
    if ps == [] {
      assert event + [] == event;
    } else {
      var s := At(base, open, event, n, c, last);
      var ws, rest := ShotWords(ps[0]), ShotsWords(ps[1..]);
      last' := ShotRun(base, open, event, n, c, last, ps[0]);
      if FrameOf(ps[0], base.header).None? || FirstBlocked(base.checkOverflow, open.wc, ps) {
        StoppedStays(base, s, ws, rest);
      } else {
        FeedAppend(ChWord, s, ws, rest);
        NoneBlocked(base.checkOverflow, ps[1..]);
        var pulse := PulseOf(ps[0], base.header, FrameOf(ps[0], base.header).value);
        var _, last2 := ShotsRun(base, NOTHING_OPEN, event + [pulse], n + |ws|, c + Sum(ws), last', ps[1..]);
        last' := last2;
        SumAppend(ws, rest);
        if Pulses(ps[1..], base.header).Some? {
          AppendAssoc(event, [pulse], Pulses(ps[1..], base.header).value);
        }
      }
    }
  }

  lemma NoneBlocked(check: bool, ps: seq<Shot>)
    ensures !FirstBlocked(check, NOTHING_OPEN.wc, ps)
  {
    if ps != [] {
      NeverBlocked(check, 1, 3 + |ps[0].samples|);
    }
  }
}
