/** Packets that the PMT decoder loses, and packets that it stores with pulses of another. */
module PmtExamples {
  import opened Words
  import opened FemHeader
  import opened Machine
  import opened PmtSpec
  import opened PmtPackets
  import opened PmtRoundTrip
  import opened PmtCuts

  /** A packet of event frame 0 with one pulse. */
  function OnePulse(eventNumber: u32, trigFrame: u32, frame: u32, samples: seq<u12>): Packet {
    Packet(0, 0, eventNumber, 0, trigFrame, 0, 0, [Shot(1, 0, frame, 0, samples, 0)])
  }

  /** A new decoder behind an event marker. */
  function Opened(checkOverflow: bool): State { Step(Fresh(checkOverflow, false), ALL_ONES).0 }

  lemma OpenedIdle(checkOverflow: bool)
    ensures Idle(Opened(checkOverflow)) && Opened(checkOverflow).log == []
    ensures Opened(checkOverflow).checkOverflow == checkOverflow
  {
    StartsBetween(checkOverflow, false);
    MarkerOpens(Fresh(checkOverflow, false));
  }

  lemma {:induction false} SumBound(ws: seq<u16>)
    ensures Sum(ws) <= 0xffff * |ws|
  {
    if ws != [] {
      SumBound(ws[..|ws| - 1]);
    }
  }

  /** Few words cannot fill a header field. */
  lemma OnePulseFits(eventNumber: u32, trigFrame: u32, frame: u32, samples: seq<u12>)
    requires eventNumber < 0x100_0000 && |samples| <= 8
    ensures var p := OnePulse(eventNumber, trigFrame, frame, samples);
            WellFormed(p) && (FieldsClean(HeaderOf(p)) <==> eventNumber != 0xff_ffff)
  {
    hide ShotWords, Sum;
    var p := OnePulse(eventNumber, trigFrame, frame, samples);
    assert p.shots[1..] == [];
    assert ShotsWords(p.shots) == ShotWords(p.shots[0]) + [];
    OneShotWords(p.shots[0]);
    SumBound(CountedWords(p));
  }

  lemma OneShotWords(shot: Shot)
    requires ValidShot(shot) && |shot.samples| <= 8
    ensures |ShotWords(shot)| <= 13
  {
  }

  lemma SameFrameNear(frame: u32, half: int)
    requires half == 4 || half == 8
    ensures Near(frame, frame, half)
  {
    assert Wrap(0) == 0;
  }

  lemma OnePulseCarried(eventNumber: u32, samples: seq<u12>)
    requires eventNumber < 0xff_ffff && |samples| <= 8
    ensures Cuttable(OnePulse(eventNumber, 0, 0, samples))
  {
    hide Near;
    OnePulseFits(eventNumber, 0, 0, samples);
    SameFrameNear(0, 4);
    SameFrameNear(0, 8);
  }

  /** An event number of all ones makes a header word the event marker. */
  lemma DirtyPacket(checkOverflow: bool) returns (p: Packet)
    ensures p == OnePulse(0xff_ffff, 0, 0, [1]) && WellFormed(p) && !FieldsClean(HeaderOf(p))
    ensures Run(Opened(checkOverflow), PacketWords(p)).0.log == []
  {
    hide Run, Step, FieldsClean, Opened, PacketWords, FirstBlocked, HeaderOf;
    p := OnePulse(0xff_ffff, 0, 0, [1]);
    OnePulseFits(0xff_ffff, 0, 0, [1]);
    OpenedIdle(checkOverflow);
    PacketRun(Opened(checkOverflow), p);
  }

  /** A trigger frame eight away from the event frame. */
  lemma ThrowingPacket(checkOverflow: bool) returns (p: Packet)
    ensures p == OnePulse(1, 8, 0, [1]) && WellFormed(p) && FieldsClean(HeaderOf(p))
    ensures WithTriggerFrame(HeaderOf(p)).None? && Run(Opened(checkOverflow), PacketWords(p)).0.log == []
  {
    hide Run, Step, FieldsClean, Opened, PacketWords, FirstBlocked;
    p := OnePulse(1, 8, 0, [1]);
    OnePulseFits(1, 8, 0, [1]);
    OpenedIdle(checkOverflow);
    RollOverThrows(0, 8, 4);
    PacketRun(Opened(checkOverflow), p);
  }

  /** A pulse frame four away from the event frame. */
  lemma ThrowingPulse(checkOverflow: bool) returns (p: Packet)
    ensures p == OnePulse(1, 0, 4, [1]) && WellFormed(p) && FieldsClean(HeaderOf(p)) && Near(p.trigFrame, p.frame, 8)
    ensures FrameOf(p.shots[0], HeaderOf(p)).None? && Run(Opened(checkOverflow), PacketWords(p)).0.log == []
  {
    hide Run, Step, FieldsClean, Opened, PacketWords, FirstBlocked, RollOver, Near;
    p := OnePulse(1, 0, 4, [1]);
    OnePulseFits(1, 0, 4, [1]);
    OpenedIdle(checkOverflow);
    RollOverThrows(0, 4, 3);
    SameFrameNear(0, 8);
    RollOverRecovers(0, 0, 4);
    PacketRun(Opened(checkOverflow), p);
  }

  lemma BehindOne(checkOverflow: bool, p: Packet, q: Packet)
    requires Cuttable(p) && EndsEarly(p) && |p.shots| == 1 && Good(q) && |q.shots| == 1
    ensures Run(Opened(checkOverflow), CutWords(p) + PacketWords(q)).0.log ==
            [StoredEvent(HeaderOf(q), [PulseOf(p.shots[0], HeaderOf(p), p.shots[0].frame),
                                       PulseOf(q.shots[0], HeaderOf(q), q.shots[0].frame)])]
  {
    hide Run, Step, Opened, PacketWords, CutWords, HeaderOf, Idle, FieldsClean, Near, PulseOf, Blocked;
    OpenedIdle(checkOverflow);
    NoneBlocked(checkOverflow, q.shots);
    var a, b := p.shots[0], q.shots[0];
    assert p.shots == [a] && q.shots == [b];
    SentOne(a, HeaderOf(p));
    SentOne(b, HeaderOf(q));
    BehindCut(Opened(checkOverflow), p, q);
    assert StaleCount(p) == NOTHING_OPEN.wc && CompleteShots(p) == [a];
    assert [PulseOf(a, HeaderOf(p), a.frame)] + [PulseOf(b, HeaderOf(q), b.frame)]
        == [PulseOf(a, HeaderOf(p), a.frame), PulseOf(b, HeaderOf(q), b.frame)];
  }

  lemma SentOne(shot: Shot, h: HeaderInfo)
    ensures Sent([shot], h) == [PulseOf(shot, h, shot.frame)]
  {
    assert [shot][1..] == [];
  }

  /** The pulse of a cut packet of event 1 is stored under the header of event 2. */
  lemma CutPacketStored(checkOverflow: bool) returns (p: Packet, q: Packet)
    ensures p == OnePulse(1, 0, 0, [5]) && q == OnePulse(2, 0, 0, [7]) && Cuttable(p) && Good(q)
    ensures Run(Opened(checkOverflow), CutWords(p) + PacketWords(q)).0.log ==
            [StoredEvent(HeaderOf(q), [PulseOf(p.shots[0], HeaderOf(p), 0), PulseOf(q.shots[0], HeaderOf(q), 0)])]
  {
    hide Run, Step, Opened, PacketWords, CutWords, HeaderOf, Idle, FieldsClean, Near, PulseOf;
    OnePulseCarried(1, [5]);
    OnePulseCarried(2, [7]);
    p, q := OnePulse(1, 0, 0, [5]), OnePulse(2, 0, 0, [7]);
    BehindOne(checkOverflow, p, q);
  }

  lemma BehindStale(checkOverflow: bool, p: Packet, q: Packet)
    requires Cuttable(p) && CompleteShots(p) == [] && StaleCount(p) == 2
    requires Good(q) && q.shots != [] && |q.shots[0].samples| >= 4
    ensures Run(Opened(checkOverflow), CutWords(p) + PacketWords(q)).0.log ==
            if checkOverflow then [] else [Expected(q)]
  {
    hide Run, Step, Opened, PacketWords, CutWords, HeaderOf, Idle, FieldsClean, Near, StaleCount, CompleteShots;
    OpenedIdle(checkOverflow);
    assert MarkerDue(2, 6);
    assert FirstBlocked(checkOverflow, StaleCount(p), q.shots) <==> checkOverflow;
    assert Sent([], HeaderOf(p)) + Sent(q.shots, HeaderOf(q)) == Sent(q.shots, HeaderOf(q));
    BehindCut(Opened(checkOverflow), p, q);
  }

  /** Cut inside its pulse, the first packet leaves two words counted. With the overflow
      check the next packet, of a pulse with four samples, is lost; without, it is stored. */
  lemma CutPulseStale(checkOverflow: bool) returns (p: Packet, q: Packet)
    ensures p == OnePulse(1, 0, 0, []) && q == OnePulse(2, 0, 0, [1, 2, 3, 4]) && Cuttable(p) && Good(q)
    ensures Run(Opened(checkOverflow), CutWords(p) + PacketWords(q)).0.log ==
            if checkOverflow then [] else [Expected(q)]
  {
    hide Run, Step, Opened, PacketWords, CutWords, HeaderOf, Idle, FieldsClean, Near;
    OnePulseCarried(1, []);
    OnePulseCarried(2, [1, 2, 3, 4]);
    p, q := OnePulse(1, 0, 0, []), OnePulse(2, 0, 0, [1, 2, 3, 4]);
    BehindStale(checkOverflow, p, q);
  }
}
