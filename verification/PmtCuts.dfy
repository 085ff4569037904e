/** Packets whose last 32-bit word is missing: what they leave in the PMT decoder, and
    what becomes of the packet behind them. */
module PmtCuts {
  import opened Words
  import opened FemHeader
  import opened Machine
  import opened PmtSpec
  import opened PmtPackets
  import opened PmtRoundTrip

  predicate Cuttable(p: Packet) { Good(p) && p.shots != [] }

  function LastShot(p: Packet): Shot
    requires p.shots != []
  {
    p.shots[|p.shots| - 1]
  }

  function Front(p: Packet): seq<Shot>
    requires p.shots != []
  {
    p.shots[..|p.shots| - 1]
  }

  /** The last pulse ends before the last 32-bit word, which then holds its padding. */
  predicate EndsEarly(p: Packet)
    requires p.shots != []
  {
    |LastShot(p).samples| % 2 == 1
  }

  function CutWords(p: Packet): seq<Word>
    requires WellFormed(p)
  {
    PacketWords(p)[..|PacketWords(p)| - 1]
  }

  /** The pulses that were complete before the cut. */
  function CompleteShots(p: Packet): seq<Shot>
    requires p.shots != []
  {
    if EndsEarly(p) then p.shots else Front(p)
  }

  /** The words counted for a pulse that the cut left unfinished. */
  function StaleCount(p: Packet): u16
    requires p.shots != []
  {
    if EndsEarly(p) then 0 else (2 + |LastShot(p).samples|) % 0x1_0000
  }

  /** The last pulse without its last 32-bit word. */
  function LastKept(p: Packet): seq<u16>
    requires WellFormed(p) && p.shots != []
  {
    var shot := LastShot(p);
    if EndsEarly(p) then SampledWords(shot) + [LastWord(shot)] else SampledWords(shot)
  }

  function LastPair(p: Packet): seq<u16>
    requires p.shots != []
  {
    [if EndsEarly(p) then PADDING else LastWord(LastShot(p)), FEM_LAST]
  }

  function KeptWords(p: Packet): seq<u16>
    requires WellFormed(p) && p.shots != []
  {
    [Tagged(4, p.firstField)] + ShotsWords(Front(p)) + LastKept(p)
  }

  // ----- the words before the cut -----

  lemma {:induction false} ShotsSnoc(ps: seq<Shot>, p: Shot)
    requires ValidShots(ps) && ValidShot(p) && ValidShots(ps + [p])
    ensures ShotsWords(ps + [p]) == ShotsWords(ps) + ShotWords(p)
    decreases |ps|
  {
    hide ShotWords;
    if ps == [] {
      assert [p][1..] == [] && [] + [p] == [p];
      assert ShotsWords([]) == [] && [] + ShotWords(p) == ShotWords(p) && ShotWords(p) + [] == ShotWords(p);
    } else {
      assert (ps + [p])[1..] == ps[1..] + [p];
      ShotsSnoc(ps[1..], p);
      AppendAssoc(ShotWords(ps[0]), ShotsWords(ps[1..]), ShotWords(p));
    }
  }

  lemma {:induction false} SentSnoc(ps: seq<Shot>, p: Shot, h: HeaderInfo)
    ensures Sent(ps + [p], h) == Sent(ps, h) + [PulseOf(p, h, p.frame)]
    decreases |ps|
  {
    hide PulseOf;
    if ps == [] {
      assert [p][1..] == [] && [] + [p] == [p];
    } else {
      assert (ps + [p])[1..] == ps[1..] + [p];
      SentSnoc(ps[1..], p, h);
      AppendAssoc([PulseOf(ps[0], h, ps[0].frame)], Sent(ps[1..], h), [PulseOf(p, h, p.frame)]);
    }
  }

  lemma {:induction false} PackAppend(ws: seq<u16>, a: u16, b: u16)
    requires |ws| % 2 == 0
    ensures PackPairs(ws + [a, b]) == PackPairs(ws) + [Word(b, a)]
    decreases |ws|
  {
    if ws == [] {
      assert ws + [a, b] == [a, b] && [a, b][2..] == [];
    } else {
      assert (ws + [a, b])[2..] == ws[2..] + [a, b];
      PackAppend(ws[2..], a, b);
    }
  }

  lemma LastSplit(p: Packet)
    requires WellFormed(p) && p.shots != []
    ensures ShotWords(LastShot(p)) + [FEM_LAST] == LastKept(p) + LastPair(p)
    ensures |LastKept(p)| % 2 == 1
  {
  }

  lemma KeptSplit(p: Packet)
    requires WellFormed(p) && p.shots != []
    ensures ValidShots(Front(p)) && CountedWords(p) + [FEM_LAST] == KeptWords(p) + LastPair(p)
    ensures |KeptWords(p)| % 2 == 0
  {
    hide ShotWords, LastKept, LastPair;
    var first, front, shot := [Tagged(4, p.firstField)], ShotsWords(Front(p)), LastShot(p);
    assert p.shots == Front(p) + [shot];
    ShotsSnoc(Front(p), shot);
    LastSplit(p);
    ShotsEven(Front(p));
    Regroup(first, front, ShotWords(shot), [FEM_LAST], LastKept(p), LastPair(p));
  }

  lemma Regroup<T>(a: seq<T>, b: seq<T>, c: seq<T>, d: seq<T>, e: seq<T>, f: seq<T>)
    requires c + d == e + f
    ensures a + (b + c) + d == a + b + e + f
  {
    assert a + (b + c) + d == a + b + (c + d);
    assert a + b + e + f == a + b + (e + f);
  }

  lemma CutSplit(p: Packet)
    requires WellFormed(p) && p.shots != []
    ensures CutWords(p) == EncodeHeader(HeaderOf(p)) + PackPairs(KeptWords(p))
  {
    hide KeptWords, CountedWords, HeaderOf, EncodeHeader, PackPairs;
    KeptSplit(p);
    PackAppend(KeptWords(p), LastPair(p)[0], FEM_LAST);
    var header, data, w := EncodeHeader(HeaderOf(p)), PackPairs(KeptWords(p)), Word(FEM_LAST, LastPair(p)[0]);
    assert PacketWords(p) == header + (data + [w]);
    DropLast(header, data, w);
  }

  lemma DropLast<T>(a: seq<T>, b: seq<T>, w: T)
    ensures (a + (b + [w]))[..|a + (b + [w])| - 1] == a + b
  {
  }

  lemma KeptAreShot(p: Packet)
    requires WellFormed(p) && p.shots != []
    ensures forall i :: 0 <= i < |KeptWords(p)| ==> ShotWord(KeptWords(p)[i])
  {
    hide ShotWord, ShotWords, KeptWords;
    KeptSplit(p);
    ShotsWordsAreShot(p.shots);
    FirstIsShot(p);
    var ws, kept := CountedWords(p) + [FEM_LAST], KeptWords(p);
    forall i | 0 <= i < |kept|
      ensures ShotWord(kept[i])
    {
      assert kept[i] == ws[i];
      assert |kept| < |CountedWords(p)|;
      if i > 0 {
        assert ws[i] == ShotsWords(p.shots)[i - 1];
      }
    }
  }

  lemma FirstIsShot(p: Packet)
    ensures ShotWord(Tagged(4, p.firstField))
  {
    TaggedParts(4, p.firstField);
  }

  // ----- what is left -----

  lemma FramesBack(p: Packet, h: HeaderInfo)
    requires Cuttable(p) && h == HeaderOf(p)
    ensures Pulses(Front(p), h) == Some(Sent(Front(p), h))
    ensures FrameOf(LastShot(p), h) == Some(LastShot(p).frame)
    ensures Sent(p.shots, h) == Sent(Front(p), h) + [PulseOf(LastShot(p), h, LastShot(p).frame)]
  {
    hide Near, RollOver, Sent, Pulses;
    PulsesSent(Front(p), h);
    RollOverRecovers(h.frame, LastShot(p).frame, 3);
    assert p.shots == Front(p) + [LastShot(p)];
    SentSnoc(Front(p), LastShot(p), h);
  }

  /** The state when the words before the cut have been taken. */
  predicate Leaves(base: State, p: Packet, t: State)
    requires Cuttable(p)
  {
    && t == base.(ch := t.ch, chHeaderCount := t.chHeaderCount, wordsInCh := StaleCount(p),
                  event := Some(Sent(CompleteShots(p), HeaderOf(p))),
                  nwords := t.nwords, checksum := t.checksum, last := t.last)
    && (EndsEarly(p) ==> t.ch == BLANK_PULSE && t.chHeaderCount == 0)
  }

  /** Behind the header, word by word. */
  lemma KeptRun(base: State, p: Packet) returns (t: State)
    requires Cuttable(p) && Class(base.last) == FemHeader && base.header == HeaderOf(p)
    requires base == At(base, NOTHING_OPEN, [], 0, 0, base.last)
    ensures Feed(ChWord, base, KeptWords(p)) == (t, Accepted) && Leaves(base, p, t)
  {
    hide ChWord, Class, Boundary, FrameOf, Wrap, FirstBlocked, Blocked, PulseOf, SampledWords, LastWord, Carried,
         ShotsWords, Pulses, Sent;
    var h, front, shot := base.header, Front(p), LastShot(p);
    var first: u16 := Tagged(4, p.firstField);
    FramesBack(p, h);
    FirstStep(base, NOTHING_OPEN, [], base.last, p.firstField);
    FeedOne(ChWord, base, first);
    NoneBlocked(base.checkOverflow, front);
    NeverBlocked(base.checkOverflow, 1, 3 + |shot.samples|);
    var open', last' := ShotsRun(base, NOTHING_OPEN, [], 1, first, Short(first), front);
    assert [] + Sent(front, h) == Sent(front, h);
    FeedAppend(ChWord, base, [first], ShotsWords(front));
    var ws: seq<u16> := [first] + ShotsWords(front);
    FeedAppend(ChWord, base, ws, LastKept(p));
    var n, c := 1 + |ShotsWords(front)|, first + Sum(ShotsWords(front));
    if EndsEarly(p) {
      UnpaddedRun(base, NOTHING_OPEN, Sent(front, h), n, c, last', shot);
    } else {
      var _ := SampledRun(base, NOTHING_OPEN, Sent(front, h), n, c, last', shot);
    }
    t := Feed(ChWord, base, KeptWords(p)).0;
  }

  /** A packet without its last 32-bit word: every word is accepted, nothing is stored, and
      its complete pulses stay in the buffer. */
  lemma CutRun(s: State, p: Packet)
    requires Idle(s) && Cuttable(p)
    ensures var (t, o) := Run(s, CutWords(p));
            && o == Accepted && t.log == s.log && Ready(t) && t.checkOverflow == s.checkOverflow
            && t.event == Some(Sent(CompleteShots(p), HeaderOf(p))) && t.wordsInCh == StaleCount(p)
            && (EndsEarly(p) ==> t.ch == BLANK_PULSE && t.chHeaderCount == 0)
  {
    hide Step, ChWord, Class, EncodeHeader, RollOver, PackPairs, Near, FieldsClean, Sent, KeptWords, HeaderWord,
         DecodeHeader, StaleCount, At, Feed;
    var h := HeaderOf(p);
    var words, kept := EncodeHeader(h), KeptWords(p);
    RollOverRecovers(h.frame, h.trigFrame, 4);
    CleanWords(h);
    HeaderWordsTagged(h);
    DecodeEncoded(h);
    HeaderRun(s, words);
    HeaderAt(s, words, h);
    var base := WithHeader(s, words, h);
    var t := KeptRun(base, p);
    KeptAreShot(p);
    HalfIsChWord(base, kept);
    KeptSplit(p);
    PairsRun(base, kept);
    FeedAppend(Step, s, words, PackPairs(kept));
    CutSplit(p);
  }

  /** The packet behind a cut one: it is stored with the pulses that the cut one left, under
      its own header, its count and checksum being in order; or, when the overflow check
      goes on counting the unfinished pulse, not at all. */
  lemma BehindCut(s: State, p: Packet, q: Packet)
    requires Idle(s) && Cuttable(p) && Good(q)
    ensures Run(s, CutWords(p) + PacketWords(q)).0.log ==
            if FirstBlocked(s.checkOverflow, StaleCount(p), q.shots) then s.log
            else
              var left := Sent(CompleteShots(p), HeaderOf(p));
              s.log + [StoredEvent(HeaderOf(q), left + Sent(q.shots, HeaderOf(q)))]
  {
    hide Step, CutWords, PacketWords, Sent, FirstBlocked, StaleCount, CompleteShots, HeaderOf, Carried;
    CutRun(s, p);
    GoodPacketRun(Run(s, CutWords(p)).0, q);
    FeedAppend(Step, s, CutWords(p), PacketWords(q));
  }
}
