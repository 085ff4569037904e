/** What the PMT decoder stores from any stream, well formed or not: a header, a count, a
    checksum, and samples of words that were really received. */
module PmtGate {
  import opened Words
  import opened FemHeader
  import opened Machine
  import opened Received
  import opened PmtSpec

  // ----- what is promised of a stored event -----

  function Fields(d: seq<u16>): seq<u16> { seq(|d|, i requires 0 <= i < |d| => Field(d[i])) }

  predicate SamplesFrom(ps: seq<Pulse>, ds: seq<seq<u16>>) {
    |ds| == |ps| && forall i :: 0 <= i < |ps| ==> ps[i].samples == Fields(ds[i])
  }

  /** The samples of the pulses are the fields of words of `hs`, in order, each word used at
      most once; the words `d` of `hs` come behind them. */
  ghost predicate Traced(ps: seq<Pulse>, d: seq<u16>, hs: seq<u16>) {
    exists ds: seq<seq<u16>> :: SamplesFrom(ps, ds) && Within(Flat(ds) + d, hs)
  }

  predicate Stamped(ps: seq<Pulse>, h: HeaderInfo) {
    forall i :: 0 <= i < |ps| ==> ps[i].moduleAddress == h.moduleAddress && ps[i].moduleId == h.moduleId
  }

  /** The first `e` pulses come from words before the header, the others, with its module
      numbers, from words after it. */
  ghost predicate Divided(ps: seq<Pulse>, e: nat, h: HeaderInfo, before: seq<u16>, after: seq<u16>) {
    e <= |ps| && Traced(ps[..e], [], before) && Traced(ps[e..], [], after) && Stamped(ps[e..], h)
  }

  /** The words `c` have the header's count and checksum. */
  predicate Backs(c: seq<u16>, h: HeaderInfo) { Wrap(|c|) == h.nwords && Low24(Sum(c)) == h.checksum }

  /** So many words that the 32-bit counter may have come round. */
  predicate Long(head: seq<Word>, hs: seq<u16>) { 2 * |head| + |hs| >= 0x1_0000_0000 }

  /** The header came with the end of `head`, the words `c` back it, and the pulses behind
      the early ones come from these very words. Only when the counter has come round can
      no header be at hand. */
  ghost predicate VouchedBy(e: StoredEvent, early: nat, head: seq<Word>, hs: seq<u16>, c: seq<u16>) {
    && Within(c, hs) && Divided(e.pulses, early, e.header, Halves(head), c)
    && ((e.header == BLANK_HEADER && Long(head, hs)) || (Installed(e.header, head) && Backs(c, e.header)))
  }

  ghost predicate Vouched(e: StoredEvent, head: seq<Word>, hs: seq<u16>) {
    exists early, c :: VouchedBy(e, early, head, hs, c)
  }

  ghost predicate Backed(e: StoredEvent, ws: seq<Word>) {
    exists k :: 0 <= k <= |ws| && Vouched(e, ws[..k], Halves(ws[k..]))
  }

  ghost predicate AllBacked(log: seq<StoredEvent>, ws: seq<Word>) {
    forall i :: 0 <= i < |log| ==> Backed(log[i], ws)
  }

  // ----- the ledger -----

  function Buffer(s: State): seq<Pulse> { if s.event.Some? then s.event.value else [] }

  /** Behind such a word samples may be added to the pulse under way. */
  predicate InPulse(last: Word) { Class(last) in {ChannelHeader, ChannelWord, ChannelLastWord} }

  predicate OpenFrom(s: State, d: seq<u16>) { InPulse(s.last) ==> s.ch.samples == Fields(d) }

  predicate Counts(s: State, c: seq<u16>) { Low24(s.checksum) == Low24(Sum(c)) && s.nwords == Wrap(|c|) }

  /** The pulses behind the first `e`, and the one under way, come from `hs`. */
  ghost predicate Late(s: State, e: nat, hs: seq<u16>) {
    && e <= |Buffer(s)| && Stamped(Buffer(s)[e..], s.header)
    && exists d :: OpenFrom(s, d) && Traced(Buffer(s)[e..], d, hs)
  }

  /** The header at hand came with the end of `head`, and the counters are those of the words
      `c` received since; so are the pulses but the first `e`, which came before. */
  ghost predicate LedgerBy(s: State, e: nat, head: seq<Word>, hs: seq<u16>, c: seq<u16>) {
    && (s.header == BLANK_HEADER || (Installed(s.header, head) && Counts(s, c)))
    && Within(c, hs) && Late(s, e, c) && Traced(Buffer(s)[..e], [], Halves(head))
    && s.nwords <= 2 * |head| + |hs|
  }

  ghost predicate Ledger(s: State, e: nat, head: seq<Word>, hs: seq<u16>) {
    exists c :: LedgerBy(s, e, head, hs, c)
  }

  /** The ledger of a whole stream. */
  ghost predicate Honest(s: State, ws: seq<Word>) {
    && AllBacked(s.log, ws)
    && s.headerCount < FEM_HEADER_COUNT && Within(s.headerWords[..s.headerCount], ws)
    && exists k, e :: 0 <= k <= |ws| && Ledger(s, e, ws[..k], Halves(ws[k..]))
  }

  // ----- pulses and words -----

  lemma TracedMore(ps: seq<Pulse>, d: seq<u16>, hs: seq<u16>, w: u16)
    requires Traced(ps, d, hs)
    ensures Traced(ps, d, hs + [w]) && Traced(ps, d + [w], hs + [w])
  {
    var ds: seq<seq<u16>> :| SamplesFrom(ps, ds) && Within(Flat(ds) + d, hs);
    WithinMore(Flat(ds) + d, hs, w);
    assert Flat(ds) + (d + [w]) == Flat(ds) + d + [w];
  }

  lemma TracedWiden(ps: seq<Pulse>, d: seq<u16>, c: seq<u16>, hs: seq<u16>)
    requires Traced(ps, d, c) && Within(c, hs)
    ensures Traced(ps, d, hs)
  {
    var ds: seq<seq<u16>> :| SamplesFrom(ps, ds) && Within(Flat(ds) + d, c);
    WithinThen(Flat(ds) + d, c, hs);
  }

  lemma TracedDrop(ps: seq<Pulse>, d: seq<u16>, hs: seq<u16>)
    requires Traced(ps, d, hs)
    ensures Traced(ps, [], hs)
  {
    var ds: seq<seq<u16>> :| SamplesFrom(ps, ds) && Within(Flat(ds) + d, hs);
    WithinPrefix(Flat(ds), d, hs);
    assert Flat(ds) + [] == Flat(ds);
  }

  /** The pulse under way is finished. */
  lemma TracedPush(ps: seq<Pulse>, p: Pulse, d: seq<u16>, hs: seq<u16>)
    requires Traced(ps, d, hs) && p.samples == Fields(d)
    ensures Traced(ps + [p], [], hs)
  {
    hide Fields;
    var ds: seq<seq<u16>> :| SamplesFrom(ps, ds) && Within(Flat(ds) + d, hs);
    FlatMore(ds, d);
    assert Flat(ds + [d]) + [] == Flat(ds) + d;
    assert SamplesFrom(ps + [p], ds + [d]);
  }

  lemma TracedJoin(ps: seq<Pulse>, e: nat, before: seq<u16>, after: seq<u16>)
    requires e <= |ps| && Traced(ps[..e], [], before) && Traced(ps[e..], [], after)
    ensures Traced(ps, [], before + after)
  {
    hide Fields;
    var a: seq<seq<u16>> :| SamplesFrom(ps[..e], a) && Within(Flat(a) + [], before);
    var b: seq<seq<u16>> :| SamplesFrom(ps[e..], b) && Within(Flat(b) + [], after);
    WithinJoin(Flat(a) + [], before, Flat(b) + [], after);
    FlatAppend(a, b);
    assert Flat(a + b) + [] == Flat(a) + [] + (Flat(b) + []);
    forall i | 0 <= i < |ps|
      ensures ps[i].samples == Fields((a + b)[i])
    {
      assert ps[i] == if i < e then ps[..e][i] else ps[e..][i - e];
    }
  }

  lemma TracedNone(hs: seq<u16>)
    ensures Traced([], [], hs)
  {
    var none: seq<seq<u16>> := [];
    NothingWithin<u16>(hs);
    assert SamplesFrom([], none) && Flat(none) + [] == [];
  }

  // ----- one 16-bit word -----

  /** What an accepted channel word does to the buffer and to the pulse under way. */
  datatype Effect = NoPulse | Kept | Sampled | Pushed

  predicate Has(e: Effect, s: State, t: State, w: u16) {
    match e
    case NoPulse => Buffer(t) == Buffer(s) && (InPulse(t.last) ==> t.ch.samples == [])
    case Kept => Buffer(t) == Buffer(s) && InPulse(s.last) && t.ch.samples == s.ch.samples
    case Sampled => Buffer(t) == Buffer(s) && InPulse(s.last) && t.ch.samples == s.ch.samples + [Field(w)]
    case Pushed =>
      && InPulse(s.last) && t.ch.samples == [] && |Buffer(t)| == |Buffer(s)| + 1 && Buffer(s) <= Buffer(t)
      && Buffer(t)[|Buffer(s)|].samples == s.ch.samples && Stamped(Buffer(t)[|Buffer(s)|..], s.header)
  }

  /** Nothing but the pulse under way and the buffer has changed. */
  predicate SameRest(s: State, t: State) {
    && t.log == s.log && t.header == s.header && t.nwords == s.nwords && t.checksum == s.checksum
    && t.headerCount == s.headerCount && t.headerWords == s.headerWords && t.debug == s.debug
  }

  lemma ReadEffect(s: State, w: u16)
    ensures var (t, o) := ReadWord(s, w);
            && SameRest(s, t) && t.event == s.event && t.last == s.last
            && (t.ch.samples == s.ch.samples
                || (t.ch.samples == s.ch.samples + [Field(w)] && Class(Short(w)) != ChannelLastWord))
  {
    hide Class, RollOver, Wrap;
  }

  lemma ConcludeEffect(s: State, w: u16, before: Outcome)
    ensures var (t, o) := ReadAndConclude(s, w, before);
            && SameRest(s, t)
            && (o == Accepted ==>
                  if Class(Short(w)) == ChannelLastWord then
                    && s.event.Some? && t.event.Some? && t.ch.samples == []
                    && |t.event.value| == |s.event.value| + 1 && s.event.value <= t.event.value
                    && t.event.value[|s.event.value|].samples == s.ch.samples
                    && t.event.value[|s.event.value|].moduleAddress == s.header.moduleAddress
                    && t.event.value[|s.event.value|].moduleId == s.header.moduleId
                  else
                    && t.event == s.event
                    && (t.ch.samples == s.ch.samples || t.ch.samples == s.ch.samples + [Field(w)]))
  {
    hide Class, ReadWord, MarkerMissing, Field;
    ReadEffect(s, w);
  }

  lemma PulseEffect(s: State, w: u16) returns (e: Effect)
    ensures var (t, o) := PulseWord(s, w);
            SameRest(s, t) && e != NoPulse && (o == Accepted ==> Has(e, s, t, w))
  {
    hide Class, ReadAndConclude, Field;
    ConcludeEffect(s, w, Accepted);
    ConcludeEffect(s, w, Rejected);
    if BackOdd(s).Some? {
      ConcludeEffect(Continue(s), w, Accepted);
    }
    var t := PulseWord(s, w).0;
    e := if Buffer(t) != Buffer(s) then Pushed else if t.ch.samples == s.ch.samples then Kept else Sampled;
  }

  lemma CountUp(n: u32)
    ensures Wrap(n + 1) <= n + 1 && (Wrap(n + 1) == 0 ==> n == 0xffff_ffff)
  {
  }

  lemma ChWordEffect(s: State, w: u16) returns (e: Effect)
    ensures var (t, o) := ChWord(s, w);
            && t.log == s.log && t.debug == s.debug && t.nwords <= s.nwords + 1
            && (o == Accepted ==>
                  && Has(e, s, t, w) && SameRest(s.(nwords := Wrap(s.nwords + 1), checksum := Wrap(s.checksum + w)), t))
  {
    hide Class, PulseWord, Wrap, Field;
    CountUp(s.nwords);
    var f := PulseEffect(s, w);
    e := if Class(Short(w)) in {ChannelWord, ChannelLastWord} then f else NoPulse;
  }

  lemma LateWord(s: State, t: State, f: Effect, e: nat, hs: seq<u16>, w: u16)
    requires Late(s, e, hs) && Has(f, s, t, w) && t.header == s.header
    ensures Late(t, e, hs + [w]) && Buffer(t)[..e] == Buffer(s)[..e]
  {
    hide Buffer, InPulse, Traced, Field;
    var d :| OpenFrom(s, d) && Traced(Buffer(s)[e..], d, hs);
    TracedMore(Buffer(s)[e..], d, hs, w);
    match f
    case NoPulse =>
      TracedDrop(Buffer(s)[e..], d, hs + [w]);
      assert OpenFrom(t, []);
    case Kept =>
      assert OpenFrom(t, d);
    case Sampled =>
      assert OpenFrom(t, d + [w]);
    case Pushed =>
      var p := Buffer(t)[|Buffer(s)|];
      TracedPush(Buffer(s)[e..], p, d, hs + [w]);
      assert Buffer(t)[e..] == Buffer(s)[e..] + [p];
      assert Stamped(Buffer(t)[e..], t.header) by {
        assert Buffer(t)[|Buffer(s)|..] == [p];
        assert [p][0] == p;
      }
      assert OpenFrom(t, []);
  }

  lemma CountsWord(s: State, t: State, c: seq<u16>, w: u16)
    requires Counts(s, c) && t.nwords == Wrap(s.nwords + 1) && t.checksum == Wrap(s.checksum + w)
    ensures Counts(t, c + [w])
  {
    hide Low24, Wrap, Sum;
    SumMore(s.checksum, c, w);
  }

  lemma ChWordFair(s: State, e: nat, head: seq<Word>, hs: seq<u16>, w: u16)
    requires Ledger(s, e, head, hs)
    ensures var (t, o) := ChWord(s, w);
            && t.log == s.log && t.debug == s.debug && t.nwords <= s.nwords + 1
            && (o == Accepted ==>
                  && Ledger(t, e, head, hs + [w]) && (t.nwords == 0 ==> Long(head, hs + [w]))
                  && t.headerCount == s.headerCount && t.headerWords == s.headerWords)
  {
    hide ChWord, Late, Counts, Traced, Installed, Has, Wrap, Within;
    CountUp(s.nwords);
    var f := ChWordEffect(s, w);
    var (t, o) := ChWord(s, w);
    if o == Accepted {
      var c :| LedgerBy(s, e, head, hs, c);
      LateWord(s, t, f, e, c, w);
      WithinMore(c, hs, w);
      if s.header != BLANK_HEADER {
        CountsWord(s, t, c, w);
      }
      assert LedgerBy(t, e, head, hs + [w], c + [w]);
    }
  }

  // ----- ignored words -----

  /** The ledger does not see the change: no pulse is taken up again. */
  predicate Unseen(s: State, t: State) {
    && SameRest(s, t) && Buffer(t) == Buffer(s) && t.ch == s.ch
    && (InPulse(t.last) ==> InPulse(s.last))
  }

  lemma LateSame(s: State, t: State, e: nat, hs: seq<u16>)
    requires Late(s, e, hs) && Unseen(s, t)
    ensures Late(t, e, hs)
  {
    hide Buffer, InPulse, Traced, Fields;
    var d :| OpenFrom(s, d) && Traced(Buffer(s)[e..], d, hs);
    assert OpenFrom(t, d);
  }

  lemma LedgerSame(s: State, t: State, e: nat, head: seq<Word>, hs: seq<u16>, w: Word)
    requires Ledger(s, e, head, hs) && Unseen(s, t)
    ensures Ledger(t, e, head, hs + [w.lo, w.hi])
  {
    hide Late, Traced, Installed, InPulse, Within;
    var c :| LedgerBy(s, e, head, hs, c);
    assert hs + [w.lo] + [w.hi] == hs + [w.lo, w.hi];
    WithinMore(c, hs, w.lo);
    WithinMore(c, hs + [w.lo], w.hi);
    LateSame(s, t, e, c);
    assert LedgerBy(t, e, head, hs + [w.lo, w.hi], c);
  }

  /** Cleared: no header, no pulses. */
  predicate Cleared(t: State) {
    t.header == BLANK_HEADER && t.headerCount == 0 && Buffer(t) == [] && t.ch.samples == []
  }

  lemma ClearedLedger(t: State, head: seq<Word>, hs: seq<u16>)
    requires Cleared(t) && t.nwords <= 2 * |head| + |hs|
    ensures Ledger(t, 0, head, hs)
  {
    hide Traced, InPulse, Installed;
    TracedNone([]);
    TracedNone(Halves(head));
    assert OpenFrom(t, []);
    assert Buffer(t)[0..] == [] && Buffer(t)[..0] == [];
    NothingWithin<u16>(hs);
    assert LedgerBy(t, 0, head, hs, []);
  }

  lemma ClearClears(s: State)
    ensures var t := ClearEvent(s);
            Cleared(t) && t.log == s.log && t.debug == s.debug && t.nwords == s.nwords
  {
  }

  // ----- storing -----

  /** The gate: the FEM's last word stores exactly when its place is right, there is a buffer,
      and count and checksum are the header's. */
  lemma StoresExactly(s: State)
    ensures var (t, o) := StoreEvent(s);
            if s.event.Some? && Wrap(s.nwords - 1) == s.header.nwords && Low24(s.checksum) == s.header.checksum then
              o == Accepted && t.log == s.log + [StoredEvent(s.header, s.event.value)] && Cleared(t)
            else t.log == s.log && o != Accepted
    ensures StoreEvent(s).0.debug == s.debug && StoreEvent(s).0.nwords == Wrap(s.nwords - 1)
  {
  }

  lemma LastFair(s: State, e: nat, head: seq<Word>, hs: seq<u16>, w: u16)
    requires Ledger(s, e, head, hs) && (s.nwords == 0 ==> Long(head, hs))
    ensures var (t, o) := FemLastStep(s, w);
            && t.debug == s.debug && t.nwords <= s.nwords + 1
            && if o == Accepted then
                 |t.log| == |s.log| + 1 && s.log <= t.log && Vouched(t.log[|s.log|], head, hs) && Cleared(t)
               else t.log == s.log
  {
    hide StoreEvent, Class, BackOdd, Traced, Installed, Late, Low24, Wrap, Vouched;
    var s1 := s.(nwords := Wrap(s.nwords + 1));
    StoresExactly(s1);
    UncountedLast(s.nwords);
    CountUp(s.nwords);
    if FemLastStep(s, w).1 == Accepted {
      EventVouched(s, e, head, hs);
    }
  }

  lemma UncountedLast(n: u32)
    ensures Wrap(Wrap(n + 1) - 1) == n
  {
    WrapAdd(n + 1, -1);
    assert Wrap(n) == n;
  }

  lemma EventVouched(s: State, e: nat, head: seq<Word>, hs: seq<u16>)
    requires Ledger(s, e, head, hs) && s.event.Some? && (s.nwords == 0 ==> Long(head, hs))
    requires s.nwords == s.header.nwords && Low24(s.checksum) == s.header.checksum
    ensures Vouched(StoredEvent(s.header, s.event.value), head, hs)
  {
    hide Traced, Installed, Low24, Wrap, Within, Sum;
    var c :| LedgerBy(s, e, head, hs, c);
    var d :| OpenFrom(s, d) && Traced(Buffer(s)[e..], d, c);
    TracedDrop(Buffer(s)[e..], d, c);
    assert Divided(s.event.value, e, s.header, Halves(head), c);
    assert VouchedBy(StoredEvent(s.header, s.event.value), e, head, hs, c);
  }

  // ----- the log -----

  lemma VouchedMore(e: StoredEvent, head: seq<Word>, hs: seq<u16>, w: u16)
    requires Vouched(e, head, hs)
    ensures Vouched(e, head, hs + [w])
  {
    hide Divided, Installed, Backs, Within;
    var early: nat, c :| VouchedBy(e, early, head, hs, c);
    WithinMore(c, hs, w);
    assert VouchedBy(e, early, head, hs + [w], c);
  }

  lemma VouchedTwo(e: StoredEvent, head: seq<Word>, hs: seq<u16>, w: Word)
    requires Vouched(e, head, hs)
    ensures Vouched(e, head, hs + [w.lo, w.hi])
  {
    hide Vouched;
    VouchedMore(e, head, hs, w.lo);
    VouchedMore(e, head, hs + [w.lo], w.hi);
    assert hs + [w.lo] + [w.hi] == hs + [w.lo, w.hi];
  }

  lemma BackedMore(log: seq<StoredEvent>, ws: seq<Word>, w: Word)
    requires AllBacked(log, ws)
    ensures AllBacked(log, ws + [w])
  {
    hide Vouched;
    forall i | 0 <= i < |log|
      ensures Backed(log[i], ws + [w])
    {
      assert Backed(log[i], ws);
      var k :| 0 <= k <= |ws| && Vouched(log[i], ws[..k], Halves(ws[k..]));
      CutMore(ws, k, w);
      VouchedTwo(log[i], ws[..k], Halves(ws[k..]), w);
    }
  }

  lemma BackedOne(log: seq<StoredEvent>, e: StoredEvent, ws: seq<Word>, k: nat)
    requires AllBacked(log, ws) && k <= |ws| && Vouched(e, ws[..k], Halves(ws[k..]))
    ensures AllBacked(log + [e], ws)
  {
    hide Vouched;
    forall i | 0 <= i < |log + [e]|
      ensures Backed((log + [e])[i], ws)
    {
      if i < |log| {
        assert (log + [e])[i] == log[i];
      } else {
        assert (log + [e])[i] == e;
      }
    }
  }

  // ----- one 32-bit word -----

  /** After two words: the ledger goes on, or one more event is stored and all is cleared. */
  ghost predicate Onward(s: State, t: State, e: nat, head: seq<Word>, hs: seq<u16>) {
    || (t.log == s.log && Ledger(t, e, head, hs) && t.headerCount == s.headerCount && t.headerWords == s.headerWords)
    || (Cleared(t) && |t.log| == |s.log| + 1 && s.log <= t.log && Vouched(t.log[|s.log|], head, hs))
  }

  lemma TwoFair(s: State, e: nat, head: seq<Word>, hs: seq<u16>, w: Word)
    requires Ledger(s, e, head, hs)
    ensures var (t, o) := TwoWords(s, w);
            && t.debug == s.debug && t.nwords <= s.nwords + 2
            && if o == Accepted then Onward(s, t, e, head, hs + [w.lo, w.hi]) else t.log == s.log
  {
    hide ChWord, FemLastStep, Ledger, Vouched, Cleared, Class;
    ChWordFair(s, e, head, hs, w.lo);
    var (t, o) := ChWord(s, w.lo);
    assert hs + [w.lo] + [w.hi] == hs + [w.lo, w.hi];
    if o == Accepted {
      ChWordFair(t, e, head, hs + [w.lo], w.hi);
      LastFair(t, e, head, hs + [w.lo], w.hi);
      var (u, o2) := FemLastStep(t, w.hi);
      if o2 == Accepted {
        VouchedMore(u.log[|s.log|], head, hs + [w.lo], w.hi);
      }
    }
  }

  lemma ClearedHonest(t: State, ws: seq<Word>)
    requires Cleared(t) && AllBacked(t.log, ws) && t.nwords <= 2 * |ws|
    ensures Honest(t, ws)
  {
    hide Ledger, AllBacked;
    HalvesLength(ws);
    assert ws[0..] == ws;
    ClearedLedger(t, ws[..0], Halves(ws[0..]));
    assert t.headerWords[..0] == [];
    NothingWithin<Word>(ws);
  }

  lemma SameHonest(s: State, t: State, ws: seq<Word>, w: Word)
    requires Honest(s, ws) && Unseen(s, t)
    ensures Honest(t, ws + [w])
  {
    hide Ledger, AllBacked, Unseen, Halves;
    var k, e: nat :| 0 <= k <= |ws| && Ledger(s, e, ws[..k], Halves(ws[k..]));
    BackedMore(s.log, ws, w);
    CutMore(ws, k, w);
    LedgerSame(s, t, e, ws[..k], Halves(ws[k..]), w);
    assert SameRest(s, t) by { UnseenRest(s, t); }
    WithinMore(s.headerWords[..s.headerCount], ws, w);
    assert Ledger(t, e, (ws + [w])[..k], Halves((ws + [w])[k..]));
  }

  lemma UnseenRest(s: State, t: State)
    requires Unseen(s, t)
    ensures SameRest(s, t)
  {
  }

  lemma HonestCount(s: State, ws: seq<Word>)
    requires Honest(s, ws)
    ensures s.nwords <= 2 * |ws|
  {
    hide AllBacked, Within, Late, Installed, Traced, Halves;
    var k, e: nat :| 0 <= k <= |ws| && Ledger(s, e, ws[..k], Halves(ws[k..]));
    HalvesLength(ws[k..]);
  }

  lemma TwoHonest(s: State, ws: seq<Word>, w: Word)
    requires Honest(s, ws)
    ensures var (t, o) := TwoWords(s, w);
            && t.debug == s.debug && t.nwords <= s.nwords + 2
            && if o == Accepted then Honest(t, ws + [w]) else t.log == s.log
  {
    hide Ledger, AllBacked, TwoWords, Halves, Cleared, Vouched;
    var k, e: nat :| 0 <= k <= |ws| && Ledger(s, e, ws[..k], Halves(ws[k..]));
    var head, hs := ws[..k], Halves(ws[k..]);
    TwoFair(s, e, head, hs, w);
    var (t, o) := TwoWords(s, w);
    if o == Accepted {
      BackedMore(s.log, ws, w);
      CutMore(ws, k, w);
      if t.log == s.log {
        assert Ledger(t, e, (ws + [w])[..k], Halves((ws + [w])[k..]));
        WithinMore(s.headerWords[..s.headerCount], ws, w);
      } else {
        assert t.log == s.log + [t.log[|s.log|]];
        BackedOne(s.log, t.log[|s.log|], ws + [w], k);
        HonestCount(s, ws);
        ClearedHonest(t, ws + [w]);
      }
    }
  }

  // ----- a header word -----

  /** A header is installed: the pulses in the buffer came before it. */
  lemma NewLedger(s: State, t: State, e: nat, ws: seq<Word>, k: nat, w: Word)
    requires k <= |ws| && Ledger(s, e, ws[..k], Halves(ws[k..])) && Buffer(t) == Buffer(s)
    requires Installed(t.header, ws + [w]) && t.nwords == 0 && t.checksum == 0 && !InPulse(t.last)
    ensures Ledger(t, |Buffer(t)|, (ws + [w])[..|ws| + 1], Halves((ws + [w])[|ws| + 1..]))
  {
    hide Traced, Installed, InPulse, Buffer, Within, Low24;
    var ps, all := Buffer(s), ws + [w];
    var c :| LedgerBy(s, e, ws[..k], Halves(ws[k..]), c);
    var d :| OpenFrom(s, d) && Traced(ps[e..], d, c);
    TracedDrop(ps[e..], d, c);
    TracedWiden(ps[e..], [], c, Halves(ws[k..]));
    TracedJoin(ps, e, Halves(ws[..k]), Halves(ws[k..]));
    HalvesAppend(ws[..k], ws[k..]);
    assert ws[..k] + ws[k..] == ws;
    CutMore(ws, 0, w);
    assert (ws + [w])[0..] == all && ws[0..] == ws;
    TracedMore(ps, [], Halves(ws), w.lo);
    TracedMore(ps, [], Halves(ws) + [w.lo], w.hi);
    assert Halves(ws) + [w.lo] + [w.hi] == Halves(all);
    assert all[..|ws| + 1] == all && all[|ws| + 1..] == [] && Halves([]) == [];
    assert ps[..|ps|] == ps && ps[|ps|..] == [];
    TracedNone([]);
    assert OpenFrom(t, []);
    NothingWithin<u16>([]);
    assert Counts(t, []);
    assert LedgerBy(t, |ps|, all[..|ws| + 1], Halves(all[|ws| + 1..]), []);
  }

  lemma HeaderGathers(s: State, ws: seq<Word>, w: Word)
    requires s.headerCount < FEM_HEADER_COUNT && Within(s.headerWords[..s.headerCount], ws) && Class(w) == FemHeader
    ensures var (t, o) := FemHeaderWord(s, w);
            && t.log == s.log && t.debug == s.debug && t.nwords <= s.nwords
            && (o == Accepted ==>
                  && t.headerCount < FEM_HEADER_COUNT && Within(t.headerWords[..t.headerCount], ws + [w])
                  && Buffer(t) == Buffer(s) && t.ch == s.ch && !InPulse(t.last)
                  && ((t.header == s.header && t.nwords == s.nwords && t.checksum == s.checksum)
                      || (Installed(t.header, ws + [w]) && t.nwords == 0 && t.checksum == 0)))
  {
    hide DecodeHeader, DecodeFields, Within, Installed;
    var n := s.headerCount;
    GatheredOne(s.headerWords, n, ws, w);
    var none: seq<Word> := [];
    assert s.headerWords[..0] == none && s.headerWords[n := w][..0] == none && Within(none, ws + [w]) by {
      NothingWithin<Word>(ws + [w]);
    }
  }

  lemma HeaderHonest(s: State, ws: seq<Word>, w: Word)
    requires Honest(s, ws) && Class(w) == FemHeader
    ensures var (t, o) := FemHeaderWord(s, w);
            && t.debug == s.debug && t.nwords <= s.nwords + 2
            && if o == Accepted then Honest(t, ws + [w]) else t.log == s.log
  {
    hide FemHeaderWord, AllBacked, Within, InPulse, Installed, Halves, Ledger, Class;
    HeaderGathers(s, ws, w);
    var (t, o) := FemHeaderWord(s, w);
    if o == Accepted {
      BackedMore(s.log, ws, w);
      var k, e: nat :| 0 <= k <= |ws| && Ledger(s, e, ws[..k], Halves(ws[k..]));
      if t.header == s.header && t.nwords == s.nwords && t.checksum == s.checksum {
        var u := t.(headerCount := s.headerCount, headerWords := s.headerWords, debug := s.debug);
        LedgerSame(s, u, e, ws[..k], Halves(ws[k..]), w);
        LedgerOnly(u, t, e, ws[..k], Halves(ws[k..]) + [w.lo, w.hi]);
        CutMore(ws, k, w);
        assert Ledger(t, e, (ws + [w])[..k], Halves((ws + [w])[k..]));
      } else {
        NewLedger(s, t, e, ws, k, w);
      }
    }
  }

  /** The header words gathered do not matter to the ledger. */
  lemma LedgerOnly(s: State, t: State, e: nat, head: seq<Word>, hs: seq<u16>)
    requires Ledger(s, e, head, hs)
    requires t == s.(headerCount := t.headerCount, headerWords := t.headerWords)
    ensures Ledger(t, e, head, hs)
  {
    hide Traced, Installed, InPulse, Low24, Within;
    var c :| LedgerBy(s, e, head, hs, c);
    var d :| OpenFrom(s, d) && Traced(Buffer(s)[e..], d, c);
    assert OpenFrom(t, d);
    assert LedgerBy(t, e, head, hs, c);
  }

  lemma MarkersUnseen(s: State, w: Word)
    requires Class(w) in {EventHeader, EventLastWord}
    ensures Unseen(s, EventHeaderWord(s, w).0) && Unseen(s, s.(last := w))
  {
  }

  lemma DispatchHonest(s: State, ws: seq<Word>, w: Word)
    requires Honest(s, ws)
    ensures var (t, o) := Dispatch(s, w);
            && t.debug == s.debug && t.nwords <= s.nwords + 2
            && if o == Accepted then Honest(t, ws + [w]) else t.log == s.log
  {
    hide Honest, TwoWords, FemHeaderWord, EventHeaderWord, Unseen;
    var (t, o) := Dispatch(s, w);
    match Class(w)
    case EventHeader =>
      MarkersUnseen(s, w);
      UnseenRest(s, t);
      SameHonest(s, t, ws, w);
    case FemHeader =>
      HeaderHonest(s, ws, w);
    case EventLastWord =>
      MarkersUnseen(s, w);
      SameHonest(s, t, ws, w);
    case UndefinedWord =>
      assert Unseen(s, s) by { SelfUnseen(s); }
      SameHonest(s, s, ws, w);
    case _ =>
      TwoHonest(s, ws, w);
  }

  lemma SelfUnseen(s: State)
    ensures Unseen(s, s) && Unseen(s, s.(searching := false)) && Unseen(s, s.(last := ALL_ONES))
  {
  }

  /** The run goes on behind a refused word in debug mode only. */
  predicate GoesOn(t: State, o: Outcome) { o == Accepted || (o == Rejected && t.debug) }

  lemma HonestBacked(s: State, ws: seq<Word>, w: Word)
    requires Honest(s, ws)
    ensures AllBacked(s.log, ws + [w])
  {
    hide AllBacked;
    BackedMore(s.log, ws, w);
  }

  lemma SearchingHonest(s: State, ws: seq<Word>)
    requires Honest(s, ws)
    ensures Honest(s.(searching := false), ws)
  {
    hide AllBacked, Within, Ledger, Halves;
    var t := s.(searching := false);
    var k, e: nat :| 0 <= k <= |ws| && Ledger(s, e, ws[..k], Halves(ws[k..]));
    LedgerSearching(s, t, e, ws[..k], Halves(ws[k..]));
    assert Ledger(t, e, ws[..k], Halves(ws[k..]));
  }

  lemma LedgerSearching(s: State, t: State, e: nat, head: seq<Word>, hs: seq<u16>)
    requires Ledger(s, e, head, hs) && t == s.(searching := false)
    ensures Ledger(t, e, head, hs)
  {
    hide Traced, Installed, InPulse, Low24, Within;
    var c :| LedgerBy(s, e, head, hs, c);
    var d :| OpenFrom(s, d) && Traced(Buffer(s)[e..], d, c);
    assert OpenFrom(t, d);
    assert LedgerBy(t, e, head, hs, c);
  }

  /** One word of any kind keeps the ledger, unless the program stops; the log is accounted
      for in any case. */
  lemma StepFair(s: State, ws: seq<Word>, w: Word)
    requires Honest(s, ws)
    ensures var (t, o) := Step(s, w);
            AllBacked(t.log, ws + [w]) && (GoesOn(t, o) ==> Honest(t, ws + [w]))
  {
    hide Dispatch, Honest, AllBacked, Unseen, Cleared, Class;
    var s0 := s.(searching := false);
    HonestBacked(s, ws, w);
    if s.searching && !(Class(w) == FemHeader && Class(s.last) != FemHeader) {
      SelfUnseen(s);
      SameHonest(s, s.(last := ALL_ONES), ws, w);
      UnseenRest(s, s.(last := ALL_ONES));
    } else {
      SearchingHonest(s, ws);
      DispatchHonest(s0, ws, w);
      var (t, o) := Dispatch(s0, w);
      if o == Accepted {
        HonestLogged(t, ws + [w]);
      } else if o == Rejected && s.debug {
        var u := t.(searching := true);
        ClearClears(u);
        HonestCount(s, ws);
        ClearedHonest(ClearEvent(u), ws + [w]);
      }
    }
  }

  lemma HonestLogged(s: State, ws: seq<Word>)
    requires Honest(s, ws)
    ensures AllBacked(s.log, ws)
  {
  }

  // ----- whole runs -----

  /** The decoding loop: it ends at a refused word, or goes on behind it in debug mode; an
      exception or undefined behaviour ends it. */
  function Endure(s: State, ws: seq<Word>): (State, bool) {
    if ws == [] then (s, true)
    else
      var (t, going) := Endure(s, ws[..|ws| - 1]);
      if !going then (t, false)
      else
        var (u, o) := Step(t, ws[|ws| - 1]);
        (u, GoesOn(u, o))
  }

  lemma {:induction false} EndureFair(s: State, ws: seq<Word>)
    requires Honest(s, [])
    ensures var (t, going) := Endure(s, ws);
            AllBacked(t.log, ws) && (going ==> Honest(t, ws))
  {
    hide Step, AllBacked, Within, Ledger;
    if ws != [] {
      var front, w := ws[..|ws| - 1], ws[|ws| - 1];
      assert ws == front + [w];
      EndureFair(s, front);
      var (t, going) := Endure(s, front);
      if going {
        StepFair(t, front, w);
      } else {
        BackedMore(t.log, front, w);
      }
    }
  }

  /** Whatever words come in: every event in the log has a header that six of them decode
      to, count and checksum of words received after these, and pulses whose samples are
      received words' own: first those left in the buffer before the header, then, with the
      header's module numbers, those of the very words that were counted and summed. The
      header can be missing only behind 2^31 words. */
  lemma NothingUnbacked(checkOverflow: bool, debug: bool, ws: seq<Word>)
    ensures AllBacked(Endure(Fresh(checkOverflow, debug), ws).0.log, ws)
  {
    var s := Fresh(checkOverflow, debug);
    assert Cleared(s);
    ClearedHonest(s, []);
    EndureFair(s, ws);
  }

  /** Before the counter can come round no event is stored without a header. */
  lemma AllHeaded(checkOverflow: bool, debug: bool, ws: seq<Word>)
    requires |ws| < 0x8000_0000
    ensures forall e :: e in Endure(Fresh(checkOverflow, debug), ws).0.log ==> Fits(e.header)
  {
    hide Endure, Divided, Fresh, Within;
    NothingUnbacked(checkOverflow, debug, ws);
    forall e | e in Endure(Fresh(checkOverflow, debug), ws).0.log
      ensures Fits(e.header)
    {
      BackedFits(e, ws);
    }
  }

  lemma BackedFits(e: StoredEvent, ws: seq<Word>)
    requires |ws| < 0x8000_0000 && Backed(e, ws)
    ensures Fits(e.header)
  {
    hide Divided, Halves, Within, Backs, DecodeHeader, Fits;
    var k :| 0 <= k <= |ws| && Vouched(e, ws[..k], Halves(ws[k..]));
    var early: nat, c :| VouchedBy(e, early, ws[..k], Halves(ws[k..]), c);
    HalvesLength(ws[k..]);
    var head := ws[..k];
    var six: HeaderWords :|
      Within(six, head) && six[FEM_HEADER_COUNT - 1] == head[|head| - 1] && DecodeHeader(six) == Some(e.header);
    DecodedFits(six);
  }

  /** The run that stops at the first refused word is such a run over the words it took. */
  lemma {:induction false} RunEndures(s: State, ws: seq<Word>) returns (k: nat)
    ensures k <= |ws| && Run(s, ws).0 == Endure(s, ws[..k]).0
    ensures Run(s, ws).1 == Accepted ==> k == |ws| && Endure(s, ws).1
  {
    hide Step;
    if ws == [] {
      k := 0;
    } else {
      var front, w := ws[..|ws| - 1], ws[|ws| - 1];
      assert ws == front + [w];
      FeedAppend(Step, s, front, [w]);
      FeedOne(Step, Run(s, front).0, w);
      k := RunEndures(s, front);
      if Run(s, front).1 == Accepted {
        assert front[..k] == front;
        k := |ws|;
        assert ws[..k] == ws;
      } else {
        assert ws[..k] == front[..k];
      }
    }
  }
}
