/** The gate in front of the event store, on every stream, well formed or not: the header,
    the counters and the channels that are stored agree with words really received. */
module TpcGate {
  import opened Division
  import opened Words
  import opened FemHeader
  import opened Machine
  import opened Received
  import opened TpcSpec
  import opened TpcPayload

  /** The sum that a header's checksum lets through: its own, or one short by 0x503f. */
  predicate SumPasses(sum: nat, checksum: u32) { Low24(sum) == checksum || Low24(sum + 0x503f) == checksum }

  /** The words `c` have the header's checksum and its count, or one more and the last of
      them ends a channel. */
  predicate Backs(c: seq<u16>, h: HeaderInfo) {
    && SumPasses(Sum(c), h.checksum)
    && (Wrap(|c|) == h.nwords || (c != [] && Tag(c[|c| - 1]) == 5 && Wrap(|c|) == Wrap(h.nwords + 1)))
  }

  /** The words up to the last of a header, and their halves. */
  datatype Past = Past(words: seq<Word>, halves: seq<u16>)

  function UpTo(ws: seq<Word>, k: nat): Past
    requires k <= |ws|
  {
    Past(ws[..k], Halves(ws[..k]))
  }

  /** The event was stored while no header was at hand. */
  predicate HeaderLess(e: StoredEvent) { e.header == BLANK_HEADER }

  /** Where the channels behind the header come from: the words that were counted, or, with
      a header that announces none, so that none are counted, all received. */
  function Basis(h: HeaderInfo, hs: seq<u16>, c: seq<u16>): seq<u16> { if h.nwords == 0 then hs else c }

  /** The header came with the end of `head`; the words `c` back it and spell the channels
      behind it. */
  ghost predicate AccountedBy(e: StoredEvent, head: Past, hs: seq<u16>, c: seq<u16>) {
    && Within(c, hs) && (HeaderLess(e) || (Installed(e.header, head.words) && Backs(c, e.header)))
    && Paid(e, head.halves, Basis(e.header, hs, c))
  }

  ghost predicate Accounted(e: StoredEvent, head: Past, hs: seq<u16>) {
    exists c :: AccountedBy(e, head, hs, c)
  }

  ghost predicate Backed(e: StoredEvent, ws: seq<Word>) {
    exists k :: 0 <= k <= |ws| && Accounted(e, UpTo(ws, k), Halves(ws[k..]))
  }

  ghost predicate AllBacked(log: seq<StoredEvent>, ws: seq<Word>) {
    forall i :: 0 <= i < |log| ==> Backed(log[i], ws)
  }

  // ----- the ledger -----

  /** The counters are those of the words `c`. */
  predicate Counts(s: State, c: seq<u16>) {
    Low24(s.checksum) == Low24(Sum(c)) && s.nwords == Wrap(|c|)
  }

  /** No header is at hand, or one installed at the end of `head`, with counters that are
      those of the words `c`; these spell the channels held, but for those held before. */
  ghost predicate LedgerBy(s: State, head: Past, hs: seq<u16>, c: seq<u16>) {
    && Within(c, hs) && (s.header == BLANK_HEADER || (Installed(s.header, head.words) && Counts(s, c)))
    && Held(s, head.halves, Basis(s.header, hs, c))
  }

  ghost predicate Ledger(s: State, head: Past, hs: seq<u16>) { exists c :: LedgerBy(s, head, hs, c) }

  /** What was added to the log is accounted for. */
  ghost predicate Added(log: seq<StoredEvent>, more: seq<StoredEvent>, head: Past, hs: seq<u16>) {
    log <= more && forall i :: |log| <= i < |more| ==> Accounted(more[i], head, hs)
  }

  /** The header words gathered so far are the same, or forgotten with the header. */
  predicate HeaderKept(s: State, t: State) {
    || (t.headerCount == 0 && t.header == BLANK_HEADER)
    || (t.headerCount == s.headerCount && t.headerWords == s.headerWords
        && (t.header == s.header || t.header == BLANK_HEADER))
  }

  /** What part of a step leaves. A refused word is in no count, but may be in a channel
      until the event is cleared. */
  ghost predicate Fair(s: State, t: State, o: Outcome, head: Past, hs: seq<u16>) {
    && Added(s.log, t.log, head, hs)
    && (o in {Accepted, Rejected} ==> HeaderKept(s, t))
    && (o == Accepted ==> Ledger(t, head, hs))
    && (o == Rejected ==> Held(t, head.halves, hs))
  }

  // ----- more words -----

  lemma AccountedMore(e: StoredEvent, head: Past, hs: seq<u16>, w: u16)
    requires Accounted(e, head, hs)
    ensures Accounted(e, head, hs + [w])
  {
    hide Within, Paid, Installed, Backs;
    var c :| AccountedBy(e, head, hs, c);
    WithinMore(c, hs, w);
    if e.header.nwords == 0 {
      PaidMore(e, head.halves, hs, w);
    }
    assert AccountedBy(e, head, hs + [w], c);
  }

  lemma LedgerMore(s: State, head: Past, hs: seq<u16>, w: u16)
    requires Ledger(s, head, hs)
    ensures Ledger(s, head, hs + [w])
  {
    hide Within, Held, Installed, Counts;
    var c :| LedgerBy(s, head, hs, c);
    WithinMore(c, hs, w);
    if s.header.nwords == 0 {
      HeldMore(s, head.halves, hs, w);
    }
    assert LedgerBy(s, head, hs + [w], c);
  }

  /** The basis is among the words received. */
  lemma BasisHeld(s: State, head: seq<u16>, h: HeaderInfo, hs: seq<u16>, c: seq<u16>)
    requires Held(s, head, Basis(h, hs, c)) && Within(c, hs)
    ensures Held(s, head, hs)
  {
    hide Held, Within;
    WithinSelf(hs);
    HeldWiden(s, head, Basis(h, hs, c), hs);
  }

  lemma LedgerHeld(s: State, head: Past, hs: seq<u16>)
    requires Ledger(s, head, hs)
    ensures Held(s, head.halves, hs)
  {
    hide Held, Within, Installed, Counts;
    var c :| LedgerBy(s, head, hs, c);
    BasisHeld(s, head.halves, s.header, hs, c);
  }

  /** Without a header the channels are all that matters. */
  lemma HeldLedger(s: State, head: Past, hs: seq<u16>)
    requires Held(s, head.halves, hs) && s.header == BLANK_HEADER
    ensures Ledger(s, head, hs)
  {
    hide Held;
    NothingWithin<u16>(hs);
    assert LedgerBy(s, head, hs, []);
  }

  lemma FairMore(s: State, t: State, o: Outcome, head: Past, hs: seq<u16>, w: u16)
    requires Fair(s, t, o, head, hs)
    ensures Fair(s, t, o, head, hs + [w])
  {
    hide Accounted, Ledger, Held;
    forall i | |s.log| <= i < |t.log|
      ensures Accounted(t.log[i], head, hs + [w])
    {
      AccountedMore(t.log[i], head, hs, w);
    }
    if o == Accepted {
      LedgerMore(t, head, hs, w);
    } else if o == Rejected {
      HeldMore(t, head.halves, hs, w);
    }
  }

  lemma FairThen(s: State, t: State, u: State, o: Outcome, head: Past, hs: seq<u16>)
    requires Fair(s, t, Accepted, head, hs) && Fair(t, u, o, head, hs)
    ensures Fair(s, u, o, head, hs)
  {
    hide Accounted, Ledger, Held;
    forall i | |s.log| <= i < |u.log|
      ensures Accounted(u.log[i], head, hs)
    {
      if i < |t.log| {
        assert u.log[i] == t.log[i];
      }
    }
  }

  /** Nothing that the ledger looks at has changed. */
  predicate SameBooks(s: State, t: State) {
    t.log == s.log && t.header == s.header && t.nwords == s.nwords && t.checksum == s.checksum
  }

  predicate SameGathered(s: State, t: State) { t.headerCount == s.headerCount && t.headerWords == s.headerWords }

  lemma Same(s: State, t: State, head: Past, hs: seq<u16>)
    requires SameBooks(s, t) && SameChannels(s, t) && Ledger(s, head, hs)
    ensures Ledger(t, head, hs)
  {
    hide Low24, Wrap, Within, Sum, Installed, Held;
    var c :| LedgerBy(s, head, hs, c);
    HeldSame(s, t, head.halves, Basis(s.header, hs, c));
    assert LedgerBy(t, head, hs, c);
  }

  // ----- storing -----

  /** The gate: an event is stored exactly when there is a buffer, the count is the
      header's, and the sum is the header's or short by 0x503f. */
  lemma FlushExactly(s: State)
    ensures var t := FlushAndStore(s).0;
            if s.event.Some? && s.nwords == s.header.nwords && SumPasses(s.checksum, s.header.checksum) then
              |t.log| == |s.log| + 1 && t.log[..|s.log|] == s.log && t.log[|s.log|].header == s.header
            else t.log == s.log
  {
  }

  lemma SamePasses(a: nat, b: nat, checksum: u32)
    requires Low24(a) == Low24(b)
    ensures SumPasses(a, checksum) <==> SumPasses(b, checksum)
  {
    AddLow(a, b, 0x503f);
    WrapLow24(a + 0x503f);
  }

  lemma FlushClears(s: State)
    ensures var (t, o) := FlushAndStore(s);
            if s.event.None? then t == s && o == Undefined
            else t.header == BLANK_HEADER && t.headerCount == 0 && o in {Accepted, Rejected}
  {
  }

  /** The words `c` are enough for the header, if the counters agree with it. */
  ghost predicate Ready(s: State, head: Past, hs: seq<u16>, c: seq<u16>) {
    && Within(c, hs) && Held(s, head.halves, Basis(s.header, hs, c))
    && (s.header == BLANK_HEADER
        || (Installed(s.header, head.words) && Low24(s.checksum) == Low24(Sum(c))
            && (s.nwords == s.header.nwords ==>
                  Wrap(|c|) == s.header.nwords
                  || (c != [] && Tag(c[|c| - 1]) == 5 && Wrap(|c|) == Wrap(s.header.nwords + 1)))))
  }

  /** Storing leaves a ledger in any case, because the event is cleared. */
  lemma FlushFair(s: State, head: Past, hs: seq<u16>, c: seq<u16>)
    requires Ready(s, head, hs, c)
    ensures var (t, o) := FlushAndStore(s);
            Fair(s, t, o, head, hs) && (o in {Accepted, Rejected} ==> Ledger(t, head, hs))
  {
    hide FlushAndStore, Low24, SumPasses, Wrap, Within, Sum, Installed, Tag, Held, Paid;
    FlushExactly(s);
    FlushClears(s);
    FlushFollows(s, head.halves, Basis(s.header, hs, c));
    var (t, o) := FlushAndStore(s);
    if t.log != s.log {
      if s.header != BLANK_HEADER {
        SamePasses(s.checksum, Sum(c), s.header.checksum);
        assert Backs(c, s.header);
      }
      assert AccountedBy(t.log[|s.log|], head, hs, c);
    }
    if o in {Accepted, Rejected} {
      BasisHeld(t, head.halves, s.header, hs, c);
      HeldLedger(t, head, hs);
    }
  }

  // ----- one channel word -----

  lemma PlainAction(s: State, w: u16)
    requires Class(Short(w)) != ChannelLastWord
    ensures var (t, o) := ChannelAction(s, w);
            SameBooks(s, t) && SameGathered(s, t) && o in {Accepted, Rejected}
  {
  }

  /** A channel's last word completes the words of the header. */
  lemma CloseReady(s: State, s2: State, head: Past, hs: seq<u16>, c: seq<u16>, w: u16)
    requires LedgerBy(s, head, hs, c) && Tag(w) == 5 && Held(s2, head.halves, Basis(s.header, hs, c))
    requires s2.header == s.header && s2.nwords == s.nwords && s2.checksum == Wrap(s.checksum + w)
    ensures Ready(s2, head, hs + [w], c + [w])
  {
    hide Low24, Wrap, Within, Sum, Installed, Tag, Held;
    WithinMore(c, hs, w);
    HeldMore(s2, head.halves, Basis(s.header, hs, c), w);
    if s.header != BLANK_HEADER {
      SumMore(s.checksum, c, w);
      assert (c + [w])[|c + [w]| - 1] == w;
      WrapAdd(|c|, 1);
    }
  }

  /** Closing a channel leaves the books as they are, or stores. */
  lemma CloseFair(s: State, head: Past, hs: seq<u16>, c: seq<u16>, w: u16)
    requires LedgerBy(s, head, hs, c) && Tag(w) == 5
    ensures var (t, o) := CloseChannel(s, w);
            && o in {Accepted, Rejected, Undefined}
            && ((SameBooks(s, t) && SameGathered(s, t) && Held(t, head.halves, Basis(s.header, hs, c)))
                || (Fair(s, t, o, head, hs + [w])
                    && (o in {Accepted, Rejected} ==> Ledger(t, head, hs + [w]) && t.header == BLANK_HEADER)))
  {
    hide FlushAndStore, Low24, SumPasses, Wrap, Within, Sum, Class, Installed, Held;
    if Field(w) == s.ch.number && s.event.Some? {
      var s1 := PushChannel(s);
      PushHeld(s, head.halves, Basis(s.header, hs, c));
      if s1.nwords == s1.header.nwords {
        var s2 := s1.(checksum := Wrap(s1.checksum + w));
        HeldSame(s1, s2, head.halves, Basis(s.header, hs, c));
        CloseReady(s, s2, head, hs, c, w);
        FlushFair(s2, head, hs + [w], c + [w]);
        FlushClears(s2);
        FairPushed(s, s2, FlushAndStore(s2).0, FlushAndStore(s2).1, head, hs + [w]);
      }
    }
  }

  lemma FairPushed(s: State, s2: State, t: State, o: Outcome, head: Past, hs: seq<u16>)
    requires Fair(s2, t, o, head, hs) && s2.log == s.log && s2.header == s.header && SameGathered(s, s2)
    ensures Fair(s, t, o, head, hs)
  {
    hide Accounted, Ledger, Held;
  }

  lemma CountFair(s: State, t: State, head: Past, hs: seq<u16>, c: seq<u16>, w: u16)
    requires LedgerBy(s, head, hs, c) && SameBooks(s, t) && Held(t, head.halves, Basis(s.header, hs, c) + [w])
    ensures Ledger(Count(t, w), head, hs + [w])
  {
    hide Low24, Wrap, Within, Sum, Installed, Held;
    WithinMore(c, hs, w);
    var u := Count(t, w);
    HeldSame(t, u, head.halves, Basis(s.header, hs, c) + [w]);
    if t.header.nwords != 0 {
      SumMore(s.checksum, c, w);
      assert LedgerBy(u, head, hs + [w], c + [w]);
    } else {
      assert LedgerBy(u, head, hs + [w], c);
    }
  }

  lemma LastTag(w: u16)
    ensures Class(Short(w)) == ChannelLastWord <==> Tag(w) == 5
  {
  }

  lemma CountKeeps(t: State, w: u16)
    ensures SameGathered(t, Count(t, w)) && SameChannels(t, Count(t, w)) && Count(t, w).log == t.log
    ensures t.header.nwords == 0 ==> Count(t, w) == t
  {
  }

  /** The word leaves the books as they are; it is counted if it was accepted. */
  lemma PlainFair(s: State, t: State, o: Outcome, head: Past, hs: seq<u16>, c: seq<u16>, w: u16)
    requires LedgerBy(s, head, hs, c) && SameBooks(s, t) && SameGathered(s, t) && o in {Accepted, Rejected}
    requires Held(t, head.halves, Basis(s.header, hs, c) + [w])
    ensures var u := (if o == Accepted then Count(t, w) else t).(last := Short(w)); Fair(s, u, o, head, hs + [w])
  {
    hide Held, Ledger, Accounted, Count, Within, Counts, Installed;
    CountKeeps(t, w);
    var v := if o == Accepted then Count(t, w) else t;
    var u := v.(last := Short(w));
    if o == Accepted {
      CountFair(s, t, head, hs, c, w);
      Same(v, u, head, hs + [w]);
    } else {
      WithinMore(c, hs, w);
      WithinSelf(hs + [w]);
      HeldWiden(t, head.halves, Basis(s.header, hs, c) + [w], hs + [w]);
      HeldSame(t, u, head.halves, hs + [w]);
    }
  }

  /** The word stored the event; no header is left to count for. */
  lemma StoredFair(s: State, t: State, o: Outcome, head: Past, hs: seq<u16>, w: u16)
    requires Fair(s, t, o, head, hs) && Ledger(t, head, hs) && t.header == BLANK_HEADER && o in {Accepted, Rejected}
    ensures var u := (if o == Accepted then Count(t, w) else t).(last := Short(w)); Fair(s, u, o, head, hs)
  {
    hide Held, Ledger, Accounted, Count;
    CountKeeps(t, w);
    var u := t.(last := Short(w));
    Same(t, u, head, hs);
    LedgerHeld(u, head, hs);
  }

  lemma ChWordFair(s: State, head: Past, hs: seq<u16>, w: u16)
    requires Ledger(s, head, hs)
    ensures var (t, o) := ChWord(s, w);
            o in {Accepted, Rejected, Undefined} && Fair(s, t, o, head, hs + [w])
  {
    hide Class, Tag, CloseChannel, ChannelAction, Accounted, Count, Held, Within, Counts, Installed, Basis;
    LastTag(w);
    if w == 0 && Class(s.last) == ChannelLastWord {
      LedgerMore(s, head, hs, w);
    } else {
      var c :| LedgerBy(s, head, hs, c);
      var (t, o) := ChannelAction(s, w);
      var b := Basis(s.header, hs, c);
      ActionParts(s, w);
      if Class(Short(w)) == ChannelLastWord {
        CloseFair(s, head, hs, c, w);
        if SameBooks(s, t) && SameGathered(s, t) && Held(t, head.halves, b) {
          HeldMore(t, head.halves, b, w);
          if o != Undefined {
            PlainFair(s, t, o, head, hs, c, w);
          }
        } else if o != Undefined {
          StoredFair(s, t, o, head, hs + [w], w);
        }
      } else {
        PlainAction(s, w);
        PlainHeld(s, head.halves, b, w);
        PlainFair(s, t, o, head, hs, c, w);
      }
    }
  }

  lemma ActionParts(s: State, w: u16)
    ensures Class(Short(w)) == ChannelLastWord ==> ChannelAction(s, w) == CloseChannel(s, w)
  {
  }

  lemma TwoFair(s: State, head: Past, hs: seq<u16>, w: Word)
    requires Ledger(s, head, hs)
    ensures var (t, o) := TwoChWords(s, w);
            o in {Accepted, Rejected, Undefined} && Fair(s, t, o, head, hs + [w.lo, w.hi])
  {
    hide ChWord, Ledger, Added, Held;
    assert hs + [w.lo, w.hi] == hs + [w.lo] + [w.hi];
    ChWordFair(s, head, hs, w.lo);
    var (t, o) := ChWord(s, w.lo);
    FairMore(s, t, o, head, hs + [w.lo], w.hi);
    if o == Accepted {
      ChWordFair(t, head, hs + [w.lo], w.hi);
      FairThen(s, t, ChWord(t, w.hi).0, ChWord(t, w.hi).1, head, hs + [w.lo, w.hi]);
    }
  }

  // ----- one 32-bit word -----

  /** What the ledger says of the state, the header having come with the `k`-th word. */
  ghost predicate Kept(s: State, ws: seq<Word>, k: nat) { k <= |ws| && Ledger(s, UpTo(ws, k), Halves(ws[k..])) }

  /** The ledger of a whole stream: every event accounted for, the header words gathered
      among those received, the counters kept since the last header, and the channels held
      traced to words before it and after it. */
  ghost predicate Honest(s: State, ws: seq<Word>) {
    && AllBacked(s.log, ws)
    && s.headerCount <= FEM_HEADER_COUNT && Within(s.headerWords[..s.headerCount], ws)
    && (s.header == BLANK_HEADER || s.headerCount == FEM_HEADER_COUNT)
    && exists k :: Kept(s, ws, k)
  }

  lemma BackedMore(log: seq<StoredEvent>, ws: seq<Word>, w: Word)
    requires AllBacked(log, ws)
    ensures AllBacked(log, ws + [w])
  {
    hide Accounted;
    forall i | 0 <= i < |log|
      ensures Backed(log[i], ws + [w])
    {
      assert Backed(log[i], ws);
      var k :| 0 <= k <= |ws| && Accounted(log[i], UpTo(ws, k), Halves(ws[k..]));
      CutMore(ws, k, w);
      AccountedMore(log[i], UpTo(ws, k), Halves(ws[k..]), w.lo);
      AccountedMore(log[i], UpTo(ws, k), Halves(ws[k..]) + [w.lo], w.hi);
      assert Halves(ws[k..]) + [w.lo] + [w.hi] == Halves(ws[k..]) + [w.lo, w.hi];
    }
  }

  /** What is logged is accounted for. */
  lemma FairLogged(s: State, t: State, o: Outcome, ws: seq<Word>, k: nat)
    requires AllBacked(s.log, ws) && k <= |ws| && Fair(s, t, o, UpTo(ws, k), Halves(ws[k..]))
    ensures AllBacked(t.log, ws)
  {
    hide Accounted, Ledger, Held, Halves;
    forall i | 0 <= i < |t.log|
      ensures Backed(t.log[i], ws)
    {
      if i < |s.log| {
        assert t.log[i] == s.log[i];
        assert Backed(s.log[i], ws);
      }
    }
  }

  /** What a step leaves of the ledger. */
  lemma FairHonest(s: State, t: State, o: Outcome, ws: seq<Word>, k: nat, w: Word)
    requires Honest(s, ws) && k <= |ws| && (o == Rejected ==> t.header == BLANK_HEADER)
    requires Fair(s, t, o, UpTo(ws, k), Halves(ws[k..]) + [w.lo, w.hi])
    ensures AllBacked(t.log, ws + [w]) && (o in {Accepted, Rejected} ==> Honest(t, ws + [w]))
  {
    hide Ledger, Halves, AllBacked, Added, Within, Held;
    BackedMore(s.log, ws, w);
    CutMore(ws, k, w);
    FairLogged(s, t, o, ws + [w], k);
    if o == Rejected {
      HeldLedger(t, UpTo(ws, k), Halves(ws[k..]) + [w.lo, w.hi]);
    }
    if o in {Accepted, Rejected} {
      GatheredMore(s, t, ws, w);
      assert Kept(t, ws + [w], k);
    }
  }

  lemma GatheredMore(s: State, t: State, ws: seq<Word>, w: Word)
    requires s.headerCount <= FEM_HEADER_COUNT && Within(s.headerWords[..s.headerCount], ws) && HeaderKept(s, t)
    ensures t.headerCount <= FEM_HEADER_COUNT && Within(t.headerWords[..t.headerCount], ws + [w])
  {
    if t.headerCount == 0 {
      NothingWithin(ws + [w]);
      assert t.headerWords[..0] == [];
    } else {
      WithinMore(s.headerWords[..s.headerCount], ws, w);
    }
  }

  lemma SameLedger(s: State, t: State, head: Past, hs: seq<u16>, w: Word)
    requires SameBooks(s, t) && SameChannels(s, t) && Ledger(s, head, hs)
    ensures Ledger(t, head, hs + [w.lo, w.hi])
  {
    hide Ledger;
    assert hs + [w.lo, w.hi] == hs + [w.lo] + [w.hi];
    Same(s, t, head, hs);
    LedgerMore(t, head, hs, w.lo);
    LedgerMore(t, head, hs + [w.lo], w.hi);
  }

  lemma SameFair(s: State, t: State, o: Outcome, head: Past, hs: seq<u16>, w: Word)
    requires Ledger(s, head, hs) && SameBooks(s, t) && SameChannels(s, t) && SameGathered(s, t)
    ensures Fair(s, t, o, head, hs + [w.lo, w.hi])
  {
    hide Ledger, Accounted, Held;
    SameLedger(s, t, head, hs, w);
    LedgerHeld(t, head, hs + [w.lo, w.hi]);
  }

  lemma EventHeaderKeeps(s: State, w: Word)
    ensures var (t, o) := EventHeaderWord(s, w);
            SameBooks(s, t) && SameChannels(s, t) && SameGathered(s, t) && o in {Accepted, Rejected}
  {
  }

  lemma EventLastKeeps(s: State, w: Word)
    ensures var (t, o) := EventLastWordStep(s, w);
            SameBooks(s, t) && SameChannels(s, t) && SameGathered(s, t) && o in {Accepted, Rejected}
  {
  }

  lemma LedgerReady(s: State, s1: State, head: Past, hs: seq<u16>)
    requires Ledger(s, head, hs) && SameChannels(s, s1) && s1.nwords == s.nwords
    requires Low24(s1.checksum) == Low24(s.checksum)
    ensures exists c :: Ready(s1, head, hs, c)
  {
    hide Low24, Wrap, Within, Sum, Installed, Tag, Held;
    var c :| LedgerBy(s, head, hs, c);
    HeldSame(s, s1, head.halves, Basis(s.header, hs, c));
    assert Ready(s1, head, hs, c);
  }

  /** The end word does not show in the low 24 bits. */
  lemma EndLow(sum: nat)
    ensures Low24(Wrap(sum + EVENT_LAST.Value())) == Low24(sum)
  {
    assert EVENT_LAST.Value() == 0xe0 * 0x100_0000;
    var q, r := sum / 0x100_0000, sum % 0x100_0000;
    DivMod(sum + EVENT_LAST.Value(), 0x100_0000, q + 0xe0, r);
    WrapLow24(sum + EVENT_LAST.Value());
  }

  lemma TwoMore(s: State, t: State, o: Outcome, head: Past, hs: seq<u16>, w: Word)
    requires Fair(s, t, o, head, hs)
    ensures Fair(s, t, o, head, hs + [w.lo, w.hi])
  {
    hide Fair;
    FairMore(s, t, o, head, hs, w.lo);
    FairMore(s, t, o, head, hs + [w.lo], w.hi);
    assert hs + [w.lo] + [w.hi] == hs + [w.lo, w.hi];
  }

  /** The end word goes into the sum before the event is stored. */
  lemma EndFlush(s: State, s1: State, head: Past, hs: seq<u16>)
    requires Ledger(s, head, hs) && s1 == s.(checksum := Wrap(s.checksum + EVENT_LAST.Value()))
    ensures var (t, o) := FlushAndStore(s1);
            && o in {Accepted, Rejected, Undefined} && Fair(s, t, o, head, hs)
            && (o != Undefined ==> Ledger(t, head, hs))
  {
    hide FlushAndStore, Ledger, Ready, Low24, Fair, Wrap;
    EndLow(s.checksum);
    LedgerReady(s, s1, head, hs);
    var c :| Ready(s1, head, hs, c);
    FlushFair(s1, head, hs, c);
    FlushClears(s1);
    FairPushed(s, s1, FlushAndStore(s1).0, FlushAndStore(s1).1, head, hs);
  }

  function Ended(s: State, s1: State): (State, Outcome)
  {
    var (s2, o2) := FlushAndStore(s1);
    if s.nwords != s.header.nwords then EventLastWordStep(s, EVENT_LAST)
    else if o2 == Undefined then (s2, o2)
    else EventLastWordStep(s2, EVENT_LAST)
  }

  lemma EndDispatch(s: State, w: Word)
    requires Class(w) == EventLastWord
    ensures w == EVENT_LAST
    ensures Dispatch(s, w) == Ended(s, s.(checksum := Wrap(s.checksum + EVENT_LAST.Value())))
  {
    hide FlushAndStore, EventLastWordStep, Wrap;
  }

  lemma EndFair(s: State, head: Past, hs: seq<u16>, w: Word)
    requires Ledger(s, head, hs) && Class(w) == EventLastWord
    ensures var (t, o) := Dispatch(s, w); Fair(s, t, o, head, hs + [w.lo, w.hi])
  {
    hide FlushAndStore, EventLastWordStep, Class, Ledger, Fair, Wrap, Dispatch;
    var s1 := s.(checksum := Wrap(s.checksum + EVENT_LAST.Value()));
    EndDispatch(s, w);
    if s.nwords == s.header.nwords {
      EndFlush(s, s1, head, hs);
      var (s2, o2) := FlushAndStore(s1);
      if o2 != Undefined {
        EndWordFair(s, s2, o2, head, hs, w);
      }
      TwoMore(s, Ended(s, s1).0, Ended(s, s1).1, head, hs, w);
    } else {
      EventLastKeeps(s, w);
      SameFair(s, EventLastWordStep(s, w).0, EventLastWordStep(s, w).1, head, hs, w);
    }
  }

  lemma EndWordFair(s: State, t: State, o: Outcome, head: Past, hs: seq<u16>, w: Word)
    requires Fair(s, t, o, head, hs) && o in {Accepted, Rejected} && Ledger(t, head, hs)
    ensures Fair(s, EventLastWordStep(t, w).0, EventLastWordStep(t, w).1, head, hs)
  {
    hide EventLastWordStep, Ledger, Fair;
    EventLastKeeps(t, w);
    var (u, o') := EventLastWordStep(t, w);
    Same(t, u, head, hs);
    FairFrom(s, t, o, u, o', head, hs);
  }

  lemma FairFrom(s: State, t: State, o: Outcome, u: State, o': Outcome, head: Past, hs: seq<u16>)
    requires Fair(s, t, o, head, hs) && o in {Accepted, Rejected}
    requires Ledger(u, head, hs) && SameBooks(t, u) && SameGathered(t, u)
    ensures Fair(s, u, o', head, hs)
  {
    hide Ledger, Held, Accounted;
    LedgerHeld(u, head, hs);
  }

  lemma OtherFair(s: State, head: Past, hs: seq<u16>, w: Word)
    requires Ledger(s, head, hs) && Class(w) != FemHeader && Class(w) != EventLastWord
    ensures var (t, o) := Dispatch(s, w); Fair(s, t, o, head, hs + [w.lo, w.hi])
  {
    hide TwoChWords, EventHeaderWord, Class, Ledger, Fair;
    TwoFair(s, head, hs, w);
    var s1 := s.(searching := false);
    EventHeaderKeeps(s1, w);
    SameFair(s, EventHeaderWord(s1, w).0, EventHeaderWord(s1, w).1, head, hs, w);
  }

  lemma SettleFair(s: State, t: State, o: Outcome, head: Past, hs: seq<u16>)
    requires Fair(s, t, o, head, hs)
    ensures var (u, o') := Settle(t, o);
            Fair(s, u, o', head, hs) && (o' == Rejected ==> u.header == BLANK_HEADER)
  {
    hide Accounted, Ledger, Held;
    if o == Rejected && t.event.Some? {
      ClearHeld(t, Settle(t, o).0, head.halves, hs);
    }
  }

  // ----- a header word -----

  /** The header words gathered are among those received; a header that is completed came
      with this very word, and none was at hand. */
  lemma HeaderGathers(s: State, ws: seq<Word>, w: Word)
    requires s.headerCount <= FEM_HEADER_COUNT && Within(s.headerWords[..s.headerCount], ws)
    requires s.header == BLANK_HEADER || s.headerCount == FEM_HEADER_COUNT
    ensures var (t, o) := FemHeaderWord(s, w);
            && t.log == s.log && Buffer(t) == Buffer(s) && t.ch == s.ch
            && (o in {Accepted, Rejected} ==>
                  && t.headerCount <= FEM_HEADER_COUNT && Within(t.headerWords[..t.headerCount], ws + [w])
                  && (t.header == BLANK_HEADER || t.headerCount == FEM_HEADER_COUNT)
                  && (SameBooks(s, t)
                      || (s.header == BLANK_HEADER && Installed(t.header, ws + [w])
                          && t.nwords == 0 && t.checksum == 0)))
  {
    hide Class, DecodeHeader, DecodeFields, Within;
    var n := s.headerCount;
    WithinMore(s.headerWords[..n], ws, w);
    if n < FEM_HEADER_COUNT {
      GatheredOne(s.headerWords, n, ws, w);
    }
  }

  lemma HeaderWordHonest(s: State, ws: seq<Word>, w: Word)
    requires Honest(s, ws)
    ensures var (t, o) := FemHeaderWord(s, w);
            AllBacked(t.log, ws + [w]) && (o in {Accepted, Rejected} ==> Honest(t, ws + [w]))
  {
    hide FemHeaderWord, Ledger, Within, AllBacked, Halves, Installed, Buffer;
    HeaderGathers(s, ws, w);
    BackedMore(s.log, ws, w);
    var (t, o) := FemHeaderWord(s, w);
    if o in {Accepted, Rejected} {
      var k: nat :| Kept(s, ws, k);
      if SameBooks(s, t) {
        CutMore(ws, k, w);
        SameLedger(s, t, UpTo(ws, k), Halves(ws[k..]), w);
        assert Kept(t, ws + [w], k);
      } else {
        NewKept(s, t, ws, k, w);
      }
    }
  }

  /** With a new header everything received is before it. */
  lemma NewKept(s: State, t: State, ws: seq<Word>, k: nat, w: Word)
    requires Kept(s, ws, k) && s.header == BLANK_HEADER && Buffer(t) == Buffer(s) && t.ch == s.ch
    requires Installed(t.header, ws + [w]) && t.nwords == 0 && t.checksum == 0
    ensures Kept(t, ws + [w], |ws| + 1)
  {
    hide Held, Buffer, Installed;
    var all := ws + [w];
    LedgerHeld(s, UpTo(ws, k), Halves(ws[k..]));
    InstallHeld(s, t, Halves(ws[..k]), Halves(ws[k..]));
    HalvesAppend(ws[..k], ws[k..]);
    assert ws[..k] + ws[k..] == ws;
    HeldWider(t, Halves(ws), w.lo);
    HeldWider(t, Halves(ws) + [w.lo], w.hi);
    CutMore(ws, 0, w);
    assert all[0..] == all && ws[0..] == ws;
    assert Halves(ws) + [w.lo] + [w.hi] == Halves(all);
    assert all[..|ws| + 1] == all && all[|ws| + 1..] == [] && Halves([]) == [];
    NothingWithin<u16>([]);
    assert Counts(t, []);
    assert LedgerBy(t, UpTo(all, |ws| + 1), [], []);
  }

  /** Storing before a header word, with no word consumed. */
  lemma FlushHonest(s: State, t: State, o: Outcome, ws: seq<Word>, k: nat)
    requires Honest(s, ws) && k <= |ws| && o == Accepted && t.header == BLANK_HEADER
    requires Fair(s, t, o, UpTo(ws, k), Halves(ws[k..]))
    ensures Honest(t, ws)
  {
    hide Ledger, Halves, AllBacked, Held, Added, Within;
    FairLogged(s, t, o, ws, k);
    NoneGathered(s, t, ws);
    assert Kept(t, ws, k);
  }

  lemma NoneGathered(s: State, t: State, ws: seq<Word>)
    requires s.headerCount <= FEM_HEADER_COUNT && Within(s.headerWords[..s.headerCount], ws) && HeaderKept(s, t)
    ensures t.headerCount <= FEM_HEADER_COUNT && Within(t.headerWords[..t.headerCount], ws)
  {
    if t.headerCount == 0 {
      NothingWithin(ws);
      assert t.headerWords[..0] == [];
    }
  }

  lemma FemHeaderHonest(s: State, ws: seq<Word>, w: Word)
    requires Honest(s, ws) && Class(w) == FemHeader
    ensures var (t, o) := Dispatch(s, w);
            var (u, o') := Settle(t, o);
            AllBacked(u.log, ws + [w]) && (o' in {Accepted, Rejected} ==> Honest(u, ws + [w]))
  {
    hide FlushAndStore, FemHeaderWord, TwoChWords, Class, Ledger, Fair, AllBacked, Within, Halves, Ready, Settle;
    var k: nat :| Kept(s, ws, k);
    var head, hs := UpTo(ws, k), Halves(ws[k..]);
    var (t, o) := Dispatch(s, w);
    if s.nwords != 0 && s.nwords == s.header.nwords {
      LedgerReady(s, s, head, hs);
      var c :| Ready(s, head, hs, c);
      FlushFair(s, head, hs, c);
      FlushClears(s);
      var (s1, o1) := FlushAndStore(s);
      if o1 == Accepted {
        FlushHonest(s, s1, o1, ws, k);
        HeaderWordHonest(s1, ws, w);
        SettleHonest(t, o, ws + [w]);
      } else {
        TwoMore(s, s1, o1, head, hs, w);
        SettledHonest(s, s1, o1, ws, k, w);
      }
    } else if s.header.nwords == 0 {
      HeaderWordHonest(s, ws, w);
      SettleHonest(t, o, ws + [w]);
    } else {
      TwoFair(s, head, hs, w);
      SettledHonest(s, t, o, ws, k, w);
    }
  }

  // ----- a whole step -----

  lemma SettledHonest(s: State, t: State, o: Outcome, ws: seq<Word>, k: nat, w: Word)
    requires Honest(s, ws) && k <= |ws| && Fair(s, t, o, UpTo(ws, k), Halves(ws[k..]) + [w.lo, w.hi])
    ensures var (u, o') := Settle(t, o);
            AllBacked(u.log, ws + [w]) && (o' in {Accepted, Rejected} ==> Honest(u, ws + [w]))
  {
    hide Settle, Fair, AllBacked, Honest, Halves;
    SettleFair(s, t, o, UpTo(ws, k), Halves(ws[k..]) + [w.lo, w.hi]);
    FairHonest(s, Settle(t, o).0, Settle(t, o).1, ws, k, w);
  }

  /** One word of any kind keeps the ledger, unless the program stops; the log is accounted
      for in any case. */
  lemma StepFair(s: State, ws: seq<Word>, w: Word)
    requires Honest(s, ws)
    ensures var (t, o) := Step(s, w);
            AllBacked(t.log, ws + [w]) && (o in {Accepted, Rejected} ==> Honest(t, ws + [w]))
  {
    hide Dispatch, Settle, Class, Ledger, Fair, AllBacked, Within, Halves;
    var k: nat :| Kept(s, ws, k);
    var head, hs := UpTo(ws, k), Halves(ws[k..]);
    if w == ZERO || (s.searching && !(Class(w) == EventHeader && Class(s.last) == EventLastWord)) {
      var t := Step(s, w).0;
      SameFair(s, t, Accepted, head, hs, w);
      FairHonest(s, t, Accepted, ws, k, w);
    } else if Class(w) == FemHeader {
      FemHeaderHonest(s, ws, w);
    } else {
      if Class(w) == EventLastWord {
        EndFair(s, head, hs, w);
      } else {
        OtherFair(s, head, hs, w);
      }
      SettledHonest(s, Dispatch(s, w).0, Dispatch(s, w).1, ws, k, w);
    }
  }

  lemma SettleHonest(s: State, o: Outcome, ws: seq<Word>)
    requires AllBacked(s.log, ws) && (o in {Accepted, Rejected} ==> Honest(s, ws))
    ensures var (t, o') := Settle(s, o);
            AllBacked(t.log, ws) && (o' in {Accepted, Rejected} ==> Honest(t, ws))
  {
    hide AllBacked, Halves, Ledger, Held;
    if o == Rejected && s.event.Some? {
      var t := Settle(s, o).0;
      var k: nat :| Kept(s, ws, k);
      LedgerHeld(s, UpTo(ws, k), Halves(ws[k..]));
      ClearHeld(s, t, Halves(ws[..k]), Halves(ws[k..]));
      HeldLedger(t, UpTo(ws, k), Halves(ws[k..]));
      NothingWithin(ws);
      assert t.headerWords[..0] == [];
      assert Kept(t, ws, k);
    }
  }

  // ----- whole runs -----

  /** Going on after refused words, as the decoding loop does in debug mode; an exception
      or undefined behaviour ends the run. */
  function Endure(s: State, ws: seq<Word>): (State, bool) {
    if ws == [] then (s, true)
    else
      var (t, going) := Endure(s, ws[..|ws| - 1]);
      if !going then (t, false)
      else
        var (u, o) := Step(t, ws[|ws| - 1]);
        (u, o == Accepted || o == Rejected)
  }

  lemma {:induction false} EndureFair(s: State, ws: seq<Word>)
    requires Honest(s, [])
    ensures var (t, going) := Endure(s, ws);
            AllBacked(t.log, ws) && (going ==> Honest(t, ws))
  {
    hide Step, AllBacked, Honest;
    HonestLogged(s, []);
    if ws != [] {
      var front, w := ws[..|ws| - 1], ws[|ws| - 1];
      assert ws == front + [w];
      EndureFair(s, front);
      var (t, going) := Endure(s, front);
      if going {
        StepFair(t, front, w);
      } else {
        BackedMore(t.log, front, w);
      }
    }
  }

  /** Whatever words come in, every event in the log has the header that six of the words
      received decode to, and words received after these back its count and its sum; or it
      was stored while no header was at hand. Its channels are spelled by received words:
      first those closed while no header was at hand, without module numbers, and then,
      with the header's, those closed since, by the very words that back it. */
  lemma NothingUnbacked(debug: bool, ws: seq<Word>)
    ensures AllBacked(Endure(Fresh(debug), ws).0.log, ws)
  {
    FreshHonest(debug);
    EndureFair(Fresh(debug), ws);
  }

  lemma HonestLogged(s: State, ws: seq<Word>)
    requires Honest(s, ws)
    ensures AllBacked(s.log, ws)
  {
  }

  lemma FreshHonest(debug: bool)
    ensures Honest(Fresh(debug), [])
  {
    hide Traced;
    var s := Fresh(debug);
    var none: seq<Word> := [];
    assert s.headerWords[..0] == [] && none[..0] == none[0..] == [] && Halves(none) == [];
    NothingWithin<u16>([]);
    NothingWithin(none);
    TracedNone([], [], []);
    assert Spells(s.ch, []) && Begun([], []) + [] == [];
    assert HeldFrom(s, [], [], [], [], [], []);
    HeldLedger(s, UpTo(none, 0), []);
    assert Kept(s, none, 0);
  }

  /** The run that stops at the first refused word is such a run over the words it took. */
  lemma {:induction false} RunEndures(s: State, ws: seq<Word>) returns (k: nat)
    ensures k <= |ws| && Run(s, ws).0 == Endure(s, ws[..k]).0
    ensures Run(s, ws).1 == Accepted ==> k == |ws| && Endure(s, ws).1
  {
    hide Step;
    if ws == [] {
      k := 0;
    } else {
      var front, w := ws[..|ws| - 1], ws[|ws| - 1];
      assert ws == front + [w];
      FeedAppend(Step, s, front, [w]);
      FeedOne(Step, Run(s, front).0, w);
      k := RunEndures(s, front);
      if Run(s, front).1 == Accepted {
        assert front[..k] == front;
        k := |ws|;
        assert ws[..k] == ws;
      } else {
        assert ws[..k] == front[..k];
      }
    }
  }

  // ----- events without a header -----

  /** The 16-bit word ends the open channel while the event counter stands at zero, and
      the sum would pass for a checksum of zero. */
  predicate ClosesHeaderless(s: State, w: u16) {
    && Class(Short(w)) == ChannelLastWord && Field(w) == s.ch.number
    && s.event.Some? && s.nwords == 0 && SumPasses(Wrap(s.checksum + w), 0)
  }

  /** A word that stores an event although no header is at hand. */
  predicate StoresHeaderless(s: State, w: Word) {
    && s.event.Some? && s.nwords == 0 && w != ZERO
    && !(s.searching && !(Class(w) == EventHeader && Class(s.last) == EventLastWord))
    && if w == EVENT_LAST then SumPasses(s.checksum, 0)
       else
         && Class(w) != FemHeader && !(Class(w) == EventHeader && Class(s.last) == EventLastWord)
         && (ClosesHeaderless(s, w.lo)
             || (ChWord(s, w.lo).1 == Accepted && ClosesHeaderless(ChWord(s, w.lo).0, w.hi)))
  }

  lemma FlushKeeps(s: State)
    ensures var (t, o) := FlushAndStore(s);
            && t.nwords == s.nwords && t.checksum == s.checksum && t.event.Some? == s.event.Some?
            && (t.header == s.header || t.header == BLANK_HEADER)
            && o in {Accepted, Rejected, Undefined}
  {
  }

  lemma HeaderlessClose(s: State, w: u16)
    requires s.header == BLANK_HEADER
    ensures var (t, o) := CloseChannel(s, w);
            && (t.log != s.log <==>
                Field(w) == s.ch.number && s.event.Some? && s.nwords == 0 && SumPasses(Wrap(s.checksum + w), 0))
            && s.log <= t.log && (t.log != s.log ==> |t.log| == |s.log| + 1 && HeaderLess(t.log[|s.log|]))
            && t.header == BLANK_HEADER && t.event.Some? == s.event.Some? && t.nwords == s.nwords
  {
    hide FlushAndStore, Wrap, Field, SumPasses;
    if Field(w) == s.ch.number && s.event.Some? {
      var s1 := PushChannel(s);
      FlushExactly(s1.(checksum := Wrap(s1.checksum + w)));
      FlushKeeps(s1.(checksum := Wrap(s1.checksum + w)));
    }
  }

  lemma PlainKeeps(s: State, w: u16)
    requires Class(Short(w)) != ChannelLastWord
    ensures var t := ChannelAction(s, w).0;
            t.log == s.log && t.header == s.header && t.event == s.event && t.nwords == s.nwords
  {
  }

  /** A 16-bit word stores an event without a header exactly when it closes one so. */
  lemma HeaderlessChWord(s: State, w: u16)
    requires s.header == BLANK_HEADER
    ensures var t := ChWord(s, w).0;
            && (t.log != s.log <==> ClosesHeaderless(s, w))
            && s.log <= t.log && (t.log != s.log ==> |t.log| == |s.log| + 1 && HeaderLess(t.log[|s.log|]))
            && t.header == BLANK_HEADER && t.event.Some? == s.event.Some? && t.nwords == s.nwords
  {
    hide Class, Wrap, Field, CloseChannel, OpenChannel, Sample, SumPasses;
    ZeroIsNoLast();
    if Class(Short(w)) == ChannelLastWord {
      HeaderlessClose(s, w);
    } else {
      PlainKeeps(s, w);
    }
    if w == 0 && Class(s.last) == ChannelLastWord {
    } else {
      CountNothing(ChannelAction(s, w).0, w);
    }
  }

  lemma ZeroIsNoLast()
    ensures Class(Short(0)) != ChannelLastWord
  {
  }

  lemma CountNothing(s: State, w: u16)
    requires s.header == BLANK_HEADER
    ensures Count(s, w) == s
  {
  }

  lemma HeaderlessTwo(s: State, w: Word)
    requires s.header == BLANK_HEADER
    ensures var t := TwoChWords(s, w).0;
            t.log != s.log <==>
            ClosesHeaderless(s, w.lo) || (ChWord(s, w.lo).1 == Accepted && ClosesHeaderless(ChWord(s, w.lo).0, w.hi))
  {
    hide ChWord, ClosesHeaderless;
    HeaderlessChWord(s, w.lo);
    HeaderlessChWord(ChWord(s, w.lo).0, w.hi);
  }

  lemma HeaderlessEnd(s: State)
    requires s.header == BLANK_HEADER
    ensures Dispatch(s, EVENT_LAST).0.log != s.log <==> s.event.Some? && s.nwords == 0 && SumPasses(s.checksum, 0)
  {
    hide FlushAndStore, Wrap, SumPasses, EventLastWordStep;
    var s1 := s.(checksum := Wrap(s.checksum + EVENT_LAST.Value()));
    EndLow(s.checksum);
    SamePasses(s1.checksum, s.checksum, 0);
    FlushExactly(s1);
    EventLastKeeps(FlushAndStore(s1).0, EVENT_LAST);
    EventLastKeeps(s, EVENT_LAST);
    EndIsEnd();
  }

  lemma EndIsEnd()
    ensures Class(EVENT_LAST) == EventLastWord && EVENT_LAST != ZERO
    ensures forall w: Word :: Class(w) == EventLastWord ==> w == EVENT_LAST
  {
  }

  lemma HeaderlessDispatch(s: State, w: Word)
    requires s.header == BLANK_HEADER && w != EVENT_LAST && s.event.Some?
    ensures var log := Dispatch(s, w).0.log;
            if Class(w) == FemHeader || (Class(w) == EventHeader && Class(s.last) == EventLastWord) then log == s.log
            else log == TwoChWords(s, w).0.log
  {
    hide Class, TwoChWords, EventHeaderWord, FlushAndStore, DecodeHeader;
    EndIsEnd();
    EventHeaderKeeps(s.(searching := false), w);
  }

  lemma SettleLog(s: State, o: Outcome)
    ensures Settle(s, o).0.log == s.log
  {
  }

  /** Exactly when an event is stored although no header is at hand: at the end word, or
      at a channel's last word, with the event counter at zero. */
  lemma HeaderlessExactly(s: State, w: Word)
    requires s.header == BLANK_HEADER
    ensures Step(s, w).0.log != s.log <==> StoresHeaderless(s, w)
  {
    hide Class, Dispatch, Settle, SumPasses, ChWord, ClosesHeaderless;
    SettleLog(Dispatch(s, w).0, Dispatch(s, w).1);
    EndIsEnd();
    if w == EVENT_LAST {
      HeaderlessEnd(s);
    } else if s.event.Some? {
      HeaderlessDispatch(s, w);
      HeaderlessTwo(s, w);
      if s.nwords != 0 {
        NotCounting(s, w);
      }
    } else {
      NoBuffer(s, w);
    }
  }

  lemma NotCounting(s: State, w: Word)
    requires s.header == BLANK_HEADER && s.nwords != 0
    ensures !ClosesHeaderless(s, w.lo) && !ClosesHeaderless(ChWord(s, w.lo).0, w.hi)
  {
    hide ChWord;
    HeaderlessChWord(s, w.lo);
  }

  /** Without an event buffer nothing is stored. */
  lemma NoBuffer(s: State, w: Word)
    requires s.header == BLANK_HEADER && s.event.None? && w != EVENT_LAST
    ensures Dispatch(s, w).0.log == s.log
  {
    hide Class, ChWord, EventHeaderWord, FlushAndStore, DecodeHeader;
    EndIsEnd();
    EventHeaderKeeps(s.(searching := false), w);
    HeaderlessChWord(s, w.lo);
    HeaderlessChWord(ChWord(s, w.lo).0, w.hi);
  }

  /** An event marker followed by the end word: an empty event without a header is stored,
      and the end word is refused. */
  lemma PhantomEvent()
    ensures var (t, o) := Run(Fresh(false), [ALL_ONES, EVENT_LAST]);
            t.log == [StoredEvent(BLANK_HEADER, [])] && o == Rejected
  {
    var s1 := Step(Fresh(false), ALL_ONES).0;
    FeedOne(Step, Fresh(false), ALL_ONES);
    FeedOne(Step, s1, EVENT_LAST);
    FeedAppend(Step, Fresh(false), [ALL_ONES], [EVENT_LAST]);
    assert [ALL_ONES] + [EVENT_LAST] == [ALL_ONES, EVENT_LAST];
  }
}
