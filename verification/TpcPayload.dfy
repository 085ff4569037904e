/** The channels that the TPC decoder holds and stores, traced to the words received. */
module TpcPayload {
  import opened Words
  import opened FemHeader
  import opened DeltaCode
  import opened Received
  import opened TpcSpec

  // ----- channels spelled by words -----

  function Decoded(ws: seq<u16>): seq<u16> {
    if ws == [] then [] else DecodeWord(Decoded(ws[..|ws| - 1]), ws[|ws| - 1]).0
  }

  /** The channel has the number of the word that opened it, if one did, and the samples
      that the words behind it decode to. */
  predicate Spells(ch: Channel, z: seq<u16>) {
    if ch.number == INVALID_CH then ch.samples == Decoded(z)
    else ch.number < 0x1000 && z != [] && z[0] == 0x4000 + ch.number && ch.samples == Decoded(z[1..])
  }

  predicate Spell(chs: seq<Channel>, zs: seq<seq<u16>>) {
    |zs| == |chs| && forall i :: 0 <= i < |chs| ==> Spells(chs[i], zs[i])
  }

  /** The words of the first channel go on where `x` left off. */
  function Carry(x: seq<u16>, ds: seq<seq<u16>>): seq<seq<u16>> {
    if ds == [] then [] else [x + ds[0]] + ds[1..]
  }

  /** The channels are spelled by words of `hs`, in order, each used at most once, the first
      of them by `x` and such words; the words `d` of `hs` come behind them. */
  ghost predicate Traced(chs: seq<Channel>, x: seq<u16>, d: seq<u16>, hs: seq<u16>) {
    exists ds: seq<seq<u16>> :: Spell(chs, Carry(x, ds)) && Within(Flat(ds) + d, hs)
  }

  predicate Stamped(chs: seq<Channel>, h: HeaderInfo) {
    forall i :: 0 <= i < |chs| ==> chs[i].moduleAddress == h.moduleAddress && chs[i].moduleId == h.moduleId
  }

  // ----- what is held and what is stored -----

  function Buffer(s: State): seq<Channel> { if s.event.Some? then s.event.value else [] }

  /** The words with which the open channel begins. */
  function Begun(chs: seq<Channel>, x: seq<u16>): seq<u16> { if chs == [] then x else [] }

  /** The `early` channels in the buffer were closed before the header came, the `late` ones
      after it, and so is the open one; but a channel open when the header came may begin
      before it, with `x`. */
  ghost predicate HeldFrom(s: State, early: seq<Channel>, late: seq<Channel>, x: seq<u16>, d: seq<u16>,
                           head: seq<u16>, hs: seq<u16>) {
    && Buffer(s) == early + late && Stamped(early, BLANK_HEADER) && Stamped(late, s.header)
    && Traced(early, [], x, head) && Traced(late, x, d, hs) && Spells(s.ch, Begun(late, x) + d)
  }

  ghost predicate Held(s: State, head: seq<u16>, hs: seq<u16>) {
    exists early, late, x, d :: HeldFrom(s, early, late, x, d, head, hs)
  }

  ghost predicate PaidFrom(e: StoredEvent, early: seq<Channel>, late: seq<Channel>, x: seq<u16>,
                           head: seq<u16>, hs: seq<u16>) {
    && e.channels == early + late && Stamped(early, BLANK_HEADER) && Stamped(late, e.header)
    && Traced(early, [], x, head) && Traced(late, x, [], hs)
  }

  /** The channels of a stored event: those closed while no header was at hand, without
      module numbers, and then those closed since, with the header's. */
  ghost predicate Paid(e: StoredEvent, head: seq<u16>, hs: seq<u16>) {
    exists early, late, x :: PaidFrom(e, early, late, x, head, hs)
  }

  // ----- more words -----

  lemma TracedMore(chs: seq<Channel>, x: seq<u16>, d: seq<u16>, hs: seq<u16>, w: u16)
    requires Traced(chs, x, d, hs)
    ensures Traced(chs, x, d, hs + [w]) && Traced(chs, x, d + [w], hs + [w])
  {
    hide Spell;
    var ds: seq<seq<u16>> :| Spell(chs, Carry(x, ds)) && Within(Flat(ds) + d, hs);
    WithinMore(Flat(ds) + d, hs, w);
    assert Flat(ds) + (d + [w]) == Flat(ds) + d + [w];
  }

  lemma TracedWiden(chs: seq<Channel>, x: seq<u16>, d: seq<u16>, c: seq<u16>, hs: seq<u16>)
    requires Traced(chs, x, d, c) && Within(c, hs)
    ensures Traced(chs, x, d, hs)
  {
    hide Spell, Within;
    var ds: seq<seq<u16>> :| Spell(chs, Carry(x, ds)) && Within(Flat(ds) + d, c);
    WithinThen(Flat(ds) + d, c, hs);
  }

  lemma TracedPrefix(chs: seq<Channel>, x: seq<u16>, d: seq<u16>, more: seq<u16>, hs: seq<u16>)
    requires Traced(chs, x, d + more, hs)
    ensures Traced(chs, x, d, hs)
  {
    hide Spell;
    var ds: seq<seq<u16>> :| Spell(chs, Carry(x, ds)) && Within(Flat(ds) + (d + more), hs);
    assert Flat(ds) + d + more == Flat(ds) + (d + more);
    WithinPrefix(Flat(ds) + d, more, hs);
  }

  lemma TracedDrop(chs: seq<Channel>, x: seq<u16>, d: seq<u16>, hs: seq<u16>)
    requires Traced(chs, x, d, hs)
    ensures Traced(chs, x, [], hs)
  {
    hide Traced;
    assert [] + d == d;
    TracedPrefix(chs, x, [], d, hs);
  }

  /** Only the words behind the channels. */
  lemma TracedWords(chs: seq<Channel>, x: seq<u16>, d: seq<u16>, hs: seq<u16>)
    requires Traced(chs, x, d, hs)
    ensures Within(d, hs)
  {
    hide Spell;
    var ds: seq<seq<u16>> :| Spell(chs, Carry(x, ds)) && Within(Flat(ds) + d, hs);
    WithinSuffix(Flat(ds), d, hs);
  }

  lemma TracedNone(x: seq<u16>, d: seq<u16>, hs: seq<u16>)
    requires Within(d, hs)
    ensures Traced([], x, d, hs)
  {
    var none: seq<seq<u16>> := [];
    assert Flat(none) + d == d && Spell([], Carry(x, none));
  }

  lemma HeldWiden(s: State, head: seq<u16>, c: seq<u16>, hs: seq<u16>)
    requires Held(s, head, c) && Within(c, hs)
    ensures Held(s, head, hs)
  {
    hide Traced, Spells, Buffer, Within;
    var early, late, x, d :| HeldFrom(s, early, late, x, d, head, c);
    TracedWiden(late, x, d, c, hs);
    assert HeldFrom(s, early, late, x, d, head, hs);
  }

  lemma HeldMore(s: State, head: seq<u16>, hs: seq<u16>, w: u16)
    requires Held(s, head, hs)
    ensures Held(s, head, hs + [w])
  {
    hide Traced, Spells, Buffer;
    var early, late, x, d :| HeldFrom(s, early, late, x, d, head, hs);
    TracedMore(late, x, d, hs, w);
    assert HeldFrom(s, early, late, x, d, head, hs + [w]);
  }

  lemma PaidMore(e: StoredEvent, head: seq<u16>, hs: seq<u16>, w: u16)
    requires Paid(e, head, hs)
    ensures Paid(e, head, hs + [w])
  {
    hide Traced, Stamped;
    var early, late, x :| PaidFrom(e, early, late, x, head, hs);
    TracedMore(late, x, [], hs, w);
    assert PaidFrom(e, early, late, x, head, hs + [w]);
  }

  lemma HeldSame(s: State, t: State, head: seq<u16>, hs: seq<u16>)
    requires Held(s, head, hs) && Buffer(t) == Buffer(s) && t.ch == s.ch && t.header == s.header
    ensures Held(t, head, hs)
  {
    hide Traced, Spells, Buffer;
    var early, late, x, d :| HeldFrom(s, early, late, x, d, head, hs);
    assert HeldFrom(t, early, late, x, d, head, hs);
  }

  // ----- samples, opening, closing -----

  lemma SpellsMore(ch: Channel, z: seq<u16>, w: u16)
    requires Spells(ch, z)
    ensures Spells(ch.(samples := DecodeWord(ch.samples, w).0), z + [w])
  {
    hide DecodeWord;
    assert (z + [w])[..|z|] == z;
    if ch.number != INVALID_CH {
      var rest := (z + [w])[1..];
      assert rest[..|rest| - 1] == z[1..];
    }
  }

  lemma SampleHeld(s: State, head: seq<u16>, hs: seq<u16>, w: u16)
    requires Held(s, head, hs)
    ensures Held(Sample(s, w).0, head, hs + [w])
  {
    hide Traced, Spells, DecodeWord;
    var t := Sample(s, w).0;
    var early, late, x, d :| HeldFrom(s, early, late, x, d, head, hs);
    TracedMore(late, x, d, hs, w);
    SpellsMore(s.ch, Begun(late, x) + d, w);
    assert Begun(late, x) + d + [w] == Begun(late, x) + (d + [w]);
    assert HeldFrom(t, early, late, x, d + [w], head, hs + [w]);
  }

  lemma OpeningSpells(w: u16)
    requires Tag(w) == 4
    ensures Spells(BLANK_CHANNEL.(number := Field(w)), [w])
  {
    assert [w][1..] == [];
  }

  lemma OpenHeld(s: State, head: seq<u16>, hs: seq<u16>, w: u16)
    requires Held(s, head, hs) && Tag(w) == 4
    ensures Held(s.(ch := BLANK_CHANNEL.(number := Field(w))), head, hs + [w])
  {
    hide Traced, Spells, Tag, Field;
    var t := s.(ch := BLANK_CHANNEL.(number := Field(w)));
    var early, late, x, d :| HeldFrom(s, early, late, x, d, head, hs);
    var x' := if late == [] then [] else x;
    TracedDrop(late, x, d, hs);
    TracedMore(late, x, [], hs, w);
    assert [] + [w] == [w];
    if late == [] {
      TracedDrop(early, [], x, head);
      TracedWords(late, x, [w], hs + [w]);
      TracedNone([], [w], hs + [w]);
    }
    assert Begun(late, x') + [w] == [w];
    OpeningSpells(w);
    assert HeldFrom(t, early, late, x', [w], head, hs + [w]);
  }

  lemma CarryPush(x: seq<u16>, ds: seq<seq<u16>>, d: seq<u16>)
    ensures Carry(x, ds + [d]) == Carry(x, ds) + [(if ds == [] then x else []) + d]
  {
    if ds == [] {
      assert ds + [d] == [d] && [d][1..] == [];
    } else {
      assert (ds + [d])[1..] == ds[1..] + [d] && [] + d == d;
    }
  }

  lemma TracedPush(chs: seq<Channel>, ch: Channel, x: seq<u16>, d: seq<u16>, hs: seq<u16>)
    requires Traced(chs, x, d, hs) && Spells(ch, Begun(chs, x) + d)
    ensures Traced(chs + [ch], x, [], hs)
  {
    hide Spells, Flat, Within;
    var ds: seq<seq<u16>> :| Spell(chs, Carry(x, ds)) && Within(Flat(ds) + d, hs);
    FlatMore(ds, d);
    assert Flat(ds + [d]) + [] == Flat(ds) + d;
    CarryPush(x, ds, d);
    assert Begun(chs, x) == if ds == [] then x else [];
    hide Spell, Carry;
    assert Spell(chs + [ch], Carry(x, ds + [d])) && Within(Flat(ds + [d]) + [], hs);
  }

  lemma SpellsStamped(ch: Channel, h: HeaderInfo, z: seq<u16>)
    requires Spells(ch, z)
    ensures Spells(ch.(moduleId := h.moduleId, moduleAddress := h.moduleAddress), z)
    ensures Spells(BLANK_CHANNEL, [])
  {
  }

  lemma PushHeld(s: State, head: seq<u16>, hs: seq<u16>)
    requires Held(s, head, hs) && s.event.Some?
    ensures Held(PushChannel(s), head, hs)
  {
    hide Traced, Spells;
    var t := PushChannel(s);
    var early, late, x, d :| HeldFrom(s, early, late, x, d, head, hs);
    var done := s.ch.(moduleId := s.header.moduleId, moduleAddress := s.header.moduleAddress);
    SpellsStamped(s.ch, s.header, Begun(late, x) + d);
    TracedPush(late, done, x, d, hs);
    AppendAssoc(early, late, [done]);
    assert Begun(late + [done], x) + [] == [];
    assert HeldFrom(t, early, late + [done], x, [], head, hs);
  }

  // ----- clearing and storing -----

  /** The number of the open channel outlives the clearing. */
  lemma ClearHeld(s: State, t: State, head: seq<u16>, hs: seq<u16>)
    requires Held(s, head, hs) && Buffer(t) == [] && t.header == BLANK_HEADER && t.ch == s.ch.(samples := [])
    ensures Held(t, head, hs)
  {
    hide Traced, Spells, Buffer;
    var early, late, x, d :| HeldFrom(s, early, late, x, d, head, hs);
    TracedWords(early, [], x, head);
    TracedWords(late, x, d, hs);
    var x', d' := OpeningLeft(s.ch, Begun(late, x), d, x, head, hs);
    TracedNone([], x', head);
    TracedNone(x', d', hs);
    assert HeldFrom(t, [], [], x', d', head, hs);
  }

  /** Of the words of a cleared channel only the one that opened it still counts. */
  lemma OpeningLeft(ch: Channel, y: seq<u16>, d: seq<u16>, x: seq<u16>, head: seq<u16>, hs: seq<u16>)
    returns (x': seq<u16>, d': seq<u16>)
    requires Spells(ch, y + d) && (y == [] || y == x) && Within(x, head) && Within(d, hs)
    ensures Within(x', head) && Within(d', hs) && Spells(ch.(samples := []), x' + d')
  {
    hide Within;
    x', d' := [], [];
    NothingWithin(head);
    NothingWithin(hs);
    if ch.number != INVALID_CH {
      if y == [] {
        d' := d[..1];
        assert y + d == d && d == d[..1] + d[1..];
        WithinPrefix(d[..1], d[1..], hs);
      } else {
        x' := x[..1];
        assert x == x[..1] + x[1..];
        WithinPrefix(x[..1], x[1..], head);
      }
    }
  }

  lemma HeldPaid(s: State, head: seq<u16>, hs: seq<u16>)
    requires Held(s, head, hs) && s.event.Some?
    ensures Paid(StoredEvent(s.header, s.event.value), head, hs)
  {
    hide Traced, Spells;
    var early, late, x, d :| HeldFrom(s, early, late, x, d, head, hs);
    TracedDrop(late, x, d, hs);
    assert PaidFrom(StoredEvent(s.header, s.event.value), early, late, x, head, hs);
  }

  /** What part of a step leaves. */
  ghost predicate Follows(s: State, t: State, o: Outcome, head: seq<u16>, hs: seq<u16>) {
    && s.log <= t.log && (forall i :: |s.log| <= i < |t.log| ==> Paid(t.log[i], head, hs))
    && (o in {Accepted, Rejected} ==> Held(t, head, hs))
  }

  lemma StoreFollows(s: State, head: seq<u16>, hs: seq<u16>)
    requires Held(s, head, hs)
    ensures Follows(s, StoreEvent(s).0, StoreEvent(s).1, head, hs)
  {
    hide SumAgrees, SumFixable, Paid, Held;
    if s.event.Some? {
      HeldPaid(s, head, hs);
      ClearHeld(s, StoreEvent(s).0, head, hs);
    }
  }

  lemma FlushFollows(s: State, head: seq<u16>, hs: seq<u16>)
    requires Held(s, head, hs)
    ensures Follows(s, FlushAndStore(s).0, FlushAndStore(s).1, head, hs)
  {
    hide Paid, Held, StoreEvent;
    if s.event.Some? {
      PushHeld(s, head, hs);
      StoreFollows(PushChannel(s), head, hs);
      StoreFollows(s, head, hs);
    }
  }

  // ----- one channel word -----

  lemma TagClass(w: u16)
    ensures Class(Short(w)) == ChannelHeader <==> Tag(w) == 4
  {
  }

  /** All channel words but those that close a channel. */
  lemma PlainHeld(s: State, head: seq<u16>, hs: seq<u16>, w: u16)
    requires Held(s, head, hs) && Class(Short(w)) != ChannelLastWord
    ensures Held(ChannelAction(s, w).0, head, hs + [w])
  {
    hide Held, Class, Tag, Field, DecodeWord;
    TagClass(w);
    HeldMore(s, head, hs, w);
    HeldSame(s, s.(last := Short(w)), head, hs + [w]);
    if Class(Short(w)) == ChannelHeader {
      OpenHeld(s, head, hs, w);
    } else {
      SampleHeld(s, head, hs, w);
    }
  }

  /** Nothing that matters to the channels has changed. */
  predicate SameChannels(s: State, t: State) { t.header == s.header && Buffer(t) == Buffer(s) && t.ch == s.ch }

  // ----- a header comes -----

  lemma CarryFlat(x: seq<u16>, ds: seq<seq<u16>>)
    requires ds != []
    ensures Flat(Carry(x, ds)) == x + Flat(ds)
  {
    hide Flat;
    assert ds == [ds[0]] + ds[1..];
    FlatAppend([x + ds[0]], ds[1..]);
    FlatAppend([ds[0]], ds[1..]);
    FlatOne(x + ds[0]);
    FlatOne(ds[0]);
    AppendAssoc(x, ds[0], Flat(ds[1..]));
  }

  lemma FlatOne(d: seq<u16>)
    ensures Flat([d]) == d
  {
    assert [d][..0] == [];
  }

  /** Channels before and after the header, as one list. */
  lemma TracedJoin(early: seq<Channel>, late: seq<Channel>, x: seq<u16>, d: seq<u16>, head: seq<u16>, hs: seq<u16>)
    requires Traced(early, [], x, head) && Traced(late, x, d, hs)
    ensures Traced(early + late, [], Begun(late, x) + d, head + hs)
  {
    hide Spells, Flat, Within;
    var a: seq<seq<u16>> :| Spell(early, Carry([], a)) && Within(Flat(a) + x, head);
    var b: seq<seq<u16>> :| Spell(late, Carry(x, b)) && Within(Flat(b) + d, hs);
    var all, y := a + Carry(x, b), Begun(late, x) + d;
    CarryNothing(a);
    CarryNothing(all);
    SpellJoin(early, late, a, Carry(x, b));
    WithinJoin(Flat(a) + x, head, Flat(b) + d, hs);
    assert late == [] <==> b == [];
    hide Spell, Carry;
    FlatJoin(a, x, b, d);
    assert Spell(early + late, Carry([], all)) && Within(Flat(all) + y, head + hs);
  }

  lemma FlatJoin(a: seq<seq<u16>>, x: seq<u16>, b: seq<seq<u16>>, d: seq<u16>)
    ensures Flat(a + Carry(x, b)) + ((if b == [] then x else []) + d) == Flat(a) + x + (Flat(b) + d)
  {
    hide Flat;
    FlatAppend(a, Carry(x, b));
    if b == [] {
      FlatNone();
    } else {
      CarryFlat(x, b);
    }
  }

  lemma FlatNone()
    ensures Flat<u16>([]) == []
  {
  }

  lemma CarryNothing(ds: seq<seq<u16>>)
    ensures Carry([], ds) == ds
  {
    if ds != [] {
      assert [] + ds[0] == ds[0];
    }
  }

  lemma SpellJoin(early: seq<Channel>, late: seq<Channel>, a: seq<seq<u16>>, b: seq<seq<u16>>)
    requires Spell(early, a) && Spell(late, b)
    ensures Spell(early + late, a + b)
  {
    hide Spells;
  }

  /** All that is held when a header comes was held before it. */
  lemma InstallHeld(s: State, t: State, head: seq<u16>, hs: seq<u16>)
    requires Held(s, head, hs) && s.header == BLANK_HEADER && Buffer(t) == Buffer(s) && t.ch == s.ch
    ensures Held(t, head + hs, [])
  {
    hide Traced, Spells, Buffer;
    var early, late, x, d :| HeldFrom(s, early, late, x, d, head, hs);
    var all, y := early + late, Begun(late, x) + d;
    TracedJoin(early, late, x, d, head, hs);
    NothingWithin<u16>([]);
    TracedNone(y, [], []);
    assert Begun([], y) + [] == y && all + [] == all;
    assert HeldFrom(t, all, [], y, [], head + hs, []);
  }

  lemma HeldWider(s: State, head: seq<u16>, w: u16)
    requires Held(s, head, [])
    ensures Held(s, head + [w], [])
  {
    hide Traced, Spells, Buffer;
    var early, late, x, d :| HeldFrom(s, early, late, x, d, head, []);
    TracedMore(early, [], x, head, w);
    assert HeldFrom(s, early, late, x, d, head + [w], []);
  }
}
