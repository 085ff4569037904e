/** Streams of events around any packet decoder. */
module Streams {
  import opened Words
  import opened Machine

  /** A decoder with its packets: how a packet is spelled and stored, which packets get
      through, and where the decoder stands between events, between packets, and behind a
      packet. */
  datatype Protocol<!S, !P, !E> = Protocol(
    step: (S, Word) -> (S, Outcome),
    log: S -> seq<E>,
    words: P -> seq<Word>,
    stored: P -> E,
    good: P -> bool,
    between: S -> bool,
    idle: S -> bool,
    behind: S -> bool)

  ghost predicate Opens<S, P, E>(pr: Protocol<S, P, E>, s: S) {
    var (t, o) := pr.step(s, ALL_ONES);
    o == Accepted && pr.idle(t) && pr.log(t) == pr.log(s)
  }

  ghost predicate Closes<S, P, E>(pr: Protocol<S, P, E>, s: S) {
    var (t, o) := pr.step(s, EVENT_LAST);
    o == Accepted && pr.between(t) && pr.log(t) == pr.log(s)
  }

  ghost predicate Passes<S, P, E>(pr: Protocol<S, P, E>, s: S, p: P) {
    var (t, o) := Feed(pr.step, s, pr.words(p));
    o == Accepted && pr.idle(t) && pr.behind(t) && pr.log(t) == pr.log(s) + [pr.stored(p)]
  }

  /** What a decoder must do with one marker, one packet, one end word. */
  ghost predicate Sound<S(!new), P(!new), E>(pr: Protocol<S, P, E>) {
    && (forall s :: pr.between(s) ==> Opens(pr, s))
    && (forall s :: pr.idle(s) && pr.behind(s) ==> Closes(pr, s))
    && (forall s, p :: pr.idle(s) && pr.good(p) ==> Passes(pr, s, p))
  }

  function PacketsWords<S, P, E>(pr: Protocol<S, P, E>, ps: seq<P>): seq<Word> {
    if ps == [] then [] else pr.words(ps[0]) + PacketsWords(pr, ps[1..])
  }

  /** An event: its marker, one packet or more, its end word. */
  function EventWords<S, P, E>(pr: Protocol<S, P, E>, ps: seq<P>): seq<Word> {
    [ALL_ONES] + PacketsWords(pr, ps) + [EVENT_LAST]
  }

  function Stream<S, P, E>(pr: Protocol<S, P, E>, events: seq<seq<P>>): seq<Word> {
    if events == [] then [] else EventWords(pr, events[0]) + Stream(pr, events[1..])
  }

  function StoredAll<S, P, E>(pr: Protocol<S, P, E>, ps: seq<P>): seq<E> {
    if ps == [] then [] else [pr.stored(ps[0])] + StoredAll(pr, ps[1..])
  }

  function ExpectedLog<S, P, E>(pr: Protocol<S, P, E>, events: seq<seq<P>>): seq<E> {
    if events == [] then [] else StoredAll(pr, events[0]) + ExpectedLog(pr, events[1..])
  }

  ghost predicate AllGood<S, P, E>(pr: Protocol<S, P, E>, ps: seq<P>) { forall i :: 0 <= i < |ps| ==> pr.good(ps[i]) }

  /** Every event has a packet, and every packet gets through. */
  ghost predicate GoodEvents<S, P, E>(pr: Protocol<S, P, E>, events: seq<seq<P>>) {
    forall i :: 0 <= i < |events| ==> events[i] != [] && AllGood(pr, events[i])
  }

  lemma {:induction false} PacketsRun<S(!new), P(!new), E>(pr: Protocol<S, P, E>, s: S, ps: seq<P>)
    requires Sound(pr) && pr.idle(s) && ps != [] && AllGood(pr, ps)
    ensures var (t, o) := Feed(pr.step, s, PacketsWords(pr, ps));
            o == Accepted && pr.log(t) == pr.log(s) + StoredAll(pr, ps) && pr.idle(t) && pr.behind(t)
    decreases |ps|
  {
    var p, rest := ps[0], ps[1..];
    assert Passes(pr, s, p);
    FeedAppend(pr.step, s, pr.words(p), PacketsWords(pr, rest));
    if rest == [] {
      assert PacketsWords(pr, rest) == [] && StoredAll(pr, ps) == [pr.stored(p)];
    } else {
      PacketsRun(pr, Feed(pr.step, s, pr.words(p)).0, rest);
      AppendAssoc(pr.log(s), [pr.stored(p)], StoredAll(pr, rest));
    }
  }

  lemma EventRun<S(!new), P(!new), E>(pr: Protocol<S, P, E>, s: S, ps: seq<P>)
    requires Sound(pr) && pr.between(s) && ps != [] && AllGood(pr, ps)
    ensures var (t, o) := Feed(pr.step, s, EventWords(pr, ps));
            o == Accepted && pr.log(t) == pr.log(s) + StoredAll(pr, ps) && pr.between(t)
  {
    hide PacketsWords, StoredAll;
    var body := PacketsWords(pr, ps);
    assert Opens(pr, s);
    FeedOne(pr.step, s, ALL_ONES);
    var s1 := pr.step(s, ALL_ONES).0;
    PacketsRun(pr, s1, ps);
    FeedAppend(pr.step, s, [ALL_ONES], body);
    var s2 := Feed(pr.step, s1, body).0;
    assert Closes(pr, s2);
    FeedOne(pr.step, s2, EVENT_LAST);
    FeedAppend(pr.step, s, [ALL_ONES] + body, [EVENT_LAST]);
  }

  /** A sound decoder accepts every word of a stream of good packets and stores exactly
      them, in order. */
  lemma {:induction false} StreamRun<S(!new), P(!new), E>(pr: Protocol<S, P, E>, s: S, events: seq<seq<P>>)
    requires Sound(pr) && pr.between(s) && GoodEvents(pr, events)
    ensures var (t, o) := Feed(pr.step, s, Stream(pr, events));
            o == Accepted && pr.log(t) == pr.log(s) + ExpectedLog(pr, events) && pr.between(t)
    decreases |events|
  {
    hide EventWords, StoredAll, Sound;
    if events == [] {
      assert pr.log(s) + [] == pr.log(s);
    } else {
      EventRun(pr, s, events[0]);
      FeedAppend(pr.step, s, EventWords(pr, events[0]), Stream(pr, events[1..]));
      StreamRun(pr, Feed(pr.step, s, EventWords(pr, events[0])).0, events[1..]);
      AppendAssoc(pr.log(s), StoredAll(pr, events[0]), ExpectedLog(pr, events[1..]));
    }
  }

  // ----- zero words in between -----

  /** A packet, or a whole event, followed by some zero words. */
  datatype Padded<+T> = Padded(content: T, zeros: nat)

  function Zeros(n: nat): seq<Word> { seq(n, i => ZERO) }

  /** A zero word makes no difference here. */
  ghost predicate Skips<S, P, E>(pr: Protocol<S, P, E>, s: S) { pr.step(s, ZERO) == (s, Accepted) }

  /** It makes none behind a packet, nor behind an end word that follows a packet. */
  ghost predicate SkipsZeros<S(!new), P(!new), E>(pr: Protocol<S, P, E>) {
    forall s :: pr.idle(s) && pr.behind(s) ==> Skips(pr, s) && Skips(pr, pr.step(s, EVENT_LAST).0)
  }

  function PaddedPackets<S, P, E>(pr: Protocol<S, P, E>, ps: seq<Padded<P>>): seq<Word> {
    if ps == [] then [] else pr.words(ps[0].content) + Zeros(ps[0].zeros) + PaddedPackets(pr, ps[1..])
  }

  function PaddedEvent<S, P, E>(pr: Protocol<S, P, E>, e: Padded<seq<Padded<P>>>): seq<Word> {
    [ALL_ONES] + PaddedPackets(pr, e.content) + [EVENT_LAST] + Zeros(e.zeros)
  }

  function PaddedStream<S, P, E>(pr: Protocol<S, P, E>, events: seq<Padded<seq<Padded<P>>>>): seq<Word> {
    if events == [] then [] else PaddedEvent(pr, events[0]) + PaddedStream(pr, events[1..])
  }

  function Packets<P>(ps: seq<Padded<P>>): seq<P> {
    if ps == [] then [] else [ps[0].content] + Packets(ps[1..])
  }

  function Events<P>(events: seq<Padded<seq<Padded<P>>>>): seq<seq<P>> {
    if events == [] then [] else [Packets(events[0].content)] + Events(events[1..])
  }

  lemma {:induction false} ZerosRun<S, P, E>(pr: Protocol<S, P, E>, s: S, n: nat)
    requires Skips(pr, s)
    ensures Feed(pr.step, s, Zeros(n)) == (s, Accepted)
  {
    if n > 0 {
      assert Zeros(n)[1..] == Zeros(n - 1);
      ZerosRun(pr, s, n - 1);
    }
  }

  lemma PacketsGood<S, P, E>(pr: Protocol<S, P, E>, ps: seq<Padded<P>>)
    requires AllGood(pr, Packets(ps)) && ps != []
    ensures pr.good(ps[0].content) && AllGood(pr, Packets(ps[1..]))
  {
    assert Packets(ps)[0] == ps[0].content && Packets(ps)[1..] == Packets(ps[1..]);
  }

  lemma {:induction false} PaddedPacketsRun<S(!new), P(!new), E>(pr: Protocol<S, P, E>, s: S, ps: seq<Padded<P>>)
    requires Sound(pr) && SkipsZeros(pr) && pr.idle(s) && AllGood(pr, Packets(ps))
    ensures Feed(pr.step, s, PaddedPackets(pr, ps)) == Feed(pr.step, s, PacketsWords(pr, Packets(ps)))
    decreases |ps|
  {
    if ps != [] {
      var p, zeros, rest := ps[0].content, Zeros(ps[0].zeros), ps[1..];
      PacketsGood(pr, ps);
      assert Passes(pr, s, p);
      var t := Feed(pr.step, s, pr.words(p)).0;
      assert Skips(pr, t);
      ZerosRun(pr, t, ps[0].zeros);
      FeedAppend(pr.step, s, pr.words(p), zeros);
      FeedAppend(pr.step, s, pr.words(p) + zeros, PaddedPackets(pr, rest));
      FeedAppend(pr.step, s, pr.words(p), PacketsWords(pr, Packets(rest)));
      PaddedPacketsRun(pr, t, rest);
      assert Packets(ps)[0] == p && Packets(ps)[1..] == Packets(rest);
    }
  }

  lemma PaddedEventRun<S(!new), P(!new), E>(pr: Protocol<S, P, E>, s: S, e: Padded<seq<Padded<P>>>)
    requires Sound(pr) && SkipsZeros(pr) && pr.between(s) && e.content != [] && AllGood(pr, Packets(e.content))
    ensures Feed(pr.step, s, PaddedEvent(pr, e)) == Feed(pr.step, s, EventWords(pr, Packets(e.content)))
  {
    hide PaddedPackets, PacketsWords;
    var ps := Packets(e.content);
    var padded, plain := PaddedPackets(pr, e.content), PacketsWords(pr, ps);
    assert Opens(pr, s);
    FeedOne(pr.step, s, ALL_ONES);
    var s1 := pr.step(s, ALL_ONES).0;
    PaddedPacketsRun(pr, s1, e.content);
    PacketsRun(pr, s1, ps);
    var s2 := Feed(pr.step, s1, plain).0;
    FeedAppend(pr.step, s, [ALL_ONES], padded);
    FeedAppend(pr.step, s, [ALL_ONES], plain);
    FeedOne(pr.step, s2, EVENT_LAST);
    FeedAppend(pr.step, s, [ALL_ONES] + padded, [EVENT_LAST]);
    FeedAppend(pr.step, s, [ALL_ONES] + plain, [EVENT_LAST]);
    assert Closes(pr, s2);
    var s3 := pr.step(s2, EVENT_LAST).0;
    assert Skips(pr, s3);
    ZerosRun(pr, s3, e.zeros);
    FeedAppend(pr.step, s, [ALL_ONES] + padded + [EVENT_LAST], Zeros(e.zeros));
  }

  /** Zero words behind packets and behind end words make no difference to the run. */
  lemma {:induction false} PaddedRun<S(!new), P(!new), E>(pr: Protocol<S, P, E>, s: S,
                                                          events: seq<Padded<seq<Padded<P>>>>)
    requires Sound(pr) && SkipsZeros(pr) && pr.between(s) && GoodEvents(pr, Events(events))
    ensures Feed(pr.step, s, PaddedStream(pr, events)) == Feed(pr.step, s, Stream(pr, Events(events)))
    decreases |events|
  {
    hide PaddedEvent, EventWords, StoredAll, Sound, SkipsZeros;
    if events != [] {
      var e, rest := events[0], events[1..];
      assert Events(events)[0] == Packets(e.content) && Events(events)[1..] == Events(rest);
      PaddedEventRun(pr, s, e);
      EventRun(pr, s, Packets(e.content));
      FeedAppend(pr.step, s, PaddedEvent(pr, e), PaddedStream(pr, rest));
      FeedAppend(pr.step, s, EventWords(pr, Packets(e.content)), Stream(pr, Events(rest)));
      assert GoodEvents(pr, Events(rest)) by { EventsGood(pr, Events(events)); }
      PaddedRun(pr, Feed(pr.step, s, EventWords(pr, Packets(e.content))).0, rest);
    }
  }

  lemma EventsGood<S, P, E>(pr: Protocol<S, P, E>, events: seq<seq<P>>)
    requires GoodEvents(pr, events) && events != []
    ensures GoodEvents(pr, events[1..])
  {
    forall i | 0 <= i < |events[1..]|
      ensures events[1..][i] != [] && AllGood(pr, events[1..][i])
    {
      assert events[1..][i] == events[i + 1];
    }
  }
}
