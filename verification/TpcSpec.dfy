/** The Huffman-coded TPC decoder as a state machine on values, fed one 32-bit word at
    a time by `Step`. */
module TpcSpec {
  import opened Words
  import opened FemHeader
  import opened DeltaCode
  import opened Machine

  function Class(w: Word): WordClass
  {
    if w == ZERO then UndefinedWord
    else if w == ALL_ONES then EventHeader
    else if w == EVENT_LAST then EventLastWord
    else if w.lo == 0xffff then FemHeader
    else if Tag(w.lo) == 15 then FemHeader
    else if w.lo / 0x8000 == 0 then
      if Tag(w.lo) == 0 then ChannelWord
      else if Tag(w.lo) == 4 then ChannelHeader
      else if Tag(w.lo) == 5 then ChannelLastWord
      else UndefinedWord
    else if w.lo == 0xc000 then FemLastWord
    else ChannelWord
  }

  datatype Channel = Channel(number: u32, moduleAddress: u8, moduleId: u8, samples: seq<u16>)

  const BLANK_CHANNEL := Channel(INVALID_CH, INVALID_UCHAR, INVALID_UCHAR, [])

  /** What `storage_manager::next_event` writes out. */
  datatype StoredEvent = StoredEvent(header: HeaderInfo, channels: seq<Channel>)

  /** `event` is `None` while the program's pointer to its event buffer is null. */
  datatype State = State(
    last: Word,
    headerCount: nat,
    headerWords: HeaderWords,
    searching: bool,
    header: HeaderInfo,
    checksum: u32,
    nwords: u32,
    ch: Channel,
    event: Option<seq<Channel>>,
    lastMissing: bool,
    debug: bool,
    log: seq<StoredEvent>)

  function Fresh(debug: bool): State
  {
    State(ALL_ONES, 0, NO_HEADER_WORDS, false, BLANK_HEADER, 0, 0,
          BLANK_CHANNEL, None, false, debug, [])
  }

  // ----- the specification -----

  function ClearEvent(s: State): State
    requires s.event.Some?
  {
    s.(headerCount := 0, header := BLANK_HEADER, event := Some([]), ch := s.ch.(samples := []))
  }

  predicate SumAgrees(s: State) { s.checksum % 0x100_0000 == s.header.checksum }

  /** A checksum off by exactly 0x503f is let through. */
  predicate SumFixable(s: State) { (s.checksum + 0x503f) % 0x100_0000 == s.header.checksum }

  predicate QualityOk(s: State) { s.nwords == s.header.nwords && (SumAgrees(s) || SumFixable(s)) }

  function StoreEvent(s: State): (State, Outcome)
  {
    if s.event.None? then (s, Undefined)
    else
      var s1 := s.(lastMissing := s.lastMissing || (!SumAgrees(s) && SumFixable(s)));
      if QualityOk(s) then
        (ClearEvent(s1.(log := s.log + [StoredEvent(s.header, s.event.value)])), Accepted)
      else (ClearEvent(s1), Rejected)
  }

  /** Append the current channel to the event buffer. */
  function PushChannel(s: State): State
    requires s.event.Some?
  {
    var done := s.ch.(moduleId := s.header.moduleId, moduleAddress := s.header.moduleAddress);
    s.(event := Some(s.event.value + [done]), ch := BLANK_CHANNEL)
  }

  /** Close an unfinished channel, then store. */
  function FlushAndStore(s: State): (State, Outcome)
  {
    if s.event.None? then (s, Undefined)
    else if s.ch.samples != [] then StoreEvent(PushChannel(s))
    else StoreEvent(s)
  }

  function Sample(s: State, w: u16): (State, Outcome)
  {
    var (samples, ok) := DecodeWord(s.ch.samples, w);
    (s.(ch := s.ch.(samples := samples)), if ok then Accepted else Rejected)
  }

  function OpenChannel(s: State, w: u16): (State, Outcome)
  {
    if Class(s.last) == FemHeader || Class(s.last) == ChannelLastWord then
      (s.(ch := BLANK_CHANNEL.(number := Field(w))), Accepted)
    else (s, Rejected)
  }

  function CloseChannel(s: State, w: u16): (State, Outcome)
  {
    if Field(w) != s.ch.number then (s, Rejected)
    else if s.event.None? then (s, Undefined)
    else
      var s1 := PushChannel(s);
      if s1.nwords == s1.header.nwords then FlushAndStore(s1.(checksum := Wrap(s1.checksum + w)))
      else (s1, Accepted)
  }

  function ChannelAction(s: State, w: u16): (State, Outcome)
  {
    match Class(Short(w))
    case ChannelHeader => OpenChannel(s, w)
    case ChannelLastWord => CloseChannel(s, w)
    case FemLastWord =>
      if Class(s.last) == ChannelLastWord then (s.(last := Short(w)), Rejected) else Sample(s, w)
    case _ => Sample(s, w)
  }

  function Count(s: State, w: u16): State
  {
    if s.header.nwords != 0 then s.(nwords := Wrap(s.nwords + 1), checksum := Wrap(s.checksum + w)) else s
  }

  /** `process_ch_word` on one 16-bit word. */
  function ChWord(s: State, w: u16): (State, Outcome)
  {
    if w == 0 && Class(s.last) == ChannelLastWord then (s, Accepted)
    else
      var (s1, o) := ChannelAction(s, w);
      if o == Undefined then (s1, o)
      else ((if o == Accepted then Count(s1, w) else s1).(last := Short(w)), o)
  }

  function TwoChWords(s: State, w: Word): (State, Outcome)
  {
    var (s1, o) := ChWord(s, w.lo);
    if o == Accepted then ChWord(s1, w.hi) else (s1, o)
  }

  function EventHeaderWord(s: State, w: Word): (State, Outcome)
  {
    if s.event.None? then (s.(event := Some([]), last := w), Accepted)
    else (s.(last := w), if Class(s.last) == EventLastWord then Accepted else Rejected)
  }

  /** `process_fem_header`; a seventh header word would be written behind the buffer. */
  function FemHeaderWord(s: State, w: Word): (State, Outcome)
  {
    if Class(s.last) !in {EventHeader, FemHeader, ChannelLastWord} && !s.lastMissing then
      (s.(lastMissing := false, last := w), Rejected)
    else if Class(Short(w.hi)) != FemHeader then (s.(lastMissing := false, last := w), Rejected)
    else if s.headerCount >= FEM_HEADER_COUNT then (s, Undefined)
    else
      var s1 := s.(headerWords := s.headerWords[s.headerCount := w], headerCount := s.headerCount + 1);
      if s1.headerCount < FEM_HEADER_COUNT then (s1.(lastMissing := false, last := w), Accepted)
      else
        match DecodeHeader(s1.headerWords)
        case None => (s1.(header := DecodeFields(s1.headerWords)), Threw)
        case Some(h) => (s1.(header := h, checksum := 0, nwords := 0, lastMissing := false, last := w), Accepted)
  }

  function EventLastWordStep(s: State, w: Word): (State, Outcome)
  {
    if Class(s.last) != ChannelLastWord then
      if s.lastMissing then (s.(lastMissing := false, last := w), Accepted)
      else (s.(last := w), Rejected)
    else (s.(last := w), if s.header.eventNumber == INVALID_WORD then Accepted else Rejected)
  }

  /** The switch of `process_word`. */
  function Dispatch(s: State, w: Word): (State, Outcome)
  {
    match Class(w)
    case EventHeader =>
      if (Class(s.last) == EventLastWord && s.header.nwords == 0) || s.event.None? then
        EventHeaderWord(s.(searching := false), w)
      else TwoChWords(s, w)
    case FemHeader =>
      var (s1, o) := if s.nwords != 0 && s.nwords == s.header.nwords then FlushAndStore(s) else (s, Accepted);
      if o != Accepted then (s1, o)
      else if s1.header.nwords == 0 then FemHeaderWord(s1, w)
      else TwoChWords(s1, w)
    case EventLastWord =>
      if s.nwords == s.header.nwords then
        var (s1, o) := FlushAndStore(s.(checksum := Wrap(s.checksum + w.Value())));
        if o == Undefined then (s1, o) else EventLastWordStep(s1, w)
      else EventLastWordStep(s, w)
    case _ => TwoChWords(s, w)
  }

  /** A refused word clears the event; in debug mode the next event is searched for. */
  function Settle(s: State, o: Outcome): (State, Outcome)
  {
    if o != Rejected then (s, o)
    else if s.event.None? then (s, Undefined)
    else (ClearEvent(s).(searching := s.searching || s.debug), Rejected)
  }

  /** `process_word`. */
  function Step(s: State, w: Word): (State, Outcome)
  {
    if w == ZERO then (s, Accepted)
    else if s.searching && !(Class(w) == EventHeader && Class(s.last) == EventLastWord) then
      (s.(last := w), Accepted)
    else
      var (s1, o) := Dispatch(s, w);
      Settle(s1, o)
  }

  /** Feeding words until one is not accepted, as the decoding loop does outside debug mode. */
  function Run(s: State, ws: seq<Word>): (State, Outcome) { Feed(Step, s, ws) }
}
