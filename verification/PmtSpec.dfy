/** The PMT decoder as a state machine on values, fed one 32-bit word at a time by
    `Step`; the frame of `Step` is the decoder base class. */
module PmtSpec {
  import opened Words
  import opened FemHeader
  import opened Machine

  function Class(w: Word): WordClass
  {
    if w == ALL_ONES then EventHeader
    else if w.lo == 0xffff then FemHeader
    else if Tag(w.lo) == 15 then FemHeader
    else if Tag(w.lo) == 4 || Tag(w.lo) == 2 then FemFirstWord
    else if Tag(w.lo) == 9 then ChannelHeader
    else if Tag(w.lo) == 10 || Tag(w.lo) == 8 then ChannelWord
    else if Tag(w.lo) == 11 then ChannelLastWord
    else if Tag(w.lo) == 12 then FemLastWord
    else if Tag(w.hi) == 14 then EventLastWord
    else if Tag(w.lo) == 14 then EventLastWord
    else UndefinedWord
  }

  const DISC_MAX := 5
  const CHANNEL_HEADER_COUNT := 3
  const PADDING: u16 := 0x8000

  datatype Pulse = Pulse(
    number: u32,
    disc: nat,
    moduleAddress: u8,
    moduleId: u8,
    frame: u32,
    sample: u32,
    samples: seq<u16>)

  const BLANK_PULSE := Pulse(INVALID_CH, DISC_MAX, INVALID_UCHAR, INVALID_UCHAR, INVALID_WORD, INVALID_WORD, [])

  datatype StoredEvent = StoredEvent(header: HeaderInfo, pulses: seq<Pulse>)

  datatype State = State(
    last: Word,
    headerCount: nat,
    headerWords: HeaderWords,
    searching: bool,
    header: HeaderInfo,
    checksum: u32,
    nwords: u32,
    ch: Pulse,
    chHeaderCount: nat,
    wordsInCh: u16,
    event: Option<seq<Pulse>>,
    checkOverflow: bool,
    debug: bool,
    log: seq<StoredEvent>)

  function Fresh(checkOverflow: bool, debug: bool): State
  {
    State(ALL_ONES, 0, NO_HEADER_WORDS, false, BLANK_HEADER, 0, 0, BLANK_PULSE, 0, 0, None, checkOverflow, debug, [])
  }

  function ClearEvent(s: State): State
  {
    s.(headerCount := 0, header := BLANK_HEADER, event := if s.event.Some? then Some([]) else None,
    ch := BLANK_PULSE, chHeaderCount := 0, wordsInCh := 0)
  }

  /** The last stored pulse has an odd number of samples; `None` when there is none. */
  function BackOdd(s: State): Option<bool>
  {
    if s.event.None? || s.event.value == [] then None
    else Some(|s.event.value[|s.event.value| - 1].samples| % 2 == 1)
  }

  // ----- channel words -----

  function OpenPulse(s: State, w: u16): (State, Outcome)
  {
    var begun := s.(ch := BLANK_PULSE.(number := w % 64, disc := Field(w) / 512), chHeaderCount := 1);
    if Class(s.last) == FemFirstWord || Class(s.last) == ChannelLastWord then (begun, Accepted)
    else if s.event.None? then (s, Undefined)
    else if BackOdd(s) == Some(true) && s.last == Short(PADDING) then (begun, Accepted)
    else (s, Rejected)
  }

  /** A data word after a pulse's last word when it is not padding: the same channel
      goes on without a header. */
  function Continue(s: State): State
    requires s.event.Some? && s.event.value != []
  {
    var back := s.event.value[|s.event.value| - 1];
    s.(chHeaderCount := 1, ch := s.ch.(number := back.number, disc := back.disc))
  }

  function CountInCh(s: State): State { s.(wordsInCh := (s.wordsInCh + 1) % 0x1_0000) }

  /** The first word after the channel header: upper sample bits and three frame bits. */
  function TimeUpper(s: State, w: u16): (State, Outcome)
  {
    var s1 := s.(ch := s.ch.(sample := w % 32 * 0x1000));
    if s.header.frame == INVALID_WORD then (s1, Rejected)
    else
      match RollOver(s.header.frame, w % 256 / 32, 3)
      case None => (s1, Threw)
      case Some(f) => (CountInCh(s1.(ch := s1.ch.(frame := f), chHeaderCount := s.chHeaderCount + 1)), Accepted)
  }

  function TimeLower(s: State, w: u16): State
  {
    CountInCh(s.(ch := s.ch.(sample := Wrap(s.ch.sample + Field(w))), chHeaderCount := s.chHeaderCount + 1))
  }

  /** Header words and samples, by how much of the channel header has been read. */
  function ReadWord(s: State, w: u16): (State, Outcome)
  {
    if s.chHeaderCount == CHANNEL_HEADER_COUNT then
      if Class(s.last) != ChannelWord then (CountInCh(s), Rejected)
      else if Class(Short(w)) != ChannelLastWord then
        (CountInCh(s.(ch := s.ch.(samples := s.ch.samples + [Field(w)]))), Accepted)
      else (CountInCh(s), Accepted)
    else if Class(s.last) == ChannelHeader then TimeUpper(s, w)
    else if Class(s.last) == ChannelWord then (TimeLower(s, w), Accepted)
    else (s, Accepted)
  }

  /** `store_ch_data`. */
  function StorePulse(s: State): State
    requires s.event.Some?
  {
    var done := s.ch.(moduleId := s.header.moduleId, moduleAddress := s.header.moduleAddress);
    s.(event := Some(s.event.value + [done]), chHeaderCount := 0, wordsInCh := 0, ch := BLANK_PULSE)
  }

  predicate MarkerMissing(s: State, w: u16) {
    s.checkOverflow && s.wordsInCh != 0 && s.wordsInCh % 8 == 0 && Tag(w) != 8
  }

  /** The end of a channel word: store at the last word, else look for the bit marker. */
  function Conclude(s: State, w: u16, o: Outcome): (State, Outcome)
  {
    if Class(Short(w)) == ChannelLastWord then
      if s.event.None? then (s, Undefined) else (StorePulse(s), o)
    else if MarkerMissing(s, w) then (s, Rejected)
    else (s, o)
  }

  function PulseWord(s: State, w: u16): (State, Outcome)
  {
    if Class(s.last) !in {ChannelHeader, ChannelWord, ChannelLastWord} then (s, Rejected)
    else if Class(s.last) != ChannelLastWord then ReadAndConclude(s, w, Accepted)
    else if BackOdd(s).None? then (s, Undefined)
    else if w == PADDING then
      if BackOdd(s).value then (s, Accepted) else ReadAndConclude(s, w, Rejected)
    else ReadAndConclude(Continue(s), w, Accepted)
  }

  function ReadAndConclude(s: State, w: u16, before: Outcome): (State, Outcome)
  {
    var (s1, o) := ReadWord(s, w);
    if o == Threw || (o == Rejected && s.chHeaderCount != CHANNEL_HEADER_COUNT) then (s1, o)
    else Conclude(s1, w, if before == Accepted then o else before)
  }

  /** `decode_ch_word`. */
  function DecodeChWord(s: State, w: u16): (State, Outcome)
  {
    match Class(Short(w))
    case FemFirstWord => (s, if Class(s.last) == FemHeader then Accepted else Rejected)
    case ChannelHeader => OpenPulse(s, w)
    case ChannelWord => PulseWord(s, w)
    case ChannelLastWord => PulseWord(s, w)
    case _ => (s, Rejected)
  }

  /** `process_ch_word`. */
  function ChWord(s: State, w: u16): (State, Outcome)
  {
    var (s1, o) := DecodeChWord(s, w);
    match o
    case Accepted => (s1.(nwords := Wrap(s1.nwords + 1), checksum := Wrap(s1.checksum + w), last := Short(w)), o)
    case Rejected => (s1.(last := Short(w)), o)
    case _ => (s1, o)
  }

  // ----- events -----

  /** `store_event`; the quality check takes the uncounted last word off again. */
  function StoreEvent(s: State): (State, Outcome)
  {
    var s1 := s.(nwords := Wrap(s.nwords - 1), checksum := s.checksum % 0x100_0000);
    if s1.nwords == s1.header.nwords && s1.checksum == s1.header.checksum then
      if s1.event.None? then (s1, Undefined)
      else (ClearEvent(s1.(log := s1.log + [StoredEvent(s1.header, s1.event.value)])), Accepted)
    else (ClearEvent(s1), Rejected)
  }

  function FemLastStep(s: State, w: u16): (State, Outcome)
  {
    var plain := Class(s.last) == ChannelLastWord || Class(s.last) == FemFirstWord;
    if !plain && s.last == Short(PADDING) && BackOdd(s).None? then (s, Undefined)
    else
      var s1 := s.(nwords := Wrap(s.nwords + 1));
      if plain || (s.last == Short(PADDING) && BackOdd(s) == Some(true)) then
        var (s2, o) := StoreEvent(s1);
        (if o == Undefined then s2 else s2.(last := Short(w)), o)
      else (s1.(last := Short(w)), Rejected)
  }

  function EventHeaderWord(s: State, w: Word): (State, Outcome)
  {
    if s.event.None? then (s.(event := Some([]), last := w), Accepted)
    else (s.(last := w), if Class(s.last) == EventLastWord then Accepted else Rejected)
  }

  /** `process_fem_header` of the base class: what came before is not looked at. */
  function FemHeaderWord(s: State, w: Word): (State, Outcome)
  {
    if Class(Short(w.hi)) != FemHeader || s.headerCount >= FEM_HEADER_COUNT then (s.(last := w), Rejected)
    else
      var s1 := s.(headerWords := s.headerWords[s.headerCount := w], headerCount := s.headerCount + 1);
      if s1.headerCount < FEM_HEADER_COUNT then (s1.(last := w), Accepted)
      else
        match DecodeHeader(s1.headerWords)
        case None => (s1.(header := DecodeFields(s1.headerWords)), Threw)
        case Some(h) => (s1.(header := h, checksum := 0, nwords := 0, headerCount := 0, last := w), Accepted)
  }

  function TwoWords(s: State, w: Word): (State, Outcome)
  {
    var (s1, o) := ChWord(s, w.lo);
    if o != Accepted then (s1, o)
    else
      match Class(Short(w.hi))
      case FemFirstWord => ChWord(s1, w.hi)
      case ChannelHeader => ChWord(s1, w.hi)
      case ChannelWord => ChWord(s1, w.hi)
      case ChannelLastWord => ChWord(s1, w.hi)
      case FemLastWord => FemLastStep(s1, w.hi)
      case _ => (s1, Rejected)
  }

  function Dispatch(s: State, w: Word): (State, Outcome)
  {
    match Class(w)
    case EventHeader => EventHeaderWord(s, w)
    case FemHeader => FemHeaderWord(s, w)
    case EventLastWord => (s.(last := w), if Class(s.last) == FemLastWord then Accepted else Rejected)
    case UndefinedWord =>
      (s, if w == ZERO && (Class(s.last) == EventLastWord || Class(s.last) == FemLastWord) then Accepted else Rejected)
    case _ => TwoWords(s, w)
  }

  /** `process_word` of the base class. */
  function Step(s: State, w: Word): (State, Outcome)
  {
    var found := Class(w) == FemHeader && Class(s.last) != FemHeader;
    if s.searching && !found then (s.(last := ALL_ONES), Accepted)
    else
      var (s1, o) := Dispatch(s.(searching := false), w);
      if o == Rejected && s.debug then (ClearEvent(s1.(searching := true)), Rejected) else (s1, o)
  }

  function Run(s: State, ws: seq<Word>): (State, Outcome) { Feed(Step, s, ws) }
}
