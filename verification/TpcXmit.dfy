/** The plain TPC decoder: which runs of channel words it accepts, and what it keeps. */
module TpcXmit {
  import opened Words
  import opened FemHeader
  import opened DeltaCode
  import opened Machine
  import Tpc = TpcSpec

  function Class(w: Word): WordClass
  {
    if w == ALL_ONES then EventHeader
    else if w == EVENT_LAST then EventLastWord
    else if w.lo == 0xffff then FemHeader
    else if Tag(w.lo) == 15 then FemHeader
    else if Tag(w.lo) == 4 then ChannelHeader
    else if Tag(w.lo) == 0 || Tag(w.lo) == 8 then ChannelWord
    else if Tag(w.lo) == 5 then ChannelLastWord
    else UndefinedWord
  }

  datatype State = State(
    last: Word,
    headerCount: nat,
    header: HeaderInfo,
    ch: Tpc.Channel,
    event: Option<seq<Tpc.Channel>>,
    nwords: u32,
    checksum: u32,
    log: seq<Tpc.StoredEvent>)

  // ----- the specification -----

  function Cleared(s: State): State
    requires s.event.Some?
  {
    s.(headerCount := 0, header := BLANK_HEADER, event := Some([]), ch := s.ch.(samples := []))
  }

  /** The count and the low 24 bits of the sum are those of the header. */
  predicate QualityOk(s: State) { s.nwords == s.header.nwords && s.checksum % 0x100_0000 == s.header.checksum }

  function Stored(s: State): (State, Outcome)
    requires s.event.Some?
  {
    if QualityOk(s) then
      (Cleared(s.(log := s.log + [Tpc.StoredEvent(s.header, s.event.value)])), Accepted)
    else (Cleared(s), Rejected)
  }

  /** The last word of a channel, if its number is right, stores the channel. */
  function Close(s: State, w: u16): (State, Outcome)
  {
    if Class(s.last) != ChannelWord || Field(w) != s.ch.number then (s, Rejected)
    else if s.event.None? then (s, Undefined)
    else
      var done := s.ch.(moduleId := s.header.moduleId, moduleAddress := s.header.moduleAddress);
      (s.(event := Some(s.event.value + [done]), ch := Tpc.BLANK_CHANNEL), Accepted)
  }

  function ChannelAction(s: State, w: u16): (State, Outcome)
  {
    match Class(Short(w))
    case ChannelHeader =>
      if Class(s.last) == FemHeader || Class(s.last) == ChannelLastWord then
        (s.(ch := Tpc.BLANK_CHANNEL.(number := Field(w))), Accepted)
      else (s, Rejected)
    case ChannelLastWord => Close(s, w)
    case ChannelWord =>
      if Class(s.last) == ChannelHeader || Class(s.last) == ChannelWord then
        var (samples, ok) := DecodeWord(s.ch.samples, w);
        (s.(ch := s.ch.(samples := samples)), if ok then Accepted else Rejected)
      else (s, Rejected)
    case _ => (s, Rejected)
  }

  /** `process_ch_word`. */
  function ChWord(s: State, w: u16): (State, Outcome)
  {
    var (s1, o) := ChannelAction(s, w);
    if o == Undefined || (o == Rejected && s.event.None?) then (s1, Undefined)
    else
      var s2 := if o == Accepted then s1.(nwords := Wrap(s1.nwords + 1), checksum := Wrap(s1.checksum + w))
                else Cleared(s1);
      (if Class(Short(w)) != UndefinedWord then s2.(last := Short(w)) else s2, o)
  }

  function Run(s: State, ws: seq<u16>): (State, Outcome) { Feed(ChWord, s, ws) }

  // ----- the program -----

  class Decoder {
    var lastWord: Word
    var eventHeaderCount: nat
    var headerInfo: HeaderInfo
    var chData: Tpc.Channel
    var eventData: Option<seq<Tpc.Channel>>
    var nwords: u32
    var checksum: u32
    var storage: seq<Tpc.StoredEvent>

    ghost function Now(): State
      reads this
    {
      State(lastWord, eventHeaderCount, headerInfo, chData, eventData, nwords, checksum, storage)
    }

    constructor ()
      ensures Now() == State(ALL_ONES, 0, BLANK_HEADER, Tpc.BLANK_CHANNEL, None, 0, 0, [])
    {
      lastWord, eventHeaderCount, headerInfo := ALL_ONES, 0, BLANK_HEADER;
      chData, eventData, nwords, checksum, storage := Tpc.BLANK_CHANNEL, None, 0, 0, [];
    }

    method ClearEvent()
      requires eventData.Some?
      modifies this
      ensures Now() == Cleared(old(Now()))
    {
      eventHeaderCount := 0;
      headerInfo := BLANK_HEADER;
      eventData := Some([]);
      chData := chData.(samples := []);
    }

    method CheckEventQuality() returns (ok: bool)
      ensures ok <==> QualityOk(Now())
    {
      ok := true;
      if nwords != headerInfo.nwords {
        ok := false;
      }
      if checksum % 0x100_0000 != headerInfo.checksum {
        ok := false;
      }
    }

    method StoreEvent() returns (ok: bool)
      requires eventData.Some?
      modifies this
      ensures (Now(), if ok then Accepted else Rejected) == Stored(old(Now()))
    {
      ok := CheckEventQuality();
      if ok {
        storage := storage + [Tpc.StoredEvent(headerInfo, eventData.value)];
      }
      ClearEvent();
    }

    method CloseChannel(w: u16) returns (o: Outcome)
      modifies this`chData, this`eventData
      ensures (Now(), o) == Close(old(Now()), w)
      ensures o in {Accepted, Rejected, Undefined} && (o != Accepted ==> eventData == old(eventData))
    {
      if Class(lastWord) == ChannelWord {
        if Field(w) == chData.number {
          if eventData.None? {
            return Undefined;
          }
          chData := chData.(moduleId := headerInfo.moduleId);
          chData := chData.(moduleAddress := headerInfo.moduleAddress);
          eventData := Some(eventData.value + [chData]);
          chData := Tpc.BLANK_CHANNEL;
          return Accepted;
        }
      }
      return Rejected;
    }

    method ChannelSwitch(w: u16) returns (o: Outcome)
      modifies this`chData, this`eventData
      ensures (Now(), o) == ChannelAction(old(Now()), w)
      ensures o in {Accepted, Rejected, Undefined} && (o != Accepted ==> eventData == old(eventData))
    {
      hide DecodeWord, Class, Close;
      o := Accepted;
      var lastClass := Class(lastWord);
      match Class(Short(w)) {
        case ChannelHeader =>
          if lastClass == FemHeader || lastClass == ChannelLastWord {
            chData := Tpc.BLANK_CHANNEL;
            chData := chData.(number := Field(w));
          } else {
            o := Rejected;
          }
        case ChannelLastWord => o := CloseChannel(w);
        case ChannelWord =>
          if lastClass == ChannelHeader || lastClass == ChannelWord {
            var samples, ok := DecodeChWord(chData.samples, w);
            chData := chData.(samples := samples);
            o := if ok then Accepted else Rejected;
          } else {
            o := Rejected;
          }
        case _ => o := Rejected;
      }
    }

    /** The outcome is `Undefined` where the program follows a null event pointer. */
    method ProcessChWord(w: u16) returns (o: Outcome)
      modifies this
      ensures (Now(), o) == ChWord(old(Now()), w)
    {
      hide ChannelAction, Class, Wrap;
      o := ChannelSwitch(w);
      if o == Undefined {
        return;
      }
      if o == Accepted {
        nwords := Wrap(nwords + 1);
        checksum := Wrap(checksum + w);
      } else if eventData.None? {
        return Undefined;
      } else {
        ClearEvent();
      }
      if Class(Short(w)) != UndefinedWord {
        lastWord := Short(w);
      }
    }
  }
}
