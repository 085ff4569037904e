/** The PMT decoder, each method proved to do what the state machine says. */
module PmtXmit {
  import opened Words
  import opened FemHeader
  import opened PmtSpec
  import Spec = PmtSpec

  class Decoder {
    var lastWord: Word
    var eventHeaderCount: nat
    const eventHeaderWords: array<Word>
    var searchForNextEvent: bool
    var headerInfo: HeaderInfo
    var checksum: u32
    var nwords: u32
    var chData: Pulse
    var channelHeaderCount: nat
    var nwordWithinCh: u16
    var eventData: Option<seq<Pulse>>
    const checkFifoOverflow: bool
    const debugMode: bool
    var storage: seq<StoredEvent>

    ghost predicate Valid()
      reads this
    {
      eventHeaderWords.Length == FEM_HEADER_COUNT
    }

    ghost function Now(): State
      requires Valid()
      reads this, eventHeaderWords
    {
      State(lastWord, eventHeaderCount, eventHeaderWords[..], searchForNextEvent, headerInfo, checksum, nwords,
            chData, channelHeaderCount, nwordWithinCh, eventData, checkFifoOverflow, debugMode, storage)
    }

    constructor (checkOverflow: bool, debug: bool)
      ensures Valid() && Now() == Fresh(checkOverflow, debug) && fresh(eventHeaderWords)
    {
      lastWord := ALL_ONES;
      eventHeaderCount := 0;
      eventHeaderWords := new Word[FEM_HEADER_COUNT](_ => ZERO);
      searchForNextEvent := false;
      headerInfo := BLANK_HEADER;
      checksum, nwords := 0, 0;
      chData := BLANK_PULSE;
      channelHeaderCount, nwordWithinCh := 0, 0;
      eventData := None;
      checkFifoOverflow := checkOverflow;
      debugMode := debug;
      storage := [];
    }

    method ClearEvent()
      requires Valid()
      modifies this
      ensures Valid() && Now() == Spec.ClearEvent(old(Now()))
    {
      eventHeaderCount := 0;
      headerInfo := BLANK_HEADER;
      if eventData.Some? {
        eventData := Some([]);
      }
      chData := BLANK_PULSE;
      channelHeaderCount, nwordWithinCh := 0, 0;
    }

    method OpenPulse(w: u16) returns (o: Outcome)
      requires Valid()
      modifies this`chData, this`channelHeaderCount
      ensures (Now(), o) == Spec.OpenPulse(old(Now()), w)
    {
      if Class(lastWord) != FemFirstWord && Class(lastWord) != ChannelLastWord {
        if eventData.None? {
          return Undefined;
        }
        var n := |eventData.value|;
        if n == 0 || |eventData.value[n - 1].samples| % 2 == 0 || lastWord != Short(PADDING) {
          return Rejected;
        }
      }
      chData := BLANK_PULSE;
      channelHeaderCount := 1;
      chData := chData.(number := w % 64, disc := Field(w) / 512);
      o := Accepted;
    }

    method TimeUpper(w: u16) returns (o: Outcome)
      requires Valid()
      modifies this`chData, this`channelHeaderCount, this`nwordWithinCh
      ensures (Now(), o) == Spec.TimeUpper(old(Now()), w)
    {
      chData := chData.(sample := w % 32 * 0x1000);
      if headerInfo.frame == INVALID_WORD {
        return Rejected;
      }
      var frame := RollOver(headerInfo.frame, w % 256 / 32, 3);
      if frame.None? {
        return Threw;
      }
      chData := chData.(frame := frame.value);
      channelHeaderCount := channelHeaderCount + 1;
      nwordWithinCh := (nwordWithinCh + 1) % 0x1_0000;
      o := Accepted;
    }

    method ReadWord(w: u16) returns (o: Outcome)
      requires Valid()
      modifies this`chData, this`channelHeaderCount, this`nwordWithinCh
      ensures (Now(), o) == Spec.ReadWord(old(Now()), w)
    {
      o := Accepted;
      if channelHeaderCount == CHANNEL_HEADER_COUNT {
        if Class(lastWord) != ChannelWord {
          o := Rejected;
        } else if Class(Short(w)) != ChannelLastWord {
          chData := chData.(samples := chData.samples + [Field(w)]);
        }
        nwordWithinCh := (nwordWithinCh + 1) % 0x1_0000;
      } else if Class(lastWord) == ChannelHeader {
        o := TimeUpper(w);
      } else if Class(lastWord) == ChannelWord {
        chData := chData.(sample := Wrap(chData.sample + Field(w)));
        channelHeaderCount := channelHeaderCount + 1;
        nwordWithinCh := (nwordWithinCh + 1) % 0x1_0000;
      }
    }

    method StoreChData()
      requires Valid() && eventData.Some?
      modifies this`eventData, this`chData, this`channelHeaderCount, this`nwordWithinCh
      ensures Now() == StorePulse(old(Now()))
    {
      chData := chData.(moduleId := headerInfo.moduleId, moduleAddress := headerInfo.moduleAddress);
      eventData := Some(eventData.value + [chData]);
      channelHeaderCount := 0;
      nwordWithinCh := 0;
      chData := BLANK_PULSE;
    }

    method ReadAndConclude(w: u16, before: Outcome) returns (o: Outcome)
      requires Valid()
      modifies this
      ensures Valid() && (Now(), o) == Spec.ReadAndConclude(old(Now()), w, before)
    {
      var inHeader := channelHeaderCount != CHANNEL_HEADER_COUNT;
      o := ReadWord(w);
      if o == Threw || (o == Rejected && inHeader) {
        return;
      }
      if before != Accepted {
        o := before;
      }
      if Class(Short(w)) == ChannelLastWord {
        if eventData.None? {
          return Undefined;
        }
        StoreChData();
      } else if checkFifoOverflow && nwordWithinCh != 0 && nwordWithinCh % 8 == 0 && Tag(w) != 8 {
        o := Rejected;
      }
    }

    method PulseWord(w: u16) returns (o: Outcome)
      requires Valid()
      modifies this
      ensures Valid() && (Now(), o) == Spec.PulseWord(old(Now()), w)
    {
      var lastWordClass := Class(lastWord);
      if lastWordClass !in {ChannelHeader, ChannelWord, ChannelLastWord} {
        return Rejected;
      }
      o := Accepted;
      if lastWordClass == ChannelLastWord {
        if eventData.None? || |eventData.value| == 0 {
          return Undefined;
        }
        var back := eventData.value[|eventData.value| - 1];
        if w == PADDING {
          if |back.samples| % 2 == 1 {
            return Accepted;
          }
          o := Rejected;
        } else {
          channelHeaderCount := 1;
          chData := chData.(number := back.number);
          chData := chData.(disc := back.disc);
        }
      }
      o := ReadAndConclude(w, o);
    }

    method DecodeChWord(w: u16) returns (o: Outcome)
      requires Valid()
      modifies this
      ensures Valid() && (Now(), o) == Spec.DecodeChWord(old(Now()), w)
    {
      match Class(Short(w)) {
        case FemFirstWord =>
          o := if Class(lastWord) == FemHeader then Accepted else Rejected;
        case ChannelHeader =>
          o := OpenPulse(w);
        case ChannelWord =>
          o := PulseWord(w);
        case ChannelLastWord =>
          o := PulseWord(w);
        case _ =>
          o := Rejected;
      }
    }

    method ProcessChWord(w: u16) returns (o: Outcome)
      requires Valid()
      modifies this
      ensures Valid() && (Now(), o) == ChWord(old(Now()), w)
    {
      hide Spec.DecodeChWord;
      o := DecodeChWord(w);
      if o == Accepted {
        nwords := Wrap(nwords + 1);
        checksum := Wrap(checksum + w);
      }
      if o == Accepted || o == Rejected {
        lastWord := Short(w);
      }
    }

    method CheckEventQuality() returns (ok: bool)
      requires Valid()
      modifies this`nwords, this`checksum
      ensures Now() == old(Now()).(nwords := Wrap(old(nwords) - 1), checksum := old(checksum) % 0x100_0000)
      ensures ok == (nwords == headerInfo.nwords && checksum == headerInfo.checksum)
    {
      ok := true;
      nwords := Wrap(nwords - 1);
      if nwords != headerInfo.nwords {
        ok := false;
      }
      checksum := checksum % 0x100_0000;
      if checksum != headerInfo.checksum {
        ok := false;
      }
    }

    method StoreEvent() returns (o: Outcome)
      requires Valid()
      modifies this
      ensures Valid() && (Now(), o) == Spec.StoreEvent(old(Now()))
    {
      var ok := CheckEventQuality();
      if ok {
        if eventData.None? {
          return Undefined;
        }
        storage := storage + [StoredEvent(headerInfo, eventData.value)];
      }
      ClearEvent();
      o := if ok then Accepted else Rejected;
    }

    method ProcessFemLastWord(w: u16) returns (o: Outcome)
      requires Valid()
      modifies this
      ensures Valid() && (Now(), o) == FemLastStep(old(Now()), w)
    {
      hide Class, Spec.StoreEvent;
      o := Accepted;
      if Class(lastWord) != ChannelLastWord && Class(lastWord) != FemFirstWord {
        if lastWord == Short(PADDING) {
          if eventData.None? || |eventData.value| == 0 {
            return Undefined;
          }
          if |eventData.value[|eventData.value| - 1].samples| % 2 == 0 {
            o := Rejected;
          }
        } else {
          o := Rejected;
        }
      }
      nwords := Wrap(nwords + 1);
      if o == Accepted {
        o := StoreEvent();
        if o == Undefined {
          return;
        }
      }
      lastWord := Short(w);
    }

    method ProcessEventHeader(w: Word) returns (o: Outcome)
      requires Valid()
      modifies this`eventData, this`lastWord
      ensures (Now(), o) == EventHeaderWord(old(Now()), w)
    {
      o := Accepted;
      if eventData.None? {
        eventData := Some([]);
      } else if Class(lastWord) != EventLastWord {
        o := Rejected;
      }
      lastWord := w;
    }

    method ProcessFemHeader(w: Word) returns (o: Outcome)
      requires Valid()
      modifies this, eventHeaderWords
      ensures Valid() && (Now(), o) == FemHeaderWord(old(Now()), w)
    {
      o := Accepted;
      if Class(Short(w.hi)) != FemHeader {
        o := Rejected;
      } else if eventHeaderCount < FEM_HEADER_COUNT {
        eventHeaderWords[eventHeaderCount] := w;
        eventHeaderCount := eventHeaderCount + 1;
        if eventHeaderCount == FEM_HEADER_COUNT {
          var threw;
          headerInfo, threw := DecodeFemHeader(eventHeaderWords);
          if threw {
            return Threw;
          }
          checksum := 0;
          nwords := 0;
          eventHeaderCount := 0;
        }
      } else {
        o := Rejected;
      }
      lastWord := w;
    }

    method ProcessTwoWords(w: Word) returns (o: Outcome)
      requires Valid()
      modifies this
      ensures Valid() && (Now(), o) == TwoWords(old(Now()), w)
    {
      o := ProcessChWord(w.lo);
      if o != Accepted {
        return;
      }
      match Class(Short(w.hi)) {
        case FemFirstWord => o := ProcessChWord(w.hi);
        case ChannelHeader => o := ProcessChWord(w.hi);
        case ChannelWord => o := ProcessChWord(w.hi);
        case ChannelLastWord => o := ProcessChWord(w.hi);
        case FemLastWord => o := ProcessFemLastWord(w.hi);
        case _ => o := Rejected;
      }
    }

    method Switch(w: Word) returns (o: Outcome)
      requires Valid()
      modifies this, eventHeaderWords
      ensures Valid() && (Now(), o) == Dispatch(old(Now()), w)
    {
      hide Class, TwoWords, FemHeaderWord;
      var lastWordClass := Class(lastWord);
      match Class(w) {
        case EventHeader =>
          o := ProcessEventHeader(w);
        case FemHeader =>
          o := ProcessFemHeader(w);
        case EventLastWord =>
          o := if lastWordClass == FemLastWord then Accepted else Rejected;
          lastWord := w;
        case UndefinedWord =>
          if w != ZERO || (lastWordClass != EventLastWord && lastWordClass != FemLastWord) {
            o := Rejected;
          } else {
            o := Accepted;
          }
        case _ =>
          o := ProcessTwoWords(w);
      }
    }

    method ProcessWord(w: Word) returns (o: Outcome)
      requires Valid()
      modifies this, eventHeaderWords
      ensures Valid() && (Now(), o) == Step(old(Now()), w)
    {
      hide Dispatch, Class;
      if searchForNextEvent && Class(w) == FemHeader && Class(lastWord) != FemHeader {
        searchForNextEvent := false;
      }
      if searchForNextEvent {
        lastWord := ALL_ONES;
        return Accepted;
      }
      assert Now() == old(Now()).(searching := false);
      o := Switch(w);
      if o == Rejected && debugMode {
        searchForNextEvent := true;
        ClearEvent();
      }
    }

    /** The decoding loop outside debug mode. */
    method Decode(ws: seq<Word>) returns (o: Outcome)
      requires Valid()
      modifies this, eventHeaderWords
      ensures Valid() && (Now(), o) == Run(old(Now()), ws)
    {
      o := Accepted;
      var i := 0;
      while i < |ws| && o == Accepted
        invariant 0 <= i <= |ws| && Valid()
        invariant o == Accepted ==> Run(old(Now()), ws) == Run(Now(), ws[i..])
        invariant o != Accepted ==> Run(old(Now()), ws) == (Now(), o)
      {
        assert ws[i..][1..] == ws[i + 1..];
        o := ProcessWord(ws[i]);
        i := i + 1;
      }
    }
  }
}
