/** The Huffman-coded TPC decoder, each method proved to do what the state machine
    says. */
module TpcHuffman {
  import opened Words
  import opened FemHeader
  import opened DeltaCode
  import opened TpcSpec
  import Spec = TpcSpec

  class Decoder {
    var lastWord: Word
    var eventHeaderCount: nat
    const eventHeaderWords: array<Word>
    var searchForNextEvent: bool
    var headerInfo: HeaderInfo
    var checksum: u32
    var nwords: u32
    var chData: Channel
    var eventData: Option<seq<Channel>>
    var chLastWordAllow: bool
    const debugMode: bool
    var storage: seq<StoredEvent>

    ghost predicate Valid()
      reads this
    {
      eventHeaderWords.Length == FEM_HEADER_COUNT
    }

    ghost function Now(): State
      requires Valid()
      reads this, eventHeaderWords
    {
      State(lastWord, eventHeaderCount, eventHeaderWords[..], searchForNextEvent, headerInfo, checksum, nwords,
            chData, eventData, chLastWordAllow, debugMode, storage)
    }

    constructor (debug: bool)
      ensures Valid() && Now() == Fresh(debug) && fresh(eventHeaderWords)
    {
      lastWord := ALL_ONES;
      eventHeaderCount := 0;
      eventHeaderWords := new Word[FEM_HEADER_COUNT](_ => ZERO);
      searchForNextEvent := false;
      headerInfo := BLANK_HEADER;
      checksum, nwords := 0, 0;
      chData := BLANK_CHANNEL;
      eventData := None;
      chLastWordAllow := false;
      debugMode := debug;
      storage := [];
    }

    method ClearEvent()
      requires Valid() && eventData.Some?
      modifies this
      ensures Valid() && Now() == Spec.ClearEvent(old(Now()))
    {
      eventHeaderCount := 0;
      headerInfo := BLANK_HEADER;
      eventData := Some([]);
      chData := chData.(samples := []);
    }

    method CheckEventQuality() returns (ok: bool)
      requires Valid()
      modifies this`chLastWordAllow
      ensures ok == QualityOk(old(Now()))
      ensures Now() == old(Now()).(lastMissing := chLastWordAllow)
      ensures chLastWordAllow == (old(chLastWordAllow) || (!SumAgrees(old(Now())) && SumFixable(old(Now()))))
    {
      ok := nwords == headerInfo.nwords;
      if checksum % 0x100_0000 != headerInfo.checksum {
        if (checksum + 0x503f) % 0x100_0000 == headerInfo.checksum {
          chLastWordAllow := true;
        } else {
          ok := false;
        }
      }
    }

    method StoreEvent() returns (o: Outcome)
      requires Valid()
      modifies this
      ensures Valid() && (Now(), o) == Spec.StoreEvent(old(Now()))
    {
      if eventData.None? {
        return Undefined;
      }
      var ok := CheckEventQuality();
      if ok {
        storage := storage + [StoredEvent(headerInfo, eventData.value)];
      }
      ClearEvent();
      o := if ok then Accepted else Rejected;
    }

    method PushChannel()
      requires Valid() && eventData.Some?
      modifies this`chData, this`eventData
      ensures Now() == Spec.PushChannel(old(Now()))
    {
      chData := chData.(moduleId := headerInfo.moduleId, moduleAddress := headerInfo.moduleAddress);
      eventData := Some(eventData.value + [chData]);
      chData := BLANK_CHANNEL;
    }

    method FlushAndStore() returns (o: Outcome)
      requires Valid()
      modifies this
      ensures Valid() && (Now(), o) == Spec.FlushAndStore(old(Now()))
    {
      if eventData.None? {
        return Undefined;
      }
      if |chData.samples| != 0 {
        PushChannel();
      }
      o := StoreEvent();
    }

    method Sample(w: u16) returns (o: Outcome)
      requires Valid()
      modifies this`chData
      ensures (Now(), o) == Spec.Sample(old(Now()), w)
    {
      var samples, ok := DecodeChWord(chData.samples, w);
      chData := chData.(samples := samples);
      o := if ok then Accepted else Rejected;
    }

    method CloseChannel(w: u16) returns (o: Outcome)
      requires Valid()
      modifies this
      ensures Valid() && (Now(), o) == Spec.CloseChannel(old(Now()), w)
    {
      if Field(w) != chData.number {
        return Rejected;
      }
      if eventData.None? {
        return Undefined;
      }
      PushChannel();
      o := Accepted;
      if nwords == headerInfo.nwords {
        checksum := Wrap(checksum + w);
        o := FlushAndStore();
      }
    }

    method OpenChannel(w: u16) returns (o: Outcome)
      requires Valid()
      modifies this`chData
      ensures (Now(), o) == Spec.OpenChannel(old(Now()), w)
    {
      if Class(lastWord) != FemHeader && Class(lastWord) != ChannelLastWord {
        return Rejected;
      }
      chData := BLANK_CHANNEL;
      chData := chData.(number := Field(w));
      o := Accepted;
    }

    method ChannelSwitch(w: u16) returns (o: Outcome)
      requires Valid()
      modifies this
      ensures Valid() && (Now(), o) == ChannelAction(old(Now()), w)
    {
      match Class(Short(w)) {
        case ChannelHeader =>
          o := OpenChannel(w);
        case ChannelLastWord =>
          o := CloseChannel(w);
        case FemLastWord =>
          if Class(lastWord) == ChannelLastWord {
            lastWord := Short(w);
            o := Rejected;
          } else {
            o := Sample(w);
          }
        case _ =>
          o := Sample(w);
      }
    }

    method ProcessChWord(w: u16) returns (o: Outcome)
      requires Valid()
      modifies this
      ensures Valid() && (Now(), o) == ChWord(old(Now()), w)
    {
      hide ChannelAction, Class;
      if w == 0 && Class(lastWord) == ChannelLastWord {
        return Accepted;
      }
      o := ChannelSwitch(w);
      if o == Undefined {
        return;
      }
      if o == Accepted && headerInfo.nwords != 0 {
        nwords := Wrap(nwords + 1);
        checksum := Wrap(checksum + w);
      }
      lastWord := Short(w);
    }

    method ProcessTwoChWords(w: Word) returns (o: Outcome)
      requires Valid()
      modifies this
      ensures Valid() && (Now(), o) == TwoChWords(old(Now()), w)
    {
      o := ProcessChWord(w.lo);
      if o == Accepted {
        o := ProcessChWord(w.hi);
      }
    }

    method ProcessEventHeader(w: Word) returns (o: Outcome)
      requires Valid()
      modifies this`eventData, this`lastWord
      ensures (Now(), o) == EventHeaderWord(old(Now()), w)
    {
      o := Accepted;
      if eventData.None? {
        eventData := Some([]);
      } else if Class(lastWord) != EventLastWord {
        o := Rejected;
      }
      lastWord := w;
    }

    method ProcessFemHeader(w: Word) returns (o: Outcome)
      requires Valid()
      modifies this, eventHeaderWords
      ensures Valid() && (Now(), o) == FemHeaderWord(old(Now()), w)
    {
      o := Accepted;
      if Class(lastWord) !in {EventHeader, FemHeader, ChannelLastWord} && !chLastWordAllow {
        o := Rejected;
      } else if Class(Short(w.hi)) != FemHeader {
        o := Rejected;
      } else {
        if eventHeaderCount >= FEM_HEADER_COUNT {
          return Undefined;
        }
        eventHeaderWords[eventHeaderCount] := w;
        eventHeaderCount := eventHeaderCount + 1;
        if eventHeaderCount == FEM_HEADER_COUNT {
          var threw;
          headerInfo, threw := DecodeFemHeader(eventHeaderWords);
          if threw {
            return Threw;
          }
          checksum := 0;
          nwords := 0;
        }
      }
      chLastWordAllow := false;
      lastWord := w;
    }

    method ProcessEventLastWord(w: Word) returns (o: Outcome)
      requires Valid()
      modifies this`chLastWordAllow, this`lastWord
      ensures (Now(), o) == EventLastWordStep(old(Now()), w)
    {
      o := Accepted;
      if Class(lastWord) != ChannelLastWord {
        if chLastWordAllow {
          chLastWordAllow := false;
        } else {
          o := Rejected;
        }
      } else if headerInfo.eventNumber != INVALID_WORD {
        o := Rejected;
      }
      lastWord := w;
    }

    method Switch(w: Word) returns (o: Outcome)
      requires Valid()
      modifies this, eventHeaderWords
      ensures Valid() && (Now(), o) == Dispatch(old(Now()), w)
    {
      match Class(w) {
        case EventHeader =>
          if (Class(lastWord) == EventLastWord && headerInfo.nwords == 0) || eventData.None? {
            searchForNextEvent := false;
            o := ProcessEventHeader(w);
          } else {
            o := ProcessTwoChWords(w);
          }
        case FemHeader =>
          o := Accepted;
          if nwords != 0 && nwords == headerInfo.nwords {
            o := FlushAndStore();
          }
          if o == Accepted {
            if headerInfo.nwords == 0 {
              o := ProcessFemHeader(w);
            } else {
              o := ProcessTwoChWords(w);
            }
          }
        case EventLastWord =>
          if nwords == headerInfo.nwords {
            checksum := Wrap(checksum + w.Value());
            o := FlushAndStore();
            if o == Undefined {
              return;
            }
          }
          o := ProcessEventLastWord(w);
        case _ =>
          o := ProcessTwoChWords(w);
      }
    }

    method ProcessWord(w: Word) returns (o: Outcome)
      requires Valid()
      modifies this, eventHeaderWords
      ensures Valid() && (Now(), o) == Step(old(Now()), w)
    {
      hide Dispatch, Class;
      if w == ZERO {
        return Accepted;
      }
      if searchForNextEvent && !(Class(w) == EventHeader && Class(lastWord) == EventLastWord) {
        lastWord := w;
        return Accepted;
      }
      o := Switch(w);
      if o == Rejected {
        if eventData.None? {
          return Undefined;
        }
        ClearEvent();
        if debugMode {
          searchForNextEvent := true;
        }
      }
    }

    /** The decoding loop outside debug mode. */
    method Decode(ws: seq<Word>) returns (o: Outcome)
      requires Valid()
      modifies this, eventHeaderWords
      ensures Valid() && (Now(), o) == Run(old(Now()), ws)
    {
      o := Accepted;
      var i := 0;
      while i < |ws| && o == Accepted
        invariant 0 <= i <= |ws| && Valid()
        invariant o == Accepted ==> Run(old(Now()), ws) == Run(Now(), ws[i..])
        invariant o != Accepted ==> Run(old(Now()), ws) == (Now(), o)
      {
        assert ws[i..][1..] == ws[i + 1..];
        o := ProcessWord(ws[i]);
        i := i + 1;
      }
    }
  }
}
