/** The six-word FEM header: how the encoder writes it, how the decoder base class
    reads it back, and the roll-over correction of truncated frame numbers. */
module FemHeader {
  import opened Division
  import opened Words

  const FEM_HEADER_COUNT := 6

  /** The header word buffer. */
  type HeaderWords = ws: seq<Word> | |ws| == FEM_HEADER_COUNT witness NO_HEADER_WORDS

  const NO_HEADER_WORDS := [ZERO, ZERO, ZERO, ZERO, ZERO, ZERO]

  datatype HeaderInfo = HeaderInfo(
    moduleAddress: u8,
    moduleId: u8,
    eventNumber: u32,
    frame: u32,
    trigFrame: u32,
    trigSample: u32,
    nwords: u32,
    checksum: u32)

  /** `InfoFEM_t::clear_event`. */
  const BLANK_HEADER := HeaderInfo(INVALID_UCHAR, INVALID_UCHAR, INVALID_WORD, INVALID_WORD,
                                   INVALID_WORD, INVALID_WORD, 0, 0)

  /** `roll_over`: `reference` with its lower `nbits` replaced by those of `subject`,
      moved by one period when that lands more than half a period away.  `None` is
      the exception. */
  function RollOver(reference: u32, subject: u32, nbits: nat): Option<u32>
  {
    if nbits == 3 then Correct(reference, reference - reference % 8 + subject % 8, 3)
    else if nbits == 4 then Correct(reference, reference - reference % 16 + subject % 16, 7)
    else None
  }

  function Correct(reference: u32, s: u32, diff: int): Option<u32>
  {
    if s > reference && s - reference > diff then
      if s - reference == diff + 1 then None else Some(Wrap(s - 2 * (diff + 1)))
    else if s < reference && reference - s > diff then
      if reference - s == diff + 1 then None else Some(Wrap(s + 2 * (diff + 1)))
    else Some(s)
  }

  /** Closer than `half` on the circle of unsigned 32-bit values. */
  predicate Near(t: u32, reference: u32, half: int) {
    Wrap(t - reference) < half || Wrap(reference - t) < half
  }

  function Half(nbits: nat): int { if nbits == 3 then 4 else 8 }

  /** `RollOver` by the difference of the low bits: the offset from the reference is
      that difference reduced to less than half a period in size. */
  lemma RollOverOffset(reference: u32, subject: u32, nbits: nat)
    requires nbits == 3 || nbits == 4
    ensures var half := Half(nbits);
            var offset := subject % (2 * half) - reference % (2 * half);
            RollOver(reference, subject, nbits) ==
            if offset == half || offset == -half then None
            else if offset > half then Some(Wrap(reference + offset - 2 * half))
            else if offset < -half then Some(Wrap(reference + offset + 2 * half))
            else Some(Wrap(reference + offset))
  {
    var s := reference - reference % (2 * Half(nbits)) + subject % (2 * Half(nbits));
    DivMod(s, 0x1_0000_0000, 0, s);
  }

  /** Other numbers of bits are not supported. */
  lemma RollOverUnsupported(reference: u32, subject: u32, nbits: nat)
    requires nbits != 3 && nbits != 4
    ensures RollOver(reference, subject, nbits) == None
  {
  }

  /** The exception is thrown exactly when the distance is half a period. */
  lemma RollOverThrows(reference: u32, subject: u32, nbits: nat)
    requires nbits == 3 || nbits == 4
    ensures RollOver(reference, subject, nbits) == None
            <==> (subject - reference) % (2 * Half(nbits)) == Half(nbits)
  {
    RollOverOffset(reference, subject, nbits);
    var half := Half(nbits);
    var period := 2 * half;
    var offset := subject % period - reference % period;
    var turns := subject / period - reference / period;
    assert subject - reference == turns * period + offset;
    if offset < 0 {
      DivMod(subject - reference, period, turns - 1, offset + period);
    } else {
      DivMod(subject - reference, period, turns, offset);
    }
  }

  /** `Wrap(reference + d)` has the low bits of the sum and is near the reference when
      `d` is small. */
  lemma WrapNear(reference: u32, d: int, half: int)
    requires half == 4 || half == 8
    requires -half < d < half
    ensures Near(Wrap(reference + d), reference, half)
    ensures Wrap(reference + d) % (2 * half) == (reference + d) % (2 * half)
  {
    var t := Wrap(reference + d);
    if d >= 0 {
      WrapStep(reference, d);
    } else {
      WrapStep(t, 0 - d);
      assert Wrap(t - d) == reference;
    }
    WrapTurns(reference + d, half);
  }

  lemma WrapTurns(x: int, half: int)
    requires half == 4 || half == 8
    ensures Wrap(x) % (2 * half) == x % (2 * half)
  {
    var turns := x / 0x1_0000_0000;
    var period := 2 * half;
    assert x == turns * 0x1_0000_0000 + Wrap(x);
    if half == 4 {
      DivMod(x, 8, turns * 0x2000_0000 + Wrap(x) / 8, Wrap(x) % 8);
    } else {
      DivMod(x, 16, turns * 0x1000_0000 + Wrap(x) / 16, Wrap(x) % 16);
    }
  }

  lemma WrapStep(t: u32, d: int)
    requires 0 <= d < 0x1_0000_0000
    ensures Wrap(Wrap(t + d) - t) == d
  {
  }

  /** A value near the reference is the reference plus a small offset, wrapped. */
  lemma NearOffset(t: u32, reference: u32, half: int) returns (d: int)
    requires half == 4 || half == 8
    requires Near(t, reference, half)
    ensures -half < d < half && t == Wrap(reference + d)
  {
    d := if Wrap(t - reference) < half then Wrap(t - reference) else 0 - Wrap(reference - t);
  }

  /** A turn of the low-bit difference stays congruent to the subject. */
  lemma TurnCongruent(reference: int, a: int, turn: int, period: int)
    requires period == 8 || period == 16
    requires 0 <= a < period
    ensures (reference + a - reference % period + turn * period) % period == a
  {
    DivMod(reference + a - reference % period + turn * period, period, reference / period + turn, a);
  }

  /** The result agrees with the subject on the low bits and is near the reference. */
  lemma RollOverSound(reference: u32, subject: u32, nbits: nat)
    requires nbits == 3 || nbits == 4
    ensures match RollOver(reference, subject, nbits)
            case None => true
            case Some(t) => t % (2 * Half(nbits)) == subject % (2 * Half(nbits)) && Near(t, reference, Half(nbits))
  {
    RollOverOffset(reference, subject, nbits);
    var half := Half(nbits);
    var a := subject % (2 * half);
    var offset := a - reference % (2 * half);
    if offset != half && offset != -half {
      var turn := if offset > half then -1 else if offset < -half then 1 else 0;
      TurnCongruent(reference, a, turn, 2 * half);
      assert -half < offset + turn * (2 * half) < half;
      WrapNear(reference, offset + turn * (2 * half), half);
    }
  }

  /** A frame number is recovered from its low bits exactly when it is near the
      reference; otherwise another value, or the exception, comes back. */
  lemma RollOverRecovers(reference: u32, t: u32, nbits: nat)
    requires nbits == 3 || nbits == 4
    ensures RollOver(reference, t % (2 * Half(nbits)), nbits) == Some(t) <==> Near(t, reference, Half(nbits))
  {
    var half := Half(nbits);
    var period := 2 * half;
    var subject := t % period;
    RollOverSound(reference, subject, nbits);
    if Near(t, reference, half) {
      var d := NearOffset(t, reference, half);
      RecoversOffset(reference, d, nbits);
    } else {
      DivMod(subject, period, 0, subject);
    }
  }

  lemma RecoversOffset(reference: u32, d: int, nbits: nat)
    requires nbits == 3 || nbits == 4
    requires -Half(nbits) < d < Half(nbits)
    ensures RollOver(reference, Wrap(reference + d) % (2 * Half(nbits)), nbits) == Some(Wrap(reference + d))
  {
    var half := Half(nbits);
    var subject := Wrap(reference + d) % (2 * half);
    WrapNear(reference, d, half);
    SmallOffset(reference, d, 2 * half);
    RollOverOffset(reference, subject, nbits);
    DivMod(subject, 2 * half, 0, subject);
  }

  /** The low-bit difference of two values `d` apart. */
  lemma SmallOffset(reference: int, d: int, period: int)
    requires period == 8 || period == 16
    requires -period < 2 * d < period
    ensures var offset := (reference + d) % period - reference % period;
            offset == d || offset == d + period || offset == d - period
  {
    var r := reference % period;
    var q := reference / period;
    if r + d < 0 {
      DivMod(reference + d, period, q - 1, r + d + period);
    } else if r + d >= period {
      DivMod(reference + d, period, q + 1, r + d - period);
    } else {
      DivMod(reference + d, period, q, r + d);
    }
  }

  /** `format(FEM_HEADER, x)`. */
  function HeaderHalf(x: u32): u16 { Tagged(15, x % 0x1000) }

  function FieldWord(x: u32): Word { Word(HeaderHalf(x), HeaderHalf(x / 0x1000)) }

  function FirstWord(address: u8, id: u8): Word { Word(HeaderHalf(id * 32 + address), HeaderHalf(0xfff)) }

  function TriggerWord(frame: u32, sample: u32): Word {
    Word(HeaderHalf(sample % 0x100), HeaderHalf(frame % 16 * 16 + sample % 0x1_0000 / 0x100))
  }

  /** The words `encode_event_header` writes. */
  function EncodeHeader(h: HeaderInfo): (ws: seq<Word>)
    ensures |ws| == FEM_HEADER_COUNT
  {
    [FirstWord(h.moduleAddress, h.moduleId), FieldWord(h.nwords), FieldWord(h.eventNumber),
     FieldWord(h.frame), FieldWord(h.checksum), TriggerWord(h.trigFrame, h.trigSample)]
  }

  function AddressValue(w: Word): u8 { Field(w.hi) % 32 }

  function IdValue(w: Word): u8 { Field(w.hi) / 32 % 16 }

  /** Lower twelve bits of the upper half, then those of the lower half. */
  function FieldValue(w: Word): u32 { Field(w.hi) + Field(w.lo) * 0x1000 }

  function TriggerFrameBits(w: Word): u32 { Field(w.lo) / 16 % 16 }

  function TriggerSampleValue(w: Word): u32 { w.lo % 16 * 0x100 + w.hi % 0x100 }

  /** What `decode_fem_header` has assigned before it reads the trigger word. */
  function DecodeFields(ws: seq<Word>): HeaderInfo
    requires |ws| == FEM_HEADER_COUNT
  {
    HeaderInfo(AddressValue(ws[0]), IdValue(ws[0]), FieldValue(ws[2]), FieldValue(ws[3]),
               INVALID_WORD, INVALID_WORD, FieldValue(ws[1]), FieldValue(ws[4]))
  }

  /** `decode_fem_header`; `None` when the roll-over correction throws. */
  function DecodeHeader(ws: seq<Word>): Option<HeaderInfo>
    requires |ws| == FEM_HEADER_COUNT
  {
    var h := DecodeFields(ws);
    match RollOver(h.frame, TriggerFrameBits(ws[5]), 4)
    case None => None
    case Some(t) => Some(h.(trigFrame := t, trigSample := TriggerSampleValue(ws[5])))
  }

  /** Six words are decoded one field after the other; the fields before the trigger frame
      are assigned even if that throws. */
  method DecodeFemHeader(words: array<Word>) returns (h: HeaderInfo, threw: bool)
    requires words.Length == FEM_HEADER_COUNT
    ensures threw == DecodeHeader(words[..]).None?
    ensures h == if threw then DecodeFields(words[..]) else DecodeHeader(words[..]).value
  {
    h := DecodeFields(words[..]);
    var trigFrame := RollOver(h.frame, TriggerFrameBits(words[5]), 4);
    threw := trigFrame.None?;
    if !threw {
      h := h.(trigFrame := trigFrame.value, trigSample := TriggerSampleValue(words[5]));
    }
  }

  /** Every field fits the bits that the six words give it. */
  predicate Fits(h: HeaderInfo) {
    && h.moduleAddress < 32
    && h.moduleId < 16
    && h.nwords < 0x100_0000
    && h.eventNumber < 0x100_0000
    && h.frame < 0x100_0000
    && h.checksum < 0x100_0000
    && h.trigSample < 0x1000
  }

  lemma HeaderHalfParts(x: u32)
    ensures Field(HeaderHalf(x)) == x % 0x1000
    ensures HeaderHalf(x) == 0xffff <==> x % 0x1000 == 0xfff
  {
    TaggedParts(15, x % 0x1000);
  }

  /** A field survives when it has 24 bits. */
  lemma FieldRoundTrip(x: u32)
    requires x < 0x100_0000
    ensures FieldValue(FieldWord(x)) == x
  {
    HeaderHalfParts(x);
    HeaderHalfParts(x / 0x1000);
    var upper, lower := x / 0x1000, x % 0x1000;
    assert x == upper * 0x1000 + lower;
    DivMod(upper, 0x1000, 0, upper);
    assert Field(FieldWord(x).lo) == upper && Field(FieldWord(x).hi) == lower;
  }

  /** Its word is the event marker exactly when all its bits are ones. */
  lemma FieldMarker(x: u32)
    requires x < 0x100_0000
    ensures FieldWord(x) == ALL_ONES <==> x == 0xff_ffff
  {
    HeaderHalfParts(x);
    HeaderHalfParts(x / 0x1000);
    DivMod(x / 0x1000, 0x1000, 0, x / 0x1000);
  }

  /** The trigger frame's bits are the upper half of the lowest byte. */
  lemma TriggerBits(w: Word)
    ensures w.lo % 0x100 == 16 * TriggerFrameBits(w) + w.lo % 16
  {
    var q, b := w.lo / 0x100, w.lo % 0x100;
    DivMod(w.lo, 16, q * 16 + b / 16, b % 16);
    DivMod(Field(w.lo), 16, q % 16 * 16 + b / 16, b % 16);
    DivMod(Field(w.lo) / 16, 16, q % 16, b / 16);
  }

  lemma FirstWordRoundTrip(address: u8, id: u8)
    requires address < 32 && id < 16
    ensures FirstWord(address, id).lo == 0xffff
    ensures AddressValue(FirstWord(address, id)) == address && IdValue(FirstWord(address, id)) == id
    ensures FirstWord(address, id) != ALL_ONES
  {
    var x := id * 32 + address;
    DivMod(x, 0x1000, 0, x);
    TaggedParts(15, x);
    DivMod(x, 32, id, address);
  }

  lemma TriggerWordRoundTrip(frame: u32, sample: u32)
    requires sample < 0x1000
    ensures TriggerFrameBits(TriggerWord(frame, sample)) == frame % 16
    ensures TriggerSampleValue(TriggerWord(frame, sample)) == sample
    ensures TriggerWord(frame, sample) != ALL_ONES
  {
    var coarse, fine, bits := sample / 0x100, sample % 0x100, frame % 16;
    DivMod(sample, 0x1_0000, 0, sample);
    var x := bits * 16 + coarse;
    DivMod(x, 0x1000, 0, x);
    DivMod(x, 16, bits, coarse);
    DivMod(fine, 0x1000, 0, fine);
    TaggedParts(15, x);
    DivMod(Tagged(15, fine), 0x100, 0xf0, fine);
    DivMod(Tagged(15, x), 16, 0xf00 + bits, coarse);
  }

  lemma DecodeFrom(w0: Word, w1: Word, w2: Word, w3: Word, w4: Word, w5: Word, h: HeaderInfo)
    requires AddressValue(w0) == h.moduleAddress && IdValue(w0) == h.moduleId
    requires FieldValue(w1) == h.nwords && FieldValue(w2) == h.eventNumber
    requires FieldValue(w3) == h.frame && FieldValue(w4) == h.checksum
    requires TriggerFrameBits(w5) == h.trigFrame % 16 && TriggerSampleValue(w5) == h.trigSample
    ensures DecodeFields([w0, w1, w2, w3, w4, w5]) == h.(trigFrame := INVALID_WORD, trigSample := INVALID_WORD)
    ensures DecodeHeader([w0, w1, w2, w3, w4, w5]) == WithTriggerFrame(h)
  {
  }

  /** The header with the trigger frame that its four sent bits give. */
  function WithTriggerFrame(h: HeaderInfo): Option<HeaderInfo>
  {
    match RollOver(h.frame, h.trigFrame % 16, 4)
    case None => None
    case Some(t) => Some(h.(trigFrame := t))
  }

  /** What decoding gives back, whatever the trigger frame was. */
  lemma DecodeEncoded(h: HeaderInfo)
    requires Fits(h)
    ensures DecodeFields(EncodeHeader(h)) == h.(trigFrame := INVALID_WORD, trigSample := INVALID_WORD)
    ensures DecodeHeader(EncodeHeader(h)) == WithTriggerFrame(h)
  {
    FirstWordRoundTrip(h.moduleAddress, h.moduleId);
    FieldRoundTrip(h.nwords);
    FieldRoundTrip(h.eventNumber);
    FieldRoundTrip(h.frame);
    FieldRoundTrip(h.checksum);
    TriggerWordRoundTrip(h.trigFrame, h.trigSample);
    DecodeFrom(FirstWord(h.moduleAddress, h.moduleId), FieldWord(h.nwords), FieldWord(h.eventNumber),
               FieldWord(h.frame), FieldWord(h.checksum), TriggerWord(h.trigFrame, h.trigSample), h);
  }

  /** Decoding always yields fields that fit. */
  lemma DecodedFits(ws: seq<Word>)
    requires |ws| == FEM_HEADER_COUNT
    ensures match DecodeHeader(ws) case None => true case Some(h) => Fits(h)
  {
  }

  /** The header round trip: a header survives exactly when its fields fit and its
      trigger frame is within seven of the event frame, although only the low four
      bits of the trigger frame are sent. */
  lemma HeaderRoundTrip(h: HeaderInfo)
    ensures DecodeHeader(EncodeHeader(h)) == Some(h) <==> Fits(h) && Near(h.trigFrame, h.frame, 8)
  {
    if Fits(h) {
      DecodeEncoded(h);
      RollOverRecovers(h.frame, h.trigFrame, 4);
    } else {
      DecodedFits(EncodeHeader(h));
    }
  }

  predicate HeaderWord(w: Word) { Tag(w.lo) == 15 && Tag(w.hi) == 15 }

  lemma HeaderWordsTagged(h: HeaderInfo)
    ensures forall i :: 0 <= i < FEM_HEADER_COUNT ==> HeaderWord(EncodeHeader(h)[i])
  {
    forall x: u32
      ensures Tag(HeaderHalf(x)) == 15
    {
      TaggedParts(15, x % 0x1000);
    }
  }

  /** No 24-bit header field is all ones: such a field makes its word the
      event marker. */
  predicate FieldsClean(h: HeaderInfo) {
    h.nwords != 0xff_ffff && h.eventNumber != 0xff_ffff && h.frame != 0xff_ffff && h.checksum != 0xff_ffff
  }

  lemma CleanWords(h: HeaderInfo)
    requires Fits(h)
    ensures FieldsClean(h) <==> ALL_ONES !in EncodeHeader(h)
  {
    hide FieldWord, FirstWord, TriggerWord;
    FirstWordRoundTrip(h.moduleAddress, h.moduleId);
    FieldMarker(h.nwords);
    FieldMarker(h.eventNumber);
    FieldMarker(h.frame);
    FieldMarker(h.checksum);
    TriggerWordRoundTrip(h.trigFrame, h.trigSample);
    var ws := EncodeHeader(h);
    assert ws[0] == FirstWord(h.moduleAddress, h.moduleId) && ws[1] == FieldWord(h.nwords)
        && ws[2] == FieldWord(h.eventNumber) && ws[3] == FieldWord(h.frame)
        && ws[4] == FieldWord(h.checksum) && ws[5] == TriggerWord(h.trigFrame, h.trigSample);
  }

  /** The encoder's word buffer. */
  class SlowEncoder {
    var words: array<Word>
    var index: u16

    constructor ()
      ensures fresh(words) && words.Length == 60000 && index == 0
    {
      words := new Word[60000](_ => ZERO);
      index := 0;
    }

    method Put(hi: u16, lo: u16)
      requires index as int < words.Length == 60000
      modifies this`index, words
      ensures index == old(index) + 1
      ensures words[..] == old(words[..])[old(index) := Word(hi, lo)]
    {
      words[index] := Word(hi, 0);
      words[index] := words[index].(lo := lo);
      index := index + 1;
    }

    /** `encode_event_header`: six words from the current index on. */
    method EncodeEventHeader(h: HeaderInfo)
      requires index as int + FEM_HEADER_COUNT <= words.Length == 60000
      modifies this`index, words
      ensures index == old(index) + FEM_HEADER_COUNT
      ensures words[..] == old(words[..index]) + EncodeHeader(h) + old(words[index + FEM_HEADER_COUNT..])
    {
      Put(HeaderHalf(h.moduleId * 32 + h.moduleAddress), HeaderHalf(0xfff));
      PutField(h.nwords);
      PutField(h.eventNumber);
      PutField(h.frame);
      PutField(h.checksum);
      Put(HeaderHalf(h.trigSample % 0x100), HeaderHalf(h.trigFrame % 16 * 16 + h.trigSample % 0x1_0000 / 0x100));
    }

    method PutField(x: u32)
      requires index as int < words.Length == 60000
      modifies this`index, words
      ensures index == old(index) + 1
      ensures words[..] == old(words[..])[old(index) := FieldWord(x)]
    {
      Put(HeaderHalf(x), HeaderHalf(x / 0x1000));
    }
  }
}
