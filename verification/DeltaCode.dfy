/** The delta code of the TPC readout: a data word holds either one raw 12-bit
    sample or, in its low 14 bits, a run of variable-length codes for the steps
    between consecutive samples. */
module DeltaCode {
  import opened Division
  import opened Words

  // ----- decoding -----

  /** The step that a one bit after `zeros` zero bits stands for. */
  function StepOf(zeros: nat): int
    requires zeros <= 6
  {
    if zeros % 2 == 0 then zeros / 2 else -(zeros / 2) - 1
  }

  function Add(sample: u16, step: int): u16 { (sample + step) % 0x1_0000 }

  function DecodeBits(bits: seq<bool>, zeros: nat, wf: seq<u16>): (seq<u16>, bool)
    requires wf != []
  {
    if bits == [] then (wf, true)
    else if !bits[0] then DecodeBits(bits[1..], zeros + 1, wf)
    else if zeros > 6 then (wf, false)
    else DecodeBits(bits[1..], 0, wf + [Add(wf[|wf| - 1], StepOf(zeros))])
  }

  /** Most significant bit first. */
  function ToBits(v: nat, n: nat): (bits: seq<bool>)
    ensures |bits| == n
  {
    if n == 0 then [] else ToBits(v / 2, n - 1) + [v % 2 == 1]
  }

  /** `is_compressed`: the two top bits are 10. */
  predicate IsCompressed(w: u16) { w / 0x4000 == 2 }

  /** `decode_ch_word`: the samples afterwards, and whether the word was accepted. */
  function DecodeWord(wf: seq<u16>, w: u16): (seq<u16>, bool)
  {
    if !IsCompressed(w) then (wf + [Field(w)], true)
    else if wf == [] then (wf, false)
    else DecodeBits(ToBits(w % 0x4000, 14), 0, wf)
  }

  lemma {:induction false} BitAt(v: nat, n: nat, i: nat)
    requires i < n
    ensures ToBits(v, n)[n - 1 - i] == (Shr(v, i) % 2 == 1)
  {
    if i > 0 {
      BitAt(v / 2, n - 1, i - 1);
    }
  }

  /** The last `n` of the 14 payload bits. */
  function LowBits(data: nat, n: nat): seq<bool>
    requires n <= 14
  {
    ToBits(data, 14)[14 - n..]
  }

  lemma DecodeStep(data: nat, index: nat, zeros: nat, wf: seq<u16>)
    requires index < 14 && wf != []
    ensures DecodeBits(LowBits(data, index + 1), zeros, wf) ==
            if Shr(data, index) % 2 == 0 then DecodeBits(LowBits(data, index), zeros + 1, wf)
            else if zeros > 6 then (wf, false)
            else DecodeBits(LowBits(data, index), 0, wf + [Add(wf[|wf| - 1], StepOf(zeros))])
  {
    BitAt(data, 14, index);
    assert LowBits(data, index + 1)[1..] == LowBits(data, index);
  }

  method AddHuffmanAdc(wf: seq<u16>, zeroCount: nat) returns (wf': seq<u16>, ok: bool)
    requires wf != []
    ensures ok == (zeroCount <= 6)
    ensures wf' == if ok then wf + [Add(wf[|wf| - 1], StepOf(zeroCount))] else wf
  {
    var last: int := wf[|wf| - 1];
    ok, wf' := true, wf;
    match zeroCount
    case 0 => wf' := wf + [last];
    case 1 => wf' := wf + [(last - 1) % 0x1_0000];
    case 2 => wf' := wf + [(last + 1) % 0x1_0000];
    case 3 => wf' := wf + [(last - 2) % 0x1_0000];
    case 4 => wf' := wf + [(last + 2) % 0x1_0000];
    case 5 => wf' := wf + [(last - 3) % 0x1_0000];
    case 6 => wf' := wf + [(last + 3) % 0x1_0000];
    case _ => ok := false;
  }

  method DecodeChWord(wf: seq<u16>, w: u16) returns (wf': seq<u16>, ok: bool)
    ensures (wf', ok) == DecodeWord(wf, w)
  {
    ok, wf' := true, wf;
    if !IsCompressed(w) {
      wf' := wf + [w % 0x1000];
    } else if |wf| == 0 {
      ok := false;
    } else {
      var data := w % 0x4000;
      var zeroCount := 0;
      var index := 13;
      while index >= 0 && ok
        invariant -1 <= index <= 13 && wf' != []
        invariant ok && DecodeWord(wf, w) == DecodeBits(LowBits(data, index + 1), zeroCount, wf')
      {
        DecodeStep(data, index, zeroCount, wf');
        if Shr(data, index) % 2 == 0 {
          zeroCount := zeroCount + 1;
        } else {
          wf', ok := AddHuffmanAdc(wf', zeroCount);
          if !ok {
            break;
          }
          zeroCount := 0;
        }
        index := index - 1;
      }
    }
  }

  // ----- which payloads decode, and to what -----

  function Falses(n: nat): seq<bool> { seq(n, _ => false) }

  /** Some one bit follows at least seven zero bits. */
  ghost predicate LongGap(bits: seq<bool>) {
    exists i :: 7 <= i < |bits| && GapBefore(bits, i)
  }

  ghost predicate GapBefore(bits: seq<bool>, i: int)
    requires 7 <= i < |bits|
  {
    bits[i] && forall k :: i - 7 <= k < i ==> !bits[k]
  }

  function Ones(bits: seq<bool>): nat
  {
    if bits == [] then 0 else (if bits[0] then 1 else 0) + Ones(bits[1..])
  }

  /** Consecutive samples from index `from` on differ by at most three, modulo 2^16. */
  ghost predicate SmallSteps(wf: seq<u16>, from: nat) {
    forall i :: from <= i < |wf| && 0 < i ==> (wf[i] as int - wf[i - 1] as int + 3) % 0x1_0000 <= 6
  }

  lemma AddIsSmallStep(sample: u16, step: int)
    requires -3 <= step <= 3
    ensures (Add(sample, step) as int - sample as int + 3) % 0x1_0000 <= 6
  {
  }

  lemma {:induction false} DecodeFailsOnLongGap(bits: seq<bool>, zeros: nat, wf: seq<u16>)
    requires wf != []
    ensures !DecodeBits(bits, zeros, wf).1 <==> LongGap(Falses(zeros) + bits)
  {
    hide Add, StepOf;
    var all := Falses(zeros) + bits;
    if bits == [] {
    } else if !bits[0] {
      DecodeFailsOnLongGap(bits[1..], zeros + 1, wf);
      assert all == Falses(zeros + 1) + bits[1..];
    } else if zeros > 6 {
      assert GapBefore(all, zeros);
    } else {
      DecodeFailsOnLongGap(bits[1..], 0, wf + [Add(wf[|wf| - 1], StepOf(zeros))]);
      assert Falses(0) + bits[1..] == bits[1..];
      assert all == Falses(zeros) + [true] + bits[1..];
      GapAfterOne(zeros, bits[1..]);
    }
  }

  lemma GapAfterOne(zeros: nat, rest: seq<bool>)
    requires zeros <= 6
    ensures LongGap(Falses(zeros) + [true] + rest) <==> LongGap(rest)
  {
    var all := Falses(zeros) + [true] + rest;
    if LongGap(rest) {
      var i :| 7 <= i < |rest| && GapBefore(rest, i);
      assert GapBefore(all, i + zeros + 1);
    }
    if LongGap(all) {
      var i :| 7 <= i < |all| && GapBefore(all, i);
      assert all[zeros];
      assert i - 7 > zeros;
      forall k | i - zeros - 8 <= k < i - zeros - 1
        ensures !rest[k]
      {
        assert rest[k] == all[k + zeros + 1];
      }
      assert GapBefore(rest, i - zeros - 1);
    }
  }

  lemma {:induction false} DecodeGrows(bits: seq<bool>, zeros: nat, wf: seq<u16>)
    requires wf != []
    requires DecodeBits(bits, zeros, wf).1
    ensures var wf' := DecodeBits(bits, zeros, wf).0;
            wf <= wf' && |wf'| == |wf| + Ones(bits) && SmallSteps(wf', |wf|)
  {
    if bits == [] {
    } else if !bits[0] {
      DecodeGrows(bits[1..], zeros + 1, wf);
    } else {
      var d := StepOf(zeros);
      AddIsSmallStep(wf[|wf| - 1], d);
      var next := wf + [Add(wf[|wf| - 1], d)];
      DecodeGrows(bits[1..], 0, next);
    }
  }

  /** A compressed word on a non-empty waveform is refused exactly when some one bit of
      its payload follows seven or more zeros; otherwise it appends one sample per one
      bit, each within three of the one before. */
  lemma DecodeExactness(wf: seq<u16>, w: u16)
    requires wf != [] && IsCompressed(w)
    ensures var bits := ToBits(w % 0x4000, 14);
            var (wf', ok) := DecodeWord(wf, w);
            && (!ok <==> LongGap(bits))
            && (ok ==> wf <= wf' && |wf'| == |wf| + Ones(bits) && SmallSteps(wf', |wf|))
  {
    var bits := ToBits(w % 0x4000, 14);
    assert Falses(0) + bits == bits;
    DecodeFailsOnLongGap(bits, 0, wf);
    if !LongGap(bits) {
      DecodeGrows(bits, 0, wf);
    }
  }

  // ----- encoding -----

  datatype Item = Raw(sample: u12) | Codes(steps: seq<int>)

  /** Number of zero bits in the code of a step. */
  function ZerosFor(step: int): nat
    requires -3 <= step <= 3
  {
    if step < 0 then -2 * step - 1 else 2 * step
  }

  predicate Codable(steps: seq<int>) { forall i :: 0 <= i < |steps| ==> -3 <= steps[i] <= 3 }

  function CodeBits(steps: seq<int>): seq<bool>
    requires Codable(steps)
  {
    if steps == [] then [] else Falses(ZerosFor(steps[0])) + [true] + CodeBits(steps[1..])
  }

  function FromBits(bits: seq<bool>): nat
  {
    if bits == [] then 0 else 2 * FromBits(bits[..|bits| - 1]) + (if bits[|bits| - 1] then 1 else 0)
  }

  function Pow2(n: nat): nat { if n == 0 then 1 else 2 * Pow2(n - 1) }

  predicate ValidItem(item: Item) {
    match item
    case Raw(_) => true
    case Codes(steps) => Codable(steps) && |CodeBits(steps)| <= 14
  }

  /** A waveform starts with a raw sample. */
  predicate ValidItems(items: seq<Item>) { AllValid(items) && (items != [] ==> items[0].Raw?) }

  predicate AllValid(items: seq<Item>) { forall i :: 0 <= i < |items| ==> ValidItem(items[i]) }

  /** The payload bits, filled with zeros behind the codes. */
  function Payload(steps: seq<int>): (bits: seq<bool>)
    requires Codable(steps) && |CodeBits(steps)| <= 14
    ensures |bits| == 14
  {
    CodeBits(steps) + Falses(14 - |CodeBits(steps)|)
  }

  function ItemWord(item: Item): u16
    requires ValidItem(item)
  {
    match item
    case Raw(v) => v
    case Codes(steps) => PayloadFits(Payload(steps)); 0x8000 + FromBits(Payload(steps))
  }

  function ItemWords(items: seq<Item>): seq<u16>
    requires AllValid(items)
  {
    seq(|items|, i requires 0 <= i < |items| => ItemWord(items[i]))
  }

  /** Running sums from `sample`. */
  function Walk(sample: u16, steps: seq<int>): (wf: seq<u16>)
    ensures |wf| == |steps|
    decreases |steps|
  {
    if steps == [] then [] else [Add(sample, steps[0])] + Walk(Add(sample, steps[0]), steps[1..])
  }

  /** What an item means after the samples `wf`. */
  function Extend(wf: seq<u16>, item: Item): seq<u16>
  {
    match item
    case Raw(v) => wf + [v]
    case Codes(steps) => if wf == [] then [] else wf + Walk(wf[|wf| - 1], steps)
  }

  function Samples(items: seq<Item>): seq<u16>
  {
    if items == [] then [] else Extend(Samples(items[..|items| - 1]), items[|items| - 1])
  }

  lemma {:induction false} FromBitsBound(bits: seq<bool>)
    ensures FromBits(bits) < Pow2(|bits|)
  {
    if bits != [] {
      FromBitsBound(bits[..|bits| - 1]);
    }
  }

  lemma PayloadFits(bits: seq<bool>)
    requires |bits| == 14
    ensures FromBits(bits) < 0x4000
  {
    FromBitsBound(bits);
    assert Pow2(7) == 128;
    assert Pow2(14) == 0x4000;
  }

  lemma {:induction false} BitsRoundTrip(bits: seq<bool>)
    ensures ToBits(FromBits(bits), |bits|) == bits
  {
    if bits != [] {
      BitsRoundTrip(bits[..|bits| - 1]);
    }
  }

  lemma {:induction false} SkipZeros(n: nat, bits: seq<bool>, zeros: nat, wf: seq<u16>)
    requires wf != []
    ensures DecodeBits(Falses(n) + bits, zeros, wf) == DecodeBits(bits, zeros + n, wf)
  {
    if n == 0 {
      assert Falses(0) + bits == bits;
    } else {
      assert (Falses(n) + bits)[1..] == Falses(n - 1) + bits;
      SkipZeros(n - 1, bits, zeros + 1, wf);
    }
  }

  /** Decoding the codes of some steps, whatever zero fill follows. */
  lemma {:induction false} CodesRoundTrip(steps: seq<int>, fill: nat, wf: seq<u16>)
    requires wf != [] && Codable(steps)
    ensures DecodeBits(CodeBits(steps) + Falses(fill), 0, wf) == (wf + Walk(wf[|wf| - 1], steps), true)
  {
    if steps == [] {
      assert CodeBits(steps) + Falses(fill) == Falses(fill) + [];
      SkipZeros(fill, [], 0, wf);
      assert wf + [] == wf;
    } else {
      var z := ZerosFor(steps[0]);
      var rest := CodeBits(steps[1..]) + Falses(fill);
      assert CodeBits(steps) + Falses(fill) == Falses(z) + ([true] + rest);
      SkipZeros(z, [true] + rest, 0, wf);
      assert ([true] + rest)[1..] == rest;
      assert StepOf(z) == steps[0];
      var next := wf + [Add(wf[|wf| - 1], steps[0])];
      CodesRoundTrip(steps[1..], fill, next);
      AppendAssoc(wf, [next[|wf|]], Walk(next[|wf|], steps[1..]));
    }
  }

  /** Each item word decodes to what the item means. */
  lemma ItemRoundTrip(wf: seq<u16>, item: Item)
    requires ValidItem(item) && (wf == [] ==> item.Raw?)
    ensures DecodeWord(wf, ItemWord(item)) == (Extend(wf, item), true)
    ensures Tag(ItemWord(item)) in {0, 8, 9, 10, 11}
    ensures item.Codes? ==> ItemWord(item) != 0
  {
    match item
    case Raw(v) =>
      TaggedParts(0, v);
    case Codes(steps) =>
      var bits := Payload(steps);
      PayloadFits(bits);
      BitsRoundTrip(bits);
      DivMod(ItemWord(item), 0x4000, 2, FromBits(bits));
      CodesRoundTrip(steps, 14 - |CodeBits(steps)|, wf);
  }

  function DecodeWords(wf: seq<u16>, ws: seq<u16>): (seq<u16>, bool)
    decreases |ws|
  {
    if ws == [] then (wf, true)
    else
      var (wf', ok) := DecodeWord(wf, ws[0]);
      if ok then DecodeWords(wf', ws[1..]) else (wf', false)
  }

  // ----- a greedy encoder for every 12-bit waveform -----

  function StepsBetween(sample: int, wf: seq<u12>): (steps: seq<int>)
    ensures |steps| == |wf|
    decreases |wf|
  {
    if wf == [] then [] else [wf[0] - sample] + StepsBetween(wf[0], wf[1..])
  }

  /** How many leading samples have steps whose codes fit in `room` bits. */
  function Fitting(sample: u12, wf: seq<u12>, room: nat): (k: nat)
    ensures k <= |wf|
    decreases |wf|
  {
    if wf == [] then 0
    else
      var d := wf[0] - sample;
      if d < -3 || d > 3 || ZerosFor(d) + 1 > room then 0
      else 1 + Fitting(wf[0], wf[1..], room - ZerosFor(d) - 1)
  }

  /** The next item, covering the first `Used` samples. */
  function NextItem(sample: u12, wf: seq<u12>): Item
    requires wf != []
  {
    var k := Fitting(sample, wf, 14);
    if k == 0 then Raw(wf[0]) else Codes(StepsBetween(sample, wf[..k]))
  }

  function Used(sample: u12, wf: seq<u12>): (k: nat)
    requires wf != []
    ensures 1 <= k <= |wf|
  {
    var k := Fitting(sample, wf, 14);
    if k == 0 then 1 else k
  }

  function EncodeRest(sample: u12, wf: seq<u12>): seq<Item>
    decreases |wf|
  {
    if wf == [] then []
    else
      var k := Used(sample, wf);
      [NextItem(sample, wf)] + EncodeRest(wf[k - 1], wf[k..])
  }

  function EncodeWaveform(wf: seq<u12>): seq<Item>
  {
    if wf == [] then [] else [Raw(wf[0])] + EncodeRest(wf[0], wf[1..])
  }

  lemma {:induction false} FittingFits(sample: u12, wf: seq<u12>, room: nat)
    ensures var steps := StepsBetween(sample, wf[..Fitting(sample, wf, room)]);
            Codable(steps) && |CodeBits(steps)| <= room
    decreases |wf|
  {
    var k := Fitting(sample, wf, room);
    if k > 0 {
      var d := wf[0] - sample;
      FittingFits(wf[0], wf[1..], room - ZerosFor(d) - 1);
      assert wf[..k][1..] == wf[1..][..k - 1];
      var steps := StepsBetween(sample, wf[..k]);
      assert steps[1..] == StepsBetween(wf[0], wf[1..][..k - 1]);
    }
  }

  lemma {:induction false} WalkBack(sample: u12, wf: seq<u12>)
    ensures Walk(sample, StepsBetween(sample, wf)) == wf
    decreases |wf|
  {
    if wf != [] {
      WalkBack(wf[0], wf[1..]);
    }
  }

  lemma {:induction false} SamplesPrefix(head: Item, items: seq<Item>, wf: seq<u16>)
    ensures SamplesFrom(wf, [head] + items) == SamplesFrom(Extend(wf, head), items)
  {
    var all := [head] + items;
    if items != [] {
      assert all[..|all| - 1] == [head] + items[..|items| - 1];
      SamplesPrefix(head, items[..|items| - 1], wf);
    }
  }

  /** `Samples` with some samples already there. */
  function SamplesFrom(wf: seq<u16>, items: seq<Item>): seq<u16>
  {
    if items == [] then wf else Extend(SamplesFrom(wf, items[..|items| - 1]), items[|items| - 1])
  }

  lemma {:induction false} SamplesFromNothing(items: seq<Item>)
    ensures SamplesFrom([], items) == Samples(items)
  {
    if items != [] {
      SamplesFromNothing(items[..|items| - 1]);
    }
  }

  /** No two raw zeros are neighbours. */
  ghost predicate NoZeroPair(ws: seq<u16>) {
    forall i :: 0 <= i < |ws| - 1 ==> ws[i] != 0 || ws[i + 1] != 0
  }

  lemma AppendSplit(a: seq<u16>, b: seq<u16>, k: nat)
    requires k <= |b|
    ensures a + b[..k] + b[k..] == a + b
  {
  }

  lemma NextItemCorrect(sample: u12, before: seq<u16>, wf: seq<u12>)
    requires before != [] && before[|before| - 1] == sample && wf != []
    ensures var item := NextItem(sample, wf);
            && ValidItem(item)
            && Extend(before, item) == before + wf[..Used(sample, wf)]
            && (ItemWord(item) == 0 ==> item.Raw? && sample != 0)
  {
    var k := Fitting(sample, wf, 14);
    FittingFits(sample, wf, 14);
    WalkBack(sample, wf[..k]);
    if k > 0 {
      ItemRoundTrip(before, NextItem(sample, wf));
    }
  }

  lemma {:induction false} EncodeRestValid(sample: u12, wf: seq<u12>)
    ensures AllValid(EncodeRest(sample, wf))
    decreases |wf|
  {
    if wf != [] {
      var k := Used(sample, wf);
      NextItemCorrect(sample, [sample], wf);
      EncodeRestValid(wf[k - 1], wf[k..]);
    }
  }

  lemma {:induction false} EncodeRestSamples(sample: u12, before: seq<u16>, wf: seq<u12>)
    requires before != [] && before[|before| - 1] == sample
    ensures SamplesFrom(before, EncodeRest(sample, wf)) == before + wf
    decreases |wf|
  {
    if wf == [] {
      assert before + wf == before;
    } else {
      var k := Used(sample, wf);
      NextItemCorrect(sample, before, wf);
      EncodeRestSamples(wf[k - 1], before + wf[..k], wf[k..]);
      SamplesPrefix(NextItem(sample, wf), EncodeRest(wf[k - 1], wf[k..]), before);
      AppendSplit(before, wf, k);
    }
  }

  lemma {:induction false} EncodeRestNoZeroPair(sample: u12, wf: seq<u12>)
    requires AllValid(EncodeRest(sample, wf))
    ensures NoZeroPair(ItemWords(EncodeRest(sample, wf)))
    decreases |wf|
  {
    if wf != [] {
      var k := Used(sample, wf);
      var rest := EncodeRest(wf[k - 1], wf[k..]);
      EncodeRestValid(wf[k - 1], wf[k..]);
      EncodeRestNoZeroPair(wf[k - 1], wf[k..]);
      NextItemCorrect(sample, [sample], wf);
      if wf[k..] != [] {
        NextItemCorrect(wf[k - 1], [wf[k - 1]], wf[k..]);
      }
      ZeroPairStep(NextItem(sample, wf), rest);
    }
  }

  lemma ZeroPairStep(head: Item, rest: seq<Item>)
    requires ValidItem(head) && AllValid(rest)
    requires NoZeroPair(ItemWords(rest))
    requires rest != [] && ItemWord(head) == 0 ==> ItemWord(rest[0]) != 0
    ensures NoZeroPair(ItemWords([head] + rest))
  {
    var ws := ItemWords([head] + rest);
    forall i | 0 <= i < |ws| - 1
      ensures ws[i] != 0 || ws[i + 1] != 0
    {
      if i > 0 {
        assert ws[i] == ItemWords(rest)[i - 1] && ws[i + 1] == ItemWords(rest)[i];
      }
    }
  }

  lemma RawFirst(sample: u12, rest: seq<Item>)
    ensures Samples([Raw(sample)] + rest) == SamplesFrom([sample], rest)
  {
    SamplesFromNothing([Raw(sample)] + rest);
    SamplesPrefix(Raw(sample), rest, []);
    assert Extend([], Raw(sample)) == [sample];
  }

  lemma HeadTail(wf: seq<u12>, head: seq<u16>)
    requires wf != [] && head == [wf[0]]
    ensures head + wf[1..] == wf
  {
  }

  /** Every 12-bit waveform is the meaning of its encoding. */
  lemma WaveformRoundTrip(wf: seq<u12>)
    ensures ValidItems(EncodeWaveform(wf)) && Samples(EncodeWaveform(wf)) == wf
  {
    if wf != [] {
      EncodeRestValid(wf[0], wf[1..]);
      EncodeRestSamples(wf[0], [wf[0]], wf[1..]);
      RawFirst(wf[0], EncodeRest(wf[0], wf[1..]));
      HeadTail(wf, [wf[0]]);
    }
  }

  /** The encoding never puts two zero words next to each other. */
  lemma WaveformNoZeroPair(wf: seq<u12>)
    requires AllValid(EncodeWaveform(wf))
    ensures NoZeroPair(ItemWords(EncodeWaveform(wf)))
  {
    if wf != [] {
      var rest := EncodeRest(wf[0], wf[1..]);
      EncodeRestValid(wf[0], wf[1..]);
      EncodeRestNoZeroPair(wf[0], wf[1..]);
      if wf[1..] != [] {
        NextItemCorrect(wf[0], [wf[0]], wf[1..]);
      }
      ZeroPairStep(Raw(wf[0]), rest);
    }
  }

  /** Decoding the words of a valid item list gives the samples it means. */
  lemma {:induction false} ItemsDecode(wf: seq<u16>, items: seq<Item>)
    requires AllValid(items)
    requires wf == [] && items != [] ==> items[0].Raw?
    ensures DecodeWords(wf, ItemWords(items)) == (SamplesFrom(wf, items), true)
    decreases |items|
  {
    if items != [] {
      var rest := items[1..];
      ItemRoundTrip(wf, items[0]);
      assert ItemWords(items)[1..] == ItemWords(rest);
      var next := Extend(wf, items[0]);
      assert next != [];
      ItemsDecode(next, rest);
      SamplesPrefix(items[0], rest, wf);
      assert items == [items[0]] + rest;
    }
  }

  /** Encoding a 12-bit waveform and decoding the words rebuilds it. */
  lemma EncodeDecode(wf: seq<u12>)
    ensures ValidItems(EncodeWaveform(wf))
    ensures DecodeWords([], ItemWords(EncodeWaveform(wf))) == (wf, true)
  {
    WaveformRoundTrip(wf);
    ItemsDecode([], EncodeWaveform(wf));
    SamplesFromNothing(EncodeWaveform(wf));
  }
}
