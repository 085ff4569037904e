/** Streams made from 12-bit waveforms by the greedy delta coder, and their way through
    the decoder object. */
module TpcWaveforms {
  import opened Words
  import opened FemHeader
  import opened DeltaCode
  import opened TpcSpec
  import opened TpcChannels
  import opened Streams
  import opened TpcRoundTrip
  import TpcHuffman

  datatype Trace = Trace(number: u12, samples: seq<u12>)

  function Coded(traces: seq<Trace>): seq<Block>
  {
    seq(|traces|, i requires 0 <= i < |traces| => Block(traces[i].number, EncodeWaveform(traces[i].samples)))
  }

  lemma CodedValid(traces: seq<Trace>)
    ensures ValidBlocks(Coded(traces))
  {
    forall i | 0 <= i < |traces|
      ensures ValidItems(Coded(traces)[i].items)
    {
      WaveformRoundTrip(traces[i].samples);
    }
  }

  /** The stored channels are the traces themselves. */
  lemma CodedChannels(traces: seq<Trace>, h: HeaderInfo)
    ensures |Channels(Coded(traces), h)| == |traces|
    ensures forall i :: 0 <= i < |traces| ==>
              Channels(Coded(traces), h)[i] == Channel(traces[i].number, h.moduleAddress, h.moduleId, traces[i].samples)
  {
    forall i | 0 <= i < |traces|
      ensures Channels(Coded(traces), h)[i] == Channel(traces[i].number, h.moduleAddress, h.moduleId, traces[i].samples)
    {
      WaveformRoundTrip(traces[i].samples);
    }
  }

  lemma {:induction false} CodedNoZeroPair(traces: seq<Trace>)
    requires ValidBlocks(Coded(traces))
    ensures var ws := ChannelWords(Coded(traces)); NoZeroPair(ws) && (ws != [] ==> ws[|ws| - 1] != 0)
  {
    if traces != [] {
      var b := Coded(traces)[0];
      assert Coded(traces)[1..] == Coded(traces[1..]);
      CodedNoZeroPair(traces[1..]);
      WaveformNoZeroPair(traces[0].samples);
    }
  }

  lemma {:induction false} NoZeroPairPacks(ws: seq<u16>)
    requires NoZeroPair(ws) && (ws != [] ==> ws[|ws| - 1] != 0)
    ensures ZERO !in PackPairs(ws)
    decreases |ws|
  {
    if |ws| > 1 {
      NoZeroPairPacks(ws[2..]);
    }
  }

  /** The number of 16-bit words that coded traces take, two of each channel's its first
      and last. */
  function CodedLength(traces: seq<Trace>): nat {
    if traces == [] then 0 else |EncodeWaveform(traces[0].samples)| + 2 + CodedLength(traces[1..])
  }

  function SampleCount(traces: seq<Trace>): nat {
    if traces == [] then 0 else |traces[0].samples| + SampleCount(traces[1..])
  }

  lemma {:induction false} CodedLengthIs(traces: seq<Trace>)
    requires ValidBlocks(Coded(traces))
    ensures |ChannelWords(Coded(traces))| == CodedLength(traces)
  {
    hide EncodeWaveform;
    if traces != [] {
      assert Coded(traces)[1..] == Coded(traces[1..]);
      CodedLengthIs(traces[1..]);
    }
  }

  lemma {:induction false} RestNoLonger(sample: u12, wf: seq<u12>)
    ensures |EncodeRest(sample, wf)| <= |wf|
    decreases |wf|
  {
    hide NextItem;
    if wf != [] {
      var k := Used(sample, wf);
      RestNoLonger(wf[k - 1], wf[k..]);
    }
  }

  /** Coding never takes more words than there are samples and channel ends. */
  lemma {:induction false} CodedNoLonger(traces: seq<Trace>)
    ensures CodedLength(traces) <= SampleCount(traces) + 2 * |traces|
  {
    if traces != [] {
      CodedNoLonger(traces[1..]);
      var wf := traces[0].samples;
      if wf != [] {
        RestNoLonger(wf[0], wf[1..]);
      }
    }
  }

  /** A packet built from traces: fields that fit their bits, at least one trace, and words
      that can be counted in 24 bits. */
  predicate BuiltFrom(p: Packet, traces: seq<Trace>) {
    && p.blocks == Coded(traces) && traces != [] && CodedLength(traces) <= 0x100_0000
    && p.moduleAddress < 32 && p.moduleId < 16
    && p.eventNumber < 0x100_0000 && p.frame < 0x100_0000 && p.trigSample < 0x1000
  }

  /** A packet of delta-coded traces is well formed, and carried as soon as its header is. */
  lemma CodedCarried(p: Packet, traces: seq<Trace>)
    requires BuiltFrom(p, traces)
    ensures WellFormed(p)
    ensures Carried(p) <==> FieldsClean(HeaderOf(p)) && Near(p.trigFrame, p.frame, 8)
  {
    hide FieldsClean, Near;
    CodedValid(traces);
    CodedLengthIs(traces);
    CodedNoZeroPair(traces);
    NoZeroPairPacks(ChannelWords(p.blocks));
  }

  /** Samples and channel ends that 24 bits can count are enough. */
  lemma FewSamplesBuilt(p: Packet, traces: seq<Trace>)
    requires p.blocks == Coded(traces) && traces != [] && SampleCount(traces) + 2 * |traces| <= 0x100_0000
    requires p.moduleAddress < 32 && p.moduleId < 16
    requires p.eventNumber < 0x100_0000 && p.frame < 0x100_0000 && p.trigSample < 0x1000
    ensures BuiltFrom(p, traces)
  {
    CodedNoLonger(traces);
  }

  /** A new decoder fed a whole stream of carried packets. */
  method Replay(debug: bool, events: seq<seq<Packet>>) returns (stored: seq<StoredEvent>, o: Outcome)
    requires GoodEvents(Tpc(), events)
    ensures o == Accepted
    ensures stored == ExpectedLog(Tpc(), events)
  {
    var decoder := new TpcHuffman.Decoder(debug);
    o := decoder.Decode(Stream(Tpc(), events));
    stored := decoder.storage;
    StreamRoundTrip(debug, events);
  }
}
