/** Which values of a word the decoders take for what. */
module WordClasses {
  import opened Words
  import Tpc = TpcSpec
  import Pmt = PmtSpec
  import Plain = TpcXmit

  /** The Huffman-coded TPC decoder: three unique 32-bit values, else the lower half decides. */
  lemma HuffmanWords(w: Word)
    ensures Tpc.Class(w) == EventHeader <==> w.Value() == 0xffff_ffff
    ensures Tpc.Class(w) == EventLastWord <==> w.Value() == 0xe000_0000
    ensures Tpc.Class(w) == FemHeader <==> w.lo >= 0xf000 && w.Value() != 0xffff_ffff
    ensures Tpc.Class(w) == ChannelHeader <==> 0x4000 <= w.lo < 0x5000
    ensures Tpc.Class(w) == ChannelLastWord <==> 0x5000 <= w.lo < 0x6000
    ensures Tpc.Class(w) == FemLastWord <==> w.lo == 0xc000
    ensures Tpc.Class(w) == ChannelWord <==>
            || (w.lo < 0x1000 && w.Value() != 0 && w.Value() != 0xe000_0000)
            || (0x8000 <= w.lo < 0xf000 && w.lo != 0xc000)
  {
  }

  /** The PMT decoder: one unique value, else the lower half decides, and the upper half only
      where the lower means nothing. */
  lemma PmtWords(w: Word)
    ensures Pmt.Class(w) == EventHeader <==> w.Value() == 0xffff_ffff
    ensures Pmt.Class(w) == FemHeader <==> w.lo >= 0xf000 && w.Value() != 0xffff_ffff
    ensures Pmt.Class(w) == FemFirstWord <==> 0x4000 <= w.lo < 0x5000 || 0x2000 <= w.lo < 0x3000
    ensures Pmt.Class(w) == ChannelHeader <==> 0x9000 <= w.lo < 0xa000
    ensures Pmt.Class(w) == ChannelWord <==> 0x8000 <= w.lo < 0x9000 || 0xa000 <= w.lo < 0xb000
    ensures Pmt.Class(w) == ChannelLastWord <==> 0xb000 <= w.lo < 0xc000
    ensures Pmt.Class(w) == FemLastWord <==> 0xc000 <= w.lo < 0xd000
    ensures Pmt.Class(w) == EventLastWord <==>
            || 0xe000 <= w.lo < 0xf000
            || (0xe000 <= w.hi < 0xf000
                && (w.lo < 0x2000 || 0x3000 <= w.lo < 0x4000 || 0x5000 <= w.lo < 0x8000 || 0xd000 <= w.lo < 0xe000))
  {
  }

  /** The plain TPC decoder. */
  lemma PlainWords(w: Word)
    ensures Plain.Class(w) == EventHeader <==> w.Value() == 0xffff_ffff
    ensures Plain.Class(w) == EventLastWord <==> w.Value() == 0xe000_0000
    ensures Plain.Class(w) == FemHeader <==> w.lo >= 0xf000 && w.Value() != 0xffff_ffff
    ensures Plain.Class(w) == ChannelHeader <==> 0x4000 <= w.lo < 0x5000
    ensures Plain.Class(w) == ChannelLastWord <==> 0x5000 <= w.lo < 0x6000
    ensures Plain.Class(w) == ChannelWord <==>
            (w.lo < 0x1000 && w.Value() != 0xe000_0000) || 0x8000 <= w.lo < 0x9000
  {
  }
}
