/** Machine words of the readout stream.

    A 32-bit word is kept as its two 16-bit halves, the way every decoder takes it
    apart; masks and shifts of a half are written as divisions and remainders by
    the corresponding power of two.  Unsigned 32-bit counters are integers reduced
    by `Wrap`.
 */
module Words {
  import opened Division

  type u8 = x: int | 0 <= x < 0x100
  type u12 = x: int | 0 <= x < 0x1000
  type u16 = x: int | 0 <= x < 0x1_0000
  type u32 = x: int | 0 <= x < 0x1_0000_0000

  datatype Word = Word(hi: u16, lo: u16) {
    function Value(): u32 { hi * 0x1_0000 + lo }
  }

  const INVALID_WORD: u32 := 0xffff_ffff
  const ALL_ONES := Word(0xffff, 0xffff)
  const ZERO := Word(0, 0)
  const EVENT_LAST := Word(0xe000, 0)
  const INVALID_UCHAR: u8 := 0xff
  const INVALID_CH: u32 := 0xffff

  /** How one call of a word-processing function ended.  `Threw` is a
      `decode_algo_exception`; `Undefined` stands for a null dereference or an
      array overrun, after which nothing is promised about the state. */
  datatype Outcome = Accepted | Rejected | Threw | Undefined

  datatype Option<+T> = None | Some(value: T)

  datatype WordClass =
    | UndefinedWord
    | EventHeader
    | FemHeader
    | FemFirstWord
    | ChannelHeader
    | ChannelWord
    | ChannelLastWord
    | FemLastWord
    | EventLastWord

  /** Reduction to an unsigned 32-bit value; the remainder is never negative. */
  function Wrap(x: int): u32 { x % 0x1_0000_0000 }

  /** The top four bits of a half. */
  function Tag(h: u16): int { h / 0x1000 }

  /** The other twelve. */
  function Field(h: u16): u12 { h % 0x1000 }

  function Tagged(tag: int, field: u12): u16
    requires 0 <= tag < 16
  {
    tag * 0x1000 + field
  }

  /** A 16-bit word where the program keeps a 32-bit one. */
  function Short(w: u16): Word { Word(0, w) }

  /** Right shift as repeated halving. */
  function Shr(v: nat, n: nat): nat
    decreases n
  {
    if n == 0 then v else Shr(v / 2, n - 1)
  }

  function Sum(ws: seq<u16>): nat
  {
    if ws == [] then 0 else Sum(ws[..|ws| - 1]) + ws[|ws| - 1]
  }

  /** Two 16-bit words per 32-bit word, the earlier one in the low half; an odd
      last word is completed with a zero upper half. */
  function PackPairs(ws: seq<u16>): seq<Word>
  {
    if |ws| == 0 then []
    else if |ws| == 1 then [Word(0, ws[0])]
    else [Word(ws[1], ws[0])] + PackPairs(ws[2..])
  }

  lemma TaggedParts(tag: int, field: u12)
    requires 0 <= tag < 16
    ensures Tag(Tagged(tag, field)) == tag && Field(Tagged(tag, field)) == field
  {
  }

  lemma SumOne(w: u16)
    ensures Sum([w]) == w
  {
    assert [w][..0] == [];
  }

  lemma {:induction false} SumAppend(a: seq<u16>, b: seq<u16>)
    ensures Sum(a + b) == Sum(a) + Sum(b)
  {
    if b == [] {
      assert a + b == a;
    } else {
      assert (a + b)[..|a + b| - 1] == a + b[..|b| - 1];
      SumAppend(a, b[..|b| - 1]);
    }
  }

  lemma WrapAdd(a: int, b: int)
    ensures Wrap(Wrap(a) + b) == Wrap(a + b)
  {
    var turns := a / 0x1_0000_0000;
    assert a + b == turns * 0x1_0000_0000 + (Wrap(a) + b);
    var q, r := (Wrap(a) + b) / 0x1_0000_0000, (Wrap(a) + b) % 0x1_0000_0000;
    DivMod(a + b, 0x1_0000_0000, turns + q, r);
  }

  lemma WrapLow24(a: nat)
    ensures Wrap(a) % 0x100_0000 == a % 0x100_0000
  {
    var turns := a / 0x1_0000_0000;
    var q, r := Wrap(a) / 0x100_0000, Wrap(a) % 0x100_0000;
    assert a == (turns * 0x100 + q) * 0x100_0000 + r;
    DivMod(a, 0x100_0000, turns * 0x100 + q, r);
  }

  lemma WrapLow24Plus(a: nat, d: nat)
    ensures (Wrap(a) + d) % 0x100_0000 == (a + d) % 0x100_0000
  {
    WrapAdd(a, d);
    WrapLow24(Wrap(a) + d);
    WrapLow24(a + d);
  }

  lemma AppendAssoc<T>(a: seq<T>, b: seq<T>, c: seq<T>)
    ensures a + b + c == a + (b + c)
  {
  }
}
