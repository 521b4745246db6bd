/**
 * A colour packed into one 32-bit unsigned word, alpha in the top byte and
 * blue in the bottom one. The channel getters and setters mask and shift
 * that word; the model states each of them on the packed value and proves
 * that the four channels are independent bit fields.
 */
module Colors {
  import opened Common

  /** The alpha byte of a packed colour: bits 24..31. */
  function AlphaOf(v: bv32): bv8
  {
    ((v & 0xff00_0000) >> 24) as bv8
  }

  /** The red byte: bits 16..23. */
  function RedOf(v: bv32): bv8
  {
    ((v & 0x00ff_0000) >> 16) as bv8
  }

  /** The green byte: bits 8..15. */
  function GreenOf(v: bv32): bv8
  {
    ((v & 0x0000_ff00) >> 8) as bv8
  }

  /** The blue byte: bits 0..7. */
  function BlueOf(v: bv32): bv8
  {
    (v & 0x0000_00ff) as bv8
  }

  /** `A << 24 | R << 16 | G << 8 | B`: the word whose four channels are the given bytes. */
  function Pack(a: bv8, r: bv8, g: bv8, b: bv8): (v: bv32)
    ensures AlphaOf(v) == a && RedOf(v) == r && GreenOf(v) == g && BlueOf(v) == b
  {
    ((a as bv32) << 24) | ((r as bv32) << 16) | ((g as bv32) << 8) | (b as bv32)
  }

  /** Every word is the packing of its own four channels. */
  lemma PackOfChannels(v: bv32)
    ensures Pack(AlphaOf(v), RedOf(v), GreenOf(v), BlueOf(v)) == v
  {
  }

  /** Two words with the same four channels are the same word. */
  lemma ChannelsDetermineValue(v: bv32, w: bv32)
    requires AlphaOf(v) == AlphaOf(w) && RedOf(v) == RedOf(w)
    requires GreenOf(v) == GreenOf(w) && BlueOf(v) == BlueOf(w)
    ensures v == w
  {
    PackOfChannels(v);
    PackOfChannels(w);
  }

  /** The word the `A` setter stores: `Value & 0x00ffffff | (value & 0xff) << 24`. */
  function WithAlpha(v: bv32, value: bv8): (r: bv32)
    ensures AlphaOf(r) == value
    ensures RedOf(r) == RedOf(v) && GreenOf(r) == GreenOf(v) && BlueOf(r) == BlueOf(v)
  {
    (v & 0x00ff_ffff) | ((value as bv32 & 0xff) << 24)
  }

  /** The word the `R` setter stores. */
  function WithRed(v: bv32, value: bv8): (r: bv32)
    ensures RedOf(r) == value
    ensures AlphaOf(r) == AlphaOf(v) && GreenOf(r) == GreenOf(v) && BlueOf(r) == BlueOf(v)
  {
    (v & 0xff00_ffff) | ((value as bv32 & 0xff) << 16)
  }

  /** The word the `G` setter stores. */
  function WithGreen(v: bv32, value: bv8): (r: bv32)
    ensures GreenOf(r) == value
    ensures AlphaOf(r) == AlphaOf(v) && RedOf(r) == RedOf(v) && BlueOf(r) == BlueOf(v)
  {
    (v & 0xffff_00ff) | ((value as bv32 & 0xff) << 8)
  }

  /** The word the `B` setter stores. */
  function WithBlue(v: bv32, value: bv8): (r: bv32)
    ensures BlueOf(r) == value
    ensures AlphaOf(r) == AlphaOf(v) && RedOf(r) == RedOf(v) && GreenOf(r) == GreenOf(v)
  {
    (v & 0xffff_ff00) | (value as bv32 & 0xff)
  }

  /** Setting a channel to the value it already holds changes nothing. */
  lemma SetToSameIsIdentity(v: bv32)
    ensures WithAlpha(v, AlphaOf(v)) == v && WithRed(v, RedOf(v)) == v
    ensures WithGreen(v, GreenOf(v)) == v && WithBlue(v, BlueOf(v)) == v
  {
    ChannelsDetermineValue(WithAlpha(v, AlphaOf(v)), v);
    ChannelsDetermineValue(WithRed(v, RedOf(v)), v);
    ChannelsDetermineValue(WithGreen(v, GreenOf(v)), v);
    ChannelsDetermineValue(WithBlue(v, BlueOf(v)), v);
  }

  /** Setting two different channels gives the same word in either order. */
  lemma SettersCommute(v: bv32, a: bv8, r: bv8)
    ensures WithRed(WithAlpha(v, a), r) == WithAlpha(WithRed(v, r), a)
  {
    ChannelsDetermineValue(WithRed(WithAlpha(v, a), r), WithAlpha(WithRed(v, r), a));
  }

  /** The low byte of an `int`, `x & 0xff`, as the unsigned byte it denotes. */
  function LowByte(x: int32): bv8
  {
    (ToUInt32(x) & 0xff) as bv8
  }

  /** An `int` in 0..255 is its own low byte. */
  lemma LowByteOfSmall(x: int32)
    requires 0 <= x < 256
    ensures LowByte(x) as int == x as int
  {
    SmallToUInt32(x);
  }

  /** The word built by `FromArgb(alpha, color)`: `(alpha & 0xff) << 24 | color.Value & 0x00ffffff`. */
  function AlphaOver(alpha: int32, value: bv32): (r: bv32)
    ensures AlphaOf(r) == LowByte(alpha)
    ensures RedOf(r) == RedOf(value) && GreenOf(r) == GreenOf(value) && BlueOf(r) == BlueOf(value)
  {
    ((ToUInt32(alpha) & 0xff) << 24) | (value & 0x00ff_ffff)
  }

  /**
   * The word built by `FromArgb(r, g, b)`: `r << 16 | g << 8 | b` on `int`s,
   * reinterpreted as unsigned. Shifting an `int` keeps the same low 32 bits
   * as shifting its unsigned reinterpretation, so the word is built on bits.
   */
  function RgbValue(r: int32, g: int32, b: int32): bv32
  {
    (ToUInt32(r) << 16) | (ToUInt32(g) << 8) | ToUInt32(b)
  }

  /** A non-negative `int` below 256 reinterpreted as unsigned is that same byte. */
  lemma SmallToUInt32(x: int32)
    requires 0 <= x < 256
    ensures ToUInt32(x) == (x as int as bv8) as bv32
  {
  }

  /** With components in 0..255, `FromArgb(r, g, b)` has alpha 0 and exactly those channels. */
  lemma RgbChannels(r: int32, g: int32, b: int32)
    requires 0 <= r < 256 && 0 <= g < 256 && 0 <= b < 256
    ensures RgbValue(r, g, b) == Pack(0, r as int as bv8, g as int as bv8, b as int as bv8)
    ensures AlphaOf(RgbValue(r, g, b)) == 0
    ensures RedOf(RgbValue(r, g, b)) as int == r as int
    ensures GreenOf(RgbValue(r, g, b)) as int == g as int
    ensures BlueOf(RgbValue(r, g, b)) as int == b as int
  {
    SmallToUInt32(r);
    SmallToUInt32(g);
    SmallToUInt32(b);
    RgbPack(r as int as bv8, g as int as bv8, b as int as bv8);
  }

  lemma RgbPack(r: bv8, g: bv8, b: bv8)
    ensures ((r as bv32) << 16) | ((g as bv32) << 8) | (b as bv32) == Pack(0, r, g, b)
  {
  }

  /** `ToArgb` and the implicit conversion to `int`: the same bits read as signed. */
  function ArgbOf(v: bv32): int32
  {
    ToInt32(v)
  }

  /** `new Color(c.ToArgb())` has the colour's value back. */
  lemma ArgbRoundTrip(v: bv32)
    ensures ToUInt32(ArgbOf(v)) == v
  {
    UnsignedRoundTrip(v);
  }

  class Color {
    var Value: bv32

    /** `Color(Color color)`: a copy of another colour's value. */
    constructor Copy(color: Color)
      ensures Value == color.Value
    {
      Value := color.Value;
    }

    /** `Color(uint value)`. */
    constructor (value: bv32)
      ensures Value == value
    {
      Value := value;
    }

    /** `Color(int value)`: the bits of the `int`, read as unsigned. */
    constructor FromInt(value: int32)
      ensures Value == ToUInt32(value)
    {
      Value := ToUInt32(value);
    }

    function A(): bv8
      reads this
    {
      AlphaOf(Value)
    }

    function R(): bv8
      reads this
    {
      RedOf(Value)
    }

    function G(): bv8
      reads this
    {
      GreenOf(Value)
    }

    function B(): bv8
      reads this
    {
      BlueOf(Value)
    }

    method SetA(value: bv8)
      modifies this
      ensures Value == WithAlpha(old(Value), value)
      ensures A() == value && R() == old(R()) && G() == old(G()) && B() == old(B())
    {
      Value := WithAlpha(Value, value);
    }

    method SetR(value: bv8)
      modifies this
      ensures Value == WithRed(old(Value), value)
      ensures R() == value && A() == old(A()) && G() == old(G()) && B() == old(B())
    {
      Value := WithRed(Value, value);
    }

    method SetG(value: bv8)
      modifies this
      ensures Value == WithGreen(old(Value), value)
      ensures G() == value && A() == old(A()) && R() == old(R()) && B() == old(B())
    {
      Value := WithGreen(Value, value);
    }

    method SetB(value: bv8)
      modifies this
      ensures Value == WithBlue(old(Value), value)
      ensures B() == value && A() == old(A()) && R() == old(R()) && G() == old(G())
    {
      Value := WithBlue(Value, value);
    }

    function ToArgb(): int32
      reads this
    {
      ArgbOf(Value)
    }
  }

  /** `Color.FromArgb(int color)`. */
  method FromArgb(color: int32) returns (c: Color)
    ensures fresh(c) && c.Value == ToUInt32(color)
  {
    c := new Color.FromInt(color);
  }

  /** `Color.FromArgb(int alpha, Color color)`. */
  method FromAlphaAndColor(alpha: int32, color: Color) returns (c: Color)
    ensures fresh(c) && c.Value == AlphaOver(alpha, color.Value)
  {
    c := new Color(AlphaOver(alpha, color.Value));
  }

  /** `Color.FromArgb(int r, int g, int b)`. */
  method FromRgb(r: int32, g: int32, b: int32) returns (c: Color)
    ensures fresh(c) && c.Value == RgbValue(r, g, b)
  {
    c := new Color(RgbValue(r, g, b));
  }
}
