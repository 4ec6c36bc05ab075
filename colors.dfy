/**
  Packed 32-bit RGBA colours: byte 0 is red, byte 1 green, byte 2 blue and
  byte 3 alpha. `MakeColor` always writes an opaque alpha byte; `SplitColor`
  ignores alpha.
 */
module Colors {

  /** The three colour channels that the tool reads and averages. */
  datatype Rgb = Rgb(r: bv8, g: bv8, b: bv8)

  datatype Channel = Red | Green | Blue

  const OpaqueAlpha: bv32 := 0xFF00_0000

  /** Packs three channel bytes into one texel, alpha forced to 0xFF. */
  function MakeColor(r: bv8, g: bv8, b: bv8): (c: bv32)
    ensures c >> 24 == 0xFF
    ensures c & 0xFF == r as bv32
    ensures (c >> 8) & 0xFF == g as bv32
    ensures (c >> 16) & 0xFF == b as bv32
  {
    (r as bv32) | ((g as bv32) << 8) | ((b as bv32) << 16) | ((0xFF as bv32) << 24)
  }

  /**
    Unpacks the red, green and blue bytes of a texel: packing them again
    gives back the texel, with its alpha made opaque, so nothing but alpha
    is lost.
   */
  function SplitColor(c: bv32): (rgb: Rgb)
    ensures MakeColor(rgb.r, rgb.g, rgb.b) == c | OpaqueAlpha
  {
    Rgb(((c >> 0) & 0xFF) as bv8, ((c >> 8) & 0xFF) as bv8, ((c >> 16) & 0xFF) as bv8)
  }

  /** The value of one channel of a texel, as an unsigned number. */
  function ChannelValue(c: bv32, ch: Channel): (v: nat)
    ensures v <= 255
  {
    var rgb := SplitColor(c);
    match ch
    case Red => rgb.r as nat
    case Green => rgb.g as nat
    case Blue => rgb.b as nat
  }

  /** Splitting a packed colour gives back the bytes it was made of. */
  lemma SplitMakeColor(r: bv8, g: bv8, b: bv8)
    ensures SplitColor(MakeColor(r, g, b)) == Rgb(r, g, b)
  {
  }

  /** Channel values of a packed colour are the bytes passed in. */
  lemma ChannelValueOfMakeColor(r: bv8, g: bv8, b: bv8)
    ensures ChannelValue(MakeColor(r, g, b), Red) == r as nat
    ensures ChannelValue(MakeColor(r, g, b), Green) == g as nat
    ensures ChannelValue(MakeColor(r, g, b), Blue) == b as nat
  {
    SplitMakeColor(r, g, b);
  }
}
