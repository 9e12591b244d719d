/**
 * The 8-bit RGBA colour, its normalised float form (`Colorf`, a Vec4) and
 * the two conversions between them.
 */
module Colors {
  import opened Numerics
  import opened Vectors

  datatype Color = Color(r: byte, g: byte, b: byte, a: byte)

  type Colorf = Vec4

  const RED: Color := Color(255, 0, 0, 255)
  const GREEN: Color := Color(0, 255, 0, 255)
  const BLUE: Color := Color(0, 0, 255, 255)
  const WHITE: Color := Color(255, 255, 255, 255)
  const BLACK: Color := Color(0, 0, 0, 255)
  const TRANSPARENT: Color := Color(0, 0, 0, 0)

  /** One channel of `From<Color> for Colorf`: `c as f32 / 255`. */
  function ChannelToUnit(c: byte): (f: real)
    ensures 0.0 <= f <= 1.0
    ensures c == 0 <==> f == 0.0
    ensures c == 255 <==> f == 1.0
  {
    c as real / 255.0
  }

  /** One channel of `From<Colorf> for Color`: clamp to [0,1], scale by 255, round. */
  function UnitToChannel(f: real): (c: byte)
    ensures f <= 0.0 ==> c == 0
    ensures f >= 1.0 ==> c == 255
    ensures 0.0 <= f <= 1.0 ==> f * 255.0 - 0.5 <= c as real <= f * 255.0 + 0.5
  {
    var n := Round(Clamp(f, 0.0, 1.0) * 255.0);
    RoundMonotone(Clamp(f, 0.0, 1.0) * 255.0, 255.0);
    RoundOfInteger(255);
    n
  }

  function ToColorf(c: Color): (f: Colorf)
    ensures 0.0 <= f.x <= 1.0 && 0.0 <= f.y <= 1.0 && 0.0 <= f.z <= 1.0 && 0.0 <= f.w <= 1.0
  {
    Vec4(ChannelToUnit(c.r), ChannelToUnit(c.g), ChannelToUnit(c.b), ChannelToUnit(c.a))
  }

  function FromColorf(f: Colorf): Color
  {
    Color(UnitToChannel(f.x), UnitToChannel(f.y), UnitToChannel(f.z), UnitToChannel(f.w))
  }

  /** Every byte survives the trip to a normalised float and back. */
  lemma ChannelRoundTrip(c: byte)
    ensures UnitToChannel(ChannelToUnit(c)) == c
  {
    var f := ChannelToUnit(c);
    assert Clamp(f, 0.0, 1.0) * 255.0 == c as real;
    RoundOfInteger(c);
  }

  /** Color -> Colorf -> Color is the identity, channel by channel. */
  lemma ColorRoundTrip(c: Color)
    ensures FromColorf(ToColorf(c)) == c
  {
    ChannelRoundTrip(c.r);
    ChannelRoundTrip(c.g);
    ChannelRoundTrip(c.b);
    ChannelRoundTrip(c.a);
  }

  /** Converting to bytes preserves the order of channel values. */
  lemma UnitToChannelMonotone(f: real, f': real)
    requires f <= f'
    ensures UnitToChannel(f) <= UnitToChannel(f')
  {
    RoundMonotone(Clamp(f, 0.0, 1.0) * 255.0, Clamp(f', 0.0, 1.0) * 255.0);
  }

  /** Converting to floats preserves the order of bytes, strictly. */
  lemma ChannelToUnitMonotone(c: byte, c': byte)
    requires c < c'
    ensures ChannelToUnit(c) < ChannelToUnit(c')
  {
  }

  /**
   * A float channel comes back from the byte form within half a step
   * (1/510) of its clamped value: the conversion picks the nearest byte.
   */
  lemma NearestByte(f: real)
    ensures var g := Clamp(f, 0.0, 1.0);
      g - 1.0 / 510.0 <= ChannelToUnit(UnitToChannel(f)) <= g + 1.0 / 510.0
  {
    var g := Clamp(f, 0.0, 1.0);
    var c := UnitToChannel(f);
    assert g * 255.0 - 0.5 <= c as real <= g * 255.0 + 0.5;
  }
}
