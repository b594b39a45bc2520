/** The LED strip of the couch: the colour wheel and the fills of its 108-pixel
    buffer. The strip hardware is not modelled; `pixels` stands for the colours the
    strip holds before they are shown. */
module Led {

  /** A colour as the strip's code passes it: (red, green, blue). */
  type Color = (int, int, int)

  /** The pixel orders the strip driver knows; the couch's strip is GRB. */
  datatype PixelOrder = RGB | GRB | RGBW | GRBW

  const ORDER: PixelOrder := GRB

  /** Number of LEDs on the strip: 30 + 30 + 24 + 24. */
  const NumPixels: nat := 108

  const Black: Color := (0, 0, 0)

  /** The team's burnt orange, with less green than the official (191, 87, 0). */
  const BurntOrange: Color := (191, 30, 0)

  /** The colour wheel: positions 0 to 255 run green, red, blue and back to green
      through a piecewise-linear blend, and every other position is dark. */
  function Wheel(pos: int): (c: Color)
    ensures pos < 0 || pos > 255 ==> c == Black
    ensures 0 <= pos <= 255 ==>
              0 <= c.0 <= 255 && 0 <= c.1 <= 255 && 0 <= c.2 <= 255 &&
              c.0 + c.1 + c.2 == 255 &&
              (c.0 == 0 || c.1 == 0 || c.2 == 0)
  {
    if pos < 0 || pos > 255 then (0, 0, 0)
    else if pos < 85 then (pos * 3, 255 - pos * 3, 0)
    else if pos < 170 then
      var p := pos - 85;
      (255 - p * 3, 0, p * 3)
    else
      var p := pos - 170;
      (0, p * 3, 255 - p * 3)
  }

  /** The wheel's turning points, and its wrap-around from 255 back to 0. */
  lemma WheelCorners()
    ensures Wheel(0) == (0, 255, 0)
    ensures Wheel(85) == (255, 0, 0)
    ensures Wheel(170) == (0, 0, 255)
    ensures Wheel(255) == Wheel(0)
  {
  }

  /** Apart from the wrap-around, no two positions share a colour. */
  lemma WheelInjective(p: int, q: int)
    requires 0 <= p < q < 255
    ensures Wheel(p) != Wheel(q)
  {
  }

  /** The value `wheel` returns for a strip with the given pixel order: a white
      channel, when there is one, is off. */
  function WheelChannels(order: PixelOrder, pos: int): seq<int>
  {
    var c := Wheel(pos);
    if order == RGB || order == GRB then [c.0, c.1, c.2] else [c.0, c.1, c.2, 0]
  }

  /** The strip is GRB, so `wheel` returns the colour triple and no white
      channel. */
  lemma WheelIsTriple(pos: int)
    ensures |WheelChannels(ORDER, pos)| == 3
    ensures WheelChannels(ORDER, pos) == [Wheel(pos).0, Wheel(pos).1, Wheel(pos).2]
  {
  }

  /** The wheel position `rainbow_cycle` gives pixel i: `(i * 256 // 108) & 255`.
      For the non-negative operand, `& 255` is the remainder modulo 256. */
  function RainbowPosition(i: nat): (r: int)
    ensures 0 <= r < 256
    ensures i < NumPixels ==> r * NumPixels <= i * 256 < (r + 1) * NumPixels
  {
    (i * 256 / NumPixels) % 256
  }

  /** On the strip the mask changes nothing, and the positions spread over the
      wheel in strictly increasing order without reaching 255. */
  lemma RainbowPositionBounds(i: nat)
    requires i < NumPixels
    ensures RainbowPosition(i) == i * 256 / NumPixels
    ensures 0 <= RainbowPosition(i) < 255
  {
  }

  lemma RainbowPositionIncreasing(i: nat, j: nat)
    requires i < j < NumPixels
    ensures RainbowPosition(i) < RainbowPosition(j)
  {
    RainbowPositionBounds(i);
    RainbowPositionBounds(j);
  }

  /** After `rainbow_cycle` no two pixels show the same colour. */
  lemma RainbowColorsDistinct(i: nat, j: nat)
    requires i < j < NumPixels
    ensures Wheel(RainbowPosition(i)) != Wheel(RainbowPosition(j))
  {
    RainbowPositionIncreasing(i, j);
    RainbowPositionBounds(j);
    WheelInjective(RainbowPosition(i), RainbowPosition(j));
  }

  class LedStrip {
    /** The strip's pixel buffer. */
    const pixels: array<Color>

    ghost predicate Valid()
    {
      pixels.Length == NumPixels
    }

    /** A new strip starts cleared. */
    constructor ()
      ensures Valid() && fresh(pixels)
      ensures forall i :: 0 <= i < pixels.Length ==> pixels[i] == Black
    {
      pixels := new Color[NumPixels](_ => Black);
    }

    /** `fill(colors)`: every pixel takes the colour. */
    method Fill(color: Color)
      requires Valid()
      modifies pixels
      ensures forall i :: 0 <= i < pixels.Length ==> pixels[i] == color
    {
      forall i | 0 <= i < pixels.Length {
        pixels[i] := color;
      }
    }

    /** `clear()`: every pixel is off. */
    method Clear()
      requires Valid()
      modifies pixels
      ensures forall i :: 0 <= i < pixels.Length ==> pixels[i] == Black
    {
      Fill(Black);
    }

    /** `rainbow_cycle()`: from the last pixel down to the first, pixel i takes
        the wheel colour at position `i * 256 // 108`. */
    method RainbowCycle()
      requires Valid()
      modifies pixels
      ensures forall i :: 0 <= i < pixels.Length ==> pixels[i] == Wheel(RainbowPosition(i))
    {
      var i := pixels.Length;
      while i > 0
        invariant 0 <= i <= pixels.Length
        invariant forall k :: i <= k < pixels.Length ==> pixels[k] == Wheel(RainbowPosition(k))
      {
        i := i - 1;
        var pixelIndex := i * 256 / NumPixels;
        pixels[i] := Wheel(pixelIndex % 256);
      }
    }

    /** `longhorn()`: from the last pixel down to the first, every pixel takes
        burnt orange. */
    method Longhorn()
      requires Valid()
      modifies pixels
      ensures forall i :: 0 <= i < pixels.Length ==> pixels[i] == BurntOrange
    {
      var i := pixels.Length;
      while i > 0
        invariant 0 <= i <= pixels.Length
        invariant forall k :: i <= k < pixels.Length ==> pixels[k] == BurntOrange
      {
        i := i - 1;
        pixels[i] := BurntOrange;
      }
    }
  }
}
