/**
 * Cube geometry: the six corners of an isometric cube around its centre,
 * and the per-face brightness scaling of a colour.
 *
 * The source evaluates Math.sin / Math.cos; here the trigonometric values
 * are inputs (a `Trig` record), so every formula below is exact.
 */
module Geometry {

  datatype Point = Point(x: real, y: real)

  /** Trigonometric values the source computes with Math.sin / Math.cos. */
  datatype Trig = Trig(
    sinHalfView: real,     // sin(viewAngle / 2)
    cosHalfView: real,     // cos(viewAngle / 2)
    cosTranslation: real,  // cos(translationAngle)
    sinTranslation: real)  // sin(translationAngle)

  /** Corners B..G of a cube, relative to its centre A = (0, 0). */
  datatype Corners = Corners(b: Point, c: Point, d: Point, e: Point, f: Point, g: Point)

  /**
   * The corner arithmetic of OrthoCube._initPoints. The three faces are
   * the quadrilaterals (A,B,G,C) on top, (A,B,D,E) on the left and
   * (A,C,F,E) on the right; each is a parallelogram with A as a vertex.
   */
  function CubeCorners(edgeLength: real, sinHalf: real, cosHalf: real): (k: Corners)
    // B and C are mirror images across the vertical axis through A
    ensures k.b.x == -k.c.x && k.b.y == k.c.y
    // E lies straight below A at distance edgeLength, G straight above
    ensures k.e == Point(0.0, edgeLength)
    ensures k.g.x == 0.0 && k.g.y == 2.0 * k.b.y
    // the three faces close up: G = B + C, D = B + E, F = C + E
    ensures k.g == Point(k.b.x + k.c.x, k.b.y + k.c.y)
    ensures k.d == Point(k.b.x + k.e.x, k.b.y + k.e.y)
    ensures k.f == Point(k.c.x + k.e.x, k.c.y + k.e.y)
  {
    Corners(
      Point(-edgeLength * sinHalf, -edgeLength * cosHalf),
      Point(edgeLength * sinHalf, -edgeLength * cosHalf),
      Point(-edgeLength * sinHalf, edgeLength * (1.0 - cosHalf)),
      Point(0.0, edgeLength),
      Point(edgeLength * sinHalf, edgeLength * (1.0 - cosHalf)),
      Point(0.0, -2.0 * edgeLength * cosHalf))
  }

  function SqLength(p: Point): real { p.x * p.x + p.y * p.y }

  /**
   * When the supplied sine and cosine satisfy sin^2 + cos^2 = 1, every
   * edge leaving the centre has length edgeLength, so the faces are rhombi.
   */
  lemma CornersAreRhombi(edgeLength: real, sinHalf: real, cosHalf: real)
    requires sinHalf * sinHalf + cosHalf * cosHalf == 1.0
    ensures SqLength(CubeCorners(edgeLength, sinHalf, cosHalf).b) == edgeLength * edgeLength
    ensures SqLength(CubeCorners(edgeLength, sinHalf, cosHalf).c) == edgeLength * edgeLength
    ensures SqLength(CubeCorners(edgeLength, sinHalf, cosHalf).e) == edgeLength * edgeLength
  {
    var k := CubeCorners(edgeLength, sinHalf, cosHalf);
    calc {
      SqLength(k.b);
      (edgeLength * sinHalf) * (edgeLength * sinHalf) + (edgeLength * cosHalf) * (edgeLength * cosHalf);
      edgeLength * edgeLength * (sinHalf * sinHalf + cosHalf * cosHalf);
      edgeLength * edgeLength;
    }
  }

  /** A cube colour: one grey level, or a list of channel values. */
  datatype Colour = Grey(level: real) | Channels(values: seq<real>)

  /**
   * OrthoCube._colorBrightness: scales a grey level, or every channel of a
   * channel list, by `percentage`.
   */
  method ColourBrightness(colour: Colour, percentage: real) returns (r: Colour)
    ensures colour.Grey? ==> r == Grey(colour.level * percentage)
    ensures colour.Channels? ==> r.Channels? && |r.values| == |colour.values|
    ensures colour.Channels? ==>
      forall i :: 0 <= i < |colour.values| ==> r.values[i] == colour.values[i] * percentage
  {
    if colour.Grey? {
      return Grey(colour.level * percentage);
    }
    var scaled: seq<real> := [];
    var i := 0;
    while i < |colour.values|
      invariant 0 <= i <= |colour.values|
      invariant |scaled| == i
      invariant forall k :: 0 <= k < i ==> scaled[k] == colour.values[k] * percentage
    {
      scaled := scaled + [colour.values[i] * percentage];
      i := i + 1;
    }
    r := Channels(scaled);
  }
}
