/**
 * The parameter value algebra (`GraphicValue`): for every value type an effect
 * parameter can have, its `zero` and `one`, its declared `default`, `minimum`
 * and `maximum`, linear interpolation `lerp(at:from:to:)` and uniform scaling
 * `scaled(by:)`.
 *
 * `Double` and `CGFloat` are both modelled as `real`; floating-point rounding
 * is not modelled. Composite types interpolate and scale component-wise
 * through the scalar operations.
 */
module Values {

  /**
   * A declared default or bound (`GraphicMetadataValue`). It is kept
   * unevaluated: the rules that read the render resolution are evaluated
   * elsewhere, against a concrete resolution.
   */
  datatype Metadata<T> =
    | Fixed(value: T)
    | Zero
    | One
    | Resolution
    | ResolutionCenter                   // `.resolutionAlignment(.center)`
    | ResolutionMinimum(fraction: real)  // a fraction of the smaller resolution side
    | ResolutionMaximum(fraction: real)  // a fraction of the larger resolution side

  /** A declared parameter (`GraphicMetadata<T>`): its value, bounds and the `.spatial` option. */
  datatype Parameter<T> = Parameter(value: Metadata<T>, minimum: Metadata<T>, maximum: Metadata<T>, spatial: bool)

  // ---------------------------------------------------------------- Bool

  const BoolZero: bool := false
  const BoolOne: bool := true
  const BoolDefault: Metadata<bool> := Fixed(false)
  const BoolMinimum: Metadata<bool> := Fixed(false)
  const BoolMaximum: Metadata<bool> := Fixed(true)

  /** Boolean interpolation is a step: the trailing value from any positive fraction on. */
  function BoolLerp(fraction: real, leading: bool, trailing: bool): (r: bool)
    ensures r == leading || r == trailing
    ensures leading != trailing ==> (r == trailing <==> fraction > 0.0)
  {
    if fraction > 0.0 then trailing else leading
  }

  /** Scaling leaves a boolean as it is, whatever the scale. */
  function BoolScaled(b: bool, scale: real): (r: bool)
    ensures r == b
  {
    b
  }

  // ---------------------------------------------------------------- Int

  const IntZero: int := 0
  const IntOne: int := 1
  const IntDefault: Metadata<int> := Fixed(1)
  const IntMinimum: Metadata<int> := Fixed(1)
  const IntMaximum: Metadata<int> := Fixed(10)

  /** Swift's `Int(_: Double)`: the integer part, truncating toward zero. */
  function Truncate(x: real): (n: int)
    ensures 0.0 <= x ==> n as real <= x < n as real + 1.0
    ensures x < 0.0 ==> n as real - 1.0 < x <= n as real
  {
    if 0.0 <= x then x.Floor else -((-x).Floor)
  }

  /** Integer interpolation goes through reals and truncates the result. */
  function IntLerp(fraction: real, leading: int, trailing: int): (r: int)
    ensures fraction == 0.0 ==> r == leading
    ensures fraction == 1.0 ==> r == trailing
    ensures leading <= trailing && 0.0 <= fraction <= 1.0 ==> leading <= r <= trailing
  {
    var v := ScalarLerp(fraction, leading as real, trailing as real);
    assert leading <= trailing && 0.0 <= fraction <= 1.0 ==> leading as real <= v <= trailing as real by {
      if leading <= trailing && 0.0 <= fraction <= 1.0 {
        ScalarLerpBetween(fraction, leading as real, trailing as real);
      }
    }
    Truncate(v)
  }

  /** Integer scaling goes through reals and truncates the product. */
  function IntScaled(n: int, scale: real): (r: int)
    ensures scale == 1.0 ==> r == n
    ensures 0.0 <= scale <= 1.0 ==> (0 <= n ==> 0 <= r <= n) && (n <= 0 ==> n <= r <= 0)
  {
    if 0.0 <= scale <= 1.0 then
      TruncateScaledTowardZero(n, scale);
      Truncate(ScalarScaled(n as real, scale))
    else
      Truncate(ScalarScaled(n as real, scale))
  }

  /** Truncating a real that lies between two integers gives an integer between them. */
  lemma TruncateBetween(x: real, lo: int, hi: int)
    requires lo as real <= x <= hi as real
    ensures lo <= Truncate(x) <= hi
  {
  }

  /** Scaling an integer by a scale in [0, 1] and truncating stays between 0 and the integer. */
  lemma TruncateScaledTowardZero(n: int, scale: real)
    requires 0.0 <= scale <= 1.0
    ensures 0 <= n ==> 0 <= Truncate(ScalarScaled(n as real, scale)) <= n
    ensures n <= 0 ==> n <= Truncate(ScalarScaled(n as real, scale)) <= 0
  {
    var x := n as real;
    ScaledTowardZero(x, scale);
    if 0 <= n {
      assert 0.0 <= x;
      TruncateBetween(ScalarScaled(x, scale), 0, n);
    } else {
      assert x <= 0.0;
      TruncateBetween(ScalarScaled(x, scale), n, 0);
    }
  }

  /** A scale in [0, 1] moves a value toward zero without crossing it. */
  lemma ScaledTowardZero(x: real, scale: real)
    requires 0.0 <= scale <= 1.0
    ensures 0.0 <= x ==> 0.0 <= ScalarScaled(x, scale) <= x
    ensures x <= 0.0 ==> x <= ScalarScaled(x, scale) <= 0.0
  {
    if 0.0 <= x {
      ScalarLerpBetween(scale, 0.0, x);
      assert ScalarLerp(scale, 0.0, x) == ScalarScaled(x, scale);
    } else {
      ScalarLerpBetween(1.0 - scale, x, 0.0);
      assert ScalarLerp(1.0 - scale, x, 0.0) == ScalarScaled(x, scale);
    }
  }

  // ---------------------------------------------------------------- Double and CGFloat

  const ScalarZero: real := 0.0
  const ScalarOne: real := 1.0
  const ScalarDefault: Metadata<real> := Fixed(0.0)
  const ScalarMinimum: Metadata<real> := Fixed(0.0)
  const ScalarMaximum: Metadata<real> := Fixed(1.0)

  /** Linear interpolation; the fraction is not clamped, so it also extrapolates. */
  function ScalarLerp(fraction: real, leading: real, trailing: real): (r: real)
    ensures fraction == 0.0 ==> r == leading
    ensures fraction == 1.0 ==> r == trailing
    ensures leading == trailing ==> r == leading
  {
    leading * (1.0 - fraction) + trailing * fraction
  }

  function ScalarScaled(x: real, scale: real): (r: real)
    ensures scale == 1.0 ==> r == x
    ensures scale == 0.0 ==> r == 0.0
  {
    x * scale
  }

  /** Between ordered endpoints, a fraction in [0, 1] interpolates between them. */
  lemma ScalarLerpBetween(fraction: real, leading: real, trailing: real)
    requires leading <= trailing && 0.0 <= fraction <= 1.0
    ensures leading <= ScalarLerp(fraction, leading, trailing) <= trailing
  {
    var d := trailing - leading;
    var below := d * fraction;
    var above := d * (1.0 - fraction);
    assert 0.0 <= below && 0.0 <= above;
    assert below + above == d;
    assert ScalarLerp(fraction, leading, trailing) == leading + below;
  }

  /** No clamping: interpolating from 0 to 1 gives back the fraction itself, outside [0, 1] too. */
  lemma ScalarLerpUnclamped(fraction: real)
    ensures ScalarLerp(fraction, 0.0, 1.0) == fraction
    ensures fraction > 1.0 ==> ScalarLerp(fraction, 0.0, 1.0) > 1.0
    ensures fraction < 0.0 ==> ScalarLerp(fraction, 0.0, 1.0) < 0.0
  {
  }

  /** Scaling twice is scaling once by the product. */
  lemma ScalarScaledComposes(x: real, a: real, b: real)
    ensures ScalarScaled(ScalarScaled(x, a), b) == ScalarScaled(x, a * b)
  {
    assert (x * a) * b == x * (a * b);
  }

  /** Scaling commutes with interpolation. */
  lemma ScalarScaledLerp(fraction: real, leading: real, trailing: real, scale: real)
    ensures ScalarScaled(ScalarLerp(fraction, leading, trailing), scale)
         == ScalarLerp(fraction, ScalarScaled(leading, scale), ScalarScaled(trailing, scale))
  {
    calc {
      ScalarScaled(ScalarLerp(fraction, leading, trailing), scale);
      (leading * (1.0 - fraction) + trailing * fraction) * scale;
      (leading * scale) * (1.0 - fraction) + (trailing * scale) * fraction;
    }
  }

  /** The fixed literal bounds of `Int` and `Double`/`CGFloat` are ordered minimum <= default <= maximum. */
  lemma FixedBoundsOrdered()
    ensures IntMinimum.value <= IntDefault.value <= IntMaximum.value
    ensures ScalarMinimum.value <= ScalarDefault.value <= ScalarMaximum.value
    ensures BoolMinimum.value == BoolZero && BoolMaximum.value == BoolOne
  {
  }

  // ---------------------------------------------------------------- Angle

  /** SwiftUI's `Angle`, held in degrees (the conversion to radians is not modelled). */
  datatype Angle = Angle(degrees: real) {

    static const Zero: Angle := Angle(0.0)
    static const One: Angle := Angle(360.0)
    static const Default: Metadata<Angle> := Metadata.Zero
    static const Minimum: Metadata<Angle> := Fixed(Angle(-180.0))
    static const Maximum: Metadata<Angle> := Fixed(Angle(180.0))

    static function Lerp(fraction: real, leading: Angle, trailing: Angle): (r: Angle)
      ensures fraction == 0.0 ==> r == leading
      ensures fraction == 1.0 ==> r == trailing
    {
      Angle(ScalarLerp(fraction, leading.degrees, trailing.degrees))
    }

    function Scaled(scale: real): (r: Angle)
      ensures scale == 1.0 ==> r == this
    {
      Angle(ScalarScaled(degrees, scale))
    }
  }

  // ---------------------------------------------------------------- CGSize

  datatype Size = Size(width: real, height: real) {

    static const Zero: Size := Size(0.0, 0.0)
    static const One: Size := Size(1.0, 1.0)
    static const Default: Metadata<Size> := Resolution
    static const Minimum: Metadata<Size> := Metadata.Zero
    static const Maximum: Metadata<Size> := Resolution

    static function Lerp(fraction: real, leading: Size, trailing: Size): (r: Size)
      ensures fraction == 0.0 ==> r == leading
      ensures fraction == 1.0 ==> r == trailing
    {
      Size(ScalarLerp(fraction, leading.width, trailing.width),
           ScalarLerp(fraction, leading.height, trailing.height))
    }

    function Scaled(scale: real): (r: Size)
      ensures scale == 1.0 ==> r == this
      ensures scale == 0.0 ==> r == Zero
    {
      Size(ScalarScaled(width, scale), ScalarScaled(height, scale))
    }
  }

  // ---------------------------------------------------------------- CGPoint

  datatype Point = Point(x: real, y: real) {

    static const Zero: Point := Point(0.0, 0.0)
    static const One: Point := Point(1.0, 1.0)
    static const Default: Metadata<Point> := ResolutionCenter
    static const Minimum: Metadata<Point> := Metadata.Zero
    static const Maximum: Metadata<Point> := Resolution

    static function Lerp(fraction: real, leading: Point, trailing: Point): (r: Point)
      ensures fraction == 0.0 ==> r == leading
      ensures fraction == 1.0 ==> r == trailing
    {
      Point(ScalarLerp(fraction, leading.x, trailing.x),
            ScalarLerp(fraction, leading.y, trailing.y))
    }

    function Scaled(scale: real): (r: Point)
      ensures scale == 1.0 ==> r == this
      ensures scale == 0.0 ==> r == Zero
    {
      Point(ScalarScaled(x, scale), ScalarScaled(y, scale))
    }
  }

  // ---------------------------------------------------------------- CGRect

  datatype Rect = Rect(origin: Point, size: Size) {

    static const Zero: Rect := Rect(Point.Zero, Size.Zero)
    static const One: Rect := Rect(Point.Zero, Size.One)
    static const Default: Metadata<Rect> := Resolution
    static const Minimum: Metadata<Rect> := Metadata.Zero
    static const Maximum: Metadata<Rect> := Resolution

    static function Lerp(fraction: real, leading: Rect, trailing: Rect): (r: Rect)
      ensures fraction == 0.0 ==> r == leading
      ensures fraction == 1.0 ==> r == trailing
    {
      Rect(Point.Lerp(fraction, leading.origin, trailing.origin),
           Size.Lerp(fraction, leading.size, trailing.size))
    }

    function Scaled(scale: real): (r: Rect)
      ensures scale == 1.0 ==> r == this
      ensures scale == 0.0 ==> r == Zero
    {
      Rect(origin.Scaled(scale), size.Scaled(scale))
    }
  }

  // ---------------------------------------------------------------- PixelColor

  datatype Color = Color(red: real, green: real, blue: real, opacity: real) {

    static const Clear: Color := Color(0.0, 0.0, 0.0, 0.0)
    static const White: Color := Color(1.0, 1.0, 1.0, 1.0)
    static const Zero: Color := Clear
    static const One: Color := White
    static const Default: Metadata<Color> := Fixed(White)
    static const Minimum: Metadata<Color> := Fixed(Clear)
    static const Maximum: Metadata<Color> := Fixed(White)

    static function Lerp(fraction: real, leading: Color, trailing: Color): (r: Color)
      ensures fraction == 0.0 ==> r == leading
      ensures fraction == 1.0 ==> r == trailing
    {
      Color(ScalarLerp(fraction, leading.red, trailing.red),
            ScalarLerp(fraction, leading.green, trailing.green),
            ScalarLerp(fraction, leading.blue, trailing.blue),
            ScalarLerp(fraction, leading.opacity, trailing.opacity))
    }

    /** Scales every channel, opacity included. */
    function Scaled(scale: real): (r: Color)
      ensures scale == 1.0 ==> r == this
      ensures scale == 0.0 ==> r == Clear
    {
      Color(ScalarScaled(red, scale), ScalarScaled(green, scale),
            ScalarScaled(blue, scale), ScalarScaled(opacity, scale))
    }
  }

  // ---------------------------------------------------------------- Point3D

  datatype Point3 = Point3(x: real, y: real, z: real) {

    static const Zero: Point3 := Point3(0.0, 0.0, 0.0)
    static const One: Point3 := Point3(1.0, 1.0, 1.0)
    static const Default: Metadata<Point3> := ResolutionCenter
    static const Minimum: Metadata<Point3> := Metadata.Zero
    static const Maximum: Metadata<Point3> := Resolution

    static function Lerp(fraction: real, leading: Point3, trailing: Point3): (r: Point3)
      ensures fraction == 0.0 ==> r == leading
      ensures fraction == 1.0 ==> r == trailing
    {
      Point3(ScalarLerp(fraction, leading.x, trailing.x),
             ScalarLerp(fraction, leading.y, trailing.y),
             ScalarLerp(fraction, leading.z, trailing.z))
    }

    function Scaled(scale: real): (r: Point3)
      ensures scale == 1.0 ==> r == this
      ensures scale == 0.0 ==> r == Zero
    {
      Point3(ScalarScaled(x, scale), ScalarScaled(y, scale), ScalarScaled(z, scale))
    }
  }

  // ---------------------------------------------------------------- Size3D

  datatype Size3 = Size3(width: real, height: real, depth: real) {

    static const Zero: Size3 := Size3(0.0, 0.0, 0.0)
    static const One: Size3 := Size3(1.0, 1.0, 1.0)
    static const Default: Metadata<Size3> := Resolution
    static const Minimum: Metadata<Size3> := Metadata.Zero
    static const Maximum: Metadata<Size3> := Resolution

    static function Lerp(fraction: real, leading: Size3, trailing: Size3): (r: Size3)
      ensures fraction == 0.0 ==> r == leading
      ensures fraction == 1.0 ==> r == trailing
    {
      Size3(ScalarLerp(fraction, leading.width, trailing.width),
            ScalarLerp(fraction, leading.height, trailing.height),
            ScalarLerp(fraction, leading.depth, trailing.depth))
    }

    function Scaled(scale: real): (r: Size3)
      ensures scale == 1.0 ==> r == this
      ensures scale == 0.0 ==> r == Zero
    {
      Size3(ScalarScaled(width, scale), ScalarScaled(height, scale), ScalarScaled(depth, scale))
    }
  }

  // ---------------------------------------------------------------- Angle3D

  /** Spatial's `Angle3D`: three angles, here in degrees (interpolation is linear either way). */
  datatype Angle3 = Angle3(x: Angle, y: Angle, z: Angle) {

    static const Zero: Angle3 := Angle3(Angle.Zero, Angle.Zero, Angle.Zero)
    static const One: Angle3 := Angle3(Angle.One, Angle.One, Angle.One)
    static const Default: Metadata<Angle3> := Metadata.Zero
    static const Minimum: Metadata<Angle3> := Fixed(Angle3(Angle(-180.0), Angle(-180.0), Angle(-180.0)))
    static const Maximum: Metadata<Angle3> := Fixed(Angle3(Angle(180.0), Angle(180.0), Angle(180.0)))

    static function Lerp(fraction: real, leading: Angle3, trailing: Angle3): (r: Angle3)
      ensures fraction == 0.0 ==> r == leading
      ensures fraction == 1.0 ==> r == trailing
    {
      Angle3(Angle.Lerp(fraction, leading.x, trailing.x),
             Angle.Lerp(fraction, leading.y, trailing.y),
             Angle.Lerp(fraction, leading.z, trailing.z))
    }

    function Scaled(scale: real): (r: Angle3)
      ensures scale == 1.0 ==> r == this
    {
      Angle3(x.Scaled(scale), y.Scaled(scale), z.Scaled(scale))
    }
  }

  // ---------------------------------------------------------------- [GradientStop]

  /** `Graphic.GradientStop`: a color at a location along the gradient. */
  datatype GradientStop = GradientStop(location: real, color: Color) {

    /** One stop of a gradient interpolation: location and color interpolated together. */
    static function Lerp(fraction: real, leading: GradientStop, trailing: GradientStop): (r: GradientStop)
      ensures fraction == 0.0 ==> r == leading
      ensures fraction == 1.0 ==> r == trailing
    {
      GradientStop(ScalarLerp(fraction, leading.location, trailing.location),
                   Color.Lerp(fraction, leading.color, trailing.color))
    }

    /** One stop of a gradient scaling: the location is scaled as well as the color. */
    function Scaled(scale: real): (r: GradientStop)
      ensures scale == 1.0 ==> r == this
    {
      GradientStop(ScalarScaled(location, scale), color.Scaled(scale))
    }
  }

  const GradientZero: seq<GradientStop> := []
  const GradientOne: seq<GradientStop> := [GradientStop(0.0, Color.Clear), GradientStop(1.0, Color.White)]
  const GradientDefault: Metadata<seq<GradientStop>> := Fixed(GradientOne)
  const GradientMinimum: Metadata<seq<GradientStop>> := Fixed([])
  const GradientMaximum: Metadata<seq<GradientStop>> := Fixed(GradientOne)

  /**
   * Interpolates two gradients stop by stop. When the stop counts differ the
   * leading gradient is returned unchanged.
   */
  method GradientLerp(fraction: real, leading: seq<GradientStop>, trailing: seq<GradientStop>)
    returns (r: seq<GradientStop>)
    ensures |leading| != |trailing| ==> r == leading
    ensures |leading| == |trailing| ==> |r| == |leading|
    ensures |leading| == |trailing| ==>
      forall i :: 0 <= i < |r| ==> r[i] == GradientStop.Lerp(fraction, leading[i], trailing[i])
    ensures fraction == 0.0 ==> r == leading
    ensures fraction == 1.0 && |leading| == |trailing| ==> r == trailing
  {
    if |leading| == |trailing| {
      var gradient: seq<GradientStop> := [];
      for i := 0 to |leading|
        invariant |gradient| == i
        invariant forall k :: 0 <= k < i ==> gradient[k] == GradientStop.Lerp(fraction, leading[k], trailing[k])
      {
        var stop := GradientStop(ScalarLerp(fraction, leading[i].location, trailing[i].location),
                                 Color.Lerp(fraction, leading[i].color, trailing[i].color));
        gradient := gradient + [stop];
      }
      return gradient;
    }
    return leading;
  }

  /** Scales every stop of a gradient, keeping their number and order. */
  method GradientScaled(stops: seq<GradientStop>, scale: real) returns (r: seq<GradientStop>)
    ensures |r| == |stops|
    ensures forall i :: 0 <= i < |r| ==> r[i] == stops[i].Scaled(scale)
    ensures scale == 1.0 ==> r == stops
  {
    var gradient: seq<GradientStop> := [];
    for i := 0 to |stops|
      invariant |gradient| == i
      invariant forall k :: 0 <= k < i ==> gradient[k] == stops[k].Scaled(scale)
    {
      var stop := GradientStop(ScalarScaled(stops[i].location, scale), stops[i].color.Scaled(scale));
      gradient := gradient + [stop];
    }
    return gradient;
  }
}
