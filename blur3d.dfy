/**
 * The 3D blur effect (`CodableGraphic3D.Effect.Space.Blur`): a graphic whose
 * parameters are edited in place. `Render` says which blur of the input
 * graphic is asked for, with which parameters; which parameters it reads is
 * exactly which ones `IsVisible` shows, and the presets of `Edit` only change
 * the style and the radius.
 */
module Blur3D {
  import opened Values
  import ExtendModes

  /** `Graphic3D.Blur3DType`. */
  datatype Blur3DType = Box | Direction | Zoom | Random

  /** The blur's parameters, in declaration order. */
  datatype Property = Style | Radius | Position | Direction | SampleCount | ExtendMode

  /** The presets of `edit(variant:)`. */
  datatype Variant = Light | Medium | Heavy | Zoom | Random

  /**
   * The blur operation `render` asks of the input graphic, with the parameter
   * values it passes (still unevaluated) and the extend mode it adds to the
   * caller's options.
   */
  datatype BlurCall =
    | BoxBlur(radius: Metadata<real>, sampleCount: Metadata<int>, extendMode: ExtendModes.ExtendMode)
    | DirectionBlur(radius: Metadata<real>, direction: Metadata<Point3>, sampleCount: Metadata<int>,
                    extendMode: ExtendModes.ExtendMode)
    | ZoomBlur(radius: Metadata<real>, position: Metadata<Point3>, sampleCount: Metadata<int>,
               extendMode: ExtendModes.ExtendMode)
    | RandomBlur(radius: Metadata<real>, extendMode: ExtendModes.ExtendMode)

  /** The blur style a call belongs to. */
  function CallStyle(call: BlurCall): Blur3DType {
    match call
    case BoxBlur(_, _, _) => Blur3DType.Box
    case DirectionBlur(_, _, _, _) => Blur3DType.Direction
    case ZoomBlur(_, _, _, _) => Blur3DType.Zoom
    case RandomBlur(_, _) => Blur3DType.Random
  }

  /** The parameters a call was built from: the style it dispatched on and every argument it carries. */
  function Evaluated(call: BlurCall): set<Property> {
    match call
    case BoxBlur(_, _, _) => {Property.Style, Radius, SampleCount, Property.ExtendMode}
    case DirectionBlur(_, _, _, _) => {Property.Style, Radius, Property.Direction, SampleCount, Property.ExtendMode}
    case ZoomBlur(_, _, _, _) => {Property.Style, Radius, Position, SampleCount, Property.ExtendMode}
    case RandomBlur(_, _) => {Property.Style, Radius, Property.ExtendMode}
  }

  /** The radius fraction each preset installs; the random preset keeps the radius. */
  function PresetFraction(variant: Variant): real
    requires variant != Variant.Random
  {
    match variant
    case Light => 1.0 / 32.0
    case Medium => 1.0 / 16.0
    case Heavy => 1.0 / 8.0
    case Zoom => 1.0 / 8.0
  }

  /** `p` lies in the box spanned by `low` and `high`, axis by axis. */
  predicate Within(p: Point3, low: Point3, high: Point3) {
    low.x <= p.x <= high.x && low.y <= p.y <= high.y && low.z <= p.z <= high.z
  }

  /** The declared radius bounds: a fraction of the smaller side, from 0 to half of it. */
  const RadiusMaximum: Metadata<real> := ResolutionMinimum(0.5)

  class Blur {
    var style: Blur3DType
    var radius: Parameter<real>
    var position: Parameter<Point3>
    var direction: Parameter<Point3>
    var sampleCount: Parameter<int>
    var extendMode: ExtendModes.ExtendMode

    /** The declared defaults. */
    constructor ()
      ensures style == Blur3DType.Box
      ensures radius == Parameter(ResolutionMinimum(0.1), ScalarMinimum, RadiusMaximum, true)
      ensures position == Parameter(Point3.Default, Point3.Minimum, Point3.Maximum, true)
      ensures direction == Parameter(Fixed(Point3(1.0, 0.0, 0.0)), Fixed(Point3(-1.0, -1.0, -1.0)),
                                     Fixed(Point3(1.0, 1.0, 1.0)), false)
      ensures sampleCount == Parameter(Fixed(10), Fixed(1), Fixed(10), false)
      ensures extendMode == ExtendModes.Stretch
      ensures Valid()
    {
      style := Blur3DType.Box;
      radius := Parameter(ResolutionMinimum(0.1), ScalarMinimum, RadiusMaximum, true);
      position := Parameter(Point3.Default, Point3.Minimum, Point3.Maximum, true);
      direction := Parameter(Fixed(Point3(1.0, 0.0, 0.0)), Fixed(Point3(-1.0, -1.0, -1.0)),
                             Fixed(Point3(1.0, 1.0, 1.0)), false);
      sampleCount := Parameter(Fixed(10), Fixed(1), Fixed(10), false);
      extendMode := ExtendModes.Stretch;
    }

    /**
     * The radius is a fraction of the smaller side between the minimum 0 and
     * the maximum's fraction; the direction and the sample count are fixed
     * values within their fixed bounds.
     */
    predicate Valid()
      reads this
    {
      && radius.minimum == ScalarMinimum
      && radius.maximum == RadiusMaximum
      && radius.value.ResolutionMinimum?
      && 0.0 <= radius.value.fraction <= RadiusMaximum.fraction
      && sampleCount.value.Fixed? && sampleCount.minimum.Fixed? && sampleCount.maximum.Fixed?
      && sampleCount.minimum.value <= sampleCount.value.value <= sampleCount.maximum.value
      && direction.value.Fixed? && direction.minimum.Fixed? && direction.maximum.Fixed?
      && Within(direction.value.value, direction.minimum.value, direction.maximum.value)
    }

    /** `render(with:options:)`: the blur of the chosen style, with the parameters it reads. */
    function Render(): (call: BlurCall)
      reads this
      ensures CallStyle(call) == style
      ensures call.radius == radius.value && call.extendMode == extendMode
      ensures call.BoxBlur? || call.DirectionBlur? || call.ZoomBlur? ==> call.sampleCount == sampleCount.value
      ensures call.DirectionBlur? ==> call.direction == direction.value
      ensures call.ZoomBlur? ==> call.position == position.value
    {
      match style
      case Box => BoxBlur(radius.value, sampleCount.value, extendMode)
      case Direction => DirectionBlur(radius.value, direction.value, sampleCount.value, extendMode)
      case Zoom => ZoomBlur(radius.value, position.value, sampleCount.value, extendMode)
      case Random => RandomBlur(radius.value, extendMode)
    }

    /** `isVisible(property:at:)`: which parameters the editor shows; the resolution is not consulted. */
    function IsVisible(property: Property, resolution: Size): (visible: bool)
      reads this
      ensures property == Property.Style || property == Radius || property == Property.ExtendMode ==> visible
    {
      match property
      case Style => true
      case Radius => true
      case Position => style == Blur3DType.Zoom
      case Direction => style == Blur3DType.Direction
      case SampleCount => style != Blur3DType.Random
      case ExtendMode => true
    }

    /**
     * `edit(variant:)`: light, medium and heavy choose the box blur, zoom and
     * random their own styles; every preset but random also sets the radius
     * to its fraction of the smaller side. Nothing else changes.
     */
    method Edit(variant: Variant)
      modifies this
      ensures style == (match variant
                        case Light => Blur3DType.Box
                        case Medium => Blur3DType.Box
                        case Heavy => Blur3DType.Box
                        case Zoom => Blur3DType.Zoom
                        case Random => Blur3DType.Random)
      ensures variant == Variant.Random ==> radius == old(radius)
      ensures variant != Variant.Random ==> radius == old(radius).(value := ResolutionMinimum(PresetFraction(variant)))
      ensures position == old(position) && direction == old(direction)
      ensures sampleCount == old(sampleCount) && extendMode == old(extendMode)
      ensures old(Valid()) ==> Valid()
      ensures forall r: Size :: IsVisible(Position, r) <==> variant == Variant.Zoom
      ensures forall r: Size :: !IsVisible(Property.Direction, r)
      ensures forall r: Size :: IsVisible(SampleCount, r) <==> variant != Variant.Random
    {
      match variant {
        case Light => style := Blur3DType.Box;
        case Medium => style := Blur3DType.Box;
        case Heavy => style := Blur3DType.Box;
        case Zoom => style := Blur3DType.Zoom;
        case Random => style := Blur3DType.Random;
      }
      match variant {
        case Light => radius := radius.(value := ResolutionMinimum(1.0 / 32.0));
        case Medium => radius := radius.(value := ResolutionMinimum(1.0 / 16.0));
        case Heavy => radius := radius.(value := ResolutionMinimum(1.0 / 8.0));
        case Zoom => radius := radius.(value := ResolutionMinimum(1.0 / 8.0));
        case Random =>
      }
    }
  }

  /**
   * A parameter is shown exactly when the render path of the current style
   * reads it, whatever the resolution.
   */
  lemma RenderReadsVisibleProperties(blur: Blur, property: Property, resolution: Size)
    ensures property in Evaluated(blur.Render()) <==> blur.IsVisible(property, resolution)
  {
  }

  /** The presets grow strictly heavier, and the zoom preset uses the heavy radius. */
  lemma PresetsOrdered()
    ensures 0.0 < PresetFraction(Light) < PresetFraction(Medium) < PresetFraction(Heavy) <= RadiusMaximum.fraction
    ensures PresetFraction(Variant.Zoom) == PresetFraction(Heavy)
  {
  }
}
