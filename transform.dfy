/**
 * The 2D transform effect (`CodableGraphic.Effect.Space.Transform`): a graphic
 * whose parameters are edited in place. `Render` asks the input graphic for
 * one transform with the current parameters; the presets of `Edit` change
 * only the scale, and every scale the effect installs stays inside its
 * declared bounds.
 */
module TransformEffect {
  import opened Wrappers
  import opened Values
  import ExtendModes

  /** The presets of `edit(variant:)`. */
  datatype Variant = Regular | ScaledDown | ScaledUp

  /** The transform `render` asks of the input graphic, with the parameter values it passes (still unevaluated). */
  datatype TransformCall = TransformCall(
    translation: Metadata<Point>,
    rotation: Metadata<Angle>,
    scale: Metadata<real>,
    size: Metadata<Size>,
    extendMode: ExtendModes.ExtendMode)

  /** The declared scale bounds: the `CGFloat` minimum and 2. */
  const ScaleMinimum: Metadata<real> := ScalarMinimum
  const ScaleMaximum: Metadata<real> := Fixed(2.0)

  /** A scale value that does not depend on the resolution, as a number. */
  function FixedScale(m: Metadata<real>): (s: Option<real>)
  {
    match m
    case Fixed(v) => Some(v)
    case One => Some(ScalarOne)
    case Zero => Some(ScalarZero)
    case _ => None
  }

  class Transform {
    var translation: Parameter<Point>
    var rotation: Parameter<Angle>
    var scale: Parameter<real>
    var size: Parameter<Size>
    var extendMode: ExtendModes.ExtendMode

    /** The declared defaults. */
    constructor ()
      ensures translation == Parameter(Metadata.Zero, ResolutionMaximum(-0.5), ResolutionMaximum(0.5), true)
      ensures rotation == Parameter(Angle.Default, Angle.Minimum, Angle.Maximum, false)
      ensures scale == Parameter(One, ScaleMinimum, ScaleMaximum, false)
      ensures size == Parameter(Resolution, Size.Minimum, Resolution, true)
      ensures extendMode == ExtendModes.Zero
      ensures Valid()
    {
      translation := Parameter(Metadata.Zero, ResolutionMaximum(-0.5), ResolutionMaximum(0.5), true);
      rotation := Parameter(Angle.Default, Angle.Minimum, Angle.Maximum, false);
      scale := Parameter(One, ScaleMinimum, ScaleMaximum, false);
      size := Parameter(Resolution, Size.Minimum, Resolution, true);
      extendMode := ExtendModes.Zero;
    }

    /**
     * The scale bounds are the declared ones and the scale is a number between
     * them, independent of the resolution.
     */
    predicate Valid()
      reads this
    {
      && scale.minimum == ScaleMinimum
      && scale.maximum == ScaleMaximum
      && FixedScale(scale.value).Some?
      && ScaleMinimum.value <= FixedScale(scale.value).value <= ScaleMaximum.value
    }

    /** `render(with:options:)`: one transform carrying every parameter value and the extend mode. */
    function Render(): (call: TransformCall)
      reads this
      ensures call.translation == translation.value && call.rotation == rotation.value
      ensures call.scale == scale.value && call.size == size.value
      ensures call.extendMode == extendMode
    {
      TransformCall(translation.value, rotation.value, scale.value, size.value, extendMode)
    }

    /**
     * `edit(variant:)`: regular keeps everything, scaled down halves the
     * scale to 0.5 and scaled up raises it to its maximum 2. Nothing but the
     * scale's value changes.
     */
    method Edit(variant: Variant)
      modifies this
      ensures variant == Regular ==> scale == old(scale)
      ensures variant == ScaledDown ==> scale == old(scale).(value := Fixed(0.5))
      ensures variant == ScaledUp ==> scale == old(scale).(value := Fixed(2.0))
      ensures old(Valid()) && variant == ScaledUp ==> scale.value == scale.maximum
      ensures scale.minimum == old(scale.minimum) && scale.maximum == old(scale.maximum)
      ensures scale.spatial == old(scale.spatial)
      ensures translation == old(translation) && rotation == old(rotation)
      ensures size == old(size) && extendMode == old(extendMode)
      ensures old(Valid()) ==> Valid()
      ensures Render() == old(Render()).(scale := scale.value)
      ensures variant == Regular ==> Render() == old(Render())
    {
      match variant {
        case Regular =>
        case ScaledDown => scale := scale.(value := Fixed(0.5));
        case ScaledUp => scale := scale.(value := Fixed(2.0));
      }
    }
  }

  /** A valid transform asks for a scale that is a number within its declared bounds. */
  lemma RenderScaleInBounds(t: Transform)
    requires t.Valid()
    ensures FixedScale(t.Render().scale).Some?
    ensures ScaleMinimum.value <= FixedScale(t.Render().scale).value <= ScaleMaximum.value
  {
  }

  /** Each preset's scale lies within the declared bounds; scaled down shrinks and scaled up enlarges relative to the default. */
  lemma PresetScalesInBounds()
    ensures ScaleMinimum.value <= 0.5 < FixedScale(One).value < 2.0 <= ScaleMaximum.value
  {
  }
}
