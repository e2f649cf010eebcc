/**
 * The `EasingMode` enumeration and `GetInverseEasingMode`, which swaps each
 * "In" curve with its "Out" partner and leaves every other mode alone.
 */
module Animation {

  datatype EasingMode =
    | Ease | EaseIn | EaseOut | EaseInOut | Linear
    | EaseInSine | EaseOutSine | EaseInOutSine
    | EaseInCubic | EaseOutCubic | EaseInOutCubic
    | EaseInCirc | EaseOutCirc | EaseInOutCirc
    | EaseInElastic | EaseOutElastic | EaseInOutElastic
    | EaseInBack | EaseOutBack | EaseInOutBack
    | EaseInBounce | EaseOutBounce | EaseInOutBounce

  /** The curve a mode draws, regardless of direction (`EaseIn`/`EaseOut`/`EaseInOut` are quadratic). */
  datatype Family = EaseCurve | Quad | LinearCurve | Sine | Cubic | Circ | Elastic | Back | Bounce

  /** Which end of the curve a mode eases. */
  datatype Direction = Undirected | In | Out | InOut

  function FamilyOf(m: EasingMode): Family {
    match m
    case Ease => EaseCurve
    case EaseIn | EaseOut | EaseInOut => Quad
    case Linear => LinearCurve
    case EaseInSine | EaseOutSine | EaseInOutSine => Sine
    case EaseInCubic | EaseOutCubic | EaseInOutCubic => Cubic
    case EaseInCirc | EaseOutCirc | EaseInOutCirc => Circ
    case EaseInElastic | EaseOutElastic | EaseInOutElastic => Elastic
    case EaseInBack | EaseOutBack | EaseInOutBack => Back
    case EaseInBounce | EaseOutBounce | EaseInOutBounce => Bounce
  }

  function DirectionOf(m: EasingMode): Direction {
    match m
    case Ease | Linear => Undirected
    case EaseIn | EaseInSine | EaseInCubic | EaseInCirc | EaseInElastic | EaseInBack | EaseInBounce => In
    case EaseOut | EaseOutSine | EaseOutCubic | EaseOutCirc | EaseOutElastic | EaseOutBack | EaseOutBounce => Out
    case EaseInOut | EaseInOutSine | EaseInOutCubic | EaseInOutCirc | EaseInOutElastic | EaseInOutBack
      | EaseInOutBounce => InOut
  }

  /** In and Out trade places; the other directions stay. */
  function Mirror(d: Direction): Direction {
    match d
    case In => Out
    case Out => In
    case _ => d
  }

  /** A mode is determined by its family and direction. */
  lemma ModeDeterminedByFamilyAndDirection(a: EasingMode, b: EasingMode)
    requires FamilyOf(a) == FamilyOf(b) && DirectionOf(a) == DirectionOf(b)
    ensures a == b
  {
  }

  /**
   * `GetInverseEasingMode`: the mode of the same curve family with In and
   * Out exchanged. By `ModeDeterminedByFamilyAndDirection` this pins the
   * result down.
   */
  function GetInverseEasingMode(mode: EasingMode): (r: EasingMode)
    ensures FamilyOf(r) == FamilyOf(mode)
    ensures DirectionOf(r) == Mirror(DirectionOf(mode))
  {
    match mode
    case EaseIn => EaseOut
    case EaseOut => EaseIn
    case EaseInSine => EaseOutSine
    case EaseOutSine => EaseInSine
    case EaseInCubic => EaseOutCubic
    case EaseOutCubic => EaseInCubic
    case EaseInCirc => EaseOutCirc
    case EaseOutCirc => EaseInCirc
    case EaseInElastic => EaseOutElastic
    case EaseOutElastic => EaseInElastic
    case EaseInBack => EaseOutBack
    case EaseOutBack => EaseInBack
    case EaseInBounce => EaseOutBounce
    case EaseOutBounce => EaseInBounce
    case _ => mode
  }

  /** Applying the inverse twice gives back the original mode. */
  lemma InverseIsInvolution(mode: EasingMode)
    ensures GetInverseEasingMode(GetInverseEasingMode(mode)) == mode
  {
    var twice := GetInverseEasingMode(GetInverseEasingMode(mode));
    assert FamilyOf(twice) == FamilyOf(mode);
    assert DirectionOf(twice) == Mirror(Mirror(DirectionOf(mode)));
    ModeDeterminedByFamilyAndDirection(twice, mode);
  }

  /** The modes the inverse fixes are exactly the undirected and InOut ones (the source's default branch). */
  lemma InverseFixedPoints(mode: EasingMode)
    ensures GetInverseEasingMode(mode) == mode <==> DirectionOf(mode) == Undirected || DirectionOf(mode) == InOut
  {
  }
}
