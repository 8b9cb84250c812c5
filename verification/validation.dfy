/** The index validator (Joy2Twist::buttonsOK): every configured,
    non-negative button or axis index must lie inside the arrays the device
    reports in the current snapshot. */
module Validation {
  import opened JoyTypes

  datatype IndexKind = ButtonIndex | AxisIndex

  /** One configured index together with the array it indexes. */
  datatype IndexCheck = IndexCheck(kind: IndexKind, index: int)

  function Capacity(kind: IndexKind, joy: JoyMsg): nat {
    match kind
    case ButtonIndex => |joy.buttons|
    case AxisIndex => |joy.axes|
  }

  /** A negative index means "disabled" and always fits. */
  predicate Fits(check: IndexCheck, joy: JoyMsg) {
    check.index < 0 || check.index < Capacity(check.kind, joy)
  }

  /** The checks in the order the validator performs them. */
  function Checks(cfg: Config): seq<IndexCheck> {
    [ IndexCheck(ButtonIndex, cfg.scaleButton),
      IndexCheck(ButtonIndex, cfg.deadmanButton),
      IndexCheck(AxisIndex, cfg.axisVx),
      IndexCheck(AxisIndex, cfg.axisVy),
      IndexCheck(AxisIndex, cfg.axisVw),
      IndexCheck(AxisIndex, cfg.axisVxDiscrete),
      IndexCheck(AxisIndex, cfg.axisVyDiscrete),
      IndexCheck(AxisIndex, cfg.axisVwDiscrete) ]
  }

  /** Position of the first check that fails, the one whose error the
      validator reports before returning false; None when all pass. */
  function FirstMissing(checks: seq<IndexCheck>, joy: JoyMsg): (r: Option<nat>)
    ensures r.None? <==> forall i :: 0 <= i < |checks| ==> Fits(checks[i], joy)
    ensures r.Some? ==>
              && r.value < |checks|
              && !Fits(checks[r.value], joy)
              && forall j :: 0 <= j < r.value ==> Fits(checks[j], joy)
    decreases |checks|
  {
    if |checks| == 0 then None
    else if !Fits(checks[0], joy) then Some(0)
    else
      match FirstMissing(checks[1..], joy)
      case None => None
      case Some(k) => Some(k + 1)
  }

  /** The validator: true exactly when both button indices and all six axis
      indices are disabled or inside the snapshot's arrays. */
  function ButtonsOK(cfg: Config, joy: JoyMsg): (ok: bool)
    ensures ok <==>
              && (cfg.scaleButton < 0 || cfg.scaleButton < |joy.buttons|)
              && (cfg.deadmanButton < 0 || cfg.deadmanButton < |joy.buttons|)
              && (forall c :: cfg.Axis(c) < 0 || cfg.Axis(c) < |joy.axes|)
              && (forall c :: cfg.Discrete(c) < 0 || cfg.Discrete(c) < |joy.axes|)
  {
    ChecksMatchConfig(cfg, joy);
    FirstMissing(Checks(cfg), joy).None?
  }

  /** Every check passing is the same as every configured index fitting. */
  lemma ChecksMatchConfig(cfg: Config, joy: JoyMsg)
    ensures (forall i :: 0 <= i < |Checks(cfg)| ==> Fits(Checks(cfg)[i], joy)) <==>
              && (cfg.scaleButton < 0 || cfg.scaleButton < |joy.buttons|)
              && (cfg.deadmanButton < 0 || cfg.deadmanButton < |joy.buttons|)
              && (forall c :: cfg.Axis(c) < 0 || cfg.Axis(c) < |joy.axes|)
              && (forall c :: cfg.Discrete(c) < 0 || cfg.Discrete(c) < |joy.axes|)
  {
    var checks := Checks(cfg);
    if forall i :: 0 <= i < |checks| ==> Fits(checks[i], joy) {
      assert Fits(checks[2], joy) && Fits(checks[3], joy) && Fits(checks[4], joy);
      assert Fits(checks[5], joy) && Fits(checks[6], joy) && Fits(checks[7], joy);
      forall c: Component
        ensures cfg.Axis(c) < 0 || cfg.Axis(c) < |joy.axes|
        ensures cfg.Discrete(c) < 0 || cfg.Discrete(c) < |joy.axes|
      {
        match c
        case Vx =>
        case Vy =>
        case Vw =>
      }
      assert Fits(checks[0], joy) && Fits(checks[1], joy);
    }
    if && (cfg.scaleButton < 0 || cfg.scaleButton < |joy.buttons|)
       && (cfg.deadmanButton < 0 || cfg.deadmanButton < |joy.buttons|)
       && (forall c :: cfg.Axis(c) < 0 || cfg.Axis(c) < |joy.axes|)
       && (forall c :: cfg.Discrete(c) < 0 || cfg.Discrete(c) < |joy.axes|)
    {
      assert cfg.Axis(Vx) < 0 || cfg.Axis(Vx) < |joy.axes|;
      assert cfg.Axis(Vy) < 0 || cfg.Axis(Vy) < |joy.axes|;
      assert cfg.Axis(Vw) < 0 || cfg.Axis(Vw) < |joy.axes|;
      assert cfg.Discrete(Vx) < 0 || cfg.Discrete(Vx) < |joy.axes|;
      assert cfg.Discrete(Vy) < 0 || cfg.Discrete(Vy) < |joy.axes|;
      assert cfg.Discrete(Vw) < 0 || cfg.Discrete(Vw) < |joy.axes|;
    }
  }

  /** Disabling any one index (making it negative) never turns a passing
      validation into a failing one. */
  lemma DisablingNeverBreaksValidation(cfg: Config, joy: JoyMsg, c: Component)
    requires ButtonsOK(cfg, joy)
    ensures ButtonsOK(cfg.(scaleButton := -1), joy)
    ensures ButtonsOK(cfg.(deadmanButton := -1), joy)
    ensures ButtonsOK(cfg.DisableAxis(c), joy)
    ensures ButtonsOK(cfg.DisableDiscrete(c), joy)
  {
    var d := cfg.(deadmanButton := -1);
    var a := cfg.DisableAxis(c);
    var k := cfg.DisableDiscrete(c);
    forall e: Component
      ensures d.Axis(e) == cfg.Axis(e) && d.Discrete(e) == cfg.Discrete(e)
      ensures a.Axis(e) < 0 || a.Axis(e) < |joy.axes|
      ensures k.Discrete(e) < 0 || k.Discrete(e) < |joy.axes|
    {
      assert cfg.Axis(e) < 0 || cfg.Axis(e) < |joy.axes|;
      assert cfg.Discrete(e) < 0 || cfg.Discrete(e) < |joy.axes|;
    }
  }

  /** With the default parameters a snapshot passes validation exactly when
      the device reports at least six buttons and eight axes. */
  lemma DefaultsNeedSixButtonsEightAxes(joy: JoyMsg)
    ensures ButtonsOK(Defaults(), joy) <==> |joy.buttons| >= 6 && |joy.axes| >= 8
  {
  }

  /** With every index disabled the validator accepts any snapshot, even one
      with no axes and no buttons at all. */
  lemma AllDisabledAlwaysValid(cfg: Config, joy: JoyMsg)
    requires cfg.scaleButton < 0 && cfg.deadmanButton < 0
    requires forall c :: cfg.Axis(c) < 0 && cfg.Discrete(c) < 0
    ensures ButtonsOK(cfg, joy)
  {
  }
}
