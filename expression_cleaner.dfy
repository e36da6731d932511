/**
 * The expression clip clean-up wizard: its settings travel as a flag set, one bit
 * per setting, and `CleanUp` makes the two passes of `CurvePasses` under them.
 */
module ExpressionCleaner {
  import opened AnimationData
  import opened CurveRules
  import CurvePasses

  /** `ExpressionCleaner.Flags`, one bit per setting. */
  type Flags = bv32

  const ShareCommonProperties: Flags := 0x01
  const RemoveUnusedCurves: Flags := 0x02
  const AddKeyframeIfEmpty: Flags := 0x04
  const ForceFirstKeyTimeZero: Flags := 0x08
  const KeepOnlyFirstKeyframe: Flags := 0x10
  const AtLeastTwoKeyframes: Flags := 0x20

  /** `(flags & flag) != 0` */
  predicate Has(flags: Flags, flag: Flags) {
    flags & flag != 0
  }

  /** The settings a flag set stands for. */
  function OptionsOf(flags: Flags): Options {
    Options(
      Has(flags, ShareCommonProperties),
      Has(flags, RemoveUnusedCurves),
      Has(flags, AddKeyframeIfEmpty),
      Has(flags, ForceFirstKeyTimeZero),
      Has(flags, KeepOnlyFirstKeyframe),
      Has(flags, AtLeastTwoKeyframes))
  }

  /**
   * `CleanUp`: the two passes, with each setting read from its bit. Every clip ends as
   * `CleanClip` of its original curves under the common pairs of all original clips.
   */
  method CleanUp(clips: seq<Clip>, flags: Flags)
    modifies set c | c in clips
    ensures forall i :: 0 <= i < |clips| ==>
      && clips[i].curves == CleanClip(old(clips[i].curves), CommonProps(old(CurvesOf(clips)), OptionsOf(flags)), OptionsOf(flags))
      && !clips[i].loopTime && !clips[i].loopBlend
  {
    CurvePasses.CleanUp(clips, OptionsOf(flags));
  }

  /** The wizard: the selected clips and one boolean field per flag. */
  class ExpressionCleaner {
    var clips: seq<Clip>
    var shareCommonProperties: bool
    var removeUnusedCurves: bool
    var addKeyframeIfEmpty: bool
    var forceFirstKeyTimeZero: bool
    var keepOnlyFirstKeyframe: bool
    var atLeastTwoKeyframes: bool
    var isValid: bool

    /** The field initialisers, then `OnEnable` with the clips found in the selection. */
    constructor (selected: seq<Clip>)
      ensures clips == selected && Settings() == DefaultOptions
      ensures isValid == (|selected| > 0)
    {
      clips := selected;
      shareCommonProperties := false;
      removeUnusedCurves := true;
      addKeyframeIfEmpty := false;
      forceFirstKeyTimeZero := true;
      keepOnlyFirstKeyframe := true;
      atLeastTwoKeyframes := false;
      isValid := |selected| > 0;
    }

    function Settings(): Options
      reads this
    {
      Options(shareCommonProperties, removeUnusedCurves, addKeyframeIfEmpty,
              forceFirstKeyTimeZero, keepOnlyFirstKeyframe, atLeastTwoKeyframes)
    }

    /** `OnValidate`: the wizard can run iff a clip is listed. */
    method OnValidate()
      modifies this`isValid
      ensures isValid == (|clips| > 0)
    {
      isValid := |clips| > 0;
    }

    /** The flag set `OnWizardCreate` builds from the fields: each flag set iff its field is. */
    method WizardFlags() returns (flags: Flags)
      ensures OptionsOf(flags) == Settings()
      ensures flags & !0x3F == 0
    {
      flags := 0;
      if shareCommonProperties {
        flags := flags | ShareCommonProperties;
      }
      if removeUnusedCurves {
        flags := flags | RemoveUnusedCurves;
      }
      if addKeyframeIfEmpty {
        flags := flags | AddKeyframeIfEmpty;
      }
      if forceFirstKeyTimeZero {
        flags := flags | ForceFirstKeyTimeZero;
      }
      if keepOnlyFirstKeyframe {
        flags := flags | KeepOnlyFirstKeyframe;
      }
      if atLeastTwoKeyframes {
        flags := flags | AtLeastTwoKeyframes;
      }
    }

    /** `OnWizardCreate`: clean up the listed clips with the fields' settings. */
    method OnWizardCreate()
      modifies set c | c in clips
      ensures forall i :: 0 <= i < |clips| ==>
        && clips[i].curves == CleanClip(old(clips[i].curves), CommonProps(old(CurvesOf(clips)), Settings()), Settings())
        && !clips[i].loopTime && !clips[i].loopBlend
    {
      var flags := WizardFlags();
      CleanUp(clips, flags);
    }
  }
}
