/**
 * The animation clip clean-up wizard: the same two passes as the expression wizard,
 * with each setting read from a boolean field of the wizard instead of a flag bit.
 */
module AnimationCleaner {
  import opened AnimationData
  import opened CurveRules
  import CurvePasses

  /** The wizard: the selected clips and one boolean field per setting. */
  class AnimationCleaner {
    var clips: seq<Clip>
    var shareCommonProperties: bool
    var removeUnusedCurves: bool
    var addKeyframeIfEmpty: bool
    var forceFirstKeyTimeZero: bool
    var keepOnlyFirstKeyframe: bool
    var atLeastTwoKeyframes: bool
    var isValid: bool

    /** The field initialisers, then `OnEnable` with the clips found in the selection. */
    constructor (selected: seq<Clip>)
      ensures clips == selected && Settings() == DefaultOptions
      ensures isValid == (|selected| > 0)
    {
      clips := selected;
      shareCommonProperties := false;
      removeUnusedCurves := true;
      addKeyframeIfEmpty := false;
      forceFirstKeyTimeZero := true;
      keepOnlyFirstKeyframe := true;
      atLeastTwoKeyframes := false;
      isValid := |selected| > 0;
    }

    /** The settings the six fields stand for. */
    function Settings(): Options
      reads this
    {
      Options(shareCommonProperties, removeUnusedCurves, addKeyframeIfEmpty,
              forceFirstKeyTimeZero, keepOnlyFirstKeyframe, atLeastTwoKeyframes)
    }

    /** `OnValidate`: the wizard can run iff a clip is listed. */
    method OnValidate()
      modifies this`isValid
      ensures isValid == (|clips| > 0)
    {
      isValid := |clips| > 0;
    }

    /**
     * `CleanUp`: every listed clip ends as `CleanClip` of its original curves under the
     * common pairs of all original clips, with both loop settings off; the wizard's own
     * fields are left as they were.
     */
    method CleanUp()
      modifies set c | c in clips
      ensures forall i :: 0 <= i < |clips| ==>
        && clips[i].curves == CleanClip(old(clips[i].curves), CommonProps(old(CurvesOf(clips)), Settings()), Settings())
        && !clips[i].loopTime && !clips[i].loopBlend
    {
      CurvePasses.CleanUp(clips, Settings());
    }

    /** `OnWizardCreate`: run `CleanUp`. */
    method OnWizardCreate()
      modifies set c | c in clips
      ensures forall i :: 0 <= i < |clips| ==>
        && clips[i].curves == CleanClip(old(clips[i].curves), CommonProps(old(CurvesOf(clips)), Settings()), Settings())
        && !clips[i].loopTime && !clips[i].loopBlend
    {
      CleanUp();
    }
  }
}
