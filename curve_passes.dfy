/**
 * The two passes both clean-up wizards make over their clips, written once: the
 * expression wizard reads its settings from a flag set and the animation wizard from
 * its fields, and both hand them here as `Options`. Each method is proved against the
 * specification functions of `CurveRules`.
 */
module CurvePasses {
  import opened Wrappers
  import opened AnimationData
  import opened CurveRules

  /** The first pass of `CleanUp` over the bindings of one clip: adds the pairs they contribute. */
  method CollectFromClip(curves: Curves, o: Options, acc: set<Prop>) returns (commonProps: set<Prop>)
    ensures commonProps == acc + ContributedAmong(curves, curves.Keys, o)
  {
    commonProps := acc;
    var bindings := curves.Keys;
    while bindings != {}
      invariant bindings <= curves.Keys
      invariant commonProps == acc + ContributedAmong(curves, curves.Keys - bindings, o)
      decreases bindings
    {
      var binding :| binding in bindings;
      ContributedStep(curves, curves.Keys - bindings, binding, o);
      VisitOne(curves.Keys, bindings, binding);
      bindings := bindings - {binding};
      if binding.bindingType != SkinnedMeshRenderer {
        // only blendshapes are supported
        continue;
      }
      if o.removeUnusedCurves {
        if !IsCurveBeingUsed(curves[binding]) {
          continue;
        }
      }
      commonProps := commonProps + {(binding.path, binding.propertyName)};
    }
    assert curves.Keys - bindings == curves.Keys;
  }

  /** The first pass of `CleanUp`: the common pairs, read before any clip is changed. */
  method CollectCommonProps(clips: seq<Clip>, o: Options) returns (commonProps: set<Prop>)
    ensures commonProps == CommonProps(CurvesOf(clips), o)
  {
    ghost var all := CurvesOf(clips);
    commonProps := {};
    if o.shareCommonProperties {
      var i := 0;
      while i < |clips|
        invariant 0 <= i <= |clips|
        invariant commonProps == CommonProps(all[..i], o)
      {
        var clip := clips[i];
        commonProps := CollectFromClip(clip.curves, o, commonProps);
        CommonPropsStep(all[..i], all[i], o);
        assert all[..i + 1] == all[..i] + [all[i]];
        i := i + 1;
      }
      assert all[..i] == all;
    }
  }

  /**
   * The key-array work of `ValidateCurve`: `None` when an empty curve is left alone,
   * otherwise the keys to write back.
   */
  method NormaliseKeys(curve: seq<Key>, o: Options) returns (written: Option<seq<Key>>)
    ensures written == ValidatedKeys(curve, o)
  {
    var keys := new Key[|curve|](i requires 0 <= i < |curve| => curve[i]);
    assert keys[..] == curve;
    if keys.Length == 0 {
      if o.addKeyframeIfEmpty {
        keys := new Key[1](_ => DefaultKey);
      } else {
        return None;
      }
    }
    // the successive key sequences `ValidatedKeys` names
    ghost var k0 := keys[..];
    assert k0 == if |curve| == 0 then [DefaultKey] else curve;
    ghost var k1 := k0;
    if o.forceFirstKeyTimeZero {
      keys[0] := keys[0].(time := 0.0);
      k1 := ZeroFirstTime(k0);
      assert keys[..] == k1;
    }
    ghost var k2 := k1;
    if o.keepOnlyFirstKeyframe {
      keys := Resize(keys, 1);
      k2 := FirstOnly(k1);
      assert keys[..] == k2;
    }
    ghost var k3 := k2;
    if o.atLeastTwoKeyframes {
      k3 := PadToTwo(k2);
    }
    if o.atLeastTwoKeyframes && keys.Length < 2 {
      keys := Resize(keys, 2);
      keys[1] := keys[1].(value := keys[0].value);
      keys[1] := keys[1].(time := keys[0].time + 1.0 / 30.0);
      assert keys[..] == [k2[0], Key(k2[0].time + FrameTime, k2[0].value)];
    }
    assert keys[..] == k3;
    return Some(keys[..]);
  }

  /** `ValidateCurve`: normalises the key array of one binding and writes it back. */
  method ValidateCurve(clip: Clip, binding: Binding, o: Options)
    modifies clip`curves
    ensures clip.curves == ValidateIn(old(clip.curves), binding, o)
  {
    var written := NormaliseKeys(CurveAt(clip.curves, binding), o);
    if written.Some? {
      clip.curves := clip.curves[binding := written.value];
    }
  }

  /**
   * The binding loop of the second pass over one clip: each blendshape binding is
   * validated or deleted; the pairs of the clip's bindings leave `missingProps`.
   */
  method CleanBindingsInPlace(clip: Clip, commonProps: set<Prop>, o: Options) returns (missingProps: set<Prop>)
    modifies clip`curves
    ensures clip.curves == CleanBindings(old(clip.curves), old(clip.curves).Keys, commonProps, o)
    ensures missingProps == commonProps - PairsOf(old(clip.curves).Keys)
  {
    ghost var orig := clip.curves;
    missingProps := commonProps;
    var bindings := clip.curves.Keys;
    while bindings != {}
      invariant bindings <= orig.Keys
      invariant clip.curves == CleanBindings(orig, orig.Keys - bindings, commonProps, o)
      invariant missingProps == commonProps - PairsOf(orig.Keys - bindings)
      decreases bindings
    {
      var binding :| binding in bindings;
      ghost var done := orig.Keys - bindings;
      CleanBindingsStep(orig, done, binding, commonProps, o);
      PairsOfStep(done, binding);
      VisitOne(orig.Keys, bindings, binding);
      bindings := bindings - {binding};
      if binding.bindingType != SkinnedMeshRenderer {
        // only blendshapes are supported
        continue;
      }
      var isCurveBeingUsed;
      if o.shareCommonProperties {
        isCurveBeingUsed := (binding.path, binding.propertyName) in commonProps;
      } else {
        isCurveBeingUsed := IsCurveBeingUsed(clip.curves[binding]);
      }
      if isCurveBeingUsed {
        ValidateCurve(clip, binding, o);
      } else {
        clip.curves := clip.curves - {binding};
      }
      missingProps := missingProps - {(binding.path, binding.propertyName)};
    }
    assert orig.Keys - bindings == orig.Keys;
  }

  /** The loop over the missing common pairs: each gets a curve through `ValidateCurve`. */
  method AddMissingInPlace(clip: Clip, missingProps: set<Prop>, o: Options)
    requires forall p :: p in missingProps ==> BlendshapeBinding(p) !in clip.curves
    modifies clip`curves
    ensures clip.curves == AddMissing(old(clip.curves), missingProps, o)
  {
    ghost var cleaned := clip.curves;
    var properties := missingProps;
    while properties != {}
      invariant properties <= missingProps
      invariant clip.curves == AddMissing(cleaned, missingProps - properties, o)
      decreases properties
    {
      var property :| property in properties;
      var binding := Binding(property.0, property.1, SkinnedMeshRenderer);
      assert binding == BlendshapeBinding(property);
      AddMissingStep(cleaned, missingProps - properties, property, o);
      assert missingProps - (properties - {property}) == (missingProps - properties) + {property};
      ValidateCurve(clip, binding, o);
      properties := properties - {property};
    }
    assert missingProps - properties == missingProps;
  }

  /**
   * The second pass of `CleanUp` for one clip, and the reset of its loop settings. The
   * clip holds either its original curves `orig` or, when it is listed a second time,
   * their clean-up; either way it ends with the clean-up of `orig`.
   */
  method CleanClipInPlace(clip: Clip, ghost orig: Curves, commonProps: set<Prop>, o: Options)
    requires clip.curves == orig || clip.curves == CleanClip(orig, commonProps, o)
    modifies clip
    ensures clip.curves == CleanClip(orig, commonProps, o)
    ensures !clip.loopTime && !clip.loopBlend
  {
    if clip.curves != orig {
      CleanClipIdempotent(orig, commonProps, o);
    }
    var missingProps := CleanBindingsInPlace(clip, commonProps, o);
    if o.shareCommonProperties {
      AddMissingInPlace(clip, missingProps, o);
    }
    clip.loopTime := false;
    clip.loopBlend := false;
  }

  /**
   * `CleanUp`: every clip ends as `CleanClip` of its original curves, with the common
   * pairs computed from all original clips, and with both loop settings off. A clip
   * listed twice is cleaned twice, which changes nothing the second time.
   */
  method CleanUp(clips: seq<Clip>, o: Options)
    modifies set c | c in clips
    ensures forall i :: 0 <= i < |clips| ==>
      && clips[i].curves == CleanClip(old(clips[i].curves), CommonProps(old(CurvesOf(clips)), o), o)
      && !clips[i].loopTime && !clips[i].loopBlend
  {
    var commonProps := CollectCommonProps(clips, o);
    ghost var seen: set<Clip> := {};
    var i := 0;
    while i < |clips|
      invariant 0 <= i <= |clips|
      invariant forall j :: 0 <= j < i ==> clips[j] in seen
      invariant forall c :: c in seen ==> c in clips
      invariant forall c :: c in seen ==> c.curves == CleanClip(old(c.curves), commonProps, o)
      invariant forall c :: c in seen ==> !c.loopTime && !c.loopBlend
      invariant forall c :: c in clips && c !in seen ==> c.curves == old(c.curves)
    {
      var clip := clips[i];
      CleanClipInPlace(clip, old(clip.curves), commonProps, o);
      seen := seen + {clip};
      i := i + 1;
    }
  }
}
