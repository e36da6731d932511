/**
 * The rules both clip clean-up wizards apply: when a blendshape curve is "in use",
 * how a key array is normalised, which (path, property) pairs are common to all
 * clips, and what the curve table of one clip looks like after clean-up.
 * The two wizards differ only in where they read their settings from
 * (a flag set or six boolean fields); both are proved against these functions.
 */
module CurveRules {
  import opened Wrappers
  import opened AnimationData

  /** The six clean-up settings, one boolean per flag of the same name. */
  datatype Options = Options(
    shareCommonProperties: bool,
    removeUnusedCurves: bool,
    addKeyframeIfEmpty: bool,
    forceFirstKeyTimeZero: bool,
    keepOnlyFirstKeyframe: bool,
    atLeastTwoKeyframes: bool)

  /** The initial values of the wizards' setting fields. */
  const DefaultOptions: Options := Options(false, true, false, true, true, false)

  /** A (path, propertyName) pair: a blendshape channel independent of the clip. */
  type Prop = (string, string)

  /**
   * `Mathf.Approximately(v, 0)` holds iff |v| < 8 * Mathf.Epsilon, where Mathf.Epsilon
   * is the smallest positive single-precision value, 1.401298e-45.
   */
  const Tolerance: real := 0.00000000000000000000000000000000000000000001121038

  predicate NearZero(v: real) {
    -Tolerance < v < Tolerance
  }

  /** `IsCurveBeingUsed`: a curve is in use iff it has a key and its first key's value is not near zero. */
  function IsCurveBeingUsed(keys: seq<Key>): (used: bool)
    ensures |keys| == 0 ==> !used
    ensures |keys| > 0 ==> (used <==> !NearZero(keys[0].value))
  {
    |keys| > 0 && !NearZero(keys[0].value)
  }

  /** One frame at 30 frames per second: `1f / 30f`. */
  const FrameTime: real := 1.0 / 30.0

  // ---------------------------------------------------------------------------
  // ValidateCurve, step by step

  /** The `ForceFirstKeyTimeZero` step. */
  function ZeroFirstTime(keys: seq<Key>): (r: seq<Key>)
    requires |keys| > 0
    ensures |r| == |keys| && r[0] == Key(0.0, keys[0].value) && r[1..] == keys[1..]
  {
    keys[0 := keys[0].(time := 0.0)]
  }

  /** The `KeepOnlyFirstKeyframe` step: resizing a non-empty array to length 1. */
  function FirstOnly(keys: seq<Key>): (r: seq<Key>)
    requires |keys| > 0
    ensures r == [keys[0]]
  {
    keys[..1]
  }

  /** The `AtLeastTwoKeyframes` step: a single key gets a copy one frame later. */
  function PadToTwo(keys: seq<Key>): (r: seq<Key>)
    requires |keys| > 0
    ensures |keys| >= 2 ==> r == keys
    ensures |keys| == 1 ==> |r| == 2 && r[0] == keys[0]
    ensures |keys| == 1 ==> r[1].value == r[0].value && r[1].time == r[0].time + FrameTime
  {
    if |keys| < 2 then keys + [Key(keys[0].time + FrameTime, keys[0].value)] else keys
  }

  /** Value and time of the first key the pipeline starts from (a default key for an empty curve). */
  function FirstValue(keys: seq<Key>): real {
    if |keys| == 0 then DefaultKey.value else keys[0].value
  }

  function FirstTime(keys: seq<Key>): real {
    if |keys| == 0 then DefaultKey.time else keys[0].time
  }

  /**
   * The key array `ValidateCurve` writes back, or None when it returns early
   * (an empty curve without `AddKeyframeIfEmpty`).
   */
  function ValidatedKeys(keys: seq<Key>, o: Options): Option<seq<Key>> {
    if |keys| == 0 && !o.addKeyframeIfEmpty then None
    else
      var k0 := if |keys| == 0 then [DefaultKey] else keys;
      var k1 := if o.forceFirstKeyTimeZero then ZeroFirstTime(k0) else k0;
      var k2 := if o.keepOnlyFirstKeyframe then FirstOnly(k1) else k1;
      var k3 := if o.atLeastTwoKeyframes then PadToTwo(k2) else k2;
      Some(k3)
  }

  /**
   * What `ValidateCurve` writes: nothing for an empty curve without AddKeyframeIfEmpty;
   * otherwise at least one key, the first key's value kept, its time zeroed iff
   * ForceFirstKeyTimeZero, exactly one key with KeepOnlyFirstKeyframe alone, exactly two
   * with AtLeastTwoKeyframes as well or when at most one key came in, a padded second key one frame after the first,
   * and the later keys untouched when nothing truncates or pads.
   */
  lemma ValidatedKeysSpec(keys: seq<Key>, o: Options)
    ensures var r := ValidatedKeys(keys, o);
      && (r.None? <==> |keys| == 0 && !o.addKeyframeIfEmpty)
      && (r.Some? ==> |r.value| >= 1 && r.value[0].value == FirstValue(keys))
      && (r.Some? ==> r.value[0].time == if o.forceFirstKeyTimeZero then 0.0 else FirstTime(keys))
      && (r.Some? && o.keepOnlyFirstKeyframe ==> |r.value| == if o.atLeastTwoKeyframes then 2 else 1)
      && (r.Some? && o.atLeastTwoKeyframes ==> |r.value| >= 2)
      && (r.Some? && o.atLeastTwoKeyframes && |keys| <= 1 ==> |r.value| == 2)
      && (r.Some? && o.atLeastTwoKeyframes && (o.keepOnlyFirstKeyframe || |keys| <= 1) ==>
            r.value[1] == Key(r.value[0].time + FrameTime, r.value[0].value))
      && (r.Some? && !o.keepOnlyFirstKeyframe && |keys| >= 2 ==> r.value[1..] == keys[1..])
      && (r.Some? && !o.keepOnlyFirstKeyframe && !o.atLeastTwoKeyframes ==>
            |r.value| == if |keys| == 0 then 1 else |keys|)
  {
  }

  /** The curve after `ValidateCurve`: what it writes back, or the curve it left alone. */
  function Validated(keys: seq<Key>, o: Options): seq<Key> {
    match ValidatedKeys(keys, o)
    case None => keys
    case Some(written) => written
  }

  /** `GetEditorCurve`, with a missing curve read as a new, empty one. */
  function CurveAt(curves: Curves, b: Binding): seq<Key> {
    if b in curves then curves[b] else []
  }

  /** The effect of `ValidateCurve(clip, b, …)` on the clip's curve table. */
  function ValidateIn(curves: Curves, b: Binding, o: Options): Curves {
    match ValidatedKeys(CurveAt(curves, b), o)
    case None => curves
    case Some(written) => curves[b := written]
  }

  /** Validating twice gives what validating once gives. */
  lemma ValidatedIdempotent(keys: seq<Key>, o: Options)
    ensures Validated(Validated(keys, o), o) == Validated(keys, o)
  {
    var once := Validated(keys, o);
    ValidatedKeysSpec(keys, o);
    if ValidatedKeys(keys, o).Some? {
      ValidatedKeysSpec(once, o);
      var twice := ValidatedKeys(once, o).value;
      assert |once| >= 1;
      if o.keepOnlyFirstKeyframe {
        assert |twice| == |once|;
        if o.atLeastTwoKeyframes {
          assert twice[1] == once[1];
        }
      } else if |once| >= 2 {
        assert twice[1..] == once[1..];
      }
      assert twice[0] == once[0];
      assert twice == once;
    }
  }

  /** Validation keeps the first key's value, so a curve in use stays in use. */
  lemma ValidatedKeepsUse(keys: seq<Key>, o: Options)
    requires IsCurveBeingUsed(keys)
    ensures IsCurveBeingUsed(Validated(keys, o))
  {
    ValidatedKeysSpec(keys, o);
  }

  // ---------------------------------------------------------------------------
  // Common properties

  predicate IsBlendshape(b: Binding) {
    b.bindingType == SkinnedMeshRenderer
  }

  function Pair(b: Binding): Prop {
    (b.path, b.propertyName)
  }

  /** The binding the second pass synthesises for a missing common pair. */
  function BlendshapeBinding(p: Prop): (b: Binding)
    ensures IsBlendshape(b) && Pair(b) == p
  {
    Binding(p.0, p.1, SkinnedMeshRenderer)
  }

  /** The binding `b` of a clip adds its pair to the common set. */
  predicate Contributes(curves: Curves, b: Binding, o: Options) {
    b in curves && IsBlendshape(b) && (!o.removeUnusedCurves || IsCurveBeingUsed(curves[b]))
  }

  /** The pairs the bindings among `done` add to the common set. */
  function ContributedAmong(curves: Curves, done: set<Binding>, o: Options): set<Prop> {
    set b | b in done && Contributes(curves, b, o) :: Pair(b)
  }

  function ClipProps(curves: Curves, o: Options): set<Prop> {
    ContributedAmong(curves, curves.Keys, o)
  }

  /** One more binding of the first pass. */
  lemma ContributedStep(curves: Curves, done: set<Binding>, b: Binding, o: Options)
    ensures ContributedAmong(curves, done + {b}, o) ==
      ContributedAmong(curves, done, o) + if Contributes(curves, b, o) then {Pair(b)} else {}
  {
  }

  /** One more clip of the first pass. */
  lemma CommonPropsStep(all: seq<Curves>, curves: Curves, o: Options)
    ensures CommonProps(all + [curves], o) ==
      if o.shareCommonProperties then CommonProps(all, o) + ClipProps(curves, o) else {}
  {
    assert (all + [curves])[..|all|] == all;
  }

  /**
   * `commonProps` after the first pass, clip by clip: empty unless sharing, otherwise the
   * pairs of every blendshape binding of every clip, only those in use when removing unused curves.
   */
  function CommonProps(all: seq<Curves>, o: Options): set<Prop> {
    if !o.shareCommonProperties || |all| == 0 then {}
    else CommonProps(all[..|all| - 1], o) + ClipProps(all[|all| - 1], o)
  }

  /**
   * The common set is empty unless sharing; otherwise it holds exactly the pairs of the
   * blendshape bindings of all clips, restricted to curves in use iff RemoveUnusedCurves.
   */
  lemma {:induction false} CommonPropsSpec(all: seq<Curves>, o: Options)
    ensures forall p :: p in CommonProps(all, o) <==>
      o.shareCommonProperties && exists i, b :: 0 <= i < |all| && Contributes(all[i], b, o) && Pair(b) == p
  {
    if o.shareCommonProperties && |all| > 0 {
      var init := all[..|all| - 1];
      CommonPropsSpec(init, o);
      forall p ensures p in CommonProps(all, o) <==> exists i, b :: 0 <= i < |all| && Contributes(all[i], b, o) && Pair(b) == p {
        if p in CommonProps(all, o) {
          if p in CommonProps(init, o) {
            var i, b :| 0 <= i < |init| && Contributes(init[i], b, o) && Pair(b) == p;
            assert all[i] == init[i];
          }
        }
        if exists i, b :: 0 <= i < |all| && Contributes(all[i], b, o) && Pair(b) == p {
          var i, b :| 0 <= i < |all| && Contributes(all[i], b, o) && Pair(b) == p;
          if i < |init| {
            assert init[i] == all[i];
          }
        }
      }
    }
  }

  /** One more binding of the second pass, as `missingProps` sees it. */
  lemma PairsOfStep(done: set<Binding>, b: Binding)
    ensures PairsOf(done + {b}) == PairsOf(done) + if IsBlendshape(b) then {Pair(b)} else {}
  {
    var lhs := PairsOf(done + {b});
    var rhs := PairsOf(done) + if IsBlendshape(b) then {Pair(b)} else {};
    forall p ensures p in lhs <==> p in rhs {
      assert BlendshapeBinding(p) == b ==> p == Pair(b);
      assert IsBlendshape(b) && p == Pair(b) ==> BlendshapeBinding(p) == b;
    }
  }

  /** The pairs of the blendshape bindings among `bs`. */
  function PairsOf(bs: set<Binding>): (ps: set<Prop>)
    ensures forall p :: p in ps <==> BlendshapeBinding(p) in bs
  {
    var ps := set b | b in bs && IsBlendshape(b) :: Pair(b);
    assert forall p :: BlendshapeBinding(p) in bs ==> p in ps by {
      forall p | BlendshapeBinding(p) in bs ensures p in ps {
        assert Pair(BlendshapeBinding(p)) == p;
      }
    }
    ps
  }

  // ---------------------------------------------------------------------------
  // The second pass over one clip

  /** Whether the second pass keeps (and validates) the blendshape binding `b`. */
  predicate Keep(curves: Curves, b: Binding, common: set<Prop>, o: Options)
    requires b in curves
  {
    if o.shareCommonProperties then Pair(b) in common else IsCurveBeingUsed(curves[b])
  }

  /**
   * The curve table once the bindings in `done` have been visited: a visited blendshape
   * binding is validated or deleted, every other binding is as it was.
   */
  function CleanBindings(orig: Curves, done: set<Binding>, common: set<Prop>, o: Options): Curves {
    map b | b in orig && (b !in done || !IsBlendshape(b) || Keep(orig, b, common, o)) ::
      if b in done && IsBlendshape(b) then Validated(orig[b], o) else orig[b]
  }

  /** One new curve `keys` for each pair in `added`, under its blendshape binding. */
  function Synthesised(added: set<Prop>, keys: seq<Key>): (m: Curves)
    ensures forall b :: b in m <==> IsBlendshape(b) && Pair(b) in added
    ensures forall b :: b in m ==> m[b] == keys
  {
    var m := map p | p in added :: BlendshapeBinding(p) := keys;
    assert forall b :: IsBlendshape(b) && Pair(b) in added ==> b in m by {
      forall b | IsBlendshape(b) && Pair(b) in added ensures b in m {
        assert BlendshapeBinding(Pair(b)) == b;
      }
    }
    m
  }

  /** The curves synthesised for the common pairs in `added` that the clip lacked. */
  function AddMissing(curves: Curves, added: set<Prop>, o: Options): Curves {
    match ValidatedKeys([], o)
    case None => curves
    case Some(created) => curves + Synthesised(added, created)
  }

  /** The curve table of a clip after `CleanUp`, given the common pairs of the first pass. */
  function CleanClip(curves: Curves, common: set<Prop>, o: Options): Curves {
    var cleaned := CleanBindings(curves, curves.Keys, common, o);
    if o.shareCommonProperties then AddMissing(cleaned, common - PairsOf(curves.Keys), o) else cleaned
  }

  /** What the second pass leaves of a clip's curve table, binding by binding. */
  lemma CleanClipSpec(curves: Curves, common: set<Prop>, o: Options)
    ensures var r := CleanClip(curves, common, o);
      // other component types pass through untouched and are never created
      && (forall b :: b in curves && !IsBlendshape(b) ==> b in r && r[b] == curves[b])
      && (forall b :: b in r && !IsBlendshape(b) ==> b in curves)
      // a kept curve is the validated original
      && (forall b :: b in r && b in curves && IsBlendshape(b) ==> r[b] == Validated(curves[b], o))
      // without sharing: kept iff in use, and nothing is created
      && (!o.shareCommonProperties ==>
            forall b :: b in curves && IsBlendshape(b) ==> (b in r <==> IsCurveBeingUsed(curves[b])))
      && (!o.shareCommonProperties ==> r.Keys <= curves.Keys)
      // with sharing: kept iff common, nothing outside the common pairs survives,
      // and a common pair the clip lacked is created iff AddKeyframeIfEmpty
      && (o.shareCommonProperties ==>
            forall b :: b in curves && IsBlendshape(b) ==> (b in r <==> Pair(b) in common))
      && (o.shareCommonProperties ==> forall b :: b in r && IsBlendshape(b) ==> Pair(b) in common)
      && (o.shareCommonProperties ==> forall p :: p in common && BlendshapeBinding(p) !in curves ==>
            (BlendshapeBinding(p) in r <==> o.addKeyframeIfEmpty))
      && (forall b :: b in r && b !in curves ==>
            o.shareCommonProperties && o.addKeyframeIfEmpty && r[b] == Validated([], o))
  {
  }

  /** One binding of the second pass: the table after it, in terms of the table before it. */
  lemma CleanBindingsStep(orig: Curves, done: set<Binding>, b: Binding, common: set<Prop>, o: Options)
    requires b in orig && b !in done
    ensures var before := CleanBindings(orig, done, common, o);
      && b in before && before[b] == orig[b]
      && CleanBindings(orig, done + {b}, common, o) ==
           if !IsBlendshape(b) then before
           else if Keep(orig, b, common, o) then ValidateIn(before, b, o)
           else before - {b}
  {
    var before := CleanBindings(orig, done, common, o);
    var after := CleanBindings(orig, done + {b}, common, o);
    var expected := if !IsBlendshape(b) then before
      else if Keep(orig, b, common, o) then ValidateIn(before, b, o)
      else before - {b};
    assert after.Keys == expected.Keys;
    forall x | x in after ensures after[x] == expected[x] {
      if x == b && IsBlendshape(b) && Keep(orig, b, common, o) {
        assert CurveAt(before, b) == orig[b];
      }
    }
  }

  /** Synthesising one more missing pair. */
  lemma AddMissingStep(cleaned: Curves, added: set<Prop>, p: Prop, o: Options)
    requires BlendshapeBinding(p) !in cleaned && p !in added
    ensures BlendshapeBinding(p) !in AddMissing(cleaned, added, o)
    ensures AddMissing(cleaned, added + {p}, o) == ValidateIn(AddMissing(cleaned, added, o), BlendshapeBinding(p), o)
  {
    match ValidatedKeys([], o)
    case None =>
    case Some(created) =>
      var b := BlendshapeBinding(p);
      var before := cleaned + Synthesised(added, created);
      assert b !in before;
      assert CurveAt(before, b) == [];
      SynthesisedStep(added, p, created);
      UnionUpdate(cleaned, Synthesised(added, created), b, created);
  }

  /** `Synthesised` with one more pair is one more map entry. */
  lemma SynthesisedStep(added: set<Prop>, p: Prop, keys: seq<Key>)
    ensures Synthesised(added + {p}, keys) == Synthesised(added, keys)[BlendshapeBinding(p) := keys]
  {
    var lhs := Synthesised(added + {p}, keys);
    var rhs := Synthesised(added, keys)[BlendshapeBinding(p) := keys];
    assert lhs.Keys == rhs.Keys;
  }

  /** Updating the right operand of a map union updates the union. */
  lemma UnionUpdate(m: Curves, n: Curves, b: Binding, v: seq<Key>)
    ensures m + n[b := v] == (m + n)[b := v]
  {
    assert (m + n[b := v]).Keys == ((m + n)[b := v]).Keys;
  }

  /** Cleaning a clip a second time with the same common pairs changes nothing. */
  lemma CleanClipIdempotent(curves: Curves, common: set<Prop>, o: Options)
    ensures CleanClip(CleanClip(curves, common, o), common, o) == CleanClip(curves, common, o)
  {
    var once := CleanClip(curves, common, o);
    var twice := CleanClip(once, common, o);
    CleanClipSpec(curves, common, o);
    CleanClipSpec(once, common, o);
    forall b | b in once ensures b in twice && twice[b] == once[b] {
      if IsBlendshape(b) {
        if b in curves {
          ValidatedIdempotent(curves[b], o);
          if !o.shareCommonProperties {
            ValidatedKeepsUse(curves[b], o);
          }
        } else {
          ValidatedIdempotent([], o);
        }
      }
    }
    forall b | b in twice ensures b in once {
    }
    assert twice.Keys == once.Keys;
  }

  /**
   * With the default settings every surviving blendshape curve is a single key at
   * time 0 whose value is not near zero, and every unused blendshape curve is deleted.
   */
  lemma DefaultCleanUp(curves: Curves, common: set<Prop>)
    ensures var r := CleanClip(curves, common, DefaultOptions);
      && (forall b :: b in r && IsBlendshape(b) ==>
            |r[b]| == 1 && r[b][0].time == 0.0 && !NearZero(r[b][0].value))
      && (forall b :: b in curves && IsBlendshape(b) && !IsCurveBeingUsed(curves[b]) ==> b !in r)
  {
    var r: Curves := CleanClip(curves, common, DefaultOptions);
    CleanClipSpec(curves, common, DefaultOptions);
    forall b: Binding | b in r && IsBlendshape(b)
      ensures |r[b]| == 1 && r[b][0].time == 0.0 && !NearZero(r[b][0].value)
    {
      ValidatedKeepsUse(curves[b], DefaultOptions);
    }
  }

  /**
   * Sharing common properties without removing unused curves deletes no blendshape
   * binding of any clip: every such binding put its own pair into the common set.
   */
  lemma {:induction false} ShareWithoutRemovalKeepsAll(all: seq<Curves>, o: Options, i: nat)
    requires o.shareCommonProperties && !o.removeUnusedCurves && i < |all|
    ensures forall b :: b in all[i] && IsBlendshape(b) ==> b in CleanClip(all[i], CommonProps(all, o), o)
  {
    CommonPropsSpec(all, o);
    CleanClipSpec(all[i], CommonProps(all, o), o);
    forall b | b in all[i] && IsBlendshape(b) ensures Pair(b) in CommonProps(all, o) {
      assert Contributes(all[i], b, o);
    }
  }
}
