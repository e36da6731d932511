/**
 * The animation data the tools work on: keyframes, curve bindings and clips.
 * A clip is a table from bindings to key arrays, plus the two loop settings
 * the clean-up tools reset.
 */
module AnimationData {

  /** A keyframe. Tangents and weights are left out: they are zero in a default keyframe. */
  datatype Key = Key(time: real, value: real)

  /** `default(Keyframe)`: time 0, value 0. */
  const DefaultKey: Key := Key(0.0, 0.0)

  /** The component type a binding animates; only skinned mesh renderers (blendshapes) are cleaned up. */
  datatype BindingType = SkinnedMeshRenderer | OtherComponent(typeName: string)

  /** `EditorCurveBinding`: a hierarchy path, an animated property and the animated component type. */
  datatype Binding = Binding(path: string, propertyName: string, bindingType: BindingType)

  /** The curves of a clip, keyed by binding; a binding is present iff the clip has a curve for it. */
  type Curves = map<Binding, seq<Key>>

  /** `AnimationClip`, changed in place by `SetEditorCurve` and `SetAnimationClipSettings`. */
  class Clip {
    var curves: Curves
    var loopTime: bool
    var loopBlend: bool

    constructor (curves: Curves, loopTime: bool, loopBlend: bool)
      ensures this.curves == curves && this.loopTime == loopTime && this.loopBlend == loopBlend
    {
      this.curves := curves;
      this.loopTime := loopTime;
      this.loopBlend := loopBlend;
    }
  }

  /** The curve tables of a list of clips, read at one moment. */
  function CurvesOf(clips: seq<Clip>): (all: seq<Curves>)
    reads set c | c in clips
    ensures |all| == |clips|
    ensures forall i :: 0 <= i < |clips| ==> all[i] == clips[i].curves
  {
    if clips == [] then [] else CurvesOf(clips[..|clips| - 1]) + [clips[|clips| - 1].curves]
  }

  /** `System.Array.Resize`: a fresh array of length `n`, copying the common prefix and padding with default keys. */
  method Resize(a: array<Key>, n: nat) returns (b: array<Key>)
    ensures fresh(b) && b.Length == n
    ensures forall i :: 0 <= i < n ==> b[i] == if i < a.Length then a[i] else DefaultKey
  {
    b := new Key[n];
    var i := 0;
    while i < n
      invariant 0 <= i <= n
      invariant forall k :: 0 <= k < i ==> b[k] == if k < a.Length then a[k] else DefaultKey
    {
      b[i] := if i < a.Length then a[i] else DefaultKey;
      i := i + 1;
    }
  }

  /**
   * A loop over a snapshot of bindings: taking one more binding out of the unvisited
   * ones adds it to the visited ones.
   */
  lemma VisitOne(all: set<Binding>, rest: set<Binding>, b: Binding)
    requires rest <= all && b in rest
    ensures all - (rest - {b}) == (all - rest) + {b}
  {
  }
}
