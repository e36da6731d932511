/**
 * The binding path renamer: every curve bound under one path moves to another path,
 * keeping its property name, component type and keys.
 */
module PropertyRenamer {
  import opened Wrappers
  import opened AnimationData

  // ---------------------------------------------------------------------------
  // What a rename does to one clip's curve table

  /** The bindings left in place once the bindings in `done` have been visited. */
  function Kept(orig: Curves, done: set<Binding>, path: string): Curves {
    map b | b in orig && !(b in done && b.path == path) :: orig[b]
  }

  /** The curves written under `newPath` for the visited bindings under `path`. */
  function Moves(orig: Curves, done: set<Binding>, path: string, newPath: string): Curves {
    map b | b in orig && b in done && b.path == path :: b.(path := newPath) := orig[b]
  }

  /**
   * The curve table once the snapshot bindings in `done` have been visited: each one
   * under `path` is deleted and its curve written under `newPath`, overwriting any curve there.
   */
  function PartialRename(orig: Curves, done: set<Binding>, path: string, newPath: string): Curves {
    Kept(orig, done, path) + Moves(orig, done, path, newPath)
  }

  /** The curve table after `Rename` has visited every binding of the clip. */
  function Renamed(curves: Curves, path: string, newPath: string): Curves {
    PartialRename(curves, curves.Keys, path, newPath)
  }

  /**
   * What `Renamed` keeps, moves and overwrites: a binding is in the result iff it was
   * off `path`, or it is a binding under `path` moved to `newPath`; a moved curve is the
   * original one, and any other surviving binding keeps its curve.
   */
  lemma RenamedSpec(curves: Curves, path: string, newPath: string)
    ensures var r := Renamed(curves, path, newPath);
      && (forall b :: b in r <==>
            (b in curves && b.path != path) || (b.path == newPath && b.(path := path) in curves))
      && (forall b :: b in curves && b.path == path ==>
            b.(path := newPath) in r && r[b.(path := newPath)] == curves[b])
      && (forall b :: b in curves && b.path != path && !(b.path == newPath && b.(path := path) in curves) ==>
            r[b] == curves[b])
      && (path != newPath ==> forall b :: b in r ==> b.path != path)
  {
    var r := Renamed(curves, path, newPath);
    forall b: Binding | b.path == newPath && b.(path := path) in curves ensures b in r {
      assert b.(path := path).(path := newPath) == b;
    }
    forall b | b in curves && b.path == path
      ensures b.(path := newPath) in r && r[b.(path := newPath)] == curves[b]
    {
      assert b.(path := newPath).(path := path) == b;
    }
  }

  /** Renaming a path to itself deletes and re-inserts each curve, which changes nothing. */
  lemma RenameToSelf(curves: Curves, path: string)
    ensures Renamed(curves, path, path) == curves
  {
    var r := Renamed(curves, path, path);
    RenamedSpec(curves, path, path);
    forall b | b in r ensures b in curves && r[b] == curves[b] {
      if b.path == path {
        assert b.(path := path) == b;
      }
    }
    assert r.Keys == curves.Keys;
  }

  /**
   * Renaming a second time changes nothing: after the first rename no binding is left
   * under `path`, or the rename was to the same path.
   */
  lemma RenamedTwice(curves: Curves, path: string, newPath: string)
    ensures Renamed(Renamed(curves, path, newPath), path, newPath) == Renamed(curves, path, newPath)
  {
    var once := Renamed(curves, path, newPath);
    if path == newPath {
      RenameToSelf(curves, path);
      RenameToSelf(curves, path);
    } else {
      RenamedSpec(curves, path, newPath);
      var twice := Renamed(once, path, newPath);
      assert Moves(once, once.Keys, path, newPath) == map[];
      assert Kept(once, once.Keys, path) == once;
      assert twice == once;
    }
  }

  /** One snapshot binding of `Rename`: the table after it, in terms of the table before it. */
  lemma RenameStep(orig: Curves, done: set<Binding>, b: Binding, path: string, newPath: string)
    requires b in orig && b !in done
    ensures var before := PartialRename(orig, done, path, newPath);
      && (b.path == path ==> b in before && before[b] == orig[b])
      && PartialRename(orig, done + {b}, path, newPath) ==
           if b.path == path then (before - {b})[b.(path := newPath) := orig[b]] else before
  {
    if b.path == path {
      assert b !in Moves(orig, done, path, newPath);
      KeptStep(orig, done, b, path);
      MovesStep(orig, done, b, path, newPath);
      UnionRemoveUpdate(Kept(orig, done, path), Moves(orig, done, path, newPath), b, b.(path := newPath), orig[b]);
    } else {
      assert Kept(orig, done + {b}, path) == Kept(orig, done, path);
      assert Moves(orig, done + {b}, path, newPath) == Moves(orig, done, path, newPath);
    }
  }

  /** Visiting one more binding under `path` takes it out of the kept bindings. */
  lemma KeptStep(orig: Curves, done: set<Binding>, b: Binding, path: string)
    requires b in orig && b.path == path
    ensures Kept(orig, done + {b}, path) == Kept(orig, done, path) - {b}
  {
    assert Kept(orig, done + {b}, path).Keys == (Kept(orig, done, path) - {b}).Keys;
  }

  /** Visiting one more binding under `path` adds its move. */
  lemma MovesStep(orig: Curves, done: set<Binding>, b: Binding, path: string, newPath: string)
    requires b in orig && b.path == path
    ensures Moves(orig, done + {b}, path, newPath) == Moves(orig, done, path, newPath)[b.(path := newPath) := orig[b]]
  {
    var lhs := Moves(orig, done + {b}, path, newPath);
    var rhs := Moves(orig, done, path, newPath)[b.(path := newPath) := orig[b]];
    forall x | x in lhs ensures x in rhs && lhs[x] == rhs[x] {
      var d :| d in orig && d in done + {b} && d.path == path && d.(path := newPath) == x;
      assert d == x.(path := path);
    }
    assert lhs.Keys == rhs.Keys;
  }

  /** Deleting a key outside `n` and then updating distributes over the union `m + n`. */
  lemma UnionRemoveUpdate(m: Curves, n: Curves, b: Binding, k: Binding, v: seq<Key>)
    requires b !in n
    ensures (m - {b}) + n[k := v] == ((m + n) - {b})[k := v]
  {
    assert ((m - {b}) + n[k := v]).Keys == (((m + n) - {b})[k := v]).Keys;
  }

  // ---------------------------------------------------------------------------
  // The paths the wizard offers

  /** The paths of the bindings in `bindings`. */
  function PathsIn(bindings: set<Binding>): set<string> {
    set b | b in bindings :: b.path
  }

  /** The distinct binding paths over all clips, clip by clip. */
  function AllPaths(all: seq<Curves>): set<string> {
    if |all| == 0 then {} else AllPaths(all[..|all| - 1]) + PathsIn(all[|all| - 1].Keys)
  }

  /** A path is offered iff some clip has a binding under it. */
  lemma {:induction false} AllPathsSpec(all: seq<Curves>)
    ensures forall p :: p in AllPaths(all) <==> exists i, b :: 0 <= i < |all| && b in all[i] && b.path == p
  {
    if |all| > 0 {
      var init := all[..|all| - 1];
      AllPathsSpec(init);
      forall p | p in AllPaths(all) ensures exists i, b :: 0 <= i < |all| && b in all[i] && b.path == p {
        if p in AllPaths(init) {
          var i, b: Binding :| 0 <= i < |init| && b in init[i] && b.path == p;
          assert all[i] == init[i];
        } else {
          var b :| b in all[|all| - 1] && b.path == p;
        }
      }
      forall p | exists i, b :: 0 <= i < |all| && b in all[i] && b.path == p ensures p in AllPaths(all) {
        var i, b: Binding :| 0 <= i < |all| && b in all[i] && b.path == p;
        if i < |init| {
          assert init[i] == all[i];
        }
      }
    }
  }

  /** `Enumerable.FirstOrDefault` on the path array: the first path, or null when there is none. */
  function FirstOrDefault(paths: seq<string>): (first: Option<string>)
    ensures first.Some? <==> |paths| > 0
    ensures first.Some? ==> first.value == paths[0]
  {
    if |paths| == 0 then None else Some(paths[0])
  }

  /** The path the popup shows as selected, if the index is within the array. */
  function SelectedPath(paths: seq<string>, selected: int): (chosen: Option<string>)
    ensures chosen.Some? <==> 0 <= selected < |paths|
    ensures chosen.Some? ==> chosen.value == paths[selected] && chosen.value in paths
  {
    if 0 <= selected < |paths| then Some(paths[selected]) else None
  }

  // ---------------------------------------------------------------------------
  // The imperative renamer

  /** The inner loop of `Rename` for one clip, over the snapshot of its bindings. */
  method RenameInClip(clip: Clip, path: string, newPath: string)
    modifies clip`curves
    ensures clip.curves == Renamed(old(clip.curves), path, newPath)
  {
    ghost var start := clip.curves;
    var bindings := clip.curves.Keys;
    while bindings != {}
      invariant bindings <= start.Keys
      invariant clip.curves == PartialRename(start, start.Keys - bindings, path, newPath)
      decreases bindings
    {
      var binding :| binding in bindings;
      ghost var done := start.Keys - bindings;
      ghost var before := clip.curves;
      RenameStep(start, done, binding, path, newPath);
      VisitOne(start.Keys, bindings, binding);
      bindings := bindings - {binding};
      if binding.path == path {
        var newBinding := binding.(path := newPath);
        var curve := clip.curves[binding];
        clip.curves := clip.curves - {binding};
        clip.curves := clip.curves[newBinding := curve];
        assert clip.curves == (before - {binding})[binding.(path := newPath) := start[binding]];
      }
      assert clip.curves == PartialRename(start, done + {binding}, path, newPath);
    }
    assert start.Keys - bindings == start.Keys;
  }

  /**
   * `Rename`: every listed clip ends with its curves renamed from `path` to `newPath`;
   * a clip listed twice is renamed twice, which changes nothing the second time.
   */
  method Rename(clips: seq<Clip>, path: string, newPath: string)
    modifies set c | c in clips
    ensures forall i :: 0 <= i < |clips| ==> clips[i].curves == Renamed(old(clips[i].curves), path, newPath)
    ensures forall c :: c in clips ==> c.loopTime == old(c.loopTime) && c.loopBlend == old(c.loopBlend)
  {
    ghost var seen: set<Clip> := {};
    var i := 0;
    while i < |clips|
      invariant 0 <= i <= |clips|
      invariant forall j :: 0 <= j < i ==> clips[j] in seen
      invariant forall c :: c in seen ==> c in clips
      invariant forall c :: c in seen ==> c.curves == Renamed(old(c.curves), path, newPath)
      invariant forall c :: c in clips && c !in seen ==> c.curves == old(c.curves)
      invariant forall c :: c in clips ==> c.loopTime == old(c.loopTime) && c.loopBlend == old(c.loopBlend)
    {
      var clip := clips[i];
      RenameInClip(clip, path, newPath);
      if clip in seen {
        RenamedTwice(old(clip.curves), path, newPath);
      }
      seen := seen + {clip};
      i := i + 1;
    }
  }

  /** The first clips' paths, then the next clip's. */
  lemma AllPathsSnoc(all: seq<Curves>, curves: Curves)
    ensures AllPaths(all + [curves]) == AllPaths(all) + PathsIn(curves.Keys)
  {
    assert (all + [curves])[..|all|] == all;
  }

  /** The loops of `OnValidate` that gather the path set over all clips. */
  method CollectAllPaths(clips: seq<Clip>) returns (pathSet: set<string>)
    ensures pathSet == AllPaths(CurvesOf(clips))
  {
    ghost var all := CurvesOf(clips);
    pathSet := {};
    var i := 0;
    while i < |clips|
      invariant 0 <= i <= |clips|
      invariant pathSet == AllPaths(all[..i])
    {
      pathSet := CollectPaths(clips[i].curves, pathSet);
      AllPathsSnoc(all[..i], all[i]);
      assert all[..i + 1] == all[..i] + [all[i]];
      i := i + 1;
    }
    assert all[..i] == all;
  }

  /** The paths of one clip's bindings added to `acc`, one binding at a time. */
  method CollectPaths(curves: Curves, acc: set<string>) returns (pathSet: set<string>)
    ensures pathSet == acc + PathsIn(curves.Keys)
  {
    pathSet := acc;
    var bindings := curves.Keys;
    while bindings != {}
      invariant bindings <= curves.Keys
      invariant pathSet == acc + PathsIn(curves.Keys - bindings)
      decreases bindings
    {
      var binding :| binding in bindings;
      VisitOne(curves.Keys, bindings, binding);
      bindings := bindings - {binding};
      pathSet := pathSet + {binding.path};
    }
    assert curves.Keys - bindings == curves.Keys;
  }

  /** `HashSet.ToArray`: every element once, in an order the set does not fix. */
  method ToArray(s: set<string>) returns (r: seq<string>)
    ensures forall p :: p in r <==> p in s
    ensures forall i, j :: 0 <= i < j < |r| ==> r[i] != r[j]
  {
    r := [];
    var rest := s;
    while rest != {}
      invariant rest <= s
      invariant forall p :: p in r <==> p in s - rest
      invariant forall i, j :: 0 <= i < j < |r| ==> r[i] != r[j]
      decreases rest
    {
      var p :| p in rest;
      assert p !in r;
      ghost var prev := r;
      r := r + [p];
      rest := rest - {p};
      forall i, j | 0 <= i < j < |r| ensures r[i] != r[j] {
        if j == |prev| {
          assert r[i] == prev[i] && r[j] == p;
        } else {
          assert r[i] == prev[i] && r[j] == prev[j];
        }
      }
    }
  }

  /** The wizard: the selected clips, the new path, and the paths offered in the popup. */
  class PropertyRenamer {
    var clips: seq<Clip>
    var newPath: string
    var paths: seq<string>
    var selectedPath: int
    var isValid: bool

    /**
     * The field defaults, then `OnEnable`: the clips found in the selection, validated
     * as `OnValidate` does.
     */
    constructor (selected: seq<Clip>)
      ensures clips == selected && newPath == "" && selectedPath == 0
      ensures isValid == (|selected| > 0)
      ensures forall p :: p in paths <==> p in AllPaths(CurvesOf(selected))
      ensures forall i, j :: 0 <= i < j < |paths| ==> paths[i] != paths[j]
    {
      clips := selected;
      newPath := "";
      selectedPath := 0;
      new;
      OnValidate();
    }

    /**
     * `OnValidate`: the wizard can run iff a clip is listed, and `paths` lists each
     * binding path of the listed clips exactly once.
     */
    method OnValidate()
      modifies this`isValid, this`paths
      ensures isValid == (|clips| > 0)
      ensures forall p :: p in paths <==> p in AllPaths(CurvesOf(clips))
      ensures forall i, j :: 0 <= i < j < |paths| ==> paths[i] != paths[j]
    {
      isValid := |clips| > 0;
      var pathSet := CollectAllPaths(clips);
      paths := ToArray(pathSet);
    }

    /**
     * `OnWizardCreate`: renames the first offered path to `newPath`, whichever path the
     * popup shows as selected; with no path offered nothing is renamed.
     */
    method OnWizardCreate()
      modifies set c | c in clips
      ensures FirstOrDefault(paths).None? ==> forall c :: c in clips ==> c.curves == old(c.curves)
      ensures FirstOrDefault(paths).Some? ==> forall i :: 0 <= i < |clips| ==>
        clips[i].curves == Renamed(old(clips[i].curves), paths[0], newPath)
      ensures forall c :: c in clips ==> c.loopTime == old(c.loopTime) && c.loopBlend == old(c.loopBlend)
    {
      var path := FirstOrDefault(paths);
      if path.Some? {
        Rename(clips, path.value, newPath);
      }
    }

    /** The rename the popup asks for: the selected path, if the index is within `paths`. */
    method OnWizardCreateSelected()
      modifies set c | c in clips
      ensures SelectedPath(paths, selectedPath).None? ==> forall c :: c in clips ==> c.curves == old(c.curves)
      ensures SelectedPath(paths, selectedPath).Some? ==> forall i :: 0 <= i < |clips| ==>
        clips[i].curves == Renamed(old(clips[i].curves), paths[selectedPath], newPath)
      ensures forall c :: c in clips ==> c.loopTime == old(c.loopTime) && c.loopBlend == old(c.loopBlend)
    {
      var path := SelectedPath(paths, selectedPath);
      if path.Some? {
        Rename(clips, path.value, newPath);
      }
    }
  }

  /**
   * With the paths `["Body", "Face"]` and "Face" selected, the rename the wizard performs
   * leaves the "Face" curve where it was and moves the "Body" curve instead, while renaming
   * the selected path moves the "Face" curve and leaves the "Body" one.
   */
  lemma SelectedPathIgnored(keys: seq<Key>)
    ensures var paths := ["Body", "Face"];
      var body := Binding("Body", "blendShape.smile", SkinnedMeshRenderer);
      var face := Binding("Face", "blendShape.smile", SkinnedMeshRenderer);
      var curves := map[body := keys, face := keys];
      var asWritten := Renamed(curves, FirstOrDefault(paths).value, "Head");
      var intended := Renamed(curves, SelectedPath(paths, 1).value, "Head");
      && face in asWritten && body !in asWritten
      && face !in intended && body in intended
  {
    var body := Binding("Body", "blendShape.smile", SkinnedMeshRenderer);
    var face := Binding("Face", "blendShape.smile", SkinnedMeshRenderer);
    var curves := map[body := keys, face := keys];
    assert body.path != face.path;
    RenamedSpec(curves, "Body", "Head");
    RenamedSpec(curves, "Face", "Head");
  }
}
