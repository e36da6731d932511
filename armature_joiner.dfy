/**
 * The armature joiner: every transform below `additive` whose counterpart is found in
 * `base` (by relative path, or by name anywhere below `base`) is moved under that
 * counterpart, given a name suffix and, unless the world placement is kept, a rest pose.
 */
module ArmatureJoiner {
  import opened Wrappers
  import opened Transforms

  // ---------------------------------------------------------------------------
  // The fuzzy index

  /** The name index being filled by `BuildDictionary`, or the name `Dictionary.Add` rejected. */
  datatype Indexing = Indexed(index: map<string, NodeId>) | DuplicateName(name: string)

  /** `Dictionary.Add` of each subtree's name and transform in turn, stopping at a name already present. */
  function AddAll(m: map<string, NodeId>, ds: seq<Tree>): Indexing
    decreases |ds|
  {
    if |ds| == 0 then Indexed(m)
    else if ds[0].name in m then DuplicateName(ds[0].name)
    else AddAll(m[ds[0].name := ds[0].id], ds[1..])
  }

  /** Adding two runs of entries is adding the first, then, if no name clashed, the second. */
  lemma {:induction false} AddAllAppend(m: map<string, NodeId>, a: seq<Tree>, b: seq<Tree>)
    ensures AddAll(m, a + b) == match AddAll(m, a) case Indexed(m') => AddAll(m', b) case DuplicateName(n) => DuplicateName(n)
    decreases |a|
  {
    if |a| > 0 {
      assert (a + b)[0] == a[0] && (a + b)[1..] == a[1..] + b;
      if a[0].name !in m {
        AddAllAppend(m[a[0].name := a[0].id], a[1..], b);
      }
    } else {
      assert a + b == b;
    }
  }

  /** No two subtrees carry the same name. */
  predicate DistinctNames(ds: seq<Tree>) {
    forall i, j :: 0 <= i < j < |ds| ==> ds[i].name != ds[j].name
  }

  /** Filling succeeds iff no name repeats and none is already present. */
  lemma {:induction false} AddAllSucceeds(m: map<string, NodeId>, ds: seq<Tree>)
    ensures AddAll(m, ds).Indexed? <==> DistinctNames(ds) && forall j :: 0 <= j < |ds| ==> ds[j].name !in m
    decreases |ds|
  {
    if |ds| > 0 {
      var m' := m[ds[0].name := ds[0].id];
      var rest := ds[1..];
      AddAllSucceeds(m', rest);
      if ds[0].name !in m {
        if DistinctNames(ds) && forall j :: 0 <= j < |ds| ==> ds[j].name !in m {
          forall j | 0 <= j < |rest| ensures rest[j].name !in m' {
            assert rest[j] == ds[j + 1];
          }
        }
        if AddAll(m, ds).Indexed? {
          forall i, j | 0 <= i < j < |ds| ensures ds[i].name != ds[j].name {
            if i > 0 {
              assert ds[i] == rest[i - 1] && ds[j] == rest[j - 1];
            } else {
              assert ds[j] == rest[j - 1];
            }
          }
        }
      }
    }
  }

  /**
   * A filled index holds exactly the names present before and the names of the
   * entries, each entry's name leading to its transform and earlier names kept.
   */
  lemma {:induction false} AddAllIndex(m: map<string, NodeId>, ds: seq<Tree>)
    requires AddAll(m, ds).Indexed?
    ensures forall n :: n in AddAll(m, ds).index <==> n in m || exists j :: 0 <= j < |ds| && ds[j].name == n
    ensures forall j :: 0 <= j < |ds| ==> AddAll(m, ds).index[ds[j].name] == ds[j].id
    ensures forall n :: n in m ==> AddAll(m, ds).index[n] == m[n]
    decreases |ds|
  {
    if |ds| > 0 {
      var m' := m[ds[0].name := ds[0].id];
      var rest := ds[1..];
      AddAllIndex(m', rest);
      AddAllSucceeds(m, ds);
      var r := AddAll(m, ds).index;
      forall n | n in r ensures n in m || exists j :: 0 <= j < |ds| && ds[j].name == n {
        if n !in m' {
          var j :| 0 <= j < |rest| && rest[j].name == n;
          assert ds[j + 1] == rest[j];
        } else if n == ds[0].name {
          assert ds[0].name == n;
        }
      }
      forall n | exists j :: 0 <= j < |ds| && ds[j].name == n ensures n in r {
        var j :| 0 <= j < |ds| && ds[j].name == n;
        if j > 0 {
          assert ds[j] == rest[j - 1];
        }
      }
      forall j | 0 <= j < |ds| ensures r[ds[j].name] == ds[j].id {
        if j > 0 {
          assert ds[j] == rest[j - 1];
        }
      }
    }
  }

  /** The index of the fuzzy mode: every transform strictly below `base`, by name. */
  function BaseIndex(base: Tree): Indexing {
    AddAll(map[], Descendants(base.children))
  }

  /**
   * Building the index fails iff two transforms below `base` share a name. Otherwise a
   * name is a key iff some transform strictly below `base` has it, the key leads to that
   * transform, and never to `base` itself.
   */
  lemma BaseIndexSpec(base: Tree)
    requires WellFormed(base)
    ensures BaseIndex(base).Indexed? <==> DistinctNames(Descendants(base.children))
    ensures BaseIndex(base).Indexed? ==>
      && (forall n :: n in BaseIndex(base).index <==>
            exists j :: 0 <= j < |Descendants(base.children)| && Descendants(base.children)[j].name == n)
      && (forall j :: 0 <= j < |Descendants(base.children)| ==>
            BaseIndex(base).index[Descendants(base.children)[j].name] == Descendants(base.children)[j].id)
      && (forall n :: n in BaseIndex(base).index ==> BaseIndex(base).index[n] != base.id)
  {
    var ds := Descendants(base.children);
    AddAllSucceeds(map[], ds);
    if BaseIndex(base).Indexed? {
      AddAllIndex(map[], ds);
    }
    RootNotDescendant(base);
    if BaseIndex(base).Indexed? {
      var r := BaseIndex(base).index;
      forall n | n in r ensures r[n] != base.id {
        var j :| 0 <= j < |ds| && ds[j].name == n;
        assert Ids(ds)[j] == ds[j].id;
      }
    }
  }

  // ---------------------------------------------------------------------------
  // The walk

  /**
   * One step of the walk: the transform, its name before the join, the names from the
   * first level below `additive` down to it, and the lookup path built from them.
   */
  datatype Visit = Visit(id: NodeId, name: string, names: seq<string>, path: string)

  /** The walk `Join` makes from `t`: `t` first, then each child's walk in child order. */
  function Visits(t: Tree, basepath: string, ancestors: seq<string>): seq<Visit>
    decreases t, 1
  {
    [Visit(t.id, t.name, ancestors + [t.name], basepath + t.name)]
      + VisitsOf(t.children, basepath + t.name + "/", ancestors + [t.name])
  }

  /** The walks from some siblings, one after another. */
  function VisitsOf(ts: seq<Tree>, basepath: string, ancestors: seq<string>): seq<Visit>
    decreases ts, 0
  {
    if |ts| == 0 then []
    else VisitsOf(ts[..|ts| - 1], basepath, ancestors) + Visits(ts[|ts| - 1], basepath, ancestors)
  }

  /** The transforms visited, in order. */
  function VisitIds(vs: seq<Visit>): seq<NodeId> {
    seq(|vs|, i requires 0 <= i < |vs| => vs[i].id)
  }

  lemma VisitIdsAppend(a: seq<Visit>, b: seq<Visit>)
    ensures VisitIds(a + b) == VisitIds(a) + VisitIds(b)
  {
  }

  lemma VisitsOfAppend(xs: seq<Tree>, ys: seq<Tree>, basepath: string, ancestors: seq<string>)
    ensures VisitsOf(xs + ys, basepath, ancestors) == VisitsOf(xs, basepath, ancestors) + VisitsOf(ys, basepath, ancestors)
    decreases |ys|
  {
    if |ys| > 0 {
      var init := ys[..|ys| - 1];
      assert (xs + ys)[..|xs + ys| - 1] == xs + init;
      VisitsOfAppend(xs, init, basepath, ancestors);
    } else {
      assert xs + ys == xs;
    }
  }

  /** The walk visits the transforms below the siblings in the order `Descendants` lists them. */
  lemma {:induction false} VisitsCoverDescendants(ts: seq<Tree>, basepath: string, ancestors: seq<string>)
    ensures VisitIds(VisitsOf(ts, basepath, ancestors)) == Ids(Descendants(ts))
    decreases ts
  {
    if |ts| > 0 {
      var last := ts[|ts| - 1];
      var p := basepath + last.name + "/";
      var a := ancestors + [last.name];
      VisitsCoverDescendants(ts[..|ts| - 1], basepath, ancestors);
      VisitsCoverDescendants(last.children, p, a);
      VisitIdsAppend(VisitsOf(ts[..|ts| - 1], basepath, ancestors), Visits(last, basepath, ancestors));
      VisitIdsAppend([Visits(last, basepath, ancestors)[0]], VisitsOf(last.children, p, a));
      IdsAppend(Descendants(ts[..|ts| - 1]), [last] + Descendants(last.children));
      IdsAppend([last], Descendants(last.children));
    }
  }

  /** The prefix `Join` receives below the given names: empty at the top, else their path and "/". */
  function Prefix(ancestors: seq<string>): string {
    if |ancestors| == 0 then "" else JoinNames(ancestors) + "/"
  }

  /**
   * Every lookup path is the names from the first level below `additive` down to the
   * visited transform, joined by "/", the last name being the transform's name before the join.
   */
  lemma {:induction false} VisitPaths(ts: seq<Tree>, ancestors: seq<string>)
    ensures forall v :: v in VisitsOf(ts, Prefix(ancestors), ancestors) ==>
      |v.names| > 0 && v.names[|v.names| - 1] == v.name && v.path == JoinNames(v.names)
    decreases ts
  {
    if |ts| > 0 {
      var last := ts[|ts| - 1];
      var a := ancestors + [last.name];
      VisitPaths(ts[..|ts| - 1], ancestors);
      assert a[..|a| - 1] == ancestors;
      assert Prefix(ancestors) + last.name == JoinNames(a);
      assert Prefix(ancestors) + last.name + "/" == Prefix(a);
      VisitPaths(last.children, a);
    }
  }

  // ---------------------------------------------------------------------------
  // What one visit does

  /** The settings of one join, with the index built in the fuzzy mode. */
  datatype JoinConfig = JoinConfig(
    exactHierarchy: bool, base: Option<Tree>, bases: map<string, NodeId>,
    suffix: string, keepWorldTransform: bool)

  /**
   * The counterpart of a visited transform: the path looked up below `base` in the exact
   * mode, the name alone looked up in the index otherwise.
   */
  function Match(cfg: JoinConfig, v: Visit): (found: Option<NodeId>)
    ensures cfg.exactHierarchy && cfg.base.Some? ==> found == Find(cfg.base.value, v.path)
    ensures !cfg.exactHierarchy ==> (found.Some? <==> v.name in cfg.bases)
    ensures !cfg.exactHierarchy && found.Some? ==> found.value == cfg.bases[v.name]
  {
    if cfg.exactHierarchy then
      (if cfg.base.Some? then Find(cfg.base.value, v.path) else None)
    else if v.name in cfg.bases then Some(cfg.bases[v.name])
    else None
  }

  /** The state of a visited transform after its visit. */
  function Joined(cfg: JoinConfig, v: Visit, s: NodeState): NodeState {
    match Match(cfg, v)
    case None => s
    case Some(b) => NodeState(Some(b), s.name + " " + cfg.suffix, if cfg.keepWorldTransform then s.pose else RestPose)
  }

  /**
   * A matched transform gets the counterpart as parent and the suffixed name and, unless
   * the world placement is kept, the rest pose; an unmatched one keeps everything.
   */
  lemma JoinedSpec(cfg: JoinConfig, v: Visit, s: NodeState)
    ensures Match(cfg, v).Some? ==>
      && Joined(cfg, v, s).parent == Match(cfg, v)
      && Joined(cfg, v, s).name == s.name + " " + cfg.suffix
      && Joined(cfg, v, s).pose == (if cfg.keepWorldTransform then s.pose else RestPose)
    ensures Match(cfg, v).None? ==> Joined(cfg, v, s) == s
  {
  }

  /** The transforms after the visits, one after another. */
  function Applied(nodes: map<NodeId, NodeState>, vs: seq<Visit>, cfg: JoinConfig): map<NodeId, NodeState>
    decreases |vs|
  {
    if |vs| == 0 then nodes
    else
      var v := vs[0];
      Applied(if v.id in nodes then nodes[v.id := Joined(cfg, v, nodes[v.id])] else nodes, vs[1..], cfg)
  }

  lemma {:induction false} AppliedAppend(nodes: map<NodeId, NodeState>, a: seq<Visit>, b: seq<Visit>, cfg: JoinConfig)
    ensures Applied(nodes, a + b, cfg) == Applied(Applied(nodes, a, cfg), b, cfg)
    decreases |a|
  {
    if |a| > 0 {
      var v := a[0];
      assert (a + b)[0] == v && (a + b)[1..] == a[1..] + b;
      AppliedAppend(if v.id in nodes then nodes[v.id := Joined(cfg, v, nodes[v.id])] else nodes, a[1..], b, cfg);
    } else {
      assert a + b == b;
    }
  }

  /**
   * When no transform is visited twice, each visited transform ends as its one visit
   * leaves it, and every other transform is left as it was.
   */
  lemma {:induction false} AppliedSpec(nodes: map<NodeId, NodeState>, vs: seq<Visit>, cfg: JoinConfig)
    requires Distinct(VisitIds(vs))
    ensures Applied(nodes, vs, cfg).Keys == nodes.Keys
    ensures forall k :: 0 <= k < |vs| && vs[k].id in nodes ==>
      Applied(nodes, vs, cfg)[vs[k].id] == Joined(cfg, vs[k], nodes[vs[k].id])
    ensures forall id :: id in nodes && id !in VisitIds(vs) ==> Applied(nodes, vs, cfg)[id] == nodes[id]
    decreases |vs|
  {
    if |vs| > 0 {
      var v := vs[0];
      var next := if v.id in nodes then nodes[v.id := Joined(cfg, v, nodes[v.id])] else nodes;
      var rest := vs[1..];
      assert VisitIds(rest) == VisitIds(vs)[1..];
      assert Applied(nodes, vs, cfg) == Applied(next, rest, cfg);
      AppliedSpec(next, rest, cfg);
      forall k | 0 <= k < |vs| && vs[k].id in nodes
        ensures Applied(nodes, vs, cfg)[vs[k].id] == Joined(cfg, vs[k], nodes[vs[k].id])
      {
        if k == 0 {
          forall j | 0 <= j < |rest| ensures VisitIds(rest)[j] != v.id {
            assert VisitIds(vs)[j + 1] == VisitIds(rest)[j] && VisitIds(vs)[0] == v.id;
          }
          assert v.id !in VisitIds(rest);
          assert next[v.id] == Joined(cfg, v, nodes[v.id]);
        } else {
          assert vs[k] == rest[k - 1];
          assert VisitIds(vs)[0] != VisitIds(vs)[k];
          assert next[vs[k].id] == nodes[vs[k].id];
          assert Applied(next, rest, cfg)[rest[k - 1].id] == Joined(cfg, rest[k - 1], next[rest[k - 1].id]);
        }
      }
      forall id | id in nodes && id !in VisitIds(vs) ensures Applied(nodes, vs, cfg)[id] == nodes[id] {
        assert VisitIds(vs)[0] == v.id;
        assert id !in VisitIds(rest) && next[id] == nodes[id];
      }
    }
  }

  /** Every visit's transform is in the scene with the name the snapshot records. */
  predicate Consistent(vs: seq<Visit>, nodes: map<NodeId, NodeState>) {
    forall v :: v in vs ==> v.id in nodes && nodes[v.id].name == v.name
  }

  /**
   * Before sibling `i` is joined, after the visits `pre` and the walks of the siblings
   * before it, its walk visits no transform twice and finds the names the snapshot
   * records: the visits made so far touched none of its transforms.
   */
  lemma SiblingReady(nodes: map<NodeId, NodeState>, pre: seq<Visit>, ts: seq<Tree>, p: string, a: seq<string>, i: nat, cfg: JoinConfig)
    requires i < |ts|
    requires Distinct(VisitIds(pre + VisitsOf(ts, p, a)))
    requires Consistent(pre + VisitsOf(ts, p, a), nodes)
    ensures Distinct(VisitIds(Visits(ts[i], p, a)))
    ensures Consistent(Visits(ts[i], p, a), Applied(nodes, pre + VisitsOf(ts[..i], p, a), cfg))
  {
    var done := pre + VisitsOf(ts[..i], p, a);
    var next := Visits(ts[i], p, a);
    SplitWalk(pre, ts, p, a, i);
    DistinctMiddle(done, next, VisitsOf(ts[i + 1..], p, a));
    AppliedSpec(nodes, done, cfg);
  }

  /** Joining sibling `i` after the siblings before it is joining the first `i + 1` siblings. */
  lemma SiblingStep(nodes: map<NodeId, NodeState>, pre: seq<Visit>, ts: seq<Tree>, p: string, a: seq<string>, i: nat, cfg: JoinConfig)
    requires i < |ts|
    ensures Applied(Applied(nodes, pre + VisitsOf(ts[..i], p, a), cfg), Visits(ts[i], p, a), cfg)
      == Applied(nodes, pre + VisitsOf(ts[..i + 1], p, a), cfg)
  {
    var done := pre + VisitsOf(ts[..i], p, a);
    var next := Visits(ts[i], p, a);
    AppliedAppend(nodes, done, next, cfg);
    assert ts[..i + 1][..i] == ts[..i];
    assert done + next == pre + VisitsOf(ts[..i + 1], p, a);
  }

  /** The walk of some siblings around sibling `i`: the ones before, its own, the ones after. */
  lemma SplitWalk(pre: seq<Visit>, ts: seq<Tree>, p: string, a: seq<string>, i: nat)
    requires i < |ts|
    ensures pre + VisitsOf(ts, p, a) ==
      pre + VisitsOf(ts[..i], p, a) + Visits(ts[i], p, a) + VisitsOf(ts[i + 1..], p, a)
  {
    VisitsOfAppend(ts[..i + 1], ts[i + 1..], p, a);
    assert ts[..i + 1] + ts[i + 1..] == ts;
    VisitsOfPrefix(ts, p, a, i);
    var vb, vh, va := VisitsOf(ts[..i], p, a), Visits(ts[i], p, a), VisitsOf(ts[i + 1..], p, a);
    assert pre + ((vb + vh) + va) == pre + vb + vh + va;
  }

  /** The walk of the first `i + 1` siblings is that of the first `i`, then sibling `i`'s. */
  lemma VisitsOfPrefix(ts: seq<Tree>, p: string, a: seq<string>, i: nat)
    requires i < |ts|
    ensures VisitsOf(ts[..i + 1], p, a) == VisitsOf(ts[..i], p, a) + Visits(ts[i], p, a)
  {
    assert ts[..i + 1][..i] == ts[..i];
  }

  /** The middle of a walk that visits no transform twice does not either, nor revisits the start. */
  lemma DistinctMiddle(x: seq<Visit>, y: seq<Visit>, z: seq<Visit>)
    requires Distinct(VisitIds(x + y + z))
    ensures Distinct(VisitIds(x)) && Distinct(VisitIds(y))
    ensures forall v :: v in y ==> v.id !in VisitIds(x)
  {
    var ids := VisitIds(x + y + z);
    forall s, t | 0 <= s < t < |x| ensures VisitIds(x)[s] != VisitIds(x)[t] {
      assert ids[s] == x[s].id && ids[t] == x[t].id;
    }
    forall s, t | 0 <= s < t < |y| ensures VisitIds(y)[s] != VisitIds(y)[t] {
      assert ids[|x| + s] == y[s].id && ids[|x| + t] == y[t].id;
    }
    forall v | v in y ensures v.id !in VisitIds(x) {
      var s :| 0 <= s < |y| && y[s] == v;
      forall k | 0 <= k < |x| ensures VisitIds(x)[k] != v.id {
        assert ids[k] == x[k].id && ids[|x| + s] == y[s].id;
      }
    }
  }

  /** `Join`'s walk from `t`: its own visit, then the walks of its children. */
  lemma VisitsHead(t: Tree, basepath: string, ancestors: seq<string>)
    ensures Visits(t, basepath, ancestors)[0] == Visit(t.id, t.name, ancestors + [t.name], basepath + t.name)
    ensures Visits(t, basepath, ancestors) ==
      [Visits(t, basepath, ancestors)[0]] + VisitsOf(t.children, basepath + t.name + "/", ancestors + [t.name])
  {
  }

  /** One visit changes at most its own transform. */
  lemma AppliedOne(nodes: map<NodeId, NodeState>, v: Visit, cfg: JoinConfig)
    ensures Applied(nodes, [v], cfg) == if v.id in nodes then nodes[v.id := Joined(cfg, v, nodes[v.id])] else nodes
  {
    assert [v][1..] == [];
  }

  // ---------------------------------------------------------------------------
  // The wizard

  /** How `OnWizardCreate` ends: the join done, or an exception before any transform changed. */
  datatype Outcome = Completed | NullReference | DuplicateKey(name: string)

  /**
   * The wizard: the two roots (null as `None`), the join settings, the name index, and
   * the transforms of the scene the roots belong to.
   */
  class ArmatureJoiner {
    var transforms: map<NodeId, NodeState>
    var baseRoot: Option<Tree>
    var additive: Option<Tree>
    var suffix: string
    var exactHierarchy: bool
    var keepWorldTransform: bool
    var bases: map<string, NodeId>
    var isValid: bool

    /**
     * The wizard over a scene's transforms with its fields as the inspector sets them,
     * then `OnValidate`; the name index starts empty.
     */
    constructor (scene: map<NodeId, NodeState>, base: Option<Tree>, add: Option<Tree>,
                 suffix: string, exactHierarchy: bool, keepWorldTransform: bool)
      ensures transforms == scene && baseRoot == base && additive == add
      ensures this.suffix == suffix && this.exactHierarchy == exactHierarchy
      ensures this.keepWorldTransform == keepWorldTransform && bases == map[]
      ensures isValid <==> base.Some? && add.Some?
    {
      transforms := scene;
      baseRoot := base;
      additive := add;
      this.suffix := suffix;
      this.exactHierarchy := exactHierarchy;
      this.keepWorldTransform := keepWorldTransform;
      bases := map[];
      new;
      OnValidate();
    }

    /** The settings `Join` reads. */
    function Config(): JoinConfig
      reads this
    {
      JoinConfig(exactHierarchy, baseRoot, bases, suffix, keepWorldTransform)
    }

    /** `OnValidate`: the wizard can run iff both roots are set. */
    method OnValidate()
      modifies this`isValid
      ensures isValid <==> baseRoot.Some? && additive.Some?
    {
      isValid := baseRoot.Some? && additive.Some?;
    }

    /**
     * `BuildDictionary`: adds every transform strictly below `t`, parent before children
     * and siblings in order, under its name; a name already present makes `Dictionary.Add`
     * throw, returned here as that name.
     */
    method BuildDictionary(t: Tree) returns (duplicate: Option<string>)
      modifies this`bases
      ensures match AddAll(old(bases), Descendants(t.children))
        case Indexed(m) => duplicate.None? && bases == m
        case DuplicateName(n) => duplicate == Some(n)
      decreases t
    {
      var i := 0;
      while i < |t.children|
        invariant 0 <= i <= |t.children|
        invariant AddAll(old(bases), Descendants(t.children[..i])) == Indexed(bases)
      {
        var child := t.children[i];
        ghost var before := Descendants(t.children[..i]);
        ghost var here := [child] + Descendants(child.children);
        assert t.children[..i + 1][..i] == t.children[..i];
        assert t.children[..i + 1] + t.children[i + 1..] == t.children;
        DescendantsAppend(t.children[..i + 1], t.children[i + 1..]);
        AddAllAppend(old(bases), before, here);
        AddAllAppend(old(bases), before + here, Descendants(t.children[i + 1..]));
        assert here[0] == child && here[1..] == Descendants(child.children);
        if child.name in bases {
          return Some(child.name);
        }
        bases := bases[child.name := child.id];
        duplicate := BuildDictionary(child);
        if duplicate.Some? {
          return;
        }
        i := i + 1;
      }
      assert t.children[..i] == t.children;
      duplicate := None;
    }

    /**
     * The visit of one transform in `Join`: look up its counterpart by its path (exact
     * mode) or its name (fuzzy mode) and, if there is one, move it under the counterpart,
     * add the suffix to its name and, unless the world placement is kept, reset its pose.
     */
    method JoinNode(current: Tree, basepath: string, ghost ancestors: seq<string>) returns (curpath: string)
      requires exactHierarchy ==> baseRoot.Some?
      requires current.id in transforms && transforms[current.id].name == current.name
      modifies this`transforms
      ensures curpath == basepath + current.name
      ensures transforms == old(transforms)[current.id :=
        Joined(Config(), Visit(current.id, current.name, ancestors + [current.name], curpath), old(transforms)[current.id])]
    {
      var name := transforms[current.id].name;
      curpath := basepath + name;
      var newbase: Option<NodeId>;
      if exactHierarchy {
        newbase := Find(baseRoot.value, curpath);
      } else {
        newbase := if name in bases then Some(bases[name]) else None;
      }
      assert newbase == Match(Config(), Visit(current.id, current.name, ancestors + [current.name], curpath));
      var state := transforms[current.id];
      if newbase.Some? {
        state := state.(parent := newbase);
        state := state.(name := state.name + " " + suffix);
        if !keepWorldTransform {
          state := state.(pose := RestPose);
        }
      }
      transforms := transforms[current.id := state];
    }

    /**
     * `Join`: visits `current` and then, from a snapshot of its children, each child's
     * subtree; the transforms end as the walk's visits leave them.
     */
    method Join(current: Tree, basepath: string, ghost ancestors: seq<string>)
      requires exactHierarchy ==> baseRoot.Some?
      requires Distinct(VisitIds(Visits(current, basepath, ancestors)))
      requires Consistent(Visits(current, basepath, ancestors), transforms)
      modifies this`transforms
      ensures transforms == Applied(old(transforms), Visits(current, basepath, ancestors), Config())
      decreases current
    {
      ghost var v0 := Visit(current.id, current.name, ancestors + [current.name], basepath + current.name);
      VisitsHead(current, basepath, ancestors);
      assert v0 in Visits(current, basepath, ancestors);
      var curpath := JoinNode(current, basepath, ancestors);
      AppliedOne(old(transforms), v0, Config());
      var children := current.children;
      ghost var p, a := curpath + "/", ancestors + [current.name];
      assert Distinct(VisitIds([v0] + VisitsOf(children, p, a))) && Consistent([v0] + VisitsOf(children, p, a), old(transforms));
      var i := 0;
      while i < |children|
        invariant 0 <= i <= |children|
        invariant transforms == Applied(old(transforms), [v0] + VisitsOf(children[..i], p, a), Config())
      {
        SiblingReady(old(transforms), [v0], children, p, a, i, Config());
        SiblingStep(old(transforms), [v0], children, p, a, i, Config());
        Join(children[i], curpath + "/", a);
        i := i + 1;
      }
      assert children[..i] == children;
    }

    /**
     * The `foreach` over the children of `additive` in `OnWizardCreate`, run over a
     * snapshot of them: each child's subtree is joined in child order.
     */
    method JoinAll(children: seq<Tree>)
      requires exactHierarchy ==> baseRoot.Some? || |children| == 0
      requires Distinct(VisitIds(VisitsOf(children, "", [])))
      requires Consistent(VisitsOf(children, "", []), transforms)
      modifies this`transforms
      ensures transforms == Applied(old(transforms), VisitsOf(children, "", []), Config())
    {
      assert [] + VisitsOf(children, "", []) == VisitsOf(children, "", []);
      var i := 0;
      while i < |children|
        invariant 0 <= i <= |children|
        invariant transforms == Applied(old(transforms), VisitsOf(children[..i], "", []), Config())
      {
        SiblingReady(old(transforms), [], children, "", [], i, Config());
        SiblingStep(old(transforms), [], children, "", [], i, Config());
        assert [] + VisitsOf(children[..i], "", []) == VisitsOf(children[..i], "", []);
        assert [] + VisitsOf(children[..i + 1], "", []) == VisitsOf(children[..i + 1], "", []);
        Join(children[i], "", []);
        i := i + 1;
      }
      assert children[..i] == children;
    }

    /**
     * `OnWizardCreate`: in the fuzzy mode, rebuild the index from `base`; then join each
     * child of `additive`, from a snapshot of the children. A null root or a repeated
     * name below `base` ends it with an exception before any transform has changed.
     */
    method OnWizardCreate() returns (outcome: Outcome)
      requires additive.Some? ==> WellFormed(additive.value)
      requires additive.Some? ==> Consistent(VisitsOf(additive.value.children, "", []), transforms)
      modifies this`bases, this`transforms
      ensures exactHierarchy ==> bases == old(bases)
      ensures !exactHierarchy && baseRoot.Some? ==>
        match BaseIndex(baseRoot.value)
        case Indexed(m) => bases == m
        case DuplicateName(n) => outcome == DuplicateKey(n)
      ensures outcome.Completed? <==>
        && additive.Some?
        && (if exactHierarchy then baseRoot.Some? || |additive.value.children| == 0
            else baseRoot.Some? && BaseIndex(baseRoot.value).Indexed?)
      ensures outcome.Completed? ==>
        transforms == Applied(old(transforms), VisitsOf(additive.value.children, "", []), Config())
      ensures !outcome.Completed? ==> transforms == old(transforms)
    {
      if !exactHierarchy {
        bases := map[];
        if baseRoot.None? {
          return NullReference;
        }
        var duplicate := BuildDictionary(baseRoot.value);
        if duplicate.Some? {
          return DuplicateKey(duplicate.value);
        }
      }
      if additive.None? {
        return NullReference;
      }
      var children := additive.value.children;
      if exactHierarchy && baseRoot.None? && |children| > 0 {
        return NullReference;
      }
      VisitsCoverDescendants(children, "", []);
      DistinctTail(additive.value.id, Ids(Descendants(children)));
      JoinAll(children);
      return Completed;
    }
  }

  // ---------------------------------------------------------------------------
  // What a completed join does

  /**
   * After the walk below `additive`: every transform strictly below it, visited once in
   * `Descendants` order, ends as its visit leaves it; `additive` itself and every
   * transform outside it are unchanged; each lookup path is the visited transform's names
   * from the first level below `additive`, joined by "/".
   */
  lemma JoinSpec(nodes: map<NodeId, NodeState>, additive: Tree, cfg: JoinConfig)
    requires WellFormed(additive)
    ensures var vs := VisitsOf(additive.children, "", []);
      var after := Applied(nodes, vs, cfg);
      && after.Keys == nodes.Keys
      && VisitIds(vs) == Ids(Descendants(additive.children))
      && (forall id :: id in nodes && (id == additive.id || !Contains(additive, id)) ==> after[id] == nodes[id])
      && (forall k :: 0 <= k < |vs| && vs[k].id in nodes ==> after[vs[k].id] == Joined(cfg, vs[k], nodes[vs[k].id]))
      && (forall v :: v in vs ==> |v.names| > 0 && v.names[|v.names| - 1] == v.name && v.path == JoinNames(v.names))
  {
    var vs := VisitsOf(additive.children, "", []);
    VisitsCoverDescendants(additive.children, "", []);
    DistinctTail(additive.id, Ids(Descendants(additive.children)));
    AppliedSpec(nodes, vs, cfg);
    RootNotDescendant(additive);
    forall id | id in nodes && !Contains(additive, id) ensures id !in VisitIds(vs) {
      DescendantsSpec(additive.children, id);
    }
    VisitPaths(additive.children, []);
  }

  /**
   * In the exact mode, when no name holds a "/", a visit's lookup follows its names one
   * child at a time from `base`, so whatever it finds lies at the end of that name path.
   */
  lemma ExactMatchFollowsNames(cfg: JoinConfig, v: Visit)
    requires cfg.exactHierarchy && cfg.base.Some?
    requires |v.names| > 0 && v.path == JoinNames(v.names)
    requires forall i :: 0 <= i < |v.names| ==> '/' !in v.names[i]
    ensures Match(cfg, v) == FindNames(cfg.base.value, v.names)
    ensures Match(cfg, v).Some? ==> NamePath(cfg.base.value, v.names, Match(cfg, v).value)
    ensures forall id :: NamePath(cfg.base.value, v.names, id) ==> Match(cfg, v).Some?
  {
    SplitJoinNames(v.names);
    FindNamesSpec(cfg.base.value, v.names);
    forall id | NamePath(cfg.base.value, v.names, id) ensures Match(cfg, v).Some? {
      FindNamesComplete(cfg.base.value, v.names, id);
    }
  }

  // ---------------------------------------------------------------------------
  // The top-level loop as the host enumerates it

  /**
   * The top-level children `OnWizardCreate` reaches when its `foreach` runs over the live
   * children of `additive` by index: a matched child leaves `additive`, the later
   * children move down one place, and the index still advances past the next one.
   */
  function LiveTopLevel(children: seq<Tree>, i: nat, cfg: JoinConfig): seq<NodeId>
    decreases |children| - i
  {
    if i >= |children| then []
    else
      var c := children[i];
      var moved := Match(cfg, Visits(c, "", [])[0]).Some?;
      [c.id] + LiveTopLevel(if moved then children[..i] + children[i + 1..] else children, i + 1, cfg)
  }

  /**
   * Two top-level children that both have a counterpart by name: the live enumeration
   * reaches only the first, while the walk over a snapshot reaches both.
   */
  lemma LiveEnumerationSkipsSibling()
    ensures var hips := Tree(1, "Hips", []);
      var spine := Tree(2, "Spine", []);
      var cfg := JoinConfig(false, None, map["Hips" := 10, "Spine" := 11], "Outfit", false);
      && LiveTopLevel([hips, spine], 0, cfg) == [1]
      && VisitIds(VisitsOf([hips, spine], "", [])) == [1, 2]
  {
    var hips := Tree(1, "Hips", []);
    var spine := Tree(2, "Spine", []);
    var cfg := JoinConfig(false, None, map["Hips" := 10, "Spine" := 11], "Outfit", false);
    assert [hips, spine][..0] + [hips, spine][1..] == [spine];
    assert [hips, spine][..1] == [hips];
    assert [hips][..0] == [];
    assert VisitsOf([hips], "", []) == Visits(hips, "", []);
    assert VisitIds(VisitsOf([hips, spine], "", [])) == VisitIds(Visits(hips, "", []) + Visits(spine, "", []));
  }
}
