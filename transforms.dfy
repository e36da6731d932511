/**
 * The host's transform hierarchy as far as the armature joiner uses it: each transform
 * has a parent, a name and a local pose; a tree snapshot records the children and names
 * below a transform; `Find` resolves a "/"-separated name path below a transform.
 */
module Transforms {
  import opened Wrappers

  /** Identifies one transform of the scene. */
  type NodeId = nat

  datatype Vector3 = Vector3(x: real, y: real, z: real)
  datatype Quaternion = Quaternion(x: real, y: real, z: real, w: real)

  /** `localPosition`, `localRotation` and `localScale`. */
  datatype Pose = Pose(localPosition: Vector3, localRotation: Quaternion, localScale: Vector3)

  /** `Vector3.zero`, `Quaternion.identity` and `Vector3.one`. */
  const RestPose: Pose := Pose(Vector3(0.0, 0.0, 0.0), Quaternion(0.0, 0.0, 0.0, 1.0), Vector3(1.0, 1.0, 1.0))

  /** The state of one transform that the joiner reads or writes. */
  datatype NodeState = NodeState(parent: Option<NodeId>, name: string, pose: Pose)

  /** A transform with its name and its children, in child order, as they stand before a join. */
  datatype Tree = Tree(id: NodeId, name: string, children: seq<Tree>)

  // ---------------------------------------------------------------------------
  // Descendants

  /** The subtrees below a list of siblings, each sibling followed by its own descendants. */
  function Descendants(ts: seq<Tree>): seq<Tree>
    decreases ts
  {
    if |ts| == 0 then []
    else Descendants(ts[..|ts| - 1]) + ([ts[|ts| - 1]] + Descendants(ts[|ts| - 1].children))
  }

  /** Whether `id` is the transform at the root of `t` or below it. */
  predicate Contains(t: Tree, id: NodeId)
    decreases t
  {
    t.id == id || exists i :: 0 <= i < |t.children| && Contains(t.children[i], id)
  }

  /** The identifiers of a list of subtrees. */
  function Ids(ts: seq<Tree>): seq<NodeId> {
    seq(|ts|, i requires 0 <= i < |ts| => ts[i].id)
  }

  /** No transform occurs twice. */
  predicate Distinct(ids: seq<NodeId>) {
    forall i, j :: 0 <= i < j < |ids| ==> ids[i] != ids[j]
  }

  /** A tree whose transforms are all different: the root, then its descendants. */
  predicate WellFormed(t: Tree) {
    Distinct([t.id] + Ids(Descendants(t.children)))
  }

  /** The descendants of some siblings are exactly the transforms some sibling contains. */
  lemma {:induction false} DescendantsSpec(ts: seq<Tree>, id: NodeId)
    ensures id in Ids(Descendants(ts)) <==> exists i :: 0 <= i < |ts| && Contains(ts[i], id)
    decreases ts
  {
    if |ts| > 0 {
      var init := ts[..|ts| - 1];
      var last := ts[|ts| - 1];
      DescendantsSpec(init, id);
      DescendantsSpec(last.children, id);
      IdsAppend(Descendants(init), [last] + Descendants(last.children));
      IdsAppend([last], Descendants(last.children));
      if id in Ids(Descendants(init)) {
        var i :| 0 <= i < |init| && Contains(init[i], id);
        assert ts[i] == init[i];
      }
      if exists i :: 0 <= i < |ts| && Contains(ts[i], id) {
        var i :| 0 <= i < |ts| && Contains(ts[i], id);
        if i < |init| {
          assert init[i] == ts[i];
        } else {
          assert ts[i] == last;
          if last.id == id {
            assert Ids([last] + Descendants(last.children))[0] == id;
          } else {
            assert exists j :: 0 <= j < |last.children| && Contains(last.children[j], id);
            assert id in Ids(Descendants(last.children));
          }
        }
      }
    }
  }

  /** The descendants of two runs of siblings are those of the first, then those of the second. */
  lemma DescendantsAppend(xs: seq<Tree>, ys: seq<Tree>)
    ensures Descendants(xs + ys) == Descendants(xs) + Descendants(ys)
    decreases |ys|
  {
    if |ys| > 0 {
      var init := ys[..|ys| - 1];
      assert (xs + ys)[..|xs + ys| - 1] == xs + init;
      DescendantsAppend(xs, init);
    } else {
      assert xs + ys == xs;
    }
  }

  /** Dropping the first of some different transforms leaves different transforms. */
  lemma DistinctTail(x: NodeId, ids: seq<NodeId>)
    requires Distinct([x] + ids)
    ensures Distinct(ids)
  {
    forall i, j | 0 <= i < j < |ids| ensures ids[i] != ids[j] {
      assert ([x] + ids)[i + 1] == ids[i] && ([x] + ids)[j + 1] == ids[j];
    }
  }

  lemma IdsAppend(a: seq<Tree>, b: seq<Tree>)
    ensures Ids(a + b) == Ids(a) + Ids(b)
  {
  }

  /**
   * In a well-formed tree the root is not among its own descendants, so a walk over
   * the descendants never touches it.
   */
  lemma RootNotDescendant(t: Tree)
    requires WellFormed(t)
    ensures t.id !in Ids(Descendants(t.children))
  {
    var d := Ids(Descendants(t.children));
    forall k | 0 <= k < |d| ensures d[k] != t.id {
      assert ([t.id] + d)[0] == t.id && ([t.id] + d)[k + 1] == d[k];
    }
  }

  // ---------------------------------------------------------------------------
  // Name paths

  /** The names joined by "/". */
  function JoinNames(names: seq<string>): string
    requires |names| > 0
  {
    if |names| == 1 then names[0] else JoinNames(names[..|names| - 1]) + "/" + names[|names| - 1]
  }

  /** The parts of a path between its "/" separators. */
  function Split(s: string): (parts: seq<string>)
    ensures |parts| > 0
  {
    if |s| == 0 then [""]
    else if s[|s| - 1] == '/' then Split(s[..|s| - 1]) + [""]
    else
      var r := Split(s[..|s| - 1]);
      r[..|r| - 1] + [r[|r| - 1] + [s[|s| - 1]]]
  }

  /** A name free of "/" is one part. */
  lemma {:induction false} SplitName(n: string)
    requires '/' !in n
    ensures Split(n) == [n]
  {
    if |n| > 0 {
      SplitName(n[..|n| - 1]);
      assert n[..|n| - 1] + [n[|n| - 1]] == n;
    }
  }

  /** Splitting after a last separator adds the last name as one more part. */
  lemma {:induction false} SplitLast(x: string, n: string)
    requires '/' !in n
    ensures Split(x + "/" + n) == Split(x) + [n]
  {
    if |n| == 0 {
      assert x + "/" + n == x + "/";
      assert (x + "/")[..|x + "/"| - 1] == x;
    } else {
      var n' := n[..|n| - 1];
      SplitLast(x, n');
      assert (x + "/" + n)[..|x + "/" + n| - 1] == x + "/" + n';
      assert n' + [n[|n| - 1]] == n;
    }
  }

  /** `Find` splits a joined path back into the names it was joined from. */
  lemma {:induction false} SplitJoinNames(names: seq<string>)
    requires |names| > 0 && forall i :: 0 <= i < |names| ==> '/' !in names[i]
    ensures Split(JoinNames(names)) == names
  {
    if |names| == 1 {
      SplitName(names[0]);
    } else {
      var init := names[..|names| - 1];
      SplitJoinNames(init);
      SplitLast(JoinNames(init), names[|names| - 1]);
      assert init + [names[|names| - 1]] == names;
    }
  }

  // ---------------------------------------------------------------------------
  // Find

  /**
   * `Transform.Find` below `t` for a path split into names: depth first, trying the
   * children with the first name in child order until one leads to the rest.
   */
  function FindNames(t: Tree, names: seq<string>): Option<NodeId>
    decreases t, 1
  {
    if |names| == 0 then Some(t.id) else FindAmong(t.children, names[0], names[1..])
  }

  /** The first of some siblings named `n` below which the names `rest` lead somewhere. */
  function FindAmong(ts: seq<Tree>, n: string, rest: seq<string>): Option<NodeId>
    decreases ts, 0
  {
    if |ts| == 0 then None
    else if ts[0].name == n && FindNames(ts[0], rest).Some? then FindNames(ts[0], rest)
    else FindAmong(ts[1..], n, rest)
  }

  /** `Transform.Find`: the transform below `t` at the "/"-separated path. */
  function Find(t: Tree, path: string): Option<NodeId> {
    FindNames(t, Split(path))
  }

  /** Whether the names lead from `t` down to transform `id`, one child per name. */
  predicate NamePath(t: Tree, names: seq<string>, id: NodeId)
    decreases t
  {
    if |names| == 0 then t.id == id
    else exists i :: 0 <= i < |t.children| && t.children[i].name == names[0] && NamePath(t.children[i], names[1..], id)
  }

  /**
   * The search among siblings answers from the first sibling that has the name and
   * leads on; none answers only when no sibling with the name leads on.
   */
  lemma {:induction false} FindAmongFirst(ts: seq<Tree>, n: string, rest: seq<string>)
    ensures var r := FindAmong(ts, n, rest);
      && (r.Some? ==> exists i :: (0 <= i < |ts| && ts[i].name == n && FindNames(ts[i], rest) == r
            && forall j :: 0 <= j < i ==> ts[j].name != n || FindNames(ts[j], rest).None?))
      && (r.None? ==> forall i :: 0 <= i < |ts| && ts[i].name == n ==> FindNames(ts[i], rest).None?)
  {
    if |ts| > 0 && !(ts[0].name == n && FindNames(ts[0], rest).Some?) {
      var tail := ts[1..];
      FindAmongFirst(tail, n, rest);
      var r := FindAmong(ts, n, rest);
      assert r == FindAmong(tail, n, rest);
      if r.Some? {
        var i :| 0 <= i < |tail| && tail[i].name == n && FindNames(tail[i], rest) == r
          && forall j :: 0 <= j < i ==> tail[j].name != n || FindNames(tail[j], rest).None?;
        assert ts[i + 1] == tail[i];
        forall j | 0 <= j < i + 1 ensures ts[j].name != n || FindNames(ts[j], rest).None? {
          if j > 0 {
            assert ts[j] == tail[j - 1];
          }
        }
      } else {
        forall i | 0 <= i < |ts| && ts[i].name == n ensures FindNames(ts[i], rest).None? {
          if i > 0 {
            assert ts[i] == tail[i - 1];
          }
        }
      }
    }
  }

  /** What `Find` finds lies at the end of that name path below `t`. */
  lemma {:induction false} FindNamesSpec(t: Tree, names: seq<string>)
    ensures FindNames(t, names).Some? ==> NamePath(t, names, FindNames(t, names).value)
    decreases t
  {
    if |names| > 0 && FindNames(t, names).Some? {
      FindAmongFirst(t.children, names[0], names[1..]);
      var i :| 0 <= i < |t.children| && t.children[i].name == names[0]
        && FindNames(t.children[i], names[1..]) == FindNames(t, names)
        && forall j :: 0 <= j < i ==> t.children[j].name != names[0] || FindNames(t.children[j], names[1..]).None?;
      FindNamesSpec(t.children[i], names[1..]);
    }
  }

  /** Whenever some transform lies at the end of the name path, `Find` finds one. */
  lemma {:induction false} FindNamesComplete(t: Tree, names: seq<string>, id: NodeId)
    requires NamePath(t, names, id)
    ensures FindNames(t, names).Some?
    decreases t
  {
    if |names| > 0 {
      var i :| 0 <= i < |t.children| && t.children[i].name == names[0] && NamePath(t.children[i], names[1..], id);
      FindNamesComplete(t.children[i], names[1..], id);
      FindAmongFirst(t.children, names[0], names[1..]);
    }
  }
}
