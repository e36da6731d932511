/**
 * Clip gathering for the wizards: the clips of a motion tree in leaf order, the clips
 * of the selected state machines, states and clip assets, and the help message shown
 * when nothing was found.
 */
module AnimUtil {
  import opened AnimationData

  /** A state's motion: a clip, a blend tree over child motions, another kind, or null. */
  datatype Motion =
    | ClipMotion(clip: Clip)
    | BlendTree(children: seq<Motion>)
    | OtherMotion
    | NoMotion

  /** An animator state and the motion it plays. */
  datatype State = State(motion: Motion)

  /** A layer's state machine and its direct states. */
  datatype StateMachine = StateMachine(states: seq<State>)

  // ---------------------------------------------------------------------------
  // Specification of the flattening

  /** The clips of a motion tree, leaves left to right. */
  function Leaves(m: Motion): seq<Clip>
    decreases m, 1
  {
    match m
    case ClipMotion(c) => [c]
    case BlendTree(children) => LeavesOf(children)
    case OtherMotion => []
    case NoMotion => []
  }

  /** The clips of a sequence of sibling motions, each sibling's after the previous ones'. */
  function LeavesOf(ms: seq<Motion>): seq<Clip>
    decreases ms, 0
  {
    if |ms| == 0 then [] else LeavesOf(ms[..|ms| - 1]) + Leaves(ms[|ms| - 1])
  }

  /** Whether `c` is a clip leaf somewhere in the tree. */
  predicate HasLeaf(m: Motion, c: Clip)
    decreases m
  {
    match m
    case ClipMotion(d) => d == c
    case BlendTree(children) => exists i :: 0 <= i < |children| && HasLeaf(children[i], c)
    case OtherMotion => false
    case NoMotion => false
  }

  /** The flattening lists exactly the clip leaves of the tree. */
  lemma {:induction false} LeavesSpec(m: Motion, c: Clip)
    ensures c in Leaves(m) <==> HasLeaf(m, c)
    decreases m, 1
  {
    match m
    case ClipMotion(d) =>
    case BlendTree(children) =>
      LeavesOfSpec(children, c);
    case OtherMotion =>
    case NoMotion =>
  }

  /** The flattening of siblings lists exactly the clip leaves of some sibling. */
  lemma {:induction false} LeavesOfSpec(ms: seq<Motion>, c: Clip)
    ensures c in LeavesOf(ms) <==> exists i :: 0 <= i < |ms| && HasLeaf(ms[i], c)
    decreases ms, 0
  {
    if |ms| > 0 {
      var init := ms[..|ms| - 1];
      LeavesOfSpec(init, c);
      LeavesSpec(ms[|ms| - 1], c);
      if c in LeavesOf(ms) && c in LeavesOf(init) {
        var i :| 0 <= i < |init| && HasLeaf(init[i], c);
        assert ms[i] == init[i];
      }
      if exists i :: 0 <= i < |ms| && HasLeaf(ms[i], c) {
        var i :| 0 <= i < |ms| && HasLeaf(ms[i], c);
        if i < |init| {
          assert init[i] == ms[i];
        }
      }
    }
  }

  /** A blend tree's clips are its children's, in child order. */
  lemma LeavesOfSnoc(ms: seq<Motion>, m: Motion)
    ensures LeavesOf(ms + [m]) == LeavesOf(ms) + Leaves(m)
  {
    assert (ms + [m])[..|ms|] == ms;
  }

  /** The clips of the direct states of the selected state machines, machine by machine. */
  function MachineClips(machines: seq<StateMachine>): seq<Clip> {
    if |machines| == 0 then []
    else MachineClips(machines[..|machines| - 1]) + StateClips(machines[|machines| - 1].states)
  }

  /** The clips of the motions of some states, state by state. */
  function StateClips(states: seq<State>): seq<Clip> {
    if |states| == 0 then [] else StateClips(states[..|states| - 1]) + Leaves(states[|states| - 1].motion)
  }

  /** The list `GetSelectedClips` builds: machine clips, then state clips, then clip assets. */
  function SelectedClips(machines: seq<StateMachine>, states: seq<State>, assets: seq<Clip>): seq<Clip> {
    MachineClips(machines) + StateClips(states) + assets
  }

  /** A clip comes from a state's motion iff it is a leaf of one of the states' motion trees. */
  lemma {:induction false} StateClipsSpec(states: seq<State>, c: Clip)
    ensures c in StateClips(states) <==> exists i :: 0 <= i < |states| && HasLeaf(states[i].motion, c)
  {
    if |states| > 0 {
      var init := states[..|states| - 1];
      StateClipsSpec(init, c);
      LeavesSpec(states[|states| - 1].motion, c);
      if c in StateClips(states) && c in StateClips(init) {
        var i :| 0 <= i < |init| && HasLeaf(init[i].motion, c);
        assert states[i] == init[i];
      }
      if exists i :: 0 <= i < |states| && HasLeaf(states[i].motion, c) {
        var i :| 0 <= i < |states| && HasLeaf(states[i].motion, c);
        if i < |init| {
          assert init[i] == states[i];
        }
      }
    }
  }

  /** A clip comes from a state machine iff it is a leaf under one of its direct states. */
  lemma {:induction false} MachineClipsSpec(machines: seq<StateMachine>, c: Clip)
    ensures c in MachineClips(machines) <==>
      exists i, j :: 0 <= i < |machines| && 0 <= j < |machines[i].states| && HasLeaf(machines[i].states[j].motion, c)
  {
    if |machines| > 0 {
      var init := machines[..|machines| - 1];
      var last := machines[|machines| - 1];
      MachineClipsSpec(init, c);
      StateClipsSpec(last.states, c);
      if c in MachineClips(machines) {
        if c in MachineClips(init) {
          var i, j :| 0 <= i < |init| && 0 <= j < |init[i].states| && HasLeaf(init[i].states[j].motion, c);
          assert machines[i] == init[i];
        } else {
          var j :| 0 <= j < |last.states| && HasLeaf(last.states[j].motion, c);
          assert machines[|machines| - 1] == last;
        }
      }
      if exists i, j :: 0 <= i < |machines| && 0 <= j < |machines[i].states| && HasLeaf(machines[i].states[j].motion, c) {
        var i, j :| 0 <= i < |machines| && 0 <= j < |machines[i].states| && HasLeaf(machines[i].states[j].motion, c);
        if i < |init| {
          assert init[i] == machines[i];
        }
      }
    }
  }

  /**
   * A clip is listed iff it is a leaf under a direct state of a selected machine, or
   * under a selected state, or is itself a selected asset; duplicates are kept.
   */
  lemma SelectedClipsSpec(machines: seq<StateMachine>, states: seq<State>, assets: seq<Clip>, c: Clip)
    ensures c in SelectedClips(machines, states, assets) <==>
      || (exists i, j :: 0 <= i < |machines| && 0 <= j < |machines[i].states| && HasLeaf(machines[i].states[j].motion, c))
      || (exists i :: 0 <= i < |states| && HasLeaf(states[i].motion, c))
      || c in assets
    ensures |SelectedClips(machines, states, assets)| ==
      |MachineClips(machines)| + |StateClips(states)| + |assets|
  {
    MachineClipsSpec(machines, c);
    StateClipsSpec(states, c);
  }

  // ---------------------------------------------------------------------------
  // The imperative list building

  /** The `List<AnimationClip>` the clips are appended to. */
  class ClipList {
    var items: seq<Clip>

    constructor ()
      ensures items == []
    {
      items := [];
    }

    /** `List.Add`: appends at the end. */
    method Add(c: Clip)
      modifies this
      ensures items == old(items) + [c]
    {
      items := items + [c];
    }
  }

  /**
   * `GetClips`: appends the clips of the motion tree, leaves left to right, after what
   * the list already holds.
   */
  method GetClips(clips: ClipList, motion: Motion)
    modifies clips
    ensures clips.items == old(clips.items) + Leaves(motion)
    decreases motion
  {
    match motion {
      case ClipMotion(c) =>
        clips.Add(c);
      case BlendTree(children) =>
        var j := 0;
        while j < |children|
          invariant 0 <= j <= |children|
          invariant clips.items == old(clips.items) + LeavesOf(children[..j])
        {
          GetClips(clips, children[j]);
          LeavesOfSnoc(children[..j], children[j]);
          assert children[..j + 1] == children[..j] + [children[j]];
          j := j + 1;
        }
        assert children[..j] == children;
      case OtherMotion =>
      case NoMotion =>
    }
  }

  /** One `foreach` over states of `GetSelectedClips`: each state's motion through `GetClips`. */
  method AddStateClips(clips: ClipList, states: seq<State>)
    modifies clips
    ensures clips.items == old(clips.items) + StateClips(states)
  {
    var j := 0;
    while j < |states|
      invariant 0 <= j <= |states|
      invariant clips.items == old(clips.items) + StateClips(states[..j])
    {
      GetClips(clips, states[j].motion);
      assert states[..j + 1][..j] == states[..j];
      j := j + 1;
    }
    assert states[..j] == states;
  }

  /**
   * `GetSelectedClips`: the clips of the direct states of the editable selected state
   * machines, then of the editable selected states, then the selected clip assets.
   */
  method GetSelectedClips(machines: seq<StateMachine>, states: seq<State>, assets: seq<Clip>)
    returns (selected: seq<Clip>)
    ensures selected == SelectedClips(machines, states, assets)
  {
    var clips := new ClipList();
    var i := 0;
    while i < |machines|
      invariant 0 <= i <= |machines|
      invariant clips.items == MachineClips(machines[..i])
    {
      AddStateClips(clips, machines[i].states);
      assert machines[..i + 1][..i] == machines[..i];
      i := i + 1;
    }
    assert machines[..i] == machines;
    AddStateClips(clips, states);
    var a := 0;
    while a < |assets|
      invariant 0 <= a <= |assets|
      invariant clips.items == MachineClips(machines) + StateClips(states) + assets[..a]
    {
      clips.Add(assets[a]);
      assert assets[..a + 1] == assets[..a] + [assets[a]];
      a := a + 1;
    }
    assert assets[..a] == assets;
    selected := clips.items;
  }

  // ---------------------------------------------------------------------------
  // The help message

  /** `Application.systemLanguage`, as far as the message depends on it. */
  datatype SystemLanguage = Korean | English | OtherLanguage

  const HelpMessageEnglish: string :=
    "When you open it with layer(state machine), states or clip assets selected,"
    + " all included clips are automatically listed."

  const HelpMessageKorean: string :=
    "레이어(상태 머신), 상태 또는 클립 애셋을 선택한 상태에서 열면 포함된 모든 클립이 자동으로 나열됩니다."

  /** `ClipSelectionHelpMessage`: the Korean text iff the system language is Korean. */
  function ClipSelectionHelpMessage(language: SystemLanguage): (message: string)
    ensures message == HelpMessageKorean <==> language == Korean
    ensures message == HelpMessageEnglish <==> language != Korean
  {
    if language == Korean then HelpMessageKorean else HelpMessageEnglish
  }
}
