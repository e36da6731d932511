# Verified model of the unity-vrchat-tools editor wizards

This project models in Dafny the logic at the heart of four Unity editor tools from
unity-vrchat-tools, and proves what they do:

- **Expression / animation clip clean-up** (`ExpressionCleaner`, `AnimationCleaner`).
  - A first pass collects the blendshape `(path, propertyName)` pairs common to the selected clips.
  - A second pass keeps or deletes each blendshape curve of every clip. It normalises the key arrays it keeps and can synthesise curves for missing common pairs.
  - Each clip's loop settings are switched off.
  - The two wizards differ only in where their six settings come from: a flag set or six boolean fields. Both call the same passes (`CurvePasses`), which are proved against one specification (`CurveRules`).
- **Property renamer** (`PropertyRenamer`): moves every curve bound under one path to another path. It also collects the distinct binding paths of the selected clips for its popup.
- **Armature joiner** (`ArmatureJoiner`, over `Transforms`): finds a counterpart in `base` for every transform below `additive`, matching by relative path (exact mode) or by name alone (fuzzy mode, through a name index built from `base`). A matched transform is reparented under its counterpart, its name gets a suffix, and unless the world placement is kept, its local pose is reset.
- **Clip gathering** (`AnimUtil`): flattens a motion tree into its clip leaves, in order, and lists the clips of the selected state machines, states and clip assets. It also picks the help message by system language.

State the source changes in place is modelled with classes:
- a clip (`AnimationData.Clip`: a binding→keys map plus two loop flags);
- the wizards and their fields;
- the clip list `GetClips` appends to;
- the joiner's transform table (`NodeId → parent, name, pose`) and its name index.

Each imperative method is proved against a specification function, for example `CleanClip`, `Renamed`, `Applied`, `Leaves` or `AddAll`. Lemmas then prove what the source promises about those functions.

## Model

| member | source | states |
|---|---|---|
| CurveRules.IsCurveBeingUsed | Animations/ExpressionCleaner.cs:119-129 | a curve is in use iff it has a key and its first key's value is not within the `Mathf.Approximately` tolerance of 0 |
| CurveRules.ZeroFirstTime | Animations/ExpressionCleaner.cs:104-106 | only the first key's time changes, to 0; length, first value and later keys are kept |
| CurveRules.FirstOnly | Animations/ExpressionCleaner.cs:107-109 | resizing to one key keeps exactly the first key |
| CurveRules.PadToTwo | Animations/ExpressionCleaner.cs:110-114 | one key gains a second with the same value one frame (1/30) later; two or more keys are untouched |
| CurveRules.ValidatedKeysSpec | Animations/ExpressionCleaner.cs:89-117 | an empty curve is written back iff AddKeyframeIfEmpty is set, starting from one default key. The first value is kept. The first time is zeroed iff ForceFirstKeyTimeZero. KeepOnlyFirstKeyframe gives 1 key, or 2 with AtLeastTwoKeyframes. AtLeastTwoKeyframes gives at least 2, and exactly 2 when at most one key came in; a padded key lies one frame after the first. Later keys are untouched when nothing truncates |
| CurveRules.ValidatedIdempotent | Animations/ExpressionCleaner.cs:89-117 | validating a validated curve changes nothing |
| CurveRules.ValidatedKeepsUse | Animations/ExpressionCleaner.cs:104-129 | validation keeps the first value, so a curve in use stays in use |
| CurveRules.BlendshapeBinding | Animations/ExpressionCleaner.cs:74-78 | the synthesised binding is a SkinnedMeshRenderer binding with the missing pair's path and property |
| CurveRules.PairsOf | Animations/ExpressionCleaner.cs:50-70 | a pair is removed from `missingProps` iff the clip has its blendshape binding |
| CurveRules.Synthesised | Animations/ExpressionCleaner.cs:72-80 | one new curve per missing pair, exactly under its blendshape binding |
| CurveRules.CommonPropsSpec | Animations/ExpressionCleaner.cs:30-46 | `commonProps` is empty unless sharing. Otherwise a pair is in it iff some clip has a blendshape binding with that pair whose curve is in use, or any such binding when RemoveUnusedCurves is off |
| CurveRules.CleanClipSpec | Animations/ExpressionCleaner.cs:48-81 | Non-blendshape bindings pass through unchanged and are never created. A kept blendshape curve is its validated original. Without sharing, a blendshape binding is kept iff its curve is in use, whatever RemoveUnusedCurves says, and nothing is created. With sharing, a binding is kept iff its pair is common, and nothing outside the common pairs survives. A common pair the clip lacked is created iff AddKeyframeIfEmpty, as a validated default key |
| CurveRules.CleanBindingsStep | Animations/ExpressionCleaner.cs:51-71 | visiting one more snapshot binding: a non-blendshape binding is skipped, a kept one is validated in place, any other is deleted |
| CurveRules.AddMissingStep | Animations/ExpressionCleaner.cs:72-80 | validating one more missing pair adds its synthesised curve and nothing else |
| CurveRules.CleanClipIdempotent | Animations/ExpressionCleaner.cs:48-86 | cleaning an already cleaned clip with the same common pairs changes nothing (a clip listed twice ends as if listed once) |
| CurveRules.DefaultCleanUp | Animations/AnimationCleaner.cs:121-127 | under the default settings, every surviving blendshape curve has one key, at time 0, with a value not near 0, and every unused blendshape curve is deleted |
| CurveRules.ShareWithoutRemovalKeepsAll | Animations/AnimationCleaner.cs:20-59 | sharing without RemoveUnusedCurves deletes no blendshape binding of any clip |
| AnimationData.Resize | Animations/ExpressionCleaner.cs:108-111 | `Array.Resize` yields an array of the new length holding the old prefix, padded with default keys |
| CurvePasses.CollectFromClip | Animations/ExpressionCleaner.cs:33-44 | the inner loop of the first pass adds exactly the pairs of the clip's contributing blendshape bindings |
| CurvePasses.CollectCommonProps | Animations/ExpressionCleaner.cs:30-46 | the first pass yields `CommonProps` of the clips' curve tables as they are before any change |
| CurvePasses.NormaliseKeys | Animations/ExpressionCleaner.cs:91-115 | the array steps of `ValidateCurve` produce exactly `ValidatedKeys` |
| CurvePasses.ValidateCurve | Animations/ExpressionCleaner.cs:89-117 | the clip's table changes only at the binding, to what `ValidateCurve` writes, or not at all on the early return |
| CurvePasses.CleanBindingsInPlace | Animations/ExpressionCleaner.cs:50-71 | after the binding loop the table is `CleanBindings` of the original, and `missingProps` is the common pairs the clip had no blendshape binding for |
| CurvePasses.AddMissingInPlace | Animations/ExpressionCleaner.cs:72-81 | the loop over `missingProps` adds exactly the synthesised curves |
| CurvePasses.CleanClipInPlace | Animations/ExpressionCleaner.cs:49-85 | one clip ends as `CleanClip` of its original table with both loop flags off, even if it was already cleaned earlier in the list |
| CurvePasses.CleanUp | Animations/ExpressionCleaner.cs:28-87 | every listed clip ends as `CleanClip` of its original table under the common pairs of all original tables, with loopTime and loopBlend false |
| ExpressionCleaner.CleanUp | Animations/ExpressionCleaner.cs:28-87 | as above, each setting read from its flag bit |
| ExpressionCleaner.ExpressionCleaner.constructor | Animations/ExpressionCleaner.cs:132-144 | the field defaults are the default settings, and the wizard is valid iff a clip was selected |
| ExpressionCleaner.ExpressionCleaner.OnValidate | Animations/ExpressionCleaner.cs:146-149 | valid iff the clip list is non-empty |
| ExpressionCleaner.ExpressionCleaner.WizardFlags | Animations/ExpressionCleaner.cs:153-171 | each flag is set iff its field is, and no other bit is set |
| ExpressionCleaner.ExpressionCleaner.OnWizardCreate | Animations/ExpressionCleaner.cs:151-173 | cleans the listed clips under the settings of the six fields |
| AnimationCleaner.AnimationCleaner.constructor | Animations/AnimationCleaner.cs:121-133 | the field defaults are removeUnusedCurves, forceFirstKeyTimeZero and keepOnlyFirstKeyframe on, the rest off; valid iff a clip was selected |
| AnimationCleaner.AnimationCleaner.OnValidate | Animations/AnimationCleaner.cs:135-138 | valid iff the clip list is non-empty |
| AnimationCleaner.AnimationCleaner.CleanUp | Animations/AnimationCleaner.cs:17-106 | the same result as the flag version, with each field standing for the flag of the same name; loop flags forced off |
| AnimationCleaner.AnimationCleaner.OnWizardCreate | Animations/AnimationCleaner.cs:140-143 | runs `CleanUp` |
| PropertyRenamer.RenamedSpec | Animations/PropertyRenamer.cs:18-32 | A binding survives iff it was off `path`, or it is the move of a binding under `path`. A binding under `path` ends under `newPath` with the same property, type and curve. Any other survivor keeps its curve. A binding already at the target is overwritten. If `path != newPath`, no binding keeps the old path |
| PropertyRenamer.RenameToSelf | Animations/PropertyRenamer.cs:27-28 | renaming a path to itself leaves the curves unchanged |
| PropertyRenamer.RenamedTwice | Animations/PropertyRenamer.cs:20-31 | renaming a renamed clip again changes nothing (a clip listed twice ends as if listed once) |
| PropertyRenamer.RenameStep | Animations/PropertyRenamer.cs:21-29 | visiting one more binding of the snapshot: the binding under `path` is deleted and its original curve written under `newPath`; a binding written earlier is never revisited |
| PropertyRenamer.RenameInClip | Animations/PropertyRenamer.cs:21-30 | the loop over the snapshot of one clip's bindings yields `Renamed` of its original table |
| PropertyRenamer.Rename | Animations/PropertyRenamer.cs:18-32 | every listed clip ends as `Renamed` of its original table; the loop settings are untouched |
| PropertyRenamer.AllPathsSpec | Animations/PropertyRenamer.cs:51-56 | a path is collected iff some clip has a binding under it |
| PropertyRenamer.CollectAllPaths | Animations/PropertyRenamer.cs:51-56 | the loops of `OnValidate` collect `AllPaths` of the clips' tables |
| PropertyRenamer.CollectPaths | Animations/PropertyRenamer.cs:53-55 | one clip's binding paths are added to the set |
| PropertyRenamer.ToArray | Animations/PropertyRenamer.cs:57 | the array holds each element of the set exactly once |
| PropertyRenamer.FirstOrDefault | Animations/PropertyRenamer.cs:62 | the first path, or none (null) for an empty array |
| PropertyRenamer.SelectedPath | Animations/PropertyRenamer.cs:72 | the path at the popup's index, if the index is within the array |
| PropertyRenamer.PropertyRenamer.constructor | Animations/PropertyRenamer.cs:41-45 | `OnEnable`: the selected clips are listed, the wizard is valid iff there is one, and `paths` lists every binding path of them exactly once |
| PropertyRenamer.PropertyRenamer.OnValidate | Animations/PropertyRenamer.cs:47-58 | valid iff a clip is listed; `paths` lists every binding path of the clips exactly once |
| PropertyRenamer.PropertyRenamer.OnWizardCreate | Animations/PropertyRenamer.cs:60-63 | renames the first offered path, whatever the popup selects; with no path no curve changes; the loop settings never change |
| PropertyRenamer.PropertyRenamer.OnWizardCreateSelected | Animations/PropertyRenamer.cs:72 | renames the path the popup selects; with no valid selection no curve changes; the loop settings never change |
| PropertyRenamer.SelectedPathIgnored | Animations/PropertyRenamer.cs:62 | with paths Body, Face and Face selected, the wizard moves the Body curve and leaves the Face curve |
| AnimUtil.LeavesSpec | Animations/AnimUtil.cs:39-50 | a clip is gathered from a motion iff it is a clip leaf of the motion tree; null and other motions give nothing |
| AnimUtil.LeavesOfSpec | Animations/AnimUtil.cs:44-49 | a blend tree's clips are exactly the leaves of its children |
| AnimUtil.StateClipsSpec | Animations/AnimUtil.cs:30-32 | the selected states give exactly the leaves of their motions |
| AnimUtil.MachineClipsSpec | Animations/AnimUtil.cs:25-29 | the selected state machines give exactly the leaves under their direct states |
| AnimUtil.SelectedClipsSpec | Animations/AnimUtil.cs:22-37 | a clip is listed iff it comes from a machine's state, a selected state or is a selected asset; the length is the sum of the three parts, so duplicates are kept |
| AnimUtil.ClipList.Add | Animations/AnimUtil.cs:42 | `List.Add` appends at the end |
| AnimUtil.GetClips | Animations/AnimUtil.cs:39-50 | the list keeps its prior contents and gains the motion tree's clip leaves, left to right |
| AnimUtil.AddStateClips | Animations/AnimUtil.cs:30-32 | the list gains the leaves of each state's motion, state by state |
| AnimUtil.GetSelectedClips | Animations/AnimUtil.cs:22-37 | machine clips, then state clips, then clip assets, in that order |
| AnimUtil.ClipSelectionHelpMessage | Animations/AnimUtil.cs:10-20 | the Korean text iff the system language is Korean, the English text otherwise |
| Transforms.DescendantsSpec | ArmatureJoiner.cs:64-75 | the transforms below some siblings are exactly those some sibling's subtree contains |
| Transforms.RootNotDescendant | ArmatureJoiner.cs:37-39 | in a tree without repeated transforms the root is not among its descendants |
| Transforms.SplitJoinNames | ArmatureJoiner.cs:44-48 | splitting a path joined from "/"-free names gives back the names |
| Transforms.FindAmongFirst | ArmatureJoiner.cs:48 | among siblings, `Find` answers from the first child that has the name and leads on along the rest of the path; it finds nothing only when no child with the name leads on |
| Transforms.FindNamesSpec | ArmatureJoiner.cs:48 | what `Find` returns lies at the end of the name path below the transform |
| Transforms.FindNamesComplete | ArmatureJoiner.cs:48 | whenever some transform lies at the end of the name path, `Find` finds one, also when siblings on the way share a name |
| ArmatureJoiner.AddAllSucceeds | ArmatureJoiner.cs:69-75 | filling the index succeeds iff no name repeats and none was present |
| ArmatureJoiner.AddAllIndex | ArmatureJoiner.cs:69-75 | a filled index holds exactly the earlier names and the added names, each leading to its transform |
| ArmatureJoiner.BaseIndexSpec | ArmatureJoiner.cs:69-75 | The index build fails iff two transforms below `base` share a name. Otherwise it covers exactly the transforms strictly below `base`, keyed by name, and never `base` itself |
| ArmatureJoiner.VisitsCoverDescendants | ArmatureJoiner.cs:64-66 | the walk visits every original descendant exactly once, in pre-order, whether or not its parent matched |
| ArmatureJoiner.VisitPaths | ArmatureJoiner.cs:44-65 | each lookup path is the names from the first level below `additive` down to the transform, joined by "/", built from names before the suffix |
| ArmatureJoiner.Match | ArmatureJoiner.cs:46-51 | exact mode finds the lookup path relative to `base`; fuzzy mode matches iff the name is in the index, to its entry |
| ArmatureJoiner.JoinedSpec | ArmatureJoiner.cs:53-62 | a matched transform gets the match as parent and the name plus " " plus suffix. Its pose is the rest pose unless the world placement is kept. An unmatched transform keeps everything |
| ArmatureJoiner.AppliedSpec | ArmatureJoiner.cs:42-67 | when no transform is visited twice, each visited transform ends as its visit leaves it and every other transform is unchanged |
| ArmatureJoiner.SiblingReady | ArmatureJoiner.cs:64-66 | when a child's subtree is joined, the earlier siblings' joins have left every transform in it as the snapshot records it, and none of them repeats |
| ArmatureJoiner.ArmatureJoiner.constructor | ArmatureJoiner.cs:19-29 | the roots, suffix and modes as the inspector sets them, an empty name index, and valid iff both roots are set |
| ArmatureJoiner.ArmatureJoiner.OnValidate | ArmatureJoiner.cs:26-29 | valid iff both `base` and `additive` are set |
| ArmatureJoiner.ArmatureJoiner.BuildDictionary | ArmatureJoiner.cs:69-75 | the index becomes `AddAll` of the transforms below `t`, in order, or the repeated name is reported |
| ArmatureJoiner.ArmatureJoiner.JoinNode | ArmatureJoiner.cs:44-62 | the visited transform alone changes, to what `Joined` gives for its visit: moved under its counterpart with the suffixed name if it has one, untouched otherwise |
| ArmatureJoiner.ArmatureJoiner.Join | ArmatureJoiner.cs:42-67 | the transforms end as the walk from `current` leaves them |
| ArmatureJoiner.ArmatureJoiner.JoinAll | ArmatureJoiner.cs:37-39 | each child of `additive` is joined with an empty prefix, over a snapshot of the children |
| ArmatureJoiner.ArmatureJoiner.OnWizardCreate | ArmatureJoiner.cs:31-40 | The join completes iff `additive` is set, and either `base` is set (in fuzzy mode with no repeated name) or the exact mode has nothing to look up. A null root or a repeated name ends it with no transform changed. On completion the transforms are the walk's result, and in fuzzy mode the index is `base`'s |
| ArmatureJoiner.JoinSpec | ArmatureJoiner.cs:37-67 | After a completed walk, `additive` itself and every transform outside it are unchanged. Every transform below it is visited once and ends as its visit leaves it |
| ArmatureJoiner.ExactMatchFollowsNames | ArmatureJoiner.cs:44-48 | in exact mode the match is `Find` of the visited transform's names from `base`: what it matches lies at the end of that name path, and a transform at the end of that path is always matched |
| ArmatureJoiner.LiveEnumerationSkipsSibling | ArmatureJoiner.cs:37 | with two top-level children both matched by name, the live enumeration reaches only the first; the snapshot walk reaches both |

## Left out

- Undo recording (`Undo.RecordObject`, `Undo.SetTransformParent`), `Selection.GetFiltered`, `DisplayWizard`, `DrawWizardGUI`, the popup and the menu items are editor plumbing. The selection reaches the model as parameters: the constructors' `selected`, and `GetSelectedClips`'s machines, states and assets, already filtered to editable objects or assets.
- BoundsEncapsulator.cs is not part of this model: it is floating-point geometry over the host's transform math.
- Key times and values are reals: `+ 1f / 30f` is exact and there is no rounding. Keyframe tangents and weights are not modelled; they are zero in a default keyframe. `Mathf.Approximately(v, 0)` is the tolerance `|v| < 8 × 1.401298e-45`.
- Clip settings other than `loopTime` and `loopBlend` are not modelled.
- `AnimationUtility.GetCurveBindings` is read as the set of the clip's bindings, taken once per clip; its order is not modelled. Each step of the second pass touches only its own binding. A step of `Rename` deletes its own binding when it lies under `path` and writes the curve at the target binding. That target may itself be a snapshot binding (the overwrite case). Its own step does nothing, because its path is not `path`, or, when the two paths are equal, it writes the same curve back. So in both passes the result does not depend on the order.
- `HashSet.ToArray` order: `ToArray` and `OnValidate` state membership and distinctness only, not which path comes first. So `OnWizardCreate`'s rename target is `paths[0]`, whatever that is.
- Both cleaners call one copy of the passes (`CurvePasses`), taking the settings as `Options`. The flag wizard converts its flags with `OptionsOf`; the field wizard reads its fields.
- `Transform.Find` is modelled as a depth-first search over the "/"-separated names: the children with each name are tried in child order until one leads to the rest of the path. It is resolved on the tree of `base` as it was before the join. The lookup path is made of `additive`'s names from before the suffix, and every transform moved under `base` during the join has a name ending in " " plus the suffix. So the live lookup and this one can differ only when a name on the lookup path itself ends in " " plus the suffix.
- ArmatureJoiner.Joined: with `keepWorldTransform` set, the host recomputes the local pose so that the world placement stays the same. That transform math is not modelled, and the model leaves the pose field as it was.
- Overlapping or cyclic `base`/`additive` hierarchies are not modelled. `OnWizardCreate` requires a tree below `additive` without repeated transforms, whose names agree with the transform table.
- The exceptions `OnWizardCreate` can raise are returned as an `Outcome`: a null root or a repeated name. Each happens before any transform has changed.
- The top-level loop of `OnWizardCreate` runs over a snapshot of `additive`'s children, like the loop at ArmatureJoiner.cs:64 does. The loop over the live children as written is modelled separately (`LiveTopLevel`); see Findings.
- CurvePasses.CleanUp: the clip list is assumed to hold no null entry. A wizard's `clips` list can be edited in the inspector, and a null entry still passes `OnValidate`. At a null clip the host's `GetCurveBindings` throws. With sharing that happens in the first pass, before any clip has changed. Without sharing it happens in the second pass, after the earlier clips were already cleaned. ExpressionCleaner.CleanUp and AnimationCleaner.AnimationCleaner.CleanUp call this pass and share the assumption.
- PropertyRenamer.Rename: the clip list is assumed to hold no null entry. At a null clip `GetCurveBindings` throws, and the clips before it stay renamed.
- PropertyRenamer.PropertyRenamer.OnValidate: the clip list is assumed to hold no null entry. At a null clip `GetCurveBindings` throws after `isValid` is set, and `paths` keeps its previous value.

## Findings

| source | as written | input that shows it | evidently intended | confidence | as-written member | corrected member |
|---|---|---|---|---|---|---|
| Animations/PropertyRenamer.cs:62 | renames `paths.FirstOrDefault()` and never reads `selectedPath`, the popup index set at line 72 | paths Body and Face, with Face selected in the popup | rename the path the popup shows as selected | high, not executed | PropertyRenamer.PropertyRenamer.OnWizardCreate, PropertyRenamer.SelectedPathIgnored | PropertyRenamer.PropertyRenamer.OnWizardCreateSelected |
| ArmatureJoiner.cs:37 | iterates the live children of `additive` while `Join` moves matched ones under `base`. The host's enumerator walks children by index, so the child after a moved one is skipped together with its subtree | fuzzy mode, `additive` with top-level children Hips and Spine, both names in the index | visit every original child, as the snapshot at line 64 does for deeper levels | medium (rests on the host's index-based child enumerator), not executed | ArmatureJoiner.LiveTopLevel, ArmatureJoiner.LiveEnumerationSkipsSibling | ArmatureJoiner.ArmatureJoiner.OnWizardCreate, ArmatureJoiner.JoinSpec |
