/** The workspace history of `apps/web/components/ai-command-motion-workspace.tsx`: an array of
    frames and an index, which together are a past, a present and a future. */
module WorkspaceHistory {
  datatype Artifact = Artifact(id: string, payload: string)
  datatype Frame = Frame(path: string, artifact: Artifact)

  /** A frame is recorded again when its artifact id and its path are those of the present one. */
  predicate Same(a: Frame, b: Frame) {
    a.artifact.id == b.artifact.id && a.path == b.path
  }

  datatype Zipper = Zipper(past: seq<Frame>, present: Frame, future: seq<Frame>)

  function Frames(z: Zipper): seq<Frame> {
    z.past + [z.present] + z.future
  }

  function Recorded(z: Zipper, frame: Frame): Zipper {
    if Same(z.present, frame) then z else Zipper(z.past + [z.present], frame, [])
  }

  function Back(z: Zipper): Zipper {
    if z.past == [] then z
    else
      var n := |z.past| - 1;
      Zipper(z.past[..n], z.past[n], [z.present] + z.future)
  }

  function Forward(z: Zipper): Zipper {
    if z.future == [] then z
    else Zipper(z.past + [z.present], z.future[0], z.future[1..])
  }

  datatype Step = Record(frame: Frame) | GoBack | GoForward

  function Next(z: Zipper, step: Step): Zipper {
    match step
    case Record(frame) => Recorded(z, frame)
    case GoBack => Back(z)
    case GoForward => Forward(z)
  }

  function Execute(z: Zipper, steps: seq<Step>): Zipper {
    if steps == [] then z else Next(Execute(z, steps[..|steps| - 1]), steps[|steps| - 1])
  }

  predicate NeighboursDiffer(frames: seq<Frame>) {
    forall i :: 0 <= i < |frames| - 1 ==>
      frames[i].artifact.id != frames[i + 1].artifact.id || frames[i].path != frames[i + 1].path
  }

  // ---- The component's state -----------------------------------------------------------------

  class History {
    var frames: seq<Frame>
    var index: nat          // the ref the handlers read
    var shownIndex: nat     // the state the buttons read
    var displayed: Artifact

    ghost predicate Valid()
      reads this
    {
      index < |frames| && shownIndex == index && NeighboursDiffer(frames)
    }

    ghost function View(): (z: Zipper)
      requires index < |frames|
      reads this
      ensures Frames(z) == frames && |z.past| == index
    {
      Zipper(frames[..index], frames[index], frames[index + 1..])
    }

    constructor (first: Frame)
      ensures Valid() && View() == Zipper([], first, []) && displayed == first.artifact
    {
      frames, index, shownIndex, displayed := [first], 0, 0, first.artifact;
    }

    method RecordWorkspaceFrame(artifact: Artifact, path: string)
      requires Valid()
      modifies `frames, `index, `shownIndex
      ensures Valid() && View() == Recorded(old(View()), Frame(path, artifact))
    {
      var trimmed := frames[..index + 1];
      var last := trimmed[|trimmed| - 1];
      if last.artifact.id == artifact.id && last.path == path { return; }
      var next := trimmed + [Frame(path, artifact)];
      index := |next| - 1;
      shownIndex := |next| - 1;
      frames := next;
      assert frames[..index] == old(frames)[..old(index)] + [last];
    }

    method WorkspaceBack()
      requires Valid()
      modifies `index, `shownIndex, `displayed
      ensures Valid() && View() == Back(old(View()))
      ensures displayed == if old(index) == 0 then old(displayed) else View().present.artifact
    {
      if index == 0 { return; }
      var frame := frames[index - 1];
      index := index - 1;
      shownIndex := index;
      displayed := frame.artifact;
      assert frames[..index + 1][..index] == frames[..index];
      assert frames[index + 1..] == [frames[index + 1]] + frames[index + 2..];
    }

    method WorkspaceForward()
      requires Valid()
      modifies `index, `shownIndex, `displayed
      ensures Valid() && View() == Forward(old(View()))
      ensures displayed == if old(index) == |frames| - 1 then old(displayed)
                           else View().present.artifact
    {
      if index + 1 >= |frames| { return; }
      var frame := frames[index + 1];
      index := index + 1;
      shownIndex := index;
      displayed := frame.artifact;
      assert frames[..index] == frames[..index - 1] + [frames[index - 1]];
      assert frames[index..][1..] == frames[index + 1..];
    }
  }

  // ---- Every run -----------------------------------------------------------------------------

  /** In every run neighbouring frames differ in id or path. */
  lemma {:induction false} NeighboursAlwaysDiffer(first: Frame, steps: seq<Step>)
    ensures NeighboursDiffer(Frames(Execute(Zipper([], first, []), steps)))
  {
    if steps != [] {
      var before := Execute(Zipper([], first, []), steps[..|steps| - 1]);
      NeighboursAlwaysDiffer(first, steps[..|steps| - 1]);
      StepKeeps(before, steps[|steps| - 1]);
    }
  }

  lemma StepKeeps(z: Zipper, step: Step)
    requires NeighboursDiffer(Frames(z))
    ensures NeighboursDiffer(Frames(Next(z, step)))
    ensures !step.Record? ==> Frames(Next(z, step)) == Frames(z)
  {
    match step
    case Record(frame) =>
      var n := |z.past|;
      assert forall i :: 0 <= i < n ==> Frames(z)[i] == z.past[i];
      assert Frames(z)[n] == z.present;
    case GoBack => BackKeepsFrames(z);
    case GoForward => ForwardKeepsFrames(z);
  }

  lemma BackKeepsFrames(z: Zipper)
    ensures Frames(Back(z)) == Frames(z)
  {
    if z.past != [] {
      var n := |z.past| - 1;
      assert z.past == z.past[..n] + [z.past[n]];
      assert z.past[..n] + [z.past[n]] + ([z.present] + z.future) == Frames(z);
    }
  }

  lemma ForwardKeepsFrames(z: Zipper)
    ensures Frames(Forward(z)) == Frames(z)
  {
    if z.future != [] {
      assert z.future == [z.future[0]] + z.future[1..];
      assert z.past + [z.present] + [z.future[0]] + z.future[1..] == Frames(z);
    }
  }

  lemma ForwardUndoesBack(z: Zipper)
    requires z.past != []
    ensures Forward(Back(z)) == z
  {
    assert ([z.present] + z.future)[1..] == z.future;
  }

  lemma BackUndoesForward(z: Zipper)
    requires z.future != []
    ensures Back(Forward(z)) == z
  {
    assert (z.past + [z.present])[..|z.past|] == z.past;
  }

  function Backs(z: Zipper, k: nat): Zipper {
    if k == 0 then z else Back(Backs(z, k - 1))
  }

  function Forwards(z: Zipper, k: nat): Zipper {
    if k == 0 then z else Forward(Forwards(z, k - 1))
  }

  /** `k` backs show the frame `k` places before the present one, and keep what they passed. */
  lemma {:induction false} BacksReach(z: Zipper, k: nat)
    requires k <= |z.past|
    ensures var n := |z.past| - k;
            && Backs(z, k).past == z.past[..n]
            && Backs(z, k).present == Frames(z)[n]
            && Backs(z, k).future == Frames(z)[n + 1..]
  {
    if k == 0 {
      assert Frames(z)[|z.past| + 1..] == z.future;
    } else {
      var n := |z.past| - k;
      BacksReach(z, k - 1);
      assert z.past[..n + 1][..n] == z.past[..n];
      assert Frames(z)[n + 1..] == [Frames(z)[n + 1]] + Frames(z)[n + 2..];
    }
  }

  /** `k` forwards undo `k` backs. */
  lemma {:induction false} ForwardsUndoBacks(z: Zipper, k: nat)
    requires k <= |z.past|
    ensures Forwards(Backs(z, k), k) == z
  {
    if k > 0 {
      BacksReach(z, k - 1);
      ForwardsShift(Backs(z, k), k - 1);
      ForwardUndoesBack(Backs(z, k - 1));
      ForwardsUndoBacks(z, k - 1);
    }
  }

  lemma {:induction false} ForwardsShift(z: Zipper, k: nat)
    ensures Forwards(z, k + 1) == Forwards(Forward(z), k)
  {
    if k > 0 {
      ForwardsShift(z, k - 1);
    }
  }

  lemma {:induction false} ExecuteConcat(z: Zipper, a: seq<Step>, b: seq<Step>)
    ensures Execute(z, a + b) == Execute(Execute(z, a), b)
  {
    if b == [] {
      assert a + b == a;
    } else {
      assert (a + b)[..|a + b| - 1] == a + b[..|b| - 1];
      ExecuteConcat(z, a, b[..|b| - 1]);
    }
  }

  /** Steps that lead back to the frame they start from can be left out of any run. */
  lemma Detour(z: Zipper, before: seq<Step>, detour: seq<Step>, after: seq<Step>)
    requires Execute(Execute(z, before), detour) == Execute(z, before)
    ensures Execute(z, before + detour + after) == Execute(z, before + after)
  {
    ExecuteConcat(z, before + detour, after);
    ExecuteConcat(z, before, detour);
    ExecuteConcat(z, before, after);
  }

  /** Recording the frame that is shown again makes no difference to any run, whatever artifact
      comes with its id. */
  lemma RecordingThePresentChangesNothing(z: Zipper, before: seq<Step>, after: seq<Step>,
                                          artifact: Artifact)
    requires artifact.id == Execute(z, before).present.artifact.id
    ensures var again := Record(Frame(Execute(z, before).present.path, artifact));
            Execute(z, before + [again] + after) == Execute(z, before + after)
  {
    Detour(z, before, [Record(Frame(Execute(z, before).present.path, artifact))], after);
  }

  /** Nor does going back and forward again. */
  lemma BackAndForwardChangesNothing(z: Zipper, before: seq<Step>, after: seq<Step>)
    requires Execute(z, before).past != []
    ensures Execute(z, before + [GoBack, GoForward] + after) == Execute(z, before + after)
  {
    var there := Execute(z, before);
    assert [GoBack, GoForward][..1] == [GoBack];
    assert Execute(there, [GoBack]) == Back(there);
    ForwardUndoesBack(there);
    Detour(z, before, [GoBack, GoForward], after);
  }

  /** Nor does going forward and back again. */
  lemma ForwardAndBackChangesNothing(z: Zipper, before: seq<Step>, after: seq<Step>)
    requires Execute(z, before).future != []
    ensures Execute(z, before + [GoForward, GoBack] + after) == Execute(z, before + after)
  {
    var there := Execute(z, before);
    assert [GoForward, GoBack][..1] == [GoForward];
    assert Execute(there, [GoForward]) == Forward(there);
    BackUndoesForward(there);
    Detour(z, before, [GoForward, GoBack], after);
  }

  /** Recording a different frame after `k` backs from the newest frame drops exactly the `k`
      frames that were passed, and nothing else. */
  lemma RecordingDropsTheForwardFrames(z: Zipper, k: nat, frame: Frame)
    requires z.future == [] && k <= |z.past|
    requires var present := Backs(z, k).present;
             present.artifact.id != frame.artifact.id || present.path != frame.path
    ensures Frames(Recorded(Backs(z, k), frame)) == Frames(z)[..|Frames(z)| - k] + [frame]
    ensures Recorded(Backs(z, k), frame).future == []
    ensures Back(Recorded(Backs(z, k), frame)).present == Backs(z, k).present
  {
    BacksReach(z, k);
    var n := |z.past| - k;
    assert Frames(z)[..n + 1] == z.past[..n] + [Frames(z)[n]];
  }

  /** What was recorded is shown: after recording a frame, backs and forwards that cancel out end at
      its path and its artifact's id, whatever was shown before. */
  lemma RecordedIsReached(z: Zipper, before: seq<Step>, frame: Frame, k: nat)
    requires k <= |Execute(z, before + [Record(frame)]).past|
    ensures var shown := Forwards(Backs(Execute(z, before + [Record(frame)]), k), k).present;
            shown.path == frame.path && shown.artifact.id == frame.artifact.id
  {
    ExecuteConcat(z, before, [Record(frame)]);
    assert [Record(frame)][..0] == [];
    ForwardsUndoBacks(Execute(z, before + [Record(frame)]), k);
  }
}
