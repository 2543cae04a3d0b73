/**
 The blast-radius view (dashboard/src/BlastView.tsx) as a state machine: rendering with new selection or depth, the
 effect that runs after it, the debounce timer, and replies that may arrive in any order at any moment.
 */
module BlastView {
  import opened Wrappers

  /** What a request asks for. */
  datatype Choice = Choice(index: nat, depth: nat)

  /** The rendered state that the effect depends on; `version` counts the lists of functions that were loaded. */
  datatype Props = Props(selectedId: Option<nat>, functions: set<nat>, version: nat, depth: nat)
  {
    /** The selected function: an id that the current list contains. The id is the function's index. */
    function Selected(): Option<nat> {
      if selectedId.Some? && selectedId.value in functions then selectedId else None
    }

    /** The dependency list of the effect. Every list has entries of its own, so a new list is a new selected entry. */
    function Deps(): (Option<nat>, Option<nat>, nat) {
      (selectedId, if Selected().Some? then Some(version) else None, depth)
    }
  }

  /**
   The state of the view. `asked` remembers what each request number stood for; `loads` counts list loads under way.
   */
  datatype View = View(
    props: Props,
    effectFor: Option<(Option<nat>, Option<nat>, nat)>,
    prevSelectedId: Option<nat>,
    timer: Option<Choice>,
    requestSeq: nat,
    inFlight: set<nat>,
    computing: bool,
    result: Option<Choice>,
    error: Option<string>,
    loads: nat,
    asked: map<nat, Choice>)

  function Fresh(): View {
    View(Props(None, {}, 0, 5), None, None, None, 0, {}, false, None, None, 0, map[])
  }

  /** The effect has run for what is rendered. */
  predicate UpToDate(v: View) {
    v.effectFor == Some(v.props.Deps())
  }

  function Launched(v: View, choice: Choice): View {
    var seqNo := v.requestSeq + 1;
    v.(requestSeq := seqNo, computing := true, error := None,
       inFlight := v.inFlight + {seqNo}, asked := v.asked[seqNo := choice])
  }

  /** Cleanup of the previous effect, then the effect itself. */
  function AfterEffect(v: View): View {
    var w := v.(timer := None, effectFor := Some(v.props.Deps()));
    if v.props.Selected().None? then
      w.(requestSeq := w.requestSeq + 1, computing := false, result := None, prevSelectedId := None)
    else
      var choice := Choice(v.props.Selected().value, v.props.depth);
      if v.prevSelectedId != v.props.selectedId then
        Launched(w.(prevSelectedId := v.props.selectedId), choice)
      else
        w.(timer := Some(choice))
  }

  /** A reply, or a failure, for request `seqNo`; only the newest request may touch what is shown. */
  function Completed(v: View, seqNo: nat, failure: Option<string>): View {
    var w := v.(inFlight := v.inFlight - {seqNo});
    if seqNo != v.requestSeq then w
    else if failure.Some? then w.(error := failure, result := None, computing := false)
    else w.(result := if seqNo in v.asked then Some(v.asked[seqNo]) else None, computing := false)
  }

  /** A list load begins: it clears the alert that it shares with the requests. */
  function LoadStarted(v: View): View {
    v.(error := None, loads := v.loads + 1)
  }

  function LoadFailed(v: View, message: string): View
    requires v.loads > 0
  {
    v.(error := Some(message), loads := v.loads - 1)
  }

  /** The loaded list is rendered; the alert stays as it is. */
  function LoadSucceeded(v: View, functions: set<nat>): View
    requires v.loads > 0
  {
    v.(props := v.props.(functions := functions, version := v.props.version + 1), loads := v.loads - 1)
  }

  /** The component, with the state and refs it updates in place. */
  class BlastPanel {
    var view: View

    constructor ()
      ensures view == Fresh()
    {
      view := Fresh();
    }

    method RunBlast(choice: Choice)
      modifies this
      ensures view == Launched(old(view), choice)
      ensures view == old(view).(requestSeq := view.requestSeq, computing := true, error := None,
                                 inFlight := view.inFlight, asked := view.asked)
      ensures view.requestSeq == old(view).requestSeq + 1
      ensures view.inFlight == old(view).inFlight + {view.requestSeq}
      ensures view.asked == old(view).asked[view.requestSeq := choice]
    {
      var seqNo := view.requestSeq + 1;
      view := view.(requestSeq := seqNo);
      view := view.(computing := true);
      view := view.(error := None);
      view := view.(inFlight := view.inFlight + {seqNo}, asked := view.asked[seqNo := choice]);
    }

    /** What follows the `await` of one request. */
    method Settle(seqNo: nat, failure: Option<string>)
      modifies this
      ensures view == Completed(old(view), seqNo, failure)
      ensures seqNo != old(view).requestSeq ==> view == old(view).(inFlight := old(view).inFlight - {seqNo})
      ensures seqNo == old(view).requestSeq && failure.Some? ==>
                !view.computing && view.error == failure && view.result == None
      ensures seqNo == old(view).requestSeq && failure.None? ==>
                && !view.computing && view.error == old(view).error
                && (seqNo in old(view).asked ==> view.result == Some(old(view).asked[seqNo]))
    {
      view := view.(inFlight := view.inFlight - {seqNo});
      if failure.None? {
        if seqNo == view.requestSeq {
          view := view.(result := if seqNo in view.asked then Some(view.asked[seqNo]) else None);
        }
      } else {
        if seqNo == view.requestSeq {
          view := view.(error := failure);
          view := view.(result := None);
        }
      }
      if seqNo == view.requestSeq {
        view := view.(computing := false);
      }
    }

    method Effect()
      modifies this
      ensures view == AfterEffect(old(view))
      ensures view.props == old(view).props && UpToDate(view)
      ensures old(view).props.Selected().None? ==>
                && view.requestSeq == old(view).requestSeq + 1 && !view.computing && view.result == None
                && view.timer == None && view.prevSelectedId == None && view.error == old(view).error
      ensures old(view).props.Selected().Some? && old(view).prevSelectedId != old(view).props.selectedId ==>
                && view.requestSeq == old(view).requestSeq + 1 && view.computing && view.timer == None
                && view.requestSeq in view.asked && view.prevSelectedId == view.props.selectedId
                && view.asked[view.requestSeq] == Choice(view.props.Selected().value, view.props.depth)
      ensures old(view).props.Selected().Some? && old(view).prevSelectedId == old(view).props.selectedId ==>
                && view.timer == Some(Choice(view.props.Selected().value, view.props.depth))
                && view.requestSeq == old(view).requestSeq && view.computing == old(view).computing
                && view.result == old(view).result && view.error == old(view).error
    {
      view := view.(timer := None, effectFor := Some(view.props.Deps()));
      var selected := view.props.Selected();
      if selected.None? {
        view := view.(requestSeq := view.requestSeq + 1);
        view := view.(computing := false);
        view := view.(result := None);
        view := view.(prevSelectedId := None);
        return;
      }
      var selectionChanged := view.prevSelectedId != view.props.selectedId;
      view := view.(prevSelectedId := view.props.selectedId);
      if selectionChanged {
        RunBlast(Choice(selected.value, view.props.depth));
        return;
      }
      view := view.(timer := Some(Choice(selected.value, view.props.depth)));
    }

    method TimerFires()
      requires view.timer.Some?
      modifies this
      ensures view == Launched(old(view).(timer := None), old(view).timer.value)
    {
      var choice := view.timer.value;
      view := view.(timer := None);
      RunBlast(choice);
    }

    /** `loadFunctions` up to its first `await`. */
    method StartLoad()
      modifies this
      ensures view == LoadStarted(old(view))
    {
      view := view.(loads := view.loads + 1);
      view := view.(error := None);
    }

    /** `loadFunctions` from its last `await` on: all pages, or the message of the error. */
    method FinishLoad(loaded: Result<set<nat>>)
      requires view.loads > 0
      modifies this
      ensures view == match loaded
                      case Ok(functions) => LoadSucceeded(old(view), functions)
                      case Err(message) => LoadFailed(old(view), message)
    {
      match loaded {
        case Ok(functions) =>
          view := view.(props := view.props.(functions := functions, version := view.props.version + 1));
        case Err(message) =>
          view := view.(error := Some(message));
      }
      view := view.(loads := view.loads - 1);
    }
  }

  /**
   Rendering, also of a new list, flushes an effect that is still owed first, as the framework does. Replies, timers,
   and the start and the failure of a list load come at any time.
   */
  datatype Step =
    | Render(selectedId: Option<nat>, depth: nat)
    | RunEffect
    | FireTimer
    | Complete(seqNo: nat, failure: Option<string>)
    | StartLoad
    | FailLoad(message: string)
    | FinishLoad(functions: set<nat>)

  predicate Enabled(v: View, step: Step) {
    match step
    case Render(_, _) => UpToDate(v)
    case RunEffect => !UpToDate(v)
    case FireTimer => v.timer.Some?
    case Complete(seqNo, _) => seqNo in v.inFlight
    case StartLoad => true
    case FailLoad(_) => v.loads > 0
    case FinishLoad(_) => v.loads > 0 && UpToDate(v)
  }

  function Apply(v: View, step: Step): View
    requires Enabled(v, step)
  {
    match step
    case Render(selectedId, depth) => v.(props := v.props.(selectedId := selectedId, depth := depth))
    case RunEffect => AfterEffect(v)
    case FireTimer => Launched(v.(timer := None), v.timer.value)
    case Complete(seqNo, failure) => Completed(v, seqNo, failure)
    case StartLoad => LoadStarted(v)
    case FailLoad(message) => LoadFailed(v, message)
    case FinishLoad(functions) => LoadSucceeded(v, functions)
  }

  // ---------------------------------------------------------------- the invariant

  /** Request numbers: none is ahead of the counter, and each one in flight is known. */
  ghost predicate Counted(v: View) {
    && (forall n <- v.asked :: n <= v.requestSeq)
    && v.inFlight <= v.asked.Keys
  }

  /** What is shown: computing means the newest request is in flight; otherwise the result is its answer or absent. */
  ghost predicate ShowsNewest(v: View) {
    && (v.computing <==> v.requestSeq in v.inFlight)
    && (!v.computing && v.requestSeq in v.asked ==> v.result == Some(v.asked[v.requestSeq]) || v.result == None)
    && (!v.computing && v.requestSeq !in v.asked ==> v.result == None)
  }

  /** Something is still to come: a list, an effect, or a request that waits for the timer. */
  ghost predicate Unsettled(v: View) {
    v.loads > 0 || !UpToDate(v) || v.timer.Some?
  }

  /** A finished request left its answer or an error, and only a list load takes that error away before it is done. */
  ghost predicate Accounts(v: View) {
    !v.computing && v.requestSeq in v.asked && v.result == None && v.error == None ==> Unsettled(v)
  }

  /** Once the effect has run, the newest request or the waiting timer is for what is selected. */
  ghost predicate FollowsSelection(v: View) {
    && (v.effectFor.Some? && v.effectFor.value.1.Some? ==> v.effectFor.value.1.value <= v.props.version)
    && (UpToDate(v) ==>
          match v.props.Selected()
          case None => Quiet(v)
          case Some(index) =>
            var choice := Choice(index, v.props.depth);
            if v.timer.Some? then v.timer == Some(choice)
            else v.requestSeq in v.asked && v.asked[v.requestSeq] == choice)
  }

  /** No result is shown, none is awaited, and no reply can bring one. */
  ghost predicate Quiet(v: View) {
    v.timer == None && !v.computing && v.result == None && v.requestSeq !in v.asked
  }

  /** The remembered id is that of the effect that ran last, and none if that had no selection. */
  ghost predicate Remembers(v: View) {
    v.prevSelectedId == if v.effectFor.Some? && v.effectFor.value.1.Some? then v.effectFor.value.0 else None
  }

  ghost predicate Sane(v: View) {
    Counted(v) && ShowsNewest(v) && Accounts(v) && FollowsSelection(v) && Remembers(v)
  }

  lemma SelectedFromDeps(a: Props, b: Props)
    requires a.Deps() == b.Deps()
    ensures a.Selected() == b.Selected() && a.depth == b.depth
  {
  }

  lemma StepSane(v: View, step: Step)
    requires Sane(v) && Enabled(v, step)
    ensures Sane(Apply(v, step))
  {
    if (step.Render? || step.FinishLoad?) && UpToDate(Apply(v, step)) {
      SelectedFromDeps(v.props, Apply(v, step).props);
    }
  }

  // ---------------------------------------------------------------- all runs

  ghost predicate IsRun(run: seq<View>, steps: seq<Step>) {
    && |run| == |steps| + 1
    && run[0] == Fresh()
    && forall i | 0 <= i < |steps| :: Enabled(run[i], steps[i]) && run[i + 1] == Apply(run[i], steps[i])
  }

  lemma Extended(run: seq<View>, steps: seq<Step>, step: Step) returns (more: seq<View>, further: seq<Step>)
    requires IsRun(run, steps) && Enabled(run[|steps|], step)
    ensures IsRun(more, further) && |further| == |steps| + 1 && more[|further|] == Apply(run[|steps|], step)
  {
    more, further := run + [Apply(run[|steps|], step)], steps + [step];
    forall i | 0 <= i < |further| ensures Enabled(more[i], further[i]) && more[i + 1] == Apply(more[i], further[i]) {
      assert i < |steps| ==> more[i] == run[i] && more[i + 1] == run[i + 1] && further[i] == steps[i];
    }
  }

  lemma {:induction false} EveryRunSane(run: seq<View>, steps: seq<Step>, i: nat)
    requires IsRun(run, steps) && i < |run|
    ensures Sane(run[i])
  {
    if i > 0 {
      EveryRunSane(run, steps, i - 1);
      StepSane(run[i - 1], steps[i - 1]);
    }
  }

  /** The spinner is on exactly while the newest request is in flight; off, the result is its answer or absent. */
  lemma ComputingMeansNewestInFlight(run: seq<View>, steps: seq<Step>, i: nat)
    requires IsRun(run, steps) && i < |run|
    ensures var v := run[i];
            && (v.computing <==> v.requestSeq in v.inFlight)
            && (!v.computing && v.result.Some? ==> v.requestSeq in v.asked && v.result.value == v.asked[v.requestSeq])
  {
    EveryRunSane(run, steps, i);
  }

  /** A list with one function is loaded, and that function is selected: its request is under way. */
  lemma OneSelected() returns (run: seq<View>, steps: seq<Step>)
    ensures IsRun(run, steps)
    ensures run[|steps|] == View(Props(Some(7), {7}, 1, 5), Some((Some(7), Some(1), 5)), Some(7), None,
                                 2, {2}, true, None, None, 0, map[2 := Choice(7, 5)])
  {
    run, steps := [Fresh()], [];
    run, steps := Extended(run, steps, RunEffect);
    run, steps := Extended(run, steps, StartLoad);
    run, steps := Extended(run, steps, FinishLoad({7}));
    run, steps := Extended(run, steps, Render(Some(7), 5));
    run, steps := Extended(run, steps, RunEffect);
  }

  /** A function is selected, and no effect, timer or request is outstanding. */
  predicate AtRest(v: View) {
    UpToDate(v) && v.timer.None? && !v.computing && v.props.Selected().Some?
  }

  /** The answer for the selected function and the chosen depth is shown. */
  predicate ShowsAnswer(v: View) {
    v.props.Selected().Some? && v.result == Some(Choice(v.props.Selected().value, v.props.depth))
  }

  /**
   At rest the view shows the answer for the selected function and depth, or an error, once no list is being loaded.
   */
  lemma AtRestShowsSelection(run: seq<View>, steps: seq<Step>, i: nat)
    requires IsRun(run, steps) && i < |run| && AtRest(run[i])
    ensures ShowsAnswer(run[i]) || run[i].result.None?
    ensures run[i].loads == 0 ==> ShowsAnswer(run[i]) || run[i].error.Some?
  {
    EveryRunSane(run, steps, i);
  }

  /** While a list is being loaded that can fail: the load clears the error of the request, and nothing is shown. */
  lemma LoadHidesError() returns (run: seq<View>, steps: seq<Step>)
    ensures IsRun(run, steps)
    ensures var v := run[|steps|]; AtRest(v) && v.result.None? && v.error.None?
  {
    run, steps := OneSelected();
    run, steps := Extended(run, steps, Complete(2, Some("failed")));
    run, steps := Extended(run, steps, StartLoad);
  }

  ghost predicate NoLoadFails(steps: seq<Step>, i: nat)
    requires i <= |steps|
  {
    forall k | 0 <= k < i :: !steps[k].FailLoad?
  }

  /**
   Unless a list load failed, an alert stands beside no spinner and no answer: each request clears the alert first.
   */
  lemma {:induction false} AlertStandsAlone(run: seq<View>, steps: seq<Step>, i: nat)
    requires IsRun(run, steps) && i < |run| && NoLoadFails(steps, i)
    ensures run[i].error.Some? ==> !run[i].computing && run[i].result == None
  {
    if i > 0 {
      AlertStandsAlone(run, steps, i - 1);
      EveryRunSane(run, steps, i - 1);
      assert Enabled(run[i - 1], steps[i - 1]) && run[i] == Apply(run[i - 1], steps[i - 1]);
    }
  }

  /** An alert repeats the message of a request or a list load that failed. */
  lemma {:induction false} AlertHasCause(run: seq<View>, steps: seq<Step>, i: nat)
    requires IsRun(run, steps) && i < |run| && run[i].error.Some?
    ensures exists k | 0 <= k < i ::
              (steps[k].Complete? && steps[k].failure == run[i].error)
              || (steps[k].FailLoad? && Some(steps[k].message) == run[i].error)
  {
    if i > 0 {
      assert Enabled(run[i - 1], steps[i - 1]) && run[i] == Apply(run[i - 1], steps[i - 1]);
      if run[i - 1].error == run[i].error {
        AlertHasCause(run, steps, i - 1);
      } else {
        var k := i - 1;
        assert steps[k].Complete? || steps[k].FailLoad?;
      }
    }
  }

  /** The effect before this one saw the same function selected. */
  predicate SameSelection(v: View) {
    v.effectFor.Some? && v.effectFor.value.1.Some? && v.effectFor.value.0 == v.props.selectedId
  }

  /** A newly selected function is asked for at once; for the same one again the request waits for the timer. */
  lemma EffectLaunchesOrWaits(run: seq<View>, steps: seq<Step>, i: nat)
    requires IsRun(run, steps) && i < |steps| && steps[i].RunEffect? && run[i].props.Selected().Some?
    ensures var v, w := run[i], run[i + 1];
            var choice := Choice(v.props.Selected().value, v.props.depth);
            if SameSelection(v) then w == v.(timer := Some(choice), effectFor := w.effectFor)
            else
              && w.requestSeq == v.requestSeq + 1 && w.computing && w.timer == None && w.error == None
              && w.requestSeq in w.inFlight && w.requestSeq in w.asked && w.asked[w.requestSeq] == choice
  {
    EveryRunSane(run, steps, i);
    assert Enabled(run[i], steps[i]) && run[i + 1] == Apply(run[i], steps[i]);
  }

  /** When the timer fires, the request that waited is made. */
  lemma TimerAsks(run: seq<View>, steps: seq<Step>, i: nat)
    requires IsRun(run, steps) && i < |steps| && steps[i].FireTimer?
    ensures var v, w := run[i], run[i + 1];
            && v.timer.Some? && w.timer == None && w.requestSeq == v.requestSeq + 1 && w.computing && w.error == None
            && w.requestSeq in w.inFlight && w.requestSeq in w.asked && w.asked[w.requestSeq] == v.timer.value
  {
    assert Enabled(run[i], steps[i]) && run[i + 1] == Apply(run[i], steps[i]);
  }

  /** A list load that starts while the view is at rest leaves something to see exactly if the answer was shown. */
  lemma LoadHidesExactlyErrors(run: seq<View>, steps: seq<Step>, i: nat)
    requires IsRun(run, steps) && i < |run| && AtRest(run[i])
    ensures var w := Apply(run[i], StartLoad);
            w.result.Some? || w.error.Some? <==> ShowsAnswer(run[i])
  {
    EveryRunSane(run, steps, i);
  }

  lemma StaysQuiet(v: View, step: Step)
    requires Sane(v) && Quiet(v) && Enabled(v, step)
    requires v.props.Selected().None? && Apply(v, step).props.Selected().None?
    ensures Quiet(Apply(v, step))
    ensures !step.StartLoad? && !step.FailLoad? ==> Apply(v, step).error == v.error
  {
  }

  /**
   From the effect of a deselection on, as long as nothing is selected, no result is shown and none is awaited, whatever
   is rendered and whatever replies still come. An alert stays as it was unless a list load writes it.
   */
  lemma {:induction false} NothingAfterDeselection(run: seq<View>, steps: seq<Step>, i: nat, j: nat)
    requires IsRun(run, steps) && i <= j < |run|
    requires UpToDate(run[i]) && forall k | i <= k <= j :: run[k].props.Selected().None?
    ensures Quiet(run[j])
    ensures NoListLoads(steps, i, j) ==> run[j].error == run[i].error
    decreases j
  {
    EveryRunSane(run, steps, i);
    if i < j {
      NothingAfterDeselection(run, steps, i, j - 1);
      QuietNext(run, steps, j - 1);
    }
  }

  /** No list load starts or fails between these states. */
  ghost predicate NoListLoads(steps: seq<Step>, i: nat, j: nat)
    requires i <= j <= |steps|
  {
    forall k | i <= k < j :: !steps[k].StartLoad? && !steps[k].FailLoad?
  }

  lemma QuietNext(run: seq<View>, steps: seq<Step>, i: nat)
    requires IsRun(run, steps) && i < |steps| && Quiet(run[i])
    requires run[i].props.Selected().None? && run[i + 1].props.Selected().None?
    ensures Quiet(run[i + 1])
    ensures NoListLoads(steps, i, i + 1) ==> run[i + 1].error == run[i].error
  {
    EveryRunSane(run, steps, i);
    StaysQuiet(run[i], steps[i]);
  }

  /**
   Without a selection a reply, be it an answer or a failure, goes unnoticed exactly when a newer request or a
   deselection has been counted since, and that is so for every reply once the effect has run.
   */
  lemma LateReplyIgnored(run: seq<View>, steps: seq<Step>, i: nat, seqNo: nat, failure: Option<string>)
    requires IsRun(run, steps) && i < |run| && run[i].props.Selected().None? && seqNo in run[i].inFlight
    ensures var v := run[i];
            Apply(v, Complete(seqNo, failure)) == v.(inFlight := v.inFlight - {seqNo}) <==> seqNo < v.requestSeq
    ensures UpToDate(run[i]) ==> seqNo < run[i].requestSeq
  {
    EveryRunSane(run, steps, i);
  }

  /**
   Between a deselection and its effect the guarantee does not hold: a reply that arrives in that gap is shown although
   nothing is selected any more.
   */
  lemma ReplyInTheGapIsShown() returns (run: seq<View>, steps: seq<Step>)
    ensures IsRun(run, steps)
    ensures var v := run[|steps|]; v.props.Selected().None? && v.result.Some? && !UpToDate(v)
  {
    run, steps := OneSelected();
    run, steps := Extended(run, steps, Render(None, 5));
    run, steps := Extended(run, steps, Complete(2, None));
  }

  /** The effect of a deselection leaves the alert alone: an error outlives the selection that it was about. */
  lemma ErrorOutlivesSelection() returns (run: seq<View>, steps: seq<Step>)
    ensures IsRun(run, steps)
    ensures var v := run[|steps|]; UpToDate(v) && v.props.Selected().None? && v.error.Some?
  {
    run, steps := OneSelected();
    run, steps := Extended(run, steps, Complete(2, Some("failed")));
    run, steps := Extended(run, steps, Render(None, 5));
    run, steps := Extended(run, steps, RunEffect);
  }
}
