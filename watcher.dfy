/** WatchPackageChange and its PackageChangeChannel, a bounded channel of capacity one: the
    install, uninstall and update handlers of the package catalog write into it, and the watch
    loop waits for an item, lets changes settle, takes the item and re-indexes the UWP
    programs. The timing is left to the order of steps: changes that arrive while the loop
    settles come before its read, changes that arrive while it re-indexes come after. */
module PackageWatch {

  /** Whether the channel holds its one item, and how many re-indexes the loop has started. */
  datatype WatchState = WatchState(pending: bool, reindexed: nat)

  const Initial := WatchState(false, 0)

  /** The three catalog events the watcher subscribes to; all three are handled alike. */
  datatype ChangeKind = Installing | Uninstalling | Updating

  /** One step of the watcher: a catalog event, or one pass of the watch loop. */
  datatype Step = PackageEvent(kind: ChangeKind, isComplete: bool) | Drain

  /** An event handler: a completed change calls TryWrite, which succeeds only when the slot is
      empty; progress reports write nothing. */
  function AfterEvent(s: WatchState, isComplete: bool): (r: WatchState)
    ensures r.reindexed == s.reindexed
    ensures r.pending <==> s.pending || isComplete
  {
    if isComplete && !s.pending then s.(pending := true) else s
  }

  /** One pass of the watch loop: with an item in the channel, the read empties it and one
      re-index runs; without one, WaitToReadAsync has not completed and nothing happens. */
  function AfterDrain(s: WatchState): (r: WatchState)
    ensures !r.pending
    ensures r.reindexed == if s.pending then s.reindexed + 1 else s.reindexed
  {
    if s.pending then WatchState(false, s.reindexed + 1) else s
  }

  function AfterStep(s: WatchState, step: Step): WatchState {
    match step
    case PackageEvent(_, isComplete) => AfterEvent(s, isComplete)
    case Drain => AfterDrain(s)
  }

  /** The state after a sequence of steps. */
  function Run(s: WatchState, steps: seq<Step>): WatchState
    decreases |steps|
  {
    if steps == [] then s else Run(AfterStep(s, steps[0]), steps[1..])
  }

  predicate IsChange(step: Step) {
    step.PackageEvent? && step.isComplete
  }

  /** The number of completed changes among the steps. */
  function CompletedChanges(steps: seq<Step>): nat {
    if steps == [] then 0 else (if IsChange(steps[0]) then 1 else 0) + CompletedChanges(steps[1..])
  }

  /** WatchPackageChange: handlers are attached and the loop runs only from Windows 10 on. */
  function Watch(osMajor: int, steps: seq<Step>): (r: WatchState)
    ensures osMajor < 10 ==> r == Initial
  {
    if osMajor >= 10 then Run(Initial, steps) else Initial
  }

  /** A burst of changes with no pass of the loop in between leaves one item at most: the
      channel holds an item exactly when it held one before or some change completed, and
      no re-index has run. */
  lemma {:induction false} BurstLeavesOneItem(s: WatchState, events: seq<Step>)
    requires forall i :: 0 <= i < |events| ==> events[i].PackageEvent?
    ensures Run(s, events).reindexed == s.reindexed
    ensures Run(s, events).pending <==> s.pending || exists i :: 0 <= i < |events| && IsChange(events[i])
    decreases |events|
  {
    if events != [] {
      BurstLeavesOneItem(AfterStep(s, events[0]), events[1..]);
      forall i | 0 <= i < |events[1..]| && IsChange(events[1..][i])
        ensures exists j :: 0 <= j < |events| && IsChange(events[j])
      {
        assert IsChange(events[i + 1]);
      }
      forall i | 1 <= i < |events| && IsChange(events[i])
        ensures exists j :: 0 <= j < |events[1..]| && IsChange(events[1..][j])
      {
        assert IsChange(events[1..][i - 1]);
      }
    }
  }

  /** Running two sequences of steps one after the other. */
  lemma {:induction false} RunAppend(s: WatchState, first: seq<Step>, second: seq<Step>)
    ensures Run(s, first + second) == Run(Run(s, first), second)
    decreases |first|
  {
    if first != [] {
      assert (first + second)[1..] == first[1..] + second;
      RunAppend(AfterStep(s, first[0]), first[1..], second);
    } else {
      assert first + second == second;
    }
  }

  /** However many changes complete in a burst, the next pass of the loop re-indexes once, and
      only if some change completed or an item was already waiting. */
  lemma BurstCostsOneReindex(s: WatchState, events: seq<Step>)
    requires forall i :: 0 <= i < |events| ==> events[i].PackageEvent?
    ensures var r := Run(s, events + [Drain]);
      && !r.pending
      && r.reindexed == s.reindexed + (if s.pending || exists i :: 0 <= i < |events| && IsChange(events[i]) then 1 else 0)
  {
    BurstLeavesOneItem(s, events);
    RunAppend(s, events, [Drain]);
  }

  /** The loop never re-indexes more often than changes complete: each re-index consumes an
      item, and each item was written by a distinct completed change. */
  lemma {:induction false} ReindexesBoundedByChanges(s: WatchState, steps: seq<Step>)
    ensures Run(s, steps).reindexed + (if Run(s, steps).pending then 1 else 0)
      <= s.reindexed + (if s.pending then 1 else 0) + CompletedChanges(steps)
    decreases |steps|
  {
    if steps != [] {
      ReindexesBoundedByChanges(AfterStep(s, steps[0]), steps[1..]);
    }
  }

  /** From a fresh channel, there are at most as many re-indexes as completed changes. */
  lemma FromStartReindexesBoundedByChanges(steps: seq<Step>)
    ensures Run(Initial, steps).reindexed <= CompletedChanges(steps)
  {
    ReindexesBoundedByChanges(Initial, steps);
  }

  /** An item in the channel stays there until a pass of the loop takes it and re-indexes. */
  lemma {:induction false} PendingUntilReindexed(s: WatchState, steps: seq<Step>)
    requires s.pending
    ensures Run(s, steps).pending || Run(s, steps).reindexed > s.reindexed
    decreases |steps|
  {
    if steps != [] {
      var next := AfterStep(s, steps[0]);
      if next.pending {
        PendingUntilReindexed(next, steps[1..]);
      } else {
        ReindexesNeverDecrease(next, steps[1..]);
      }
    }
  }

  lemma {:induction false} ReindexesNeverDecrease(s: WatchState, steps: seq<Step>)
    ensures Run(s, steps).reindexed >= s.reindexed
    decreases |steps|
  {
    if steps != [] {
      ReindexesNeverDecrease(AfterStep(s, steps[0]), steps[1..]);
    }
  }

  /** No completed change is lost: after it, a re-index is either still to come or has run. */
  lemma CompletedChangeIsNotLost(s: WatchState, kind: ChangeKind, steps: seq<Step>)
    ensures var r := Run(s, [PackageEvent(kind, true)] + steps);
      r.pending || r.reindexed > s.reindexed
  {
    var after := AfterEvent(s, true);
    assert ([PackageEvent(kind, true)] + steps)[1..] == steps;
    PendingUntilReindexed(after, steps);
  }

  /** PackageChangeChannel together with the progress of the watch loop. */
  class PackageChangeChannel {
    var pending: bool
    var reindexed: nat

    function State(): WatchState
      reads this
    {
      WatchState(pending, reindexed)
    }

    /** Channel.CreateBounded(1): an empty channel. */
    constructor()
      ensures State() == Initial
    {
      pending := false;
      reindexed := 0;
    }

    /** The PackageInstalling, PackageUninstalling and PackageUpdating handlers: TryWrite when
        the change is complete; written is what TryWrite returns. */
    method OnPackageEvent(isComplete: bool) returns (written: bool)
      modifies this
      ensures State() == AfterEvent(old(State()), isComplete)
      ensures written <==> isComplete && !old(pending)
    {
      written := false;
      if isComplete {
        if !pending {
          pending := true;
          written := true;
        }
      }
    }

    /** One pass of the watch loop: once WaitToReadAsync sees an item, wait, TryRead, then
        IndexUwpPrograms. */
    method DrainOnce()
      modifies this
      ensures State() == AfterDrain(old(State()))
    {
      if !pending {
        return;
      }
      pending := false;
      reindexed := reindexed + 1;
    }
  }
}
