// The server's queue of timers and one pass over it with the time that has gone by.
module TimerPass {
  import opened Options
  import opened LinkedLists
  import opened TimeoutHandlers

  const WAIT_DURATION: int := 2

  /** The handlers, in order, whose time was longer than the time handed over. */
  ghost function Survivors(handled: seq<TimeoutHandler>, left: seq<int>, passed: int): seq<TimeoutHandler>
    requires |handled| == |left|
  {
    if handled == [] then []
    else
      var n := |handled| - 1;
      Survivors(handled[..n], left[..n], passed) + if left[n] > passed then [handled[n]] else []
  }

  ghost predicate Distinct(s: seq<TimeoutHandler>) {
    forall i, j :: 0 <= i < j < |s| ==> s[i] != s[j]
  }

  lemma {:induction false} SurvivorsAmong(handled: seq<TimeoutHandler>, left: seq<int>, passed: int)
    requires |handled| == |left|
    ensures forall h :: h in Survivors(handled, left, passed) ==> h in handled
  {
    if handled != [] {
      SurvivorsAmong(handled[..|handled| - 1], left[..|left| - 1], passed);
    }
  }

  class TimerQueue {
    const timeoutHandlers: List<TimeoutHandler>
    // The turn timers that sessions remember and may stop.
    var remembered: set<TimeoutHandler>

    constructor ()
      ensures fresh(timeoutHandlers) && timeoutHandlers.Valid() && timeoutHandlers.Contents() == [] && remembered == {}
    {
      timeoutHandlers := new List<TimeoutHandler>();
      remembered := {};
    }

    /** Some event of a session: it may queue one new timer of at least the waiting time, and it
        may stop and forget one remembered timer. Which of these it does is left open. */
    method TimeoutEvent() returns (ghost stopped: TimeoutHandler?, ghost added: TimeoutHandler?)
      requires timeoutHandlers.Valid() && forall h :: h in remembered ==> h.Valid()
      modifies this, timeoutHandlers, timeoutHandlers.last, remembered
      ensures timeoutHandlers.Valid() && forall n :: n in timeoutHandlers.chain ==> n in old(timeoutHandlers.chain) || fresh(n)
      ensures timeoutHandlers.Contents() == old(timeoutHandlers.Contents()) + if added == null then [] else [added]
      ensures added != null ==> fresh(added) && added.Valid() && added.Left() >= Micros(WAIT_DURATION, 0)
      ensures stopped != null ==> stopped in old(remembered) && stopped.Left() == 0
      ensures forall h :: h in old(remembered) ==> h.Valid() && (h != stopped ==> h.Left() == old(h.Left()))
      ensures forall h :: h in remembered ==> h in old(remembered) || h == added
    {
      stopped, added := null, null;
      var stop: bool := *;
      if stop && remembered != {} {
        var h :| h in remembered;
        h.Stop();
        stopped, remembered := h, remembered - {h};
      }
      var add: bool, seconds: int := *, *;
      if add && seconds >= WAIT_DURATION {
        var h := new TimeoutHandler(seconds, 0);
        added := h;
        timeoutHandlers.Put(Some(h));
        var remember: bool := *;
        if remember {
          remembered := remembered + {h};
        }
      }
    }

    method TakeNext(passedSec: int, passedUsec: int) returns (handler: TimeoutHandler, event: bool)
      requires timeoutHandlers.Valid() && timeoutHandlers.Contents() != []
      requires timeoutHandlers.Contents()[0].Valid() && IsTime(passedSec, passedUsec)
      modifies timeoutHandlers, timeoutHandlers.Contents()[0]
      ensures timeoutHandlers.Valid() && forall n :: n in timeoutHandlers.chain ==> n in old(timeoutHandlers.chain)
      ensures timeoutHandlers.last == old(timeoutHandlers.last) || timeoutHandlers.last == null
      ensures handler == old(timeoutHandlers.Contents())[0] && timeoutHandlers.Contents() == old(timeoutHandlers.Contents())[1..]
      ensures handler.Valid() && handler.Left() == Saturating(old(timeoutHandlers.Contents()[0].Left()), Micros(passedSec, passedUsec))
      ensures event <==> 0 < old(timeoutHandlers.Contents()[0].Left()) <= Micros(passedSec, passedUsec)
    {
      var next := timeoutHandlers.Get();
      handler := next.value;
      event := handler.Process(passedSec, passedUsec);
    }

    /** The next timer gets its time, before any event. */
    method HandTime(passedSec: int, passedUsec: int, ghost all: seq<TimeoutHandler>, ghost p: Progress, ghost outside: set<TimeoutHandler>)
      returns (handler: TimeoutHandler, event: bool, ghost p': Progress)
      requires timeoutHandlers.Valid()
      requires p.WellFormed() && |p.left| < |all| && timeoutHandlers.Contents() == all[|p.left|..]
      requires ProgressOk(all, p) && StopsAllowed(all, p, outside)
      requires IsTime(passedSec, passedUsec) && p.passed == Micros(passedSec, passedUsec) < Micros(WAIT_DURATION, 0)
      modifies timeoutHandlers, all
      ensures timeoutHandlers.Valid() && forall n :: n in timeoutHandlers.chain ==> n in old(timeoutHandlers.chain)
      ensures timeoutHandlers.last == old(timeoutHandlers.last) || timeoutHandlers.last == null
      ensures p' == Handed(p, old(all[|p.left|].Left()), event) && p'.WellFormed() && ProgressOk(all, p')
      ensures timeoutHandlers.Contents() == all[|p'.left|..]
      ensures StopsAllowed(all, p', outside) && (event ==> StopIsNew(p') && AddIsNew(p'))
      ensures handler == all[|p.left|] && handler.Valid()
      ensures event ==> |p.left| < |p.due| && handler.Left() == 0 && p'.left[|p.left|] <= p.passed
      ensures !event ==> (handler.Left() != 0 <==> p'.left[|p.left|] > p.passed)
    {
      hide ValuesOk, ProgressOk, EventsOk, Distinct, List.Valid, StopsAllowed, StopIsNew, AddIsNew;
      ghost var m := |p.left|;
      ghost var values := LeftsOf(all);
      ProgressParts(all, p);
      assert all[m..][0] == all[m];
      handler, event := TakeNext(passedSec, passedUsec);
      p' := Handed(p, values[m], event);
      HandedKeepsStops(all, p, values[m], event, outside);
      AfterProcess(all, values, p, event);
    }

    /** One timer is taken from the queue and gets its time; keep says whether it has not elapsed. */
    method PassStep(passedSec: int, passedUsec: int, ghost all: seq<TimeoutHandler>, ghost p: Progress, ghost outside: set<TimeoutHandler>)
      returns (handler: TimeoutHandler, keep: bool, ghost all': seq<TimeoutHandler>, ghost p': Progress)
      requires timeoutHandlers.Valid()
      requires p.WellFormed() && |p.left| < |all| && timeoutHandlers.Contents() == all[|p.left|..]
      requires ProgressOk(all, p) && StopsAllowed(all, p, outside) && forall h :: h in remembered ==> h.Valid() && Stoppable(h, all, p, outside)
      requires IsTime(passedSec, passedUsec) && p.passed == Micros(passedSec, passedUsec) < Micros(WAIT_DURATION, 0)
      modifies this, timeoutHandlers, timeoutHandlers.last, all, outside
      ensures timeoutHandlers.Valid()
      ensures forall n :: n in timeoutHandlers.chain ==> n in old(timeoutHandlers.chain) || fresh(n)
      ensures p'.WellFormed() && p'.due == p.due && p'.passed == p.passed
      ensures p'.left == p.left + [old(all[|p.left|].Left())]
      ensures all' == all || (|p.left| < |p.due| && exists h: TimeoutHandler :: fresh(h) && all' == all + [h])
      ensures timeoutHandlers.Contents() == all'[|p'.left|..]
      ensures ProgressOk(all', p') && StopsAllowed(all', p', outside)
      ensures forall h :: h in remembered ==> h.Valid() && Stoppable(h, all', p', outside)
      ensures handler == all[|p.left|] && (keep <==> p'.left[|p.left|] > p.passed)
    {
      hide ValuesOk, ProgressOk, EventsOk, Distinct, List.Valid, LeftsOf, Items, TimeoutHandler.Valid, TimeoutHandler.Left, Saturating, StopsAllowed, Stoppable, StopIsNew, AddIsNew;
      var event;
      handler, event, p' := HandTime(passedSec, passedUsec, all, p, outside);
      StoppableStays(all, p, p', outside);
      all' := all;
      ProgressParts(all, p');
      if event {
        ghost var handed := p';
        all', p' := EventDuringPass(all, handed, outside);
        ProgressParts(all', p');
      }
      ElapsedIsZero(handler);
      keep := !handler.Elapsed();
    }

    /** One timer gets its time and goes to tmp unless it has elapsed. */
    method PassRound(tmp: List<TimeoutHandler>, passedSec: int, passedUsec: int,
                     ghost all: seq<TimeoutHandler>, ghost p: Progress, ghost outside: set<TimeoutHandler>)
      returns (ghost all': seq<TimeoutHandler>, ghost p': Progress)
      requires timeoutHandlers.Valid() && tmp.Valid() && tmp != timeoutHandlers
      requires forall n :: n in tmp.chain ==> n !in timeoutHandlers.chain
      requires p.WellFormed() && |p.left| < |all| && timeoutHandlers.Contents() == all[|p.left|..]
      requires ProgressOk(all, p) && StopsAllowed(all, p, outside) && forall h :: h in remembered ==> h.Valid() && Stoppable(h, all, p, outside)
      requires IsTime(passedSec, passedUsec) && p.passed == Micros(passedSec, passedUsec) < Micros(WAIT_DURATION, 0)
      requires tmp.Contents() == Survivors(all[..|p.left|], p.left, p.passed)
      modifies this, timeoutHandlers, timeoutHandlers.last, tmp, tmp.last, all, outside
      ensures timeoutHandlers.Valid() && tmp.Valid()
      ensures forall n :: n in timeoutHandlers.chain ==> n in old(timeoutHandlers.chain) || fresh(n)
      ensures forall n :: n in tmp.chain ==> (n in old(tmp.chain) || fresh(n)) && n !in timeoutHandlers.chain
      ensures p'.WellFormed() && p'.due == p.due && p'.passed == p.passed && |p'.left| == |p.left| + 1
      ensures all' == all || (|p.left| < |p.due| && exists h: TimeoutHandler :: fresh(h) && all' == all + [h])
      ensures timeoutHandlers.Contents() == all'[|p'.left|..]
      ensures ProgressOk(all', p') && StopsAllowed(all', p', outside)
      ensures forall h :: h in remembered ==> h.Valid() && Stoppable(h, all', p', outside)
      ensures tmp.Contents() == Survivors(all'[..|p'.left|], p'.left, p'.passed)
    {
      hide ProgressOk, Survivors, List.Valid, TimeoutHandler.Valid, TimeoutHandler.Left, Distinct, LeftsOf, Items, IsTime, Micros, StopsAllowed, Stoppable;
      EmptyList(timeoutHandlers);
      var handler, keep;
      handler, keep, all', p' := PassStep(passedSec, passedUsec, all, p, outside);
      SurvivorsStep(all, all', p, p');
      EmptyList(tmp);
      assert forall n :: n in tmp.chain ==> n !in timeoutHandlers.chain;
      if keep {
        tmp.Put(Some(handler));
      }
    }

    /** Hands the elapsed time, shorter than the waiting time, to every queued timer and to every
        timer that events queue during the pass: all lists them in the order in which they got
        it, each once, and p what each had when it came up and whether its event was triggered.
        A timer had its full time then unless the event of an earlier one had stopped it, which
        happens only to timers that sessions remember, at most one for each triggered event. The
        queue keeps exactly those that had more left, in that order. */
    method ProcessTimeouts(passedSec: int, passedUsec: int) returns (ghost all: seq<TimeoutHandler>, ghost p: Progress)
      requires timeoutHandlers.Valid() && Distinct(timeoutHandlers.Contents())
      requires forall h :: h in timeoutHandlers.Contents() || h in remembered ==> h.Valid()
      requires IsTime(passedSec, passedUsec) && Micros(passedSec, passedUsec) < Micros(WAIT_DURATION, 0)
      modifies this, timeoutHandlers, timeoutHandlers.chain, timeoutHandlers.Contents(), remembered
      ensures timeoutHandlers.Valid()
      ensures p.WellFormed() && |p.left| == |all| && ProgressOk(all, p)
      ensures p.due == old(LeftsOf(timeoutHandlers.Contents())) && p.passed == Micros(passedSec, passedUsec)
      ensures old(timeoutHandlers.Contents()) <= all
      ensures forall k :: |p.due| <= k < |all| ==> fresh(all[k])
      ensures StopsAllowed(all, p, old(remembered))
      ensures timeoutHandlers.Contents() == Survivors(all, p.left, p.passed)
    {
      hide ProgressOk, Survivors, List.Valid, TimeoutHandler.Valid, TimeoutHandler.Left, Distinct, LeftsOf, Items, IsTime, Micros, StopsAllowed, Stoppable;
      all := timeoutHandlers.Contents();
      p := Progress(LeftsOf(all), [], Micros(passedSec, passedUsec), [], [], [], map[]);
      ghost var queued := all;
      ghost var outside := remembered;
      ghost var nodes := timeoutHandlers.chain;
      ghost var due := p.due;
      LeftsSize(all);
      StartProgress(all, outside, passedSec, passedUsec);
      if timeoutHandlers.size == 0 {
        EmptyList(timeoutHandlers);
        return;
      }
      var tmp := new List<TimeoutHandler>();
      assert all[0..] == all;
      while timeoutHandlers.size > 0
        invariant timeoutHandlers.Valid() && tmp.Valid()
        invariant forall n :: n in timeoutHandlers.chain ==> n in nodes || fresh(n)
        invariant forall n :: n in tmp.chain ==> fresh(n) && n !in timeoutHandlers.chain
        invariant p.WellFormed() && |p.left| <= |all| && timeoutHandlers.Contents() == all[|p.left|..]
        invariant p.due == due && p.passed == Micros(passedSec, passedUsec)
        invariant ProgressOk(all, p) && queued <= all && forall k :: |queued| <= k < |all| ==> fresh(all[k])
        invariant StopsAllowed(all, p, outside) && forall h :: h in remembered ==> h.Valid() && Stoppable(h, all, p, outside)
        invariant tmp.Contents() == Survivors(all[..|p.left|], p.left, p.passed)
        decreases if |p.left| < |p.due| then |p.due| - |p.left| else 0, timeoutHandlers.size
      {
        EmptyList(timeoutHandlers);
        assert forall h :: h in all ==> h in queued || fresh(h);
        EmptyList(tmp);
        all, p := PassRound(tmp, passedSec, passedUsec, all, p, outside);
        EmptyList(timeoutHandlers);
      }
      EmptyList(timeoutHandlers);
      timeoutHandlers.Swap(tmp);
      assert all[..|p.left|] == all;
    }

    /** An event between two timers of a pass. */
    method EventDuringPass(ghost all: seq<TimeoutHandler>, ghost p: Progress, ghost outside: set<TimeoutHandler>)
      returns (ghost all': seq<TimeoutHandler>, ghost p': Progress)
      requires timeoutHandlers.Valid() && p.WellFormed()
      requires ProgressOk(all, p) && StopIsNew(p) && AddIsNew(p)
      requires StopsAllowed(all, p, outside) && forall h :: h in remembered ==> h.Valid() && Stoppable(h, all, p, outside)
      requires forall h :: h in timeoutHandlers.Contents() ==> h in all
      modifies this, timeoutHandlers, timeoutHandlers.last, all, outside
      ensures timeoutHandlers.Valid()
      ensures forall n :: n in timeoutHandlers.chain ==> n in old(timeoutHandlers.chain) || fresh(n)
      ensures all' == all || exists h: TimeoutHandler :: fresh(h) && all' == all + [h]
      ensures timeoutHandlers.Contents() == old(timeoutHandlers.Contents()) + all'[|all|..]
      ensures p'.WellFormed() && p'.due == p.due && p'.passed == p.passed && p'.left == p.left
      ensures ProgressOk(all', p') && StopsAllowed(all', p', outside)
      ensures forall h :: h in remembered ==> h.Valid() && Stoppable(h, all', p', outside)
      ensures forall h :: h in all ==> h.Left() == 0 || h.Left() == old(h.Left())
    {
      hide EventsOk, ValuesOk, Distinct, List.Valid;
      ghost var values := LeftsOf(all);
      assert forall h :: h in remembered ==> h in all || h in outside;
      ghost var stopped, added := TimeoutEvent();
      all' := all;
      p' := AfterStop(all, values, p, stopped, outside);
      if added != null {
        all' := all + [added];
        p' := AfterAdd(all, p', added, outside);
      }
    }
  }

  lemma ProgressParts(all: seq<TimeoutHandler>, p: Progress)
    requires p.WellFormed() && ProgressOk(all, p)
    ensures Distinct(all) && ValuesOk(LeftsOf(all), p) && EventsOk(p) && forall h :: h in all ==> h.Valid()
    ensures |LeftsOf(all)| == |all| == p.Size()
    ensures forall j, k :: 0 <= j < k < |all| ==> all[j] != all[k]
  {
  }

  /** What giving the time to the next timer adds to the record of the pass. */
  ghost function Handed(p: Progress, value: int, event: bool): Progress {
    p.(left := p.left + [value], triggered := p.triggered + [event])
  }

  lemma AfterProcess(all: seq<TimeoutHandler>, values: seq<int>, p: Progress, event: bool)
    requires p.WellFormed() && ValuesOk(values, p) && EventsOk(p) && |p.left| < |values| == |all|
    requires Distinct(all) && forall h :: h in all ==> h.Valid()
    requires event <==> 0 < values[|p.left|] <= p.passed
    requires forall k :: 0 <= k < |all| && k != |p.left| ==> all[k].Left() == values[k]
    requires all[|p.left|].Left() == Saturating(values[|p.left|], p.passed)
    ensures Handed(p, values[|p.left|], event).WellFormed() && ProgressOk(all, Handed(p, values[|p.left|], event))
    ensures event && p.passed < Micros(WAIT_DURATION, 0) ==> |p.left| < |p.due|
  {
    hide ValuesOk, EventsOk, TimeoutHandler.Left;
    ProcessKeeps(values, p, event);
    HandedKeepsEvents(p, values[|p.left|], event);
    assert LeftsOf(all) == values[|p.left| := Saturating(values[|p.left|], p.passed)];
  }

  lemma HandedKeepsStops(all: seq<TimeoutHandler>, p: Progress, value: int, event: bool, outside: set<TimeoutHandler>)
    requires p.WellFormed() && EventsOk(p) && StopsAllowed(all, p, outside)
    ensures var p' := Handed(p, value, event);
      && p'.WellFormed() && StopsAllowed(all, p', outside)
      && (event ==> StopIsNew(p') && AddIsNew(p'))
  {
  }

  lemma StoppableStays(all: seq<TimeoutHandler>, p: Progress, p': Progress, outside: set<TimeoutHandler>)
    requires p.due == p'.due
    ensures forall h :: Stoppable(h, all, p, outside) ==> Stoppable(h, all, p', outside)
  {
  }

  /** An event that follows the last handled timer has stopped the timer, if it is one of the pass. */
  lemma AfterStop(all: seq<TimeoutHandler>, values: seq<int>, p: Progress, stopped: TimeoutHandler?, outside: set<TimeoutHandler>)
    returns (p': Progress)
    requires p.WellFormed() && ValuesOk(values, p) && EventsOk(p) && StopIsNew(p) && AddIsNew(p) && |values| == |all|
    requires Distinct(all) && forall h :: h in all ==> h.Valid()
    requires forall k :: 0 <= k < |all| && all[k] != stopped ==> all[k].Left() == values[k]
    requires stopped != null ==> stopped.Left() == 0 && Stoppable(stopped, all, p, outside)
    requires StopsAllowed(all, p, outside)
    ensures p' == p.(stoppedBy := p'.stoppedBy) && p'.WellFormed() && ProgressOk(all, p') && AddIsNew(p')
    ensures StopsAllowed(all, p', outside)
    ensures forall h :: Stoppable(h, all, p, outside) ==> Stoppable(h, all, p', outside)
  {
    assert |values| == p.Size() && |p.left| > 0;
    hide ValuesOk, EventsOk, TimeoutHandler.Left, StopIsNew, AddIsNew, StopsAllowed, Stoppable, Distinct;
    StoppableStays(all, p, p, outside);
    if k: nat :| k < |all| && all[k] == stopped {
      p' := StoppedAt(p, k);
      StopKeepsValues(values, p, k);
      StopKeepsEvents(p, k);
      StopIsAllowed(all, p, k, outside);
      StoppableStays(all, p, p', outside);
      StoppedLefts(all, values, k);
    } else {
      p' := p;
      assert LeftsOf(all) == values;
    }
  }

  lemma StoppedLefts(all: seq<TimeoutHandler>, values: seq<int>, k: nat)
    requires Distinct(all) && |values| == |all| && k < |all| && all[k].Left() == 0
    requires forall j :: 0 <= j < |all| && all[j] != all[k] ==> all[j].Left() == values[j]
    ensures LeftsOf(all) == values[k := 0]
  {
    hide TimeoutHandler.Left;
  }

  lemma StopIsAllowed(all: seq<TimeoutHandler>, p: Progress, k: nat, outside: set<TimeoutHandler>)
    requires p.WellFormed() && Distinct(all) && k < |all| && |p.left| > 0
    requires Stoppable(all[k], all, p, outside) && StopsAllowed(all, p, outside)
    ensures StopsAllowed(all, StoppedAt(p, k), outside)
    ensures AddIsNew(p) ==> StoppedAt(p, k).WellFormed() && AddIsNew(StoppedAt(p, k))
  {
  }

  /** An event that follows the last handled timer has queued a new timer. */
  lemma AfterAdd(all: seq<TimeoutHandler>, p: Progress, added: TimeoutHandler, outside: set<TimeoutHandler>)
    returns (p': Progress)
    requires p.WellFormed() && ProgressOk(all, p) && AddIsNew(p)
    requires added !in all && added.Valid() && added.Left() >= Micros(WAIT_DURATION, 0)
    requires StopsAllowed(all, p, outside)
    ensures p'.WellFormed() && ProgressOk(all + [added], p')
    ensures p'.due == p.due && p'.passed == p.passed && p'.left == p.left
    ensures StopsAllowed(all + [added], p', outside)
    ensures forall h :: Stoppable(h, all, p, outside) || h == added ==> Stoppable(h, all + [added], p', outside)
  {
    assert |p.left| > 0;
    hide ValuesOk, EventsOk, TimeoutHandler.Left, AddIsNew;
    ProgressParts(all, p);
    p' := WithAdded(p, added.Left());
    AddKeepsValues(LeftsOf(all), p, added.Left());
    AddKeepsEvents(p, added.Left());
    assert LeftsOf(all + [added]) == LeftsOf(all) + [added.Left()];
    forall h | Stoppable(h, all, p, outside) || h == added ensures Stoppable(h, all + [added], p', outside) {
      assert (all + [added])[|all|] == added;
      if k: nat :| |p.due| <= k < |all| && all[k] == h {
        assert (all + [added])[k] == h;
      }
    }
  }

  lemma LeftsSize(all: seq<TimeoutHandler>)
    ensures |LeftsOf(all)| == |all|
  {
  }

  lemma EmptyList(list: List<TimeoutHandler>)
    requires list.Valid()
    ensures list.size == |list.Contents()|
    ensures if list.size > 0 then list.last in list.chain else list.last == null
  {
  }

  lemma StartProgress(all: seq<TimeoutHandler>, outside: set<TimeoutHandler>, passedSec: int, passedUsec: int)
    requires Distinct(all) && IsTime(passedSec, passedUsec) && forall h :: h in all ==> h.Valid()
    ensures Micros(passedSec, passedUsec) >= 0
    ensures var p := Progress(LeftsOf(all), [], Micros(passedSec, passedUsec), [], [], [], map[]);
      p.WellFormed() && ProgressOk(all, p) && StopsAllowed(all, p, outside) && forall h :: h in outside ==> Stoppable(h, all, p, outside)
    ensures Survivors([], [], Micros(passedSec, passedUsec)) == []
  {
  }

  lemma SurvivorsStep(all: seq<TimeoutHandler>, all': seq<TimeoutHandler>, p: Progress, p': Progress)
    requires |p.left| < |all| && all <= all' && |p'.left| == |p.left| + 1 && p'.left[..|p.left|] == p.left && p'.passed == p.passed
    ensures Survivors(all'[..|p'.left|], p'.left, p'.passed)
      == Survivors(all[..|p.left|], p.left, p.passed) + if p'.left[|p.left|] > p.passed then [all[|p.left|]] else []
  {
    assert all'[..|p'.left|][..|p.left|] == all[..|p.left|];
    assert all'[..|p'.left|][|p.left|] == all[|p.left|];
  }

  lemma ElapsedIsZero(h: TimeoutHandler)
    requires h.Valid()
    ensures h.Elapsed() <==> h.Left() == 0
  {
  }

  /** How far a pass has come. due: the time each timer queued at the start had then; added: the
      time each timer queued during the pass was queued with, and addedBy: by the event of which
      timer. left: what each timer handled so far had when it came up, and triggered: whether its
      event was triggered. stoppedBy: the timers that were stopped, each with the timer whose
      event did it. Timers are named by their place in the pass. */
  datatype Progress = Progress(
    due: seq<int>, added: seq<int>, passed: int, left: seq<int>, triggered: seq<bool>, addedBy: seq<nat>, stoppedBy: map<nat, nat>)
  {
    ghost predicate WellFormed() {
      |left| == |triggered| && |added| == |addedBy| && 0 <= passed
    }

    ghost function Size(): nat {
      |due| + |added|
    }

    /** The time the k-th timer of the pass had at the start or was queued with. */
    ghost function Full(k: nat): int
      requires k < Size()
    {
      if k < |due| then due[k] else added[k - |due|]
    }

    ghost predicate StoppedBefore(k: nat, n: nat) {
      k in stoppedBy && stoppedBy[k] < n
    }
  }

  /** What the k-th timer of the pass has left. One already handled had its full time when it came
      up unless an earlier timer's event had stopped it; its event was triggered exactly if that
      time was used up. Since then the time handed over is gone from it, and so is all of it if it
      was stopped. */
  ghost predicate ValueOk(value: int, k: nat, p: Progress)
    requires p.WellFormed() && k < p.Size()
  {
    if k < |p.left| then
      && p.left[k] == (if p.StoppedBefore(k, k) then 0 else p.Full(k))
      && (p.triggered[k] <==> 0 < p.left[k] <= p.passed)
      && value == (if k in p.stoppedBy then 0 else Saturating(p.left[k], p.passed))
    else value == if k in p.stoppedBy then 0 else p.Full(k)
  }

  ghost predicate ValuesOk(values: seq<int>, p: Progress)
    requires p.WellFormed()
  {
    |p.left| <= |values| == p.Size() && forall k :: 0 <= k < |values| ==> ValueOk(values[k], k, p)
  }

  /** The timer has been handled and triggered its event. */
  ghost predicate Triggered(p: Progress, m: nat)
    requires p.WellFormed()
  {
    m < |p.left| && p.triggered[m]
  }

  /** Only triggered events queue and stop timers, each at most one, and those they queue run at
      least for the waiting time. */
  ghost predicate EventsOk(p: Progress)
    requires p.WellFormed()
  {
    && (forall k :: k in p.stoppedBy ==> k < p.Size() && Triggered(p, p.stoppedBy[k]))
    && (forall j, k :: j in p.stoppedBy && k in p.stoppedBy && j != k ==> p.stoppedBy[j] != p.stoppedBy[k])
    && (forall j :: 0 <= j < |p.added| ==> p.added[j] >= Micros(WAIT_DURATION, 0) && Triggered(p, p.addedBy[j]))
    && (forall i, j :: 0 <= i < j < |p.added| ==> p.addedBy[i] < p.addedBy[j])
  }

  /** The event of the last handled timer was triggered and has not stopped a timer yet. */
  ghost predicate StopIsNew(p: Progress)
    requires p.WellFormed()
  {
    |p.left| > 0 && Triggered(p, |p.left| - 1) && forall k :: k in p.stoppedBy ==> p.stoppedBy[k] < |p.left| - 1
  }

  /** The event of the last handled timer was triggered and has not queued a timer yet. */
  ghost predicate AddIsNew(p: Progress)
    requires p.WellFormed()
  {
    |p.left| > 0 && Triggered(p, |p.left| - 1) && forall j :: 0 <= j < |p.addedBy| ==> p.addedBy[j] < |p.left| - 1
  }

  ghost function StoppedAt(p: Progress, k: nat): Progress
    requires |p.left| > 0
  {
    if k in p.stoppedBy then p else p.(stoppedBy := p.stoppedBy[k := |p.left| - 1])
  }

  ghost function WithAdded(p: Progress, value: int): Progress
    requires |p.left| > 0
  {
    p.(added := p.added + [value], addedBy := p.addedBy + [|p.left| - 1])
  }

  ghost function LeftsOf(all: seq<TimeoutHandler>): seq<int>
    reads all
  {
    seq(|all|, i requires 0 <= i < |all| reads all => all[i].Left())
  }

  ghost predicate ProgressOk(all: seq<TimeoutHandler>, p: Progress)
    requires p.WellFormed()
    reads all
  {
    Distinct(all) && (forall h :: h in all ==> h.Valid()) && ValuesOk(LeftsOf(all), p) && EventsOk(p)
  }

  /** A timer that an event may stop: one remembered at the start or queued during the pass. */
  ghost predicate Stoppable(h: TimeoutHandler, all: seq<TimeoutHandler>, p: Progress, outside: set<TimeoutHandler>) {
    h in outside || exists k: nat :: |p.due| <= k < |all| && all[k] == h
  }

  /** Of the timers queued at the start only those that sessions remembered then were stopped. */
  ghost predicate StopsAllowed(all: seq<TimeoutHandler>, p: Progress, outside: set<TimeoutHandler>) {
    forall k :: k in p.stoppedBy && k < |p.due| ==> k < |all| && all[k] in outside
  }

  /** Handing the time to the next timer. */
  lemma ProcessKeeps(values: seq<int>, p: Progress, event: bool)
    requires p.WellFormed() && ValuesOk(values, p) && EventsOk(p) && |p.left| < |values|
    requires event <==> 0 < values[|p.left|] <= p.passed
    ensures var m := |p.left|;
      Handed(p, values[m], event).WellFormed() && ValuesOk(values[m := Saturating(values[m], p.passed)], Handed(p, values[m], event))
    ensures event && p.passed < Micros(WAIT_DURATION, 0) ==> |p.left| < |p.due|
  {
    var m := |p.left|;
    var values', p' := values[m := Saturating(values[m], p.passed)], Handed(p, values[m], event);
    assert ValueOk(values[m], m, p);
    forall k | 0 <= k < |values| ensures ValueOk(values'[k], k, p') {
      assert ValueOk(values[k], k, p);
    }
  }

  lemma HandedKeepsEvents(p: Progress, value: int, event: bool)
    requires p.WellFormed() && EventsOk(p)
    ensures Handed(p, value, event).WellFormed() && EventsOk(Handed(p, value, event))
  {
    assert forall m :: Triggered(p, m) ==> Triggered(Handed(p, value, event), m);
  }

  /** A timer stopped by the event of the last handled timer. */
  lemma StopKeepsValues(values: seq<int>, p: Progress, k: nat)
    requires p.WellFormed() && ValuesOk(values, p) && k < |values| && |p.left| > 0
    ensures ValuesOk(values[k := 0], StoppedAt(p, k))
  {
    var values' := values[k := 0];
    forall i | 0 <= i < |values| ensures ValueOk(values'[i], i, StoppedAt(p, k)) {
      assert ValueOk(values[i], i, p);
    }
  }

  lemma StopKeepsEvents(p: Progress, k: nat)
    requires p.WellFormed() && EventsOk(p) && StopIsNew(p) && k < p.Size()
    ensures EventsOk(StoppedAt(p, k))
  {
    assert forall m :: Triggered(p, m) <==> Triggered(StoppedAt(p, k), m);
  }

  /** A timer queued by the event of the last handled timer. */
  lemma AddKeepsValues(values: seq<int>, p: Progress, value: int)
    requires p.WellFormed() && ValuesOk(values, p) && EventsOk(p) && |p.left| > 0
    ensures WithAdded(p, value).WellFormed() && ValuesOk(values + [value], WithAdded(p, value))
  {
    forall k | 0 <= k < |values + [value]| ensures ValueOk((values + [value])[k], k, WithAdded(p, value)) {
      assert k < |values| ==> ValueOk(values[k], k, p);
    }
  }

  lemma AddKeepsEvents(p: Progress, value: int)
    requires p.WellFormed() && EventsOk(p) && AddIsNew(p) && value >= Micros(WAIT_DURATION, 0)
    ensures EventsOk(WithAdded(p, value))
  {
    assert forall m :: Triggered(p, m) <==> Triggered(WithAdded(p, value), m);
  }

  // ---------- what a whole pass comes to ----------

  /** The places of the triggered timers. */
  ghost function TriggeredAt(p: Progress): set<nat>
    requires p.WellFormed()
  {
    set m: nat | m < |p.left| && Triggered(p, m)
  }

  /** In a complete pass the event of a timer was triggered exactly if its full time was used up
      and no earlier timer's event had stopped it; only timers queued at the start trigger. */
  lemma WhoTriggers(values: seq<int>, p: Progress, k: nat)
    requires p.WellFormed() && ValuesOk(values, p) && EventsOk(p) && |p.left| == p.Size() && k < p.Size()
    requires p.passed < Micros(WAIT_DURATION, 0)
    ensures Triggered(p, k) <==> k < |p.due| && 0 < p.due[k] <= p.passed && !p.StoppedBefore(k, k)
  {
    assert ValueOk(values[k], k, p);
  }

  /** There are at most as many stopped and as many new timers as triggered events. */
  lemma EventsAreBounded(p: Progress)
    requires p.WellFormed() && EventsOk(p)
    ensures |p.stoppedBy| <= |TriggeredAt(p)| && |p.added| <= |TriggeredAt(p)|
  {
    InjectiveSize(p.stoppedBy, TriggeredAt(p));
    IncreasingSize(p.addedBy, TriggeredAt(p));
  }

  lemma {:induction false} InjectiveSize(f: map<nat, nat>, range: set<nat>)
    requires forall j, k :: j in f && k in f && j != k ==> f[j] != f[k]
    requires forall k :: k in f ==> f[k] in range
    ensures |f| <= |range|
    decreases |range|
  {
    if f != map[] {
      var k :| k in f;
      InjectiveSize(f - {k}, range - {f[k]});
      assert f.Keys == (f - {k}).Keys + {k};
    }
  }

  lemma {:induction false} IncreasingSize(s: seq<nat>, range: set<nat>)
    requires forall i, j :: 0 <= i < j < |s| ==> s[i] < s[j]
    requires forall i :: 0 <= i < |s| ==> s[i] in range
    ensures |s| <= |range|
  {
    if s != [] {
      var n := |s| - 1;
      IncreasingSize(s[..n], range - {s[n]});
    }
  }

  /** A complete pass in which no timer's time is used up triggers nothing, and so stops and queues
      nothing: each timer has its time less what has passed. */
  lemma QuietPass(values: seq<int>, p: Progress)
    requires p.WellFormed() && ValuesOk(values, p) && EventsOk(p) && |p.left| == p.Size()
    requires p.passed < Micros(WAIT_DURATION, 0)
    requires forall k :: 0 <= k < |p.due| ==> p.due[k] == 0 || p.due[k] > p.passed
    ensures p.stoppedBy == map[] && p.added == [] && p.left == p.due
    ensures |values| == |p.due| && forall k :: 0 <= k < |values| ==> values[k] == Saturating(p.due[k], p.passed) && !p.triggered[k]
  {
    forall m: nat | m < |p.left| ensures !Triggered(p, m) {
      WhoTriggers(values, p, m);
    }
    assert p.added != [] ==> Triggered(p, p.addedBy[0]);
    assert forall k :: k in p.stoppedBy ==> Triggered(p, p.stoppedBy[k]);
    assert p.stoppedBy == map[] && p.added == [];
    forall k | 0 <= k < |values|
      ensures values[k] == Saturating(p.due[k], p.passed) && p.left[k] == p.due[k] && !Triggered(p, k)
    {
      assert ValueOk(values[k], k, p);
    }
  }
}
