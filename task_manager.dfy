/** The cooperative scheduler: a list of periodic tasks, each run from the
    main loop once its interval has elapsed since its last run, measured in
    32-bit millisecond time that wraps around. */
module TaskManager {
  import opened Uint

  /** A registered callback, known here only by its identity. */
  type Callback = nat

  datatype Task = Task(callback: Callback, intervalMs: u32, lastRunMs: u32)

  /** The run condition of handle, in unsigned 32-bit arithmetic. */
  predicate Due(t: Task, now: u32)
  {
    Sub32(now, t.lastRunMs) >= t.intervalMs
  }

  /** The positions of all due tasks at `now`, in list order. */
  function DueIndices(tasks: seq<Task>, now: u32): seq<nat>
    decreases |tasks|
  {
    if tasks == [] then []
    else DueIndices(tasks[..|tasks| - 1], now) + (if Due(tasks[|tasks| - 1], now) then [|tasks| - 1] else [])
  }

  /** The list after handle at `now`: every due task is stamped with
      `now`, every other task is left as it was. */
  function Tick(tasks: seq<Task>, now: u32): (r: seq<Task>)
    ensures |r| == |tasks|
  {
    seq(|tasks|, i requires 0 <= i < |tasks| =>
      if Due(tasks[i], now) then tasks[i].(lastRunMs := now) else tasks[i])
  }

  /** DueIndices lists only due tasks, in strictly increasing order. */
  lemma {:induction false} DueIndicesSound(tasks: seq<Task>, now: u32)
    ensures forall k :: 0 <= k < |DueIndices(tasks, now)| ==>
      DueIndices(tasks, now)[k] < |tasks| && Due(tasks[DueIndices(tasks, now)[k]], now)
    ensures forall k, l :: 0 <= k < l < |DueIndices(tasks, now)| ==>
      DueIndices(tasks, now)[k] < DueIndices(tasks, now)[l]
    decreases |tasks|
  {
    if tasks != [] {
      var n := |tasks| - 1;
      var init := tasks[..n];
      DueIndicesSound(init, now);
      var e := DueIndices(init, now);
      assert forall k :: 0 <= k < |e| ==> e[k] < n && tasks[e[k]] == init[e[k]];
    }
  }

  /** DueIndices lists every due task. */
  lemma {:induction false} DueIndicesComplete(tasks: seq<Task>, now: u32)
    ensures forall i :: 0 <= i < |tasks| && Due(tasks[i], now) ==> i in DueIndices(tasks, now)
    decreases |tasks|
  {
    if tasks != [] {
      var n := |tasks| - 1;
      var init := tasks[..n];
      DueIndicesComplete(init, now);
      assert forall i :: 0 <= i < n ==> tasks[i] == init[i];
    }
  }

  /** handle changes no interval, no callback and the number of tasks; the
      tasks it stamps are exactly the due ones. */
  lemma TickShape(tasks: seq<Task>, now: u32)
    ensures var r := Tick(tasks, now);
      && |r| == |tasks|
      && (forall i :: 0 <= i < |tasks| ==>
            && r[i].callback == tasks[i].callback && r[i].intervalMs == tasks[i].intervalMs
            && (r[i].lastRunMs == now || r[i].lastRunMs == tasks[i].lastRunMs)
            && (Due(tasks[i], now) ==> r[i].lastRunMs == now)
            && (!Due(tasks[i], now) ==> r[i] == tasks[i]))
  {
  }

  /** Stamping is idempotent: a second handle at the same `now` may run
      tasks again but leaves the list as the first one left it. */
  lemma TickIdempotent(tasks: seq<Task>, now: u32)
    ensures Tick(Tick(tasks, now), now) == Tick(tasks, now)
  {
    var r := Tick(tasks, now);
    assert forall i :: 0 <= i < |r| ==> Tick(r, now)[i] == r[i];
  }

  /** Right after handle at `now`, a second handle at the same `now` runs
      only tasks with a zero interval. */
  lemma TickSettles(tasks: seq<Task>, now: u32)
    ensures forall i :: 0 <= i < |tasks| && Due(Tick(tasks, now)[i], now) ==> tasks[i].intervalMs == 0
  {
    forall i | 0 <= i < |tasks| && Due(Tick(tasks, now)[i], now)
      ensures tasks[i].intervalMs == 0
    {
      if Due(tasks[i], now) {
        assert Sub32(now, now) == 0;
      }
    }
  }

  class Scheduler {
    var tasks: seq<Task>
    /** The positions of every task whose callback was invoked, in call order. */
    var ran: seq<nat>

    constructor ()
      ensures tasks == [] && ran == []
    {
      tasks := [];
      ran := [];
    }

    method Init()
      modifies this`tasks
      ensures tasks == []
    {
      tasks := [];
    }

    method ClearTasks()
      modifies this`tasks
      ensures tasks == []
    {
      tasks := [];
    }

    /** addTask: append a task that has never run. */
    method AddTask(callback: Callback, intervalMs: u32)
      modifies this`tasks
      ensures tasks == old(tasks) + [Task(callback, intervalMs, 0)]
    {
      tasks := tasks + [Task(callback, intervalMs, 0)];
    }

    /** handle at time `now` (read once): run every due task in list order
        and stamp it with `now`. */
    method Handle(now: u32)
      modifies this
      ensures tasks == Tick(old(tasks), now)
      ensures ran == old(ran) + DueIndices(old(tasks), now)
    {
      var i := 0;
      while i < |tasks|
        invariant 0 <= i <= |tasks| == |old(tasks)|
        invariant tasks[..i] == Tick(old(tasks), now)[..i] && tasks[i..] == old(tasks)[i..]
        invariant ran == old(ran) + DueIndices(old(tasks)[..i], now)
      {
        assert old(tasks)[..i + 1][..i] == old(tasks)[..i];
        assert tasks[i] == old(tasks)[i];
        if Sub32(now, tasks[i].lastRunMs) >= tasks[i].intervalMs {
          ran := ran + [i];
          tasks := tasks[i := tasks[i].(lastRunMs := now)];
        }
        i := i + 1;
      }
      assert old(tasks)[..i] == old(tasks);
      assert tasks == tasks[..i];
    }
  }
}
