/**
 * The scheduler's task list as the server process holds it: the list
 * `task_list` (head first), the counter `next_task_id`, and the live OS
 * timers. Each method does what its C counterpart does, step by step, and
 * is proved to leave the store as the matching function of module Tasks
 * says. Each method runs as one atomic step (the mutex is not modelled).
 */
module TaskStore {
  import opened CStrings
  import opened Wrappers
  import opened Tasks

  class TaskList {
    var tasks: seq<Task>
    var nextId: int
    var timers: map<int, TimerSetting>

    /** The store as a value. */
    function State(): Store
      reads this
    {
      Store(tasks, nextId, timers)
    }

    ghost predicate Valid()
      reads this
    {
      Tasks.Valid(State())
    }

    /** The static initialisers: no tasks, next id 1. */
    constructor ()
      ensures Valid()
      ensures State() == Initial
    {
      tasks := [];
      nextId := 1;
      timers := map[];
    }

    /** add_task: draw an id, copy the strings, create and arm the timer,
        then link the task in at the head. */
    method AddTask(scheduleType: int, timeVal: int, command: string, args: string, env: AddEnv)
      returns (id: int)
      requires Valid()
      modifies this
      ensures Valid()
      ensures Outcome(State(), id) == Add(old(State()), scheduleType, timeVal, command, args, env)
    {
      ghost var s0 := State();
      ghost var r := Add(s0, scheduleType, timeVal, command, args, env);
      AddValid(s0, scheduleType, timeVal, command, args, env);
      if !env.allocOk {
        id := -1;
        assert Outcome(State(), id) == r;
        return;
      }
      id := nextId;
      nextId := nextId + 1;
      var cmd := Truncate(command, FieldCap);
      var arg := Truncate(args, FieldCap);
      if !env.createOk {
        id := -1;
        assert Outcome(State(), id) == r;
        return;
      }
      // timer_create: a new timer object, not yet armed
      timers := timers[id := TimerSetting(0, 0)];
      var its := InitialTimer(scheduleType, timeVal, env.now);
      if !env.armOk {
        // timer_delete of the timer just created
        timers := timers - {id};
        assert timers == s0.timers;
        id := -1;
        assert Outcome(State(), id) == r;
        return;
      }
      timers := timers[id := its];
      tasks := [Task(id, scheduleType, timeVal, cmd, arg, its)] + tasks;
      assert Outcome(State(), id) == r;
    }

    /** remove_task_from_list: walk to the first task with the id; if there
        is one, unlink it and delete its timer. */
    method RemoveTaskFromList(id: int)
      requires Valid()
      modifies this
      ensures Valid()
      ensures State() == Remove(old(State()), id)
    {
      RemoveValid(State(), id);
      var i := 0;
      while i < |tasks| && tasks[i].id != id
        invariant 0 <= i <= |tasks|
        invariant forall k :: 0 <= k < i ==> tasks[k].id != id
      {
        i := i + 1;
      }
      if i < |tasks| {
        DropAt(tasks, i);
        tasks := tasks[..i] + tasks[i + 1..];
        timers := timers - {id};
      } else {
        assert id !in Ids(tasks);
        DropAbsent(tasks, id);
        assert timers - {id} == timers;
      }
    }

    /** The part of timer_callback that touches the store, for a task whose
        armed timer has expired: a task that is not periodic leaves the list. */
    method TimerCallback(t: Task)
      requires Valid()
      requires t in tasks && Armed(t.timer)
      modifies this
      ensures Valid()
      ensures State() == AfterFiring(old(State()), t)
    {
      if t.scheduleType != CYKLICZNY {
        RemoveTaskFromList(t.id);
      }
    }

    /** task_list_na_stringa: one formatted line per task, head first;
        nothing when the buffer cannot be allocated. */
    method TaskListToString(allocOk: bool) returns (r: Option<string>)
      ensures r == if allocOk then Some(Listing(tasks)) else None
    {
      if !allocOk {
        return None;
      }
      var buffer := "";
      var i := 0;
      while i < |tasks|
        invariant 0 <= i <= |tasks|
        invariant buffer == Listing(tasks[..i])
      {
        ListingPrefix(tasks, i);
        buffer := buffer + TaskInfo(tasks[i]);
        i := i + 1;
      }
      assert tasks[..i] == tasks;
      return Some(buffer);
    }

    /** cancel_task: the prev/cur walk; unlink the first task with the id
        and return 0, or return -1 when there is none. */
    method CancelTask(id: int) returns (rc: int)
      requires Valid()
      modifies this
      ensures Valid()
      ensures Outcome(State(), rc) == Cancel(old(State()), id)
    {
      CancelEffect(State(), id);
      var cur := 0;
      while cur < |tasks|
        invariant 0 <= cur <= |tasks|
        invariant forall k :: 0 <= k < cur ==> tasks[k].id != id
      {
        if tasks[cur].id == id {
          assert tasks[cur] in tasks;
          DropAt(tasks, cur);
          tasks := tasks[..cur] + tasks[cur + 1..];
          timers := timers - {id};
          return 0;
        }
        cur := cur + 1;
      }
      assert id !in Ids(tasks);
      return -1;
    }

    /** cancel_all_tasks: delete every task's timer, walking the list,
        then clear the list. */
    method CancelAllTasks()
      requires Valid()
      modifies this
      ensures Valid()
      ensures State() == CancelAll(old(State()))
    {
      var cur := tasks;
      while cur != []
        invariant NewestFirst(cur)
        invariant timers == TimerMap(cur)
        invariant tasks == old(tasks) && nextId == old(nextId)
        decreases |cur|
      {
        IdsTail(cur);
        TimerMapKeys(cur[1..]);
        timers := timers - {cur[0].id};
        cur := cur[1..];
      }
      tasks := [];
    }
  }

  /** With unique ids, the head's id is not among the rest. */
  lemma IdsTail(ts: seq<Task>)
    requires NewestFirst(ts) && |ts| > 0
    ensures NewestFirst(ts[1..])
    ensures Ids(ts[1..]) == Ids(ts) - {ts[0].id}
  {
    assert forall u :: u in ts <==> u == ts[0] || u in ts[1..];
    forall u | u in ts[1..] ensures u.id != ts[0].id {
      var i :| 0 <= i < |ts[1..]| && ts[1..][i] == u;
      assert ts[i + 1] == u;
    }
  }
}
