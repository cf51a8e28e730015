/**
 * The scheduler's task store as a value: the list of live tasks (newest
 * first, as the linked list `task_list` holds them), the id counter
 * `next_task_id`, and the POSIX timers the tasks own.  Every operation of
 * the store is a function here; the class in task_list.dfy performs them
 * step by step and is proved to compute exactly these functions.
 */
module Tasks {
  import opened CStrings

  // Schedule types as the wire carries them.
  const RELATYWNY := 0
  const ABS := 1
  const CYKLICZNY := 2

  /** Room for text in the 256-byte command and args buffers (one byte is the NUL). */
  const FieldCap: nat := 255

  /** The seconds of `it_value` and `it_interval` a timer was armed with.
      POSIX.1 timer_settime: a zero `it_value` disarms the timer; a zero
      `it_interval` makes an armed timer fire once. */
  datatype TimerSetting = TimerSetting(value: int, interval: int)

  predicate Armed(s: TimerSetting) {
    s.value != 0
  }

  datatype Task = Task(
    id: int,
    scheduleType: int,
    timeVal: int,
    command: string,
    args: string,
    timer: TimerSetting)

  /** What add_task learns from its surroundings: the clock, and whether
      malloc, timer_create and timer_settime succeed. */
  datatype AddEnv = AddEnv(now: int, allocOk: bool, createOk: bool, armOk: bool)

  /** `timers` holds the live OS timer objects, keyed by the id of the task
      that owns them. */
  datatype Store = Store(tasks: seq<Task>, nextId: int, timers: map<int, TimerSetting>)

  /** A store together with the int an operation returned. */
  datatype Outcome = Outcome(store: Store, code: int)

  /** The store at program start: an empty list and the counter at 1. */
  const Initial := Store([], 1, map[])

  /** The delay and interval add_task arms the timer with: the `its` record
      starts all zero and only the fields its schedule type names are set. */
  function InitialTimer(scheduleType: int, timeVal: int, now: int): TimerSetting
  {
    var delay :=
      if scheduleType == RELATYWNY then timeVal
      else if scheduleType == ABS then (if timeVal > now then timeVal - now else 0)
      else if scheduleType == CYKLICZNY then timeVal
      else 0;
    TimerSetting(delay, if scheduleType == CYKLICZNY then timeVal else 0)
  }

  /** The timer a task is created with disarms itself exactly for a zero
      relative or periodic time, an absolute time not in the future, or an
      unknown schedule type. Such a task never fires. */
  lemma DisarmedIff(scheduleType: int, timeVal: int, now: int)
    ensures !Armed(InitialTimer(scheduleType, timeVal, now)) <==>
      || (scheduleType == RELATYWNY && timeVal == 0)
      || (scheduleType == ABS && timeVal <= now)
      || (scheduleType == CYKLICZNY && timeVal == 0)
      || !(RELATYWNY <= scheduleType <= CYKLICZNY)
  {
  }

  /** When an armed timer first expires (now + it_value) and how it repeats:
      a relative task after timeVal seconds, an absolute task at timeVal
      itself, a periodic task after timeVal and every timeVal seconds
      thereafter; only periodic tasks repeat. */
  lemma ExpirySchedule(scheduleType: int, timeVal: int, now: int)
    requires Armed(InitialTimer(scheduleType, timeVal, now))
    ensures var s := InitialTimer(scheduleType, timeVal, now);
      && (scheduleType == RELATYWNY ==> now + s.value == now + timeVal && s.interval == 0)
      && (scheduleType == ABS ==> timeVal > now && now + s.value == timeVal && s.interval == 0)
      && (scheduleType == CYKLICZNY ==> s.value == timeVal && s.interval == timeVal)
      && (s.interval != 0 <==> scheduleType == CYKLICZNY)
  {
  }

  // ---------------------------------------------------------------------
  // The list of live tasks
  // ---------------------------------------------------------------------

  function Ids(ts: seq<Task>): set<int> {
    set t | t in ts :: t.id
  }

  /** Newest first: ids strictly decrease from head to tail. */
  predicate NewestFirst(ts: seq<Task>) {
    forall i, j :: 0 <= i < j < |ts| ==> ts[i].id > ts[j].id
  }

  /** A stored task's strings fit their buffers and its timer interval is
      the one its schedule type calls for. */
  predicate WellFormed(t: Task) {
    && |t.command| <= FieldCap
    && |t.args| <= FieldCap
    && t.timer.interval == (if t.scheduleType == CYKLICZNY then t.timeVal else 0)
  }

  /** The timers a list of tasks owns, keyed by task id. */
  function TimerMap(ts: seq<Task>): map<int, TimerSetting>
    decreases |ts|
  {
    if |ts| == 0 then map[] else TimerMap(ts[1..])[ts[0].id := ts[0].timer]
  }

  /** The store invariant: every live id was handed out by the counter,
      the list is newest first (so ids are unique), and the live timers are
      exactly those of the live tasks. */
  predicate Valid(s: Store) {
    && s.nextId >= 1
    && (forall i :: 0 <= i < |s.tasks| ==> 1 <= s.tasks[i].id < s.nextId && WellFormed(s.tasks[i]))
    && NewestFirst(s.tasks)
    && s.timers == TimerMap(s.tasks)
  }

  lemma {:induction false} TimerMapKeys(ts: seq<Task>)
    ensures TimerMap(ts).Keys == Ids(ts)
    decreases |ts|
  {
    if |ts| > 0 {
      TimerMapKeys(ts[1..]);
      assert forall u :: u in ts <==> u == ts[0] || u in ts[1..];
    }
  }

  /** With unique ids each live task's timer is the one recorded for its id. */
  lemma {:induction false} TimerMapAt(ts: seq<Task>, k: nat)
    requires NewestFirst(ts) && k < |ts|
    ensures ts[k].id in TimerMap(ts) && TimerMap(ts)[ts[k].id] == ts[k].timer
    decreases |ts|
  {
    if k > 0 {
      assert NewestFirst(ts[1..]);
      TimerMapAt(ts[1..], k - 1);
    }
  }

  lemma {:induction false} TimerMapDrop(ts: seq<Task>, id: int)
    ensures TimerMap(Drop(ts, id)) == TimerMap(ts) - {id}
    decreases |ts|
  {
    if |ts| > 0 {
      TimerMapDrop(ts[1..], id);
      if ts[0].id != id {
        assert ([ts[0]] + Drop(ts[1..], id))[1..] == Drop(ts[1..], id);
      }
    }
  }

  lemma InitialValid()
    ensures Valid(Initial)
  {
  }

  /** The list with every task of the given id taken out, the rest in order. */
  function Drop(ts: seq<Task>, id: int): seq<Task>
    decreases |ts|
  {
    if |ts| == 0 then []
    else if ts[0].id == id then Drop(ts[1..], id)
    else [ts[0]] + Drop(ts[1..], id)
  }

  lemma {:induction false} DropMembers(ts: seq<Task>, id: int)
    ensures forall u :: u in Drop(ts, id) <==> u in ts && u.id != id
    decreases |ts|
  {
    if |ts| > 0 {
      DropMembers(ts[1..], id);
      assert forall u :: u in ts <==> u == ts[0] || u in ts[1..];
    }
  }

  lemma {:induction false} DropAbsent(ts: seq<Task>, id: int)
    requires forall i :: 0 <= i < |ts| ==> ts[i].id != id
    ensures Drop(ts, id) == ts
    decreases |ts|
  {
    if |ts| > 0 {
      assert forall i :: 0 <= i < |ts[1..]| ==> ts[1..][i] == ts[i + 1];
      DropAbsent(ts[1..], id);
      assert ts == [ts[0]] + ts[1..];
    }
  }

  lemma {:induction false} DropKeepsOrder(ts: seq<Task>, id: int)
    requires NewestFirst(ts)
    ensures NewestFirst(Drop(ts, id))
    decreases |ts|
  {
    if |ts| > 0 {
      assert NewestFirst(ts[1..]);
      DropKeepsOrder(ts[1..], id);
      DropMembers(ts[1..], id);
      var r := Drop(ts[1..], id);
      forall k | 0 <= k < |r| ensures ts[0].id > r[k].id {
        assert r[k] in ts[1..];
      }
    }
  }

  /** With unique ids, taking the task out by id removes exactly the one
      element at its position. */
  lemma DropAt(ts: seq<Task>, k: nat)
    requires NewestFirst(ts)
    requires k < |ts|
    ensures Drop(ts, ts[k].id) == ts[..k] + ts[k + 1..]
  {
    DropUniqueAt(ts, k);
  }

  lemma {:induction false} DropUniqueAt(ts: seq<Task>, k: nat)
    requires k < |ts|
    requires forall i :: 0 <= i < |ts| && i != k ==> ts[i].id != ts[k].id
    ensures Drop(ts, ts[k].id) == ts[..k] + ts[k + 1..]
    decreases k
  {
    var id := ts[k].id;
    var tail := ts[1..];
    assert forall i :: 0 <= i < |tail| ==> tail[i] == ts[i + 1];
    if k == 0 {
      DropAbsent(tail, id);
      assert ts[..0] + ts[1..] == tail;
    } else {
      DropUniqueAt(tail, k - 1);
      assert tail[k - 1] == ts[k];
      assert ts[..k] == [ts[0]] + tail[..k - 1];
      assert ts[k + 1..] == tail[k..];
    }
  }

  lemma IdsDrop(ts: seq<Task>, id: int)
    ensures Ids(Drop(ts, id)) == Ids(ts) - {id}
  {
    DropMembers(ts, id);
    forall x | x in Ids(ts) - {id} ensures x in Ids(Drop(ts, id)) {
      var u :| u in ts && u.id == x;
    }
  }

  // ---------------------------------------------------------------------
  // Operations
  // ---------------------------------------------------------------------

  /** The record add_task builds: its strings cut to their buffers. */
  function NewTask(id: int, scheduleType: int, timeVal: int, command: string, args: string, now: int): Task
  {
    Task(id, scheduleType, timeVal, Truncate(command, FieldCap), Truncate(args, FieldCap),
         InitialTimer(scheduleType, timeVal, now))
  }

  /** add_task: a failed malloc returns -1 before the counter moves; once
      the id is drawn, a failed timer_create or timer_settime returns -1
      with the list and the live timers as they were; otherwise the new
      task goes to the head of the list and its id is returned. */
  function Add(s: Store, scheduleType: int, timeVal: int, command: string, args: string, env: AddEnv): Outcome
  {
    if !env.allocOk then Outcome(s, -1)
    else if !env.createOk || !env.armOk then Outcome(s.(nextId := s.nextId + 1), -1)
    else
      var t := NewTask(s.nextId, scheduleType, timeVal, command, args, env.now);
      Outcome(Store([t] + s.tasks, s.nextId + 1, s.timers[t.id := t.timer]), t.id)
  }

  /** Unlinks the task of the given id and deletes its timer (remove_task_from_list). */
  function Remove(s: Store, id: int): Store
  {
    s.(tasks := Drop(s.tasks, id), timers := s.timers - {id})
  }

  /** cancel_task: 0 after removing a live task, -1 when the id is absent. */
  function Cancel(s: Store, id: int): Outcome
  {
    if id in Ids(s.tasks) then Outcome(Remove(s, id), 0) else Outcome(s, -1)
  }

  /** cancel_all_tasks: every task and timer released; the counter stays. */
  function CancelAll(s: Store): Store
  {
    s.(tasks := [], timers := map[])
  }

  /** The store after the timer callback of task t has run: a one-shot
      task leaves the list, a periodic one stays. */
  function AfterFiring(s: Store, t: Task): Store
  {
    if t.scheduleType != CYKLICZNY then Remove(s, t.id) else s
  }

  // ---------------------------------------------------------------------
  // Properties of the operations
  // ---------------------------------------------------------------------

  /** A successful add hands out the counter's value, which is larger than
      every live id, advances the counter, puts the new task at the head with
      the given type and time, its strings cut to 255 characters and its
      computed timer, and leaves every earlier task where and as it was. A
      failed add returns -1 and leaves the list and the timers alone; the
      id is used up unless malloc was what failed. */
  lemma AddEffect(s: Store, scheduleType: int, timeVal: int, command: string, args: string, env: AddEnv)
    requires Valid(s)
    ensures var r := Add(s, scheduleType, timeVal, command, args, env);
      && Valid(r.store)
      && (r.code != -1 <==> env.allocOk && env.createOk && env.armOk)
      && (r.code != -1 ==>
            && r.code == s.nextId
            && (forall u :: u in s.tasks ==> u.id < r.code)
            && |r.store.tasks| == |s.tasks| + 1
            && r.store.nextId == s.nextId + 1
            && r.store.tasks[0].id == r.code
            && r.store.tasks[0].scheduleType == scheduleType
            && r.store.tasks[0].timeVal == timeVal
            && r.store.tasks[0].command == Truncate(command, FieldCap)
            && r.store.tasks[0].args == Truncate(args, FieldCap)
            && r.store.tasks[0].timer == InitialTimer(scheduleType, timeVal, env.now)
            && r.store.tasks[1..] == s.tasks
            && r.store.timers == s.timers[r.code := r.store.tasks[0].timer])
      && (r.code == -1 ==>
            && r.store.tasks == s.tasks
            && r.store.timers == s.timers
            && r.store.nextId == s.nextId + (if env.allocOk then 1 else 0))
  {
    var r := Add(s, scheduleType, timeVal, command, args, env);
    if r.code != -1 {
      var t := r.store.tasks[0];
      PrependValid(s, t);
      forall u | u in s.tasks ensures u.id < r.code {
        var i :| 0 <= i < |s.tasks| && s.tasks[i] == u;
      }
      assert r.store.tasks[1..] == s.tasks;
    }
  }

  lemma AddValid(s: Store, scheduleType: int, timeVal: int, command: string, args: string, env: AddEnv)
    requires Valid(s)
    ensures Valid(Add(s, scheduleType, timeVal, command, args, env).store)
    ensures s.nextId !in s.timers
  {
    AddEffect(s, scheduleType, timeVal, command, args, env);
    TimerMapKeys(s.tasks);
    forall u | u in s.tasks ensures u.id != s.nextId {
      var i :| 0 <= i < |s.tasks| && s.tasks[i] == u;
    }
  }

  /** Putting a task with the counter's id at the head keeps the invariant. */
  lemma PrependValid(s: Store, t: Task)
    requires Valid(s)
    requires t.id == s.nextId && WellFormed(t)
    ensures Valid(Store([t] + s.tasks, s.nextId + 1, s.timers[t.id := t.timer]))
  {
    var ts := [t] + s.tasks;
    var timers := s.timers[t.id := t.timer];
    forall i, j | 0 <= i < j < |ts| ensures ts[i].id > ts[j].id {
      assert ts[j] == s.tasks[j - 1];
      if i > 0 {
        assert ts[i] == s.tasks[i - 1];
      }
    }
    assert ts[1..] == s.tasks;
    forall i | 0 <= i < |ts|
      ensures 1 <= ts[i].id < s.nextId + 1 && WellFormed(ts[i])
    {
      if i > 0 {
        assert ts[i] == s.tasks[i - 1];
      }
    }
  }

  lemma RemoveValid(s: Store, id: int)
    requires Valid(s)
    ensures Valid(Remove(s, id))
  {
    var ts := Drop(s.tasks, id);
    DropKeepsOrder(s.tasks, id);
    DropMembers(s.tasks, id);
    TimerMapDrop(s.tasks, id);
    forall i | 0 <= i < |ts|
      ensures 1 <= ts[i].id < s.nextId && WellFormed(ts[i])
    {
      assert ts[i] in s.tasks;
      var j :| 0 <= j < |s.tasks| && s.tasks[j] == ts[i];
    }
  }

  /** cancel_task on a live id removes exactly that task, keeps the others
      in order, releases its timer and returns 0; on an absent id it
      returns -1 and changes nothing. The counter never moves. */
  lemma CancelEffect(s: Store, id: int)
    requires Valid(s)
    ensures var r := Cancel(s, id);
      && Valid(r.store)
      && r.store.nextId == s.nextId
      && (r.code == 0 <==> id in Ids(s.tasks))
      && (r.code == 0 ==>
            && (exists k :: 0 <= k < |s.tasks| && s.tasks[k].id == id &&
                  r.store.tasks == s.tasks[..k] + s.tasks[k + 1..])
            && Ids(r.store.tasks) == Ids(s.tasks) - {id}
            && id !in r.store.timers)
      && (r.code != 0 ==> r.code == -1 && r.store == s)
  {
    if id in Ids(s.tasks) {
      RemoveValid(s, id);
      IdsDrop(s.tasks, id);
      TimerMapKeys(Drop(s.tasks, id));
      var u :| u in s.tasks && u.id == id;
      var k :| 0 <= k < |s.tasks| && s.tasks[k] == u;
      DropAt(s.tasks, k);
    }
  }

  /** cancel_all_tasks empties the list and releases every timer; the
      counter keeps its value, so ids are not reused afterwards. */
  lemma CancelAllEffect(s: Store)
    requires Valid(s)
    ensures Valid(CancelAll(s))
    ensures CancelAll(s).tasks == [] && CancelAll(s).timers == map[]
    ensures CancelAll(s).nextId == s.nextId
  {
  }

  /** After a firing, a one-shot task (any type but CYKLICZNY) is gone and
      its timer deleted, everything else as before; a periodic task's
      firing changes nothing in the store. */
  lemma AfterFiringEffect(s: Store, t: Task)
    requires Valid(s)
    requires t in s.tasks
    ensures var r := AfterFiring(s, t);
      && Valid(r)
      && r.nextId == s.nextId
      && (t.scheduleType == CYKLICZNY ==> r == s)
      && (t.scheduleType != CYKLICZNY ==>
            && t !in r.tasks
            && t.id !in r.timers
            && |r.tasks| == |s.tasks| - 1
            && (forall u :: u in s.tasks && u != t ==> u in r.tasks))
  {
    if t.scheduleType != CYKLICZNY {
      RemoveValid(s, t.id);
      DropMembers(s.tasks, t.id);
      TimerMapDrop(s.tasks, t.id);
      var k :| 0 <= k < |s.tasks| && s.tasks[k] == t;
      DropAt(s.tasks, k);
      forall u | u in s.tasks && u != t ensures u.id != t.id {
        var i :| 0 <= i < |s.tasks| && s.tasks[i] == u;
        assert i != k;
      }
    }
  }

  /** A task whose timer was disarmed on creation is never the one that
      fires, so no firing takes it out of the store: it stays until it is
      cancelled or the server stops. */
  lemma DisarmedTaskSurvivesFiring(s: Store, u: Task, t: Task)
    requires Valid(s)
    requires u in s.tasks && !Armed(u.timer)
    requires t in s.tasks && Armed(t.timer)
    ensures u in AfterFiring(s, t).tasks
  {
    var i :| 0 <= i < |s.tasks| && s.tasks[i] == u;
    var j :| 0 <= j < |s.tasks| && s.tasks[j] == t;
    assert i != j;
    assert u.id != t.id;
    DropMembers(s.tasks, t.id);
  }

  // ---------------------------------------------------------------------
  // Histories: ids increase and are never reused
  // ---------------------------------------------------------------------

  /** One thing that can happen to the store. */
  datatype Op =
    | AddOp(scheduleType: int, timeVal: int, command: string, args: string, env: AddEnv)
    | CancelOp(id: int)
    | CancelAllOp
    | FireOp(task: Task)

  function Apply(s: Store, op: Op): Outcome
  {
    match op
    case AddOp(ty, tv, c, a, env) => Add(s, ty, tv, c, a, env)
    case CancelOp(id) => Cancel(s, id)
    case CancelAllOp => Outcome(CancelAll(s), 0)
    case FireOp(t) => Outcome(AfterFiring(s, t), 0)
  }

  /** The store after a history of operations. */
  function Replay(s: Store, ops: seq<Op>): Store
    decreases |ops|
  {
    if |ops| == 0 then s else Replay(Apply(s, ops[0]).store, ops[1..])
  }

  /** The ids successful adds returned during a history, in order. */
  function IssuedIds(s: Store, ops: seq<Op>): seq<int>
    decreases |ops|
  {
    if |ops| == 0 then []
    else
      var r := Apply(s, ops[0]);
      (if ops[0].AddOp? && r.code != -1 then [r.code] else []) + IssuedIds(r.store, ops[1..])
  }

  lemma ApplyCounter(s: Store, op: Op)
    ensures Apply(s, op).store.nextId >= s.nextId
    ensures op.AddOp? && Apply(s, op).code != -1 ==>
      Apply(s, op).code == s.nextId && Apply(s, op).store.nextId == s.nextId + 1
  {
    if op.FireOp? && op.task.scheduleType != CYKLICZNY {
      assert Apply(s, op).store == Remove(s, op.task.id);
    }
  }

  predicate Increasing(ids: seq<int>) {
    forall i, j :: 0 <= i < j < |ids| ==> ids[i] < ids[j]
  }

  /** Every element lies in [lo, hi). */
  predicate Within(ids: seq<int>, lo: int, hi: int) {
    forall i :: 0 <= i < |ids| ==> lo <= ids[i] < hi
  }

  /** Over any history, the ids handed out strictly increase, none is below
      the counter's starting value (so none equals an id live at the start)
      and none reaches its final value. */
  lemma {:induction false} IdsStrictlyIncrease(s: Store, ops: seq<Op>)
    ensures Increasing(IssuedIds(s, ops))
    ensures Within(IssuedIds(s, ops), s.nextId, Replay(s, ops).nextId)
    ensures s.nextId <= Replay(s, ops).nextId
    decreases |ops|
  {
    if |ops| > 0 {
      var r := Apply(s, ops[0]);
      ApplyCounter(s, ops[0]);
      IdsStrictlyIncrease(r.store, ops[1..]);
      var ids := IssuedIds(s, ops);
      var rest := IssuedIds(r.store, ops[1..]);
      assert Replay(s, ops) == Replay(r.store, ops[1..]);
      if ops[0].AddOp? && r.code != -1 {
        assert ids == [r.code] + rest;
        forall i, j | 0 <= i < j < |ids| ensures ids[i] < ids[j] {
          assert ids[j] == rest[j - 1];
          if i > 0 {
            assert ids[i] == rest[i - 1];
          }
        }
        forall i | 0 <= i < |ids| ensures s.nextId <= ids[i] < Replay(s, ops).nextId {
          if i > 0 {
            assert ids[i] == rest[i - 1];
          }
        }
      } else {
        assert ids == rest;
      }
    }
  }

  /** Every operation keeps the store invariant. */
  lemma ApplyValid(s: Store, op: Op)
    requires Valid(s)
    ensures Valid(Apply(s, op).store)
  {
    match op
    case AddOp(ty, tv, c, a, env) => AddEffect(s, ty, tv, c, a, env);
    case CancelOp(id) => CancelEffect(s, id);
    case CancelAllOp =>
    case FireOp(t) => if t.scheduleType != CYKLICZNY { RemoveValid(s, t.id); }
  }

  lemma {:induction false} ReplayValid(s: Store, ops: seq<Op>)
    requires Valid(s)
    ensures Valid(Replay(s, ops))
    decreases |ops|
  {
    if |ops| > 0 {
      ApplyValid(s, ops[0]);
      ReplayValid(Apply(s, ops[0]).store, ops[1..]);
    }
  }

  // ---------------------------------------------------------------------
  // The listing sent back for LISTA
  // ---------------------------------------------------------------------

  /** One line of task_list_na_stringa, without its newline: "Task ", the
      id, then the remaining fields. */
  function TaskText(t: Task): string
  {
    "Task " + (IntToDec(t.id) + TaskFields(t))
  }

  /** The part of a listing line after the id. */
  function TaskFields(t: Task): string
  {
    ": typ=" + IntToDec(t.scheduleType) + ", time_val=" + IntToDec(t.timeVal) +
    ", command=" + t.command + ", args=" + t.args
  }

  /** The buffer `task_info` that the loop formats and appends: the line and
      its newline. */
  function TaskInfo(t: Task): string
  {
    TaskText(t) + "\n"
  }

  /** The whole listing: one newline-terminated line per task, head first. */
  function Listing(ts: seq<Task>): string
    decreases |ts|
  {
    if |ts| == 0 then "" else TaskInfo(ts[0]) + Listing(ts[1..])
  }

  function Texts(ts: seq<Task>): (r: seq<string>)
    ensures |r| == |ts|
    ensures forall i :: 0 <= i < |ts| ==> r[i] == TaskText(ts[i])
  {
    seq(|ts|, i requires 0 <= i < |ts| => TaskText(ts[i]))
  }

  lemma TextsCons(ts: seq<Task>)
    requires |ts| > 0
    ensures Texts(ts) == [TaskText(ts[0])] + Texts(ts[1..])
  {
    var r := [TaskText(ts[0])] + Texts(ts[1..]);
    forall i | 0 <= i < |ts| ensures Texts(ts)[i] == r[i] {
      if i > 0 {
        assert ts[i] == ts[1..][i - 1];
      }
    }
  }

  lemma {:induction false} ListingSnoc(ts: seq<Task>, t: Task)
    ensures Listing(ts + [t]) == Listing(ts) + TaskInfo(t)
    decreases |ts|
  {
    if |ts| == 0 {
      assert Listing([t]) == TaskInfo(t) + Listing([]);
    } else {
      assert (ts + [t])[1..] == ts[1..] + [t];
      ListingSnoc(ts[1..], t);
    }
  }

  /** The listing of one more task of the walk. */
  lemma ListingPrefix(ts: seq<Task>, i: nat)
    requires i < |ts|
    ensures Listing(ts[..i + 1]) == Listing(ts[..i]) + TaskInfo(ts[i])
  {
    assert ts[..i + 1] == ts[..i] + [ts[i]];
    ListingSnoc(ts[..i], ts[i]);
  }

  /** Tasks whose strings hold no newline. */
  predicate SingleLine(ts: seq<Task>) {
    forall i :: 0 <= i < |ts| ==> '\n' !in ts[i].command && '\n' !in ts[i].args
  }

  lemma TaskTextSingleLine(t: Task)
    requires '\n' !in t.command && '\n' !in t.args
    ensures '\n' !in TaskText(t)
  {
  }

  /** Split at its newlines, the listing is exactly the tasks' lines in list
      order (newest first), one per task, followed by the empty rest after
      the final newline. */
  lemma {:induction false} ListingLines(ts: seq<Task>)
    requires SingleLine(ts)
    ensures SplitOn(Listing(ts), '\n') == Texts(ts) + [""]
    decreases |ts|
  {
    if |ts| == 0 {
      SplitOnNone("", '\n');
    } else {
      assert SingleLine(ts[1..]);
      ListingLines(ts[1..]);
      TaskTextSingleLine(ts[0]);
      ListingCons(ts);
      SplitOnFirst(TaskText(ts[0]), '\n', Listing(ts[1..]));
      TextsCons(ts);
    }
  }

  lemma ListingCons(ts: seq<Task>)
    requires |ts| > 0
    ensures Listing(ts) == TaskText(ts[0]) + ['\n'] + Listing(ts[1..])
  {
  }

  /** A client reading a listing line recovers the task's id with atoi
      from the text after "Task ". */
  lemma TaskTextId(t: Task)
    ensures Atol(TaskText(t)[5..]) == t.id
  {
    var rest := TaskFields(t);
    assert TaskText(t)[5..] == IntToDec(t.id) + rest;
    assert rest[0] == ':';
    AtolOfIntToDec(t.id, rest);
  }
}
