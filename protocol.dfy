/**
 * The request protocol between the command-line client and the server:
 * how the client turns its arguments into a `message_t`, how the server
 * dispatches one received message against the task store, and the
 * server's receive loop. The queues themselves are left out: the server
 * sees the sequence of receive results, the client hands back the message
 * it would send.
 */
module Protocol {
  import opened CStrings
  import opened Wrappers
  import opened Tasks
  import opened TaskStore

  // Opcodes of message_t.cmd.
  const DODAJ := 1
  const LISTA := 2
  const ANULUJ := 3
  const STOP := 4

  /** Room for text in the 64-byte reply queue name. */
  const QueueNameCap: nat := 63

  /** message_t: strings are the text before their terminating NUL. */
  datatype Message = Message(
    cmd: int,
    taskId: int,
    scheduleType: int,
    timeVal: int,
    command: string,
    args: string,
    replyQueue: string)

  /** The client's failure exits: an unknown task type after -a, or an
      unknown option. */
  datatype ClientError = BadTaskType | UnknownOption

  /** The client's private queue, "/client_mq_<pid>". */
  function ClientQueueName(pid: int): (r: string)
    ensures |r| <= QueueNameCap
  {
    Truncate("/client_mq_" + IntToDec(pid), QueueNameCap)
  }

  /** The schedule type a client names with rel, abs or cyc. */
  function TypeCode(name: string): Option<int>
  {
    if name == "rel" then Some(RELATYWNY)
    else if name == "abs" then Some(ABS)
    else if name == "cyc" then Some(CYKLICZNY)
    else None
  }

  /** The message run_client sends for its argument vector (argv[0] is the
      program name), or the error it exits with. */
  function Request(argv: seq<string>, pid: int): Result<Message, ClientError>
    requires WellFormedArgv(argv)
  {
    var empty := Message(0, 0, 0, 0, "", "", ClientQueueName(pid));
    if argv[1] == "-a" then
      match TypeCode(argv[2])
      case None => Failure(BadTaskType)
      case Some(ty) =>
        Success(empty.(cmd := DODAJ, scheduleType := ty, timeVal := Atol(argv[3]),
                       command := Truncate(argv[4], FieldCap),
                       args := Truncate(Join(argv[5..]), FieldCap)))
    else if argv[1] == "-l" then Success(empty.(cmd := LISTA))
    else if argv[1] == "-c" then Success(empty.(cmd := ANULUJ, taskId := Atol(argv[2])))
    else if argv[1] == "-s" then Success(empty.(cmd := STOP))
    else Failure(UnknownOption)
  }

  /** The arguments run_client reads without checking their count: an
      option; for -a a type, and a time and a command only once the type is
      known; for -c an id. */
  predicate WellFormedArgv(argv: seq<string>) {
    && |argv| >= 2
    && (argv[1] == "-a" ==> |argv| >= 3 && (TypeCode(argv[2]).Some? ==> |argv| >= 5))
    && (argv[1] == "-c" ==> |argv| >= 3)
  }

  /** An unknown type after -a is rejected before the time and command are
      read, so it needs no further arguments. */
  lemma BadTypeReadsNoMore(name: string, pid: int)
    requires TypeCode(name).None?
    ensures WellFormedArgv(["scheduler", "-a", name])
    ensures Request(["scheduler", "-a", name], pid) == Failure(BadTaskType)
  {
  }

  /** The strncat loop of run_client: argv[5..] joined with single spaces
      into a 256-byte buffer. */
  method JoinArgs(tokens: seq<string>) returns (argbuf: string)
    ensures argbuf == Truncate(Join(tokens), FieldCap)
  {
    argbuf := "";
    var i := 0;
    while i < |tokens|
      invariant 0 <= i <= |tokens|
      invariant argbuf == Truncate(Pending(tokens, i), FieldCap)
    {
      JoinArgsStep(tokens, i, FieldCap);
      argbuf := StrNCat(argbuf, tokens[i], FieldCap - |argbuf|);
      if i < |tokens| - 1 {
        argbuf := StrNCat(argbuf, " ", FieldCap - |argbuf|);
      }
      i := i + 1;
    }
    assert tokens[..i] == tokens;
  }

  /** What the strncat loop has appended before token i: the tokens so far
      and, between two tokens, the separating space. */
  function Pending(tokens: seq<string>, i: nat): string
    requires i <= |tokens|
  {
    Join(tokens[..i]) + (if 0 < i < |tokens| then " " else "")
  }

  /** One round of the strncat loop: appending token i, and the space when
      another token follows, keeps the buffer the truncation of all that
      was appended. */
  lemma JoinArgsStep(tokens: seq<string>, i: nat, cap: nat)
    requires i < |tokens|
    ensures var b := StrNCat(Truncate(Pending(tokens, i), cap), tokens[i],
                             cap - |Truncate(Pending(tokens, i), cap)|);
            && b == Truncate(Join(tokens[..i + 1]), cap)
            && (i < |tokens| - 1 ==> StrNCat(b, " ", cap - |b|) == Truncate(Pending(tokens, i + 1), cap))
            && (i == |tokens| - 1 ==> b == Truncate(Pending(tokens, i + 1), cap))
  {
    assert tokens[..i + 1] == tokens[..i] + [tokens[i]];
    if i > 0 {
      JoinSnoc(tokens[..i], tokens[i]);
    }
    StrNCatTruncates(Pending(tokens, i), tokens[i], cap);
    StrNCatTruncates(Join(tokens[..i + 1]), " ", cap);
  }

  /** run_client's message construction, field by field. */
  method BuildRequest(argv: seq<string>, pid: int) returns (r: Result<Message, ClientError>)
    requires WellFormedArgv(argv)
    ensures r == Request(argv, pid)
  {
    var msg := Message(0, 0, 0, 0, "", "", ClientQueueName(pid));
    if argv[1] == "-a" {
      msg := msg.(cmd := DODAJ);
      if argv[2] == "rel" {
        msg := msg.(scheduleType := RELATYWNY);
      } else if argv[2] == "abs" {
        msg := msg.(scheduleType := ABS);
      } else if argv[2] == "cyc" {
        msg := msg.(scheduleType := CYKLICZNY);
      } else {
        return Failure(BadTaskType);
      }
      msg := msg.(timeVal := Atol(argv[3]));
      msg := msg.(command := Truncate(argv[4], FieldCap));
      var argbuf := JoinArgs(argv[5..]);
      msg := msg.(args := Truncate(argbuf, FieldCap));
    } else if argv[1] == "-l" {
      msg := msg.(cmd := LISTA);
    } else if argv[1] == "-c" {
      msg := msg.(cmd := ANULUJ, taskId := Atol(argv[2]));
    } else if argv[1] == "-s" {
      msg := msg.(cmd := STOP);
    } else {
      return Failure(UnknownOption);
    }
    return Success(msg);
  }

  /** What the client sends: -a, -l, -c and -s give DODAJ, LISTA, ANULUJ
      and STOP; the only failures are an -a type other than rel/abs/cyc and
      any other option. Every request names the client's reply queue, and
      an add request carries a known schedule type and strings that fit
      their buffers. */
  lemma RequestShape(argv: seq<string>, pid: int)
    requires WellFormedArgv(argv)
    ensures var r := Request(argv, pid);
      && (r.Failure? <==>
            || (argv[1] == "-a" && argv[2] !in {"rel", "abs", "cyc"})
            || argv[1] !in {"-a", "-l", "-c", "-s"})
      && (r.Failure? ==> r.error == (if argv[1] == "-a" then BadTaskType else UnknownOption))
      && (r.Success? ==>
            && r.value.replyQueue == ClientQueueName(pid)
            && (r.value.cmd == DODAJ <==> argv[1] == "-a")
            && (r.value.cmd == LISTA <==> argv[1] == "-l")
            && (r.value.cmd == ANULUJ <==> argv[1] == "-c")
            && (r.value.cmd == STOP <==> argv[1] == "-s")
            && (r.value.cmd == DODAJ ==>
                  && RELATYWNY <= r.value.scheduleType <= CYKLICZNY
                  && |r.value.command| <= FieldCap && |r.value.args| <= FieldCap))
  {
  }

  // ---------------------------------------------------------------------
  // Server
  // ---------------------------------------------------------------------

  /** The outcome of the fallible calls made while serving one message. */
  datatype ServerEnv = ServerEnv(add: AddEnv, listAllocOk: bool, replyOk: bool)

  /** One mq_receive: a whole message, or a failure (interrupted by a
      signal, or another error). */
  datatype Received = Got(msg: Message, env: ServerEnv) | ReceiveFailed(interrupted: bool)

  /** A listing sent to a client's reply queue. */
  datatype Reply = Reply(queue: string, text: string)

  datatype Step = Step(store: Store, reply: Option<Reply>, running: bool)

  /** One pass of run_server's loop body. */
  function Dispatch(s: Store, r: Received): Step
  {
    match r
    case ReceiveFailed(_) => Step(s, None, true)
    case Got(m, env) =>
      if m.cmd == DODAJ then
        Step(Add(s, m.scheduleType, m.timeVal, m.command, m.args, env.add).store, None, true)
      else if m.cmd == LISTA then
        Step(s, if env.listAllocOk && env.replyOk then Some(Reply(m.replyQueue, Listing(s.tasks))) else None, true)
      else if m.cmd == ANULUJ then
        Step(Cancel(s, m.taskId).store, None, true)
      else if m.cmd == STOP then
        Step(s, None, false)
      else
        Step(s, None, true)
  }

  predicate IsStop(r: Received) {
    r.Got? && r.msg.cmd == STOP
  }

  /** Only STOP ends the loop; only LISTA answers, to the queue the
      message names, with the current listing; a failed receive, LISTA,
      STOP and an unknown opcode leave the store alone; every step keeps the
      store invariant. */
  lemma DispatchEffect(s: Store, r: Received)
    requires Valid(s)
    ensures var st := Dispatch(s, r);
      && Valid(st.store)
      && (st.running <==> !IsStop(r))
      && (st.reply.Some? ==>
            (r.Got? && r.msg.cmd == LISTA &&
             st.reply.value == Reply(r.msg.replyQueue, Listing(s.tasks))))
      && (r.Got? && r.msg.cmd == LISTA && r.env.listAllocOk && r.env.replyOk ==> st.reply.Some?)
      && (!(r.Got? && r.msg.cmd in {DODAJ, ANULUJ}) ==> st.store == s)
  {
    if r.Got? && r.msg.cmd == DODAJ {
      AddValid(s, r.msg.scheduleType, r.msg.timeVal, r.msg.command, r.msg.args, r.env.add);
    } else if r.Got? && r.msg.cmd == ANULUJ {
      CancelEffect(s, r.msg.taskId);
    }
  }

  /** What the server has done after reading part of its queue. */
  datatype Served = Served(store: Store, replies: seq<Reply>, consumed: nat, stopped: bool)

  /** run_server over a finite run of receive results: dispatch each in
      order until STOP, then cancel every task. When the run ends without
      STOP the server is still waiting and nothing is cancelled. */
  function Serve(s: Store, inbox: seq<Received>): Served
    decreases |inbox|
  {
    if |inbox| == 0 then Served(s, [], 0, false)
    else
      var st := Dispatch(s, inbox[0]);
      var replies := if st.reply.Some? then [st.reply.value] else [];
      if !st.running then Served(CancelAll(st.store), replies, 1, true)
      else
        var rest := Serve(st.store, inbox[1..]);
        Served(rest.store, replies + rest.replies, rest.consumed + 1, rest.stopped)
  }

  function CountLista(inbox: seq<Received>): nat
    decreases |inbox|
  {
    if |inbox| == 0 then 0
    else (if inbox[0].Got? && inbox[0].msg.cmd == LISTA then 1 else 0) + CountLista(inbox[1..])
  }

  /** The store invariant holds throughout the loop, and a stopped server
      has an empty store. */
  lemma {:induction false} ServeValid(s: Store, inbox: seq<Received>)
    requires Valid(s)
    ensures Valid(Serve(s, inbox).store)
    ensures Serve(s, inbox).stopped ==> Serve(s, inbox).store.tasks == []
    decreases |inbox|
  {
    if |inbox| > 0 {
      DispatchEffect(s, inbox[0]);
      var st := Dispatch(s, inbox[0]);
      if st.running {
        ServeValid(st.store, inbox[1..]);
      }
    }
  }

  /** The loop stops exactly at the first STOP, and reads the whole run
      when there is none. */
  lemma {:induction false} ServeStops(s: Store, inbox: seq<Received>)
    ensures var r := Serve(s, inbox);
      && r.consumed <= |inbox|
      && (r.stopped <==> exists k :: 0 <= k < |inbox| && IsStop(inbox[k]))
      && (r.stopped ==> r.consumed > 0 && IsStop(inbox[r.consumed - 1]))
      && (forall k :: 0 <= k < r.consumed - 1 ==> !IsStop(inbox[k]))
      && (!r.stopped ==> r.consumed == |inbox|)
    decreases |inbox|
  {
    if |inbox| > 0 {
      var st := Dispatch(s, inbox[0]);
      assert st.running <==> !IsStop(inbox[0]);
      if st.running {
        var tail := inbox[1..];
        ServeStops(st.store, tail);
        var rest := Serve(st.store, tail);
        assert forall k :: 0 <= k < |tail| ==> tail[k] == inbox[k + 1];
        if exists j :: 0 <= j < |inbox| && IsStop(inbox[j]) {
          var j :| 0 <= j < |inbox| && IsStop(inbox[j]);
          assert j > 0 && IsStop(tail[j - 1]);
        }
      }
    }
  }

  /** Replies number at most the LISTA requests read. */
  lemma {:induction false} ServeReplies(s: Store, inbox: seq<Received>)
    ensures Serve(s, inbox).consumed <= |inbox|
    ensures |Serve(s, inbox).replies| <= CountLista(inbox[..Serve(s, inbox).consumed])
    decreases |inbox|
  {
    if |inbox| > 0 {
      var st := Dispatch(s, inbox[0]);
      assert st.reply.Some? ==> inbox[0].Got? && inbox[0].msg.cmd == LISTA;
      if st.running {
        ServeReplies(st.store, inbox[1..]);
        var rest := Serve(st.store, inbox[1..]);
        var read := inbox[..rest.consumed + 1];
        assert read[0] == inbox[0] && read[1..] == inbox[1..][..rest.consumed];
      } else {
        assert inbox[..1][1..] == [];
      }
    }
  }

  /** A run read so far, followed by the rest of the run. */
  function Continue(replies: seq<Reply>, consumed: nat, rest: Served): Served
  {
    Served(rest.store, replies + rest.replies, consumed + rest.consumed, rest.stopped)
  }

  /** Unfolding Serve by one received message. */
  lemma ServeStep(replies: seq<Reply>, consumed: nat, s: Store, inbox: seq<Received>)
    requires consumed < |inbox|
    ensures var st := Dispatch(s, inbox[consumed]);
      var rs := replies + (if st.reply.Some? then [st.reply.value] else []);
      Continue(replies, consumed, Serve(s, inbox[consumed..])) ==
        if st.running then Continue(rs, consumed + 1, Serve(st.store, inbox[consumed + 1..]))
        else Served(CancelAll(st.store), rs, consumed + 1, true)
  {
    var tail := inbox[consumed..];
    assert tail[0] == inbox[consumed];
    assert tail[1..] == inbox[consumed + 1..];
    var st := Dispatch(s, inbox[consumed]);
    var mine := if st.reply.Some? then [st.reply.value] else [];
    if st.running {
      var rest := Serve(st.store, tail[1..]);
      assert Serve(s, tail) == Served(rest.store, mine + rest.replies, rest.consumed + 1, rest.stopped);
      assert replies + (mine + rest.replies) == (replies + mine) + rest.replies;
    } else {
      assert Serve(s, tail) == Served(CancelAll(st.store), mine, 1, true);
    }
  }

  /** The server loop's invariant carried across one pass. */
  lemma ServeAdvance(s0: Store, inbox: seq<Received>, replies: seq<Reply>, consumed: nat,
                     before: Store, reply: Option<Reply>, running: bool, after: Store)
    requires consumed < |inbox|
    requires Serve(s0, inbox) == Continue(replies, consumed, Serve(before, inbox[consumed..]))
    requires Step(after, reply, running) == Dispatch(before, inbox[consumed])
    ensures var rs := replies + (if reply.Some? then [reply.value] else []);
      && (running ==> Serve(s0, inbox) == Continue(rs, consumed + 1, Serve(after, inbox[consumed + 1..])))
      && (!running ==> Serve(s0, inbox) == Served(CancelAll(after), rs, consumed + 1, true))
  {
    ServeStep(replies, consumed, before, inbox);
  }

  /** The body of run_server's loop for one receive result: the switch
      on the opcode. */
  method ServeOne(store: TaskList, r: Received) returns (reply: Option<Reply>, running: bool)
    requires store.Valid()
    modifies store
    ensures store.Valid()
    ensures Step(store.State(), reply, running) == Dispatch(old(store.State()), r)
  {
    reply, running := None, true;
    match r {
      case ReceiveFailed(interrupted) =>
        // EINTR loops again; any other error is reported and loops again too
      case Got(m, env) =>
        if m.cmd == DODAJ {
          var id := store.AddTask(m.scheduleType, m.timeVal, m.command, m.args, env.add);
        } else if m.cmd == LISTA {
          var text := store.TaskListToString(env.listAllocOk);
          if text.Some? && env.replyOk {
            reply := Some(Reply(m.replyQueue, text.value));
          }
        } else if m.cmd == ANULUJ {
          var rc := store.CancelTask(m.taskId);
        } else if m.cmd == STOP {
          running := false;
        }
    }
  }

  /** run_server's loop over the task list object, up to and including
      the final cancel_all_tasks after STOP. */
  method RunServer(store: TaskList, inbox: seq<Received>)
    returns (replies: seq<Reply>, consumed: nat, stopped: bool)
    requires store.Valid()
    modifies store
    ensures store.Valid()
    ensures Served(store.State(), replies, consumed, stopped) == Serve(old(store.State()), inbox)
  {
    ghost var s0 := store.State();
    var flagga := true;
    replies, consumed := [], 0;
    assert inbox[0..] == inbox;
    while flagga && consumed < |inbox|
      invariant 0 <= consumed <= |inbox|
      invariant store.Valid()
      invariant flagga ==>
        Serve(s0, inbox) == Continue(replies, consumed, Serve(store.State(), inbox[consumed..]))
      invariant !flagga ==>
        Serve(s0, inbox) == Served(CancelAll(store.State()), replies, consumed, true)
      decreases |inbox| - consumed
    {
      ghost var before := store.State();
      var reply, running := ServeOne(store, inbox[consumed]);
      ServeAdvance(s0, inbox, replies, consumed, before, reply, running, store.State());
      replies := replies + (if reply.Some? then [reply.value] else []);
      flagga := running;
      consumed := consumed + 1;
    }
    stopped := !flagga;
    if stopped {
      store.CancelAllTasks();
    } else {
      assert inbox[consumed..] == [];
    }
  }

  // ---------------------------------------------------------------------
  // Client and server together
  // ---------------------------------------------------------------------

  /** An add request built from `-a <type> <time> <command> <args...>`,
      served with every call succeeding, puts at the head of the list a
      task with the named type, the time atol read, and the command and
      joined arguments as the client cut them; when the arguments contain
      no spaces and fit the buffer, splitting the stored string on spaces
      gives back the client's arguments. */
  lemma AddRoundTrip(argv: seq<string>, pid: int, s: Store, env: ServerEnv)
    requires WellFormedArgv(argv) && argv[1] == "-a" && TypeCode(argv[2]).Some?
    requires Valid(s)
    requires env.add.allocOk && env.add.createOk && env.add.armOk
    ensures var m := Request(argv, pid).value;
      var t := Dispatch(s, Got(m, env)).store.tasks[0];
      && t.id == s.nextId
      && t.scheduleType == TypeCode(argv[2]).value
      && t.timeVal == Atol(argv[3])
      && t.command == Truncate(argv[4], FieldCap)
      && t.args == Truncate(Join(argv[5..]), FieldCap)
      && (|argv| > 5 && |Join(argv[5..])| <= FieldCap &&
          (forall i :: 5 <= i < |argv| ==> ' ' !in argv[i]) ==>
            SplitOn(t.args, ' ') == argv[5..])
  {
    var tokens := argv[5..];
    TruncateIdempotent(argv[4], FieldCap);
    TruncateIdempotent(Join(tokens), FieldCap);
    if |argv| > 5 && |Join(tokens)| <= FieldCap && (forall i :: 5 <= i < |argv| ==> ' ' !in argv[i]) {
      forall i | 0 <= i < |tokens| ensures ' ' !in tokens[i] {
        assert tokens[i] == argv[i + 5];
      }
      SplitJoin(tokens);
    }
  }

  /** A client that cancels an id it read as decimal text from a listing
      (`-c <id>`) has the server cancel exactly that task. */
  lemma CancelRoundTrip(id: int, pid: int, s: Store, env: ServerEnv)
    requires Valid(s)
    ensures var argv := ["scheduler", "-c", IntToDec(id)];
      && Request(argv, pid).Success?
      && Request(argv, pid).value.taskId == id
      && Dispatch(s, Got(Request(argv, pid).value, env)).store == Cancel(s, id).store
  {
    var m := CancelRequest(IntToDec(id), pid);
    AtolOfIntToDec(id, "");
    assert IntToDec(id) + "" == IntToDec(id);
    DispatchCancel(s, m, env);
  }

  /** An ANULUJ message is served by cancel_task of the id it carries. */
  lemma DispatchCancel(s: Store, m: Message, env: ServerEnv)
    requires m.cmd == ANULUJ
    ensures Dispatch(s, Got(m, env)) == Step(Cancel(s, m.taskId).store, None, true)
  {
  }

  /** `-c <text>` asks to cancel the id atoi reads from the text. */
  lemma CancelRequest(text: string, pid: int) returns (m: Message)
    ensures m.cmd == ANULUJ && m.taskId == Atol(text)
    ensures Request(["scheduler", "-c", text], pid) == Success(m)
  {
    var argv := ["scheduler", "-c", text];
    assert argv[1] == "-c" && argv[2] == text;
    m := Message(ANULUJ, Atol(text), 0, 0, "", "", ClientQueueName(pid));
  }
}
