/** The process handle of one Minecraft server and the callback lists it
    publishes to.  A subscriber is an opaque handler; whether it raises when
    awaited is part of the handler. */
module ServerProcessing {
  import opened Exceptions
  import opened Text

  /** A subscriber: an identity and whether awaiting it raises. */
  datatype Handler = Handler(id: nat, raises: bool)

  /** `h in hs`, spelled out element by element. */
  predicate Member(hs: seq<Handler>, h: Handler)
    decreases |hs|
  {
    hs != [] && (hs[0] == h || Member(hs[1..], h))
  }

  lemma {:induction false} MemberIff(hs: seq<Handler>, h: Handler)
    ensures Member(hs, h) <==> h in hs
    decreases |hs|
  {
    if hs != [] {
      MemberIff(hs[1..], h);
      assert hs == [hs[0]] + hs[1..];
    }
  }

  lemma MemberCons(x: Handler, w: seq<Handler>, h: Handler)
    ensures Member([x] + w, h) <==> x == h || Member(w, h)
  {
    assert ([x] + w)[0] == x && ([x] + w)[1..] == w;
  }

  lemma {:induction false} MemberAt(hs: seq<Handler>, i: nat)
    requires i < |hs|
    ensures Member(hs, hs[i])
    decreases i
  {
    if i > 0 {
      assert hs[1..][i - 1] == hs[i];
      MemberAt(hs[1..], i - 1);
    }
  }

  lemma {:induction false} MemberConcat(a: seq<Handler>, b: seq<Handler>, h: Handler)
    ensures Member(a + b, h) <==> Member(a, h) || Member(b, h)
    decreases |a|
  {
    if a == [] {
      assert a + b == b;
    } else {
      assert (a + b)[0] == a[0] && (a + b)[1..] == a[1..] + b;
      MemberConcat(a[1..], b, h);
    }
  }

  /** No handler occurs twice. */
  predicate NoDuplicates(hs: seq<Handler>)
    decreases |hs|
  {
    hs == [] || (!Member(hs[1..], hs[0]) && NoDuplicates(hs[1..]))
  }

  /** `list.remove(h)`: the first occurrence of `h` taken out. */
  function RemoveFirst(hs: seq<Handler>, h: Handler): (r: seq<Handler>)
    ensures Member(hs, h) ==> |r| == |hs| - 1
    ensures !Member(hs, h) ==> r == hs
    decreases |hs|
  {
    if hs == [] then []
    else if hs[0] == h then hs[1..]
    else [hs[0]] + RemoveFirst(hs[1..], h)
  }

  /** Awaiting a callback list from position `i` on, as Python's `for` loop
      over the list does while a failing handler is removed from that very
      list: the loop's position keeps counting, so the element that slides
      into the vacated place is passed over.  The result is the list
      afterwards and the handlers called, in order. */
  function Dispatch(hs: seq<Handler>, i: nat): (seq<Handler>, seq<Handler>)
    decreases |hs| - i
  {
    if i >= |hs| then (hs, [])
    else
      var h := hs[i];
      MemberAt(hs, i);
      var next := if h.raises then RemoveFirst(hs, h) else hs;
      var rest := Dispatch(next, i + 1);
      (rest.0, [h] + rest.1)
  }

  /** The same effect described handler by handler: a handler that returns
      normally is called and kept; one that raises is called and dropped, and
      the handler after it is kept without being called. */
  function Walk(hs: seq<Handler>): (seq<Handler>, seq<Handler>)
    decreases |hs|
  {
    if hs == [] then ([], [])
    else if !hs[0].raises then
      var w := Walk(hs[1..]);
      ([hs[0]] + w.0, [hs[0]] + w.1)
    else if |hs| == 1 then ([], [hs[0]])
    else
      var w := Walk(hs[2..]);
      ([hs[1]] + w.0, [hs[0]] + w.1)
  }

  lemma {:induction false} RemoveFirstAfter(p: seq<Handler>, t: seq<Handler>)
    requires t != [] && !Member(p, t[0])
    ensures RemoveFirst(p + t, t[0]) == p + t[1..]
    decreases |p|
  {
    if p == [] {
      assert p + t == t && p + t[1..] == t[1..];
    } else {
      assert (p + t)[0] == p[0] && (p + t)[1..] == p[1..] + t;
      RemoveFirstAfter(p[1..], t);
      assert [p[0]] + (p[1..] + t[1..]) == p + t[1..];
    }
  }

  lemma {:induction false} NotBefore(p: seq<Handler>, t: seq<Handler>)
    requires NoDuplicates(p + t) && t != []
    ensures !Member(p, t[0])
    decreases |p|
  {
    if p != [] {
      var rest := p[1..] + t;
      assert (p + t)[0] == p[0] && (p + t)[1..] == rest;
      MemberConcat(p[1..], t, p[0]);
      MemberCons(t[0], t[1..], p[0]);
      assert t == [t[0]] + t[1..];
      NotBefore(p[1..], t);
    }
  }

  lemma {:induction false} NoDuplicatesDrop(p: seq<Handler>, t: seq<Handler>)
    requires NoDuplicates(p + t) && t != []
    ensures NoDuplicates(p + t[1..])
    decreases |p|
  {
    if p == [] {
      assert p + t == t && p + t[1..] == t[1..];
    } else {
      var next := p + t[1..];
      assert (p + t)[0] == p[0] && (p + t)[1..] == p[1..] + t;
      assert next[0] == p[0] && next[1..] == p[1..] + t[1..];
      MemberConcat(p[1..], t, p[0]);
      MemberConcat(p[1..], t[1..], p[0]);
      MemberCons(t[0], t[1..], p[0]);
      assert t == [t[0]] + t[1..];
      NoDuplicatesDrop(p[1..], t);
    }
  }

  lemma ConcatShift(p: seq<Handler>, t: seq<Handler>)
    requires t != []
    ensures (p + [t[0]]) + t[1..] == p + t
  {
  }

  /** One step of the loop at the first handler of `t`: when it raises it
      is removed, and the loop goes on one place further in the shorter list. */
  lemma DispatchStep(p: seq<Handler>, t: seq<Handler>)
    requires NoDuplicates(p + t) && t != []
    ensures var next := if t[0].raises then p + t[1..] else p + t;
            var d := Dispatch(next, |p| + 1);
            Dispatch(p + t, |p|) == (d.0, [t[0]] + d.1)
  {
    var hs := p + t;
    assert hs[|p|] == t[0];
    if t[0].raises {
      NotBefore(p, t);
      RemoveFirstAfter(p, t);
    }
  }

  /** Dispatching the rest `t` of a list after the handlers `p` already
      walked past. */
  lemma {:induction false} DispatchFrom(p: seq<Handler>, t: seq<Handler>)
    requires NoDuplicates(p + t)
    ensures Dispatch(p + t, |p|) == (p + Walk(t).0, Walk(t).1)
    decreases |t|, 1
  {
    if t == [] {
      assert p + t == p && p + [] == p;
    } else if !t[0].raises {
      DispatchKeep(p, t);
    } else if |t| == 1 {
      DispatchStep(p, t);
      assert p + t[1..] == p && p + [] == p;
      assert Dispatch(p, |p| + 1) == (p, []);
      assert Walk(t) == ([], [t[0]]) && [t[0]] + [] == [t[0]];
    } else {
      DispatchDrop(p, t);
    }
  }

  lemma {:induction false} DispatchKeep(p: seq<Handler>, t: seq<Handler>)
    requires NoDuplicates(p + t) && t != [] && !t[0].raises
    ensures Dispatch(p + t, |p|) == (p + Walk(t).0, Walk(t).1)
    decreases |t|, 0
  {
    var p' := p + [t[0]];
    DispatchStep(p, t);
    ConcatShift(p, t);
    DispatchFrom(p', t[1..]);
    var w := Walk(t[1..]);
    ConcatShift(p, [t[0]] + w.0);
  }

  lemma {:induction false} DispatchDrop(p: seq<Handler>, t: seq<Handler>)
    requires NoDuplicates(p + t) && |t| > 1 && t[0].raises
    ensures Dispatch(p + t, |p|) == (p + Walk(t).0, Walk(t).1)
    decreases |t|, 0
  {
    var p' := p + [t[1]];
    DispatchStep(p, t);
    NoDuplicatesDrop(p, t);
    ConcatShift(p, t[1..]);
    DispatchFrom(p', t[2..]);
    var w := Walk(t[2..]);
    ConcatShift(p, [t[1]] + w.0);
  }

  /** For a list without repeated handlers, the loop over the mutating list
      has exactly the handler-by-handler effect of `Walk`. */
  lemma DispatchIsWalk(hs: seq<Handler>)
    requires NoDuplicates(hs)
    ensures Dispatch(hs, 0) == Walk(hs)
  {
    assert [] + hs == hs;
    DispatchFrom([], hs);
    assert [] + Walk(hs).0 == Walk(hs).0;
  }

  /** When no handler raises, every handler is called once, in insertion
      order, and the list stays as it was. */
  lemma {:induction false} WalkWithoutFailures(hs: seq<Handler>)
    requires forall k :: 0 <= k < |hs| ==> !hs[k].raises
    ensures Walk(hs) == (hs, hs)
    decreases |hs|
  {
    if hs != [] {
      WalkWithoutFailures(hs[1..]);
      assert [hs[0]] + hs[1..] == hs;
    }
  }

  /** Without repeated handlers, a handler survives exactly when it did not
      raise on being called: handlers that return normally are all kept, and
      so is every handler passed over. */
  lemma {:induction false} WalkKeeps(hs: seq<Handler>, h: Handler)
    requires NoDuplicates(hs)
    ensures Member(Walk(hs).1, h) ==> Member(hs, h)
    ensures Member(Walk(hs).0, h) <==> Member(hs, h) && !(h.raises && Member(Walk(hs).1, h))
    decreases |hs|
  {
    if hs != [] {
      if !hs[0].raises {
        var w := Walk(hs[1..]);
        WalkKeeps(hs[1..], h);
        MemberCons(hs[0], w.0, h);
        MemberCons(hs[0], w.1, h);
      } else if |hs| == 1 {
        assert [hs[0]][1..] == [];
      } else {
        var w := Walk(hs[2..]);
        assert hs[1..][0] == hs[1] && hs[1..][1..] == hs[2..];
        MemberCons(hs[0], hs[1..], h);
        MemberCons(hs[1], hs[2..], h);
        MemberCons(hs[1], hs[2..], hs[0]);
        assert hs == [hs[0]] + hs[1..] && hs[1..] == [hs[1]] + hs[2..];
        WalkKeeps(hs[2..], hs[0]);
        WalkKeeps(hs[2..], h);
        MemberCons(hs[1], w.0, h);
        MemberCons(hs[0], w.1, h);
      }
    }
  }

  /** When the first handler raises, the second is kept and not called. */
  lemma WalkNotCalledSecond(hs: seq<Handler>)
    requires NoDuplicates(hs) && |hs| > 1 && hs[0].raises
    ensures !Member(Walk(hs).1, hs[1]) && Member(Walk(hs).0, hs[1])
  {
    var w := Walk(hs[2..]);
    assert hs[1..][0] == hs[1] && hs[1..][1..] == hs[2..];
    WalkKeeps(hs[2..], hs[1]);
    MemberCons(hs[1], w.0, hs[1]);
    MemberCons(hs[0], w.1, hs[1]);
  }

  /** The handler just after one that raised is not called on that pass. */
  lemma {:induction false} WalkSkipsNext(hs: seq<Handler>, i: nat)
    requires NoDuplicates(hs) && i + 1 < |hs|
    requires hs[i].raises && Member(Walk(hs).1, hs[i])
    ensures !Member(Walk(hs).1, hs[i + 1]) && Member(Walk(hs).0, hs[i + 1])
    decreases |hs|
  {
    var tail := hs[1..];
    if !hs[0].raises {
      if i == 0 {
        assert false;
      }
      var w := Walk(tail);
      assert tail[i - 1] == hs[i] && tail[i] == hs[i + 1];
      MemberAt(tail, i - 1);
      MemberAt(tail, i);
      MemberCons(hs[0], w.1, hs[i]);
      MemberCons(hs[0], w.1, hs[i + 1]);
      MemberCons(hs[0], w.0, hs[i + 1]);
      WalkSkipsNext(tail, i - 1);
    } else if i == 0 {
      WalkNotCalledSecond(hs);
    } else {
      WalkNotCalledSecond(hs);
      if i == 1 {
        assert false;
      }
      var rest := hs[2..];
      var w := Walk(rest);
      assert tail[0] == hs[1] && tail[1..] == rest;
      assert rest[i - 2] == hs[i] && rest[i - 1] == hs[i + 1];
      MemberAt(rest, i - 2);
      MemberAt(rest, i - 1);
      MemberCons(hs[1], rest, hs[i]);
      MemberCons(hs[1], rest, hs[i + 1]);
      MemberCons(hs[0], w.1, hs[i]);
      MemberCons(hs[0], w.1, hs[i + 1]);
      MemberCons(hs[1], w.0, hs[i + 1]);
      WalkSkipsNext(rest, i - 2);
    }
  }

  /** The list after `n` invocations. */
  function Settle(hs: seq<Handler>, n: nat): seq<Handler>
    decreases n
  {
    if n == 0 then hs else Settle(Dispatch(hs, 0).0, n - 1)
  }

  /** A list of awaitable subscribers, all awaited with the same arguments. */
  class Callback<E> {
    var installed: seq<Handler>
    /** The arguments of every invocation so far, oldest first. */
    var invocations: seq<E>

    constructor ()
      ensures installed == [] && invocations == []
    {
      installed := [];
      invocations := [];
    }

    /** `len(callback)` */
    function Length(): nat
      reads this
    {
      |installed|
    }

    /** `add_callback(func)`: appended, so handlers run in insertion order. */
    method AddCallback(h: Handler)
      modifies this`installed
      ensures installed == old(installed) + [h]
      ensures Length() == old(Length()) + 1
    {
      installed := installed + [h];
    }

    /** `await callback(arg)`: every handler in turn, a raising one removed
        from the list during the loop. */
    method Invoke(arg: E) returns (called: seq<Handler>)
      modifies this
      ensures (installed, called) == Dispatch(old(installed), 0)
      ensures invocations == old(invocations) + [arg]
    {
      ghost var goal := Dispatch(installed, 0);
      called := [];
      var i := 0;
      while i < |installed|
        invariant Dispatch(installed, i).0 == goal.0
        invariant called + Dispatch(installed, i).1 == goal.1
        invariant invocations == old(invocations)
        decreases |installed| - i
      {
        var h := installed[i];
        ghost var before := installed;
        i := i + 1;
        if h.raises {
          installed := RemoveFirst(installed, h);
        }
        ghost var d := Dispatch(installed, i);
        assert Dispatch(before, i - 1) == (d.0, [h] + d.1);
        assert called + ([h] + d.1) == (called + [h]) + d.1;
        called := called + [h];
      }
      assert called + [] == called;
      invocations := invocations + [arg];
    }
  }

  /** The return code and the remaining output, as the exit callback gets them. */
  datatype ExitEvent = ExitEvent(returnCode: int, rest: string)

  /** The three callback lists of a process. */
  class Callbacks {
    const stdout: Callback<string>
    const exit: Callback<ExitEvent>
    const errorOccurred: Callback<string>

    constructor ()
      ensures fresh(stdout) && fresh(exit) && fresh(errorOccurred)
      ensures stdout != errorOccurred
      ensures stdout.installed == [] && exit.installed == [] && errorOccurred.installed == []
      ensures stdout.invocations == [] && exit.invocations == [] && errorOccurred.invocations == []
    {
      stdout := new Callback();
      exit := new Callback();
      errorOccurred := new Callback();
    }
  }

  /** An operating-system process: how it was launched and its return code,
      `None` while it runs. */
  datatype Child = Child(command: seq<string>, cwd: string, returnCode: Option<int>)

  /** `inp` as `send_input` writes it: with a trailing newline added when it
      has none. */
  function Terminated(inp: string): (r: string)
    ensures EndsWith(r, "\n")
    ensures EndsWith(inp, "\n") ==> r == inp
    ensures !EndsWith(inp, "\n") ==> r == inp + "\n"
  {
    if EndsWith(inp, "\n") then inp else inp + "\n"
  }

  /** Terminating an already terminated input changes nothing. */
  lemma TerminatedIdempotent(inp: string)
    ensures Terminated(Terminated(inp)) == Terminated(inp)
  {
  }

  /** What `read_output` publishes for the outputs that returned: each
      non-empty read, its trailing newlines stripped, in read order. */
  function Published(outputs: seq<string>): (lines: seq<string>)
    ensures |lines| <= |outputs|
    ensures forall k :: 0 <= k < |lines| ==> lines[k] == [] || lines[k][|lines[k]| - 1] != '\n'
    decreases |outputs|
  {
    if outputs == [] then []
    else if outputs[|outputs| - 1] == "" then Published(outputs[..|outputs| - 1])
    else Published(outputs[..|outputs| - 1]) + [RStripNewlines(outputs[|outputs| - 1])]
  }

  /** Reads are published one by one: what two stretches of outputs publish is
      what each publishes, in order. */
  lemma {:induction false} PublishedAppend(a: seq<string>, b: seq<string>)
    ensures Published(a + b) == Published(a) + Published(b)
    decreases |b|
  {
    if b == [] {
      assert a + b == a;
    } else {
      var b' := b[..|b| - 1];
      assert (a + b)[..|a + b| - 1] == a + b';
      PublishedAppend(a, b');
    }
  }

  /** A single read publishes itself with its trailing newlines stripped, or
      nothing when it is empty; with `PublishedAppend` this fixes what any
      sequence of reads publishes. */
  lemma PublishedOne(o: string)
    ensures o != "" ==> Published([o]) == [RStripNewlines(o)]
    ensures o == "" ==> Published([o]) == []
  {
    assert [o][..0] == [];
  }

  /** Empty outputs publish nothing. */
  lemma {:induction false} PublishedSkipsEmpty(a: seq<string>, b: seq<string>)
    ensures Published(a + [""] + b) == Published(a + b)
  {
    PublishedAppend(a + [""], b);
    PublishedAppend(a, b);
    assert (a + [""])[..|a|] == a;
  }

  /** The handle on one server process. */
  class ServerProcess {
    const serverName: string
    const callbacks: Callbacks
    var systemMetrics: map<string, int>
    var process: Option<Child>
    /** Whether a resource monitor is bound to the process (`psutil_proc`). */
    var monitorBound: bool
    /** Everything written to the process's standard input, in order. */
    var written: seq<string>

    /** A new handle: no process, no monitor, no metrics, three empty and
        distinct callback lists. */
    constructor (serverName: string)
      ensures this.serverName == serverName
      ensures process.None? && !monitorBound && systemMetrics == map[] && written == []
      ensures fresh(callbacks) && fresh(callbacks.stdout) && fresh(callbacks.exit) && fresh(callbacks.errorOccurred)
      ensures callbacks.stdout != callbacks.errorOccurred
      ensures callbacks.stdout.installed == [] && callbacks.exit.installed == [] && callbacks.errorOccurred.installed == []
      ensures callbacks.stdout.invocations == [] && callbacks.exit.invocations == [] && callbacks.errorOccurred.invocations == []
    {
      this.serverName := serverName;
      callbacks := new Callbacks();
      systemMetrics := map[];
      process := None;
      monitorBound := false;
      written := [];
    }

    /** `start(command, cwd)`: the process is launched and a monitor bound. */
    method Start(command: seq<string>, cwd: string)
      modifies this`process, this`monitorBound
      ensures process == Some(Child(command, cwd, None)) && monitorBound
    {
      process := Some(Child(command, cwd, None));
      monitorBound := true;
    }

    /** `is_running()`: the process has no return code yet. */
    predicate IsRunning()
      requires process.Some?
      reads this
    {
      process.value.returnCode.None?
    }

    /** `kill()`: the process is sent SIGKILL, which the model reaps at once
        with return code -9, and the monitor is released. */
    method Kill()
      requires process.Some?
      modifies this`process, this`monitorBound
      ensures !monitorBound && process.Some? && !IsRunning()
      ensures process.value.command == old(process.value.command) && process.value.cwd == old(process.value.cwd)
      ensures old(IsRunning()) ==> process.value.returnCode == Some(-9)
      ensures !old(IsRunning()) ==> process == old(process)
    {
      if process.value.returnCode.None? {
        process := Some(process.value.(returnCode := Some(-9)));
      }
      monitorBound := false;
    }

    /** The process ends on its own with the given return code. */
    method Exit(code: int)
      requires process.Some?
      modifies this`process
      ensures process.Some? && !IsRunning()
      ensures old(IsRunning()) ==> process == Some(old(process.value).(returnCode := Some(code)))
      ensures !old(IsRunning()) ==> process == old(process)
    {
      if process.value.returnCode.None? {
        process := Some(process.value.(returnCode := Some(code)));
      }
    }

    /** `send_input(inp)`: written with exactly one trailing newline added
        when it has none. */
    method SendInput(inp: string)
      requires process.Some?
      modifies this`written
      ensures written == old(written) + [Terminated(inp)]
    {
      var line := inp;
      if !EndsWith(line, "\n") {
        line := line + "\n";
      }
      written := written + [line];
    }

    /** `read_output()`: while the process runs, each line read is published
        to the stdout callback (empty outputs skipped, trailing newlines
        stripped).  `outputs` are the lines the process writes before it
        exits with `code` leaving `rest` unread; once it no longer runs, the
        exit callback gets the return code and the rest, exactly once, and
        the monitor is released. */
    method ReadOutput(outputs: seq<string>, code: int, rest: string)
      requires process.Some?
      modifies this`process, this`monitorBound, callbacks.stdout, callbacks.exit
      ensures process.Some? && !IsRunning() && !monitorBound
      ensures old(IsRunning()) ==> process == Some(old(process.value).(returnCode := Some(code)))
      ensures !old(IsRunning()) ==> process == old(process)
      ensures callbacks.stdout.invocations ==
                old(callbacks.stdout.invocations) + (if old(IsRunning()) then Published(outputs) else [])
      ensures callbacks.stdout.installed ==
                Settle(old(callbacks.stdout.installed), if old(IsRunning()) then |Published(outputs)| else 0)
      ensures callbacks.exit.invocations ==
                old(callbacks.exit.invocations) + [ExitEvent(process.value.returnCode.value, rest)]
      ensures callbacks.exit.installed == Settle(old(callbacks.exit.installed), 1)
    {
      var i := 0;
      ghost var start := callbacks.stdout.installed;
      var running := process.value.returnCode.None?;
      if running {
        while i < |outputs|
          invariant 0 <= i <= |outputs|
          invariant callbacks.stdout.invocations == old(callbacks.stdout.invocations) + Published(outputs[..i])
          invariant callbacks.stdout.installed == Settle(start, |Published(outputs[..i])|)
          invariant process == old(process) && callbacks.exit.invocations == old(callbacks.exit.invocations)
          invariant callbacks.exit.installed == old(callbacks.exit.installed)
        {
          var output := outputs[i];
          assert outputs[..i + 1] == outputs[..i] + [output];
          PublishedAppend(outputs[..i], [output]);
          assert [output][..0] == [];
          if output != "" {
            var line := RStripNewlines(output);
            SettleStep(start, |Published(outputs[..i])|);
            var _ := callbacks.stdout.Invoke(line);
          }
          i := i + 1;
        }
        assert outputs[..i] == outputs;
        process := Some(process.value.(returnCode := Some(code)));
      }
      var _ := callbacks.exit.Invoke(ExitEvent(process.value.returnCode.value, rest));
      monitorBound := false;
    }
  }

  /** Invocations compose: settling after `a` invocations and then after `b`
      more leaves the same handler list as settling after `a + b`. */
  lemma {:induction false} SettleAdd(hs: seq<Handler>, a: nat, b: nat)
    ensures Settle(Settle(hs, a), b) == Settle(hs, a + b)
    decreases a
  {
    if a > 0 {
      SettleAdd(Dispatch(hs, 0).0, a - 1, b);
    }
  }

  lemma {:induction false} SettleStep(hs: seq<Handler>, n: nat)
    ensures Settle(hs, n + 1) == Dispatch(Settle(hs, n), 0).0
    decreases n
  {
    if n > 0 {
      SettleStep(Dispatch(hs, 0).0, n - 1);
    }
  }
}
