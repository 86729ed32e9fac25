/** The host side of the TPC-H Q9 demo
    (database/L2/demos/host/q09/sf1_fpga/test_q9.cpp): the command-line
    defaults, and the static schedule of transfers and join kernels that
    `main` puts on one out-of-order OpenCL command queue.

    Every command is recorded as an `Op` with the memory it reads and writes
    and the events it waits for. The event a command signals is its index in
    the record. On an out-of-order queue two commands are ordered only through
    their wait lists. A host function called between two enqueues is recorded
    as well: it runs to completion before any later command is enqueued, but
    it does not wait for commands enqueued before it. */
module Q9Pipeline {

  datatype Option<T> = None | Some(value: T)

  // ---------------------------------------------------------------------
  // Command-line options

  /** The `-b` board index and the `-rep` repeat count. An option is `None`
      when it is absent, `Some(None)` when `std::stoi` throws on its text, and
      `Some(Some(v))` when it parses to `v`. A missing or unparsable board is
      0; a missing or unparsable repeat count is 1; a repeat count above 20 is
      lowered to 20 (with a warning), and one at or below 20 is kept. */
  method ReadOptions(boardOpt: Option<Option<int>>, repOpt: Option<Option<int>>)
    returns (board: int, numRep: int)
    ensures board == (if boardOpt.Some? && boardOpt.value.Some? then boardOpt.value.value else 0)
    ensures numRep <= 20
    ensures repOpt.None? || repOpt.value.None? ==> numRep == 1
    ensures repOpt.Some? && repOpt.value.Some? ==>
      numRep == (if repOpt.value.value > 20 then 20 else repOpt.value.value)
  {
    board := 0;
    if boardOpt.Some? {
      match boardOpt.value
      case Some(v) => board := v;
      case None => board := 0;
    }
    numRep := 1;
    if repOpt.Some? {
      match repOpt.value
      case Some(v) => numRep := v;
      case None => numRep := 1;
    }
    if numRep > 20 {
      numRep := 20;
    }
  }

  // ---------------------------------------------------------------------
  // Buffers and commands

  /** The objects of the demo: the tables `tbs[i]`, the part-filter result
      `th0`, the join results `tk0`, `tk1`, `tk2`, the kernel configurations
      `cfgcmds[i]` and the kernels' scratch buffer `buftmp`. */
  datatype Obj = Tbs(i: nat) | Th0 | Tk0 | Tk1 | Tk2 | Cfg(i: nat) | BufTmp

  /** Every object has a copy in host memory and one in device memory. */
  datatype Loc = Host(obj: Obj) | Dev(obj: Obj)

  /** The arguments of `krnlEngine::setup`: two input tables, the output
      table, the configuration and the scratch buffer of one `gqeJoin` run. */
  datatype JoinArgs = JoinArgs(in1: Obj, in2: Obj, out: Obj, cfg: Obj, tmp: Obj)

  /** A command: a transfer of a batch of objects to or from the device, a
      `gqeJoin` run as one stage of the query, or a host function that reads
      and writes host memory. */
  datatype Op =
    | Transfer(toDevice: bool, objs: seq<Obj>, waitFor: seq<Option<nat>>)
    | Join(stage: nat, args: JoinArgs, waitFor: seq<Option<nat>>)
    | HostCall(hostReads: set<Loc>, hostWrites: set<Loc>)

  /** The events a command waits for; a host call waits for none. */
  function Waits(op: Op): seq<Option<nat>>
  {
    if op.HostCall? then [] else op.waitFor
  }

  function HostSide(objs: seq<Obj>): set<Loc>
  {
    set o | o in objs :: Host(o)
  }

  function DevSide(objs: seq<Obj>): set<Loc>
  {
    set o | o in objs :: Dev(o)
  }

  /** The memory a command reads. A transfer reads the source copies; a join
      run reads both inputs, its configuration and the scratch buffer. */
  function Reads(op: Op): set<Loc>
  {
    match op
    case Transfer(toDevice, objs, _) => if toDevice then HostSide(objs) else DevSide(objs)
    case Join(_, a, _) => {Dev(a.in1), Dev(a.in2), Dev(a.cfg), Dev(a.tmp)}
    case HostCall(r, _) => r
  }

  /** The memory a command writes. A transfer writes the destination
      copies; a join run writes its output and the scratch buffer. */
  function Writes(op: Op): set<Loc>
  {
    match op
    case Transfer(toDevice, objs, _) => if toDevice then DevSide(objs) else HostSide(objs)
    case Join(_, a, _) => {Dev(a.out), Dev(a.tmp)}
    case HostCall(_, w) => w
  }

  // ---------------------------------------------------------------------
  // Ordering of the commands

  /** The host calls issued before command `j`. */
  function HostCallsBefore(log: seq<Op>, j: nat): set<nat>
    requires j <= |log|
  {
    if j == 0 then {}
    else HostCallsBefore(log, j - 1) + (if log[j - 1].HostCall? then {j - 1} else {})
  }

  /** The commands that have finished when command `j` starts: the host
      calls issued before it, the commands it waits for, and everything those
      wait for in turn. A wait on an event that is not filled in, or not
      signalled by an earlier command, orders nothing; a host call waits for
      no command. */
  function Before(log: seq<Op>, j: nat): set<nat>
    requires j < |log|
    decreases j, 1, 0
  {
    if log[j].HostCall? then HostCallsBefore(log, j)
    else HostCallsBefore(log, j) + BeforeAll(log, j, log[j].waitFor)
  }

  /** What the events `ws`, waited for by command `j`, bring in. */
  function BeforeAll(log: seq<Op>, j: nat, ws: seq<Option<nat>>): set<nat>
    requires j < |log|
    decreases j, 0, |ws|
  {
    if ws == [] then {}
    else
      var first := match ws[0]
        case Some(p) => if p < j then {p} + Before(log, p) else {}
        case None => {};
      first + BeforeAll(log, j, ws[1..])
  }

  /** Every wait list names only events that are filled in and signalled by
      a command issued earlier, so the wait graph has no cycle. */
  predicate WaitsResolved(log: seq<Op>)
  {
    forall j, k :: 0 <= j < |log| && 0 <= k < |Waits(log[j])| ==>
      Waits(log[j])[k].Some? && Waits(log[j])[k].value < j
  }

  /** The two commands touch a common location and at least one writes it. */
  predicate Conflict(a: Op, b: Op)
  {
    Writes(a) * Reads(b) != {} || Reads(a) * Writes(b) != {} || Writes(a) * Writes(b) != {}
  }

  /** Every read-after-write, write-after-read and write-after-write pair is
      ordered: the later command waits, directly or transitively, for the
      earlier one. */
  predicate HazardFree(log: seq<Op>)
  {
    forall i, j :: 0 <= i < j < |log| && Conflict(log[i], log[j]) ==> i in Before(log, j)
  }

  /** An earlier command that has finished when command `j` starts wrote `l`. */
  predicate WrittenBefore(log: seq<Op>, j: nat, l: Loc)
    requires j < |log|
  {
    exists i :: 0 <= i < j && i in Before(log, j) && l in Writes(log[i])
  }

  /** Every location a command reads holds data when it starts: it was
      valid before the schedule began, or an earlier finished command wrote it. */
  predicate ReadsProduced(log: seq<Op>, valid: set<Loc>)
  {
    forall j, l :: 0 <= j < |log| && l in Reads(log[j]) ==> l in valid || WrittenBefore(log, j, l)
  }

  // ---------------------------------------------------------------------
  // Properties of the ordering, for any schedule

  /** Only earlier commands come before a command, and what comes before a
      command that comes before `j` also comes before `j`: the ordering is a
      strict partial order, so it has no cycle. */
  lemma {:induction false} BeforeTransitive(log: seq<Op>, i: nat, j: nat)
    requires j < |log| && i in Before(log, j)
    ensures i < j
    ensures Before(log, i) <= Before(log, j)
    decreases j, 1, 0
  {
    if i in HostCallsBefore(log, j) {
      HostCallsBelow(log, j, i);
      HostCallsGrow(log, i, j);
    } else {
      BeforeAllTransitive(log, j, log[j].waitFor, i);
    }
  }

  lemma {:induction false} BeforeAllTransitive(log: seq<Op>, j: nat, ws: seq<Option<nat>>, i: nat)
    requires j < |log| && i in BeforeAll(log, j, ws)
    ensures i < j
    ensures Before(log, i) <= BeforeAll(log, j, ws) + HostCallsBefore(log, j)
    decreases j, 0, |ws|
  {
    var rest := BeforeAll(log, j, ws[1..]);
    if i in rest {
      BeforeAllTransitive(log, j, ws[1..], i);
    } else {
      var p := ws[0].value;
      assert p < j;
      if i != p {
        BeforeTransitive(log, i, p);
      }
      HostCallsGrow(log, p, j);
    }
  }

  lemma {:induction false} HostCallsGrow(log: seq<Op>, i: nat, j: nat)
    requires i <= j <= |log|
    ensures HostCallsBefore(log, i) <= HostCallsBefore(log, j)
    decreases j - i
  {
    if i < j {
      HostCallsGrow(log, i, j - 1);
    }
  }

  lemma {:induction false} HostCallsBelow(log: seq<Op>, j: nat, i: nat)
    requires j <= |log| && i in HostCallsBefore(log, j)
    ensures i < j && log[i].HostCall?
  {
    if j > 0 && i in HostCallsBefore(log, j - 1) {
      HostCallsBelow(log, j - 1, i);
    }
  }

  /** Every event a command waits for, once resolved, is signalled by a
      command that has finished when it starts. */
  lemma {:induction false} WaitedIsBefore(log: seq<Op>, j: nat, k: nat)
    requires WaitsResolved(log)
    requires j < |log| && k < |Waits(log[j])|
    ensures Waits(log[j])[k].value in Before(log, j)
  {
    assert !log[j].HostCall?;
    WaitedInAll(log, j, log[j].waitFor, k);
  }

  lemma {:induction false} WaitedInAll(log: seq<Op>, j: nat, ws: seq<Option<nat>>, k: nat)
    requires j < |log| && k < |ws|
    requires ws[k].Some? && ws[k].value < j
    ensures ws[k].value in BeforeAll(log, j, ws)
    decreases k
  {
    if k > 0 {
      assert ws[1..][k - 1] == ws[k];
      WaitedInAll(log, j, ws[1..], k - 1);
    }
  }

  /** Commands issued later do not change what comes before an earlier
      command: the order of a command is fixed when it is issued. */
  lemma {:induction false} BeforeStable(log: seq<Op>, more: seq<Op>, j: nat)
    requires j < |log|
    ensures Before(log + more, j) == Before(log, j)
    decreases j, 1, 0
  {
    HostCallsStable(log, more, j);
    assert (log + more)[j] == log[j];
    if !log[j].HostCall? {
      BeforeAllStable(log, more, j, log[j].waitFor);
    }
  }

  lemma {:induction false} BeforeAllStable(log: seq<Op>, more: seq<Op>, j: nat, ws: seq<Option<nat>>)
    requires j < |log|
    ensures BeforeAll(log + more, j, ws) == BeforeAll(log, j, ws)
    decreases j, 0, |ws|
  {
    if ws != [] {
      if ws[0].Some? && ws[0].value < j {
        BeforeStable(log, more, ws[0].value);
      }
      BeforeAllStable(log, more, j, ws[1..]);
    }
  }

  lemma {:induction false} HostCallsStable(log: seq<Op>, more: seq<Op>, j: nat)
    requires j <= |log|
    ensures HostCallsBefore(log + more, j) == HostCallsBefore(log, j)
  {
    if j > 0 {
      assert (log + more)[j - 1] == log[j - 1];
      HostCallsStable(log, more, j - 1);
    }
  }

  /** In a hazard-free schedule, a read that some earlier command wrote is
      also a read of data that has been produced when the command starts. */
  lemma HazardFreeReads(log: seq<Op>, valid: set<Loc>)
    requires HazardFree(log)
    requires forall j, l :: 0 <= j < |log| && l in Reads(log[j]) ==>
      l in valid || exists i :: 0 <= i < j && l in Writes(log[i])
    ensures ReadsProduced(log, valid)
  {
    forall j, l | 0 <= j < |log| && l in Reads(log[j]) && l !in valid
      ensures WrittenBefore(log, j, l)
    {
      var i :| 0 <= i < j && l in Writes(log[i]);
      // the read-after-write pair (i, j) is a conflict, so it is ordered
      assert l in Writes(log[i]) * Reads(log[j]);
    }
  }

  // ---------------------------------------------------------------------
  // The engines of the demo

  /** The command queue `q`, with the host calls made between its enqueues. */
  class Queue {
    var log: seq<Op>

    constructor ()
      ensures log == []
    {
      log := [];
    }

    method Enqueue(op: Op) returns (ev: nat)
      modifies this
      ensures log == old(log) + [op]
      ensures ev == |old(log)|
    {
      ev := |log|;
      log := log + [op];
    }

    /** A host function that reads and writes host memory, such as `PartFilter`. */
    method HostRun(readSet: set<Loc>, writeSet: set<Loc>)
      modifies this
      ensures log == old(log) + [HostCall(readSet, writeSet)]
    {
      log := log + [HostCall(readSet, writeSet)];
    }
  }

  /** A `transEngine`: the objects added to it are moved in one batch. */
  class TransEngine {
    var bufs: seq<Obj>

    constructor ()
      ensures bufs == []
    {
      bufs := [];
    }

    method Add(o: Obj)
      modifies this
      ensures bufs == old(bufs) + [o]
    {
      bufs := bufs + [o];
    }

    /** `host2dev`: copies every added object to the device once the events
        `waitFor` have fired, and signals the returned event. */
    method Host2Dev(q: Queue, waitFor: seq<Option<nat>>) returns (ev: nat)
      modifies q
      ensures q.log == old(q.log) + [Transfer(true, bufs, waitFor)]
      ensures ev == |old(q.log)|
    {
      ev := q.Enqueue(Transfer(true, bufs, waitFor));
    }

    /** `dev2host`: copies every added object back to the host. */
    method Dev2Host(q: Queue, waitFor: seq<Option<nat>>) returns (ev: nat)
      modifies q
      ensures q.log == old(q.log) + [Transfer(false, bufs, waitFor)]
      ensures ev == |old(q.log)|
    {
      ev := q.Enqueue(Transfer(false, bufs, waitFor));
    }
  }

  /** A `krnlEngine` running `gqeJoin` as stage `stage` of the query. */
  class KrnlEngine {
    var stage: nat
    var args: Option<JoinArgs>

    constructor (stage: nat)
      ensures this.stage == stage && args == None
    {
      this.stage := stage;
      args := None;
    }

    method Setup(in1: Obj, in2: Obj, out: Obj, cfg: Obj, tmp: Obj)
      modifies this
      ensures stage == old(stage)
      ensures args == Some(JoinArgs(in1, in2, out, cfg, tmp))
    {
      args := Some(JoinArgs(in1, in2, out, cfg, tmp));
    }

    method Run(q: Queue, waitFor: seq<Option<nat>>) returns (ev: nat)
      requires args.Some?
      modifies q
      ensures q.log == old(q.log) + [Join(stage, args.value, waitFor)]
      ensures ev == |old(q.log)|
    {
      ev := q.Enqueue(Join(stage, args.value, waitFor));
    }
  }

  // ---------------------------------------------------------------------
  // The Q9 schedule

  /** The join stages as set up: part-filter result with partsupp, then
      supplier, lineitem, orders and nation, ping-ponging between `tk0` and
      `tk1`. */
  const Stages: seq<JoinArgs> := [
    JoinArgs(Th0, Tbs(1), Tk0, Cfg(0), BufTmp),
    JoinArgs(Tbs(2), Tk0, Tk1, Cfg(1), BufTmp),
    JoinArgs(Tk1, Tbs(3), Tk0, Cfg(2), BufTmp),
    JoinArgs(Tk0, Tbs(4), Tk1, Cfg(3), BufTmp),
    JoinArgs(Tbs(5), Tk1, Tk0, Cfg(4), BufTmp)]

  /** The first transfer batch: partsupp, supplier, nation and the five
      configurations. */
  const FirstBatch: seq<Obj> := [Tbs(1), Tbs(2), Tbs(5), Cfg(0), Cfg(1), Cfg(2), Cfg(3), Cfg(4)]

  /** `cfgcmds[0]` to `cfgcmds[n - 1]`. */
  function Configs(n: nat): seq<Obj>
  {
    if n == 0 then [] else Configs(n - 1) + [Cfg(n - 1)]
  }

  /** The loop that adds `cfgcmds[0]` to `cfgcmds[n - 1]` to a transfer batch. */
  method AddConfigs(t: TransEngine, n: nat)
    modifies t
    ensures t.bufs == old(t.bufs) + Configs(n)
  {
    var i := 0;
    while i < n
      invariant 0 <= i <= n
      invariant t.bufs == old(t.bufs) + Configs(i)
    {
      t.Add(Cfg(i));
      i := i + 1;
    }
  }

  /** What holds data before the schedule starts: the host copies of the
      tables and configurations loaded from disk, and the scratch buffer the
      host initialised. */
  function InitiallyValid(): set<Loc>
  {
    {Host(Tbs(0)), Host(Tbs(1)), Host(Tbs(2)), Host(Tbs(3)), Host(Tbs(4)), Host(Tbs(5)),
     Host(Cfg(0)), Host(Cfg(1)), Host(Cfg(2)), Host(Cfg(3)), Host(Cfg(4)), Dev(BufTmp)}
  }

  /** The schedule `main` issues, in order. */
  function Q9Log(): seq<Op>
  {
    [ Transfer(true, FirstBatch, []),
      HostCall({Host(Tbs(0))}, {Host(Th0)}),
      Transfer(true, [Th0], [Some(0)]),
      Join(0, Stages[0], [Some(2)]),
      Join(1, Stages[1], [Some(3)]),
      Transfer(true, [Tbs(3)], [Some(2)]),
      Join(2, Stages[2], [Some(5), Some(4)]),
      Transfer(true, [Tbs(4)], [Some(5)]),
      Join(3, Stages[3], [Some(7), Some(6)]),
      Join(4, Stages[4], [Some(8)]),
      Transfer(false, [Tk0], [Some(9)]) ]
  }

  /** test_q9.cpp lines 195-204: one `krnlEngine` per join stage, each set up with its
      inputs, output, configuration and scratch buffer. */
  method SetupKernels() returns (krnl: seq<KrnlEngine>)
    ensures |krnl| == 5
    ensures forall i :: 0 <= i < 5 ==> krnl[i].stage == i && krnl[i].args == Some(Stages[i])
  {
    var krnl0 := new KrnlEngine(0);
    krnl0.Setup(Th0, Tbs(1), Tk0, Cfg(0), BufTmp);
    var krnl1 := new KrnlEngine(1);
    krnl1.Setup(Tbs(2), Tk0, Tk1, Cfg(1), BufTmp);
    var krnl2 := new KrnlEngine(2);
    krnl2.Setup(Tk1, Tbs(3), Tk0, Cfg(2), BufTmp);
    var krnl3 := new KrnlEngine(3);
    krnl3.Setup(Tk0, Tbs(4), Tk1, Cfg(3), BufTmp);
    var krnl4 := new KrnlEngine(4);
    krnl4.Setup(Tbs(5), Tk1, Tk0, Cfg(4), BufTmp);
    krnl := [krnl0, krnl1, krnl2, krnl3, krnl4];
  }

  /** test_q9.cpp lines 206-222: the first transfer batch, partsupp,
      supplier and nation followed by the configurations added in a loop. */
  method FirstBatchEngine() returns (t: TransEngine)
    ensures t.bufs == FirstBatch
  {
    t := new TransEngine();
    t.Add(Tbs(1));
    t.Add(Tbs(2));
    t.Add(Tbs(5));
    assert t.bufs == [Tbs(1), Tbs(2), Tbs(5)];
    AddConfigs(t, 5);
    assert Configs(5) == [Cfg(0), Cfg(1), Cfg(2), Cfg(3), Cfg(4)];
  }

  /** test_q9.cpp lines 248-256: load the first batch, run the part filter on the host,
      load its result and start the first join once it is on the device. */
  method StepPartFilter(q: Queue, transin0: TransEngine, transin4: TransEngine, krnl0: KrnlEngine)
    returns (h2d0: nat, h2d4: nat, ev0: nat)
    requires transin0 != transin4 && transin4.bufs == [] && krnl0.args.Some?
    modifies q, transin4
    ensures q.log == old(q.log) + [Transfer(true, transin0.bufs, []), HostCall({Host(Tbs(0))}, {Host(Th0)}),
                                   Transfer(true, [Th0], [Some(h2d0)]), Join(krnl0.stage, krnl0.args.value, [Some(h2d4)])]
    ensures h2d0 == |old(q.log)| && h2d4 == h2d0 + 2 && ev0 == h2d0 + 3
    ensures transin4.bufs == [Th0]
  {
    h2d0 := transin0.Host2Dev(q, []);
    q.HostRun({Host(Tbs(0))}, {Host(Th0)});
    ghost var filtered := [Transfer(true, transin0.bufs, []), HostCall({Host(Tbs(0))}, {Host(Th0)})];
    assert q.log == old(q.log) + filtered;
    transin4.Add(Th0);
    assert transin4.bufs == [Th0];
    h2d4 := transin4.Host2Dev(q, [Some(h2d0)]);
    ev0 := krnl0.Run(q, [Some(h2d4)]);
    assert q.log == old(q.log) + filtered + [Transfer(true, [Th0], [Some(h2d0)]), Join(krnl0.stage, krnl0.args.value, [Some(h2d4)])];
  }

  /** test_q9.cpp lines 262-276 (steps 4 and 5): load one more table once `loadWait`
      has fired, then run the join on it and on the previous join's result. */
  method StepLoadAndJoin(q: Queue, transin: TransEngine, krnl: KrnlEngine, table: Obj,
                         loadWait: seq<Option<nat>>, joinWait: Option<nat>)
    returns (loaded: nat, ev: nat)
    requires transin.bufs == [] && krnl.args.Some?
    modifies q, transin
    ensures q.log == old(q.log) + [Transfer(true, [table], loadWait),
                                   Join(krnl.stage, krnl.args.value, [Some(loaded), joinWait])]
    ensures loaded == |old(q.log)| && ev == loaded + 1
    ensures transin.bufs == [table]
  {
    transin.Add(table);
    assert transin.bufs == [table];
    loaded := transin.Host2Dev(q, loadWait);
    assert q.log == old(q.log) + [Transfer(true, [table], loadWait)];
    var eventsGrp: seq<Option<nat>> := [];
    eventsGrp := eventsGrp + [Some(loaded)];
    eventsGrp := eventsGrp + [joinWait];
    assert eventsGrp == [Some(loaded), joinWait];
    ev := krnl.Run(q, eventsGrp);
  }

  /** test_q9.cpp lines 277-280 (step 6): the last join, then the readback of its result. */
  method StepReadBack(q: Queue, krnl4: KrnlEngine, transout0: TransEngine, wait: Option<nat>)
    returns (ev4: nat, d2h0: nat)
    requires transout0.bufs == [] && krnl4.args.Some?
    modifies q, transout0
    ensures q.log == old(q.log) + [Join(krnl4.stage, krnl4.args.value, [wait]), Transfer(false, [Tk0], [Some(ev4)])]
    ensures ev4 == |old(q.log)| && d2h0 == ev4 + 1
    ensures transout0.bufs == [Tk0]
  {
    ev4 := krnl4.Run(q, [wait]);
    assert q.log == old(q.log) + [Join(krnl4.stage, krnl4.args.value, [wait])];
    transout0.Add(Tk0);
    assert transout0.bufs == [Tk0];
    assert q.log == old(q.log) + [Join(krnl4.stage, krnl4.args.value, [wait])];
    d2h0 := transout0.Dev2Host(q, [Some(ev4)]);
  }

  /** The wiring in `main`: engines set up, then the commands issued step
      by step, each waiting for the events of the step it depends on. The
      queue ends up holding exactly the Q9 schedule. */
  method WireQ9() returns (log: seq<Op>)
    ensures log == Q9Log()
  {
    var q := new Queue();
    var krnl := SetupKernels();
    var transin0 := FirstBatchEngine();
    var transin2 := new TransEngine();
    var transin3 := new TransEngine();
    var transin4 := new TransEngine();
    var transout0 := new TransEngine();

    var h2d0, h2d4, ev0 := StepPartFilter(q, transin0, transin4, krnl[0]);
    var ev1 := krnl[1].Run(q, [Some(ev0)]);
    var h2d2, ev2 := StepLoadAndJoin(q, transin2, krnl[2], Tbs(3), [Some(h2d4)], Some(ev1));
    var h2d3, ev3 := StepLoadAndJoin(q, transin3, krnl[3], Tbs(4), [Some(h2d2)], Some(ev2));
    var ev4, d2h0 := StepReadBack(q, krnl[4], transout0, Some(ev3));
    log := q.log;
  }

  // ---------------------------------------------------------------------
  // Properties of the Q9 schedule

  /** A command waiting for one event starts after that command and after
      everything that command starts after. */
  lemma BeforeOne(log: seq<Op>, j: nat, p: nat)
    requires j < |log| && !log[j].HostCall? && log[j].waitFor == [Some(p)] && p < j
    ensures Before(log, j) == HostCallsBefore(log, j) + {p} + Before(log, p)
  {
    var ws := log[j].waitFor;
    assert BeforeAll(log, j, ws[1..]) == {};
    assert BeforeAll(log, j, ws) == {p} + Before(log, p);
  }

  /** The same for a command waiting for two events. */
  lemma BeforeTwo(log: seq<Op>, j: nat, p: nat, r: nat)
    requires j < |log| && !log[j].HostCall? && log[j].waitFor == [Some(p), Some(r)] && p < j && r < j
    ensures Before(log, j) == HostCallsBefore(log, j) + {p} + Before(log, p) + {r} + Before(log, r)
  {
    var ws := log[j].waitFor;
    assert ws[1..] == [Some(r)];
    assert BeforeAll(log, j, ws[1..][1..]) == {};
    assert BeforeAll(log, j, ws[1..]) == {r} + Before(log, r);
    assert BeforeAll(log, j, ws) == {p} + Before(log, p) + {r} + Before(log, r);
  }

  /** In a schedule with a single host call `h`, exactly the commands after
      it are issued after a host call. */
  lemma {:induction false} OneHostCall(log: seq<Op>, h: nat, j: nat)
    requires h < |log| && log[h].HostCall?
    requires forall k :: 0 <= k < |log| && k != h ==> !log[k].HostCall?
    requires j <= |log|
    ensures HostCallsBefore(log, j) == if h < j then {h} else {}
  {
    if j > 0 {
      OneHostCall(log, h, j - 1);
    }
  }

  /** The pairs of Q9 commands that may run at the same time: the part
      filter with the first batch, the lineitem transfer with the first two
      joins, and the orders transfer with the first three joins. */
  predicate Concurrent(i: nat, j: nat)
  {
    || (i == 0 && j == 1)
    || ((i == 3 || i == 4) && j == 5)
    || ((i == 3 || i == 4 || i == 6) && j == 7)
  }

  /** The wait lists of the Q9 schedule: command 1 is the only host call,
      and every other command waits for the events listed here. */
  predicate Q9Waits(log: seq<Op>)
  {
    && |log| == 11
    && log[1].HostCall?
    && (forall k :: 0 <= k < 11 && k != 1 ==> !log[k].HostCall?)
    && log[0].waitFor == [] && log[2].waitFor == [Some(0)]
    && log[3].waitFor == [Some(2)] && log[4].waitFor == [Some(3)]
    && log[5].waitFor == [Some(2)] && log[6].waitFor == [Some(5), Some(4)]
    && log[7].waitFor == [Some(5)] && log[8].waitFor == [Some(7), Some(6)]
    && log[9].waitFor == [Some(8)] && log[10].waitFor == [Some(9)]
  }

  lemma Q9HostCalls(log: seq<Op>)
    requires Q9Waits(log)
    ensures forall j :: 0 <= j <= |log| ==> HostCallsBefore(log, j) == if 1 < j then {1} else {}
  {
    forall j | 0 <= j <= |log|
      ensures HostCallsBefore(log, j) == if 1 < j then {1} else {}
    {
      OneHostCall(log, 1, j);
    }
  }

  lemma Q9BeforeEarly(log: seq<Op>)
    requires Q9Waits(log)
    ensures Before(log, 0) == {} && Before(log, 1) == {}
    ensures Before(log, 2) == {0, 1} && Before(log, 3) == {0, 1, 2}
    ensures Before(log, 4) == {0, 1, 2, 3} && Before(log, 5) == {0, 1, 2}
  {
    Q9HostCalls(log);
    assert Before(log, 0) == {} by { assert log[0].waitFor == []; }
    BeforeOne(log, 2, 0);
    BeforeOne(log, 3, 2);
    BeforeOne(log, 4, 3);
    BeforeOne(log, 5, 2);
  }

  lemma Q9BeforeMiddle(log: seq<Op>)
    requires Q9Waits(log)
    ensures Before(log, 6) == {0, 1, 2, 3, 4, 5} && Before(log, 7) == {0, 1, 2, 5}
  {
    Q9HostCalls(log);
    Q9BeforeEarly(log);
    BeforeTwo(log, 6, 5, 4);
    BeforeOne(log, 7, 5);
  }

  lemma Q9BeforeLate(log: seq<Op>)
    requires Q9Waits(log)
    ensures Before(log, 8) == {0, 1, 2, 3, 4, 5, 6, 7}
    ensures Before(log, 9) == {0, 1, 2, 3, 4, 5, 6, 7, 8}
    ensures Before(log, 10) == {0, 1, 2, 3, 4, 5, 6, 7, 8, 9}
  {
    Q9HostCalls(log);
    Q9BeforeMiddle(log);
    BeforeTwo(log, 8, 7, 6);
    BeforeOne(log, 9, 8);
    BeforeOne(log, 10, 9);
  }

  lemma Q9OrderEarly(log: seq<Op>)
    requires Q9Waits(log)
    ensures forall i, j :: 0 <= i < j < 6 ==> (i in Before(log, j) <==> !Concurrent(i, j))
  {
    Q9BeforeEarly(log);
  }

  lemma Q9OrderMiddle(log: seq<Op>)
    requires Q9Waits(log)
    ensures forall i, j :: 0 <= i < j && 6 <= j < 8 ==> (i in Before(log, j) <==> !Concurrent(i, j))
  {
    Q9BeforeMiddle(log);
  }

  lemma Q9OrderLate(log: seq<Op>)
    requires Q9Waits(log)
    ensures forall i, j :: 0 <= i < j && 8 <= j < 11 ==> (i in Before(log, j) <==> !Concurrent(i, j))
  {
    Q9BeforeLate(log);
    forall i, j | 0 <= i < j && 8 <= j < 11
      ensures i in Before(log, j) <==> !Concurrent(i, j)
    {
      if j == 8 {
        assert i in Before(log, 8);
      } else if j == 9 {
        assert i in Before(log, 9);
      } else {
        assert i in Before(log, 10);
      }
    }
  }

  /** Any two Q9 commands are ordered, except the concurrent pairs. */
  lemma Q9Order()
    ensures |Q9Log()| == 11
    ensures forall i, j :: 0 <= i < j < 11 ==> (i in Before(Q9Log(), j) <==> !Concurrent(i, j))
  {
    var log := Q9Log();
    assert Q9Waits(log);
    Q9OrderEarly(log);
    Q9OrderMiddle(log);
    Q9OrderLate(log);
  }

  /** The concurrent pairs touch no common memory that either of them writes. */
  lemma Q9ConcurrentIndependent()
    ensures forall i, j :: 0 <= i < j < |Q9Log()| && Concurrent(i, j) ==> !Conflict(Q9Log()[i], Q9Log()[j])
  {
    var log := Q9Log();
    assert Reads(log[1]) == {Host(Tbs(0))} && Writes(log[1]) == {Host(Th0)};
    assert Reads(log[5]) == {Host(Tbs(3))} && Writes(log[5]) == {Dev(Tbs(3))};
    assert Reads(log[7]) == {Host(Tbs(4))} && Writes(log[7]) == {Dev(Tbs(4))};
    assert Th0 !in FirstBatch;
  }

  /** The Q9 schedule orders every hazard. */
  lemma Q9HazardFree()
    ensures HazardFree(Q9Log())
  {
    Q9Order();
    Q9ConcurrentIndependent();
  }

  /** Every location a Q9 command reads was loaded from disk, initialised by
      the host, or written by an earlier command. */
  lemma Q9ReadsWritten()
    ensures forall j, l :: 0 <= j < |Q9Log()| && l in Reads(Q9Log()[j]) ==>
      l in InitiallyValid() || exists i :: 0 <= i < j && l in Writes(Q9Log()[i])
  {
    var log := Q9Log();
    forall j, l | 0 <= j < |log| && l in Reads(log[j])
      ensures l in InitiallyValid() || exists i :: 0 <= i < j && l in Writes(log[i])
    {
      if j == 2 {
        assert l in Writes(log[1]);
      } else if j == 3 {
        if l == Dev(Th0) {
          assert l in Writes(log[2]);
        } else if l != Dev(BufTmp) {
          assert l in Writes(log[0]);
        }
      } else if j == 4 {
        if l == Dev(Tk0) {
          assert l in Writes(log[3]);
        } else if l != Dev(BufTmp) {
          assert l in Writes(log[0]);
        }
      } else if j == 6 {
        if l == Dev(Tk1) {
          assert l in Writes(log[4]);
        } else if l == Dev(Tbs(3)) {
          assert l in Writes(log[5]);
        } else if l != Dev(BufTmp) {
          assert l in Writes(log[0]);
        }
      } else if j == 8 {
        if l == Dev(Tk0) {
          assert l in Writes(log[6]);
        } else if l == Dev(Tbs(4)) {
          assert l in Writes(log[7]);
        } else if l != Dev(BufTmp) {
          assert l in Writes(log[0]);
        }
      } else if j == 9 {
        if l == Dev(Tk1) {
          assert l in Writes(log[8]);
        } else if l != Dev(BufTmp) {
          assert l in Writes(log[0]);
        }
      } else if j == 10 {
        assert l in Writes(log[9]);
      }
    }
  }

  /** The Q9 schedule is well formed, every hazard in it is ordered, and
      every command reads data that has been produced: loaded from disk,
      initialised by the host, or written by a command it waits for. */
  lemma Q9Schedule()
    ensures WaitsResolved(Q9Log()) && HazardFree(Q9Log()) && ReadsProduced(Q9Log(), InitiallyValid())
  {
    var log := Q9Log();
    assert Q9Waits(log);
    Q9HazardFree();
    Q9ReadsWritten();
    HazardFreeReads(log, InitiallyValid());
  }

  /** The join stages form a chain: each stage after the first reads the
      table the stage before it wrote, the outputs alternate between `tk0` and
      `tk1`, and the last stage leaves its result in `tk0`, the table read back. */
  lemma StagesChained()
    ensures forall s :: 1 <= s < |Stages| ==>
      Stages[s].in1 == Stages[s - 1].out || Stages[s].in2 == Stages[s - 1].out
    ensures forall s :: 0 <= s < |Stages| ==> Stages[s].out == if s % 2 == 0 then Tk0 else Tk1
    ensures Stages[|Stages| - 1].out == Tk0
  {
  }

  /** Where the run of each join stage sits in the Q9 schedule. */
  const JoinAt: seq<nat> := [3, 4, 6, 8, 9]

  /** The waits `main` wires: every join stage after the first waits for the
      stage before it, stage 2 also for the lineitem transfer and stage 3 for
      the orders transfer, the transfers form the chain first batch, part
      filter result, lineitem, orders, and the readback waits for the last
      stage. As a consequence every command after the part filter starts only
      once the first batch is on the device. */
  lemma Q9Waiting()
    ensures forall s :: 0 <= s < 5 ==> Q9Log()[JoinAt[s]] == Join(s, Stages[s], Q9Log()[JoinAt[s]].waitFor)
    ensures forall s :: 1 <= s < 5 ==> Some(JoinAt[s - 1]) in Q9Log()[JoinAt[s]].waitFor
    ensures Q9Log()[5].objs == [Tbs(3)] && Some(5) in Q9Log()[JoinAt[2]].waitFor
    ensures Q9Log()[7].objs == [Tbs(4)] && Some(7) in Q9Log()[JoinAt[3]].waitFor
    ensures Q9Log()[2].waitFor == [Some(0)] && Q9Log()[5].waitFor == [Some(2)] && Q9Log()[7].waitFor == [Some(5)]
    ensures Q9Log()[10] == Transfer(false, [Tk0], [Some(JoinAt[4])])
    ensures forall k :: 2 <= k < |Q9Log()| ==> 0 in Before(Q9Log(), k)
  {
    Q9Order();
  }
}
