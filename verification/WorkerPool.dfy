/**
 The in-process worker pool: a FIFO queue, N workers that serve its items under the concurrency
 governor, and a `stop` that puts one sentinel per worker and waits for all of them.

 The queue is kept as the log of everything ever put and the number of entries taken. Each item is a
 process of the governor's system, so pool and governor run together. The other processes of the
 system are outside requests: callers that use the same governor without the pool, as direct tool
 calls do. One start/stop cycle.
 */
module WorkerPool {
  import opened Prelude
  import G = Governor

  datatype Entry = Work(item: nat) | Sentinel

  /** `Closing`: the batch was counted as completed, its session is not closed yet. */
  datatype Worker = Idle | Serving(item: nat) | Closing(item: nat) | Exited

  datatype Status = Queued | Running | Completed | Failed

  datatype Stop = NotCalled | Stopping(left: nat, mark: nat)

  datatype Pool = Pool(
    maxsize: nat,
    sys: G.System,
    log: seq<Entry>,
    taken: nat,
    takers: seq<nat>,
    pos: seq<nat>,
    proc: seq<nat>,
    workers: seq<Worker>,
    status: seq<Status>,
    done: seq<bool>,
    completed: int,
    failed: int,
    inFlight: int,
    late: int,
    stop: Stop)

  function Start(caps: G.Caps, maxsize: nat, workerCount: nat): Pool {
    Pool(maxsize, G.Init(caps, []), [], 0, [], [], [], seq(workerCount, _ => Idle), [], [], 0, 0, 0, 0, NotCalled)
  }

  datatype Op =
    | Enqueue(req: G.Request)  // a client's put
    | BeginStop
    | PutSentinel
    | Take(w: nat)             // a worker's get
    | Advance(w: nat)          // the next stretch of governor.acquire
    | Count(w: nat)            // the batch succeeded and is counted
    | Fail(w: nat)             // the batch raised
    | Close(w: nat)            // the session closed
    | CloseLate(w: nat)        // an exception after the batch was counted
    | Arrive(req: G.Request)   // an outside caller begins governor.acquire
    | Outside(j: nat)          // the next stretch of an outside caller

  /** A queue of size 0 is unbounded. */
  predicate HasRoom(p: Pool) {
    p.maxsize == 0 || |p.log| - p.taken < p.maxsize
  }

  /** Item i exists, with a process of its own in the governor. */
  predicate IsItem(p: Pool, i: nat) {
    i < |p.proc| && p.proc[i] < |p.sys.procs| && i < |p.status| && i < |p.done|
  }

  predicate Serves(p: Pool, w: nat) {
    w < |p.workers| && p.workers[w].Serving? && IsItem(p, p.workers[w].item)
  }

  predicate Closes(p: Pool, w: nat) {
    w < |p.workers| && p.workers[w].Closing? && IsItem(p, p.workers[w].item)
    && G.Enabled(p.sys, p.proc[p.workers[w].item])
  }

  /** Process j belongs to no item. */
  predicate IsOutside(p: Pool, j: nat) {
    j < |p.sys.procs| && forall i :: 0 <= i < |p.proc| ==> p.proc[i] != j
  }

  predicate Can(p: Pool, op: Op) {
    match op
    case Enqueue(_) => HasRoom(p)
    case BeginStop => p.stop.NotCalled?
    case PutSentinel => p.stop.Stopping? && p.stop.left > 0 && HasRoom(p)
    case Take(w) =>
      && w < |p.workers| && p.workers[w].Idle? && p.taken < |p.log|
      && (p.log[p.taken].Work? ==> p.log[p.taken].item < |p.status|)
    case Advance(w) =>
      && Serves(p, w) && G.Enabled(p.sys, p.proc[p.workers[w].item])
      && !p.sys.procs[p.proc[p.workers[w].item]].phase.Active?
    case Count(w) => Serves(p, w) && p.sys.procs[p.proc[p.workers[w].item]].phase.Active?
    case Fail(w) => Serves(p, w) && p.sys.procs[p.proc[p.workers[w].item]].phase.Active?
    case Close(w) => Closes(p, w)
    case CloseLate(w) => Closes(p, w)
    case Arrive(_) => true
    case Outside(j) => IsOutside(p, j) && G.Enabled(p.sys, j)
  }

  /** The `finally` block: release the permits, leave flight, wake the waiter, take the next item. */
  function Finish(p: Pool, w: nat, i: nat, status: Status): Pool
    requires w < |p.workers| && IsItem(p, i) && G.Enabled(p.sys, p.proc[i])
  {
    p.(sys := G.Step(p.sys, p.proc[i]),
       workers := p.workers[w := Idle],
       status := p.status[i := status],
       done := p.done[i := true],
       inFlight := G.Max0(p.inFlight - 1))
  }

  /** A new request joins the governor's system. */
  function Joined(sys: G.System, req: G.Request): G.System {
    G.System(sys.g, sys.procs + [G.Proc(req, G.Looking(0))])
  }

  function Do(p: Pool, op: Op): Pool
    requires Can(p, op)
  {
    match op
    case Enqueue(req) =>
      p.(sys := Joined(p.sys, req),
         log := p.log + [Work(|p.proc|)],
         pos := p.pos + [|p.log|],
         proc := p.proc + [|p.sys.procs|],
         status := p.status + [Queued],
         done := p.done + [false])
    case BeginStop => p.(stop := Stopping(|p.workers|, |p.log|))
    case PutSentinel => p.(log := p.log + [Sentinel], stop := p.stop.(left := p.stop.left - 1))
    case Take(w) =>
      var p1 := p.(taken := p.taken + 1, takers := p.takers + [w]);
      (match p.log[p.taken]
       case Sentinel => p1.(workers := p.workers[w := Exited])
       case Work(i) =>
         p1.(workers := p.workers[w := Serving(i)],
             status := p.status[i := Running],
             inFlight := p.inFlight + 1))
    case Advance(w) => p.(sys := G.Step(p.sys, p.proc[p.workers[w].item]))
    case Count(w) =>
      p.(workers := p.workers[w := Closing(p.workers[w].item)],
         status := p.status[p.workers[w].item := Completed],
         completed := p.completed + 1)
    case Fail(w) =>
      var p1 := Finish(p, w, p.workers[w].item, Failed);
      p1.(failed := p.failed + 1)
    case Close(w) => Finish(p, w, p.workers[w].item, Completed)
    case CloseLate(w) =>
      var p1 := Finish(p, w, p.workers[w].item, Failed);
      p1.(failed := p.failed + 1, late := p.late + 1)
    case Arrive(req) => p.(sys := Joined(p.sys, req))
    case Outside(j) => p.(sys := G.Step(p.sys, j))
  }

  predicate Feasible(p: Pool, ops: seq<Op>)
    decreases |ops|
  {
    ops == [] || (Can(p, ops[0]) && Feasible(Do(p, ops[0]), ops[1..]))
  }

  function Exec(p: Pool, ops: seq<Op>): Pool
    requires Feasible(p, ops)
    decreases |ops|
  {
    if ops == [] then p else Exec(Do(p, ops[0]), ops[1..])
  }

  // ---- Counting ----

  function Sentinels(q: seq<Entry>): nat {
    if q == [] then 0 else (if q[0].Sentinel? then 1 else 0) + Sentinels(q[1..])
  }

  datatype Kind = Busy | Late | Gone

  predicate Is(x: Worker, kind: Kind) {
    match kind
    case Busy => x.Serving? || x.Closing?
    case Late => x.Closing?
    case Gone => x.Exited?
  }

  function Tally(ws: seq<Worker>, kind: Kind): nat {
    if ws == [] then 0 else (if Is(ws[0], kind) then 1 else 0) + Tally(ws[1..], kind)
  }

  lemma {:induction false} SentinelsAppend(q: seq<Entry>, e: Entry)
    ensures Sentinels(q + [e]) == Sentinels(q) + (if e.Sentinel? then 1 else 0)
  {
    if q != [] {
      assert (q + [e])[1..] == q[1..] + [e];
      SentinelsAppend(q[1..], e);
    }
  }

  lemma {:induction false} SentinelsWitness(q: seq<Entry>) returns (k: nat)
    requires Sentinels(q) > 0
    ensures k < |q| && q[k].Sentinel?
  {
    if q[0].Sentinel? {
      k := 0;
    } else {
      var j := SentinelsWitness(q[1..]);
      k := j + 1;
    }
  }

  lemma {:induction false} SentinelsConcat(a: seq<Entry>, b: seq<Entry>)
    ensures Sentinels(a + b) == Sentinels(a) + Sentinels(b)
  {
    if a == [] {
      assert a + b == b;
    } else {
      assert (a + b)[1..] == a[1..] + b;
      SentinelsConcat(a[1..], b);
    }
  }

  lemma {:induction false} TallyUpdate(ws: seq<Worker>, w: nat, x: Worker, kind: Kind)
    requires w < |ws|
    ensures Tally(ws[w := x], kind)
         == Tally(ws, kind) - (if Is(ws[w], kind) then 1 else 0) + (if Is(x, kind) then 1 else 0)
  {
    if w == 0 {
      assert ws[0 := x][1..] == ws[1..];
    } else {
      assert ws[w := x][1..] == ws[1..][w - 1 := x];
      TallyUpdate(ws[1..], w - 1, x, kind);
    }
  }

  lemma {:induction false} TallyBound(ws: seq<Worker>, kind: Kind)
    ensures Tally(ws, kind) <= |ws|
    ensures Tally(ws, kind) == |ws| <==> forall w :: 0 <= w < |ws| ==> Is(ws[w], kind)
    ensures Tally(ws, kind) == 0 <==> forall w :: 0 <= w < |ws| ==> !Is(ws[w], kind)
  {
    if ws != [] {
      TallyBound(ws[1..], kind);
      assert forall w :: 0 < w < |ws| ==> ws[w] == ws[1..][w - 1];
      assert forall w :: 0 <= w < |ws| - 1 ==> ws[1..][w] == ws[w + 1];
    }
  }

  // ---- The invariant of every run ----

  /** Every item has one place in the log and one process, and every work entry is an item. */
  ghost predicate LogOk(p: Pool) {
    && |p.pos| == |p.proc| == |p.status| == |p.done|
    && (forall i :: 0 <= i < |p.proc| ==> p.proc[i] < |p.sys.procs|)
    && (forall i, j :: 0 <= i < j < |p.proc| ==> p.proc[i] != p.proc[j])
    && |p.takers| == p.taken <= |p.log|
    && (forall i :: 0 <= i < |p.pos| ==> p.pos[i] < |p.log| && p.log[p.pos[i]] == Work(i))
    && (forall k :: 0 <= k < |p.log| && p.log[k].Work? ==>
          p.log[k].item < |p.pos| && p.pos[p.log[k].item] == k)
  }

  /** An item waits untouched, or is with the one worker that took it, or is finished. */
  ghost predicate ItemOk(p: Pool, i: nat)
    requires LogOk(p) && i < |p.pos|
  {
    var phase := p.sys.procs[p.proc[i]].phase;
    if p.pos[i] >= p.taken then
      p.status[i].Queued? && phase == G.Looking(0) && !p.done[i]
    else if p.done[i] then
      phase.Done? && (p.status[i].Completed? || p.status[i].Failed?)
    else
      var w := p.takers[p.pos[i]];
      && w < |p.workers|
      && (|| (p.workers[w] == Serving(i) && p.status[i].Running? && !phase.Done?)
          || (p.workers[w] == Closing(i) && p.status[i].Completed? && phase.Active?))
  }

  ghost predicate WorkerOk(p: Pool, w: nat)
    requires LogOk(p) && w < |p.workers|
  {
    Is(p.workers[w], Busy) ==>
      var i := p.workers[w].item;
      i < |p.pos| && p.pos[i] < p.taken && p.takers[p.pos[i]] == w && !p.done[i]
  }

  /** One sentinel per worker: still to put, in the queue, or consumed by an exited worker. */
  ghost predicate StopOk(p: Pool)
    requires p.taken <= |p.log|
  {
    var pending := Sentinels(p.log[p.taken..]) + Tally(p.workers, Gone);
    Sentinels(p.log[..p.taken]) == Tally(p.workers, Gone) &&
    match p.stop
    case NotCalled => pending == 0 && Sentinels(p.log) == 0
    case Stopping(left, mark) =>
      && pending + left == |p.workers|
      && mark <= |p.log|
      && (forall k :: 0 <= k < mark ==> !p.log[k].Sentinel?)
  }

  /** The exact law of the pool's counters. */
  ghost predicate Accounted(p: Pool)
    requires p.taken <= |p.log|
  {
    var queued := |p.log| - p.taken - Sentinels(p.log[p.taken..]);
    && p.inFlight == Tally(p.workers, Busy)
    && queued + p.inFlight + p.completed + p.failed == |p.proc| + Tally(p.workers, Late) + p.late
    && p.late >= 0
  }

  ghost predicate ItemsOk(p: Pool) {
    && LogOk(p)
    && (forall i :: 0 <= i < |p.pos| ==> ItemOk(p, i))
    && (forall w :: 0 <= w < |p.workers| ==> WorkerOk(p, w))
  }

  ghost predicate Inv(p: Pool) {
    ItemsOk(p) && StopOk(p) && Accounted(p) && G.Inv(p.sys)
  }

  lemma StartInv(caps: G.Caps, maxsize: nat, workerCount: nat)
    ensures Inv(Start(caps, maxsize, workerCount))
  {
    var p := Start(caps, maxsize, workerCount);
    G.InitInv(caps, []);
    TallyBound(p.workers, Busy);
    TallyBound(p.workers, Late);
    TallyBound(p.workers, Gone);
  }

  /** A new request does not disturb the governor. */
  lemma JoinInv(sys: G.System, req: G.Request)
    requires G.Inv(sys)
    ensures G.Inv(Joined(sys, req))
  {
    var q := G.Proc(req, G.Looking(0));
    var sys' := Joined(sys, req);
    forall s
      ensures G.Balanced(sys', s)
    {
      assert G.Balanced(sys, s);
      G.CountAppend(sys.procs, q, s, false);
      G.CountAppend(sys.procs, q, s, true);
    }
  }

  lemma EnqueueItems(p: Pool, req: G.Request)
    requires ItemsOk(p) && Can(p, Enqueue(req))
    ensures ItemsOk(Do(p, Enqueue(req)))
  {
    var p' := Do(p, Enqueue(req));
    assert LogOk(p');
    forall i | 0 <= i < |p'.pos|
      ensures ItemOk(p', i)
    {
      if i < |p.pos| {
        assert ItemOk(p, i);
      }
    }
    forall w | 0 <= w < |p'.workers|
      ensures WorkerOk(p', w)
    {
      assert WorkerOk(p, w);
    }
  }

  /** Putting an entry moves the queue's counts by that entry alone. */
  lemma PutQueue(p: Pool, e: Entry)
    requires p.taken <= |p.log|
    ensures Sentinels((p.log + [e])[p.taken..]) == Sentinels(p.log[p.taken..]) + (if e.Sentinel? then 1 else 0)
    ensures Sentinels(p.log + [e]) == Sentinels(p.log) + (if e.Sentinel? then 1 else 0)
    ensures (p.log + [e])[..p.taken] == p.log[..p.taken]
  {
    assert (p.log + [e])[p.taken..] == p.log[p.taken..] + [e];
    SentinelsAppend(p.log[p.taken..], e);
    SentinelsAppend(p.log, e);
  }

  lemma EnqueueInv(p: Pool, req: G.Request)
    requires Inv(p) && Can(p, Enqueue(req))
    ensures Inv(Do(p, Enqueue(req)))
  {
    JoinInv(p.sys, req);
    EnqueueItems(p, req);
    PutQueue(p, Work(|p.proc|));
  }

  lemma PutItems(p: Pool, op: Op)
    requires ItemsOk(p) && Can(p, op) && (op.BeginStop? || op.PutSentinel?)
    ensures ItemsOk(Do(p, op))
  {
    var p' := Do(p, op);
    assert LogOk(p');
    forall i | 0 <= i < |p'.pos|
      ensures ItemOk(p', i)
    {
      assert ItemOk(p, i);
    }
    forall w | 0 <= w < |p'.workers|
      ensures WorkerOk(p', w)
    {
      assert WorkerOk(p, w);
    }
  }

  lemma BeginStopInv(p: Pool)
    requires Inv(p) && Can(p, BeginStop)
    ensures Inv(Do(p, BeginStop))
  {
    PutItems(p, BeginStop);
    forall k | 0 <= k < |p.log|
      ensures !p.log[k].Sentinel?
    {
      if p.log[k].Sentinel? {
        assert p.log == p.log[..k] + p.log[k..];
        SentinelsConcat(p.log[..k], p.log[k..]);
      }
    }
  }

  lemma PutSentinelInv(p: Pool)
    requires Inv(p) && Can(p, PutSentinel)
    ensures Inv(Do(p, PutSentinel))
  {
    PutItems(p, PutSentinel);
    PutSentinelCounts(p);
  }

  lemma PutSentinelCounts(p: Pool)
    requires p.taken <= |p.log| && StopOk(p) && Accounted(p) && Can(p, PutSentinel)
    ensures StopOk(Do(p, PutSentinel)) && Accounted(Do(p, PutSentinel))
  {
    PutQueue(p, Sentinel);
  }

  lemma TakeCounts(p: Pool, w: nat)
    requires p.taken <= |p.log| && StopOk(p) && Accounted(p) && Can(p, Take(w))
    ensures Do(p, Take(w)).taken <= |p.log| && StopOk(Do(p, Take(w))) && Accounted(Do(p, Take(w)))
  {
    var p' := Do(p, Take(w));
    var e := p.log[p.taken];
    assert p.log[p.taken..][1..] == p'.log[p'.taken..];
    assert p'.log[..p'.taken] == p.log[..p.taken] + [e];
    SentinelsAppend(p.log[..p.taken], e);
    TallyUpdate(p.workers, w, p'.workers[w], Busy);
    TallyUpdate(p.workers, w, p'.workers[w], Late);
    TallyUpdate(p.workers, w, p'.workers[w], Gone);
  }

  lemma TakeItems(p: Pool, w: nat)
    requires ItemsOk(p) && Can(p, Take(w))
    ensures ItemsOk(Do(p, Take(w)))
  {
    var p' := Do(p, Take(w));
    var e := p.log[p.taken];
    assert LogOk(p');
    forall i | 0 <= i < |p'.pos|
      ensures ItemOk(p', i)
    {
      assert ItemOk(p, i);
      if p.pos[i] == p.taken {
        assert e == Work(i);
      }
    }
    forall v | 0 <= v < |p'.workers|
      ensures WorkerOk(p', v)
    {
      assert WorkerOk(p, v);
      if v == w && e.Work? {
        assert ItemOk(p, e.item);
      }
    }
  }

  lemma TakeInv(p: Pool, w: nat)
    requires Inv(p) && Can(p, Take(w))
    ensures Inv(Do(p, Take(w)))
  {
    TakeItems(p, w);
    TakeCounts(p, w);
  }

  /** A change to one worker and to the item it serves disturbs no other item. */
  lemma Undisturbed(p: Pool, p': Pool, w: nat, i: nat)
    requires ItemsOk(p) && LogOk(p')
    requires w < |p.workers| && Is(p.workers[w], Busy) && p.workers[w].item == i
    requires p'.pos == p.pos && p'.taken == p.taken && p'.takers == p.takers && |p'.workers| == |p.workers|
    requires p'.proc == p.proc && |p'.sys.procs| == |p.sys.procs|
    requires forall j :: 0 <= j < |p.pos| && j != i ==>
               && p'.sys.procs[p.proc[j]] == p.sys.procs[p.proc[j]]
               && p'.status[j] == p.status[j] && p'.done[j] == p.done[j]
    requires forall v :: 0 <= v < |p.workers| && v != w ==> p'.workers[v] == p.workers[v]
    requires i < |p.pos| && ItemOk(p', i) && WorkerOk(p', w)
    ensures ItemsOk(p')
  {
    assert WorkerOk(p, w);
    forall j | 0 <= j < |p'.pos|
      ensures ItemOk(p', j)
    {
      assert ItemOk(p, j);
    }
    forall v | 0 <= v < |p'.workers|
      ensures WorkerOk(p', v)
    {
      assert WorkerOk(p, v);
    }
  }

  lemma ServeItems(p: Pool, op: Op, w: nat)
    requires Inv(p) && Can(p, op)
    requires op == Advance(w) || op == Count(w) || op == Fail(w) || op == Close(w) || op == CloseLate(w)
    ensures ItemsOk(Do(p, op))
  {
    var p' := Do(p, op);
    var i := p.workers[w].item;
    ServedItem(p, op, w);
    assert WorkerOk(p, w);
    Undisturbed(p, p', w, i);
  }

  lemma ServedItem(p: Pool, op: Op, w: nat)
    requires ItemsOk(p) && Can(p, op)
    requires op == Advance(w) || op == Count(w) || op == Fail(w) || op == Close(w) || op == CloseLate(w)
    ensures var p', i := Do(p, op), p.workers[w].item;
      LogOk(p') && i < |p.pos| && ItemOk(p', i) && WorkerOk(p', w)
  {
    var p', i := Do(p, op), p.workers[w].item;
    assert WorkerOk(p, w);
    assert ItemOk(p, i);
    assert LogOk(p');
  }

  lemma ServeCounts(p: Pool, op: Op, w: nat)
    requires p.taken <= |p.log| && StopOk(p) && Accounted(p) && Can(p, op)
    requires op == Advance(w) || op == Count(w) || op == Fail(w) || op == Close(w) || op == CloseLate(w)
    ensures StopOk(Do(p, op)) && Accounted(Do(p, op))
  {
    var x := Do(p, op).workers[w];
    TallyBound(p.workers, Busy);
    TallyUpdate(p.workers, w, x, Busy);
    TallyUpdate(p.workers, w, x, Late);
    TallyUpdate(p.workers, w, x, Gone);
    assert Do(p, op).workers == p.workers[w := x];
  }

  lemma ServeInv(p: Pool, op: Op, w: nat)
    requires Inv(p) && Can(p, op)
    requires op == Advance(w) || op == Count(w) || op == Fail(w) || op == Close(w) || op == CloseLate(w)
    ensures Inv(Do(p, op))
  {
    ServeItems(p, op, w);
    ServeCounts(p, op, w);
    if !op.Count? {
      G.StepInv(p.sys, p.proc[p.workers[w].item]);
    }
  }

  /** A system that moved no item's process leaves the items alone. */
  lemma SameItems(p: Pool, sys: G.System)
    requires ItemsOk(p) && |sys.procs| >= |p.sys.procs|
    requires forall i :: 0 <= i < |p.proc| ==> sys.procs[p.proc[i]] == p.sys.procs[p.proc[i]]
    ensures ItemsOk(p.(sys := sys))
  {
    var p' := p.(sys := sys);
    assert LogOk(p');
    forall i | 0 <= i < |p'.pos|
      ensures ItemOk(p', i)
    {
      assert ItemOk(p, i);
    }
    forall w | 0 <= w < |p'.workers|
      ensures WorkerOk(p', w)
    {
      assert WorkerOk(p, w);
    }
  }

  /** Outside requests leave the pool's own books alone. */
  lemma OutsideInv(p: Pool, op: Op)
    requires Inv(p) && Can(p, op) && (op.Arrive? || op.Outside?)
    ensures Inv(Do(p, op))
  {
    if op.Arrive? {
      JoinInv(p.sys, op.req);
      SameItems(p, Joined(p.sys, op.req));
    } else {
      G.StepInv(p.sys, op.j);
      SameItems(p, G.Step(p.sys, op.j));
    }
  }

  lemma DoInv(p: Pool, op: Op)
    requires Inv(p) && Can(p, op)
    ensures Inv(Do(p, op))
  {
    match op
    case Enqueue(req) => EnqueueInv(p, req);
    case BeginStop => BeginStopInv(p);
    case PutSentinel => PutSentinelInv(p);
    case Take(w) => TakeInv(p, w);
    case Advance(w) => ServeInv(p, op, w);
    case Count(w) => ServeInv(p, op, w);
    case Fail(w) => ServeInv(p, op, w);
    case Close(w) => ServeInv(p, op, w);
    case CloseLate(w) => ServeInv(p, op, w);
    case Arrive(_) => OutsideInv(p, op);
    case Outside(_) => OutsideInv(p, op);
  }

  lemma {:induction false} ExecInv(p: Pool, ops: seq<Op>)
    requires Inv(p) && Feasible(p, ops)
    ensures Inv(Exec(p, ops))
    ensures |Exec(p, ops).workers| == |p.workers| && Exec(p, ops).sys.g.caps == p.sys.g.caps
    decreases |ops|
  {
    if ops != [] {
      DoInv(p, ops[0]);
      DoKeepsSize(p, ops[0]);
      ExecInv(Do(p, ops[0]), ops[1..]);
    }
  }

  lemma DoKeepsSize(p: Pool, op: Op)
    requires Inv(p) && Can(p, op)
    ensures |Do(p, op).workers| == |p.workers| && Do(p, op).sys.g.caps == p.sys.g.caps
  {
  }

  ghost predicate Reachable(caps: G.Caps, maxsize: nat, workerCount: nat, p: Pool) {
    exists ops :: Feasible(Start(caps, maxsize, workerCount), ops)
               && Exec(Start(caps, maxsize, workerCount), ops) == p
  }

  lemma ReachableInv(caps: G.Caps, maxsize: nat, workerCount: nat, p: Pool)
    requires Reachable(caps, maxsize, workerCount, p)
    ensures Inv(p) && |p.workers| == workerCount && p.sys.g.caps == caps
  {
    var ops :| Feasible(Start(caps, maxsize, workerCount), ops)
            && Exec(Start(caps, maxsize, workerCount), ops) == p;
    StartInv(caps, maxsize, workerCount);
    ExecInv(Start(caps, maxsize, workerCount), ops);
  }

  // ---- Counters ----

  function QueueDepth(p: Pool): int
    requires p.taken <= |p.log|
  {
    |p.log| - p.taken - Sentinels(p.log[p.taken..])
  }

  /** Queued, in flight, completed and failed items add up to the enqueued ones, except that an
      item between its completion count and the close of its session counts twice, and so does for
      ever one whose session raised after the count. They add up exactly when there is neither. */
  lemma CounterLaw(caps: G.Caps, maxsize: nat, workerCount: nat, p: Pool)
    requires Reachable(caps, maxsize, workerCount, p)
    ensures p.taken <= |p.log|
    ensures QueueDepth(p) + p.inFlight + p.completed + p.failed
         == |p.proc| + Tally(p.workers, Late) + p.late
    ensures QueueDepth(p) + p.inFlight + p.completed + p.failed == |p.proc|
       <==> p.late == 0 && forall w :: 0 <= w < |p.workers| ==> !p.workers[w].Closing?
    ensures 0 <= p.inFlight <= workerCount
  {
    ReachableInv(caps, maxsize, workerCount, p);
    TallyBound(p.workers, Late);
    TallyBound(p.workers, Busy);
    assert forall w :: 0 <= w < |p.workers| ==> (Is(p.workers[w], Late) <==> p.workers[w].Closing?);
  }

  // ---- Outcomes ----

  function StatusCount(status: seq<Status>, x: Status): nat {
    if status == [] then 0 else (if status[0] == x then 1 else 0) + StatusCount(status[1..], x)
  }

  lemma {:induction false} StatusUpdate(status: seq<Status>, i: nat, y: Status, x: Status)
    requires i < |status|
    ensures StatusCount(status[i := y], x)
         == StatusCount(status, x) - (if status[i] == x then 1 else 0) + (if y == x then 1 else 0)
  {
    if i == 0 {
      assert status[0 := y][1..] == status[1..];
    } else {
      assert status[i := y][1..] == status[1..][i - 1 := y];
      StatusUpdate(status[1..], i - 1, y, x);
    }
  }

  lemma {:induction false} StatusAppend(status: seq<Status>, y: Status, x: Status)
    ensures StatusCount(status + [y], x) == StatusCount(status, x) + (if y == x then 1 else 0)
  {
    if status == [] {
      assert status + [y] == [y];
    } else {
      assert (status + [y])[1..] == status[1..] + [y];
      StatusAppend(status[1..], y, x);
    }
  }

  /** Each of the two counters counts its own status, late failures set aside. */
  predicate OutcomesOk(p: Pool) {
    && p.failed == StatusCount(p.status, Failed)
    && p.completed - p.late == StatusCount(p.status, Completed)
  }

  lemma DoOutcomes(p: Pool, op: Op)
    requires Inv(p) && OutcomesOk(p) && Can(p, op)
    ensures OutcomesOk(Do(p, op))
  {
    if op.Enqueue? {
      StatusAppend(p.status, Queued, Failed);
      StatusAppend(p.status, Queued, Completed);
    } else if op.Take? && p.log[p.taken].Work? {
      var i := p.log[p.taken].item;
      assert ItemOk(p, i);
      StatusUpdate(p.status, i, Running, Failed);
      StatusUpdate(p.status, i, Running, Completed);
    } else if op.Count? || op.Fail? || op.Close? || op.CloseLate? {
      ServeOutcomes(p, op);
    }
  }

  lemma ServeOutcomes(p: Pool, op: Op)
    requires ItemsOk(p) && OutcomesOk(p) && Can(p, op) && (op.Count? || op.Fail? || op.Close? || op.CloseLate?)
    ensures OutcomesOk(Do(p, op))
  {
    var i, y := p.workers[op.w].item, if op.Count? || op.Close? then Completed else Failed;
    assert WorkerOk(p, op.w) && ItemOk(p, i);
    assert Do(p, op).status == p.status[i := y];
    StatusUpdate(p.status, i, y, Failed);
    StatusUpdate(p.status, i, y, Completed);
  }

  lemma {:induction false} ExecOutcomes(p: Pool, ops: seq<Op>)
    requires Inv(p) && OutcomesOk(p) && Feasible(p, ops)
    ensures OutcomesOk(Exec(p, ops))
    decreases |ops|
  {
    if ops != [] {
      DoInv(p, ops[0]);
      DoOutcomes(p, ops[0]);
      ExecOutcomes(Do(p, ops[0]), ops[1..]);
    }
  }

  /** In every reachable pool `failed` is the number of failed items, and `completed` that of completed
      ones plus the late failures. */
  lemma CountersAreOutcomes(caps: G.Caps, maxsize: nat, workerCount: nat, p: Pool)
    requires Reachable(caps, maxsize, workerCount, p)
    ensures p.failed == StatusCount(p.status, Failed)
    ensures p.completed == StatusCount(p.status, Completed) + p.late
  {
    var start := Start(caps, maxsize, workerCount);
    var ops :| Feasible(start, ops) && Exec(start, ops) == p;
    StartInv(caps, maxsize, workerCount);
    ExecOutcomes(start, ops);
  }

  lemma FinishedStep(p: Pool, op: Op, i: nat)
    requires ItemsOk(p) && Can(p, op) && i < |p.done| && p.done[i]
    ensures i < |Do(p, op).status| && i < |Do(p, op).done|
    ensures Do(p, op).done[i] && Do(p, op).status[i] == p.status[i]
  {
    assert ItemOk(p, i);
    if op.Take? && p.log[p.taken].Work? {
      assert p.pos[p.log[p.taken].item] == p.taken;
    } else if op.Count? || op.Fail? || op.Close? || op.CloseLate? {
      assert WorkerOk(p, op.w);
    }
  }

  lemma {:induction false} FinishedStays(p: Pool, ops: seq<Op>, i: nat)
    requires Inv(p) && Feasible(p, ops) && i < |p.done| && p.done[i]
    ensures i < |Exec(p, ops).status| && i < |Exec(p, ops).done|
    ensures Exec(p, ops).done[i] && Exec(p, ops).status[i] == p.status[i]
    decreases |ops|
  {
    if ops != [] {
      FinishedStep(p, ops[0], i);
      DoInv(p, ops[0]);
      FinishedStays(Do(p, ops[0]), ops[1..], i);
    }
  }

  /** The outcome of an item is final: failed for ever if its batch raised, before or after it was
      counted, and completed for ever if its session closed. */
  lemma OutcomeIsFinal(p: Pool, op: Op, ops: seq<Op>)
    requires Inv(p) && Can(p, op) && (op.Fail? || op.Close? || op.CloseLate?) && Feasible(Do(p, op), ops)
    ensures var i, p' := p.workers[op.w].item, Exec(Do(p, op), ops);
      && i < |p'.status| && i < |p'.done| && p'.done[i]
      && p'.status[i] == (if op.Close? then Completed else Failed)
  {
    DoInv(p, op);
    FinishedStays(Do(p, op), ops, p.workers[op.w].item);
  }

  // ---- Requests, order and size of the queue ----

  /** From p to p' items and processes were only added. */
  ghost predicate Extends(p: Pool, p': Pool) {
    && p.proc <= p'.proc && |p.sys.procs| <= |p'.sys.procs|
    && forall j :: 0 <= j < |p.sys.procs| ==> p'.sys.procs[j].req == p.sys.procs[j].req
  }

  /** An item keeps its process, and a process its request. */
  lemma {:induction false} RequestsStay(p: Pool, ops: seq<Op>)
    requires Feasible(p, ops)
    ensures Extends(p, Exec(p, ops))
    decreases |ops|
  {
    if ops != [] {
      var p' := Do(p, ops[0]);
      assert Extends(p, p');
      RequestsStay(p', ops[1..]);
    }
  }

  /** An enqueued item asks the governor for its own family, district and job, from then on. */
  lemma ItemAsksForItself(p: Pool, req: G.Request, ops: seq<Op>)
    requires Can(p, Enqueue(req)) && Feasible(Do(p, Enqueue(req)), ops)
    ensures var i, p' := |p.proc|, Exec(Do(p, Enqueue(req)), ops);
      i < |p'.proc| && p'.proc[i] < |p'.sys.procs| && p'.sys.procs[p'.proc[i]].req == req
  {
    var p1 := Do(p, Enqueue(req));
    RequestsStay(p1, ops);
    assert p1.proc[|p.proc|] == |p.sys.procs|;
  }

  /** So the limits of the governor hold for the pool and all others together. */
  lemma PoolWithinCaps(caps: G.Caps, maxsize: nat, workerCount: nat, p: Pool, family: string, shard: string, job: string)
    requires Reachable(caps, maxsize, workerCount, p)
    ensures G.CountIf(p.sys.procs, (q: G.Proc) => q.phase.Active?) <= caps.global
    ensures G.CountIf(p.sys.procs, (q: G.Proc) => q.phase.Active? && q.req.family == family) <= caps.family
    ensures G.CountIf(p.sys.procs, (q: G.Proc) => q.phase.Active? && q.req.shard == shard) <= caps.district
    ensures job != "" ==>
      G.CountIf(p.sys.procs, (q: G.Proc) => q.phase.Active? && q.req.job == Some(job)) <= caps.job
  {
    ReachableInv(caps, maxsize, workerCount, p);
    G.InvWithinCaps(p.sys, family, shard, job);
  }

  /** Items stand in the log in the order they were enqueued, and a bounded queue keeps its bound. */
  predicate QueueOk(p: Pool, maxsize: nat) {
    && p.maxsize == maxsize && (maxsize > 0 ==> |p.log| - p.taken <= maxsize)
    && (forall i :: 0 <= i < |p.pos| ==> p.pos[i] < |p.log|)
    && (forall i, j :: 0 <= i < j < |p.pos| ==> p.pos[i] < p.pos[j])
  }

  lemma {:induction false} ExecQueueOk(p: Pool, maxsize: nat, ops: seq<Op>)
    requires QueueOk(p, maxsize) && Feasible(p, ops)
    ensures QueueOk(Exec(p, ops), maxsize)
    decreases |ops|
  {
    if ops != [] {
      ExecQueueOk(Do(p, ops[0]), maxsize, ops[1..]);
    }
  }

  /** First in, first out: when an item is taken, every item enqueued before it was; and the queue never
      holds more than its maximum. */
  lemma FirstInFirstOut(caps: G.Caps, maxsize: nat, workerCount: nat, p: Pool)
    requires Reachable(caps, maxsize, workerCount, p)
    ensures forall i, j :: 0 <= i < j < |p.pos| && p.pos[j] < p.taken ==> p.pos[i] < p.taken
    ensures maxsize > 0 ==> |p.log| - p.taken <= maxsize
  {
    var start := Start(caps, maxsize, workerCount);
    var ops :| Feasible(start, ops) && Exec(start, ops) == p;
    ExecQueueOk(start, maxsize, ops);
  }

  // ---- Drain ----

  /** `stop` has put its sentinels and every worker has returned. */
  predicate Stopped(p: Pool) {
    && p.stop.Stopping? && p.stop.left == 0
    && forall w :: 0 <= w < |p.workers| ==> p.workers[w].Exited?
  }

  /** The items enqueued before `stop` was called are finished, with `done` set. */
  predicate Drained(p: Pool)
    requires p.stop.Stopping? && |p.pos| == |p.done| == |p.status|
  {
    forall i :: 0 <= i < |p.pos| && p.pos[i] < p.stop.mark ==>
      p.done[i] && (p.status[i].Completed? || p.status[i].Failed?)
  }

  lemma StopTookMark(p: Pool)
    requires Inv(p) && Stopped(p) && |p.workers| >= 1
    ensures p.stop.mark <= p.taken
  {
    TallyBound(p.workers, Gone);
    var k := SentinelsWitness(p.log[..p.taken]);
    assert p.log[k].Sentinel?;
  }

  /** When `stop` returns, everything enqueued before it is finished if and only if the pool has a
      worker or there was nothing to finish. */
  lemma DrainedIff(caps: G.Caps, maxsize: nat, workerCount: nat, p: Pool)
    requires Reachable(caps, maxsize, workerCount, p) && Stopped(p)
    ensures |p.pos| == |p.done| == |p.status|
    ensures Drained(p) <==> workerCount >= 1 || forall i :: 0 <= i < |p.pos| ==> p.pos[i] >= p.stop.mark
  {
    ReachableInv(caps, maxsize, workerCount, p);
    if workerCount >= 1 {
      StopTookMark(p);
      forall i | 0 <= i < |p.pos| && p.pos[i] < p.stop.mark
        ensures p.done[i] && (p.status[i].Completed? || p.status[i].Failed?)
      {
        assert ItemOk(p, i);
      }
    } else {
      forall i | 0 <= i < |p.pos|
        ensures !p.done[i]
      {
        NoWorkerTakes(caps, maxsize, p);
        assert ItemOk(p, i);
      }
    }
  }

  lemma {:induction false} MarkStays(p: Pool, ops: seq<Op>)
    requires Feasible(p, ops) && p.stop.Stopping?
    ensures Exec(p, ops).stop.Stopping? && Exec(p, ops).stop.mark == p.stop.mark && p.pos <= Exec(p, ops).pos
    decreases |ops|
  {
    if ops != [] {
      var p' := Do(p, ops[0]);
      assert p'.stop.Stopping? && p'.stop.mark == p.stop.mark && p.pos <= p'.pos;
      MarkStays(p', ops[1..]);
    }
  }

  /** From the call of `stop` on: whatever is enqueued at that moment is completed or failed, with `done`
      set, when `stop` returns, if the pool has a worker. */
  lemma StopDrainsAll(p: Pool, ops: seq<Op>, i: nat)
    requires Inv(p) && |p.workers| >= 1 && Can(p, BeginStop) && i < |p.status|
    requires Feasible(Do(p, BeginStop), ops) && Stopped(Exec(Do(p, BeginStop), ops))
    ensures var p' := Exec(Do(p, BeginStop), ops);
      i < |p'.status| && i < |p'.done| && p'.done[i] && (p'.status[i] == Completed || p'.status[i] == Failed)
  {
    var p1 := Do(p, BeginStop);
    DoInv(p, BeginStop);
    ExecInv(p1, ops);
    MarkStays(p1, ops);
    var p' := Exec(p1, ops);
    StopTookMark(p');
    assert p'.pos[i] == p.pos[i] < |p.log|;
    assert ItemOk(p', i);
  }

  lemma {:induction false} NothingTaken(p: Pool, ops: seq<Op>)
    requires Feasible(p, ops) && |p.workers| == 0 && p.taken == 0
    ensures Exec(p, ops).taken == 0
    decreases |ops|
  {
    if ops != [] {
      NothingTaken(Do(p, ops[0]), ops[1..]);
    }
  }

  lemma NoWorkerTakes(caps: G.Caps, maxsize: nat, p: Pool)
    requires Reachable(caps, maxsize, 0, p)
    ensures p.taken == 0
  {
    var ops :| Feasible(Start(caps, maxsize, 0), ops) && Exec(Start(caps, maxsize, 0), ops) == p;
    NothingTaken(Start(caps, maxsize, 0), ops);
  }

  predicate Has(p: Pool, w: nat, i: nat) {
    w < |p.workers| && Is(p.workers[w], Busy) && p.workers[w].item == i
  }

  /** No entry is taken twice: each taken item has one taker, and while unfinished it is with it. */
  lemma TakenOnce(caps: G.Caps, maxsize: nat, workerCount: nat, p: Pool, i: nat)
    requires Reachable(caps, maxsize, workerCount, p) && i < |p.pos|
    ensures |p.takers| == p.taken <= |p.log| && |p.done| == |p.pos|
    ensures forall k, l :: 0 <= k < p.taken && 0 <= l < p.taken && p.log[k] == Work(i) == p.log[l] ==> k == l
    ensures p.pos[i] < p.taken && !p.done[i] ==> Has(p, p.takers[p.pos[i]], i)
    ensures forall v, w :: Has(p, v, i) && Has(p, w, i) ==> v == w
  {
    ReachableInv(caps, maxsize, workerCount, p);
    assert ItemOk(p, i);
    forall v, w | Has(p, v, i) && Has(p, w, i)
      ensures v == w
    {
      assert WorkerOk(p, v) && WorkerOk(p, w);
    }
  }

  // ---- Progress of stop ----

  ghost predicate CapsPositive(p: Pool) {
    forall s :: G.Cap(p.sys.g.caps, s) >= 1
  }

  /** New work of the pool, of an outside caller, or the call of `stop`. */
  predicate IsNew(op: Op) { op.Enqueue? || op.BeginStop? || op.Arrive? }

  /** The worker with an item whose process is inside and can move makes the next step. */
  lemma ItemCanMove(p: Pool, i: nat) returns (op: Op)
    requires Inv(p) && i < |p.proc|
    requires G.Inside(p.sys.procs[p.proc[i]]) && G.Enabled(p.sys, p.proc[i])
    ensures Can(p, op) && !IsNew(op)
  {
    assert ItemOk(p, i);
    var v := p.takers[p.pos[i]];
    assert WorkerOk(p, v);
    op := if p.workers[v].Closing? then Close(v)
          else if p.sys.procs[p.proc[i]].phase.Active? then Count(v) else Advance(v);
  }

  /** A busy pool is never stuck: some worker, or an outside caller that holds permits of the same
      governor, can make a step. */
  lemma BusyCanMove(p: Pool, w: nat) returns (op: Op)
    requires Inv(p) && CapsPositive(p)
    requires w < |p.workers| && Is(p.workers[w], Busy)
    ensures Can(p, op) && !IsNew(op)
  {
    var i := p.workers[w].item;
    assert WorkerOk(p, w) && ItemOk(p, i);
    assert G.LookedUp(p.sys.g, p.sys.procs[p.proc[i]]);
    if p.sys.procs[p.proc[i]].phase.Looking? {
      op := Advance(w);
    } else {
      var j := G.ChainEnd(p.sys, p.proc[i]);
      if IsOutside(p, j) {
        op := Outside(j);
      } else {
        var k :| 0 <= k < |p.proc| && p.proc[k] == j;
        op := ItemCanMove(p, k);
      }
    }
  }

  /** Until `stop` returns, a worker, `stop` itself or an outside caller can make a step. */
  lemma StopNotStuck(p: Pool) returns (op: Op)
    requires Inv(p) && CapsPositive(p) && p.stop.Stopping? && !Stopped(p)
    ensures Can(p, op) && !IsNew(op)
  {
    TallyBound(p.workers, Gone);
    if p.stop.left > 0 && HasRoom(p) {
      return PutSentinel;
    }
    assert p.stop.left > 0 ==> p.taken < |p.log|;
    assert exists w :: 0 <= w < |p.workers| && !Is(p.workers[w], Gone);
    var w :| 0 <= w < |p.workers| && !Is(p.workers[w], Gone);
    if p.workers[w].Idle? {
      if p.stop.left == 0 {
        assert Tally(p.workers, Gone) < |p.workers|;
        var k := SentinelsWitness(p.log[p.taken..]);
      }
      if p.log[p.taken].Work? {
        assert p.log[p.taken].item < |p.pos|;
      }
      op := Take(w);
    } else {
      op := BusyCanMove(p, w);
    }
  }

  /** What is left to do, for outside callers too, once `stop` was called and nothing new comes. */
  ghost function Measure(p: Pool): int {
    (if p.stop.Stopping? then 2 * p.stop.left else 0) + |p.log| - p.taken
    + 2 * G.Work(p.sys.procs) + |p.workers| - Tally(p.workers, Late)
  }

  lemma {:induction false} WorkNonNegative(ps: seq<G.Proc>)
    requires forall i :: 0 <= i < |ps| ==> G.PhaseOk(ps[i])
    ensures G.Work(ps) >= 0
  {
    if ps != [] {
      WorkNonNegative(ps[1..]);
    }
  }

  lemma MeasureFalls(p: Pool, op: Op)
    requires Inv(p) && Can(p, op) && !IsNew(op)
    ensures Measure(Do(p, op)) < Measure(p)
    ensures Do(p, op).stop.Stopping? == p.stop.Stopping?
  {
    var p' := Do(p, op);
    match op
    case PutSentinel =>
    case Take(w) => TallyUpdate(p.workers, w, p'.workers[w], Late);
    case Advance(w) => G.StepWork(p.sys, p.proc[p.workers[w].item]);
    case Count(w) => TallyUpdate(p.workers, w, p'.workers[w], Late);
    case Fail(w) =>
      G.StepWork(p.sys, p.proc[p.workers[w].item]);
      TallyUpdate(p.workers, w, Idle, Late);
    case Close(w) =>
      G.StepWork(p.sys, p.proc[p.workers[w].item]);
      TallyUpdate(p.workers, w, Idle, Late);
    case CloseLate(w) =>
      G.StepWork(p.sys, p.proc[p.workers[w].item]);
      TallyUpdate(p.workers, w, Idle, Late);
    case Outside(j) => G.StepWork(p.sys, j);
  }

  /** Once `stop` was called and nothing new comes, neither to the pool nor to the governor, every run is
      finite, and one that cannot be continued has stopped: `stop` returns, whatever the interleaving,
      the batch outcomes and the permits that outside callers hold when it is called. */
  lemma {:induction false} StopTerminates(p: Pool, ops: seq<Op>)
    requires Inv(p) && CapsPositive(p) && p.stop.Stopping?
    requires Feasible(p, ops)
    requires forall k :: 0 <= k < |ops| ==> !IsNew(ops[k])
    ensures |ops| <= Measure(p)
    ensures (forall op :: Can(Exec(p, ops), op) ==> IsNew(op)) ==> Stopped(Exec(p, ops))
    decreases |ops|
  {
    TallyBound(p.workers, Late);
    assert forall i :: 0 <= i < |p.sys.procs| ==> G.LookedUp(p.sys.g, p.sys.procs[i]);
    WorkNonNegative(p.sys.procs);
    if ops == [] {
      if !Stopped(p) {
        var op := StopNotStuck(p);
      }
    } else {
      DoInv(p, ops[0]);
      DoKeepsSize(p, ops[0]);
      MeasureFalls(p, ops[0]);
      StopTerminates(Do(p, ops[0]), ops[1..]);
    }
  }

  // ---- Where the laws need their conditions ----

  lemma {:induction false} ExecConcat(p: Pool, a: seq<Op>, b: seq<Op>)
    requires Feasible(p, a) && Feasible(Exec(p, a), b)
    ensures Feasible(p, a + b) && Exec(p, a + b) == Exec(Exec(p, a), b)
    decreases |a|
  {
    if a == [] {
      assert a + b == b;
    } else {
      assert (a + b)[1..] == a[1..] + b;
      ExecConcat(Do(p, a[0]), a[1..], b);
    }
  }

  lemma ReachOn(caps: G.Caps, maxsize: nat, workerCount: nat, p: Pool, ops: seq<Op>)
    requires Reachable(caps, maxsize, workerCount, p) && Feasible(p, ops)
    ensures Reachable(caps, maxsize, workerCount, Exec(p, ops))
  {
    var start := Start(caps, maxsize, workerCount);
    var before :| Feasible(start, before) && Exec(start, before) == p;
    ExecConcat(start, before, ops);
  }

  lemma ReachStep(caps: G.Caps, maxsize: nat, workerCount: nat, p: Pool, op: Op)
    requires Reachable(caps, maxsize, workerCount, p) && Can(p, op)
    ensures Reachable(caps, maxsize, workerCount, Do(p, op))
  {
    assert Exec(p, [op]) == Do(p, op);
    ReachOn(caps, maxsize, workerCount, p, [op]);
  }

  /** A worker alone with an item that is not active yet can go on with it. */
  lemma AloneAdvances(p: Pool, w: nat)
    requires Inv(p) && CapsPositive(p) && |p.sys.procs| == 1 && Serves(p, w) && !p.sys.procs[0].phase.Active?
    ensures Can(p, Advance(w)) && p.proc[p.workers[w].item] == 0
    ensures G.Remaining(G.Step(p.sys, 0).procs[0]) < G.Remaining(p.sys.procs[0])
    ensures |G.Step(p.sys, 0).procs| == 1 && 0 <= G.Remaining(p.sys.procs[0])
  {
    assert WorkerOk(p, w) && ItemOk(p, p.workers[w].item);
    assert G.LookedUp(p.sys.g, p.sys.procs[0]);
    if !p.sys.procs[0].phase.Looking? {
      var j := G.ChainEnd(p.sys, 0);
    }
  }

  /** It comes to hold all its permits. */
  lemma {:induction false} DriveToActive(p: Pool, w: nat) returns (ops: seq<Op>)
    requires Inv(p) && CapsPositive(p) && |p.sys.procs| == 1 && Serves(p, w)
    ensures Feasible(p, ops)
    ensures var p' := Exec(p, ops);
      p' == p.(sys := p'.sys) && |p'.sys.procs| == 1 && p'.sys.procs[0].phase.Active?
    decreases G.Remaining(p.sys.procs[0])
  {
    if p.sys.procs[0].phase.Active? {
      ops := [];
    } else {
      AloneAdvances(p, w);
      var p' := Do(p, Advance(w));
      DoInv(p, Advance(w));
      assert p' == p.(sys := G.Step(p.sys, 0)) && CapsPositive(p');
      var rest := DriveToActive(p', w);
      ops := [Advance(w)] + rest;
      assert ops[1..] == rest;
    }
  }

  /** One worker serves the only item. */
  predicate OneServed(p: Pool) {
    && p.workers == [Serving(0)] && p.proc == [0] && p.late == 0
    && |p.sys.procs| == |p.status| == |p.done| == 1
  }

  lemma OneTaken(caps: G.Caps, req: G.Request) returns (p: Pool)
    ensures Reachable(caps, 0, 1, p) && OneServed(p)
  {
    var p0 := Start(caps, 0, 1);
    assert Exec(p0, []) == p0;
    ReachStep(caps, 0, 1, p0, Enqueue(req));
    var p1 := Do(p0, Enqueue(req));
    ReachStep(caps, 0, 1, p1, Take(0));
    p := Do(p1, Take(0));
  }

  lemma OneActive(caps: G.Caps, req: G.Request) returns (p: Pool)
    requires caps.global >= 1 && caps.family >= 1 && caps.district >= 1 && caps.job >= 1
    ensures Reachable(caps, 0, 1, p) && OneServed(p) && p.sys.procs[0].phase.Active?
  {
    var p0 := OneTaken(caps, req);
    ReachableInv(caps, 0, 1, p0);
    var ops := DriveToActive(p0, 0);
    ReachOn(caps, 0, 1, p0, ops);
    p := Exec(p0, ops);
  }

  function CounterSum(p: Pool): int
    requires p.taken <= |p.log|
  {
    QueueDepth(p) + p.inFlight + p.completed + p.failed
  }

  /** The counters do exceed the enqueued items: for every request and all positive caps there is a
      pool with one item that its counters show twice while it closes. */
  lemma ClosingCountsTwice(caps: G.Caps, req: G.Request) returns (p: Pool)
    requires caps.global >= 1 && caps.family >= 1 && caps.district >= 1 && caps.job >= 1
    ensures Reachable(caps, 0, 1, p) && p.taken <= |p.log|
    ensures p.workers == [Closing(0)] && |p.proc| == 1 && p.late == 0 && CounterSum(p) == 2
    ensures Can(p, CloseLate(0))
  {
    var p0 := OneActive(caps, req);
    ReachStep(caps, 0, 1, p0, Count(0));
    p := Do(p0, Count(0));
    CounterLaw(caps, 0, 1, p);
    assert Tally([Closing(0)], Late) == 1 + Tally([], Late);
  }

  /** If closing raises, it shows twice for ever after. */
  lemma LateFailureCountsTwice(caps: G.Caps, req: G.Request) returns (p: Pool)
    requires caps.global >= 1 && caps.family >= 1 && caps.district >= 1 && caps.job >= 1
    ensures Reachable(caps, 0, 1, p) && p.taken <= |p.log|
    ensures p.workers == [Idle] && |p.proc| == 1 && CounterSum(p) == 2
  {
    var p0 := ClosingCountsTwice(caps, req);
    ReachStep(caps, 0, 1, p0, CloseLate(0));
    p := Do(p0, CloseLate(0));
    CounterLaw(caps, 0, 1, p);
    assert Tally([Idle], Late) == 0 + Tally([], Late);
  }

  /** A pool without workers does stop with an item undone. */
  lemma NoWorkerNoDrain(caps: G.Caps, req: G.Request) returns (p: Pool)
    ensures Reachable(caps, 0, 0, p) && Stopped(p)
    ensures |p.pos| == |p.done| == |p.status| == 1 && !Drained(p)
  {
    var p0 := Start(caps, 0, 0);
    assert Exec(p0, []) == p0;
    ReachStep(caps, 0, 0, p0, Enqueue(req));
    var p1 := Do(p0, Enqueue(req));
    ReachStep(caps, 0, 0, p1, BeginStop);
    p := Do(p1, BeginStop);
    assert p.pos[0] < p.stop.mark && !p.done[0];
  }

  // ---- The pool object ----

  /** The pool's own fields; the ghost `model` carries the governor and the history. */
  class CityWorkerPool {
    const maxsize: nat
    var queue: seq<Entry>
    var workers: seq<Worker>
    var status: seq<Status>
    var done: seq<bool>
    var completed: int
    var failed: int
    var inFlight: int
    ghost var model: Pool

    ghost predicate Valid()
      reads this
    {
      && model.maxsize == maxsize && model.taken <= |model.log| && |status| == |model.proc|
      && queue == model.log[model.taken..]
      && workers == model.workers && status == model.status && done == model.done
      && completed == model.completed && failed == model.failed && inFlight == model.inFlight
    }

    constructor (caps: G.Caps, maxsize: nat, workerCount: nat)
      ensures Valid() && model == Start(caps, maxsize, workerCount)
    {
      this.maxsize := maxsize;
      queue, status, done := [], [], [];
      workers := seq(workerCount, _ => Idle);
      completed, failed, inFlight := 0, 0, 0;
      model := Start(caps, maxsize, workerCount);
    }

    /** Outside callers of the governor change nothing in the pool. */
    ghost method OutsideMoves(op: Op)
      requires Valid() && Can(model, op) && (op.Arrive? || op.Outside?)
      modifies this`model
      ensures Valid() && model == Do(old(model), op)
    {
      model := Do(model, op);
    }

    /** `enqueue`, at the moment the queue has room. */
    method EnqueueItem(req: G.Request) returns (item: nat)
      requires Valid() && (maxsize == 0 || |queue| < maxsize)
      modifies this
      ensures Valid() && model == Do(old(model), Enqueue(req)) && item == |old(status)|
      ensures queue == old(queue) + [Work(item)] && status == old(status) + [Queued] && done == old(done) + [false]
      ensures completed == old(completed) && failed == old(failed) && inFlight == old(inFlight)
    {
      item := |status|;
      queue := queue + [Work(item)];
      status := status + [Queued];
      done := done + [false];
      model := Do(model, Enqueue(req));
    }

    /** One `put(None)` of `stop`. */
    method PutStopSentinel()
      requires Valid() && Can(model, PutSentinel)
      modifies this
      ensures Valid() && model == Do(old(model), PutSentinel)
      ensures queue == old(queue) + [Sentinel] && status == old(status) && done == old(done)
    {
      queue := queue + [Sentinel];
      model := Do(model, PutSentinel);
    }

    /** `queue.get()` and the lines up to `governor.acquire`; a sentinel ends the worker. */
    method TakeNext(w: nat) returns (more: bool)
      requires Valid() && Can(model, Take(w))
      modifies this
      ensures Valid() && old(queue) != [] && model == Do(old(model), Take(w))
      ensures more <==> old(queue)[0].Work?
      ensures queue == old(queue)[1..] && done == old(done) && completed == old(completed) && failed == old(failed)
      ensures more ==> var i := old(queue)[0].item;
        && i < |old(status)| && status == old(status)[i := Running]
        && workers == old(workers)[w := Serving(i)] && inFlight == old(inFlight) + 1
      ensures !more ==> workers == old(workers)[w := Exited] && status == old(status) && inFlight == old(inFlight)
    {
      assert queue[0] == model.log[model.taken];
      var e := queue[0];
      queue := queue[1..];
      more := e.Work?;
      if more {
        status := status[e.item := Running];
        workers := workers[w := Serving(e.item)];
        inFlight := inFlight + 1;
      } else {
        workers := workers[w := Exited];
      }
      model := Do(model, Take(w));
    }

    /** The `except` and `finally` blocks for a batch that raised before it was counted. */
    method FailItem(w: nat)
      requires Valid() && Can(model, Fail(w))
      modifies this
      ensures Valid() && model == Do(old(model), Fail(w))
      ensures var i := old(workers)[w].item;
        && status == old(status)[i := Failed] && done == old(done)[i := true] && workers == old(workers)[w := Idle]
      ensures failed == old(failed) + 1 && completed == old(completed) && inFlight == G.Max0(old(inFlight) - 1)
    {
      var i := workers[w].item;
      status := status[i := Failed];
      failed := failed + 1;
      inFlight := G.Max0(inFlight - 1);
      done := done[i := true];
      workers := workers[w := Idle];
      model := Do(model, Fail(w));
    }

    /** The batch succeeded: count it. */
    method CountItem(w: nat)
      requires Valid() && Can(model, Count(w))
      modifies this
      ensures Valid() && model == Do(old(model), Count(w))
      ensures var i := old(workers)[w].item;
        status == old(status)[i := Completed] && workers == old(workers)[w := Closing(i)] && done == old(done)
      ensures completed == old(completed) + 1 && failed == old(failed) && inFlight == old(inFlight)
    {
      var i := workers[w].item;
      status := status[i := Completed];
      completed := completed + 1;
      workers := workers[w := Closing(i)];
      model := Do(model, Count(w));
    }

    /** The session closed, with or without raising, and the `finally` block ran. */
    method CloseItem(w: nat, raised: bool)
      requires Valid() && Can(model, Close(w))
      modifies this
      ensures Valid() && model == Do(old(model), if raised then CloseLate(w) else Close(w))
      ensures var i := old(workers)[w].item;
        && status == old(status)[i := if raised then Failed else Completed]
        && done == old(done)[i := true] && workers == old(workers)[w := Idle]
      ensures failed == old(failed) + (if raised then 1 else 0) && completed == old(completed)
      ensures inFlight == G.Max0(old(inFlight) - 1)
    {
      var i := workers[w].item;
      if raised {
        status := status[i := Failed];
        failed := failed + 1;
      } else {
        status := status[i := Completed];
      }
      inFlight := G.Max0(inFlight - 1);
      done := done[i := true];
      workers := workers[w := Idle];
      model := Do(model, if raised then CloseLate(w) else Close(w));
    }
  }
}
