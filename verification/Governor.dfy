/**
 The concurrency governor of the communal city: four nested semaphores (global, family,
 district shard, job) that a request takes in one fixed order and gives back together.

 A request is a process whose phases are the stretches of `acquire` / `release` between two
 points where the event loop may switch tasks. A run is a schedule: the sequence of process
 numbers that move. Which waiter a semaphore wakes is left open, so every FIFO run is a run here.
 */
module Governor {
  import opened Prelude
  import opened Text

  // ---- Semaphores and requests ----

  datatype Caps = Caps(global: nat, family: nat, district: nat, job: nat)

  /** A semaphore's key: the governor keeps one dictionary per kind, joined here into one. */
  datatype Sem = Global | Family(id: string) | District(shard: string) | Job(id: string)

  datatype Request = Request(family: string, shard: string, job: Option<string>)

  function Cap(c: Caps, s: Sem): nat {
    match s
    case Global => c.global
    case Family(_) => c.family
    case District(_) => c.district
    case Job(_) => c.job
  }

  function Level(s: Sem): nat {
    match s
    case Global => 0
    case Family(_) => 1
    case District(_) => 2
    case Job(_) => 3
  }

  /** The semaphores of a request, in the order in which `acquire` takes them.
      A missing or empty job id means that no job semaphore is taken. */
  function Route(r: Request): (route: seq<Sem>)
    ensures 3 <= |route| <= 4
    ensures Ordered(route)
  {
    [Global, Family(r.family), District(r.shard)]
    + (if r.job.Some? && r.job.value != "" then [Job(r.job.value)] else [])
  }

  /** Whether a semaphore is on the route of a request. */
  predicate OnRoute(r: Request, s: Sem) { InRoute(Route(r), s) }

  predicate InRoute(route: seq<Sem>, s: Sem) {
    Level(s) < |route| && route[Level(s)] == s
  }

  predicate Ordered(route: seq<Sem>) {
    forall i :: 0 <= i < |route| ==> Level(route[i]) == i
  }

  // ---- The governor's fields as a value ----

  datatype State = State(caps: Caps, free: map<Sem, int>, active: map<Sem, int>)

  function Get(m: map<Sem, int>, s: Sem, default: int): int {
    if s in m then m[s] else default
  }

  /** Permits left in a semaphore; one that is not created yet counts as full. */
  function Free(g: State, s: Sem): int { Get(g.free, s, Cap(g.caps, s)) }

  /** The `active_*` counter that goes with a semaphore. */
  function ActiveCounter(g: State, s: Sem): int { Get(g.active, s, 0) }

  function Fresh(caps: Caps): State { State(caps, map[Global := caps.global], map[Global := 0]) }

  // ---- Atomic stretches of acquire and release ----

  /** `_family_sem`, `_district_sem`, `_job_sem`: create the semaphore on first use. */
  function EnsureSem(g: State, s: Sem): State {
    if s in g.free then g else g.(free := g.free[s := Cap(g.caps, s)])
  }

  /** One permit of a created semaphore is taken. */
  function TakePermit(g: State, s: Sem): State
    requires s in g.free
  {
    g.(free := g.free[s := g.free[s] - 1])
  }

  /** The counters after all semaphores are held. */
  function Enter(g: State, r: Request): State {
    g.(active := map s | s in g.active.Keys + RouteSet(r) ::
                   Get(g.active, s, 0) + (if OnRoute(r, s) then 1 else 0))
  }

  function RouteSet(r: Request): (sems: set<Sem>)
    ensures forall s :: s in sems <==> OnRoute(r, s)
  {
    set s | s in Route(r)
  }

  function Max0(x: int): int { if x < 0 then 0 else x }

  /** `release`: one permit back to each semaphore that exists, each counter down by one but
      not below zero. */
  function Leave(g: State, r: Request): State {
    g.(free := map s | s in g.free :: g.free[s] + (if OnRoute(r, s) then 1 else 0),
       active := map s | s in g.active ::
                   if OnRoute(r, s) then Max0(g.active[s] - 1) else g.active[s])
  }

  // ---- Processes and runs ----

  /** `Looking(k)`: k semaphores beyond the global one were looked up.
      `Holding(k)`: the first k permits of the route are held.
      `Active`: counters bumped, work under way. */
  datatype Phase = Looking(k: nat) | Holding(n: nat) | Active | Done

  datatype Proc = Proc(req: Request, phase: Phase)

  datatype System = System(g: State, procs: seq<Proc>)

  predicate PhaseOk(p: Proc) {
    match p.phase
    case Looking(k) => k < |Route(p.req)| - 1
    case Holding(n) => n <= |Route(p.req)|
    case _ => true
  }

  /** How many permits, from the front of its route, a process holds. */
  function HeldCount(p: Proc): nat {
    match p.phase
    case Looking(_) => 0
    case Holding(n) => n
    case Active => |Route(p.req)|
    case Done => 0
  }

  predicate Holds(p: Proc, s: Sem) {
    Level(s) < HeldCount(p) && OnRoute(p.req, s)
  }

  predicate ActiveOn(p: Proc, s: Sem) {
    p.phase.Active? && Holds(p, s)
  }

  /** The semaphore a process waits for. */
  function WaitsFor(p: Proc): Option<Sem> {
    if p.phase.Holding? && p.phase.n < |Route(p.req)| then Some(Route(p.req)[p.phase.n]) else None
  }

  /** Atomic steps a process still has to make. */
  function Remaining(p: Proc): int {
    var m := |Route(p.req)|;
    match p.phase
    case Looking(k) => 2 * m + 1 - k
    case Holding(n) => m + 2 - n
    case Active => 1
    case Done => 0
  }

  predicate Enabled(sys: System, i: nat) {
    i < |sys.procs| && PhaseOk(sys.procs[i]) &&
    var p := sys.procs[i];
    match p.phase
    case Looking(_) => true
    case Holding(n) =>
      n < |Route(p.req)| ==> Route(p.req)[n] in sys.g.free && sys.g.free[Route(p.req)[n]] > 0
    case Active => true
    case Done => false
  }

  function Step(sys: System, i: nat): System
    requires Enabled(sys, i)
  {
    var p := sys.procs[i];
    var route := Route(p.req);
    var (g, phase) :=
      match p.phase
      case Looking(k) =>
        (EnsureSem(sys.g, route[k + 1]), if k + 2 < |route| then Looking(k + 1) else Holding(0))
      case Holding(n) =>
        if n < |route| then (TakePermit(sys.g, route[n]), Holding(n + 1))
        else (Enter(sys.g, p.req), Active)
      case Active => (Leave(sys.g, p.req), Done);
    System(g, sys.procs[i := Proc(p.req, phase)])
  }

  function Init(caps: Caps, reqs: seq<Request>): System {
    System(Fresh(caps), seq(|reqs|, i requires 0 <= i < |reqs| => Proc(reqs[i], Looking(0))))
  }

  predicate Feasible(sys: System, schedule: seq<nat>)
    decreases |schedule|
  {
    schedule == [] ||
    (Enabled(sys, schedule[0]) && Feasible(Step(sys, schedule[0]), schedule[1..]))
  }

  function Exec(sys: System, schedule: seq<nat>): System
    requires Feasible(sys, schedule)
    decreases |schedule|
  {
    if schedule == [] then sys else Exec(Step(sys, schedule[0]), schedule[1..])
  }

  // ---- Counting holders ----

  predicate Marked(p: Proc, s: Sem, activeOnly: bool) {
    if activeOnly then ActiveOn(p, s) else Holds(p, s)
  }

  function Count(ps: seq<Proc>, s: Sem, activeOnly: bool): nat {
    if ps == [] then 0
    else (if Marked(ps[0], s, activeOnly) then 1 else 0) + Count(ps[1..], s, activeOnly)
  }

  function Holders(ps: seq<Proc>, s: Sem): nat { Count(ps, s, false) }

  function ActiveHolders(ps: seq<Proc>, s: Sem): nat { Count(ps, s, true) }

  lemma {:induction false} CountUpdate(ps: seq<Proc>, i: nat, q: Proc, s: Sem, a: bool)
    requires i < |ps|
    ensures Count(ps[i := q], s, a)
         == Count(ps, s, a) - (if Marked(ps[i], s, a) then 1 else 0) + (if Marked(q, s, a) then 1 else 0)
  {
    if i == 0 {
      assert ps[0 := q][1..] == ps[1..];
    } else {
      assert ps[i := q][1..] == ps[1..][i - 1 := q];
      CountUpdate(ps[1..], i - 1, q, s, a);
    }
  }

  lemma {:induction false} CountAppend(ps: seq<Proc>, q: Proc, s: Sem, a: bool)
    ensures Count(ps + [q], s, a) == Count(ps, s, a) + (if Marked(q, s, a) then 1 else 0)
  {
    if ps != [] {
      assert (ps + [q])[1..] == ps[1..] + [q];
      CountAppend(ps[1..], q, s, a);
    }
  }

  lemma {:induction false} CountWitness(ps: seq<Proc>, s: Sem, a: bool) returns (i: nat)
    requires Count(ps, s, a) > 0
    ensures i < |ps| && Marked(ps[i], s, a)
  {
    if Marked(ps[0], s, a) {
      i := 0;
    } else {
      var j := CountWitness(ps[1..], s, a);
      i := j + 1;
    }
  }

  lemma {:induction false} CountMember(ps: seq<Proc>, i: nat, s: Sem, a: bool)
    requires i < |ps| && Marked(ps[i], s, a)
    ensures Count(ps, s, a) > 0
  {
    if i > 0 {
      CountMember(ps[1..], i - 1, s, a);
    }
  }

  lemma {:induction false} ActiveAtMostHolders(ps: seq<Proc>, s: Sem)
    ensures ActiveHolders(ps, s) <= Holders(ps, s)
  {
    if ps != [] {
      ActiveAtMostHolders(ps[1..], s);
    }
  }

  lemma {:induction false} NobodyMarked(ps: seq<Proc>, s: Sem, a: bool)
    requires forall i :: 0 <= i < |ps| ==> !Marked(ps[i], s, a)
    ensures Count(ps, s, a) == 0
  {
    if ps != [] {
      NobodyMarked(ps[1..], s, a);
    }
  }

  // ---- Sum of the counters of one kind ----

  ghost function AnyKey(m: map<Sem, int>): (k: Sem)
    requires m != map[]
    ensures k in m
  {
    var k :| k in m; k
  }

  ghost function Total(m: map<Sem, int>): int
    decreases m.Keys
  {
    if m == map[] then 0 else m[AnyKey(m)] + Total(m - {AnyKey(m)})
  }

  /** The counters of one kind: one of the governor's `active_by_*` dictionaries. */
  function OfLevel(m: map<Sem, int>, level: nat): map<Sem, int> {
    map s | s in m && Level(s) == level :: m[s]
  }

  lemma {:induction false} TotalRemove(m: map<Sem, int>, k: Sem)
    requires k in m
    ensures Total(m) == m[k] + Total(m - {k})
    decreases m.Keys
  {
    var j := AnyKey(m);
    if j != k {
      TotalRemove(m - {j}, k);
      TotalRemove(m - {k}, j);
      assert m - {j} - {k} == m - {k} - {j};
    }
  }

  lemma TotalUpdate(m: map<Sem, int>, k: Sem, v: int)
    ensures Total(m[k := v]) == Total(m) - Get(m, k, 0) + v
  {
    TotalRemove(m[k := v], k);
    assert m[k := v] - {k} == m - {k};
    if k in m {
      TotalRemove(m, k);
    } else {
      assert m - {k} == m;
    }
  }

  // ---- The invariant of every run ----

  /** Free permits plus holders is the cap, and the counter is the number of active holders. */
  ghost predicate Balanced(sys: System, s: Sem) {
    && Free(sys.g, s) + Holders(sys.procs, s) == Cap(sys.g.caps, s)
    && Free(sys.g, s) >= 0
    && ActiveCounter(sys.g, s) == ActiveHolders(sys.procs, s)
  }

  /** The family counters and the district counters each add up to `active_global`. */
  ghost predicate SumsAgree(g: State) {
    && Total(OfLevel(g.active, 1)) == ActiveCounter(g, Global)
    && Total(OfLevel(g.active, 2)) == ActiveCounter(g, Global)
  }

  /** The semaphores a process looked up exist, and so do the counters of an active one. */
  ghost predicate LookedUp(g: State, p: Proc) {
    var n := match p.phase case Looking(k) => k + 1 case _ => |Route(p.req)|;
    && PhaseOk(p)
    && (forall s :: OnRoute(p.req, s) && Level(s) < n ==> s in g.free)
    && (p.phase.Active? ==> forall s :: OnRoute(p.req, s) ==> s in g.active)
  }

  ghost predicate Inv(sys: System) {
    && Global in sys.g.free
    && (forall s :: Balanced(sys, s))
    && SumsAgree(sys.g)
    && (forall i :: 0 <= i < |sys.procs| ==> LookedUp(sys.g, sys.procs[i]))
  }

  lemma InitInv(caps: Caps, reqs: seq<Request>)
    ensures Inv(Init(caps, reqs))
  {
    var sys := Init(caps, reqs);
    forall s
      ensures Balanced(sys, s)
    {
      NobodyMarked(sys.procs, s, false);
      NobodyMarked(sys.procs, s, true);
    }
    assert OfLevel(sys.g.active, 1) == map[] == OfLevel(sys.g.active, 2);
  }

  /** An active process counts in each of its counters. */
  lemma ActiveCounterPositive(sys: System, i: nat, s: Sem)
    requires Inv(sys) && i < |sys.procs| && sys.procs[i].phase.Active? && OnRoute(sys.procs[i].req, s)
    ensures s in sys.g.active && sys.g.active[s] > 0
  {
    assert LookedUp(sys.g, sys.procs[i]);
    CountMember(sys.procs, i, s, true);
    assert Balanced(sys, s);
  }

  /** Replacing process i and moving the counts of semaphore t by the same amounts keeps the balance. */
  lemma ShiftBalance(sys: System, i: nat, q: Proc, g': State, t: Sem)
    requires i < |sys.procs| && Balanced(sys, t) && g'.caps == sys.g.caps && Free(g', t) >= 0
    requires Free(g', t) == Free(sys.g, t) + (if Holds(sys.procs[i], t) then 1 else 0) - (if Holds(q, t) then 1 else 0)
    requires ActiveCounter(g', t)
          == ActiveCounter(sys.g, t) - (if ActiveOn(sys.procs[i], t) then 1 else 0) + (if ActiveOn(q, t) then 1 else 0)
    ensures Balanced(System(g', sys.procs[i := q]), t)
  {
    CountUpdate(sys.procs, i, q, t, false);
    CountUpdate(sys.procs, i, q, t, true);
  }

  lemma EnterEffect(g: State, r: Request, t: Sem)
    ensures Free(Enter(g, r), t) == Free(g, t)
    ensures ActiveCounter(Enter(g, r), t) == ActiveCounter(g, t) + (if OnRoute(r, t) then 1 else 0)
  {
  }

  lemma LeaveEffect(g: State, r: Request, t: Sem)
    requires OnRoute(r, t) ==> t in g.free && t in g.active && g.active[t] > 0
    ensures Free(Leave(g, r), t) == Free(g, t) + (if OnRoute(r, t) then 1 else 0)
    ensures ActiveCounter(Leave(g, r), t) == ActiveCounter(g, t) - (if OnRoute(r, t) then 1 else 0)
  {
  }

  lemma LookBalance(sys: System, i: nat, t: Sem)
    requires Enabled(sys, i) && Balanced(sys, t) && sys.procs[i].phase.Looking?
    ensures Balanced(Step(sys, i), t)
  {
    var p := sys.procs[i];
    var s := Route(p.req)[p.phase.k + 1];
    assert Free(EnsureSem(sys.g, s), t) == Free(sys.g, t);
    ShiftBalance(sys, i, Step(sys, i).procs[i], EnsureSem(sys.g, s), t);
  }

  lemma TakeBalance(sys: System, i: nat, t: Sem)
    requires Enabled(sys, i) && Balanced(sys, t) && WaitsFor(sys.procs[i]).Some?
    ensures Balanced(Step(sys, i), t)
  {
    var p := sys.procs[i];
    var q := Proc(p.req, Holding(p.phase.n + 1));
    var s := Route(p.req)[p.phase.n];
    assert Holds(q, t) <==> Holds(p, t) || t == s;
    ShiftBalance(sys, i, q, TakePermit(sys.g, s), t);
  }

  lemma EnterBalance(sys: System, i: nat, t: Sem)
    requires Enabled(sys, i) && Balanced(sys, t)
    requires sys.procs[i].phase == Holding(|Route(sys.procs[i].req)|)
    ensures Balanced(Step(sys, i), t)
  {
    var p := sys.procs[i];
    EnterEffect(sys.g, p.req, t);
    ShiftBalance(sys, i, Proc(p.req, Active), Enter(sys.g, p.req), t);
  }

  lemma LeaveBalance(sys: System, i: nat, t: Sem)
    requires Enabled(sys, i) && Balanced(sys, t) && sys.procs[i].phase.Active?
    requires OnRoute(sys.procs[i].req, t) ==> t in sys.g.free && t in sys.g.active && sys.g.active[t] > 0
    ensures Balanced(Step(sys, i), t)
  {
    var p := sys.procs[i];
    LeaveEffect(sys.g, p.req, t);
    ShiftBalance(sys, i, Proc(p.req, Done), Leave(sys.g, p.req), t);
  }

  /** One step keeps the balance of one semaphore. */
  lemma StepBalance(sys: System, i: nat, t: Sem)
    requires Inv(sys) && Enabled(sys, i)
    ensures Balanced(Step(sys, i), t)
  {
    var p := sys.procs[i];
    assert Balanced(sys, t);
    if p.phase.Looking? {
      LookBalance(sys, i, t);
    } else if WaitsFor(p).Some? {
      TakeBalance(sys, i, t);
    } else if p.phase.Holding? {
      EnterBalance(sys, i, t);
    } else {
      if OnRoute(p.req, t) {
        assert LookedUp(sys.g, p);
        ActiveCounterPositive(sys, i, t);
      }
      LeaveBalance(sys, i, t);
    }
  }

  lemma SumShift(m: map<Sem, int>, m': map<Sem, int>, k: Sem, d: int)
    requires k in m' && m'[k] == Get(m, k, 0) + d
    requires forall s :: Level(s) == Level(k) && s != k ==> (s in m <==> s in m')
    requires forall s :: Level(s) == Level(k) && s != k && s in m ==> m'[s] == m[s]
    ensures Total(OfLevel(m', Level(k))) == Total(OfLevel(m, Level(k))) + d
  {
    assert OfLevel(m', Level(k)) == OfLevel(m, Level(k))[k := m'[k]];
    TotalUpdate(OfLevel(m, Level(k)), k, m'[k]);
  }

  lemma EnterSum(g: State, r: Request, k: Sem)
    requires OnRoute(r, k)
    ensures Total(OfLevel(Enter(g, r).active, Level(k))) == Total(OfLevel(g.active, Level(k))) + 1
  {
    SumShift(g.active, Enter(g, r).active, k, 1);
  }

  lemma LeaveSum(g: State, r: Request, k: Sem)
    requires OnRoute(r, k) && k in g.active && g.active[k] > 0
    ensures Total(OfLevel(Leave(g, r).active, Level(k))) == Total(OfLevel(g.active, Level(k))) - 1
  {
    SumShift(g.active, Leave(g, r).active, k, -1);
  }

  /** One step keeps both dictionary sums equal to `active_global`. */
  lemma StepSums(sys: System, i: nat)
    requires Inv(sys) && Enabled(sys, i)
    ensures SumsAgree(Step(sys, i).g)
  {
    var p := sys.procs[i];
    var f, d := Family(p.req.family), District(p.req.shard);
    assert OnRoute(p.req, Global) && OnRoute(p.req, f) && OnRoute(p.req, d);
    match p.phase
    case Looking(k) =>
    case Holding(n) =>
      EnterSum(sys.g, p.req, f);
      EnterSum(sys.g, p.req, d);
      EnterEffect(sys.g, p.req, Global);
    case Active =>
      ActiveCounterPositive(sys, i, Global);
      ActiveCounterPositive(sys, i, f);
      ActiveCounterPositive(sys, i, d);
      assert LookedUp(sys.g, p);
      LeaveSum(sys.g, p.req, f);
      LeaveSum(sys.g, p.req, d);
      LeaveEffect(sys.g, p.req, Global);
  }

  lemma StepInv(sys: System, i: nat)
    requires Inv(sys) && Enabled(sys, i)
    ensures Inv(Step(sys, i)) && Step(sys, i).g.caps == sys.g.caps
  {
    var sys' := Step(sys, i);
    assert LookedUp(sys.g, sys.procs[i]);
    forall t
      ensures Balanced(sys', t)
    {
      StepBalance(sys, i, t);
    }
    StepSums(sys, i);
    forall j | 0 <= j < |sys'.procs|
      ensures LookedUp(sys'.g, sys'.procs[j])
    {
      assert LookedUp(sys.g, sys.procs[j]);
    }
  }

  lemma {:induction false} ExecInv(sys: System, schedule: seq<nat>)
    requires Inv(sys) && Feasible(sys, schedule)
    ensures Inv(Exec(sys, schedule)) && Exec(sys, schedule).g.caps == sys.g.caps
    decreases |schedule|
  {
    if schedule != [] {
      StepInv(sys, schedule[0]);
      ExecInv(Step(sys, schedule[0]), schedule[1..]);
    }
  }

  // ---- Safety of every run ----

  ghost predicate Reachable(caps: Caps, reqs: seq<Request>, sys: System) {
    exists schedule :: Feasible(Init(caps, reqs), schedule) && Exec(Init(caps, reqs), schedule) == sys
  }

  lemma ReachableInv(caps: Caps, reqs: seq<Request>, sys: System)
    requires Reachable(caps, reqs, sys)
    ensures Inv(sys) && sys.g.caps == caps
  {
    var schedule :| Feasible(Init(caps, reqs), schedule) && Exec(Init(caps, reqs), schedule) == sys;
    InitInv(caps, reqs);
    ExecInv(Init(caps, reqs), schedule);
  }

  /** At every step of every run, free permits plus holders is the cap of each semaphore; so the
      counters stay between zero and the cap, and family and district counters add up. */
  lemma PermitConservation(caps: Caps, reqs: seq<Request>, sys: System, s: Sem)
    requires Reachable(caps, reqs, sys)
    ensures Free(sys.g, s) + Holders(sys.procs, s) == Cap(caps, s)
    ensures 0 <= ActiveCounter(sys.g, s) <= Holders(sys.procs, s) <= Cap(caps, s)
    ensures SumsAgree(sys.g)
  {
    ReachableInv(caps, reqs, sys);
    assert Balanced(sys, s);
    ActiveAtMostHolders(sys.procs, s);
  }

  // ---- The limits, in the fields of requests and caps ----

  /** Which semaphores a request takes, and in which order: the global one, its family's, its shard's,
      and its job's if it names one. */
  lemma OnRouteIff(r: Request, s: Sem)
    ensures OnRoute(r, s) <==>
      || s == Global || s == Family(r.family) || s == District(r.shard)
      || (s.Job? && r.job == Some(s.id) && s.id != "")
    ensures Route(r)[..3] == [Global, Family(r.family), District(r.shard)]
    ensures |Route(r)| == 4 <==> exists j :: r.job == Some(j) && j != ""
    ensures |Route(r)| == 4 ==> Route(r)[3] == Job(r.job.value)
  {
    assert r.job.Some? ==> r.job == Some(r.job.value);
  }

  function CountIf(ps: seq<Proc>, f: Proc -> bool): nat {
    if ps == [] then 0 else (if f(ps[0]) then 1 else 0) + CountIf(ps[1..], f)
  }

  lemma {:induction false} ActiveHoldersAre(ps: seq<Proc>, s: Sem, f: Proc -> bool)
    requires forall p: Proc :: f(p) <==> p.phase.Active? && OnRoute(p.req, s)
    ensures CountIf(ps, f) == ActiveHolders(ps, s)
  {
    if ps != [] {
      ActiveHoldersAre(ps[1..], s, f);
    }
  }

  /** The limits hold in every reachable state: of all requests at most `global` are active, of one
      family at most `family`, of one shard at most `district`, and of one job at most `job`. */
  lemma ActiveWithinCaps(caps: Caps, reqs: seq<Request>, sys: System, family: string, shard: string, job: string)
    requires Reachable(caps, reqs, sys)
    ensures CountIf(sys.procs, (p: Proc) => p.phase.Active?) <= caps.global
    ensures CountIf(sys.procs, (p: Proc) => p.phase.Active? && p.req.family == family) <= caps.family
    ensures CountIf(sys.procs, (p: Proc) => p.phase.Active? && p.req.shard == shard) <= caps.district
    ensures job != "" ==>
      CountIf(sys.procs, (p: Proc) => p.phase.Active? && p.req.job == Some(job)) <= caps.job
  {
    ReachableInv(caps, reqs, sys);
    InvWithinCaps(sys, family, shard, job);
  }

  lemma InvWithinCaps(sys: System, family: string, shard: string, job: string)
    requires Inv(sys)
    ensures CountIf(sys.procs, (p: Proc) => p.phase.Active?) <= sys.g.caps.global
    ensures CountIf(sys.procs, (p: Proc) => p.phase.Active? && p.req.family == family) <= sys.g.caps.family
    ensures CountIf(sys.procs, (p: Proc) => p.phase.Active? && p.req.shard == shard) <= sys.g.caps.district
    ensures job != "" ==>
      CountIf(sys.procs, (p: Proc) => p.phase.Active? && p.req.job == Some(job)) <= sys.g.caps.job
  {
    ActiveAtMostCap(sys, Global, (p: Proc) => p.phase.Active?);
    ActiveAtMostCap(sys, Family(family), (p: Proc) => p.phase.Active? && p.req.family == family);
    ActiveAtMostCap(sys, District(shard), (p: Proc) => p.phase.Active? && p.req.shard == shard);
    if job != "" {
      ActiveAtMostCap(sys, Job(job), (p: Proc) => p.phase.Active? && p.req.job == Some(job));
    }
  }

  lemma ActiveAtMostCap(sys: System, s: Sem, f: Proc -> bool)
    requires Inv(sys) && s != Job("")
    requires forall p: Proc :: f(p) <==> (
      p.phase.Active? && (s == Global || s == Family(p.req.family) || s == District(p.req.shard)
                          || (s.Job? && p.req.job == Some(s.id))))
    ensures CountIf(sys.procs, f) <= Cap(sys.g.caps, s)
  {
    forall p: Proc
      ensures f(p) <==> p.phase.Active? && OnRoute(p.req, s)
    {
      OnRouteIff(p.req, s);
    }
    ActiveHoldersAre(sys.procs, s, f);
    ActiveAtMostHolders(sys.procs, s);
    assert Balanced(sys, s);
  }

  /** `release` without its `max(0, ...)` clamps and its missing-key tests. */
  function LeaveExactly(g: State, r: Request): State
    requires forall s :: OnRoute(r, s) ==> s in g.free && s in g.active
  {
    g.(free := map s | s in g.free.Keys + RouteSet(r) :: g.free[s] + (if OnRoute(r, s) then 1 else 0),
       active := map s | s in g.active.Keys + RouteSet(r) :: g.active[s] - (if OnRoute(r, s) then 1 else 0))
  }

  /** In every reachable state the clamps of `release` never bite: whenever a process is about to
      release, its semaphores and counters exist and each counter is positive. */
  lemma ClampsNeverBite(caps: Caps, reqs: seq<Request>, sys: System, i: nat)
    requires Reachable(caps, reqs, sys)
    requires i < |sys.procs| && sys.procs[i].phase.Active?
    ensures forall s :: OnRoute(sys.procs[i].req, s) ==> s in sys.g.free && s in sys.g.active
    ensures Leave(sys.g, sys.procs[i].req) == LeaveExactly(sys.g, sys.procs[i].req)
  {
    ReachableInv(caps, reqs, sys);
    assert LookedUp(sys.g, sys.procs[i]);
    forall s | OnRoute(sys.procs[i].req, s)
      ensures s in sys.g.active && sys.g.active[s] > 0
    {
      ActiveCounterPositive(sys, i, s);
    }
    ExactLeave(sys.g, sys.procs[i].req);
  }

  lemma ExactLeave(g: State, r: Request)
    requires forall s :: OnRoute(r, s) ==> s in g.free && s in g.active && g.active[s] > 0
    ensures Leave(g, r) == LeaveExactly(g, r)
  {
    assert g.free.Keys + RouteSet(r) == g.free.Keys;
    assert g.active.Keys + RouteSet(r) == g.active.Keys;
    assert Leave(g, r).free == LeaveExactly(g, r).free;
    assert Leave(g, r).active == LeaveExactly(g, r).active;
  }

  // ---- Progress ----

  ghost predicate CapsPositive(sys: System) {
    forall i, s :: 0 <= i < |sys.procs| && OnRoute(sys.procs[i].req, s) ==> Cap(sys.g.caps, s) >= 1
  }

  predicate Inside(p: Proc) { p.phase.Holding? || p.phase.Active? }

  /** Follow the wait-for chain upwards: whoever holds the semaphore that process i waits for is
      further along its own route, so the chain ends in a process that can move. */
  lemma {:induction false} ChainEnd(sys: System, i: nat) returns (j: nat)
    requires Inv(sys) && CapsPositive(sys)
    requires i < |sys.procs| && Inside(sys.procs[i])
    ensures j < |sys.procs| && Inside(sys.procs[j]) && Enabled(sys, j)
    decreases 4 - HeldCount(sys.procs[i])
  {
    var p := sys.procs[i];
    assert LookedUp(sys.g, p);
    if Enabled(sys, i) {
      j := i;
    } else {
      var s := Route(p.req)[p.phase.n];
      assert OnRoute(p.req, s);
      assert Balanced(sys, s);
      assert Free(sys.g, s) <= 0;
      var h := CountWitness(sys.procs, s, false);
      assert LookedUp(sys.g, sys.procs[h]);
      j := ChainEnd(sys, h);
    }
  }

  /** No deadlock: while a request is unfinished some process can move, and if that process moves
      by taking a permit then every process waiting for the same semaphore could take it. */
  lemma NoDeadlock(sys: System, i: nat) returns (j: nat)
    requires Inv(sys) && CapsPositive(sys)
    requires i < |sys.procs| && !sys.procs[i].phase.Done?
    ensures Enabled(sys, j)
    ensures WaitsFor(sys.procs[j]).Some? ==>
              forall h :: 0 <= h < |sys.procs| && WaitsFor(sys.procs[h]) == WaitsFor(sys.procs[j])
                          ==> Enabled(sys, h)
  {
    assert forall h :: 0 <= h < |sys.procs| ==> LookedUp(sys.g, sys.procs[h]);
    if sys.procs[i].phase.Looking? {
      j := i;
    } else {
      j := ChainEnd(sys, i);
    }
  }

  /** Steps left in the whole system. */
  function Work(ps: seq<Proc>): int {
    if ps == [] then 0 else Remaining(ps[0]) + Work(ps[1..])
  }

  lemma {:induction false} WorkUpdate(ps: seq<Proc>, i: nat, q: Proc)
    requires i < |ps|
    ensures Work(ps[i := q]) == Work(ps) - Remaining(ps[i]) + Remaining(q)
  {
    if i == 0 {
      assert ps[0 := q][1..] == ps[1..];
    } else {
      assert ps[i := q][1..] == ps[1..][i - 1 := q];
      WorkUpdate(ps[1..], i - 1, q);
    }
  }

  lemma StepWork(sys: System, i: nat)
    requires Enabled(sys, i)
    ensures Work(Step(sys, i).procs) == Work(sys.procs) - 1
  {
    WorkUpdate(sys.procs, i, Step(sys, i).procs[i]);
  }

  /** Every run is finite: its length plus the work left is constant. */
  lemma {:induction false} RunLength(sys: System, schedule: seq<nat>)
    requires Feasible(sys, schedule)
    ensures |schedule| + Work(Exec(sys, schedule).procs) == Work(sys.procs)
    decreases |schedule|
  {
    if schedule != [] {
      StepWork(sys, schedule[0]);
      RunLength(Step(sys, schedule[0]), schedule[1..]);
    }
  }

  lemma {:induction false} DoneWork(ps: seq<Proc>)
    requires forall i :: 0 <= i < |ps| ==> ps[i].phase.Done?
    ensures Work(ps) == 0
  {
    if ps != [] {
      DoneWork(ps[1..]);
    }
  }

  predicate AllDone(sys: System) {
    forall i :: 0 <= i < |sys.procs| ==> sys.procs[i].phase.Done?
  }

  ghost predicate Maximal(sys: System, schedule: seq<nat>) {
    Feasible(sys, schedule) && forall i :: !Enabled(Exec(sys, schedule), i)
  }

  /** A step changes no request. */
  lemma {:induction false} ExecKeepsRequests(sys: System, schedule: seq<nat>)
    requires Feasible(sys, schedule)
    ensures |Exec(sys, schedule).procs| == |sys.procs|
    ensures forall i :: 0 <= i < |sys.procs| ==> Exec(sys, schedule).procs[i].req == sys.procs[i].req
    decreases |schedule|
  {
    if schedule != [] {
      ExecKeepsRequests(Step(sys, schedule[0]), schedule[1..]);
    }
  }

  /** A request whose route names a semaphore of cap zero never gets past it. */
  lemma {:induction false} ZeroCapBlocks(sys: System, schedule: seq<nat>, i: nat, s: Sem)
    requires Inv(sys) && Feasible(sys, schedule)
    requires i < |sys.procs| && OnRoute(sys.procs[i].req, s) && Cap(sys.g.caps, s) == 0
    requires sys.procs[i].phase.Looking? || (sys.procs[i].phase.Holding? && sys.procs[i].phase.n <= Level(s))
    ensures i < |Exec(sys, schedule).procs| && !Exec(sys, schedule).procs[i].phase.Done?
    decreases |schedule|
  {
    if schedule != [] {
      assert Balanced(sys, s);
      StepInv(sys, schedule[0]);
      ZeroCapBlocks(Step(sys, schedule[0]), schedule[1..], i, s);
    }
  }

  /** Exactly when the governor serves everybody: a run that cannot be continued has finished all
      requests if and only if no request names a semaphore of cap zero. */
  lemma ServesAllIff(caps: Caps, reqs: seq<Request>, schedule: seq<nat>)
    requires Maximal(Init(caps, reqs), schedule)
    ensures AllDone(Exec(Init(caps, reqs), schedule))
       <==> forall i, s :: 0 <= i < |reqs| && OnRoute(reqs[i], s) ==> Cap(caps, s) >= 1
  {
    var sys := Exec(Init(caps, reqs), schedule);
    InitInv(caps, reqs);
    ExecInv(Init(caps, reqs), schedule);
    ExecKeepsRequests(Init(caps, reqs), schedule);
    if forall i, s :: 0 <= i < |reqs| && OnRoute(reqs[i], s) ==> Cap(caps, s) >= 1 {
      forall i | 0 <= i < |sys.procs|
        ensures sys.procs[i].phase.Done?
      {
        if !sys.procs[i].phase.Done? {
          var j := NoDeadlock(sys, i);
          assert false;
        }
      }
    } else {
      var i, s :| 0 <= i < |reqs| && OnRoute(reqs[i], s) && Cap(caps, s) == 0;
      ZeroCapBlocks(Init(caps, reqs), schedule, i, s);
    }
  }

  lemma AtRest(sys: System, s: Sem)
    requires Inv(sys) && AllDone(sys)
    ensures Free(sys.g, s) == Cap(sys.g.caps, s) && ActiveCounter(sys.g, s) == 0
  {
    assert Balanced(sys, s);
    NobodyMarked(sys.procs, s, false);
    NobodyMarked(sys.procs, s, true);
  }

  /** With positive caps every run that cannot be continued has served every request in the
      number of steps fixed by the requests, and leaves each semaphore full and each counter zero. */
  lemma MaximalRunRestoresAll(caps: Caps, reqs: seq<Request>, schedule: seq<nat>, s: Sem)
    requires Maximal(Init(caps, reqs), schedule)
    requires forall i, t :: 0 <= i < |reqs| && OnRoute(reqs[i], t) ==> Cap(caps, t) >= 1
    ensures var sys := Exec(Init(caps, reqs), schedule);
      && AllDone(sys)
      && |schedule| == Work(Init(caps, reqs).procs)
      && Free(sys.g, s) == Cap(caps, s)
      && ActiveCounter(sys.g, s) == 0
  {
    var sys := Exec(Init(caps, reqs), schedule);
    ServesAllIff(caps, reqs, schedule);
    RunLength(Init(caps, reqs), schedule);
    DoneWork(sys.procs);
    assert Inv(sys) && sys.g.caps == caps by {
      InitInv(caps, reqs);
      ExecInv(Init(caps, reqs), schedule);
    }
    AtRest(sys, s);
  }

  // ---- One process alone ----

  predicate Acquiring(p: Proc) { PhaseOk(p) && (p.phase.Looking? || p.phase.Holding?) }

  predicate Entering(p: Proc) { p.phase == Holding(|Route(p.req)|) }

  /** Process i goes on with its own request; of semaphore s only the permit it waited for is taken,
      and the counter moves at the end of the route. */
  ghost predicate Advances(sys: System, i: nat, s: Sem)
    requires Enabled(sys, i)
  {
    var p, sys' := sys.procs[i], Step(sys, i);
    var q := sys'.procs[i];
    && LookedUp(sys'.g, q) && q.req == p.req && Remaining(q) < Remaining(p)
    && (if Entering(p) then q.phase.Active? else Acquiring(q))
    && Free(sys'.g, s) == Free(sys.g, s) - (if WaitsFor(p) == Some(s) then 1 else 0)
    && ActiveCounter(sys'.g, s) == ActiveCounter(sys.g, s) + (if Entering(p) && OnRoute(p.req, s) then 1 else 0)
  }

  lemma AcquireStep(sys: System, i: nat, s: Sem)
    requires i < |sys.procs| && Acquiring(sys.procs[i]) && LookedUp(sys.g, sys.procs[i])
    requires WaitsFor(sys.procs[i]).Some? ==> Free(sys.g, WaitsFor(sys.procs[i]).value) > 0
    ensures Enabled(sys, i)
    ensures Advances(sys, i, s)
  {
    var p := sys.procs[i];
    if p.phase.Holding? && p.phase.n < |Route(p.req)| {
      assert OnRoute(p.req, Route(p.req)[p.phase.n]);
    } else if p.phase.Holding? {
      EnterEffect(sys.g, p.req, s);
    }
  }

  /** A permit that process i has still to take. */
  predicate Missing(p: Proc, s: Sem) { OnRoute(p.req, s) && Level(s) >= HeldCount(p) }

  /** From sys to sys' process i became active, taking its missing permits and entering its counters. */
  ghost predicate Acquired(sys: System, i: nat, sys': System)
    requires i < |sys.procs|
  {
    var p := sys.procs[i];
    && sys'.procs == sys.procs[i := Proc(p.req, Active)]
    && (forall s :: Free(sys'.g, s) == Free(sys.g, s) - (if Missing(p, s) then 1 else 0))
    && (forall s :: ActiveCounter(sys'.g, s) == ActiveCounter(sys.g, s) + (if OnRoute(p.req, s) then 1 else 0))
  }

  lemma MissingStep(sys: System, i: nat, s: Sem)
    requires Enabled(sys, i) && Acquiring(sys.procs[i])
    ensures Missing(Step(sys, i).procs[i], s) <==> Missing(sys.procs[i], s) && WaitsFor(sys.procs[i]) != Some(s)
  {
  }

  lemma AcquiredOnwards(sys: System, i: nat, sys': System)
    requires Enabled(sys, i) && Acquiring(sys.procs[i]) && !Entering(sys.procs[i])
    requires forall s :: Advances(sys, i, s)
    requires Acquired(Step(sys, i), i, sys')
    ensures Acquired(sys, i, sys')
  {
    var p, mid := sys.procs[i], Step(sys, i);
    assert Advances(sys, i, Global);
    forall s
      ensures Free(sys'.g, s) == Free(sys.g, s) - (if Missing(p, s) then 1 else 0)
      ensures ActiveCounter(sys'.g, s) == ActiveCounter(sys.g, s) + (if OnRoute(p.req, s) then 1 else 0)
    {
      assert Advances(sys, i, s);
      MissingStep(sys, i, s);
      assert WaitsFor(p) == Some(s) ==> Missing(p, s);
      assert Free(sys'.g, s) == Free(mid.g, s) - (if Missing(mid.procs[i], s) then 1 else 0);
    }
  }

  lemma AcquiredAtEnd(sys: System, i: nat)
    requires Enabled(sys, i) && Entering(sys.procs[i]) && forall s :: Advances(sys, i, s)
    ensures Acquired(sys, i, Step(sys, i))
  {
    forall s
      ensures Free(Step(sys, i).g, s) == Free(sys.g, s) && !Missing(sys.procs[i], s)
      ensures ActiveCounter(Step(sys, i).g, s)
           == ActiveCounter(sys.g, s) + (if OnRoute(sys.procs[i].req, s) then 1 else 0)
    {
      assert Advances(sys, i, s);
    }
  }

  /** A process whose remaining permits are free runs through `acquire` without waiting, and its
      steps together have the effect of the method `AcquireRequest`. */
  lemma {:induction false} SoloAcquire(sys: System, i: nat) returns (schedule: seq<nat>)
    requires i < |sys.procs| && Acquiring(sys.procs[i]) && LookedUp(sys.g, sys.procs[i])
    requires forall s :: Missing(sys.procs[i], s) ==> Free(sys.g, s) > 0
    ensures Feasible(sys, schedule) && Acquired(sys, i, Exec(sys, schedule))
    decreases Remaining(sys.procs[i])
  {
    var p := sys.procs[i];
    assert WaitsFor(p).Some? ==> Missing(p, WaitsFor(p).value);
    forall s
      ensures Enabled(sys, i) && Advances(sys, i, s)
    {
      AcquireStep(sys, i, s);
    }
    var sys' := Step(sys, i);
    assert Advances(sys, i, Global);
    if Entering(p) {
      schedule := [i];
      assert Exec(sys, [i]) == Exec(sys', []) == sys';
      AcquiredAtEnd(sys, i);
    } else {
      forall s | Missing(sys'.procs[i], s)
        ensures Free(sys'.g, s) > 0
      {
        MissingStep(sys, i, s);
        assert Advances(sys, i, s);
      }
      var rest := SoloAcquire(sys', i);
      schedule := [i] + rest;
      assert schedule[1..] == rest;
      AcquiredOnwards(sys, i, Exec(sys', rest));
    }
  }

  // ---- The governor object ----

  const DISTRICTS: set<string> := {"build", "viz", "research", "ops"}

  /** Worker shard of a district: unknown, blank or missing districts share the "build" shard. */
  function ShardForDistrict(district: string): (shard: string)
    ensures exists d :: d in DISTRICTS && shard == "district:" + d
    ensures var d := Strip(Lower(district));
      shard == if d in {"build", "viz", "research", "ops"} then "district:" + d else "district:build"
  {
    var d := Strip(Lower(if district == "" then "build" else district));
    var known := if d in DISTRICTS then d else "build";
    assert known in DISTRICTS;
    "district:" + known
  }

  function RequestFor(family: string, district: string, job: Option<string>): Request {
    Request(family, ShardForDistrict(district), job)
  }

  class ConcurrencyGovernor {
    const caps: Caps
    var free: map<Sem, int>
    var active: map<Sem, int>

    function View(): State
      reads this
    {
      State(caps, free, active)
    }

    constructor (caps: Caps)
      ensures View() == Fresh(caps)
    {
      this.caps := caps;
      free := map[Global := caps.global];
      active := map[Global := 0];
    }

    /** `_family_sem`, `_district_sem` and `_job_sem`. */
    method LookUp(s: Sem)
      modifies this`free
      ensures View() == EnsureSem(old(View()), s)
    {
      if s !in free {
        free := free[s := Cap(caps, s)];
      }
    }

    method TakePermits(route: seq<Sem>)
      requires Ordered(route)
      requires forall i :: 0 <= i < |route| ==> route[i] in free
      modifies this`free
      ensures free.Keys == old(free).Keys
      ensures forall s :: s in free ==> free[s] == old(free)[s] - (if InRoute(route, s) then 1 else 0)
    {
      var k := 0;
      while k < |route|
        invariant 0 <= k <= |route|
        invariant free.Keys == old(free).Keys
        invariant forall s :: s in free ==> free[s] == old(free)[s] - (if InRoute(route[..k], s) then 1 else 0)
      {
        free := free[route[k] := free[route[k]] - 1];
        k := k + 1;
      }
    }

    method BumpCounters(route: seq<Sem>)
      requires Ordered(route)
      modifies this`active
      ensures forall s :: s in active <==> s in old(active) || InRoute(route, s)
      ensures forall s :: s in active ==> active[s] == Get(old(active), s, 0) + (if InRoute(route, s) then 1 else 0)
    {
      var k := 0;
      while k < |route|
        invariant 0 <= k <= |route|
        invariant forall s :: s in active <==> s in old(active) || InRoute(route[..k], s)
        invariant forall s :: s in active ==>
                    active[s] == Get(old(active), s, 0) + (if InRoute(route[..k], s) then 1 else 0)
      {
        active := active[route[k] := (if route[k] in active then active[route[k]] else 0) + 1];
        k := k + 1;
      }
    }

    /** `acquire` where no semaphore makes it wait: look up, take in order, count. */
    method AcquireRequest(r: Request)
      requires forall s :: OnRoute(r, s) ==> Free(View(), s) > 0
      modifies this
      ensures forall s :: OnRoute(r, s) ==> s in free && s in active
      ensures forall s :: Free(View(), s) == old(Free(View(), s)) - (if OnRoute(r, s) then 1 else 0)
      ensures forall s :: ActiveCounter(View(), s)
                          == old(ActiveCounter(View(), s)) + (if OnRoute(r, s) then 1 else 0)
    {
      var route := Route(r);
      var k := 0;
      while k < |route|
        invariant 0 <= k <= |route|
        invariant active == old(active)
        invariant forall s :: Free(View(), s) == old(Free(View(), s))
        invariant forall i :: 0 <= i < k ==> route[i] in free
      {
        LookUp(route[k]);
        k := k + 1;
      }
      TakePermits(route);
      BumpCounters(route);
    }

    method ReturnPermits(route: seq<Sem>)
      requires Ordered(route)
      modifies this`free
      ensures free.Keys == old(free).Keys
      ensures forall s :: s in free ==> free[s] == old(free)[s] + (if InRoute(route, s) then 1 else 0)
    {
      var k := |route|;
      while k > 0
        invariant 0 <= k <= |route|
        invariant free.Keys == old(free).Keys
        invariant forall s :: s in free ==>
                    free[s] == old(free)[s] + (if Level(s) >= k && InRoute(route, s) then 1 else 0)
      {
        k := k - 1;
        if route[k] in free {
          free := free[route[k] := free[route[k]] + 1];
        }
      }
    }

    method DropCounters(route: seq<Sem>)
      requires Ordered(route)
      modifies this`active
      ensures active.Keys == old(active).Keys
      ensures forall s :: s in active ==>
                active[s] == if InRoute(route, s) then Max0(old(active)[s] - 1) else old(active)[s]
    {
      var k := 0;
      while k < |route|
        invariant 0 <= k <= |route|
        invariant active.Keys == old(active).Keys
        invariant forall s :: s in active ==>
                    active[s] == if InRoute(route[..k], s) then Max0(old(active)[s] - 1) else old(active)[s]
      {
        if route[k] in active {
          active := active[route[k] := Max0(active[route[k]] - 1)];
        }
        k := k + 1;
      }
    }

    /** `release`: permits back from the job up to the global semaphore, then the counters. */
    method ReleaseRequest(r: Request)
      modifies this
      ensures View() == Leave(old(View()), r)
    {
      var route := Route(r);
      ReturnPermits(route);
      DropCounters(route);
      assert free == Leave(old(View()), r).free;
      assert active == Leave(old(View()), r).active;
    }

    /** Acquire followed by release leaves every count as it was. */
    method AcquireThenRelease(family: string, district: string, job: Option<string>)
      requires forall s :: OnRoute(RequestFor(family, district, job), s) ==> Free(View(), s) > 0
      requires forall s :: ActiveCounter(View(), s) >= 0
      modifies this
      ensures forall s :: Free(View(), s) == old(Free(View(), s))
      ensures forall s :: ActiveCounter(View(), s) == old(ActiveCounter(View(), s))
    {
      var r := RequestFor(family, district, job);
      AcquireRequest(r);
      ReleaseRequest(r);
    }
  }
}
