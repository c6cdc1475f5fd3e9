/**
 The durable task queue: leased claims, recovery of stale ones, unguarded status writes, and the
 daemon's claim / run / complete-or-fail protocol.

 A task's id is its row number, so rows stand in insertion order. Every queue operation is one
 atomic step; time is a real that never goes back.
 */
module TaskQueue {
  import opened Prelude

  const LEASE: real := 600.0

  datatype Status = Queued | Claimed | InProgress | Blocked | Done | Failed

  datatype Task = Task(
    team: string,
    role: string,
    status: Status,
    createdAt: real,
    claimedAt: Option<real>,
    result: Option<string>,
    error: Option<string>,
    completedAt: Option<real>)

  predicate Terminal(t: Task) { t.status.Done? || t.status.Failed? }

  // ---- Repository operations on rows ----

  function NewTask(team: string, role: string, at: real): Task {
    Task(team, role, Queued, at, None, None, None, None)
  }

  predicate Stale(t: Task, team: string, cutoff: real) {
    && t.team == team
    && (t.status.Claimed? || t.status.InProgress?)
    && (t.claimedAt.None? || t.claimedAt.value < cutoff)
  }

  function Requeue(t: Task): Task { t.(status := Queued, error := Some("re-queued: stale claim")) }

  function RecoverOne(t: Task, team: string, now: real): Task {
    if Stale(t, team, now - LEASE) then Requeue(t) else t
  }

  /** `recover_stale` at time `now`. */
  function Recover(rows: seq<Task>, team: string, now: real): (r: seq<Task>)
    ensures |r| == |rows|
    ensures forall i :: 0 <= i < |rows| ==> r[i] == RecoverOne(rows[i], team, now)
  {
    seq(|rows|, i requires 0 <= i < |rows| => RecoverOne(rows[i], team, now))
  }

  predicate Candidate(t: Task, team: string, role: Option<string>) {
    t.team == team && t.status.Queued? && (role.Some? ==> t.role == role.value)
  }

  /** A queued row that an ORDER BY created_at may put first. */
  predicate MayPick(rows: seq<Task>, team: string, role: Option<string>, i: nat) {
    && i < |rows| && Candidate(rows[i], team, role)
    && forall j :: 0 <= j < |rows| && Candidate(rows[j], team, role) ==> rows[i].createdAt <= rows[j].createdAt
  }

  function Take(t: Task, at: real): Task { t.(status := Claimed, claimedAt := Some(at)) }

  /** `update_status`: the old status is not looked at. */
  function Write(t: Task, status: Status, result: Option<string>, error: Option<string>, completedAt: Option<real>): Task {
    t.(status := status,
       result := if result.Some? then result else t.result,
       error := if error.Some? then error else t.error,
       completedAt := if completedAt.Some? then completedAt else t.completedAt)
  }

  // ---- Any interleaving of queue operations ----

  datatype Claim = Claim(row: nat, at: real)

  /** The table, the log of claims, and the time of the last operation. */
  datatype Queue = Queue(rows: seq<Task>, claims: seq<Claim>, now: real)

  datatype Op =
    | Create(team: string, role: string, at: real)
    | RecoverStale(team: string, at: real)
    | ClaimNext(team: string, wanted: Option<string>, cutoffAt: real, at: real, pick: Option<nat>)
    | Update(row: nat, status: Status, result: Option<string>, error: Option<string>, mark: bool, at: real)

  /** The operations callers have: no caller writes the status queued or claimed by itself, a claim
      recovers first and then takes a queued row with the least creation time, if there is one. */
  predicate Can(q: Queue, op: Op) {
    match op
    case Create(_, _, at) => q.now <= at
    case RecoverStale(_, at) => q.now <= at
    case ClaimNext(team, role, cutoffAt, at, pick) =>
      && q.now <= cutoffAt <= at
      && var rows := Recover(q.rows, team, cutoffAt);
         (if pick.Some? then MayPick(rows, team, role, pick.value)
          else forall i :: 0 <= i < |rows| ==> !Candidate(rows[i], team, role))
    case Update(row, status, _, _, _, at) =>
      q.now <= at && row < |q.rows| && !status.Queued? && !status.Claimed?
  }

  function Do(q: Queue, op: Op): Queue
    requires Can(q, op)
  {
    match op
    case Create(team, role, at) => Queue(q.rows + [NewTask(team, role, at)], q.claims, at)
    case RecoverStale(team, at) => Queue(Recover(q.rows, team, at), q.claims, at)
    case ClaimNext(team, role, cutoffAt, at, pick) =>
      var rows := Recover(q.rows, team, cutoffAt);
      if pick.None? then Queue(rows, q.claims, at)
      else Queue(rows[pick.value := Take(rows[pick.value], at)], q.claims + [Claim(pick.value, at)], at)
    case Update(row, status, result, error, mark, at) =>
      Queue(q.rows[row := Write(q.rows[row], status, result, error, if mark then Some(at) else None)], q.claims, at)
  }

  predicate Feasible(q: Queue, ops: seq<Op>)
    decreases |ops|
  {
    ops == [] || (Can(q, ops[0]) && Feasible(Do(q, ops[0]), ops[1..]))
  }

  function Exec(q: Queue, ops: seq<Op>): Queue
    requires Feasible(q, ops)
    decreases |ops|
  {
    if ops == [] then q else Exec(Do(q, ops[0]), ops[1..])
  }

  /** `claimed_at` is the latest claim; a row that is queued again has outlived its lease. */
  ghost predicate LeaseOk(q: Queue) {
    && (forall i :: 0 <= i < |q.rows| && q.rows[i].claimedAt.Some? && q.rows[i].status.Queued? ==>
          q.rows[i].claimedAt.value < q.now - LEASE)
    && (forall k :: 0 <= k < |q.claims| ==>
          var c := q.claims[k];
          c.row < |q.rows| && q.rows[c.row].claimedAt.Some? && c.at <= q.rows[c.row].claimedAt.value)
  }

  ghost predicate LeasesApart(q: Queue) {
    forall k, l :: 0 <= k < l < |q.claims| && q.claims[k].row == q.claims[l].row ==>
      q.claims[l].at - q.claims[k].at > LEASE
  }

  lemma DoLease(q: Queue, op: Op)
    requires LeaseOk(q) && LeasesApart(q) && Can(q, op)
    ensures LeaseOk(Do(q, op)) && LeasesApart(Do(q, op))
  {
    var q' := Do(q, op);
    if op.ClaimNext? && op.pick.Some? {
      var rows := Recover(q.rows, op.team, op.cutoffAt);
      forall k | 0 <= k < |q.claims| && q.claims[k].row == op.pick.value
        ensures op.at - q.claims[k].at > LEASE
      {
        assert rows[op.pick.value] == RecoverOne(q.rows[op.pick.value], op.team, op.cutoffAt);
      }
    }
  }

  lemma {:induction false} ExecLease(q: Queue, ops: seq<Op>)
    requires LeaseOk(q) && LeasesApart(q) && Feasible(q, ops)
    ensures LeaseOk(Exec(q, ops)) && LeasesApart(Exec(q, ops))
    decreases |ops|
  {
    if ops != [] {
      DoLease(q, ops[0]);
      ExecLease(Do(q, ops[0]), ops[1..]);
    }
  }

  function Empty(now: real): Queue { Queue([], [], now) }

  /** Lease safety: whatever callers do in whatever order, two claims of one task are more than
      600 seconds apart. */
  lemma ClaimsAreALeaseApart(start: real, ops: seq<Op>, k: nat, l: nat)
    requires Feasible(Empty(start), ops)
    requires k < l < |Exec(Empty(start), ops).claims|
    requires Exec(Empty(start), ops).claims[k].row == Exec(Empty(start), ops).claims[l].row
    ensures Exec(Empty(start), ops).claims[l].at - Exec(Empty(start), ops).claims[k].at > 600.0
  {
    ExecLease(Empty(start), ops);
  }

  // ---- The daemon's protocol ----

  /** How far a worker is with its row: claimed, marked in progress, or done written but the tick
      not committed, so that an exception may still turn done into failed. */
  datatype Stage = Fresh | Started | Written

  datatype Worker = Idle | Holding(row: nat, since: real, stage: Stage)

  datatype Shop = Shop(q: Queue, workers: seq<Worker>)

  datatype Move =
    | Enqueue(team: string, role: string, at: real)
    | Claims(w: nat, team: string, wanted: Option<string>, cutoffAt: real, at: real, pick: Option<nat>)
    | Starts(w: nat, at: real)
    | Completes(w: nat, result: string, at: real)
    | Fails(w: nat, error: string, at: real)
    | Commits(w: nat, at: real)

  function OpOf(s: Shop, m: Move): Op
    requires !m.Commits?
    requires m.Starts? || m.Completes? || m.Fails? ==> m.w < |s.workers| && s.workers[m.w].Holding?
  {
    match m
    case Enqueue(team, role, at) => Create(team, role, at)
    case Claims(w, team, role, cutoffAt, at, pick) => ClaimNext(team, role, cutoffAt, at, pick)
    case Starts(w, at) => Update(s.workers[w].row, InProgress, None, None, false, at)
    case Completes(w, result, at) => Update(s.workers[w].row, Done, Some(result), None, true, at)
    case Fails(w, error, at) => Update(s.workers[w].row, Failed, None, Some(error), true, at)
  }

  predicate CanMove(s: Shop, m: Move) {
    match m
    case Enqueue(_, _, _) => Can(s.q, OpOf(s, m))
    case Claims(w, _, _, _, _, _) => w < |s.workers| && s.workers[w].Idle? && Can(s.q, OpOf(s, m))
    case Starts(w, _) =>
      w < |s.workers| && s.workers[w].Holding? && s.workers[w].stage.Fresh? && Can(s.q, OpOf(s, m))
    case Completes(w, _, _) =>
      w < |s.workers| && s.workers[w].Holding? && !s.workers[w].stage.Written? && Can(s.q, OpOf(s, m))
    case Fails(w, _, _) => w < |s.workers| && s.workers[w].Holding? && Can(s.q, OpOf(s, m))
    case Commits(w, at) =>
      w < |s.workers| && s.workers[w].Holding? && s.workers[w].stage.Written? && s.q.now <= at
  }

  function MoveTo(s: Shop, m: Move): Shop
    requires CanMove(s, m)
  {
    var q := if m.Commits? then s.q.(now := m.at) else Do(s.q, OpOf(s, m));
    match m
    case Enqueue(_, _, _) => Shop(q, s.workers)
    case Claims(w, _, _, _, at, pick) =>
      Shop(q, if pick.Some? then s.workers[w := Holding(pick.value, at, Fresh)] else s.workers)
    case Starts(w, _) => Shop(q, s.workers[w := s.workers[w].(stage := Started)])
    case Completes(w, _, _) => Shop(q, s.workers[w := s.workers[w].(stage := Written)])
    case Fails(w, _, _) => Shop(q, s.workers[w := Idle])
    case Commits(w, _) => Shop(q, s.workers[w := Idle])
  }

  function TimeOf(m: Move): real { if m.Claims? then m.cutoffAt else m.at }

  /** A worker that has claimed a row and not yet written done or failed. */
  predicate Unwritten(x: Worker) { x.Holding? && !x.stage.Written? }

  /** At the time of the move every claim older than 600 seconds has been answered. */
  predicate InTime(s: Shop, m: Move) {
    forall w :: 0 <= w < |s.workers| && Unwritten(s.workers[w]) ==> TimeOf(m) <= s.workers[w].since + LEASE
  }

  /** A move is late if and only if, when it is made, some worker has held a row for more than 600 seconds
      without having written done or failed; a claim is made when it looks for stale rows. */
  lemma LateIff(s: Shop, m: Move)
    ensures !InTime(s, m) <==>
      exists w | 0 <= w < |s.workers| ::
        && s.workers[w].Holding? && s.workers[w].stage != Written
        && (if m.Claims? then m.cutoffAt else m.at) - s.workers[w].since > 600.0
  {
  }

  predicate Runs(s: Shop, moves: seq<Move>, timely: bool)
    decreases |moves|
  {
    moves == [] ||
    (CanMove(s, moves[0]) && (timely ==> InTime(s, moves[0])) && Runs(MoveTo(s, moves[0]), moves[1..], timely))
  }

  function Play(s: Shop, moves: seq<Move>, timely: bool): Shop
    requires Runs(s, moves, timely)
    decreases |moves|
  {
    if moves == [] then s else Play(MoveTo(s, moves[0]), moves[1..], timely)
  }

  function Open(start: real, workerCount: nat): Shop {
    Shop(Empty(start), seq(workerCount, _ => Idle))
  }

  // ---- What a claim takes and what the worker writes, in the fields of the row ----

  /** Whoever claims gets a row of the asked team and, if a role was asked for, of that role, which was
      queued or held by a claim of more than 600 seconds; and no such row is older. */
  lemma ClaimTakes(rows: seq<Task>, team: string, wanted: Option<string>, cutoffAt: real, k: nat)
    requires MayPick(Recover(rows, team, cutoffAt), team, wanted, k)
    ensures k < |rows| && rows[k].team == team && (wanted.Some? ==> rows[k].role == wanted.value)
    ensures rows[k].status == Queued
      || ((rows[k].status == Claimed || rows[k].status == InProgress)
          && (rows[k].claimedAt.None? || rows[k].claimedAt.value < cutoffAt - 600.0))
    ensures forall i | 0 <= i < |rows| && rows[i].team == team && (wanted.None? || rows[i].role == wanted.value) ::
      rows[i].status == Queued
      || ((rows[i].status == Claimed || rows[i].status == InProgress)
          && (rows[i].claimedAt.None? || rows[i].claimedAt.value < cutoffAt - 600.0))
      ==> rows[k].createdAt <= rows[i].createdAt
  {
    var after := Recover(rows, team, cutoffAt);
    assert after[k] == RecoverOne(rows[k], team, cutoffAt);
    forall i | 0 <= i < |rows| && Candidate(after[i], team, wanted)
      ensures rows[k].createdAt <= rows[i].createdAt
    {
      assert after[i] == RecoverOne(rows[i], team, cutoffAt);
    }
  }

  /** Whoever gets nothing left no queued row of that team and role, and no stale one. */
  lemma ClaimLeaves(rows: seq<Task>, team: string, wanted: Option<string>, cutoffAt: real, i: nat)
    requires i < |rows| && !Candidate(Recover(rows, team, cutoffAt)[i], team, wanted)
    requires rows[i].team == team && (wanted.None? || rows[i].role == wanted.value)
    ensures rows[i].status != Queued
    ensures rows[i].status == Claimed || rows[i].status == InProgress ==>
      rows[i].claimedAt.Some? && rows[i].claimedAt.value >= cutoffAt - 600.0
  {
  }

  /** Over every run: what a claim picks, and the row it leaves behind. */
  lemma ClaimMovePicks(s: Shop, m: Move)
    requires m.Claims? && CanMove(s, m) && m.pick.Some?
    ensures var k := m.pick.value;
      && k < |s.q.rows| == |MoveTo(s, m).q.rows|
      && var before, after := s.q.rows[k], MoveTo(s, m).q.rows[k];
      && before.team == m.team && (m.wanted.Some? ==> before.role == m.wanted.value)
      && (before.status == Queued || before.status == Claimed || before.status == InProgress)
      && (before.status != Queued ==> before.claimedAt.None? || before.claimedAt.value < m.cutoffAt - 600.0)
      && after.status == Claimed && after.claimedAt == Some(m.at)
      && after.team == before.team && after.role == before.role && after.result == before.result
      && MoveTo(s, m).workers == s.workers[m.w := Holding(k, m.at, Fresh)]
  {
    ClaimTakes(s.q.rows, m.team, m.wanted, m.cutoffAt, m.pick.value);
  }

  /** Over every run: a claim that picks nothing leaves nothing of its team and role to claim. */
  lemma EmptyClaimLeavesNone(s: Shop, m: Move, i: nat)
    requires m.Claims? && CanMove(s, m) && m.pick.None? && i < |s.q.rows|
    requires s.q.rows[i].team == m.team && (m.wanted.None? || s.q.rows[i].role == m.wanted.value)
    ensures s.q.rows[i].status != Queued && MoveTo(s, m).q.rows[i] == s.q.rows[i]
  {
    ClaimLeaves(s.q.rows, m.team, m.wanted, m.cutoffAt, i);
  }

  /** Over every run: what a worker writes into the row it holds, and into no other. */
  lemma WorkerWrites(s: Shop, m: Move)
    requires (m.Starts? || m.Completes? || m.Fails?) && CanMove(s, m)
    ensures var k := s.workers[m.w].row;
      && k < |s.q.rows| == |MoveTo(s, m).q.rows|
      && var before, after := s.q.rows[k], MoveTo(s, m).q.rows[k];
      && after.team == before.team && after.role == before.role && after.claimedAt == before.claimedAt
      && after.status == (if m.Starts? then InProgress else if m.Completes? then Done else Failed)
      && after.result == (if m.Completes? then Some(m.result) else before.result)
      && after.error == (if m.Fails? then Some(m.error) else before.error)
      && after.completedAt == (if m.Starts? then before.completedAt else Some(m.at))
      && MoveTo(s, m).workers == s.workers[m.w :=
           if m.Fails? then Idle else Holding(k, s.workers[m.w].since, if m.Starts? then Started else Written)]
      && forall i :: 0 <= i < |s.q.rows| && i != k ==> MoveTo(s, m).q.rows[i] == s.q.rows[i]
  {
  }

  // ---- Exactly once, when every claimer finishes in time ----

  predicate Logged(q: Queue, i: int) { exists k :: 0 <= k < |q.claims| && q.claims[k].row == i }

  predicate HeldBy(s: Shop, w: int, i: int) {
    0 <= w < |s.workers| && s.workers[w].Holding? && s.workers[w].row == i
  }

  /** Worker w works on row i under the row's latest claim. */
  predicate LeasedTo(s: Shop, w: int, i: nat)
    requires i < |s.q.rows|
  {
    HeldBy(s, w, i) && Unwritten(s.workers[w]) && s.q.rows[i].claimedAt == Some(s.workers[w].since)
  }

  /** Where a row stands: queued and never claimed, held by a worker since its claim, or final. */
  ghost predicate RowOk(s: Shop, i: nat)
    requires i < |s.q.rows|
  {
    var t := s.q.rows[i];
    match t.status
    case Queued => !Logged(s.q, i) && forall w :: !HeldBy(s, w, i)
    case Claimed => exists w :: LeasedTo(s, w, i)
    case InProgress => exists w :: LeasedTo(s, w, i)
    case Blocked => false
    case Done => forall w :: HeldBy(s, w, i) ==> s.workers[w].stage.Written?
    case Failed => forall w :: !HeldBy(s, w, i)
  }

  ghost predicate OnceOk(s: Shop) {
    && (forall i :: 0 <= i < |s.q.rows| ==> RowOk(s, i))
    && (forall w, i :: HeldBy(s, w, i) ==> 0 <= i < |s.q.rows| && Logged(s.q, i))
    && (forall v, w, i :: HeldBy(s, v, i) && HeldBy(s, w, i) ==> v == w)
    && (forall k :: 0 <= k < |s.q.claims| ==> s.q.claims[k].row < |s.q.rows|)
    && (forall k, l :: 0 <= k < l < |s.q.claims| ==> s.q.claims[k].row != s.q.claims[l].row)
  }

  /** In time, recovery finds nothing to recover. */
  lemma NothingStale(s: Shop, team: string, cutoffAt: real)
    requires OnceOk(s)
    requires forall w :: 0 <= w < |s.workers| && Unwritten(s.workers[w]) ==> cutoffAt <= s.workers[w].since + LEASE
    ensures Recover(s.q.rows, team, cutoffAt) == s.q.rows
  {
    forall i | 0 <= i < |s.q.rows|
      ensures RecoverOne(s.q.rows[i], team, cutoffAt) == s.q.rows[i]
    {
      assert RowOk(s, i);
      if s.q.rows[i].status.Claimed? || s.q.rows[i].status.InProgress? {
        var w :| LeasedTo(s, w, i);
      }
    }
  }

  lemma EnqueueOnce(s: Shop, m: Move)
    requires OnceOk(s) && m.Enqueue? && CanMove(s, m)
    ensures OnceOk(MoveTo(s, m))
  {
    var s' := MoveTo(s, m);
    assert forall w, i :: HeldBy(s', w, i) <==> HeldBy(s, w, i);
    assert forall i :: Logged(s'.q, i) <==> Logged(s.q, i);
    forall i | 0 <= i < |s'.q.rows|
      ensures RowOk(s', i)
    {
      if i < |s.q.rows| {
        assert RowOk(s, i);
        if s.q.rows[i].status.Claimed? || s.q.rows[i].status.InProgress? {
          var w :| LeasedTo(s, w, i);
          assert LeasedTo(s', w, i);
        }
      }
    }
  }

  lemma OnceIgnoresClock(s: Shop, now: real)
    requires OnceOk(s)
    ensures OnceOk(Shop(Queue(s.q.rows, s.q.claims, now), s.workers))
  {
    var s' := Shop(Queue(s.q.rows, s.q.claims, now), s.workers);
    assert forall w, i :: HeldBy(s', w, i) <==> HeldBy(s, w, i);
    assert forall i :: Logged(s'.q, i) <==> Logged(s.q, i);
    forall i | 0 <= i < |s'.q.rows|
      ensures RowOk(s', i)
    {
      assert RowOk(s, i);
      if s.q.rows[i].status.Claimed? || s.q.rows[i].status.InProgress? {
        var w :| LeasedTo(s, w, i);
        assert LeasedTo(s', w, i);
      }
    }
  }

  lemma ClaimOnce(s: Shop, m: Move)
    requires OnceOk(s) && m.Claims? && CanMove(s, m) && InTime(s, m)
    ensures OnceOk(MoveTo(s, m))
  {
    var s' := MoveTo(s, m);
    NothingStale(s, m.team, m.cutoffAt);
    if m.pick.Some? {
      var i := m.pick.value;
      assert RowOk(s, i);
      assert forall v, j :: HeldBy(s', v, j) <==> (if v == m.w then j == i else HeldBy(s, v, j));
      assert s'.q.claims[|s.q.claims|].row == i;
      assert forall k :: 0 <= k < |s.q.claims| ==> s'.q.claims[k] == s.q.claims[k];
      forall j
        ensures Logged(s'.q, j) <==> j == i || Logged(s.q, j)
      {
      }
      forall j | 0 <= j < |s'.q.rows|
        ensures RowOk(s', j)
      {
        assert RowOk(s, j);
        if j == i {
          assert LeasedTo(s', m.w, i);
        } else if s.q.rows[j].status.Claimed? || s.q.rows[j].status.InProgress? {
          var v :| LeasedTo(s, v, j);
          assert LeasedTo(s', v, j);
        }
      }
    } else {
      OnceIgnoresClock(s, m.at);
    }
  }

  lemma WriteOnce(s: Shop, m: Move)
    requires OnceOk(s) && (m.Starts? || m.Completes? || m.Fails? || m.Commits?) && CanMove(s, m)
    ensures OnceOk(MoveTo(s, m))
  {
    var s' := MoveTo(s, m);
    var i := s.workers[m.w].row;
    assert HeldBy(s, m.w, i);
    assert RowOk(s, i);
    assert forall v, j :: HeldBy(s', v, j) <==> (HeldBy(s, v, j) && (v != m.w || m.Starts? || m.Completes?));
    assert forall j :: Logged(s'.q, j) <==> Logged(s.q, j);
    forall j | 0 <= j < |s'.q.rows|
      ensures RowOk(s', j)
    {
      assert RowOk(s, j);
      if j == i {
        if m.Starts? {
          var v :| LeasedTo(s, v, i);
          assert LeasedTo(s', v, i);
        }
      } else if s.q.rows[j].status.Claimed? || s.q.rows[j].status.InProgress? {
        var v :| LeasedTo(s, v, j);
        assert LeasedTo(s', v, j);
      }
    }
  }

  /** Row i is done or failed and the tick that wrote so is over. */
  predicate Settled(s: Shop, i: nat) {
    i < |s.q.rows| && Terminal(s.q.rows[i]) && forall w :: 0 <= w < |s.workers| ==> !HeldBy(s, w, i)
  }

  lemma SettledStays(s: Shop, m: Move, i: nat)
    requires OnceOk(s) && CanMove(s, m) && InTime(s, m) && Settled(s, i)
    ensures Settled(MoveTo(s, m), i) && MoveTo(s, m).q.rows[i] == s.q.rows[i]
  {
    var s' := MoveTo(s, m);
    if m.Claims? {
      NothingStale(s, m.team, m.cutoffAt);
      assert m.pick != Some(i);
      assert forall v :: HeldBy(s', v, i) ==> HeldBy(s, v, i);
    } else if !m.Enqueue? {
      assert HeldBy(s, m.w, s.workers[m.w].row);
      assert forall v :: HeldBy(s', v, i) ==> HeldBy(s, v, i);
    } else {
      assert forall v :: HeldBy(s', v, i) ==> HeldBy(s, v, i);
    }
  }

  lemma MoveOnce(s: Shop, m: Move)
    requires OnceOk(s) && CanMove(s, m) && InTime(s, m)
    ensures OnceOk(MoveTo(s, m))
  {
    if m.Enqueue? {
      EnqueueOnce(s, m);
    } else if m.Claims? {
      ClaimOnce(s, m);
    } else {
      WriteOnce(s, m);
    }
  }

  /** Exactly once: if every claimer writes done or failed within 600 seconds then, in every
      interleaving, no task is claimed twice. */
  lemma {:induction false} TimelyClaimsOnce(s: Shop, moves: seq<Move>)
    requires OnceOk(s) && Runs(s, moves, true)
    ensures OnceOk(Play(s, moves, true))
    decreases |moves|
  {
    if moves != [] {
      MoveOnce(s, moves[0]);
      TimelyClaimsOnce(MoveTo(s, moves[0]), moves[1..]);
    }
  }

  /** Done and failed are final in timely runs once their tick is over, though no write looks at the
      old status. */
  lemma {:induction false} TimelyOutcomesAreFinal(s: Shop, moves: seq<Move>, i: nat)
    requires OnceOk(s) && Runs(s, moves, true)
    requires Settled(s, i)
    ensures Settled(Play(s, moves, true), i) && Play(s, moves, true).q.rows[i] == s.q.rows[i]
    decreases |moves|
  {
    if moves != [] {
      MoveOnce(s, moves[0]);
      SettledStays(s, moves[0], i);
      TimelyOutcomesAreFinal(MoveTo(s, moves[0]), moves[1..], i);
    }
  }

  lemma OpenOnce(start: real, workerCount: nat)
    ensures OnceOk(Open(start, workerCount))
  {
  }

  /** Every task ever claimed in a timely run is claimed by exactly one entry of the log, and a task
      that is not queued any more is held by its claimer or final. */
  lemma ExactlyOnce(start: real, workerCount: nat, moves: seq<Move>, i: nat)
    requires Runs(Open(start, workerCount), moves, true)
    requires i < |Play(Open(start, workerCount), moves, true).q.rows|
    ensures var s := Play(Open(start, workerCount), moves, true);
      && (forall k, l | 0 <= k < |s.q.claims| && 0 <= l < |s.q.claims| ::
            s.q.claims[k].row == i == s.q.claims[l].row ==> k == l)
      && (s.q.rows[i].status.Queued? ==> !Logged(s.q, i))
      && (!s.q.rows[i].status.Queued? && !Terminal(s.q.rows[i]) ==> exists w :: HeldBy(s, w, i))
  {
    var s := Play(Open(start, workerCount), moves, true);
    OpenOnce(start, workerCount);
    TimelyClaimsOnce(Open(start, workerCount), moves);
    assert RowOk(s, i);
  }

  /** A worker has overrun its lease on a row of the team. */
  predicate Overdue(s: Shop, team: string, now: real) {
    exists w :: 0 <= w < |s.workers| && Unwritten(s.workers[w]) && s.workers[w].row < |s.q.rows|
             && s.q.rows[s.workers[w].row].team == team && s.workers[w].since < now - LEASE
  }

  /** The condition is exact: a claim at time `now` takes a row away from the worker that holds it
      if and only if a worker of the team is overdue then. */
  lemma LeaseLostIffOverdue(s: Shop, team: string, now: real)
    requires OnceOk(s)
    ensures Overdue(s, team, now)
       <==> exists w, i :: HeldBy(s, w, i) && 0 <= i < |s.q.rows| && !s.q.rows[i].status.Queued?
                           && Recover(s.q.rows, team, now)[i].status.Queued?
  {
    var rows := Recover(s.q.rows, team, now);
    if Overdue(s, team, now) {
      var w :| 0 <= w < |s.workers| && Unwritten(s.workers[w]) && s.workers[w].row < |s.q.rows|
            && s.q.rows[s.workers[w].row].team == team && s.workers[w].since < now - LEASE;
      var i := s.workers[w].row;
      assert HeldBy(s, w, i) && RowOk(s, i);
      assert rows[i] == RecoverOne(s.q.rows[i], team, now);
    }
    if exists w, i :: HeldBy(s, w, i) && 0 <= i < |s.q.rows| && !s.q.rows[i].status.Queued? && rows[i].status.Queued? {
      var w, i :| HeldBy(s, w, i) && 0 <= i < |s.q.rows| && !s.q.rows[i].status.Queued? && rows[i].status.Queued?;
      assert rows[i] == RecoverOne(s.q.rows[i], team, now);
      assert RowOk(s, i);
    }
  }

  /** A task of the example below, claimed at 1.0 by worker 0. */
  function Leased(status: Status, claimedAt: real, result: Option<string>, error: Option<string>, completedAt: Option<real>): Task {
    Task("team", "coordinator", status, 0.0, Some(claimedAt), result, error, completedAt)
  }

  lemma SlowFirstHalf()
    ensures var moves := [Enqueue("team", "coordinator", 0.0), Claims(0, "team", None, 1.0, 1.0, Some(0))];
      Runs(Open(0.0, 2), moves, false) &&
      Play(Open(0.0, 2), moves, false)
        == Shop(Queue([Leased(Claimed, 1.0, None, None, None)], [Claim(0, 1.0)], 1.0), [Holding(0, 1.0, Fresh), Idle])
  {
    var m1, m2 := Enqueue("team", "coordinator", 0.0), Claims(0, "team", None, 1.0, 1.0, Some(0));
    assert Open(0.0, 2) == Shop(Queue([], [], 0.0), [Idle, Idle]);
    var s1 := MoveTo(Open(0.0, 2), m1);
    assert Recover(s1.q.rows, "team", 1.0) == s1.q.rows == [NewTask("team", "coordinator", 0.0)];
    PlayCons(s1, m2, []);
    PlayCons(Open(0.0, 2), m1, [m2]);
  }

  /** Without the time bound the guarantee is lost: a worker that overruns its lease has its task
      claimed by a second one, whose outcome it then overwrites. */
  lemma SlowWorkerRunsTaskTwice()
    ensures var first := [Enqueue("team", "coordinator", 0.0), Claims(0, "team", None, 1.0, 1.0, Some(0))];
      var then' := [Claims(1, "team", None, 602.0, 602.0, Some(0)), Completes(1, "answer", 603.0), Fails(0, "late", 604.0)];
      Runs(Open(0.0, 2), first, false) &&
      var s := Play(Open(0.0, 2), first, false);
      && Runs(s, then', false)
      && Play(s, then', false).q.claims == [Claim(0, 1.0), Claim(0, 602.0)]
      && Play(s, then', false).q.rows == [Leased(Failed, 602.0, Some("answer"), Some("late"), Some(604.0))]
  {
    SlowFirstHalf();
    var m3, m4 := Claims(1, "team", None, 602.0, 602.0, Some(0)), Completes(1, "answer", 603.0);
    var m5 := Fails(0, "late", 604.0);
    var s2 := Shop(Queue([Leased(Claimed, 1.0, None, None, None)], [Claim(0, 1.0)], 1.0), [Holding(0, 1.0, Fresh), Idle]);
    assert Recover(s2.q.rows, "team", 602.0) == [Requeue(s2.q.rows[0])];
    var s3 := MoveTo(s2, m3);
    assert s3.workers == [Holding(0, 1.0, Fresh), Holding(0, 602.0, Fresh)];
    assert s3.q.rows == [Leased(Claimed, 602.0, None, Some("re-queued: stale claim"), None)];
    SlowLastMoves(s3);
    PlayCons(s2, m3, [m4, m5]);
  }

  lemma SlowLastMoves(s3: Shop)
    requires s3.workers == [Holding(0, 1.0, Fresh), Holding(0, 602.0, Fresh)]
    requires s3.q.rows == [Leased(Claimed, 602.0, None, Some("re-queued: stale claim"), None)]
    requires s3.q.now == 602.0
    ensures var moves := [Completes(1, "answer", 603.0), Fails(0, "late", 604.0)];
      && Runs(s3, moves, false)
      && Play(s3, moves, false).q.claims == s3.q.claims
      && Play(s3, moves, false).q.rows == [Leased(Failed, 602.0, Some("answer"), Some("late"), Some(604.0))]
  {
    var m4, m5 := Completes(1, "answer", 603.0), Fails(0, "late", 604.0);
    var s4 := MoveTo(s3, m4);
    assert s4.q.rows == [Leased(Done, 602.0, Some("answer"), Some("re-queued: stale claim"), Some(603.0))];
    PlayCons(s4, m5, []);
    PlayCons(s3, m4, [m5]);
  }

  lemma PlayCons(s: Shop, m: Move, rest: seq<Move>)
    requires CanMove(s, m) && Runs(MoveTo(s, m), rest, false)
    ensures Runs(s, [m] + rest, false)
    ensures Play(s, [m] + rest, false) == Play(MoveTo(s, m), rest, false)
  {
    assert ([m] + rest)[1..] == rest;
  }

  // ---- Order of claims ----

  /** New tasks get later creation times, and claims for the team ask for no particular role. */
  predicate Orderly(s: Shop, m: Move, team: string) {
    && (m.Enqueue? ==> forall i :: 0 <= i < |s.q.rows| ==> s.q.rows[i].createdAt < m.at)
    && (m.Claims? && m.team == team ==> m.wanted.None?)
  }

  predicate OrderlyRun(s: Shop, moves: seq<Move>, team: string)
    decreases |moves|
  {
    moves == [] ||
    (CanMove(s, moves[0]) && Orderly(s, moves[0], team) && OrderlyRun(MoveTo(s, moves[0]), moves[1..], team))
  }

  function PlayOrderly(s: Shop, moves: seq<Move>, team: string): Shop
    requires OrderlyRun(s, moves, team)
    decreases |moves|
  {
    if moves == [] then s else PlayOrderly(MoveTo(s, moves[0]), moves[1..], team)
  }

  predicate LoggedBefore(q: Queue, i: int, p: int) {
    exists k :: 0 <= k < p && k < |q.claims| && q.claims[k].row == i
  }

  /** Each entry of the claim log comes after an entry for every older row of the team. */
  ghost predicate FirstClaimsInOrder(q: Queue, team: string) {
    forall p, i | 0 <= p < |q.claims| && 0 <= i < q.claims[p].row < |q.rows| ::
      q.rows[i].team == team && q.rows[q.claims[p].row].team == team ==> LoggedBefore(q, i, p)
  }

  ghost predicate OrderOk(s: Shop, team: string) {
    && (forall i, j :: 0 <= i < j < |s.q.rows| ==> s.q.rows[i].createdAt < s.q.rows[j].createdAt)
    && (forall i :: 0 <= i < |s.q.rows| && !s.q.rows[i].status.Queued? ==> Logged(s.q, i))
    && (forall w, i :: HeldBy(s, w, i) ==> 0 <= i < |s.q.rows| && Logged(s.q, i))
    && (forall p :: 0 <= p < |s.q.claims| ==> s.q.claims[p].row < |s.q.rows|)
    && FirstClaimsInOrder(s.q, team)
  }

  lemma LogGrows(q: Queue, q': Queue, c: Claim)
    requires q'.claims == q.claims + [c]
    ensures forall i :: Logged(q', i) <==> Logged(q, i) || i == c.row
    ensures forall i, p :: p <= |q.claims| ==> (LoggedBefore(q', i, p) <==> LoggedBefore(q, i, p))
    ensures forall i :: LoggedBefore(q', i, |q.claims|) <==> Logged(q, i)
  {
    assert q'.claims[|q.claims|] == c;
    assert forall k :: 0 <= k < |q.claims| ==> q'.claims[k] == q.claims[k];
  }

  lemma LogStays(q: Queue, q': Queue)
    requires q'.claims == q.claims
    ensures forall i :: Logged(q', i) <==> Logged(q, i)
    ensures forall i, p :: LoggedBefore(q', i, p) <==> LoggedBefore(q, i, p)
  {
  }

  /** A claim passes over no older row of the team: each of them is claimed, and not stale. */
  lemma NoOlderWaits(s: Shop, m: Move, i: nat)
    requires m.Claims? && CanMove(s, m) && m.pick.Some? && m.wanted.None?
    requires i < |s.q.rows| && s.q.rows[i].team == m.team && s.q.rows[i].createdAt < s.q.rows[m.pick.value].createdAt
    ensures !s.q.rows[i].status.Queued? && !Stale(s.q.rows[i], m.team, m.cutoffAt - LEASE)
  {
    var rows := Recover(s.q.rows, m.team, m.cutoffAt);
    assert rows[i] == RecoverOne(s.q.rows[i], m.team, m.cutoffAt);
    assert rows[m.pick.value] == RecoverOne(s.q.rows[m.pick.value], m.team, m.cutoffAt);
    assert !Candidate(rows[i], m.team, m.wanted);
  }

  lemma ClaimOrder(s: Shop, m: Move, team: string)
    requires OrderOk(s, team) && m.Claims? && m.pick.Some? && CanMove(s, m) && Orderly(s, m, team)
    ensures FirstClaimsInOrder(MoveTo(s, m).q, team)
  {
    var s' := MoveTo(s, m);
    LogGrows(s.q, s'.q, Claim(m.pick.value, m.at));
    forall p, i | 0 <= p < |s'.q.claims| && 0 <= i < s'.q.claims[p].row < |s'.q.rows|
                  && s'.q.rows[i].team == team && s'.q.rows[s'.q.claims[p].row].team == team
      ensures LoggedBefore(s'.q, i, p)
    {
      if p < |s.q.claims| {
        assert s'.q.claims[p] == s.q.claims[p];
        assert LoggedBefore(s.q, i, p);
      } else {
        NoOlderWaits(s, m, i);
      }
    }
  }

  /** A claim changes no row's team or creation time, and takes at most the picked row off the queue. */
  lemma ClaimRows(s: Shop, m: Move)
    requires m.Claims? && CanMove(s, m)
    ensures var rows, rows' := s.q.rows, MoveTo(s, m).q.rows;
      && |rows'| == |rows| && (m.pick.Some? ==> m.pick.value < |rows|)
      && (forall i :: 0 <= i < |rows| ==> rows'[i].createdAt == rows[i].createdAt && rows'[i].team == rows[i].team)
      && (forall i :: 0 <= i < |rows| && !rows'[i].status.Queued? ==> !rows[i].status.Queued? || m.pick == Some(i))
  {
  }

  lemma ClaimMoveOrder(s: Shop, m: Move, team: string)
    requires OrderOk(s, team) && m.Claims? && CanMove(s, m) && Orderly(s, m, team)
    ensures OrderOk(MoveTo(s, m), team)
  {
    var s' := MoveTo(s, m);
    ClaimRows(s, m);
    if m.pick.Some? {
      LogGrows(s.q, s'.q, Claim(m.pick.value, m.at));
      ClaimOrder(s, m, team);
      assert forall v, j :: HeldBy(s', v, j) ==> HeldBy(s, v, j) || j == m.pick.value;
    } else {
      LogStays(s.q, s'.q);
      assert forall v, j :: HeldBy(s', v, j) ==> HeldBy(s, v, j);
    }
  }

  lemma EnqueueOrder(s: Shop, m: Move, team: string)
    requires OrderOk(s, team) && m.Enqueue? && CanMove(s, m) && Orderly(s, m, team)
    ensures OrderOk(MoveTo(s, m), team)
  {
    var s' := MoveTo(s, m);
    LogStays(s.q, s'.q);
    assert forall v, j :: HeldBy(s', v, j) ==> HeldBy(s, v, j);
  }

  lemma WriteOrder(s: Shop, m: Move, team: string)
    requires OrderOk(s, team) && (m.Starts? || m.Completes? || m.Fails? || m.Commits?) && CanMove(s, m)
    ensures OrderOk(MoveTo(s, m), team)
  {
    var s' := MoveTo(s, m);
    var i := s.workers[m.w].row;
    LogStays(s.q, s'.q);
    assert HeldBy(s, m.w, i);
    assert forall v, j :: HeldBy(s', v, j) ==> HeldBy(s, v, j);
    assert s'.q.rows == s.q.rows[i := s'.q.rows[i]];
    assert s'.q.rows[i].createdAt == s.q.rows[i].createdAt && s'.q.rows[i].team == s.q.rows[i].team;
  }

  lemma MoveOrder(s: Shop, m: Move, team: string)
    requires OrderOk(s, team) && CanMove(s, m) && Orderly(s, m, team)
    ensures OrderOk(MoveTo(s, m), team)
  {
    if m.Claims? {
      ClaimMoveOrder(s, m, team);
    } else if m.Enqueue? {
      EnqueueOrder(s, m, team);
    } else {
      WriteOrder(s, m, team);
    }
  }

  lemma {:induction false} OrderlyRunKeepsOrder(s: Shop, moves: seq<Move>, team: string)
    requires OrderOk(s, team) && OrderlyRun(s, moves, team)
    ensures OrderOk(PlayOrderly(s, moves, team), team)
    decreases |moves|
  {
    if moves != [] {
      MoveOrder(s, moves[0], team);
      OrderlyRunKeepsOrder(MoveTo(s, moves[0]), moves[1..], team);
    }
  }

  lemma OpenOrder(start: real, workerCount: nat, team: string)
    ensures OrderOk(Open(start, workerCount), team)
  {
  }

  /** First claims follow enqueue order: in every run from an empty queue in which creation times grow
      and claims for the team name no role, when a row of the team is claimed every older row of the
      team has been claimed before. */
  lemma ClaimsFollowEnqueueOrder(start: real, workerCount: nat, moves: seq<Move>, team: string, p: nat, i: nat)
    requires OrderlyRun(Open(start, workerCount), moves, team)
    requires var q := PlayOrderly(Open(start, workerCount), moves, team).q;
      && p < |q.claims| && i < |q.rows| && q.rows[i].team == team
      && q.claims[p].row < |q.rows| && q.rows[q.claims[p].row].team == team
      && q.rows[i].createdAt < q.rows[q.claims[p].row].createdAt
    ensures LoggedBefore(PlayOrderly(Open(start, workerCount), moves, team).q, i, p)
  {
    OpenOrder(start, workerCount, team);
    OrderlyRunKeepsOrder(Open(start, workerCount), moves, team);
  }

  // ---- Draining by ticks ----

  /** One daemon tick: when it looks for stale claims, claims and finishes, what it claims, and
      how the run ends. */
  datatype Tick = Tick(cutoffAt: real, at: real, doneAt: real, pick: Option<nat>, outcome: RunOutcome)

  /** `RaisedLate`: done was written, then the audit record or the commit raised. */
  datatype RunOutcome = Answered(answer: string) | Raised(error: string) | RaisedLate(answer: string, error: string)

  function Outcome(t: Task, tick: Tick): Task {
    var started := Write(Take(t, tick.at), InProgress, None, None, None);
    match tick.outcome
    case Answered(answer) => Write(started, Done, Some(answer), None, Some(tick.doneAt))
    case Raised(error) => Write(started, Failed, None, Some(error), Some(tick.doneAt))
    case RaisedLate(answer, error) =>
      Write(Write(started, Done, Some(answer), None, Some(tick.doneAt)), Failed, None, Some(error), Some(tick.doneAt))
  }

  predicate CanTick(rows: seq<Task>, team: string, wanted: Option<string>, tick: Tick) {
    var rows1 := Recover(rows, team, tick.cutoffAt);
    if tick.pick.Some? then MayPick(rows1, team, wanted, tick.pick.value)
    else forall i :: 0 <= i < |rows1| ==> !Candidate(rows1[i], team, wanted)
  }

  function AfterTick(rows: seq<Task>, team: string, wanted: Option<string>, tick: Tick): seq<Task>
    requires CanTick(rows, team, wanted, tick)
  {
    var rows1 := Recover(rows, team, tick.cutoffAt);
    if tick.pick.Some? then rows1[tick.pick.value := Outcome(rows1[tick.pick.value], tick)] else rows1
  }

  predicate CanTicks(rows: seq<Task>, team: string, ticks: seq<Tick>)
    decreases |ticks|
  {
    ticks == [] ||
    (CanTick(rows, team, None, ticks[0]) && CanTicks(AfterTick(rows, team, None, ticks[0]), team, ticks[1..]))
  }

  function AfterTicks(rows: seq<Task>, team: string, ticks: seq<Tick>): seq<Task>
    requires CanTicks(rows, team, ticks)
    decreases |ticks|
  {
    if ticks == [] then rows else AfterTicks(AfterTick(rows, team, None, ticks[0]), team, ticks[1..])
  }

  function Waiting(rows: seq<Task>, team: string): nat {
    if rows == [] then 0
    else (if Candidate(rows[0], team, None) then 1 else 0) + Waiting(rows[1..], team)
  }

  lemma {:induction false} WaitingUpdate(rows: seq<Task>, i: nat, t: Task, team: string)
    requires i < |rows|
    ensures Waiting(rows[i := t], team)
         == Waiting(rows, team) - (if Candidate(rows[i], team, None) then 1 else 0)
            + (if Candidate(t, team, None) then 1 else 0)
  {
    if i == 0 {
      assert rows[0 := t][1..] == rows[1..];
    } else {
      assert rows[i := t][1..] == rows[1..][i - 1 := t];
      WaitingUpdate(rows[1..], i - 1, t, team);
    }
  }

  lemma {:induction false} NobodyWaits(rows: seq<Task>, team: string)
    requires forall i :: 0 <= i < |rows| ==> !Candidate(rows[i], team, None)
    ensures Waiting(rows, team) == 0
  {
    if rows != [] {
      NobodyWaits(rows[1..], team);
    }
  }

  /** It counts the queued rows of the team. */
  lemma {:induction false} WaitingIs(rows: seq<Task>, team: string)
    ensures Waiting(rows, team) == |set i | 0 <= i < |rows| && rows[i].team == team && rows[i].status == Queued|
    decreases |rows|
  {
    if rows != [] {
      var n := |rows| - 1;
      WaitingIs(rows[..n], team);
      WaitingAppend(rows[..n], rows[n], team);
      assert rows == rows[..n] + [rows[n]];
      var all := set i | 0 <= i < |rows| && rows[i].team == team && rows[i].status == Queued;
      var init := set i | 0 <= i < n && rows[..n][i].team == team && rows[..n][i].status == Queued;
      assert all == if Candidate(rows[n], team, None) then init + {n} else init;
    }
  }

  lemma {:induction false} WaitingAppend(rows: seq<Task>, t: Task, team: string)
    ensures Waiting(rows + [t], team) == Waiting(rows, team) + (if Candidate(t, team, None) then 1 else 0)
  {
    if rows == [] {
      assert rows + [t] == [t];
    } else {
      assert (rows + [t])[1..] == rows[1..] + [t];
      WaitingAppend(rows[1..], t, team);
    }
  }

  ghost predicate NoStaleClaims(rows: seq<Task>, team: string, ticks: seq<Tick>) {
    forall i, k :: 0 <= i < |rows| && 0 <= k < |ticks| ==> !Stale(rows[i], team, ticks[k].cutoffAt - LEASE)
  }

  lemma TickStep(rows: seq<Task>, team: string, ticks: seq<Tick>)
    requires ticks != [] && NoStaleClaims(rows, team, ticks) && CanTick(rows, team, None, ticks[0])
    ensures var rows' := AfterTick(rows, team, None, ticks[0]);
      && NoStaleClaims(rows', team, ticks[1..])
      && Waiting(rows', team) == (if ticks[0].pick.Some? then Waiting(rows, team) - 1 else 0)
      && (ticks[0].pick.None? ==> Waiting(rows, team) == 0)
  {
    assert Recover(rows, team, ticks[0].cutoffAt) == rows;
    if ticks[0].pick.Some? {
      WaitingUpdate(rows, ticks[0].pick.value, Outcome(rows[ticks[0].pick.value], ticks[0]), team);
    } else {
      NobodyWaits(rows, team);
    }
  }

  /** With no new work and no stale claims, n ticks take n waiting tasks off the queue, or all of
      them; so a queue of n tasks is empty after n ticks and stays so. */
  lemma {:induction false} TicksDrainQueue(rows: seq<Task>, team: string, ticks: seq<Tick>)
    requires CanTicks(rows, team, ticks) && NoStaleClaims(rows, team, ticks)
    ensures Waiting(AfterTicks(rows, team, ticks), team)
         == if |ticks| <= Waiting(rows, team) then Waiting(rows, team) - |ticks| else 0
    decreases |ticks|
  {
    if ticks != [] {
      TickStep(rows, team, ticks);
      TicksDrainQueue(AfterTick(rows, team, None, ticks[0]), team, ticks[1..]);
    }
  }

  // ---- The repository and the worker ----

  class WorkTaskRepository {
    var rows: seq<Task>

    constructor ()
      ensures rows == []
    {
      rows := [];
    }

    method CreateTask(team: string, role: string, at: real) returns (id: nat)
      modifies this
      ensures id == |old(rows)| && |rows| == id + 1 && rows[..id] == old(rows)
      ensures rows[id] == NewTask(team, role, at) == Task(team, role, Queued, at, None, None, None, None)
    {
      id := |rows|;
      rows := rows + [Task(team, role, Queued, at, None, None, None, None)];
    }

    method RecoverRows(team: string, now: real) returns (count: nat)
      modifies this
      ensures rows == Recover(old(rows), team, now) && |rows| == |old(rows)|
      ensures forall i :: 0 <= i < |rows| ==>
        var t := old(rows)[i];
        rows[i] == if t.team == team && (t.status == Claimed || t.status == InProgress)
                      && (t.claimedAt.None? || t.claimedAt.value < now - 600.0)
                   then t.(status := Queued, error := Some("re-queued: stale claim")) else t
      ensures count == |set i | 0 <= i < |old(rows)| && Stale(old(rows)[i], team, now - LEASE)|
    {
      count := 0;
      var i := 0;
      ghost var touched: set<int> := {};
      while i < |rows|
        invariant 0 <= i <= |rows| == |old(rows)|
        invariant forall k :: 0 <= k < i ==> rows[k] == RecoverOne(old(rows)[k], team, now)
        invariant forall k :: i <= k < |rows| ==> rows[k] == old(rows)[k]
        invariant touched == set k | 0 <= k < i && Stale(old(rows)[k], team, now - LEASE)
        invariant count == |touched|
      {
        if Stale(rows[i], team, now - LEASE) {
          rows := rows[i := Requeue(rows[i])];
          touched := touched + {i};
          count := count + 1;
        }
        i := i + 1;
      }
    }

    /** `claim_next`: recover, then take the oldest queued row that matches. */
    method ClaimRow(team: string, wanted: Option<string>, cutoffAt: real, at: real) returns (pick: Option<nat>)
      modifies this
      ensures var rows1 := Recover(old(rows), team, cutoffAt);
        if pick.Some? then MayPick(rows1, team, wanted, pick.value)
                           && rows == rows1[pick.value := Take(rows1[pick.value], at)]
        else rows == rows1 && forall i :: 0 <= i < |rows1| ==> !Candidate(rows1[i], team, wanted)
      ensures |rows| == |old(rows)|
      ensures pick.Some? ==>
        var k := pick.value;
        && k < |rows| && rows[k].team == team && (wanted.Some? ==> rows[k].role == wanted.value)
        && rows[k].status == Claimed && rows[k].claimedAt == Some(at)
        && rows[k].role == old(rows)[k].role && rows[k].team == old(rows)[k].team
        && (old(rows)[k].status == Queued
            || ((old(rows)[k].status == Claimed || old(rows)[k].status == InProgress)
                && (old(rows)[k].claimedAt.None? || old(rows)[k].claimedAt.value < cutoffAt - 600.0)))
      ensures pick.None? ==> forall i | 0 <= i < |rows| && rows[i].team == team ::
        wanted.None? || rows[i].role == wanted.value ==> rows[i].status != Queued
    {
      var _ := RecoverRows(team, cutoffAt);
      pick := None;
      var i := 0;
      while i < |rows|
        invariant 0 <= i <= |rows|
        invariant rows == Recover(old(rows), team, cutoffAt)
        invariant pick.None? ==> forall k :: 0 <= k < i ==> !Candidate(rows[k], team, wanted)
        invariant pick.Some? ==> pick.value < |rows| && Candidate(rows[pick.value], team, wanted)
        invariant pick.Some? ==> forall k :: 0 <= k < i && Candidate(rows[k], team, wanted) ==>
                                   rows[pick.value].createdAt <= rows[k].createdAt
      {
        if Candidate(rows[i], team, wanted)
          && (pick.None? || rows[i].createdAt < rows[pick.value].createdAt) {
          pick := Some(i);
        }
        i := i + 1;
      }
      if pick.Some? {
        ClaimTakes(old(rows), team, wanted, cutoffAt, pick.value);
        rows := rows[pick.value := Take(rows[pick.value], at)];
      }
    }

    /** `update_status`; an unknown id changes nothing. */
    method UpdateRow(id: nat, status: Status, result: Option<string>, error: Option<string>, completedAt: Option<real>)
      returns (found: bool)
      modifies this
      ensures found <==> id < |old(rows)|
      ensures rows == if found then old(rows)[id := Write(old(rows)[id], status, result, error, completedAt)]
                      else old(rows)
      ensures found ==>
        && rows[id].status == status
        && rows[id].result == (if result.Some? then result else old(rows)[id].result)
        && rows[id].error == (if error.Some? then error else old(rows)[id].error)
        && rows[id].completedAt == (if completedAt.Some? then completedAt else old(rows)[id].completedAt)
    {
      found := id < |rows|;
      if found {
        rows := rows[id := Write(rows[id], status, result, error, completedAt)];
      }
    }

    /** The daemon's `_tick`: claim, mark in progress, run, then complete or fail. */
    method RunTick(team: string, wanted: Option<string>, cutoffAt: real, at: real, doneAt: real,
                   outcome: RunOutcome) returns (tick: Tick)
      modifies this
      ensures tick.cutoffAt == cutoffAt && tick.at == at && tick.doneAt == doneAt && tick.outcome == outcome
      ensures CanTick(old(rows), team, wanted, tick) && rows == AfterTick(old(rows), team, wanted, tick)
      ensures |rows| == |old(rows)|
      ensures tick.pick.Some? ==>
        var k := tick.pick.value;
        && k < |rows| && rows[k].team == team && (wanted.Some? ==> rows[k].role == wanted.value)
        && rows[k].claimedAt == Some(at) && rows[k].completedAt == Some(doneAt)
        && rows[k].status == (if outcome.Answered? then Done else Failed)
        && rows[k].result == (if outcome.Raised? then old(rows)[k].result else Some(outcome.answer))
        && (!outcome.Answered? ==> rows[k].error == Some(outcome.error))
      ensures tick.pick.None? ==> forall i | 0 <= i < |rows| && rows[i].team == team ::
        wanted.None? || rows[i].role == wanted.value ==> rows[i].status != Queued
    {
      var pick := ClaimRow(team, wanted, cutoffAt, at);
      tick := Tick(cutoffAt, at, doneAt, pick, outcome);
      if pick.None? {
        return;
      }
      var _ := UpdateRow(pick.value, InProgress, None, None, None);
      if !outcome.Raised? {
        var _ := UpdateRow(pick.value, Done, Some(outcome.answer), None, Some(doneAt));
      }
      if !outcome.Answered? {
        var _ := UpdateRow(pick.value, Failed, None, Some(outcome.error), Some(doneAt));
      }
    }
  }
}
