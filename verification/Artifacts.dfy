/**
 The versioned artifact log of a job's workspace. Writers look up the newest version of a path and
 then insert the next one; a unique key on (job, path, version) settles races between them.
 */
module Artifacts {
  import opened Prelude
  import opened Text
  import opened Sorting
  import opened Paths

  datatype Artifact = Artifact(job: int, path: string, version: int, content: Option<string>)

  predicate At(a: Artifact, job: int, path: string) { a.job == job && a.path == path }

  /** The rows of one file, in the order they were inserted. */
  function Of(rows: seq<Artifact>, job: int, path: string): seq<Artifact> {
    if rows == [] then []
    else
      var a := rows[|rows| - 1];
      Of(rows[..|rows| - 1], job, path) + if At(a, job, path) then [a] else []
  }

  /** `get_latest_by_path`: the row with the highest version. */
  function Newest(rows: seq<Artifact>, job: int, path: string): (r: Option<Artifact>)
    ensures r.None? ==> forall a :: a in rows ==> !At(a, job, path)
    ensures r.Some? ==> r.value in rows && At(r.value, job, path)
    ensures r.Some? ==> forall a :: a in rows && At(a, job, path) ==> a.version <= r.value.version
  {
    if rows == [] then None
    else
      var a := rows[|rows| - 1];
      var best := Newest(rows[..|rows| - 1], job, path);
      assert rows == rows[..|rows| - 1] + [a];
      if At(a, job, path) && (best.None? || a.version > best.value.version) then Some(a) else best
  }

  function LatestVersion(rows: seq<Artifact>, job: int, path: string): int {
    var a := Newest(rows, job, path);
    if a.Some? then a.value.version else 0
  }

  /** The versions of a file are 1, 2, 3, ... in insertion order. */
  ghost predicate Dense(rows: seq<Artifact>) {
    forall job, path, i :: 0 <= i < |Of(rows, job, path)| ==> Of(rows, job, path)[i].version == i + 1
  }

  lemma {:induction false} OfMembers(rows: seq<Artifact>, job: int, path: string)
    ensures forall a :: a in Of(rows, job, path) <==> a in rows && At(a, job, path)
  {
    if rows != [] {
      OfMembers(rows[..|rows| - 1], job, path);
      assert rows == rows[..|rows| - 1] + [rows[|rows| - 1]];
    }
  }

  lemma OfAppend(rows: seq<Artifact>, a: Artifact, job: int, path: string)
    ensures Of(rows + [a], job, path) == Of(rows, job, path) + if At(a, job, path) then [a] else []
  {
    assert (rows + [a])[..|rows|] == rows;
  }

  /** In a dense log the newest row is the last one inserted, and its version is their number. */
  lemma NewestIsLast(rows: seq<Artifact>, job: int, path: string)
    requires Dense(rows)
    ensures var file := Of(rows, job, path);
      && LatestVersion(rows, job, path) == |file|
      && Newest(rows, job, path) == if file == [] then None else Some(file[|file| - 1])
  {
    var file := Of(rows, job, path);
    var best := Newest(rows, job, path);
    OfMembers(rows, job, path);
    assert file == [] || file[0] in file;
    if best.Some? {
      var i :| 0 <= i < |file| && file[i] == best.value;
      assert file[|file| - 1] in file;
    }
  }

  // ---- Concurrent writers ----

  /** A writer that has read the newest version and has not inserted yet. */
  datatype Pending = Pending(row: Artifact)

  datatype Store = Store(jobs: set<int>, rows: seq<Artifact>, pending: map<nat, Pending>)

  datatype Op =
    | AddJob(job: int)
    | Look(writer: nat, job: int, path: string, content: Option<string>)
    | Put(writer: nat)

  /** The unique key on (job, path, version). */
  predicate Taken(rows: seq<Artifact>, row: Artifact) {
    exists i :: 0 <= i < |rows| && At(rows[i], row.job, row.path) && rows[i].version == row.version
  }

  function NextRow(rows: seq<Artifact>, job: int, path: string, content: Option<string>): Artifact {
    Artifact(job, path, LatestVersion(rows, job, path) + 1, content)
  }

  /** An unknown job stops a writer before it reads; a taken key makes its insert fail. */
  function Do(s: Store, op: Op): Store {
    match op
    case AddJob(job) => s.(jobs := s.jobs + {job})
    case Look(w, job, path, content) =>
      if job !in s.jobs then s
      else s.(pending := s.pending[w := Pending(NextRow(s.rows, job, path, content))])
    case Put(w) =>
      if w !in s.pending then s
      else
        var row := s.pending[w].row;
        s.(rows := if Taken(s.rows, row) then s.rows else s.rows + [row], pending := s.pending - {w})
  }

  function Exec(s: Store, ops: seq<Op>): Store
    decreases |ops|
  {
    if ops == [] then s else Exec(Do(s, ops[0]), ops[1..])
  }

  const Empty: Store := Store({}, [], map[])

  /** A pending version is at most one past the newest. */
  ghost predicate Inv(s: Store) {
    && Dense(s.rows)
    && forall w :: w in s.pending ==>
         var row := s.pending[w].row;
         1 <= row.version <= |Of(s.rows, row.job, row.path)| + 1
  }

  /** The insert fails exactly when the file already has as many versions. */
  lemma TakenIff(rows: seq<Artifact>, row: Artifact)
    requires Dense(rows) && row.version >= 1
    ensures Taken(rows, row) <==> row.version <= |Of(rows, row.job, row.path)|
  {
    var file := Of(rows, row.job, row.path);
    OfMembers(rows, row.job, row.path);
    if Taken(rows, row) {
      var i :| 0 <= i < |rows| && At(rows[i], row.job, row.path) && rows[i].version == row.version;
      assert rows[i] in file;
    }
    assert row.version <= |file| ==> file[row.version - 1] in rows;
  }

  lemma AppendDense(rows: seq<Artifact>, row: Artifact)
    requires Dense(rows) && row.version == |Of(rows, row.job, row.path)| + 1
    ensures Dense(rows + [row])
  {
    forall job, path, i | 0 <= i < |Of(rows + [row], job, path)|
      ensures Of(rows + [row], job, path)[i].version == i + 1
    {
      OfAppend(rows, row, job, path);
    }
  }

  /** A step keeps the log dense and only ever appends to a file. */
  lemma DoInv(s: Store, op: Op)
    requires Inv(s)
    ensures Inv(Do(s, op))
    ensures forall job, path :: Of(s.rows, job, path) <= Of(Do(s, op).rows, job, path)
  {
    var s' := Do(s, op);
    match op {
      case AddJob(_) =>
      case Look(_, job, path, _) =>
        NewestIsLast(s.rows, job, path);
      case Put(w) =>
        if w in s.pending {
          var row := s.pending[w].row;
          TakenIff(s.rows, row);
          if !Taken(s.rows, row) {
            AppendDense(s.rows, row);
            forall job, path
              ensures Of(s.rows, job, path) <= Of(s'.rows, job, path)
            {
              OfAppend(s.rows, row, job, path);
            }
          }
        }
    }
  }

  /** Versions stay dense in every interleaving of lookups and inserts. */
  lemma {:induction false} ExecInv(s: Store, ops: seq<Op>)
    requires Inv(s)
    ensures Inv(Exec(s, ops))
    ensures forall job, path :: Of(s.rows, job, path) <= Of(Exec(s, ops).rows, job, path)
    decreases |ops|
  {
    if ops != [] {
      DoInv(s, ops[0]);
      ExecInv(Do(s, ops[0]), ops[1..]);
    }
  }

  lemma VersionsAreDense(ops: seq<Op>)
    ensures Dense(Exec(Empty, ops).rows)
  {
    ExecInv(Empty, ops);
  }

  predicate Mentions(op: Op, w: nat) { (op.Look? && op.writer == w) || (op.Put? && op.writer == w) }

  lemma {:induction false} OthersKeepPending(s: Store, w: nat, ops: seq<Op>)
    requires w in s.pending && forall i :: 0 <= i < |ops| ==> !Mentions(ops[i], w)
    ensures w in Exec(s, ops).pending && Exec(s, ops).pending[w] == s.pending[w]
    decreases |ops|
  {
    if ops != [] {
      assert !Mentions(ops[0], w);
      OthersKeepPending(Do(s, ops[0]), w, ops[1..]);
    }
  }

  /** Of racing writers, one loses exactly when the file grew between its lookup and its insert;
      otherwise its content becomes the newest version. */
  lemma WriterLosesIff(s: Store, w: nat, job: int, path: string, content: Option<string>, ops: seq<Op>)
    requires Inv(s) && job in s.jobs
    requires forall i :: 0 <= i < |ops| ==> !Mentions(ops[i], w)
    ensures
      var s1 := Exec(Do(s, Look(w, job, path, content)), ops);
      var s2 := Do(s1, Put(w));
      var lost := Of(s1.rows, job, path) != Of(s.rows, job, path);
      && (s2.rows == s1.rows <==> lost)
      && (lost || Newest(s2.rows, job, path) == Some(Artifact(job, path, |Of(s.rows, job, path)| + 1, content)))
  {
    var s0 := Do(s, Look(w, job, path, content));
    var s1 := Exec(s0, ops);
    var row := s0.pending[w].row;
    DoInv(s, Look(w, job, path, content));
    NewestIsLast(s.rows, job, path);
    OthersKeepPending(s0, w, ops);
    ExecInv(s0, ops);
    TakenIff(s1.rows, row);
    assert Of(s.rows, job, path) <= Of(s1.rows, job, path);
    if !Taken(s1.rows, row) {
      DoInv(s1, Put(w));
      OfAppend(s1.rows, row, job, path);
      NewestIsLast(Do(s1, Put(w)).rows, job, path);
    }
  }

  // ---- The log refines a map ----

  /** The simple view: each write overwrites its file. */
  function Replay(rows: seq<Artifact>): map<(int, string), Option<string>> {
    if rows == [] then map[]
    else
      var a := rows[|rows| - 1];
      Replay(rows[..|rows| - 1])[(a.job, a.path) := a.content]
  }

  lemma {:induction false} ReplayIsLast(rows: seq<Artifact>, job: int, path: string)
    ensures var file := Of(rows, job, path);
      && ((job, path) in Replay(rows) <==> file != [])
      && (file != [] ==> Replay(rows)[(job, path)] == file[|file| - 1].content)
  {
    if rows != [] {
      ReplayIsLast(rows[..|rows| - 1], job, path);
    }
  }

  /** A read answers what the map of last writes holds, whatever the interleaving of writers. */
  lemma ReadIsLastWrite(ops: seq<Op>, job: int, path: string)
    ensures
      var rows := Exec(Empty, ops).rows;
      var r := Newest(rows, job, path);
      && (r.Some? <==> (job, path) in Replay(rows))
      && (r.Some? ==> r.value.content == Replay(rows)[(job, path)])
  {
    var rows := Exec(Empty, ops).rows;
    VersionsAreDense(ops);
    NewestIsLast(rows, job, path);
    ReplayIsLast(rows, job, path);
  }

  // ---- Listings ----

  /** A database collation: some strict total order of strings. */
  ghost predicate Collation(lt: (string, string) -> bool) {
    StrictOrder(lt) && forall x, y :: x != y ==> lt(x, y) || lt(y, x)
  }

  /** ORDER BY path ASC, version DESC. */
  function RowOrder(lt: (string, string) -> bool): (Artifact, Artifact) -> bool {
    (a: Artifact, b: Artifact) => lt(a.path, b.path) || (a.path == b.path && a.version > b.version)
  }

  function ForJob(rows: seq<Artifact>, job: int): seq<Artifact> {
    if rows == [] then []
    else (if rows[0].job == job then [rows[0]] else []) + ForJob(rows[1..], job)
  }

  function ListForJob(rows: seq<Artifact>, job: int, limit: nat, lt: (string, string) -> bool): seq<Artifact> {
    var all := Sort(ForJob(rows, job), RowOrder(lt));
    if |all| <= limit then all else all[..limit]
  }

  function Count<T>(s: seq<T>, p: T -> bool): nat {
    if s == [] then 0 else (if p(s[0]) then 1 else 0) + Count(s[1..], p)
  }

  /** How many rows of the job have a smaller path. */
  function Below(rows: seq<Artifact>, job: int, path: string, lt: (string, string) -> bool): nat {
    Count(ForJob(rows, job), (a: Artifact) => lt(a.path, path))
  }

  predicate UniqueRows(rows: seq<Artifact>) {
    forall i, j :: 0 <= i < j < |rows| ==>
      !(At(rows[i], rows[j].job, rows[j].path) && rows[i].version == rows[j].version)
  }

  lemma {:induction false} DenseUnique(rows: seq<Artifact>)
    requires Dense(rows)
    ensures UniqueRows(rows)
  {
    if rows != [] {
      var init, a := rows[..|rows| - 1], rows[|rows| - 1];
      assert rows == init + [a];
      DenseInit(init, a);
      DenseUnique(init);
      var file := Of(init, a.job, a.path);
      OfMembers(init, a.job, a.path);
      OfAppend(init, a, a.job, a.path);
      assert Of(rows, a.job, a.path)[|file|] == a;
      forall i | 0 <= i < |init| && At(init[i], a.job, a.path)
        ensures init[i].version != a.version
      {
        assert init[i] in file;
      }
    }
  }

  lemma DenseInit(init: seq<Artifact>, a: Artifact)
    requires Dense(init + [a])
    ensures Dense(init)
  {
    forall job, path, i | 0 <= i < |Of(init, job, path)|
      ensures Of(init, job, path)[i].version == i + 1
    {
      OfAppend(init, a, job, path);
      assert Of(init + [a], job, path)[i].version == i + 1;
    }
  }

  lemma {:induction false} ForJobMembers(rows: seq<Artifact>, job: int)
    ensures forall a :: a in ForJob(rows, job) <==> a in rows && a.job == job
  {
    if rows != [] {
      ForJobMembers(rows[1..], job);
      assert rows == [rows[0]] + rows[1..];
    }
  }

  lemma {:induction false} ForJobUnique(rows: seq<Artifact>, job: int)
    requires UniqueRows(rows)
    ensures UniqueRows(ForJob(rows, job))
  {
    if rows != [] {
      ForJobUnique(rows[1..], job);
      ForJobMembers(rows[1..], job);
      var tail := ForJob(rows[1..], job);
      forall j | 0 <= j < |tail|
        ensures !(At(rows[0], tail[j].job, tail[j].path) && rows[0].version == tail[j].version)
      {
        assert tail[j] in tail;
        var k :| 0 <= k < |rows[1..]| && rows[1..][k] == tail[j];
        assert rows[k + 1] == tail[j];
      }
    }
  }

  lemma RowOrderStrict(lt: (string, string) -> bool)
    requires Collation(lt)
    ensures StrictOrder(RowOrder(lt))
  {
    var f := RowOrder(lt);
    forall x
      ensures !f(x, x)
    {
      assert !lt(x.path, x.path);
    }
    forall x, y, z | f(x, y) && f(y, z)
      ensures f(x, z)
    {
      assert lt(x.path, y.path) && lt(y.path, z.path) ==> lt(x.path, z.path);
    }
  }

  /** The full listing is sorted and holds exactly the rows of the job. */
  lemma SortedRows(rows: seq<Artifact>, job: int, lt: (string, string) -> bool)
    requires UniqueRows(rows) && Collation(lt)
    ensures StrictOrder(RowOrder(lt))
    ensures Sorted(Sort(ForJob(rows, job), RowOrder(lt)), RowOrder(lt))
    ensures forall a :: a in Sort(ForJob(rows, job), RowOrder(lt)) <==> a in rows && a.job == job
  {
    var s := ForJob(rows, job);
    ForJobUnique(rows, job);
    ForJobMembers(rows, job);
    RowOrderStrict(lt);
    forall i, j | 0 <= i < j < |s|
      ensures RowOrder(lt)(s[i], s[j]) || RowOrder(lt)(s[j], s[i])
    {
      assert s[i] in s && s[j] in s;
    }
    SortSorted(s, RowOrder(lt));
    SortMembers(s, RowOrder(lt));
  }

  lemma {:induction false} CountInsert<T>(x: T, s: seq<T>, lt: (T, T) -> bool, p: T -> bool)
    ensures Count(Insert(x, s, lt), p) == Count(s, p) + if p(x) then 1 else 0
  {
    if s == [] || lt(x, s[0]) {
      assert ([x] + s)[1..] == s;
    } else {
      CountInsert(x, s[1..], lt, p);
      assert ([s[0]] + Insert(x, s[1..], lt))[1..] == Insert(x, s[1..], lt);
    }
  }

  lemma {:induction false} CountSort<T>(s: seq<T>, lt: (T, T) -> bool, p: T -> bool)
    ensures Count(Sort(s, lt), p) == Count(s, p)
  {
    if s != [] {
      CountSort(s[1..], lt, p);
      CountInsert(s[0], Sort(s[1..], lt), lt, p);
    }
  }

  /** If a predicate holds exactly of the first k elements, it counts k. */
  lemma {:induction false} CountPrefix<T>(s: seq<T>, p: T -> bool, k: nat)
    requires k <= |s| && forall i :: 0 <= i < |s| ==> (p(s[i]) <==> i < k)
    ensures Count(s, p) == k
  {
    if s != [] {
      assert p(s[0]) <==> 0 < k;
      CountPrefix(s[1..], p, if k > 0 then k - 1 else 0);
    }
  }

  /** The newest row of a file stands right behind all rows with smaller paths. */
  lemma NewestIndex(rows: seq<Artifact>, job: int, k: nat, lt: (string, string) -> bool)
    requires UniqueRows(rows) && Collation(lt)
    requires k < |Sort(ForJob(rows, job), RowOrder(lt))|
    requires var a := Sort(ForJob(rows, job), RowOrder(lt))[k]; Newest(rows, job, a.path) == Some(a)
    ensures k == Below(rows, job, Sort(ForJob(rows, job), RowOrder(lt))[k].path, lt)
  {
    var t := Sort(ForJob(rows, job), RowOrder(lt));
    var a := t[k];
    var p := (b: Artifact) => lt(b.path, a.path);
    SortedRows(rows, job, lt);
    forall i | 0 <= i < |t|
      ensures p(t[i]) <==> i < k
    {
      assert t[i] in t;
      if i < k {
        assert RowOrder(lt)(t[i], a);
      } else if i > k {
        assert RowOrder(lt)(a, t[i]);
      }
    }
    CountPrefix(t, p, k);
    CountSort(ForJob(rows, job), RowOrder(lt), p);
  }

  /** The best row of its path among those fetched. */
  ghost predicate IsBest(arts: seq<Artifact>, a: Artifact) {
    a in arts && forall b :: b in arts && b.path == a.path ==> b.version <= a.version
  }

  /** Truncation never hides the newest version of a file it shows, and it shows a file exactly when
      fewer than `limit` rows of the job have smaller paths. */
  lemma TruncatedShowsNewest(rows: seq<Artifact>, job: int, limit: nat, lt: (string, string) -> bool, a: Artifact)
    requires UniqueRows(rows) && Collation(lt)
    ensures IsBest(ListForJob(rows, job, limit, lt), a)
      <==> Newest(rows, job, a.path) == Some(a) && Below(rows, job, a.path, lt) < limit
  {
    var t := Sort(ForJob(rows, job), RowOrder(lt));
    var page := ListForJob(rows, job, limit, lt);
    SortedRows(rows, job, lt);
    assert forall i :: 0 <= i < |page| ==> page[i] == t[i];
    assert forall b :: b in page ==> b in t;
    var best := Newest(rows, job, a.path);
    if best.Some? {
      var n := best.value;
      assert n in t;
      var k :| 0 <= k < |t| && t[k] == n;
      NewestIndex(rows, job, k, lt);
      assert k < |page| ==> page[k] == n;
      assert k < |page| <==> Below(rows, job, a.path, lt) < limit;
      if a in page {
        var i :| 0 <= i < |page| && page[i] == a;
        NewestFirst(rows, job, lt, t, k, i);
        if IsBest(page, a) {
          assert a == n by { SameRow(rows, a, n); }
        }
      }
    }
  }

  lemma SameRow(rows: seq<Artifact>, a: Artifact, b: Artifact)
    requires UniqueRows(rows) && a in rows && b in rows && At(a, b.job, b.path) && a.version == b.version
    ensures a == b
  {
    var i :| 0 <= i < |rows| && rows[i] == a;
    var j :| 0 <= j < |rows| && rows[j] == b;
  }

  /** In the sorted rows, no row of a file stands before its newest. */
  lemma NewestFirst(rows: seq<Artifact>, job: int, lt: (string, string) -> bool, t: seq<Artifact>, k: nat, i: nat)
    requires StrictOrder(RowOrder(lt)) && Collation(lt) && Sorted(t, RowOrder(lt)) && k < |t| && i < |t|
    requires t[i].path == t[k].path && t[i] in rows && t[i].job == job
    requires Newest(rows, job, t[k].path) == Some(t[k])
    ensures k <= i
  {
    var a, n := t[i], t[k];
    assert i < k ==> RowOrder(lt)(a, n);
  }

  // ---- Order of strings ----

  function StringLess(a: string, b: string): bool {
    b != "" && (a == "" || a[0] < b[0] || (a[0] == b[0] && StringLess(a[1..], b[1..])))
  }

  function ByPath(): (Artifact, Artifact) -> bool { (a: Artifact, b: Artifact) => StringLess(a.path, b.path) }

  lemma {:induction false} StringLessTotal(a: string, b: string)
    ensures a == b || StringLess(a, b) || StringLess(b, a)
    ensures !StringLess(a, a)
  {
    if a != "" {
      if b != "" && a[0] == b[0] {
        StringLessTotal(a[1..], b[1..]);
        assert a == [a[0]] + a[1..] && b == [b[0]] + b[1..];
      } else {
        StringLessTotal(a[1..], "");
      }
    }
  }

  lemma {:induction false} StringLessTransitive(a: string, b: string, c: string)
    requires StringLess(a, b) && StringLess(b, c)
    ensures StringLess(a, c)
  {
    if a != "" && a[0] == b[0] == c[0] {
      StringLessTransitive(a[1..], b[1..], c[1..]);
    }
  }

  /** The order of strings: at the first difference the smaller character comes first, and a string comes
      before its extensions. */
  lemma {:induction false} StringLessIff(a: string, b: string, k: nat)
    requires k <= |a| && k <= |b| && a[..k] == b[..k] && (k == |a| || k == |b| || a[k] != b[k])
    ensures StringLess(a, b) <==> k < |b| && (k == |a| || a[k] < b[k])
  {
    if k > 0 {
      assert a[0] == a[..k][0] == b[..k][0] == b[0];
      assert a[1..][..k - 1] == a[..k][1..] && b[1..][..k - 1] == b[..k][1..];
      StringLessIff(a[1..], b[1..], k - 1);
    }
  }

  lemma ByPathStrict()
    ensures StrictOrder(ByPath()) && Collation(StringLess)
  {
    forall x, y
      ensures !StringLess(x, x) && (x == y || StringLess(x, y) || StringLess(y, x))
    {
      StringLessTotal(x, y);
    }
    forall x, y, z | StringLess(x, y) && StringLess(y, z)
      ensures StringLess(x, z)
    {
      StringLessTransitive(x, y, z);
    }
    assert forall x, y, z :: ByPath()(x, y) && ByPath()(y, z) ==> ByPath()(x, z);
  }

  // ---- The tools ----

  datatype ToolError = JobNotFound | BadPath(reason: PathError) | ContentRequired | BadLimit

  /** `workspace_read`: normalise the name, then fetch the newest version. */
  function ReadFile(jobs: set<int>, rows: seq<Artifact>, job: int, userPath: string):
    (r: Result<Option<Artifact>, ToolError>)
    ensures r == Err(JobNotFound) <==> job !in jobs
    ensures r.Ok? <==> job in jobs && Sanitize(userPath).Ok?
    ensures r.Ok? && r.value.Some? ==> At(r.value.value, job, Sanitize(userPath).value)
  {
    if job !in jobs then Err(JobNotFound)
    else
      match Sanitize(userPath)
      case Err(e) => Err(BadPath(e))
      case Ok(path) => Ok(Newest(rows, job, path))
  }

  /** Reading a stored file back under its stored name works exactly when that name is stable. */
  lemma StoredNameReadsBackIff(jobs: set<int>, rows: seq<Artifact>, a: Artifact)
    requires a.job in jobs && Normal(a.path) && Newest(rows, a.job, a.path) == Some(a)
    ensures ReadFile(jobs, rows, a.job, a.path) == Ok(Some(a)) <==> Stable(a.path)
  {
    SanitizeAgainIff(a.path);
  }

  function SlashStrip(s: string): string {
    if s == "" then ""
    else if s[0] == '/' then SlashStrip(s[1..])
    else if s[|s| - 1] == '/' then SlashStrip(s[..|s| - 1])
    else s
  }

  /** A prefix that is no acceptable path is only trimmed; a missing one admits every path. */
  function PrefixFor(prefix: Option<string>): string {
    if prefix.None? || prefix.value == "" then ""
    else
      match Sanitize(prefix.value)
      case Ok(q) => q
      case Err(_) => SlashStrip(Strip(prefix.value))
  }

  function LimitFor(limit: Option<int>): int {
    if limit.None? || limit.value == 0 then 200 else limit.value
  }

  lemma {:induction false} SlashStripIs(s: string) returns (i: nat, j: nat)
    ensures i <= j <= |s| && SlashStrip(s) == s[i..j]
    ensures forall k :: 0 <= k < i || j <= k < |s| ==> s[k] == '/'
    ensures i < j ==> s[i] != '/' && s[j - 1] != '/'
    decreases |s|
  {
    i, j := 0, |s|;
    if s != "" && s[0] == '/' {
      var a, b := SlashStripIs(s[1..]);
      i, j := a + 1, b + 1;
      assert s[1..][a..b] == s[i..j];
      assert forall k :: 0 < k < |s| ==> s[k] == s[1..][k - 1];
    } else if s != "" && s[|s| - 1] == '/' {
      i, j := SlashStripIs(s[..|s| - 1]);
    }
  }

  /** What a listing asks for: 200 rows unless another number is given, and the paths that begin with the
      prefix, normalised if it is a path and only trimmed if it is none. */
  lemma ListingAsks(prefix: Option<string>, limit: Option<int>)
    ensures limit.None? || limit == Some(0) ==> LimitFor(limit) == 200
    ensures limit.Some? && limit.value != 0 ==> LimitFor(limit) == limit.value
    ensures prefix.None? || prefix == Some("") ==> PrefixFor(prefix) == ""
    ensures prefix.Some? && Sanitize(prefix.value).Ok? ==> PrefixFor(prefix) == Sanitize(prefix.value).value
    ensures prefix.Some? && Sanitize(prefix.value).Err? ==> PrefixFor(prefix) == SlashStrip(Strip(prefix.value))
  {
    assert Strip("") == "" && SlashStrip("") == "";
  }

  function WithPrefix(arts: seq<Artifact>, prefix: string): seq<Artifact> {
    if arts == [] then []
    else (if prefix <= arts[0].path then [arts[0]] else []) + WithPrefix(arts[1..], prefix)
  }

  lemma {:induction false} WithPrefixMembers(arts: seq<Artifact>, prefix: string)
    ensures forall a :: a in WithPrefix(arts, prefix) <==> a in arts && prefix <= a.path
  {
    if arts != [] {
      WithPrefixMembers(arts[1..], prefix);
      assert arts == [arts[0]] + arts[1..];
    }
  }

  /** The loop over the fetched rows: a dictionary of the best row per path, keys in order of arrival. */
  method FoldLatest(arts: seq<Artifact>) returns (keys: seq<string>, latest: map<string, Artifact>)
    ensures forall k :: k in latest ==> latest[k].path == k && IsBest(arts, latest[k])
    ensures forall a :: a in arts ==> a.path in latest
    ensures forall k :: k in keys <==> k in latest
    ensures forall i, j :: 0 <= i < j < |keys| ==> keys[i] != keys[j]
  {
    keys, latest := [], map[];
    var i := 0;
    while i < |arts|
      invariant 0 <= i <= |arts|
      invariant forall k :: k in latest ==> latest[k].path == k && IsBest(arts[..i], latest[k])
      invariant forall a :: a in arts[..i] ==> a.path in latest
      invariant forall k :: k in keys <==> k in latest
      invariant forall i, j :: 0 <= i < j < |keys| ==> keys[i] != keys[j]
    {
      var a := arts[i];
      assert arts[..i + 1] == arts[..i] + [a];
      if a.path !in latest {
        keys, latest := keys + [a.path], latest[a.path := a];
      } else if a.version > latest[a.path].version {
        latest := latest[a.path := a];
      }
      i := i + 1;
    }
    assert arts[..i] == arts;
  }

  /** The dictionary's values sorted by path. */
  method SortByPath(keys: seq<string>, latest: map<string, Artifact>) returns (paths: seq<Artifact>)
    requires forall k :: k in latest ==> latest[k].path == k
    requires forall k :: k in keys <==> k in latest
    requires forall i, j :: 0 <= i < j < |keys| ==> keys[i] != keys[j]
    ensures Sorted(paths, ByPath())
    ensures forall a :: a in paths <==> a.path in latest && latest[a.path] == a
  {
    paths := [];
    var i := 0;
    while i < |keys|
      invariant 0 <= i <= |keys|
      invariant Sorted(paths, ByPath())
      invariant forall a :: a in paths <==> a.path in keys[..i] && latest[a.path] == a
    {
      var a := latest[keys[i]];
      assert keys[..i + 1] == keys[..i] + [keys[i]];
      ByPathStrict();
      forall j | 0 <= j < |paths|
        ensures ByPath()(a, paths[j]) || ByPath()(paths[j], a)
      {
        assert paths[j] in paths;
      }
      InsertSorted(a, paths, ByPath());
      InsertMembers(a, paths, ByPath());
      paths := Insert(a, paths, ByPath());
      i := i + 1;
    }
    assert keys[..i] == keys;
  }

  /** The newest version of a file that carries the prefix, with fewer than `limit` rows before it. */
  predicate Listed(
    rows: seq<Artifact>, job: int, prefix: string, limit: int, lt: (string, string) -> bool, a: Artifact)
  {
    && Newest(rows, job, a.path) == Some(a)
    && prefix <= a.path
    && Below(rows, job, a.path, lt) < limit
  }

  /** `workspace_list`: one entry per listed file, sorted by path, each the newest version. A file is
      listed exactly when it carries the prefix and fewer than `limit` rows have smaller paths. */
  method WorkspaceList(
      jobs: set<int>, rows: seq<Artifact>, job: int, prefix: Option<string>, limit: Option<int>,
      lt: (string, string) -> bool)
    returns (r: Result<seq<Artifact>, ToolError>)
    requires Dense(rows) && Collation(lt)
    ensures r == Err(JobNotFound) <==> job !in jobs
    ensures r.Err? <==> job !in jobs || LimitFor(limit) < 0
    ensures r.Ok? ==> Sorted(r.value, ByPath())
    ensures r.Ok? ==> forall a :: a in r.value <==> Listed(rows, job, PrefixFor(prefix), LimitFor(limit), lt, a)
    ensures r.Ok? ==> forall a :: a in r.value ==> Newest(rows, job, a.path) == Some(a) && PrefixFor(prefix) <= a.path
    ensures r.Ok? ==> forall a: Artifact | Newest(rows, job, a.path) == Some(a) && PrefixFor(prefix) <= a.path ::
      (a in r.value <==> Below(rows, job, a.path, lt) < LimitFor(limit))
  {
    if job !in jobs {
      return Err(JobNotFound);
    }
    if LimitFor(limit) < 0 {
      return Err(BadLimit);
    }
    var page := ListForJob(rows, job, LimitFor(limit), lt);
    var arts := WithPrefix(page, PrefixFor(prefix));
    var keys, latest := FoldLatest(arts);
    var paths := SortByPath(keys, latest);
    DenseUnique(rows);
    WithPrefixMembers(page, PrefixFor(prefix));
    PageUnique(rows, job, LimitFor(limit), lt);
    forall a
      ensures a in paths <==> Listed(rows, job, PrefixFor(prefix), LimitFor(limit), lt, a)
    {
      TruncatedShowsNewest(rows, job, LimitFor(limit), lt, a);
      if IsBest(arts, a) {
        var b := latest[a.path];
        assert b in arts && b.version == a.version;
      }
    }
    r := Ok(paths);
  }

  /** Two fetched rows with the same path and version are the same row. */
  lemma PageUnique(rows: seq<Artifact>, job: int, limit: nat, lt: (string, string) -> bool)
    requires UniqueRows(rows) && Collation(lt)
    ensures var page := ListForJob(rows, job, limit, lt);
      forall a, b :: a in page && b in page && a.path == b.path && a.version == b.version ==> a == b
  {
    var t := Sort(ForJob(rows, job), RowOrder(lt));
    var page := ListForJob(rows, job, limit, lt);
    SortedRows(rows, job, lt);
    assert forall i :: 0 <= i < |page| ==> page[i] == t[i];
    forall a, b | a in page && b in page && a.path == b.path && a.version == b.version
      ensures a == b
    {
      assert a in t && b in t;
      SameRow(rows, a, b);
    }
  }

  /** The tables behind the tools, written one call at a time. */
  class Workspace {
    var jobs: set<int>
    var rows: seq<Artifact>

    ghost predicate Valid()
      reads this
    {
      Dense(rows)
    }

    constructor (jobs: set<int>)
      ensures Valid() && this.jobs == jobs && rows == []
    {
      this.jobs, rows := jobs, [];
    }

    /** `record_artifact`: the two steps of a writer with no other in between never collide. */
    method RecordArtifact(job: int, path: string, content: Option<string>) returns (r: Result<Artifact, ToolError>)
      requires Valid()
      modifies this`rows
      ensures Valid()
      ensures r.Err? <==> job !in jobs
      ensures r.Err? ==> r.error == JobNotFound && rows == old(rows)
      ensures r.Ok? ==> r.value == Artifact(job, path, |Of(old(rows), job, path)| + 1, content)
      ensures
        var s := Store(jobs, old(rows), map[]);
        rows == Do(Do(s, Look(0, job, path, content)), Put(0)).rows
      ensures r.Ok? ==> rows == old(rows) + [r.value] && Newest(rows, job, path) == Some(r.value)
      ensures Replay(rows) == if r.Ok? then Replay(old(rows))[(job, path) := content] else Replay(old(rows))
    {
      if job !in jobs {
        return Err(JobNotFound);
      }
      NewestIsLast(rows, job, path);
      var row := NextRow(rows, job, path, content);
      AppendDense(rows, row);
      TakenIff(rows, row);
      OfAppend(rows, row, job, path);
      assert (rows + [row])[..|rows|] == rows;
      rows := rows + [row];
      NewestIsLast(rows, job, path);
      r := Ok(row);
    }

    /** `workspace_write`: the path is checked before the content. */
    method WorkspaceWrite(job: int, userPath: string, content: Option<string>) returns (r: Result<Artifact, ToolError>)
      requires Valid()
      modifies this`rows
      ensures Valid()
      ensures r.Ok? <==> job in jobs && Sanitize(userPath).Ok? && content.Some?
      ensures r.Ok? ==> ReadFile(jobs, rows, job, userPath) == Ok(Some(r.value)) && r.value.content == content
      ensures r.Ok? ==> Normal(r.value.path)
      ensures r.Err? ==> rows == old(rows)
      ensures forall j, p :: !(r.Ok? && At(r.value, j, p)) ==>
        Newest(rows, j, p) == old(Newest(rows, j, p))
    {
      if job !in jobs {
        return Err(JobNotFound);
      }
      match Sanitize(userPath) {
        case Err(e) => return Err(BadPath(e));
        case Ok(path) =>
          if content.None? {
            return Err(ContentRequired);
          }
          r := RecordArtifact(job, path, content);
          SanitizeNormal(userPath);
          forall j, p | !At(r.value, j, p)
            ensures Newest(rows, j, p) == old(Newest(rows, j, p))
          {
            assert (old(rows) + [r.value])[..|old(rows)|] == old(rows);
          }
      }
    }
  }
}
