/**
 The generation-keyed cache of derived persona artifacts, at the level of single Redis commands.

 One persona; readers, writers and invalidations interleave freely. Each cached field carries the
 time at which its writer read the generation, so that a lookup can be told how old a field is.
 */
module PersonaCache {
  import opened Prelude

  datatype Field = Field(value: string, readAt: nat)

  type Entry = map<string, Field>

  /** `_get_entry`: GET generation, GET entry. */
  datatype Reader = RStart | RGeneration(gen: nat, since: nat) | RDone(gen: nat, since: nat, found: Entry)

  /** `_set_fields`: GET generation, GET entry, SET entry. */
  datatype Writer =
    | WStart(fields: map<string, string>)
    | WGeneration(fields: map<string, string>, gen: nat, readAt: nat)
    | WEntry(fields: map<string, string>, gen: nat, readAt: nat, current: Entry)
    | WDone

  /** `invalidate`: GET generation, SET generation, DELETE two entries. */
  datatype Invalidator = IStart | IGeneration(gen: nat) | ISet(gen: nat, bump: nat) | IDone(bump: nat, endAt: nat)

  datatype State = State(
    time: nat,
    gen: nat,
    entries: map<nat, Entry>,
    readers: seq<Reader>,
    writers: seq<Writer>,
    invalidators: seq<Invalidator>,
    bumps: seq<nat>)

  datatype Op = Read(i: nat) | Write(i: nat) | Invalidate(i: nat) | Expire(gen: nat)

  function EntryAt(s: State, gen: nat): Entry { if gen in s.entries then s.entries[gen] else map[] }

  /** In a guarded run an invalidation sets the generation only while the one it read is current. */
  predicate Can(s: State, op: Op, guarded: bool) {
    match op
    case Read(i) => i < |s.readers| && !s.readers[i].RDone?
    case Write(i) => i < |s.writers| && !s.writers[i].WDone?
    case Invalidate(i) =>
      && i < |s.invalidators| && !s.invalidators[i].IDone?
      && (guarded ==> !StaleSet(s, i))
    case Expire(_) => true
  }

  /** The next command of invalidation i sets a generation that it computed from an outdated one. */
  predicate StaleSet(s: State, i: nat) {
    i < |s.invalidators| && s.invalidators[i].IGeneration? && s.invalidators[i].gen != s.gen
  }

  function Stamped(fields: map<string, string>, readAt: nat): Entry {
    map k | k in fields :: Field(fields[k], readAt)
  }

  /** The next Redis command of one process, or the expiry of an entry. */
  function Do(s: State, op: Op, guarded: bool): State
    requires Can(s, op, guarded)
  {
    var t := s.(time := s.time + 1);
    match op
    case Read(i) =>
      var r := (match s.readers[i]
                case RStart => RGeneration(s.gen, s.time)
                case RGeneration(gen, since) => RDone(gen, since, EntryAt(s, gen))
                case RDone(gen, since, found) => s.readers[i]);
      t.(readers := s.readers[i := r])
    case Write(i) =>
      (match s.writers[i]
       case WStart(fields) => t.(writers := s.writers[i := WGeneration(fields, s.gen, s.time)])
       case WGeneration(fields, gen, readAt) =>
         t.(writers := s.writers[i := WEntry(fields, gen, readAt, EntryAt(s, gen))])
       case WEntry(fields, gen, readAt, current) =>
         t.(writers := s.writers[i := WDone], entries := s.entries[gen := current + Stamped(fields, readAt)])
       case WDone => t)
    case Invalidate(i) =>
      (match s.invalidators[i]
       case IStart => t.(invalidators := s.invalidators[i := IGeneration(s.gen)])
       case IGeneration(gen) =>
         t.(invalidators := s.invalidators[i := ISet(gen, |s.bumps|)], gen := gen + 1, bumps := s.bumps + [s.time])
       case ISet(gen, bump) =>
         t.(invalidators := s.invalidators[i := IDone(bump, s.time)], entries := s.entries - {gen, gen + 1})
       case IDone(bump, endAt) => t)
    case Expire(gen) => t.(entries := s.entries - {gen})
  }

  predicate Feasible(s: State, ops: seq<Op>, guarded: bool)
    decreases |ops|
  {
    ops == [] || (Can(s, ops[0], guarded) && Feasible(Do(s, ops[0], guarded), ops[1..], guarded))
  }

  function Exec(s: State, ops: seq<Op>, guarded: bool): State
    requires Feasible(s, ops, guarded)
    decreases |ops|
  {
    if ops == [] then s else Exec(Do(s, ops[0], guarded), ops[1..], guarded)
  }

  function Start(readerCount: nat, writes: seq<map<string, string>>, invalidations: nat): State {
    State(0, 0, map[],
          seq(readerCount, _ => RStart),
          seq(|writes|, i requires 0 <= i < |writes| => WStart(writes[i])),
          seq(invalidations, _ => IStart),
          [])
  }

  // ---- The invariant ----

  /** The time lies after the bump that made generation `gen` current. */
  predicate AfterBump(bumps: seq<nat>, gen: nat, at: nat) {
    gen <= |bumps| && (gen > 0 ==> bumps[gen - 1] < at)
  }

  /** Every field of an entry was written by someone who read the entry's own generation. */
  ghost predicate EntryOk(bumps: seq<nat>, gen: nat, e: Entry) {
    forall k :: k in e ==> AfterBump(bumps, gen, e[k].readAt)
  }

  /** A generation read at `since` counts every bump before that time. */
  ghost predicate CountsBumps(bumps: seq<nat>, gen: nat, since: nat) {
    gen <= |bumps| && forall k :: 0 <= k < |bumps| && bumps[k] < since ==> k < gen
  }

  ghost predicate ReaderOk(s: State, r: Reader) {
    match r
    case RStart => true
    case RGeneration(gen, since) => since < s.time && CountsBumps(s.bumps, gen, since)
    case RDone(gen, since, found) =>
      since < s.time && CountsBumps(s.bumps, gen, since) && EntryOk(s.bumps, gen, found)
  }

  ghost predicate WriterOk(bumps: seq<nat>, w: Writer) {
    match w
    case WStart(_) => true
    case WGeneration(_, gen, readAt) => AfterBump(bumps, gen, readAt)
    case WEntry(_, gen, readAt, current) => AfterBump(bumps, gen, readAt) && EntryOk(bumps, gen, current)
    case WDone => true
  }

  ghost predicate InvalidatorOk(s: State, x: Invalidator) {
    match x
    case IStart => true
    case IGeneration(gen) => gen <= s.gen
    case ISet(_, bump) => bump < |s.bumps|
    case IDone(bump, endAt) => bump < |s.bumps| && s.bumps[bump] < endAt
  }

  ghost predicate ClockOk(s: State) {
    && s.gen == |s.bumps|
    && (forall k :: 0 <= k < |s.bumps| ==> s.bumps[k] < s.time)
    && (forall k, l :: 0 <= k < l < |s.bumps| ==> s.bumps[k] < s.bumps[l])
  }

  ghost predicate Inv(s: State) {
    && ClockOk(s)
    && (forall g :: g in s.entries ==> EntryOk(s.bumps, g, s.entries[g]))
    && (forall i :: 0 <= i < |s.readers| ==> ReaderOk(s, s.readers[i]))
    && (forall i :: 0 <= i < |s.writers| ==> WriterOk(s.bumps, s.writers[i]))
    && (forall i :: 0 <= i < |s.invalidators| ==> InvalidatorOk(s, s.invalidators[i]))
  }

  lemma StartInv(readerCount: nat, writes: seq<map<string, string>>, invalidations: nat)
    ensures Inv(Start(readerCount, writes, invalidations))
  {
  }

  lemma ReadInv(s: State, i: nat)
    requires Inv(s) && Can(s, Read(i), true)
    ensures Inv(Do(s, Read(i), true))
  {
    assert ReaderOk(s, s.readers[i]);
  }

  lemma WriteInv(s: State, i: nat)
    requires Inv(s) && Can(s, Write(i), true)
    ensures Inv(Do(s, Write(i), true))
  {
    assert WriterOk(s.bumps, s.writers[i]);
  }

  /** A bump leaves everything that was true of earlier generations true. */
  lemma BumpKeeps(s: State, e: Entry, g: nat)
    requires ClockOk(s) && EntryOk(s.bumps, g, e)
    ensures EntryOk(s.bumps + [s.time], g, e)
  {
  }

  lemma BumpInv(s: State, i: nat)
    requires Inv(s) && Can(s, Invalidate(i), true) && s.invalidators[i].IGeneration?
    ensures Inv(Do(s, Invalidate(i), true))
  {
    var s' := Do(s, Invalidate(i), true);
    assert InvalidatorOk(s, s.invalidators[i]);
    forall g | g in s'.entries
      ensures EntryOk(s'.bumps, g, s'.entries[g])
    {
      BumpKeeps(s, s.entries[g], g);
    }
    forall j | 0 <= j < |s'.readers|
      ensures ReaderOk(s', s'.readers[j])
    {
      assert ReaderOk(s, s.readers[j]);
      if s.readers[j].RDone? {
        BumpKeeps(s, s.readers[j].found, s.readers[j].gen);
      }
    }
    forall j | 0 <= j < |s'.writers|
      ensures WriterOk(s'.bumps, s'.writers[j])
    {
      assert WriterOk(s.bumps, s.writers[j]);
      if s.writers[j].WEntry? {
        BumpKeeps(s, s.writers[j].current, s.writers[j].gen);
      }
    }
    forall j | 0 <= j < |s'.invalidators|
      ensures InvalidatorOk(s', s'.invalidators[j])
    {
      assert InvalidatorOk(s, s.invalidators[j]);
    }
  }

  lemma InvalidateInv(s: State, i: nat)
    requires Inv(s) && Can(s, Invalidate(i), true)
    ensures Inv(Do(s, Invalidate(i), true))
  {
    assert InvalidatorOk(s, s.invalidators[i]);
    if s.invalidators[i].IGeneration? {
      BumpInv(s, i);
    } else {
      var s' := Do(s, Invalidate(i), true);
      forall j | 0 <= j < |s'.readers|
        ensures ReaderOk(s', s'.readers[j])
      {
        assert ReaderOk(s, s.readers[j]);
      }
      forall j | 0 <= j < |s'.invalidators|
        ensures InvalidatorOk(s', s'.invalidators[j])
      {
        assert InvalidatorOk(s, s.invalidators[j]);
      }
    }
  }

  lemma ExpireInv(s: State, gen: nat)
    requires Inv(s)
    ensures Inv(Do(s, Expire(gen), true))
  {
    var s' := Do(s, Expire(gen), true);
    forall j | 0 <= j < |s'.readers|
      ensures ReaderOk(s', s'.readers[j])
    {
      assert ReaderOk(s, s.readers[j]);
    }
    forall j | 0 <= j < |s'.invalidators|
      ensures InvalidatorOk(s', s'.invalidators[j])
    {
      assert InvalidatorOk(s, s.invalidators[j]);
    }
  }

  lemma {:induction false} ExecInv(s: State, ops: seq<Op>)
    requires Inv(s) && Feasible(s, ops, true)
    ensures Inv(Exec(s, ops, true))
    decreases |ops|
  {
    if ops != [] {
      match ops[0] {
        case Read(i) => ReadInv(s, i);
        case Write(i) => WriteInv(s, i);
        case Invalidate(i) => InvalidateInv(s, i);
        case Expire(gen) => ExpireInv(s, gen);
      }
      ExecInv(Do(s, ops[0], true), ops[1..]);
    }
  }

  /** Lookup r started after invalidation x had ended, and yet returned a field whose writer read the
      generation before the bump of x. */
  predicate Broken(s: State, r: nat, x: nat, key: string) {
    && r < |s.readers| && s.readers[r].RDone? && key in s.readers[r].found
    && x < |s.invalidators| && s.invalidators[x].IDone? && s.invalidators[x].bump < |s.bumps|
    && s.invalidators[x].endAt < s.readers[r].since
    && s.readers[r].found[key].readAt <= s.bumps[s.invalidators[x].bump]
  }

  /** Isolation: when no invalidation sets a generation from an outdated one, a lookup that starts after
      an invalidation has ended returns no field whose writer read the generation before that
      invalidation's bump, however everything interleaves with the single commands and expiry. */
  lemma LookupsAreIsolated(readerCount: nat, writes: seq<map<string, string>>, invalidations: nat, ops: seq<Op>,
                           r: nat, x: nat, key: string)
    requires Feasible(Start(readerCount, writes, invalidations), ops, true)
    ensures !Broken(Exec(Start(readerCount, writes, invalidations), ops, true), r, x, key)
  {
    var s := Exec(Start(readerCount, writes, invalidations), ops, true);
    StartInv(readerCount, writes, invalidations);
    ExecInv(Start(readerCount, writes, invalidations), ops);
    if Broken(s, r, x, key) {
      IsolatedField(s, r, x, key);
    }
  }

  lemma IsolatedField(s: State, r: nat, x: nat, key: string)
    requires Inv(s)
    requires r < |s.readers| && s.readers[r].RDone? && key in s.readers[r].found
    requires x < |s.invalidators| && s.invalidators[x].IDone?
    requires s.invalidators[x].endAt < s.readers[r].since
    ensures s.invalidators[x].bump < |s.bumps|
    ensures s.readers[r].found[key].readAt > s.bumps[s.invalidators[x].bump]
  {
    assert ReaderOk(s, s.readers[r]) && InvalidatorOk(s, s.invalidators[x]);
    var bump, gen := s.invalidators[x].bump, s.readers[r].gen;
    assert s.bumps[bump] < s.readers[r].since;
    assert bump < gen;
    assert AfterBump(s.bumps, gen, s.readers[r].found[key].readAt);
    assert bump == gen - 1 || s.bumps[bump] < s.bumps[gen - 1];
  }

  // ---- Invalidations that do not overlap are guarded ----

  predicate UnderWay(x: Invalidator) { x.IGeneration? || x.ISet? }

  /** Each invalidation starts when no other is under way. */
  predicate NoOverlap(s: State, ops: seq<Op>)
    requires Feasible(s, ops, false)
    decreases |ops|
  {
    ops == [] ||
    (&& (ops[0].Invalidate? && s.invalidators[ops[0].i].IStart? ==>
           forall j :: 0 <= j < |s.invalidators| ==> !UnderWay(s.invalidators[j]))
     && NoOverlap(Do(s, ops[0], false), ops[1..]))
  }

  ghost predicate OneUnderWay(s: State) {
    && (forall i, j :: 0 <= i < j < |s.invalidators| ==> !UnderWay(s.invalidators[i]) || !UnderWay(s.invalidators[j]))
    && (forall i :: 0 <= i < |s.invalidators| ==> !StaleSet(s, i))
  }

  lemma {:induction false} NoOverlapIsGuarded(s: State, ops: seq<Op>)
    requires OneUnderWay(s) && Feasible(s, ops, false) && NoOverlap(s, ops)
    ensures Feasible(s, ops, true) && Exec(s, ops, true) == Exec(s, ops, false)
    decreases |ops|
  {
    if ops != [] {
      var s' := Do(s, ops[0], false);
      assert !(ops[0].Invalidate? && StaleSet(s, ops[0].i));
      forall i | 0 <= i < |s'.invalidators|
        ensures !StaleSet(s', i)
      {
        assert !StaleSet(s, i);
        assert ops[0].Invalidate? && ops[0].i != i ==>
            !UnderWay(s.invalidators[i]) || !UnderWay(s.invalidators[ops[0].i]);
      }
      NoOverlapIsGuarded(s', ops[1..]);
    }
  }

  /** So invalidations that do not overlap isolate lookups. */
  lemma NoOverlapIsolates(readerCount: nat, writes: seq<map<string, string>>, invalidations: nat, ops: seq<Op>,
                          r: nat, x: nat, key: string)
    requires Feasible(Start(readerCount, writes, invalidations), ops, false)
    requires NoOverlap(Start(readerCount, writes, invalidations), ops)
    ensures !Broken(Exec(Start(readerCount, writes, invalidations), ops, false), r, x, key)
  {
    NoOverlapIsGuarded(Start(readerCount, writes, invalidations), ops);
    LookupsAreIsolated(readerCount, writes, invalidations, ops, r, x, key);
  }

  // ---- The guard is needed ----

  lemma ExecCons(s: State, op: Op, rest: seq<Op>, guarded: bool)
    requires Can(s, op, guarded) && Feasible(Do(s, op, guarded), rest, guarded)
    ensures Feasible(s, [op] + rest, guarded)
    ensures Exec(s, [op] + rest, guarded) == Exec(Do(s, op, guarded), rest, guarded)
  {
    assert ([op] + rest)[1..] == rest;
  }

  lemma RewindSecondHalf(s4: State)
    requires s4 == State(4, 1, map[], [], [], [IGeneration(0), IDone(0, 3), IStart], [2])
    ensures var ops := [Invalidate(2), Invalidate(2), Invalidate(2), Invalidate(0)];
      Feasible(s4, ops, false) &&
      var s := Exec(s4, ops, false);
      s.gen == 1 && s.invalidators == [ISet(0, 2), IDone(0, 3), IDone(1, 6)]
  {
    var a, c := Invalidate(0), Invalidate(2);
    var s5 := State(5, 1, map[], [], [], [IGeneration(0), IDone(0, 3), IGeneration(1)], [2]);
    var s6 := State(6, 2, map[], [], [], [IGeneration(0), IDone(0, 3), ISet(1, 1)], [2, 5]);
    var s7 := State(7, 2, map[], [], [], [IGeneration(0), IDone(0, 3), IDone(1, 6)], [2, 5]);
    assert Do(s4, c, false) == s5;
    assert Do(s5, c, false) == s6;
    assert Do(s6, c, false) == s7;
    assert Do(s7, a, false) == State(8, 1, map[], [], [], [ISet(0, 2), IDone(0, 3), IDone(1, 6)], [2, 5, 7]);
    ExecCons(s7, a, [], false);
    ExecCons(s6, c, [a], false);
    ExecCons(s5, c, [c, a], false);
    ExecCons(s4, c, [c, c, a], false);
  }

  lemma {:induction false} ExecConcat(s: State, a: seq<Op>, b: seq<Op>, guarded: bool)
    requires Feasible(s, a, guarded) && Feasible(Exec(s, a, guarded), b, guarded)
    ensures Feasible(s, a + b, guarded)
    ensures Exec(s, a + b, guarded) == Exec(Exec(s, a, guarded), b, guarded)
    decreases |a|
  {
    if a == [] {
      assert a + b == b;
    } else {
      assert (a + b)[1..] == a[1..] + b;
      ExecConcat(Do(s, a[0], guarded), a[1..], b, guarded);
    }
  }

  /** Invalidation j runs from its SET to its end: the generation becomes one more than it read. */
  lemma FinishInvalidation(s: State, j: nat)
    requires j < |s.invalidators| && s.invalidators[j].IGeneration?
    ensures var ops := [Invalidate(j), Invalidate(j)];
      && Feasible(s, ops, false)
      && var s' := Exec(s, ops, false);
      && s'.time == s.time + 2 && s'.gen == s.invalidators[j].gen + 1
      && s'.readers == s.readers && s'.writers == s.writers && s'.bumps == s.bumps + [s.time]
      && s'.invalidators == s.invalidators[j := IDone(|s.bumps|, s.time + 1)]
  {
    var op := Invalidate(j);
    var s1 := Do(s, op, false);
    assert s1.invalidators[j] == ISet(s.invalidators[j].gen, |s.bumps|);
    var s2 := Do(s1, op, false);
    assert s2.invalidators == s.invalidators[j := IDone(|s.bumps|, s.time + 1)];
    ExecCons(s1, op, [], false);
    ExecCons(s, op, [op], false);
  }

  /** What a climb of the generation leaves for the end: the writer and the reader untouched, and the
      last invalidation ended after `since`. */
  ghost predicate Climbed(s: State, s': State, x: nat, since: nat) {
    && s'.readers == s.readers && s'.writers == s.writers && |s'.invalidators| == |s.invalidators|
    && x < |s'.invalidators| && s'.invalidators[x].IDone? && s'.invalidators[x].endAt < s'.time
    && s'.invalidators[x].bump < |s'.bumps| && s'.bumps[s'.invalidators[x].bump] >= since
  }

  predicate Idle(s: State, js: seq<nat>) {
    && (forall k :: 0 <= k < |js| ==> js[k] < |s.invalidators| && s.invalidators[js[k]].IStart?)
    && (forall k, l :: 0 <= k < l < |js| ==> js[k] != js[l])
  }

  /** Idle invalidations, one after the other, raise the generation by one each. */
  lemma {:induction false} Climb(s: State, js: seq<nat>, x: nat, since: nat) returns (ops: seq<Op>, y: nat)
    requires Idle(s, js) && x !in js && Climbed(s, s, x, since) && since <= s.time
    ensures Feasible(s, ops, false)
    ensures Exec(s, ops, false).gen == s.gen + |js| && Climbed(s, Exec(s, ops, false), y, since)
    decreases |js|
  {
    if js == [] {
      ops, y := [], x;
    } else {
      var j := js[0];
      var s1 := Do(s, Invalidate(j), false);
      FinishInvalidation(s1, j);
      var steps := [Invalidate(j), Invalidate(j)];
      var s3 := Exec(s1, steps, false);
      ExecCons(s, Invalidate(j), steps, false);
      var rest, z := Climb(s3, js[1..], j, since);
      var all := [Invalidate(j)] + steps;
      ExecConcat(s, all, rest, false);
      ops, y := all + rest, z;
    }
  }

  /** The writer that has read the current generation stores its fields. */
  lemma FinishWrite(s: State, w: nat, key: string)
    requires w < |s.writers| && s.writers[w].WGeneration? && key in s.writers[w].fields
    ensures var ops := [Write(w), Write(w)];
      && Feasible(s, ops, false)
      && var s' := Exec(s, ops, false);
      && s'.time == s.time + 2 && s'.gen == s.gen && s'.readers == s.readers
      && s'.invalidators == s.invalidators && s'.bumps == s.bumps
      && s.writers[w].gen in s'.entries && key in s'.entries[s.writers[w].gen]
      && s'.entries[s.writers[w].gen][key].readAt == s.writers[w].readAt
  {
    var op := Write(w);
    var s1 := Do(s, op, false);
    assert s1.writers[w].WEntry?;
    ExecCons(s1, op, [], false);
    ExecCons(s, op, [op], false);
  }

  lemma ThreeSteps(s: State, op: Op, s1: State, s2: State)
    requires Can(s, op, true) && s1 == Do(s, op, true) && Can(s1, op, true) && s2 == Do(s1, op, true) && Can(s2, op, true)
    ensures Feasible(s, [op, op, op], true) && Exec(s, [op, op, op], true) == Do(s2, op, true)
  {
    ExecCons(s2, op, [], true);
    ExecCons(s1, op, [op], true);
    ExecCons(s, op, [op, op], true);
  }

  /** An invalidation with nothing in between bumps the generation and drops the entries of both. */
  lemma SoloInvalidation(s: State, j: nat)
    requires j < |s.invalidators| && s.invalidators[j].IStart?
    ensures var ops := [Invalidate(j), Invalidate(j), Invalidate(j)];
      && Feasible(s, ops, true)
      && Exec(s, ops, true).gen == s.gen + 1
      && Exec(s, ops, true).entries == s.entries - {s.gen, s.gen + 1}
  {
    var op := Invalidate(j);
    InvalidateDoes(s, j);
    var s1 := Do(s, op, true);
    InvalidateDoes(s1, j);
    var s2 := Do(s1, op, true);
    InvalidateDoes(s2, j);
    ThreeSteps(s, op, s1, s2);
  }

  /** The three commands of an invalidation. */
  lemma InvalidateDoes(s: State, j: nat)
    requires j < |s.invalidators| && !s.invalidators[j].IDone? && Can(s, Invalidate(j), true)
    ensures var x, s' := s.invalidators[j], Do(s, Invalidate(j), true);
      && |s'.invalidators| == |s.invalidators|
      && (x.IStart? ==> s'.invalidators[j] == IGeneration(s.gen))
      && (x.IGeneration? ==> s'.invalidators[j] == ISet(x.gen, |s.bumps|))
      && s'.gen == (if x.IGeneration? then x.gen + 1 else s.gen)
      && s'.entries == (if x.ISet? then s.entries - {x.gen, x.gen + 1} else s.entries)
  {
  }

  /** A write with nothing in between adds its fields to the entry of the current generation. */
  lemma SoloWrite(s: State, w: nat)
    requires w < |s.writers| && s.writers[w].WStart?
    ensures var ops := [Write(w), Write(w), Write(w)];
      && Feasible(s, ops, true)
      && Exec(s, ops, true).gen == s.gen
      && Exec(s, ops, true).entries
         == s.entries[s.gen := EntryAt(s, s.gen) + map k | k in s.writers[w].fields :: Field(s.writers[w].fields[k], s.time)]
  {
    var op := Write(w);
    var s1 := Do(s, op, true);
    var s2 := Do(s1, op, true);
    ThreeSteps(s, op, s1, s2);
  }

  /** A lookup with nothing in between finds the current entry. */
  lemma LookUp(s: State, r: nat)
    requires r < |s.readers| && s.readers[r].RStart?
    ensures var ops := [Read(r), Read(r)];
      && Feasible(s, ops, false)
      && var s' := Exec(s, ops, false);
      && s'.invalidators == s.invalidators && s'.bumps == s.bumps && |s'.readers| == |s.readers|
      && s'.readers[r] == RDone(s.gen, s.time, EntryAt(s, s.gen))
  {
    var op := Read(r);
    var s1 := Do(s, op, false);
    assert s1.readers[r] == RGeneration(s.gen, s.time);
    ExecCons(s1, op, [], false);
    ExecCons(s, op, [op], false);
  }

  lemma StoreAndLookUp(s: State, w: nat, r: nat, key: string, x: nat, since: nat) returns (ops: seq<Op>)
    requires w < |s.writers| && s.writers[w].WGeneration? && key in s.writers[w].fields
    requires r < |s.readers| && s.readers[r].RStart? && s.gen == s.writers[w].gen
    requires Climbed(s, s, x, since) && s.writers[w].readAt <= since
    ensures Feasible(s, ops, false) && Broken(Exec(s, ops, false), r, x, key)
  {
    var store, look := [Write(w), Write(w)], [Read(r), Read(r)];
    FinishWrite(s, w, key);
    LookUp(Exec(s, store, false), r);
    ExecConcat(s, store, look, false);
    ops := store + look;
  }

  /** In a guarded run an outdated generation is an older one. */
  lemma StaleIsOlder(s: State, i: nat)
    requires Inv(s) && StaleSet(s, i)
    ensures s.invalidators[i].gen < s.gen
  {
    assert InvalidatorOk(s, s.invalidators[i]);
  }

  /** The guard is exact: wherever an invalidation is about to set a generation from an older one, a
      writer and a reader that have not started, and as many idle invalidations as the generation
      goes back, can go on so that isolation breaks. */
  lemma StaleSetBreaksIsolation(s: State, i: nat, w: nat, r: nat, js: seq<nat>, key: string)
    returns (ops: seq<Op>, x: nat)
    requires StaleSet(s, i) && s.invalidators[i].gen < s.gen
    requires w < |s.writers| && s.writers[w].WStart? && key in s.writers[w].fields
    requires r < |s.readers| && s.readers[r].RStart?
    requires Idle(s, js) && |js| == s.gen - s.invalidators[i].gen - 1
    ensures Feasible(s, ops, false) && Broken(Exec(s, ops, false), r, x, key)
  {
    var s1 := Do(s, Write(w), false);
    var steps := [Invalidate(i), Invalidate(i)];
    FinishInvalidation(s1, i);
    var s2 := Exec(s1, steps, false);
    ExecCons(s, Write(w), steps, false);
    assert s2.bumps[|s1.bumps|] == s1.time;
    var climb, y := Climb(s2, js, i, s1.time);
    var s3 := Exec(s2, climb, false);
    var last := StoreAndLookUp(s3, w, r, key, y, s1.time);
    ExecConcat(s2, climb, last, false);
    ExecConcat(s, [Write(w)] + steps, climb + last, false);
    ops, x := [Write(w)] + steps + (climb + last), y;
  }

  /** Two invalidations that overlap are enough: the second ends while the first holds generation 0. */
  lemma OverlapBreaksIsolation() returns (ops: seq<Op>, x: nat)
    ensures Feasible(Start(1, [map["p" := "old"]], 2), ops, false)
    ensures Broken(Exec(Start(1, [map["p" := "old"]], 2), ops, false), 0, x, "p")
  {
    var s0 := Start(1, [map["p" := "old"]], 2);
    var a, b := Invalidate(0), Invalidate(1);
    var s1 := Do(s0, a, false);
    var s2 := Do(s1, b, false);
    FinishInvalidation(s2, 1);
    var s4 := Exec(s2, [b, b], false);
    ExecCons(s1, b, [b, b], false);
    ExecCons(s0, a, [b, b, b], false);
    assert s4.invalidators[0] == IGeneration(0) && s4.gen == 1;
    var rest, y := StaleSetBreaksIsolation(s4, 0, 0, 0, [], "p");
    assert [a] + ([b] + [b, b]) == [a] + [b, b, b];
    ExecConcat(s0, [a] + [b, b, b], rest, false);
    ops, x := [a] + [b, b, b] + rest, y;
  }

  /** Overlapping invalidations can take the generation back: one that read generation 0 early and
      writes late sets it from 2 to 1, although two later invalidations have ended. */
  lemma OverlapRewindsGeneration()
    ensures var ops := [Invalidate(0), Invalidate(1), Invalidate(1), Invalidate(1),
                        Invalidate(2), Invalidate(2), Invalidate(2), Invalidate(0)];
      Feasible(Start(0, [], 3), ops, false) &&
      var s := Exec(Start(0, [], 3), ops, false);
      s.gen == 1 && s.invalidators == [ISet(0, 2), IDone(0, 3), IDone(1, 6)]
  {
    var a, b, c := Invalidate(0), Invalidate(1), Invalidate(2);
    var s0 := State(0, 0, map[], [], [], [IStart, IStart, IStart], []);
    assert Start(0, [], 3) == s0;
    var s1 := State(1, 0, map[], [], [], [IGeneration(0), IStart, IStart], []);
    var s2 := State(2, 0, map[], [], [], [IGeneration(0), IGeneration(0), IStart], []);
    var s3 := State(3, 1, map[], [], [], [IGeneration(0), ISet(0, 0), IStart], [2]);
    var s4 := State(4, 1, map[], [], [], [IGeneration(0), IDone(0, 3), IStart], [2]);
    assert Do(s0, a, false) == s1;
    assert Do(s1, b, false) == s2;
    assert Do(s2, b, false) == s3;
    assert Do(s3, b, false) == s4;
    RewindSecondHalf(s4);
    ExecCons(s3, b, [c, c, c, a], false);
    ExecCons(s2, b, [b, c, c, c, a], false);
    ExecCons(s1, b, [b, b, c, c, c, a], false);
    ExecCons(s0, a, [b, b, b, c, c, c, a], false);
  }
}

/**
 The persona service over the cache, one operation at a time: table, generations and entries, with
 entries that may expire at any moment.
 */
module PersonaService {
  import opened Prelude

  /** The engine's two derivations from a profile. */
  datatype Engine = Engine(buildPrompt: string -> string, sampling: string -> string)

  datatype Entry = Entry(prompt: Option<string>, sampling: Option<string>)

  datatype State = State(personas: map<int, string>, gens: map<int, nat>, entries: map<(int, nat), Entry>)

  datatype Op =
    | Create(id: int, profile: string)
    | Update(id: int, profile: string)
    | Delete(id: int)
    | GetPrompt(id: int)
    | GetSampling(id: int)
    | Expire(id: int, gen: nat)

  function Gen(s: State, id: int): nat { if id in s.gens then s.gens[id] else 0 }

  function EntryOf(s: State, id: int): Entry {
    if (id, Gen(s, id)) in s.entries then s.entries[(id, Gen(s, id))] else Entry(None, None)
  }

  /** `invalidate`: bump the generation and delete the entries of both generations. */
  function Invalidated(s: State, id: int): State {
    var g := Gen(s, id);
    s.(gens := s.gens[id := g + 1], entries := s.entries - {(id, g), (id, g + 1)})
  }

  function SetPrompt(s: State, id: int, prompt: string): State {
    s.(entries := s.entries[(id, Gen(s, id)) := EntryOf(s, id).(prompt := Some(prompt))])
  }

  function SetSampling(s: State, id: int, params: string): State {
    s.(entries := s.entries[(id, Gen(s, id)) := EntryOf(s, id).(sampling := Some(params))])
  }

  /** An empty prompt in the cache counts as a miss. */
  function CachedPrompt(s: State, id: int): Option<string> {
    var p := EntryOf(s, id).prompt;
    if p.Some? && p.value != "" then p else None
  }

  function CachedSampling(s: State, id: int): Option<string> { EntryOf(s, id).sampling }

  /** What the getters return: the cached value, or the value derived from the table. */
  function Answer(s: State, e: Engine, op: Op): Option<string> {
    match op
    case GetPrompt(id) =>
      if CachedPrompt(s, id).Some? then CachedPrompt(s, id)
      else if id in s.personas then Some(e.buildPrompt(s.personas[id])) else None
    case GetSampling(id) =>
      if CachedSampling(s, id).Some? then CachedSampling(s, id)
      else if id in s.personas then Some(e.sampling(s.personas[id])) else None
    case _ => None
  }

  /** What they ought to return. */
  function Recomputed(s: State, e: Engine, op: Op): Option<string> {
    match op
    case GetPrompt(id) => if id in s.personas then Some(e.buildPrompt(s.personas[id])) else None
    case GetSampling(id) => if id in s.personas then Some(e.sampling(s.personas[id])) else None
    case _ => None
  }

  function Do(s: State, e: Engine, op: Op): State {
    match op
    case Create(id, profile) => if id in s.personas then s else s.(personas := s.personas[id := profile])
    case Update(id, profile) =>
      if id in s.personas then Invalidated(s.(personas := s.personas[id := profile]), id) else s
    case Delete(id) => if id in s.personas then Invalidated(s.(personas := s.personas - {id}), id) else s
    case GetPrompt(id) =>
      if CachedPrompt(s, id).None? && id in s.personas then SetPrompt(s, id, e.buildPrompt(s.personas[id])) else s
    case GetSampling(id) =>
      if CachedSampling(s, id).None? && id in s.personas then SetSampling(s, id, e.sampling(s.personas[id])) else s
    case Expire(id, gen) => s.(entries := s.entries - {(id, gen)})
  }

  function Exec(s: State, e: Engine, ops: seq<Op>): State {
    if ops == [] then s else Do(Exec(s, e, ops[..|ops| - 1]), e, ops[|ops| - 1])
  }

  /** No entry of a generation to come, and the current one holds what the table says. */
  ghost predicate EntryOk(s: State, e: Engine, id: int, g: nat)
    requires (id, g) in s.entries
  {
    && g <= Gen(s, id)
    && (g == Gen(s, id) ==>
          && id in s.personas
          && (s.entries[(id, g)].prompt.Some? ==> s.entries[(id, g)].prompt.value == e.buildPrompt(s.personas[id]))
          && (s.entries[(id, g)].sampling.Some? ==> s.entries[(id, g)].sampling.value == e.sampling(s.personas[id])))
  }

  ghost predicate CacheOk(s: State, e: Engine) {
    forall id, g :: (id, g) in s.entries ==> EntryOk(s, e, id, g)
  }

  lemma DoCacheOk(s: State, e: Engine, op: Op)
    requires CacheOk(s, e)
    ensures CacheOk(Do(s, e, op), e)
  {
    var s' := Do(s, e, op);
    forall id, g | (id, g) in s'.entries
      ensures EntryOk(s', e, id, g)
    {
      assert (id, g) in s.entries ==> EntryOk(s, e, id, g);
    }
  }

  /** A cached answer is a fresh answer. */
  lemma AnswerIsFresh(s: State, e: Engine, op: Op)
    requires CacheOk(s, e)
    ensures Answer(s, e, op) == Recomputed(s, e, op)
  {
    if op.GetPrompt? || op.GetSampling? {
      var g := Gen(s, op.id);
      assert (op.id, g) in s.entries ==> EntryOk(s, e, op.id, g);
    }
  }

  function Empty(): State { State(map[], map[], map[]) }

  /** For every history of operations, each one atomic, and whatever entries expire in between, every
      answer of the service equals recomputation from the table. */
  lemma {:induction false} CachedEqualsRecomputed(e: Engine, ops: seq<Op>, op: Op)
    ensures CacheOk(Exec(Empty(), e, ops), e)
    ensures Answer(Exec(Empty(), e, ops), e, op) == Recomputed(Exec(Empty(), e, ops), e, op)
  {
    if ops != [] {
      CachedEqualsRecomputed(e, ops[..|ops| - 1], op);
      DoCacheOk(Exec(Empty(), e, ops[..|ops| - 1]), e, ops[|ops| - 1]);
    }
    AnswerIsFresh(Exec(Empty(), e, ops), e, op);
  }

  // ---- The table, read off the history ----

  predicate Creates(op: Op, id: int) { op.Create? && op.id == id }

  predicate Rewrites(op: Op, id: int) { (op.Update? || op.Delete?) && op.id == id }

  /** Some creation of the persona has no later deletion. */
  ghost predicate Exists(ops: seq<Op>, id: int) {
    exists k :: 0 <= k < |ops| && Creates(ops[k], id) && forall l :: k < l < |ops| ==> ops[l] != Delete(id)
  }

  /** Operation k gave the persona its present profile: a creation while there was none or an update
      while there was one, with no update or deletion since. */
  ghost predicate Decides(ops: seq<Op>, id: int, k: nat) {
    && k < |ops| && (ops[k].Create? || ops[k].Update?) && ops[k].id == id
    && (ops[k].Create? <==> !Exists(ops[..k], id))
    && forall l :: k < l < |ops| ==> !Rewrites(ops[l], id)
  }

  lemma ExistsStep(ops: seq<Op>, op: Op, id: int)
    ensures Exists(ops + [op], id) <==> Creates(op, id) || (Exists(ops, id) && op != Delete(id))
  {
    var all := ops + [op];
    if Creates(op, id) {
      assert Creates(all[|ops|], id);
    } else if Exists(ops, id) && op != Delete(id) {
      var k :| 0 <= k < |ops| && Creates(ops[k], id) && forall l :: k < l < |ops| ==> ops[l] != Delete(id);
      assert Creates(all[k], id);
    }
    if Exists(all, id) && !Creates(op, id) {
      var k :| 0 <= k < |all| && Creates(all[k], id) && forall l :: k < l < |all| ==> all[l] != Delete(id);
      assert all[|ops|] == op;
      assert forall l :: 0 <= l < |ops| ==> ops[l] == all[l];
      assert Creates(ops[k], id);
    }
  }

  lemma DecidesStep(ops: seq<Op>, op: Op, id: int, k: nat)
    requires Decides(ops, id, k) && !Rewrites(op, id)
    ensures Decides(ops + [op], id, k)
  {
    assert (ops + [op])[..k] == ops[..k];
  }

  lemma DecidesNow(ops: seq<Op>, op: Op, id: int)
    requires (op.Create? || op.Update?) && op.id == id && (op.Create? <==> !Exists(ops, id))
    ensures Decides(ops + [op], id, |ops|)
  {
    assert (ops + [op])[..|ops|] == ops;
  }

  /** After every history the table holds a persona if and only if some creation of it has no later
      deletion, and its profile is the one of the operation that decides it. */
  lemma {:induction false} TableIsHistory(e: Engine, ops: seq<Op>, id: int) returns (k: nat)
    ensures id in Exec(Empty(), e, ops).personas <==> Exists(ops, id)
    ensures Exists(ops, id) ==> Decides(ops, id, k) && Exec(Empty(), e, ops).personas[id] == ops[k].profile
  {
    k := 0;
    if ops != [] {
      var init, op := ops[..|ops| - 1], ops[|ops| - 1];
      assert ops == init + [op];
      k := TableIsHistory(e, init, id);
      ExistsStep(init, op, id);
      if Exists(ops, id) {
        if Exists(init, id) && !(op.Update? && op.id == id) {
          DecidesStep(init, op, id, k);
        } else {
          DecidesNow(init, op, id);
          k := |init|;
        }
      }
    }
  }

  /** So after every history the service answers from the last profile given to a persona that exists,
      and nothing for one that was never created or was deleted. */
  lemma AnswersFollowHistory(e: Engine, ops: seq<Op>, id: int) returns (k: nat)
    ensures !Exists(ops, id) ==>
      Answer(Exec(Empty(), e, ops), e, GetPrompt(id)) == None == Answer(Exec(Empty(), e, ops), e, GetSampling(id))
    ensures Exists(ops, id) ==>
      && Decides(ops, id, k)
      && Answer(Exec(Empty(), e, ops), e, GetPrompt(id)) == Some(e.buildPrompt(ops[k].profile))
      && Answer(Exec(Empty(), e, ops), e, GetSampling(id)) == Some(e.sampling(ops[k].profile))
  {
    k := TableIsHistory(e, ops, id);
    CachedEqualsRecomputed(e, ops, GetPrompt(id));
    CachedEqualsRecomputed(e, ops, GetSampling(id));
  }

  /** Atomicity matters: a prompt derived from the old profile and stored after an update is read
      under the new generation, because the generation is looked up at the time of the write. */
  lemma LateWriteSurvivesUpdate(s: State, e: Engine, id: int, profile: string)
    requires CacheOk(s, e) && id in s.personas
    requires e.buildPrompt(s.personas[id]) != "" && e.buildPrompt(s.personas[id]) != e.buildPrompt(profile)
    ensures var stale := e.buildPrompt(s.personas[id]);
      var s' := SetPrompt(Do(s, e, Update(id, profile)), id, stale);
      Answer(s', e, GetPrompt(id)) == Some(stale) != Recomputed(s', e, GetPrompt(id))
  {
  }

  /** A prompt stored under a generation that was read some time before. */
  function SetPromptAt(s: State, id: int, gen: nat, prompt: string): State {
    var current := if (id, gen) in s.entries then s.entries[(id, gen)] else Entry(None, None);
    s.(entries := s.entries[(id, gen) := current.(prompt := Some(prompt))])
  }

  /** When the pattern is race-safe: a prompt from the old profile, stored after the update, leaves
      the next answer fresh exactly when its writer read the generation before the update's bump, or
      the prompt is empty, or the update did not change it. */
  lemma LateWriteFreshIff(s: State, e: Engine, id: int, profile: string, gen: nat)
    requires CacheOk(s, e) && id in s.personas && gen <= Gen(s, id) + 1
    ensures var stale := e.buildPrompt(s.personas[id]);
      var s' := SetPromptAt(Do(s, e, Update(id, profile)), id, gen, stale);
      (Answer(s', e, GetPrompt(id)) == Recomputed(s', e, GetPrompt(id))) <==>
      (gen <= Gen(s, id) || stale == "" || stale == e.buildPrompt(profile))
  {
    var s1 := Do(s, e, Update(id, profile));
    DoCacheOk(s, e, Update(id, profile));
    AnswerIsFresh(s1, e, GetPrompt(id));
    assert Gen(s1, id) == Gen(s, id) + 1;
  }

  // ---- The service object ----

  class Service {
    const engine: Engine
    var personas: map<int, string>
    var gens: map<int, nat>
    var entries: map<(int, nat), Entry>

    function View(): State
      reads this
    {
      State(personas, gens, entries)
    }

    ghost predicate Valid()
      reads this
    {
      CacheOk(View(), engine)
    }

    constructor (engine: Engine)
      ensures Valid() && View() == Empty() && this.engine == engine
    {
      this.engine := engine;
      personas, gens, entries := map[], map[], map[];
    }

    method Invalidate(id: int)
      modifies this`gens, this`entries
      ensures View() == Invalidated(old(View()), id)
      ensures var g := if id in old(gens) then old(gens)[id] else 0;
        gens == old(gens)[id := g + 1] && entries == old(entries) - {(id, g), (id, g + 1)}
    {
      var current := if id in gens then gens[id] else 0;
      gens := gens[id := current + 1];
      entries := entries - {(id, current), (id, current + 1)};
    }

    method UpdatePersona(id: int, profile: string) returns (updated: bool)
      requires Valid()
      modifies this
      ensures Valid() && View() == Do(old(View()), engine, Update(id, profile))
      ensures updated <==> id in old(personas)
      ensures personas == if id in old(personas) then old(personas)[id := profile] else old(personas)
      ensures updated ==> gens == old(gens)[id := (if id in old(gens) then old(gens)[id] else 0) + 1]
    {
      DoCacheOk(View(), engine, Update(id, profile));
      updated := id in personas;
      if updated {
        personas := personas[id := profile];
        Invalidate(id);
      }
    }

    method DeletePersona(id: int) returns (deleted: bool)
      requires Valid()
      modifies this
      ensures Valid() && View() == Do(old(View()), engine, Delete(id))
      ensures deleted <==> id in old(personas)
      ensures personas == old(personas) - {id}
      ensures deleted ==> gens == old(gens)[id := (if id in old(gens) then old(gens)[id] else 0) + 1]
    {
      DoCacheOk(View(), engine, Delete(id));
      deleted := id in personas;
      if deleted {
        personas := personas - {id};
        Invalidate(id);
      }
    }

    method GetSystemPrompt(id: int) returns (prompt: Option<string>)
      requires Valid()
      modifies this`entries
      ensures Valid() && View() == Do(old(View()), engine, GetPrompt(id))
      ensures prompt == Recomputed(View(), engine, GetPrompt(id))
      ensures prompt == if id in personas then Some(engine.buildPrompt(personas[id])) else None
      ensures var cached := EntryOf(old(View()), id);
        var hit := cached.prompt.Some? && cached.prompt.value != "";
        entries == if hit || id !in personas then old(entries)
                   else old(entries)[(id, Gen(View(), id)) := Entry(prompt, cached.sampling)]
    {
      AnswerIsFresh(View(), engine, GetPrompt(id));
      DoCacheOk(View(), engine, GetPrompt(id));
      prompt := CachedPrompt(View(), id);
      if prompt.None? && id in personas {
        prompt := Some(engine.buildPrompt(personas[id]));
        entries := entries[(id, Gen(View(), id)) := EntryOf(View(), id).(prompt := prompt)];
      }
    }

    method GetSamplingParams(id: int) returns (params: Option<string>)
      requires Valid()
      modifies this`entries
      ensures Valid() && View() == Do(old(View()), engine, GetSampling(id))
      ensures params == Recomputed(View(), engine, GetSampling(id))
      ensures params == if id in personas then Some(engine.sampling(personas[id])) else None
      ensures var cached := EntryOf(old(View()), id);
        entries == if cached.sampling.Some? || id !in personas then old(entries)
                   else old(entries)[(id, Gen(View(), id)) := Entry(cached.prompt, params)]
    {
      AnswerIsFresh(View(), engine, GetSampling(id));
      DoCacheOk(View(), engine, GetSampling(id));
      params := CachedSampling(View(), id);
      if params.None? && id in personas {
        params := Some(engine.sampling(personas[id]));
        entries := entries[(id, Gen(View(), id)) := EntryOf(View(), id).(sampling := params)];
      }
    }
  }
}
