/**
 Life and succession in a family: members age, die and are replaced by an heir that takes over
 their place. The member table is a sequence of rows in insertion order; a member's id is its row.
 */
module Life {
  import opened Prelude
  import opened Text

  datatype Role = Parent | Child

  datatype Member = Member(
    role: Role,
    title: Option<string>,
    active: bool,
    alive: bool,
    generation: int,
    age: int,
    maxAge: int,
    growth: real,
    thinking: real,
    successorOf: Option<nat>,
    lineage: Option<nat>)

  const DEFAULT_MAX_AGE := 6

  function Min1(x: real): real { if x <= 1.0 then x else 1.0 }

  function OrHalf(x: real): real { if x == 0.0 then 0.5 else x }

  /** A missing or empty role label is read as "builder". */
  function LabelOf(m: Member): string {
    if m.title.Some? && m.title.value != "" then m.title.value else "builder"
  }

  predicate Living(m: Member) { m.active && m.alive }

  // ---- life_tick ----

  /** One tick of age for a living member; a policy age replaces the member's own. */
  function Aged(m: Member, policy: Option<int>, forceAge: int): Member {
    m.(age := m.age + (if forceAge < 1 then 1 else forceAge),
       growth := Min1(m.growth + 0.04),
       thinking := Min1(OrHalf(m.thinking) + 0.015),
       maxAge := if policy.Some? then policy.value else m.maxAge)
  }

  function MaxAge(m: Member, policy: Option<int>): int {
    if policy.Some? then policy.value else if m.maxAge == 0 then DEFAULT_MAX_AGE else m.maxAge
  }

  function AgeOne(m: Member, policy: Option<int>, forceAge: int): Member {
    if Living(m) then Aged(m, policy, forceAge) else m
  }

  function AgeAll(rows: seq<Member>, policy: Option<int>, forceAge: int): (r: seq<Member>)
    ensures |r| == |rows|
    ensures forall i :: 0 <= i < |rows| ==> r[i] == AgeOne(rows[i], policy, forceAge)
  {
    seq(|rows|, i requires 0 <= i < |rows| => AgeOne(rows[i], policy, forceAge))
  }

  predicate Dies(m: Member, policy: Option<int>) { Living(m) && m.age >= MaxAge(m, policy) }

  /** The members that reach their age, in row order; `rows` are aged. */
  function Deaths(rows: seq<Member>, policy: Option<int>, n: nat): seq<nat>
    requires n <= |rows|
  {
    if n == 0 then []
    else Deaths(rows, policy, n - 1) + (if Dies(rows[n - 1], policy) then [n - 1] else [])
  }

  /** The living parent that `get_parent` looks up first. */
  function LivingParent(rows: seq<Member>, n: nat): Option<nat>
    requires n <= |rows|
  {
    if n == 0 then None
    else if LivingParent(rows, n - 1).Some? then LivingParent(rows, n - 1)
    else if Living(rows[n - 1]) && rows[n - 1].role.Parent? then Some(n - 1)
    else None
  }

  function Deceased(m: Member): Member { m.(alive := false, active := false) }

  /** The heir of m, the deceased row i, under a living parent if the family has one. */
  function HeirUnder(m: Member, i: nat, parent: Option<nat>, policy: Option<int>): Member {
    Member(
      m.role, Some(LabelOf(m)), true, true,
      m.generation + 1, 0, MaxAge(m, policy),
      Min1(m.growth * 0.5 + 0.1),
      Min1(OrHalf(m.thinking) * 0.85 + m.growth * 0.2 + 0.05),
      Some(i),
      if m.role.Parent? then None else if parent.Some? then parent else Some(i))
  }

  /** `_succeed_member` for row i, already marked deceased in `rows`. */
  function Heir(rows: seq<Member>, i: nat, policy: Option<int>): Member
    requires i < |rows|
  {
    HeirUnder(rows[i], i, LivingParent(rows, |rows|), policy)
  }

  /** Row i dies and its heir joins the table. */
  function Succeed(rows: seq<Member>, i: nat, policy: Option<int>): seq<Member>
    requires i < |rows|
  {
    var dead := rows[i := Deceased(rows[i])];
    dead + [Heir(dead, i, policy)]
  }

  predicate AllBelow(deaths: seq<nat>, n: nat) { forall k :: 0 <= k < |deaths| ==> deaths[k] < n }

  function SucceedAll(rows: seq<Member>, deaths: seq<nat>, policy: Option<int>): seq<Member>
    requires AllBelow(deaths, |rows|)
    decreases |deaths|
  {
    if deaths == [] then rows
    else SucceedAll(Succeed(rows, deaths[0], policy), deaths[1..], policy)
  }

  lemma {:induction false} DeathsOk(rows: seq<Member>, policy: Option<int>, n: nat)
    requires n <= |rows|
    ensures forall k :: 0 <= k < |Deaths(rows, policy, n)| ==>
              Deaths(rows, policy, n)[k] < n && Dies(rows[Deaths(rows, policy, n)[k]], policy)
    ensures forall k, l :: 0 <= k < l < |Deaths(rows, policy, n)| ==>
              Deaths(rows, policy, n)[k] < Deaths(rows, policy, n)[l]
    ensures forall i :: 0 <= i < n && Dies(rows[i], policy) ==> i in Deaths(rows, policy, n)
  {
    if n > 0 {
      DeathsOk(rows, policy, n - 1);
    }
  }

  /** What a tick does to a member, in its fields: the living grow older by at least one, by 0.04 in
      growth and 0.015 in structured thinking up to 1, and take the family's maximum age; nobody else
      changes. */
  lemma AgedFields(rows: seq<Member>, policy: Option<int>, forceAge: int, i: nat)
    requires i < |rows|
    ensures var m, a := rows[i], AgeAll(rows, policy, forceAge)[i];
      if m.alive && m.active then
        && a.age == m.age + (if forceAge > 1 then forceAge else 1)
        && a.growth == (if m.growth + 0.04 > 1.0 then 1.0 else m.growth + 0.04)
        && var thinking := (if m.thinking == 0.0 then 0.5 else m.thinking) + 0.015;
        && a.thinking == (if thinking > 1.0 then 1.0 else thinking)
        && a.maxAge == (if policy.Some? then policy.value else m.maxAge)
        && a.generation == m.generation && a.title == m.title && a.role == m.role && a.alive && a.active
        && a.successorOf == m.successorOf && a.lineage == m.lineage
      else a == m
  {
  }

  /** Who dies: exactly the living who have reached the family's maximum age or, without one, their own,
      where 0 stands for 6. */
  lemma DeathsIff(rows: seq<Member>, policy: Option<int>, i: nat)
    requires i < |rows|
    ensures i in Deaths(rows, policy, |rows|) <==>
      && rows[i].alive && rows[i].active
      && rows[i].age >= (if policy.Some? then policy.value else if rows[i].maxAge == 0 then 6 else rows[i].maxAge)
  {
    DeathsOk(rows, policy, |rows|);
  }

  function LifeTick(rows: seq<Member>, policy: Option<int>, forceAge: int): seq<Member> {
    var aged := AgeAll(rows, policy, forceAge);
    DeathsOk(aged, policy, |aged|);
    SucceedAll(aged, Deaths(aged, policy, |aged|), policy)
  }

  // ---- Successor chains ----

  predicate IsHeir(rows: seq<Member>, h: int, d: int) {
    0 <= h < |rows| && rows[h].successorOf.Some? && rows[h].successorOf.value == d
  }

  /** A row that was alive and active is both or neither; an heir comes after its dead predecessor
      and takes its place. */
  ghost predicate RowOk(rows: seq<Member>, h: nat)
    requires h < |rows|
  {
    && (rows[h].active <==> rows[h].alive)
    && (rows[h].successorOf.Some? ==>
          var d := rows[h].successorOf.value;
          d < h && !rows[d].alive && rows[d].role == rows[h].role && LabelOf(rows[d]) == LabelOf(rows[h]))
  }

  ghost predicate FamilyOk(rows: seq<Member>) {
    && (forall h :: 0 <= h < |rows| ==> RowOk(rows, h))
    && (forall d :: 0 <= d < |rows| && !rows[d].alive ==> exists h :: IsHeir(rows, h, d))
    && (forall h, k, d :: IsHeir(rows, h, d) && IsHeir(rows, k, d) ==> h == k)
  }

  /** Two tables that differ in ages and traits only. */
  ghost predicate SameKin(rows: seq<Member>, rows': seq<Member>) {
    && |rows'| == |rows|
    && forall i :: 0 <= i < |rows| ==>
         && rows'[i].role == rows[i].role && rows'[i].title == rows[i].title
         && rows'[i].active == rows[i].active && rows'[i].alive == rows[i].alive
         && rows'[i].successorOf == rows[i].successorOf
  }

  lemma SameKinKeepsFamily(rows: seq<Member>, rows': seq<Member>)
    requires FamilyOk(rows) && SameKin(rows, rows')
    ensures FamilyOk(rows')
  {
    assert forall h, d :: IsHeir(rows', h, d) <==> IsHeir(rows, h, d);
    forall h | 0 <= h < |rows'|
      ensures RowOk(rows', h)
    {
      assert RowOk(rows, h);
    }
    forall d | 0 <= d < |rows'| && !rows'[d].alive
      ensures exists h :: IsHeir(rows', h, d)
    {
      var h :| IsHeir(rows, h, d);
      assert IsHeir(rows', h, d);
    }
  }

  lemma SucceedKeepsFamily(rows: seq<Member>, i: nat, policy: Option<int>)
    requires FamilyOk(rows) && i < |rows| && Living(rows[i])
    ensures FamilyOk(Succeed(rows, i, policy))
  {
    var rows' := Succeed(rows, i, policy);
    var n := |rows|;
    assert forall h, d :: IsHeir(rows', h, d) <==> IsHeir(rows, h, d) || (h == n && d == i);
    forall h | 0 <= h < |rows'|
      ensures RowOk(rows', h)
    {
      if h < n {
        assert RowOk(rows, h);
      }
    }
    forall d | 0 <= d < |rows'| && !rows'[d].alive
      ensures exists h :: IsHeir(rows', h, d)
    {
      if d == i {
        assert IsHeir(rows', n, i);
      } else {
        var h :| IsHeir(rows, h, d);
        assert IsHeir(rows', h, d);
      }
    }
    assert forall h :: IsHeir(rows, h, i) ==> !RowOk(rows, h);
  }

  /** The members about to die are living and pairwise different. */
  predicate Doomed(rows: seq<Member>, deaths: seq<nat>) {
    && AllBelow(deaths, |rows|)
    && (forall k :: 0 <= k < |deaths| ==> Living(rows[deaths[k]]))
    && (forall k, l :: 0 <= k < l < |deaths| ==> deaths[k] != deaths[l])
  }

  lemma DoomedRest(rows: seq<Member>, deaths: seq<nat>, policy: Option<int>)
    requires deaths != [] && Doomed(rows, deaths)
    ensures Doomed(Succeed(rows, deaths[0], policy), deaths[1..])
  {
  }

  lemma {:induction false} SucceedAllKeepsFamily(rows: seq<Member>, deaths: seq<nat>, policy: Option<int>)
    requires FamilyOk(rows) && Doomed(rows, deaths)
    ensures FamilyOk(SucceedAll(rows, deaths, policy))
    decreases |deaths|
  {
    if deaths != [] {
      SucceedKeepsFamily(rows, deaths[0], policy);
      DoomedRest(rows, deaths, policy);
      SucceedAllKeepsFamily(Succeed(rows, deaths[0], policy), deaths[1..], policy);
    }
  }

  lemma TickDoomed(rows: seq<Member>, policy: Option<int>, forceAge: int)
    ensures var aged := AgeAll(rows, policy, forceAge);
      Doomed(aged, Deaths(aged, policy, |aged|))
  {
    var aged := AgeAll(rows, policy, forceAge);
    DeathsOk(aged, policy, |aged|);
  }

  lemma TickKeepsFamily(rows: seq<Member>, policy: Option<int>, forceAge: int)
    requires FamilyOk(rows)
    ensures FamilyOk(LifeTick(rows, policy, forceAge))
  {
    var aged := AgeAll(rows, policy, forceAge);
    SameKinKeepsFamily(rows, aged);
    TickDoomed(rows, policy, forceAge);
    SucceedAllKeepsFamily(aged, Deaths(aged, policy, |aged|), policy);
  }

  ghost function HeirOf(rows: seq<Member>, d: nat): (h: nat)
    requires FamilyOk(rows) && d < |rows| && !rows[d].alive
    ensures d < h < |rows| && IsHeir(rows, h, d)
  {
    var h :| IsHeir(rows, h, d);
    assert RowOk(rows, h);
    h
  }

  /** The living member at the end of the chain of heirs. */
  ghost function Final(rows: seq<Member>, i: nat): (l: nat)
    requires FamilyOk(rows) && i < |rows|
    ensures l < |rows| && Living(rows[l])
    decreases |rows| - i
  {
    assert RowOk(rows, i);
    if rows[i].alive then i else Final(rows, HeirOf(rows, i))
  }

  /** The founder at the start of the chain of predecessors. */
  ghost function Root(rows: seq<Member>, i: nat): (f: nat)
    requires FamilyOk(rows) && i < |rows|
    ensures f <= i && rows[f].successorOf.None?
    decreases i
  {
    assert RowOk(rows, i);
    if rows[i].successorOf.None? then i else Root(rows, rows[i].successorOf.value)
  }

  lemma {:induction false} FinalKeepsRoot(rows: seq<Member>, i: nat)
    requires FamilyOk(rows) && i < |rows|
    ensures Root(rows, Final(rows, i)) == Root(rows, i)
    decreases |rows| - i
  {
    assert RowOk(rows, i);
    if !rows[i].alive {
      FinalKeepsRoot(rows, HeirOf(rows, i));
    }
  }

  lemma {:induction false} RootKeepsFinal(rows: seq<Member>, i: nat)
    requires FamilyOk(rows) && i < |rows|
    ensures Final(rows, Root(rows, i)) == Final(rows, i)
    decreases i
  {
    assert RowOk(rows, i);
    if rows[i].successorOf.Some? {
      var d := rows[i].successorOf.value;
      assert IsHeir(rows, i, d) && IsHeir(rows, HeirOf(rows, d), d);
      RootKeepsFinal(rows, d);
    }
  }

  lemma {:induction false} RootKeepsPlace(rows: seq<Member>, i: nat)
    requires FamilyOk(rows) && i < |rows|
    ensures rows[Root(rows, i)].role == rows[i].role && LabelOf(rows[Root(rows, i)]) == LabelOf(rows[i])
    decreases i
  {
    assert RowOk(rows, i);
    if rows[i].successorOf.Some? {
      RootKeepsPlace(rows, rows[i].successorOf.value);
    }
  }

  /** Succession is a bijection between founders and living members: following the heirs of a
      founder ends in a living member that leads back to it, and the other way round; both have the
      same place in the family. */
  lemma SuccessionIsBijection(rows: seq<Member>, i: nat)
    requires FamilyOk(rows) && i < |rows|
    ensures rows[i].successorOf.None? ==> Living(rows[Final(rows, i)]) && Root(rows, Final(rows, i)) == i
    ensures Living(rows[i]) ==> rows[Root(rows, i)].successorOf.None? && Final(rows, Root(rows, i)) == i
    ensures rows[Final(rows, i)].role == rows[i].role && LabelOf(rows[Final(rows, i)]) == LabelOf(rows[i])
  {
    FinalKeepsRoot(rows, i);
    RootKeepsFinal(rows, i);
    RootKeepsPlace(rows, i);
    RootKeepsPlace(rows, Final(rows, i));
  }

  // ---- Conservation of places ----

  function Place(m: Member): (Role, string) { (m.role, LabelOf(m)) }

  /** The place of a member that counts, among the founders or among the living. */
  function PlaceIf(m: Member, founders: bool): multiset<(Role, string)> {
    if (if founders then m.successorOf.None? else Living(m)) then multiset{Place(m)} else multiset{}
  }

  function Places(rows: seq<Member>, founders: bool): multiset<(Role, string)> {
    if rows == [] then multiset{}
    else Places(rows[..|rows| - 1], founders) + PlaceIf(rows[|rows| - 1], founders)
  }

  function LivingPlaces(rows: seq<Member>): multiset<(Role, string)> { Places(rows, false) }

  function FounderPlaces(rows: seq<Member>): multiset<(Role, string)> { Places(rows, true) }

  lemma PlacesAppend(rows: seq<Member>, m: Member, founders: bool)
    ensures Places(rows + [m], founders) == Places(rows, founders) + PlaceIf(m, founders)
  {
    assert (rows + [m])[..|rows|] == rows;
  }

  lemma {:induction false} PlacesConcat(a: seq<Member>, b: seq<Member>, founders: bool)
    ensures Places(a + b, founders) == Places(a, founders) + Places(b, founders)
  {
    if b == [] {
      assert a + b == a;
    } else {
      var n := |b| - 1;
      assert (a + b)[..|a + b| - 1] == a + b[..n];
      PlacesConcat(a, b[..n], founders);
    }
  }

  lemma PlacesAround(a: seq<Member>, m: Member, b: seq<Member>, founders: bool)
    ensures Places(a + [m] + b, founders) == Places(a, founders) + Places(b, founders) + PlaceIf(m, founders)
  {
    PlacesConcat(a + [m], b, founders);
    PlacesAppend(a, m, founders);
  }

  lemma PlacesUpdate(rows: seq<Member>, i: nat, m: Member, founders: bool)
    requires i < |rows|
    ensures Places(rows[i := m], founders) + PlaceIf(rows[i], founders)
         == Places(rows, founders) + PlaceIf(m, founders)
  {
    var a, b := rows[..i], rows[i + 1..];
    assert rows == a + [rows[i]] + b && rows[i := m] == a + [m] + b;
    PlacesAround(a, rows[i], b, founders);
    PlacesAround(a, m, b, founders);
    Shuffle(Places(a, founders) + Places(b, founders), PlaceIf(m, founders), PlaceIf(rows[i], founders));
  }

  lemma Shuffle(a: multiset<(Role, string)>, b: multiset<(Role, string)>, c: multiset<(Role, string)>)
    ensures (a + b) + c == (a + c) + b
  {
  }

  lemma {:induction false} PlacesSame(rows: seq<Member>, rows': seq<Member>, founders: bool)
    requires |rows| == |rows'|
    requires forall i :: 0 <= i < |rows| ==> PlaceIf(rows[i], founders) == PlaceIf(rows'[i], founders)
    ensures Places(rows, founders) == Places(rows', founders)
  {
    if rows != [] {
      PlacesSame(rows[..|rows| - 1], rows'[..|rows| - 1], founders);
    }
  }

  /** A death and its succession leave the living places, and the founders' places, as they are. */
  lemma SucceedKeepsPlaces(rows: seq<Member>, i: nat, policy: Option<int>, founders: bool)
    requires i < |rows| && Living(rows[i])
    ensures Places(Succeed(rows, i, policy), founders) == Places(rows, founders)
  {
    var gone := Deceased(rows[i]);
    var dead := rows[i := gone];
    var heir := Heir(dead, i, policy);
    assert dead[i] == gone && Place(heir) == Place(rows[i]);
    assert PlaceIf(gone, founders) + PlaceIf(heir, founders) == PlaceIf(rows[i], founders);
    PlacesUpdate(rows, i, gone, founders);
    PlacesAppend(dead, heir, founders);
    Cancel(Places(dead, founders) + PlaceIf(heir, founders), Places(rows, founders), PlaceIf(gone, founders));
  }

  lemma Cancel(a: multiset<(Role, string)>, b: multiset<(Role, string)>, g: multiset<(Role, string)>)
    requires a + g == b + g
    ensures a == b
  {
    assert a == a + g - g && b == b + g - g;
  }

  lemma {:induction false} SucceedAllKeepsPlaces(rows: seq<Member>, deaths: seq<nat>, policy: Option<int>)
    requires Doomed(rows, deaths)
    ensures Places(SucceedAll(rows, deaths, policy), false) == Places(rows, false)
    ensures Places(SucceedAll(rows, deaths, policy), true) == Places(rows, true)
    decreases |deaths|
  {
    if deaths != [] {
      SucceedKeepsPlaces(rows, deaths[0], policy, false);
      SucceedKeepsPlaces(rows, deaths[0], policy, true);
      DoomedRest(rows, deaths, policy);
      SucceedAllKeepsPlaces(Succeed(rows, deaths[0], policy), deaths[1..], policy);
    }
  }

  /** A tick conserves the multiset of living places (family role and role label). */
  lemma TickKeepsPlaces(rows: seq<Member>, policy: Option<int>, forceAge: int)
    ensures LivingPlaces(LifeTick(rows, policy, forceAge)) == LivingPlaces(rows)
    ensures FounderPlaces(LifeTick(rows, policy, forceAge)) == FounderPlaces(rows)
  {
    var aged := AgeAll(rows, policy, forceAge);
    SameKinPlaces(rows, aged, false);
    SameKinPlaces(rows, aged, true);
    TickDoomed(rows, policy, forceAge);
    SucceedAllKeepsPlaces(aged, Deaths(aged, policy, |aged|), policy);
  }

  // ---- Efficiency ----

  function LivingCount(rows: seq<Member>): nat {
    if rows == [] then 0
    else LivingCount(rows[..|rows| - 1]) + (if Living(rows[|rows| - 1]) then 1 else 0)
  }

  lemma {:induction false} LivingCountIsPlaces(rows: seq<Member>)
    ensures LivingCount(rows) == |LivingPlaces(rows)|
  {
    if rows != [] {
      LivingCountIsPlaces(rows[..|rows| - 1]);
    }
  }

  /** Rounding to four places. */
  function Round4(x: real): real { (x * 10000.0 + 0.5).Floor as real / 10000.0 }

  /** Completed jobs per living member. */
  function Efficiency(completed: nat, living: nat): real {
    Round4(completed as real / (if living < 1 then 1 else living) as real)
  }

  /** Efficiency is the number of completed jobs per living member, to the nearest ten-thousandth. */
  lemma EfficiencyIs(completed: nat, living: nat)
    ensures var exact := completed as real / (if living == 0 then 1 else living) as real;
      -0.00005 <= Efficiency(completed, living) - exact <= 0.00005
    ensures (Efficiency(completed, living) * 10000.0).Floor as real == Efficiency(completed, living) * 10000.0
  {
    var exact := completed as real / (if living == 0 then 1 else living) as real;
    var n := (exact * 10000.0 + 0.5).Floor;
    assert n as real <= exact * 10000.0 + 0.5 < n as real + 1.0;
    assert Efficiency(completed, living) == n as real / 10000.0;
  }

  /** Living, or a founder, with this family role and role label; a missing label reads "builder". */
  predicate HasPlace(m: Member, founders: bool, role: Role, name: string) {
    && (if founders then m.successorOf.None? else m.alive && m.active)
    && m.role == role
    && name == (if m.title.None? || m.title.value == "" then "builder" else m.title.value)
  }

  ghost function PlaceHolders(rows: seq<Member>, founders: bool, role: Role, name: string): set<int> {
    set i | 0 <= i < |rows| && HasPlace(rows[i], founders, role, name)
  }

  lemma HoldersStep(rows: seq<Member>, n: nat, founders: bool, role: Role, name: string)
    requires |rows| == n + 1
    ensures |PlaceHolders(rows, founders, role, name)|
         == |PlaceHolders(rows[..n], founders, role, name)| + (if HasPlace(rows[n], founders, role, name) then 1 else 0)
  {
    var all, before := PlaceHolders(rows, founders, role, name), PlaceHolders(rows[..n], founders, role, name);
    assert all == if HasPlace(rows[n], founders, role, name) then before + {n} else before;
  }

  /** The multiset of places counts the living members, or the founders, that hold each of them. */
  lemma {:induction false} PlacesCount(rows: seq<Member>, founders: bool, role: Role, name: string)
    ensures Places(rows, founders)[(role, name)] == |PlaceHolders(rows, founders, role, name)|
  {
    if rows == [] {
      assert PlaceHolders(rows, founders, role, name) == {};
    } else {
      var n := |rows| - 1;
      PlacesCount(rows[..n], founders, role, name);
      HoldersStep(rows, n, founders, role, name);
      PlaceIfIs(rows[n], founders, role, name);
    }
  }

  lemma PlaceIfIs(m: Member, founders: bool, role: Role, name: string)
    ensures PlaceIf(m, founders)[(role, name)] == if HasPlace(m, founders, role, name) then 1 else 0
  {
  }

  /** Deaths cost a family no efficiency: it is the same before and after any tick. */
  lemma EfficiencyPreserved(rows: seq<Member>, policy: Option<int>, forceAge: int, completed: nat)
    ensures Efficiency(completed, LivingCount(LifeTick(rows, policy, forceAge)))
         == Efficiency(completed, LivingCount(rows))
  {
    TickKeepsPlaces(rows, policy, forceAge);
    LivingCountIsPlaces(rows);
    LivingCountIsPlaces(LifeTick(rows, policy, forceAge));
  }

  // ---- Runs of a family ----

  datatype Family = Family(rows: seq<Member>, policy: Option<int>)

  datatype Op =
    | Spawn(title: Option<string>, parent: nat)
    | Tick(forceAge: int)
    | SetMaxAge(ticks: int)

  function DefaultThinking(title: Option<string>): (t: real)
    ensures title.None? ==> t == 0.55
    ensures title.Some? ==>
      && (t == 0.72 <==> Lower(title.value) in {"analyst", "coordinator"})
      && (t == 0.58 <==> Lower(title.value) in {"executor", "builder"})
      && (t == 0.48 <==> Lower(title.value) == "creative")
    ensures t in {0.72, 0.58, 0.48, 0.55}
  {
    var key := Lower(if title.Some? then title.value else "");
    if key == "analyst" || key == "coordinator" then 0.72
    else if key == "executor" || key == "builder" then 0.58
    else if key == "creative" then 0.48
    else 0.55
  }

  function PolicyOr(policy: Option<int>, default: int): int {
    if policy.Some? then policy.value else default
  }

  function Founder(title: Option<string>, policy: Option<int>): Member {
    Member(Parent, title, true, true, 0, 0, PolicyOr(policy, DEFAULT_MAX_AGE), 0.0, DefaultThinking(title), None, None)
  }

  function Spawned(rows: seq<Member>, title: Option<string>, parent: nat, policy: Option<int>): Member
    requires parent < |rows|
  {
    Member(Child, title, true, true, rows[parent].generation + 1, 0, PolicyOr(policy, rows[parent].maxAge),
           0.0, DefaultThinking(title), None, Some(parent))
  }

  function CreateFamily(title: Option<string>, policy: Option<int>): Family {
    Family([Founder(title, policy)], policy)
  }

  /** `update_family_policy`: clamp to 1..200 and apply to living members. */
  function ClampAge(ticks: int): int { if ticks < 1 then 1 else if ticks > 200 then 200 else ticks }

  function ApplyMaxAge(rows: seq<Member>, ticks: int): (r: seq<Member>)
    ensures |r| == |rows|
    ensures forall i :: 0 <= i < |rows| ==> r[i] == if rows[i].alive then rows[i].(maxAge := ticks) else rows[i]
  {
    seq(|rows|, i requires 0 <= i < |rows| => if rows[i].alive then rows[i].(maxAge := ticks) else rows[i])
  }

  /** A child is spawned under an existing member; an unknown one is refused. */
  predicate Can(f: Family, op: Op) { op.Spawn? ==> op.parent < |f.rows| }

  function Do(f: Family, op: Op): Family
    requires Can(f, op)
  {
    match op
    case Spawn(title, parent) => f.(rows := f.rows + [Spawned(f.rows, title, parent, f.policy)])
    case Tick(forceAge) => f.(rows := LifeTick(f.rows, f.policy, forceAge))
    case SetMaxAge(ticks) => Family(ApplyMaxAge(f.rows, ClampAge(ticks)), Some(ClampAge(ticks)))
  }

  predicate Feasible(f: Family, ops: seq<Op>)
    decreases |ops|
  {
    ops == [] || (Can(f, ops[0]) && Feasible(Do(f, ops[0]), ops[1..]))
  }

  function Exec(f: Family, ops: seq<Op>): Family
    requires Feasible(f, ops)
    decreases |ops|
  {
    if ops == [] then f else Exec(Do(f, ops[0]), ops[1..])
  }

  /** Row 0 is the only parent that succeeded nobody. */
  ghost predicate OneFounderParent(rows: seq<Member>) {
    && |rows| > 0
    && forall i :: 0 <= i < |rows| && rows[i].role.Parent? && rows[i].successorOf.None? <==> i == 0
  }

  ghost predicate Inv(rows: seq<Member>) {
    FamilyOk(rows) && LivingPlaces(rows) == FounderPlaces(rows) && OneFounderParent(rows)
  }

  lemma SpawnInv(rows: seq<Member>, m: Member)
    requires Inv(rows) && Living(m) && m.successorOf.None? && m.role.Child?
    ensures Inv(rows + [m])
  {
    var rows' := rows + [m];
    PlacesAppend(rows, m, false);
    PlacesAppend(rows, m, true);
    assert forall h, d :: IsHeir(rows', h, d) <==> IsHeir(rows, h, d);
    forall h | 0 <= h < |rows'|
      ensures RowOk(rows', h)
    {
      if h < |rows| {
        assert RowOk(rows, h);
      }
    }
    forall d | 0 <= d < |rows'| && !rows'[d].alive
      ensures exists h :: IsHeir(rows', h, d)
    {
      var h :| IsHeir(rows, h, d);
      assert IsHeir(rows', h, d);
    }
  }

  lemma {:induction false} SucceedAllKeepsFounders(rows: seq<Member>, deaths: seq<nat>, policy: Option<int>)
    requires OneFounderParent(rows) && AllBelow(deaths, |rows|)
    ensures OneFounderParent(SucceedAll(rows, deaths, policy))
    decreases |deaths|
  {
    if deaths != [] {
      SucceedAllKeepsFounders(Succeed(rows, deaths[0], policy), deaths[1..], policy);
    }
  }

  lemma SameKinPlaces(rows: seq<Member>, rows': seq<Member>, founders: bool)
    requires SameKin(rows, rows')
    ensures Places(rows, founders) == Places(rows', founders)
  {
    forall i | 0 <= i < |rows|
      ensures PlaceIf(rows[i], founders) == PlaceIf(rows'[i], founders)
    {
      assert Place(rows[i]) == Place(rows'[i]);
    }
    PlacesSame(rows, rows', founders);
  }

  lemma SameKinInv(rows: seq<Member>, rows': seq<Member>)
    requires Inv(rows) && SameKin(rows, rows')
    ensures Inv(rows')
  {
    SameKinKeepsFamily(rows, rows');
    SameKinPlaces(rows, rows', false);
    SameKinPlaces(rows, rows', true);
    SameKinFounders(rows, rows');
  }

  lemma SameKinFounders(rows: seq<Member>, rows': seq<Member>)
    requires OneFounderParent(rows) && SameKin(rows, rows')
    ensures OneFounderParent(rows')
  {
  }

  lemma DoInv(f: Family, op: Op)
    requires Inv(f.rows) && Can(f, op)
    ensures Inv(Do(f, op).rows)
  {
    match op
    case Spawn(title, parent) => SpawnInv(f.rows, Spawned(f.rows, title, parent, f.policy));
    case Tick(forceAge) =>
      var aged := AgeAll(f.rows, f.policy, forceAge);
      TickKeepsFamily(f.rows, f.policy, forceAge);
      TickKeepsPlaces(f.rows, f.policy, forceAge);
      TickDoomed(f.rows, f.policy, forceAge);
      SucceedAllKeepsFounders(aged, Deaths(aged, f.policy, |aged|), f.policy);
    case SetMaxAge(ticks) => SameKinInv(f.rows, ApplyMaxAge(f.rows, ClampAge(ticks)));
  }

  lemma CreateInv(title: Option<string>, policy: Option<int>)
    ensures Inv(CreateFamily(title, policy).rows)
  {
    var m := Founder(title, policy);
    PlacesAppend([], m, false);
    PlacesAppend([], m, true);
    assert [m] == [] + [m];
  }

  lemma {:induction false} ExecInv(f: Family, ops: seq<Op>)
    requires Inv(f.rows) && Feasible(f, ops)
    ensures Inv(Exec(f, ops).rows)
    decreases |ops|
  {
    if ops != [] {
      DoInv(f, ops[0]);
      ExecInv(Do(f, ops[0]), ops[1..]);
    }
  }

  ghost predicate Reachable(f: Family) {
    exists title, policy, ops :: Feasible(CreateFamily(title, policy), ops) && Exec(CreateFamily(title, policy), ops) == f
  }

  predicate IsLivingParent(rows: seq<Member>, p: int) {
    0 <= p < |rows| && Living(rows[p]) && rows[p].role.Parent?
  }

  /** Over every run of creating, spawning, ageing and changing the policy: the living fill exactly
      the places of the founders; every dead member has exactly one heir, every living one none;
      and there is exactly one living parent. */
  lemma PlacesOutliveMembers(f: Family)
    requires Reachable(f)
    ensures FamilyOk(f.rows)
    ensures LivingPlaces(f.rows) == FounderPlaces(f.rows)
    ensures forall d :: 0 <= d < |f.rows| ==>
              (f.rows[d].alive <==> !exists h :: IsHeir(f.rows, h, d))
    ensures exists p :: IsLivingParent(f.rows, p)
    ensures forall p, q :: IsLivingParent(f.rows, p) && IsLivingParent(f.rows, q) ==> p == q
  {
    ReachableInv(f);
    OneLivingParent(f.rows);
    forall d | 0 <= d < |f.rows|
      ensures f.rows[d].alive <==> !exists h :: IsHeir(f.rows, h, d)
    {
      forall h | IsHeir(f.rows, h, d)
        ensures !f.rows[d].alive
      {
        assert RowOk(f.rows, h);
      }
    }
  }

  lemma ReachableInv(f: Family)
    requires Reachable(f)
    ensures Inv(f.rows)
  {
    var title, policy, ops :| Feasible(CreateFamily(title, policy), ops) && Exec(CreateFamily(title, policy), ops) == f;
    CreateInv(title, policy);
    ExecInv(CreateFamily(title, policy), ops);
  }

  lemma OneLivingParent(rows: seq<Member>)
    requires Inv(rows)
    ensures IsLivingParent(rows, Final(rows, 0))
    ensures forall p :: IsLivingParent(rows, p) ==> p == Final(rows, 0)
  {
    SuccessionIsBijection(rows, 0);
    forall p | IsLivingParent(rows, p)
      ensures p == Final(rows, 0)
    {
      SuccessionIsBijection(rows, p);
      RootKeepsPlace(rows, p);
    }
  }

  // ---- The parent lookup ----

  predicate IsParentRow(rows: seq<Member>, p: int) {
    0 <= p < |rows| && rows[p].role.Parent?
  }

  /** What one of the two queries of `get_parent` selects. */
  predicate Selected(rows: seq<Member>, p: int, livingOnly: bool) {
    if livingOnly then IsLivingParent(rows, p) else IsParentRow(rows, p)
  }

  /** `get_parent` asks for at most one row twice: first among the living parents, and if there is
      none among all parent rows. It raises when the query it gets to finds two. */
  ghost predicate LookupRaises(rows: seq<Member>) {
    if exists p :: IsLivingParent(rows, p)
    then exists p, q :: p < q && IsLivingParent(rows, p) && IsLivingParent(rows, q)
    else exists p, q :: p < q && IsParentRow(rows, p) && IsParentRow(rows, q)
  }

  /** The lookup in the succession of row i raises exactly when i is a parent that is itself an
      heir: the second parental succession of a family. */
  lemma LookupRaisesIffParentalHeir(rows: seq<Member>, i: nat)
    requires Inv(rows) && i < |rows| && Living(rows[i])
    ensures LookupRaises(rows[i := Deceased(rows[i])])
       <==> rows[i].role.Parent? && rows[i].successorOf.Some?
  {
    var dead := rows[i := Deceased(rows[i])];
    OneLivingParent(rows);
    var p0 := Final(rows, 0);
    assert forall p :: IsLivingParent(dead, p) <==> IsLivingParent(rows, p) && p != i;
    assert forall p :: IsParentRow(dead, p) <==> IsParentRow(rows, p);
    if rows[i].role.Parent? {
      assert IsLivingParent(rows, i);
      assert RowOk(rows, i);
      if rows[i].successorOf.Some? {
        assert IsParentRow(dead, rows[i].successorOf.value) && IsParentRow(dead, i);
      } else {
        forall p | IsParentRow(rows, p)
          ensures p == i
        {
          RootKeepsPlace(rows, p);
          RootKeepsFinal(rows, p);
          if rows[p].successorOf.Some? {
            ChainHasHeir(rows, p);
          }
        }
      }
    } else {
      assert IsLivingParent(dead, p0);
    }
  }

  /** The founder of a chain that has a second member is dead. */
  lemma {:induction false} ChainHasHeir(rows: seq<Member>, p: nat)
    requires FamilyOk(rows) && p < |rows| && rows[p].successorOf.Some?
    ensures !rows[Root(rows, p)].alive
    decreases p
  {
    assert RowOk(rows, p);
    var d := rows[p].successorOf.value;
    if rows[d].successorOf.Some? {
      ChainHasHeir(rows, d);
    }
  }

  lemma SucceedInv(rows: seq<Member>, i: nat, policy: Option<int>)
    requires Inv(rows) && i < |rows| && Living(rows[i])
    ensures Inv(Succeed(rows, i, policy))
  {
    SucceedKeepsFamily(rows, i, policy);
    SucceedKeepsPlaces(rows, i, policy, false);
    SucceedKeepsPlaces(rows, i, policy, true);
  }

  /** Some lookup of the death loop raises. */
  ghost predicate DeathLoopRaises(rows: seq<Member>, deaths: seq<nat>, policy: Option<int>)
    requires AllBelow(deaths, |rows|)
    decreases |deaths|
  {
    deaths != [] &&
    (LookupRaises(rows[deaths[0] := Deceased(rows[deaths[0]])])
     || DeathLoopRaises(Succeed(rows, deaths[0], policy), deaths[1..], policy))
  }

  predicate ParentalHeir(m: Member) { m.role.Parent? && m.successorOf.Some? }

  lemma {:induction false} DeathLoopRaisesIff(rows: seq<Member>, deaths: seq<nat>, policy: Option<int>)
    requires Inv(rows) && Doomed(rows, deaths)
    ensures DeathLoopRaises(rows, deaths, policy)
       <==> exists k :: 0 <= k < |deaths| && ParentalHeir(rows[deaths[k]])
    decreases |deaths|
  {
    if deaths != [] {
      var rows' := Succeed(rows, deaths[0], policy);
      LookupRaisesIffParentalHeir(rows, deaths[0]);
      SucceedInv(rows, deaths[0], policy);
      DoomedRest(rows, deaths, policy);
      DeathLoopRaisesIff(rows', deaths[1..], policy);
      assert forall k :: 0 < k < |deaths| ==> rows'[deaths[k]] == rows[deaths[k]];
      if exists k :: 0 <= k < |deaths| && ParentalHeir(rows[deaths[k]]) {
        var k :| 0 <= k < |deaths| && ParentalHeir(rows[deaths[k]]);
        if k > 0 {
          assert ParentalHeir(rows'[deaths[1..][k - 1]]);
        }
      }
    }
  }

  /** A tick of the code fails: the lookup of one of its successions raises. Nothing of a failed tick
      is stored, since `life_tick` commits at its end. */
  ghost predicate TickRaises(rows: seq<Member>, policy: Option<int>, forceAge: int) {
    var aged := AgeAll(rows, policy, forceAge);
    DeathsOk(aged, policy, |aged|);
    DeathLoopRaises(aged, Deaths(aged, policy, |aged|), policy)
  }

  lemma InvTickRaisesIff(rows: seq<Member>, policy: Option<int>, forceAge: int)
    requires Inv(rows)
    ensures var aged := AgeAll(rows, policy, forceAge);
      TickRaises(rows, policy, forceAge)
      <==> exists i :: 0 <= i < |aged| && Dies(aged[i], policy) && ParentalHeir(aged[i])
  {
    var aged := AgeAll(rows, policy, forceAge);
    SameKinInv(rows, aged);
    TickDoomed(rows, policy, forceAge);
    DeathLoopRaisesIff(aged, Deaths(aged, policy, |aged|), policy);
    SomeHeirDiesIff(aged, policy);
  }

  /** `life_tick` as the code has it fails in a reachable family if and only if its living parent is
      an heir and reaches its age in this tick. */
  lemma TickRaisesIff(f: Family, forceAge: int)
    requires Reachable(f)
    ensures var aged := AgeAll(f.rows, f.policy, forceAge);
      TickRaises(f.rows, f.policy, forceAge)
      <==> exists i :: 0 <= i < |aged| && Dies(aged[i], f.policy) && ParentalHeir(aged[i])
  {
    ReachableInv(f);
    InvTickRaisesIff(f.rows, f.policy, forceAge);
  }

  /** The living parent alone decides. */
  lemma ParentDecides(rows: seq<Member>, policy: Option<int>, forceAge: int, p: nat)
    requires Inv(rows) && IsLivingParent(rows, p) && forceAge >= 1
    ensures TickRaises(rows, policy, forceAge)
      <==> rows[p].successorOf.Some? && rows[p].age + forceAge >= MaxAge(rows[p], policy)
  {
    var aged := AgeAll(rows, policy, forceAge);
    InvTickRaisesIff(rows, policy, forceAge);
    OneLivingParent(rows);
    assert aged[p] == Aged(rows[p], policy, forceAge);
    forall i | 0 <= i < |aged| && Dies(aged[i], policy) && ParentalHeir(aged[i])
      ensures i == p
    {
      assert IsLivingParent(rows, i);
    }
  }

  lemma SomeHeirDiesIff(aged: seq<Member>, policy: Option<int>)
    ensures var deaths := Deaths(aged, policy, |aged|);
      && AllBelow(deaths, |aged|)
      && ((exists k :: 0 <= k < |deaths| && ParentalHeir(aged[deaths[k]]))
          <==> exists i :: 0 <= i < |aged| && Dies(aged[i], policy) && ParentalHeir(aged[i]))
  {
    var deaths := Deaths(aged, policy, |aged|);
    DeathsOk(aged, policy, |aged|);
    if exists i :: 0 <= i < |aged| && Dies(aged[i], policy) && ParentalHeir(aged[i]) {
      var i :| 0 <= i < |aged| && Dies(aged[i], policy) && ParentalHeir(aged[i]);
      var k :| 0 <= k < |deaths| && deaths[k] == i;
      assert ParentalHeir(aged[deaths[k]]);
    }
  }

  lemma {:induction false} LivingParentFirst(rows: seq<Member>, n: nat)
    requires n <= |rows|
    ensures var p := LivingParent(rows, n);
      && (p.Some? ==> p.value < n && IsLivingParent(rows, p.value))
      && (p.None? ==> forall q :: 0 <= q < n ==> !IsLivingParent(rows, q))
  {
    if n > 0 {
      LivingParentFirst(rows, n - 1);
    }
  }

  // ---- Runs of the code ----

  /** An operation as the code has it: a tick that raises leaves the family as it was. */
  ghost function CodeDo(f: Family, op: Op): Family
    requires Can(f, op)
  {
    if op.Tick? && TickRaises(f.rows, f.policy, op.forceAge) then f else Do(f, op)
  }

  ghost predicate CodeFeasible(f: Family, ops: seq<Op>)
    decreases |ops|
  {
    ops == [] || (Can(f, ops[0]) && CodeFeasible(CodeDo(f, ops[0]), ops[1..]))
  }

  ghost function CodeExec(f: Family, ops: seq<Op>): Family
    requires CodeFeasible(f, ops)
    decreases |ops|
  {
    if ops == [] then f else CodeExec(CodeDo(f, ops[0]), ops[1..])
  }

  /** Dropping the failed ticks of a run of the code gives a run with the same outcome, so what holds
      over every run holds over every run of the code. */
  lemma {:induction false} CodeRunsAreRuns(f: Family, ops: seq<Op>) returns (kept: seq<Op>)
    requires CodeFeasible(f, ops)
    ensures Feasible(f, kept) && Exec(f, kept) == CodeExec(f, ops)
    decreases |ops|
  {
    if ops == [] {
      kept := [];
    } else {
      var rest := CodeRunsAreRuns(CodeDo(f, ops[0]), ops[1..]);
      if CodeDo(f, ops[0]) == f {
        kept := rest;
      } else {
        kept := [ops[0]] + rest;
        assert kept[1..] == rest;
      }
    }
  }

  /** A member that was found, if it is alive. */
  function LivingOnly(rows: seq<Member>, found: Option<nat>): Option<nat>
    requires found.Some? ==> found.value < |rows|
  {
    if found.Some? && Living(rows[found.value]) then found else None
  }

  /** Row p is the parent asked for, or some parent row if none was asked for. */
  predicate MayAdopt(rows: seq<Member>, parent: Option<nat>, p: nat) {
    p < |rows| && if parent.Some? then p == parent.value else IsParentRow(rows, p)
  }

  // ---- The family table ----

  class FamilyTable {
    var rows: seq<Member>
    var policy: Option<int>

    constructor (title: Option<string>, policy: Option<int>)
      ensures Family(rows, this.policy) == CreateFamily(title, policy)
      ensures |rows| == 1 && rows[0].role == Parent && rows[0].title == title && rows[0].alive && rows[0].active
      ensures rows[0].generation == 0 == rows[0].age && rows[0].growth == 0.0 && rows[0].thinking == DefaultThinking(title)
      ensures rows[0].successorOf == None == rows[0].lineage
      ensures rows[0].maxAge == if policy.Some? then policy.value else 6
    {
      rows := [Founder(title, policy)];
      this.policy := policy;
    }

    /** `scalar_one_or_none` over the parent rows: more than one raises. */
    method OneOrNone(livingOnly: bool) returns (r: Result<Option<nat>, string>)
      ensures r.Err? <==> exists p, q :: p < q && Selected(rows, p, livingOnly) && Selected(rows, q, livingOnly)
      ensures r.Ok? && r.value.None? ==> forall p :: !Selected(rows, p, livingOnly)
      ensures r.Ok? && r.value.Some? ==> forall p :: Selected(rows, p, livingOnly) <==> p == r.value.value
    {
      var found: Option<nat> := None;
      var i := 0;
      while i < |rows|
        invariant 0 <= i <= |rows|
        invariant found.None? ==> forall p :: 0 <= p < i ==> !Selected(rows, p, livingOnly)
        invariant found.Some? ==> found.value < i
        invariant found.Some? ==> forall p :: 0 <= p < i ==> (Selected(rows, p, livingOnly) <==> p == found.value)
      {
        if Selected(rows, i, livingOnly) {
          if found.Some? {
            assert found.value < i && Selected(rows, found.value, livingOnly);
            return Err("Multiple rows were found when one or none was required");
          }
          found := Some(i);
        }
        i := i + 1;
      }
      assert forall p :: Selected(rows, p, livingOnly) ==> 0 <= p < |rows|;
      r := Ok(found);
    }

    /** `get_parent`: the living parent, else any parent row. */
    method GetParent() returns (r: Result<Option<nat>, string>)
      ensures r.Err? <==> LookupRaises(rows)
      ensures r.Ok? && r.value.Some? ==> IsParentRow(rows, r.value.value)
      ensures r.Ok? && r.value.None? ==> forall p :: !IsParentRow(rows, p)
      ensures r.Ok? ==> LivingParent(rows, |rows|) == LivingOnly(rows, r.value)
    {
      r := OneOrNone(true);
      LivingParentFirst(rows, |rows|);
      assert forall p :: IsLivingParent(rows, p) <==> Selected(rows, p, true);
      assert forall p :: IsParentRow(rows, p) <==> Selected(rows, p, false);
      if r.Ok? && r.value.None? {
        assert forall p :: !IsLivingParent(rows, p);
        r := OneOrNone(false);
        if r.Ok? && r.value.Some? {
          assert IsParentRow(rows, r.value.value) && !IsLivingParent(rows, r.value.value);
        }
      } else if r.Ok? {
        assert IsLivingParent(rows, r.value.value);
      }
    }

    /** `spawn_child`: under the named member, or under the parent that `get_parent` finds. */
    method SpawnChild(title: Option<string>, parent: Option<nat>) returns (r: Result<nat, string>)
      modifies this
      ensures parent.Some? ==> (r.Ok? <==> parent.value < |old(rows)|)
      ensures parent.None? ==> (r.Err? <==> LookupRaises(old(rows)) || forall p :: !IsParentRow(old(rows), p))
      ensures r.Ok? ==> r.value == |old(rows)|
      ensures r.Ok? ==> exists p: nat :: MayAdopt(old(rows), parent, p)
                                         && Family(rows, policy) == Do(old(Family(rows, policy)), Spawn(title, p))
      ensures r.Ok? ==> |rows| == |old(rows)| + 1 && rows[..|old(rows)|] == old(rows) && policy == old(policy)
      ensures r.Ok? ==>
        var m := rows[|old(rows)|];
        && m.role == Child && m.title == title && m.alive && m.active && m.age == 0 && m.growth == 0.0
        && m.thinking == DefaultThinking(title) && m.successorOf == None
        && m.lineage.Some? && MayAdopt(old(rows), parent, m.lineage.value)
        && var p := old(rows)[m.lineage.value];
        && m.generation == p.generation + 1
        && m.maxAge == (if policy.Some? then policy.value else p.maxAge)
      ensures r.Err? ==> rows == old(rows) && policy == old(policy)
    {
      var p: nat;
      if parent.Some? {
        if parent.value >= |rows| {
          return Err("parent_member_id not in family");
        }
        p := parent.value;
      } else {
        var found := GetParent();
        if found.Err? {
          return Err(found.error);
        }
        if found.value.None? {
          return Err("Family has no parent member");
        }
        p := found.value.value;
      }
      r := Ok(|rows|);
      ghost var was := Family(rows, policy);
      rows := rows + [Spawned(rows, title, p, policy)];
      assert Family(rows, policy) == Do(was, Spawn(title, p));
    }

    /** The ageing loop of `life_tick`, which collects the deaths. */
    method AgeMembers(forceAge: int) returns (aged: nat, deaths: seq<nat>)
      modifies this`rows
      ensures rows == AgeAll(old(rows), policy, forceAge)
      ensures deaths == Deaths(rows, policy, |rows|) && aged == LivingCount(old(rows))
    {
      aged, deaths := 0, [];
      ghost var was, all := rows, AgeAll(rows, policy, forceAge);
      var i := 0;
      while i < |rows|
        invariant 0 <= i <= |rows| == |was| == |all|
        invariant forall k :: 0 <= k < i ==> rows[k] == all[k]
        invariant forall k :: i <= k < |rows| ==> rows[k] == was[k]
        invariant deaths == Deaths(all, policy, i)
        invariant aged == LivingCount(was[..i])
      {
        assert all[i] == AgeOne(rows[i], policy, forceAge);
        assert was[..i + 1][..i] == was[..i] && was[..i + 1][i] == rows[i];
        if Living(rows[i]) {
          var m := Aged(rows[i], policy, forceAge);
          rows := rows[i := m];
          aged := aged + 1;
          if m.age >= MaxAge(m, policy) {
            deaths := deaths + [i];
          }
        }
        i := i + 1;
      }
      assert was[..i] == was;
      assert rows == all;
    }

    /** `update_family_policy` for the maximum age: kept within 1 to 200, and given to the living. */
    method UpdateMaxAge(ticks: int)
      modifies this
      ensures Family(rows, policy) == Do(old(Family(rows, policy)), SetMaxAge(ticks))
      ensures policy.Some? && 1 <= policy.value <= 200 && (1 <= ticks <= 200 ==> policy.value == ticks)
      ensures (ticks < 1 ==> policy.value == 1) && (ticks > 200 ==> policy.value == 200)
      ensures |rows| == |old(rows)|
      ensures forall i :: 0 <= i < |rows| ==>
        rows[i] == if old(rows)[i].alive then old(rows)[i].(maxAge := policy.value) else old(rows)[i]
    {
      ghost var was := rows;
      policy := Some(ClampAge(ticks));
      var i := 0;
      while i < |rows|
        invariant 0 <= i <= |rows| == |was| && policy == Some(ClampAge(ticks))
        invariant forall k :: 0 <= k < i ==> rows[k] == if was[k].alive then was[k].(maxAge := ClampAge(ticks)) else was[k]
        invariant forall k :: i <= k < |rows| ==> rows[k] == was[k]
      {
        if rows[i].alive {
          rows := rows[i := rows[i].(maxAge := ClampAge(ticks))];
        }
        i := i + 1;
      }
      assert rows == ApplyMaxAge(was, ClampAge(ticks));
    }

    /** A death of `life_tick` with `_succeed_member`: the heir joins the table unless the lookup raises. */
    method SucceedMember(i: nat) returns (r: Result<nat, string>)
      requires i < |rows|
      modifies this`rows
      ensures r.Err? <==> LookupRaises(old(rows)[i := Deceased(old(rows)[i])])
      ensures r.Ok? ==> rows == Succeed(old(rows), i, policy) && r.value == |old(rows)|
      ensures r.Ok? ==> |rows| == |old(rows)| + 1 && rows[i] == old(rows)[i].(alive := false, active := false)
      ensures r.Ok? ==> forall k :: 0 <= k < |old(rows)| && k != i ==> rows[k] == old(rows)[k]
      ensures r.Ok? ==>
        var m, h := old(rows)[i], rows[|old(rows)|];
        && h.alive && h.active && h.role == m.role && h.age == 0 && h.generation == m.generation + 1
        && h.title == Some(if m.title.None? || m.title.value == "" then "builder" else m.title.value)
        && h.maxAge == (if policy.Some? then policy.value else if m.maxAge == 0 then 6 else m.maxAge)
        && h.successorOf == Some(i) && (m.role == Parent ==> h.lineage == None)
        && var growth := m.growth / 2.0 + 0.1;
        && var thinking := 0.85 * (if m.thinking == 0.0 then 0.5 else m.thinking) + 0.2 * m.growth + 0.05;
        && h.growth == (if growth > 1.0 then 1.0 else growth)
        && h.thinking == (if thinking > 1.0 then 1.0 else thinking)
      ensures r.Ok? && old(rows)[i].role == Child ==>
        var h := rows[|old(rows)|];
        && h.lineage.Some?
        && (h.lineage == Some(i) || (h.lineage.value < |old(rows)| && IsLivingParent(rows, h.lineage.value)))
        && (h.lineage == Some(i) ==> forall k :: 0 <= k < |old(rows)| ==> !IsLivingParent(rows, k))
      ensures |rows| >= |old(rows)|
    {
      rows := rows[i := Deceased(rows[i])];
      var found := GetParent();
      if found.Err? {
        return Err(found.error);
      }
      r := Ok(|rows|);
      ghost var dead := rows;
      LivingParentFirst(dead, |dead|);
      rows := rows + [HeirUnder(rows[i], i, LivingOnly(rows, found.value), policy)];
      assert forall k :: 0 <= k < |dead| ==> (IsLivingParent(rows, k) <==> IsLivingParent(dead, k));
    }

    /** The death loop of `life_tick`: each member dies and its heir joins the table, until a lookup
        raises. */
    method BuryAndReplace(deaths: seq<nat>) returns (r: Result<nat, string>)
      requires AllBelow(deaths, |rows|)
      modifies this`rows
      ensures r.Err? <==> DeathLoopRaises(old(rows), deaths, policy)
      ensures r.Ok? ==> rows == SucceedAll(old(rows), deaths, policy) && r.value == |deaths|
    {
      var died := 0;
      ghost var was := rows;
      while died < |deaths|
        invariant 0 <= died <= |deaths|
        invariant AllBelow(deaths[died..], |rows|)
        invariant SucceedAll(rows, deaths[died..], policy) == SucceedAll(was, deaths, policy)
        invariant DeathLoopRaises(rows, deaths[died..], policy) <==> DeathLoopRaises(was, deaths, policy)
      {
        assert deaths[died..][0] == deaths[died] && deaths[died..][1..] == deaths[died + 1..];
        var heir := SucceedMember(deaths[died]);
        if heir.Err? {
          return Err(heir.error);
        }
        died := died + 1;
      }
      r := Ok(died);
    }

    /** `life_tick` for one family; a tick that raises stores nothing. */
    method RunTick(forceAge: int) returns (r: Result<(nat, nat), string>)
      modifies this`rows
      ensures r.Err? <==> TickRaises(old(rows), policy, forceAge)
      ensures r.Err? ==> rows == old(rows)
      ensures r.Ok? ==> rows == LifeTick(old(rows), policy, forceAge) && r.value.0 == LivingCount(old(rows))
    {
      var stored := rows;
      var aged, deaths := AgeMembers(forceAge);
      DeathsOk(rows, policy, |rows|);
      var died := BuryAndReplace(deaths);
      if died.Err? {
        rows := stored;
        return Err(died.error);
      }
      r := Ok((aged, died.value));
    }
  }
}
