/**
 What happens along a line of succession: the closed form of generation and age after k ticks, and
 bounds on growth and structured thinking over all generations.
 */
module Generations {
  import opened Prelude
  import opened Life

  // ---- One tick, followed along a chain ----

  lemma {:induction false} AgeKeepsFinal(rows: seq<Member>, rows': seq<Member>, i: nat)
    requires FamilyOk(rows) && FamilyOk(rows') && SameKin(rows, rows') && i < |rows|
    ensures Final(rows', i) == Final(rows, i)
    decreases |rows| - i
  {
    if !rows[i].alive {
      var h := HeirOf(rows, i);
      assert IsHeir(rows', h, i);
      AgeKeepsFinal(rows, rows', h);
    }
  }

  /** After the succession of d, the chain of i ends where it did, or in the new heir. */
  lemma {:induction false} SucceedFinal(rows: seq<Member>, d: nat, policy: Option<int>, i: nat)
    requires FamilyOk(rows) && d < |rows| && Living(rows[d]) && i < |rows|
    ensures FamilyOk(Succeed(rows, d, policy))
    ensures Final(Succeed(rows, d, policy), i) == if Final(rows, i) == d then |rows| else Final(rows, i)
    decreases |rows| - i
  {
    var rows' := Succeed(rows, d, policy);
    SucceedKeepsFamily(rows, d, policy);
    if !rows[i].alive {
      var h := HeirOf(rows, i);
      assert IsHeir(rows', h, i);
      SucceedFinal(rows, d, policy, h);
    } else if i == d {
      assert IsHeir(rows', |rows|, d);
    }
  }

  /** Where the end of a line stands: its place, its generation and age, and whether it is an heir. */
  datatype Stand = Stand(role: Role, generation: int, age: int, maxAge: int, heir: bool)

  function StandOf(m: Member, policy: Option<int>): Stand {
    Stand(m.role, m.generation, m.age, MaxAge(m, policy), m.successorOf.Some?)
  }

  /** The stand of the heir of a member that stood at s. */
  function Reborn(s: Stand): Stand { Stand(s.role, s.generation + 1, 0, s.maxAge, true) }

  /** One tick later: the same member grown older, or its heir. */
  function NextStand(s: Stand, forceAge: int): Stand {
    if s.age + forceAge >= s.maxAge then Reborn(s) else s.(age := s.age + forceAge)
  }

  /** The death loop: the end of a chain stays, or is replaced by its heir. */
  lemma {:induction false} DeathLoopFinal(rows: seq<Member>, deaths: seq<nat>, policy: Option<int>, i: nat)
    requires FamilyOk(rows) && Doomed(rows, deaths) && i < |rows|
    ensures FamilyOk(SucceedAll(rows, deaths, policy)) && i < |SucceedAll(rows, deaths, policy)|
    ensures var l := Final(rows, i);
      var after := SucceedAll(rows, deaths, policy);
      var m := after[Final(after, i)];
      if l in deaths then StandOf(m, policy) == Reborn(StandOf(rows[l], policy)) else m == rows[l]
    decreases |deaths|
  {
    if deaths != [] {
      var d := deaths[0];
      var rows' := Succeed(rows, d, policy);
      var l := Final(rows, i);
      SucceedFinal(rows, d, policy, i);
      DoomedRest(rows, deaths, policy);
      DeathLoopFinal(rows', deaths[1..], policy, i);
      assert l in deaths <==> l == d || l in deaths[1..];
      if l == d {
        assert |rows| !in deaths[1..];
      } else {
        assert rows'[l] == rows[l];
      }
    }
  }

  /** One tick: the end of a chain grows older, or is replaced by an heir of age zero. */
  lemma TickFinal(rows: seq<Member>, policy: Option<int>, forceAge: int, i: nat)
    requires FamilyOk(rows) && i < |rows| && forceAge >= 1
    ensures FamilyOk(LifeTick(rows, policy, forceAge)) && i < |LifeTick(rows, policy, forceAge)|
    ensures var before := StandOf(rows[Final(rows, i)], policy);
      var after := LifeTick(rows, policy, forceAge);
      StandOf(after[Final(after, i)], policy) == NextStand(before, forceAge)
  {
    var aged := AgeAll(rows, policy, forceAge);
    var deaths := Deaths(aged, policy, |aged|);
    SameKinKeepsFamily(rows, aged);
    AgeKeepsFinal(rows, aged, i);
    TickDoomed(rows, policy, forceAge);
    DeathsOk(aged, policy, |aged|);
    DeathLoopFinal(aged, deaths, policy, i);
    var l := Final(rows, i);
    assert aged[l] == Aged(rows[l], policy, forceAge);
    assert l in deaths <==> Dies(aged[l], policy);
  }

  // ---- Closed form ----

  function Ticks(rows: seq<Member>, policy: Option<int>, forceAge: int, k: nat): seq<Member> {
    if k == 0 then rows else LifeTick(Ticks(rows, policy, forceAge, k - 1), policy, forceAge)
  }

  /** Ticks in a life: the maximum age over the step, rounded up. */
  function Lifespan(maxAge: int, forceAge: int): int
    requires maxAge >= 1 && forceAge >= 1
  {
    (maxAge + forceAge - 1) / forceAge
  }

  lemma MulBounds(a: int, d: int)
    requires a >= 1
    ensures d >= 1 ==> a * d >= a
    ensures d <= -1 ==> a * d <= -a
  {
    if d >= 1 {
      assert a * d == a + a * (d - 1) && a * (d - 1) >= 0;
    } else if d <= -1 {
      assert a * d == -a + a * (d + 1) && a * (d + 1) <= 0;
    }
  }

  lemma LifespanBounds(maxAge: int, forceAge: int)
    requires maxAge >= 1 && forceAge >= 1
    ensures Lifespan(maxAge, forceAge) >= 1
    ensures forceAge * (Lifespan(maxAge, forceAge) - 1) < maxAge <= forceAge * Lifespan(maxAge, forceAge)
  {
    var x := maxAge + forceAge - 1;
    var q := x / forceAge;
    assert x == forceAge * q + x % forceAge;
    MulBounds(forceAge, q - 1);
    assert forceAge * (q - 1) == forceAge * q - forceAge;
  }

  lemma NextRemainder(k: nat, span: int)
    requires k > 0 && span >= 1
    ensures (k - 1) % span == span - 1 ==> k % span == 0 && k / span == (k - 1) / span + 1
    ensures (k - 1) % span != span - 1 ==> k % span == (k - 1) % span + 1 && k / span == (k - 1) / span
  {
    var q, r := (k - 1) / span, (k - 1) % span;
    assert k - 1 == span * q + r;
    if r == span - 1 {
      assert k == span * (q + 1);
      DivModUnique(k, span, q + 1, 0);
    } else {
      DivModUnique(k, span, q, r + 1);
    }
  }

  lemma DivModUnique(k: int, span: int, q: int, r: int)
    requires span >= 1 && k == span * q + r && 0 <= r < span
    ensures k / span == q && k % span == r
  {
    var d := k / span - q;
    assert k == span * (k / span) + k % span;
    assert span * d == span * (k / span) - span * q == r - k % span;
    MulBounds(span, d);
  }

  lemma AgeStep(maxAge: int, forceAge: int, r: int)
    requires maxAge >= 1 && forceAge >= 1 && 0 <= r < Lifespan(maxAge, forceAge)
    ensures forceAge * r + forceAge == forceAge * (r + 1)
    ensures forceAge * (r + 1) >= maxAge <==> r == Lifespan(maxAge, forceAge) - 1
  {
    var span := Lifespan(maxAge, forceAge);
    LifespanBounds(maxAge, forceAge);
    if r < span - 1 {
      assert forceAge * (r + 1) <= forceAge * (span - 1);
    }
  }

  /** The living descendant of row i stands at s. */
  ghost predicate StandsAt(rows: seq<Member>, policy: Option<int>, i: nat, s: Stand) {
    FamilyOk(rows) && i < |rows| && StandOf(rows[Final(rows, i)], policy) == s
  }

  /** Where a member that stood at s, at age 0, has its line after k ticks of f. */
  function StandAfter(s: Stand, forceAge: int, k: nat): Stand
    requires s.maxAge >= 1 && forceAge >= 1
  {
    LifespanBounds(s.maxAge, forceAge);
    var span := Lifespan(s.maxAge, forceAge);
    Stand(s.role, s.generation + k / span, forceAge * (k % span), s.maxAge, s.heir || k / span >= 1)
  }

  /** What the remainder and the quotient do in one tick. */
  lemma ClosedFormStep(maxAge: int, forceAge: int, k: nat)
    requires maxAge >= 1 && forceAge >= 1 && k > 0
    ensures var span := Lifespan(maxAge, forceAge);
      && span >= 1
      && (if forceAge * ((k - 1) % span) + forceAge >= maxAge
          then k / span == (k - 1) / span + 1 && forceAge * (k % span) == 0
          else k / span == (k - 1) / span && forceAge * (k % span) == forceAge * ((k - 1) % span) + forceAge)
  {
    LifespanBounds(maxAge, forceAge);
    var span := Lifespan(maxAge, forceAge);
    AgeStep(maxAge, forceAge, (k - 1) % span);
    NextRemainder(k, span);
  }

  lemma StandStep(s: Stand, forceAge: int, k: nat)
    requires s.maxAge >= 1 && forceAge >= 1 && k > 0
    ensures StandAfter(s, forceAge, k) == NextStand(StandAfter(s, forceAge, k - 1), forceAge)
  {
    ClosedFormStep(s.maxAge, forceAge, k);
    Quotients(k - 1, Lifespan(s.maxAge, forceAge));
  }

  lemma Quotients(k: nat, span: int)
    requires span >= 1
    ensures k / span >= 0
  {
  }

  lemma StandStart(s: Stand, forceAge: int)
    requires s.maxAge >= 1 && forceAge >= 1 && s.age == 0
    ensures StandAfter(s, forceAge, 0) == s
  {
    LifespanBounds(s.maxAge, forceAge);
    DivModUnique(0, Lifespan(s.maxAge, forceAge), 0, 0);
  }

  /** Closed form of generations, ticks that do not fail assumed: with constant maximum age A and step
      f, L = ceil(A / f), the living descendant after k ticks of a member that was alive at age 0 has
      generation g + k div L and age f * (k mod L). */
  lemma {:induction false} GenerationAfter(rows: seq<Member>, policy: Option<int>, forceAge: int, i: nat, k: nat)
    requires FamilyOk(rows) && i < |rows| && Living(rows[i]) && rows[i].age == 0
    requires forceAge >= 1 && MaxAge(rows[i], policy) >= 1
    ensures StandsAt(Ticks(rows, policy, forceAge, k), policy, i, StandAfter(StandOf(rows[i], policy), forceAge, k))
  {
    var start := StandOf(rows[i], policy);
    if k == 0 {
      StandStart(start, forceAge);
    } else {
      GenerationAfter(rows, policy, forceAge, i, k - 1);
      TickFinal(Ticks(rows, policy, forceAge, k - 1), policy, forceAge, i);
      StandStep(start, forceAge, k);
    }
  }

  // ---- How long the code goes on ----

  lemma {:induction false} TicksInv(rows: seq<Member>, policy: Option<int>, forceAge: int, k: nat)
    requires Inv(rows)
    ensures Inv(Ticks(rows, policy, forceAge, k))
  {
    if k > 0 {
      TicksInv(rows, policy, forceAge, k - 1);
      DoInv(Family(Ticks(rows, policy, forceAge, k - 1), policy), Tick(forceAge));
    }
  }

  /** Row p is the living parent, of age 0, and its line has a positive maximum age. */
  predicate Starts(rows: seq<Member>, policy: Option<int>, forceAge: int, p: nat) {
    forceAge >= 1 && IsLivingParent(rows, p) && rows[p].age == 0 && MaxAge(rows[p], policy) >= 1
  }

  /** After k good ticks the next one raises exactly when it ends the life of a parent that is an heir. */
  lemma NextTickRaisesIff(rows: seq<Member>, policy: Option<int>, forceAge: int, p: nat, k: nat)
    requires Inv(rows) && Starts(rows, policy, forceAge, p)
    ensures var span := Lifespan(MaxAge(rows[p], policy), forceAge);
      && span >= 1
      && (TickRaises(Ticks(rows, policy, forceAge, k), policy, forceAge)
          <==> (rows[p].successorOf.Some? || k / span >= 1) && k % span == span - 1)
  {
    var maxAge := MaxAge(rows[p], policy);
    var now := Ticks(rows, policy, forceAge, k);
    LifespanBounds(maxAge, forceAge);
    TicksInv(rows, policy, forceAge, k);
    GenerationAfter(rows, policy, forceAge, p, k);
    AgeStep(maxAge, forceAge, k % Lifespan(maxAge, forceAge));
    ParentDecides(now, policy, forceAge, Final(now, p));
  }

  /** How many ticks the code makes: up to the one that would end the first life of an heir as parent,
      which is tick number 2L, or number L if the parent is itself an heir. */
  function GoodTicks(rows: seq<Member>, policy: Option<int>, forceAge: int, p: nat): nat
    requires Starts(rows, policy, forceAge, p)
  {
    LifespanBounds(MaxAge(rows[p], policy), forceAge);
    var span := Lifespan(MaxAge(rows[p], policy), forceAge);
    (if rows[p].successorOf.Some? then span else 2 * span) - 1
  }

  function Min(a: nat, b: nat): nat { if a < b then a else b }

  /** What the table holds after k ticks of the code, the failed ones included. */
  ghost function Stored(rows: seq<Member>, policy: Option<int>, forceAge: int, k: nat): seq<Member> {
    if k == 0 then rows
    else
      var before := Stored(rows, policy, forceAge, k - 1);
      if TickRaises(before, policy, forceAge) then before else LifeTick(before, policy, forceAge)
  }

  lemma BeforeTheEnd(span: int, k: nat, heir: bool)
    requires span >= 1
    ensures var last := (if heir then span else 2 * span) - 1;
      && (k < last ==> !((heir || k / span >= 1) && k % span == span - 1))
      && (k == last ==> (heir || k / span >= 1) && k % span == span - 1)
  {
    var q, m := k / span, k % span;
    assert k == span * q + m;
    if q == 0 {
      assert k == m;
    } else if q == 1 {
      assert k == span + m;
    } else {
      MulBounds(span, q - 1);
      assert span * q == span + span * (q - 1);
      if k < 2 * span {
        DivModUnique(k, span, 1, k - span);
      }
    }
  }

  lemma FirstFailure(rows: seq<Member>, policy: Option<int>, forceAge: int, p: nat, k: nat)
    requires Inv(rows) && Starts(rows, policy, forceAge, p) && k <= GoodTicks(rows, policy, forceAge, p)
    ensures TickRaises(Ticks(rows, policy, forceAge, k), policy, forceAge)
      <==> k == GoodTicks(rows, policy, forceAge, p)
  {
    NextTickRaisesIff(rows, policy, forceAge, p, k);
    BeforeTheEnd(Lifespan(MaxAge(rows[p], policy), forceAge), k, rows[p].successorOf.Some?);
  }

  lemma StoredStep(rows: seq<Member>, policy: Option<int>, forceAge: int, good: nat, k: nat, before: seq<Member>)
    requires k > 0 && before == Stored(rows, policy, forceAge, k - 1)
    requires before == Ticks(rows, policy, forceAge, Min(k - 1, good))
    requires TickRaises(before, policy, forceAge) <==> k - 1 >= good
    ensures Stored(rows, policy, forceAge, k) == Ticks(rows, policy, forceAge, Min(k, good))
  {
    if k - 1 >= good {
      assert Stored(rows, policy, forceAge, k) == before;
    } else {
      assert Stored(rows, policy, forceAge, k) == LifeTick(before, policy, forceAge);
      assert Ticks(rows, policy, forceAge, k) == LifeTick(before, policy, forceAge);
    }
  }

  /** Of the ticks of the code exactly the first 2L - 1 succeed (L - 1 if the parent is itself an heir);
      every later one raises and changes nothing. */
  lemma {:induction false} CodeStopsAt(rows: seq<Member>, policy: Option<int>, forceAge: int, p: nat, good: nat, k: nat)
    requires Inv(rows) && Starts(rows, policy, forceAge, p) && good == GoodTicks(rows, policy, forceAge, p)
    ensures Stored(rows, policy, forceAge, k) == Ticks(rows, policy, forceAge, Min(k, good))
    ensures TickRaises(Stored(rows, policy, forceAge, k), policy, forceAge) <==> k >= good
  {
    var m := Min(k, good);
    assert Stored(rows, policy, forceAge, k) == Ticks(rows, policy, forceAge, m) by {
      if k > 0 {
        CodeStopsAt(rows, policy, forceAge, p, good, k - 1);
        StoredStep(rows, policy, forceAge, good, k, Stored(rows, policy, forceAge, k - 1));
      }
    }
    FirstFailure(rows, policy, forceAge, p, m);
  }

  /** The closed form of what the code stores, for every k and every member alive at age 0: its line
      stands where the ticks that succeeded bring it. */
  lemma StoredGeneration(rows: seq<Member>, policy: Option<int>, forceAge: int, p: nat, i: nat, k: nat)
    requires Inv(rows) && Starts(rows, policy, forceAge, p)
    requires i < |rows| && Living(rows[i]) && rows[i].age == 0 && MaxAge(rows[i], policy) >= 1
    ensures StandsAt(Stored(rows, policy, forceAge, k), policy, i,
                     StandAfter(StandOf(rows[i], policy), forceAge, Min(k, GoodTicks(rows, policy, forceAge, p))))
  {
    CodeStopsAt(rows, policy, forceAge, p, GoodTicks(rows, policy, forceAge, p), k);
    GenerationAfter(rows, policy, forceAge, i, Min(k, GoodTicks(rows, policy, forceAge, p)));
  }

  /** The code follows the unbounded closed form of its parents exactly while its ticks succeed. */
  lemma ClosedFormHoldsIff(rows: seq<Member>, policy: Option<int>, forceAge: int, p: nat, k: nat)
    requires Inv(rows) && Starts(rows, policy, forceAge, p)
    ensures StandsAt(Stored(rows, policy, forceAge, k), policy, p, StandAfter(StandOf(rows[p], policy), forceAge, k))
      <==> k <= GoodTicks(rows, policy, forceAge, p)
  {
    var good := GoodTicks(rows, policy, forceAge, p);
    StoredGeneration(rows, policy, forceAge, p, p, k);
    if k > good {
      LaterStand(StandOf(rows[p], policy), forceAge, k, good);
    }
  }

  lemma LaterStand(s: Stand, forceAge: int, k: nat, good: nat)
    requires s.maxAge >= 1 && forceAge >= 1 && k > good
    requires var span := Lifespan(s.maxAge, forceAge); good == span - 1 || good == 2 * span - 1
    ensures StandAfter(s, forceAge, k).generation != StandAfter(s, forceAge, good).generation
  {
    LifespanBounds(s.maxAge, forceAge);
    LaterQuotient(Lifespan(s.maxAge, forceAge), k, good);
  }

  lemma LaterQuotient(span: int, k: int, last: int)
    requires span >= 1 && (last == span - 1 || last == 2 * span - 1) && k > last
    ensures k / span > last / span
  {
    DivModUnique(last, span, if last == span - 1 then 0 else 1, span - 1);
    assert k == span * (k / span) + k % span;
    MulBounds(span, k / span - last / span);
    assert span * (k / span - last / span) == span * (k / span) - span * (last / span);
  }

  /** A reachable family whose next tick raises: life expectancy one, after one tick. */
  lemma SecondHeirRaises()
    ensures var f := CreateFamily(None, Some(1));
      && Feasible(f, [Tick(1)])
      && Reachable(Exec(f, [Tick(1)]))
      && TickRaises(Exec(f, [Tick(1)]).rows, Some(1), 1)
  {
    var f := CreateFamily(None, Some(1));
    assert Exec(f, [Tick(1)]) == Do(f, Tick(1));
    CreateInv(None, Some(1));
    NextTickRaisesIff(f.rows, Some(1), 1, 0, 1);
    assert Ticks(f.rows, Some(1), 1, 1) == LifeTick(Ticks(f.rows, Some(1), 1, 0), Some(1), 1);
  }

  // ---- Traits ----

  predicate TraitsOk(m: Member) { 0.0 <= m.growth <= 1.0 && 0.47 <= m.thinking <= 1.0 }

  predicate AllTraitsOk(rows: seq<Member>) {
    forall i :: 0 <= i < |rows| ==> TraitsOk(rows[i])
  }

  predicate BornInRange(m: Member) { 0.1 <= m.growth <= 0.6 }

  /** An heir of a member that lived at least one tick is within bounds again. */
  lemma HeirTraits(rows: seq<Member>, i: nat, policy: Option<int>)
    requires i < |rows| && TraitsOk(rows[i]) && rows[i].growth >= 0.04 && rows[i].thinking >= 0.485
    ensures TraitsOk(Heir(rows, i, policy)) && BornInRange(Heir(rows, i, policy))
  {
  }

  lemma AgedTraits(m: Member, policy: Option<int>, forceAge: int)
    requires TraitsOk(m)
    ensures var a := Aged(m, policy, forceAge); TraitsOk(a) && a.growth >= 0.04 && a.thinking >= 0.485
  {
  }

  predicate AllGrown(rows: seq<Member>, deaths: seq<nat>)
    requires AllBelow(deaths, |rows|)
  {
    forall k :: 0 <= k < |deaths| ==> rows[deaths[k]].growth >= 0.04 && rows[deaths[k]].thinking >= 0.485
  }

  lemma {:induction false} SucceedAllTraits(rows: seq<Member>, deaths: seq<nat>, policy: Option<int>)
    requires AllTraitsOk(rows) && Doomed(rows, deaths) && AllGrown(rows, deaths)
    ensures AllTraitsOk(SucceedAll(rows, deaths, policy))
    ensures |SucceedAll(rows, deaths, policy)| == |rows| + |deaths|
    ensures forall j :: |rows| <= j < |rows| + |deaths| ==> BornInRange(SucceedAll(rows, deaths, policy)[j])
    ensures forall j :: 0 <= j < |rows| ==> SucceedAll(rows, deaths, policy)[j].growth == rows[j].growth
    decreases |deaths|
  {
    if deaths != [] {
      var dead := rows[deaths[0] := Deceased(rows[deaths[0]])];
      HeirTraits(dead, deaths[0], policy);
      DoomedRest(rows, deaths, policy);
      var rows' := Succeed(rows, deaths[0], policy);
      SucceedAllTraits(rows', deaths[1..], policy);
      var after := SucceedAll(rows', deaths[1..], policy);
      assert after[|rows|].growth == rows'[|rows|].growth;
    }
  }

  lemma TickTraits(rows: seq<Member>, policy: Option<int>, forceAge: int)
    requires AllTraitsOk(rows)
    ensures AllTraitsOk(LifeTick(rows, policy, forceAge))
    ensures |LifeTick(rows, policy, forceAge)| >= |rows|
    ensures forall i :: |rows| <= i < |LifeTick(rows, policy, forceAge)| ==>
              BornInRange(LifeTick(rows, policy, forceAge)[i])
  {
    var aged := AgeAll(rows, policy, forceAge);
    var deaths := Deaths(aged, policy, |aged|);
    forall i | 0 <= i < |rows|
      ensures TraitsOk(aged[i])
      ensures Living(rows[i]) ==> aged[i].growth >= 0.04 && aged[i].thinking >= 0.485
    {
      AgedTraits(rows[i], policy, forceAge);
    }
    TickDoomed(rows, policy, forceAge);
    SucceedAllTraits(aged, deaths, policy);
  }

  /** Over every run without manual edits, structured thinking stays in [0.47, 1] and growth in
      [0, 1] for every member of every generation. */
  lemma {:induction false} TraitsStayBounded(f: Family, ops: seq<Op>)
    requires AllTraitsOk(f.rows) && Feasible(f, ops)
    ensures AllTraitsOk(Exec(f, ops).rows)
    decreases |ops|
  {
    if ops != [] {
      if ops[0].Tick? {
        TickTraits(f.rows, f.policy, ops[0].forceAge);
      }
      TraitsStayBounded(Do(f, ops[0]), ops[1..]);
    }
  }

  /** Every heir is born with growth in [0.1, 0.6]: after every run from a founder with default traits,
      so is every row that a further tick adds. */
  lemma HeirsBornInRange(title: Option<string>, policy: Option<int>, ops: seq<Op>, forceAge: int, i: nat)
    requires Feasible(CreateFamily(title, policy), ops)
    requires var f := Exec(CreateFamily(title, policy), ops);
      |f.rows| <= i < |Do(f, Tick(forceAge)).rows|
    ensures var f := Exec(CreateFamily(title, policy), ops);
      BornInRange(Do(f, Tick(forceAge)).rows[i])
  {
    var f := Exec(CreateFamily(title, policy), ops);
    FounderTraits(title, policy);
    TraitsStayBounded(CreateFamily(title, policy), ops);
    TickTraits(f.rows, f.policy, forceAge);
  }

  lemma FounderTraits(title: Option<string>, policy: Option<int>)
    ensures AllTraitsOk(CreateFamily(title, policy).rows)
  {
  }
}
