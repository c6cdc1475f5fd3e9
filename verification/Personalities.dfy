/**
 Personality knobs derived from family and child indices, and exactly which indices share them.
 Every value is a whole number of ten-thousandths, so rounding to four digits changes none.
 */
module Personalities {
  datatype Role = Coordinator | Analyst | Creative | Executor | Empath | Builder

  datatype Knob =
    | Creativity | Humor | Formality | Verbosity | Empathy | Confidence
    | Openness | Extraversion | Agreeableness | ReasoningDepth | Accuracy | Caution
    | StepByStep | Abstraction | CreativityInReasoning | Conscientiousness | Reliability | Transparency

  type Knobs = map<Knob, real>

  const ROLE_CYCLE: seq<Role> := [Analyst, Creative, Executor, Empath, Builder]

  const DIVERSITY: seq<Knob> := [
    Creativity, Humor, Formality, Verbosity, Empathy, Confidence,
    Openness, Extraversion, Agreeableness, ReasoningDepth, Accuracy, Caution
  ]

  function Archetype(role: Role): Knobs {
    match role
    case Coordinator =>
      map[Conscientiousness := 0.9, StepByStep := 0.85, Verbosity := 0.55, Agreeableness := 0.75]
    case Analyst => map[ReasoningDepth := 0.95, Accuracy := 0.95, StepByStep := 0.9, Abstraction := 0.6]
    case Creative => map[Creativity := 0.95, CreativityInReasoning := 0.9, Openness := 0.9, Humor := 0.55]
    case Executor => map[Conscientiousness := 0.85, Verbosity := 0.45, Reliability := 0.9, Confidence := 0.8]
    case Empath => map[Empathy := 0.95, Agreeableness := 0.9, Transparency := 0.8, Formality := 0.45]
    case Builder =>
      map[Creativity := 0.75, Conscientiousness := 0.85, Reliability := 0.9,
          StepByStep := 0.8, Accuracy := 0.85, Verbosity := 0.4]
  }

  function Round4(x: real): real { (x * 10000.0 + 0.5).Floor as real / 10000.0 }

  function Clamp(x: real): real {
    var y := Round4(x);
    if y < 0.0 then 0.0 else if y > 1.0 then 1.0 else y
  }

  // ---- The knobs of a child ----

  function RoleOf(child: int): Role { ROLE_CYCLE[child % 5] }

  function Seed(child: int, family: int): int { child * 17 + family * 31 }

  /** Position of a knob in the diversified list, or -1. */
  function Place(k: Knob): (i: int)
    ensures -1 <= i < |DIVERSITY|
    ensures i >= 0 ==> DIVERSITY[i] == k
    ensures i < 0 ==> k !in DIVERSITY
  {
    match k
    case Creativity => 0
    case Humor => 1
    case Formality => 2
    case Verbosity => 3
    case Empathy => 4
    case Confidence => 5
    case Openness => 6
    case Extraversion => 7
    case Agreeableness => 8
    case ReasoningDepth => 9
    case Accuracy => 10
    case Caution => 11
    case _ => -1
  }

  lemma PlaceOf(i: nat)
    requires i < |DIVERSITY|
    ensures Place(DIVERSITY[i]) == i
  {
  }

  function Wave(seed: int, i: int): (w: int)
    ensures 0 <= w < 83
  {
    (seed * (i + 3) + i * 19) % 83
  }

  /** Pulls a base value toward a wave. */
  function Mix(base: real, wave: int): real {
    Clamp(base * 0.45 + (0.12 + wave as real / 83.0 * 0.83) * 0.55)
  }

  function Base(arch: Knobs, k: Knob): real { if k in arch then arch[k] else 0.5 }

  function CreativitySalt(seed: int): real { Clamp(0.15 + ((seed * 7) % 80) as real / 100.0) }

  function EmpathySalt(seed: int): real { Clamp(0.18 + ((seed * 11 + 5) % 78) as real / 100.0) }

  /** The value of one knob, read off the archetype and the seed. */
  function ChildKnob(arch: Knobs, seed: int, k: Knob): real {
    if k == Creativity then CreativitySalt(seed)
    else if k == Empathy then EmpathySalt(seed)
    else if Place(k) >= 0 then Mix(Base(arch, k), Wave(seed, Place(k)))
    else Base(arch, k)
  }

  function KnobsFrom(arch: Knobs, seed: int): Knobs {
    map k: Knob | k in arch || k in DIVERSITY :: ChildKnob(arch, seed, k)
  }

  function ChildKnobs(child: int, family: int): Knobs {
    KnobsFrom(Archetype(RoleOf(child)), Seed(child, family))
  }

  /** The builder's loop: every listed knob is overwritten once, from its archetype value. */
  method Diversify(arch: Knobs, order: seq<Knob>, mix: (real, int) -> real) returns (knobs: Knobs)
    requires forall i, j :: 0 <= i < j < |order| ==> order[i] != order[j]
    ensures forall k :: k in knobs <==> k in arch || k in order
    ensures forall i :: 0 <= i < |order| ==> knobs[order[i]] == mix(Base(arch, order[i]), i)
    ensures forall k :: k in knobs && k !in order ==> knobs[k] == arch[k]
  {
    knobs := arch;
    var i := 0;
    while i < |order|
      invariant 0 <= i <= |order|
      invariant forall k :: k in knobs <==> k in arch || k in order[..i]
      invariant forall j :: 0 <= j < i ==> knobs[order[j]] == mix(Base(arch, order[j]), j)
      invariant forall k :: k in arch && k !in order[..i] ==> knobs[k] == arch[k]
    {
      knobs := knobs[order[i] := mix(Base(knobs, order[i]), i)];
      i := i + 1;
    }
  }

  lemma OrderDistinct()
    ensures forall i, j :: 0 <= i < j < |DIVERSITY| ==> DIVERSITY[i] != DIVERSITY[j]
  {
    forall i, j | 0 <= i < j < |DIVERSITY|
      ensures DIVERSITY[i] != DIVERSITY[j]
    {
      PlaceOf(i);
      PlaceOf(j);
    }
  }

  /** The whole builder: archetype, diversified knobs, then a salt on two of them. */
  method DistinctChildPersonality(child: int, family: int) returns (role: Role, knobs: Knobs)
    ensures role == RoleOf(child)
    ensures knobs == ChildKnobs(child, family)
  {
    role := RoleOf(child);
    var seed := Seed(child, family);
    OrderDistinct();
    knobs := Diversify(Archetype(role), DIVERSITY, (base: real, i: int) => Mix(base, Wave(seed, i)));
    Salted(Archetype(role), seed, knobs);
    knobs := knobs[Creativity := CreativitySalt(seed)][Empathy := EmpathySalt(seed)];
  }

  lemma Salted(arch: Knobs, seed: int, mixed: Knobs)
    requires forall k :: k in mixed <==> k in arch || k in DIVERSITY
    requires forall i :: 0 <= i < |DIVERSITY| ==>
      mixed[DIVERSITY[i]] == Mix(Base(arch, DIVERSITY[i]), Wave(seed, i))
    requires forall k :: k in mixed && k !in DIVERSITY ==> mixed[k] == arch[k]
    ensures mixed[Creativity := CreativitySalt(seed)][Empathy := EmpathySalt(seed)] == KnobsFrom(arch, seed)
  {
    var knobs := mixed[Creativity := CreativitySalt(seed)][Empathy := EmpathySalt(seed)];
    forall k
      ensures k in knobs <==> k in KnobsFrom(arch, seed)
      ensures k in knobs ==> knobs[k] == ChildKnob(arch, seed, k)
    {
      if Place(k) >= 0 {
        assert mixed[DIVERSITY[Place(k)]] == Mix(Base(arch, k), Wave(seed, Place(k)));
      }
    }
  }

  // ---- Rounding and clamping are exact here ----

  predicate Hundredths(x: real) { 0.0 <= x <= 1.0 && (x * 100.0).Floor as real == x * 100.0 }

  lemma ClampExact(n: int)
    requires 0 <= n <= 10000
    ensures Clamp(n as real / 10000.0) == n as real / 10000.0
  {
    var x := n as real / 10000.0;
    assert x * 10000.0 == n as real;
    assert (n as real + 0.5).Floor == n;
  }

  lemma MixExact(base: real, wave: int)
    requires Hundredths(base) && 0 <= wave < 83
    ensures Mix(base, wave) == base * 0.45 + 0.066 + wave as real * 0.0055
  {
    var b := (base * 100.0).Floor;
    var n := 45 * b + 660 + 55 * wave;
    assert base == b as real / 100.0;
    assert base * 0.45 + (0.12 + wave as real / 83.0 * 0.83) * 0.55 == n as real / 10000.0;
    ClampExact(n);
  }

  lemma BaseHundredths(role: Role, k: Knob)
    ensures Hundredths(Base(Archetype(role), k))
  {
  }

  lemma SaltExact(offset: int, n: int)
    requires 0 <= offset <= 100 && 0 <= n && offset + n <= 100
    ensures Clamp(offset as real / 100.0 + n as real / 100.0) == (offset + n) as real / 100.0
  {
    ClampExact(100 * (offset + n));
    assert offset as real / 100.0 + n as real / 100.0 == (100 * (offset + n)) as real / 10000.0;
  }

  // ---- Congruences ----

  ghost predicate Congruent(a: int, b: int, m: int)
    requires m > 0
  {
    a % m == b % m
  }

  ghost function Quotient(a: int, b: int, m: int): int
    requires m > 0
  {
    a / m - b / m
  }

  /** Congruent numbers differ by a multiple of the modulus. */
  lemma Multiple(a: int, b: int, m: int)
    requires m > 0 && Congruent(a, b, m)
    ensures a - b == m * Quotient(a, b, m)
  {
    var x, y := a / m, b / m;
    assert a == m * x + a % m && b == m * y + b % m;
    assert m * (x - y) == m * x - m * y;
  }

  lemma SmallMultiple(m: int, d: int)
    requires m > 0 && -m < m * d < m
    ensures d == 0
  {
  }

  /** Numbers that differ by a multiple of the modulus are congruent. */
  lemma ByMultiple(a: int, b: int, m: int, q: int)
    requires m > 0 && a - b == m * q
    ensures Congruent(a, b, m)
  {
    var x, y := a / m, b / m;
    assert a == m * x + a % m && b == m * y + b % m;
    var d := q - x + y;
    assert m * d == m * q - m * x + m * y;
    assert a % m - b % m == m * d;
    SmallMultiple(m, d);
  }

  lemma Scale(a: int, b: int, c: int, e: int, m: int)
    requires m > 0 && Congruent(a, b, m)
    ensures Congruent(a * c + e, b * c + e, m)
  {
    Multiple(a, b, m);
    var q := Quotient(a, b, m);
    Distribute(a, b, c, m, q);
    ByMultiple(a * c + e, b * c + e, m, q * c);
  }

  lemma Distribute(a: int, b: int, c: int, m: int, q: int)
    requires a - b == m * q
    ensures a * c - b * c == m * (q * c)
  {
    assert (a - b) * c == a * c - b * c;
    assert m * q * c == m * (q * c);
  }

  lemma Invert(d: int, c: int, m: int, inv: int, t: int, q: int)
    requires c * inv == m * t + 1 && d * c == m * q
    ensures d == m * (q * inv - d * t)
  {
    assert d * (c * inv) == d * (m * t) + d;
    assert d * (c * inv) == (d * c) * inv == m * (q * inv);
    assert d * (m * t) == m * (d * t);
    assert m * (q * inv - d * t) == m * (q * inv) - m * (d * t);
  }

  /** A factor with an inverse modulo m can be cancelled, whatever is added. */
  lemma Cancel(a: int, b: int, c: int, e: int, m: int, inv: int, t: int)
    requires m > 0 && c * inv == m * t + 1
    ensures Congruent(a * c + e, b * c + e, m) <==> Congruent(a, b, m)
  {
    if Congruent(a, b, m) {
      Scale(a, b, c, e, m);
    }
    if Congruent(a * c + e, b * c + e, m) {
      Multiple(a * c + e, b * c + e, m);
      var q := Quotient(a * c + e, b * c + e, m);
      assert (a - b) * c == a * c - b * c;
      Invert(a - b, c, m, inv, t, q);
      ByMultiple(a, b, m, q * inv - (a - b) * t);
    }
  }

  lemma Bezout(d: int, m: int, n: int, x: int, y: int, u: int, v: int)
    requires m * x + n * y == 1 && d == m * u && d == n * v
    ensures d == m * n * (x * v + y * u)
  {
    assert d == d * (m * x + n * y) == m * x * d + n * y * d;
    assert m * x * (n * v) == m * n * (x * v);
    assert n * y * (m * u) == m * n * (y * u);
    assert m * n * (x * v + y * u) == m * n * (x * v) + m * n * (y * u);
  }

  lemma CombineUp(a: int, b: int, m: int, n: int, x: int, y: int)
    requires m > 0 && n > 0 && m * n > 0 && m * x + n * y == 1
    requires Congruent(a, b, m) && Congruent(a, b, n)
    ensures Congruent(a, b, m * n)
  {
    Multiple(a, b, m);
    Multiple(a, b, n);
    var u, v := Quotient(a, b, m), Quotient(a, b, n);
    Bezout(a - b, m, n, x, y, u, v);
    ByMultiple(a, b, m * n, x * v + y * u);
  }

  lemma CombineDown(a: int, b: int, m: int, n: int)
    requires m > 0 && m * n > 0 && Congruent(a, b, m * n)
    ensures Congruent(a, b, m)
  {
    Multiple(a, b, m * n);
    var q := Quotient(a, b, m * n);
    assert m * n * q == m * (n * q);
    ByMultiple(a, b, m, n * q);
  }

  lemma SaltsExact(seed: int)
    ensures CreativitySalt(seed) == (15 + (7 * seed) % 80) as real / 100.0
    ensures EmpathySalt(seed) == (18 + (11 * seed + 5) % 78) as real / 100.0
  {
    SaltExact(15, (seed * 7) % 80);
    SaltExact(18, (seed * 11 + 5) % 78);
  }

  /** The two salted knobs of a child, exactly. */
  lemma ChildSaltsExact(child: int, family: int)
    ensures var knobs, seed := ChildKnobs(child, family), 17 * child + 31 * family;
      && Creativity in knobs && knobs[Creativity] == (15 + (7 * seed) % 80) as real / 100.0
      && Empathy in knobs && knobs[Empathy] == (18 + (11 * seed + 5) % 78) as real / 100.0
  {
    var arch, seed := Archetype(RoleOf(child)), Seed(child, family);
    SaltsExact(seed);
    KnobsFromAt(arch, seed, Creativity);
    KnobsFromAt(arch, seed, Empathy);
  }

  /** Another diversified knob, exactly: 45% of the archetype value, or of 0.5, plus 0.066 plus 0.0055 for
      each step of the wave. */
  lemma DiversifiedExact(role: Role, seed: int, k: Knob)
    requires Place(k) >= 0 && k != Creativity && k != Empathy
    ensures var arch, knobs := Archetype(role), KnobsFrom(Archetype(role), seed);
      && k in knobs
      && knobs[k] == (if k in arch then arch[k] else 0.5) * 0.45 + 0.066
                     + ((seed * (Place(k) + 3) + Place(k) * 19) % 83) as real * 0.0055
  {
    BaseHundredths(role, k);
    KnobsFromAt(Archetype(role), seed, k);
    MixExact(Base(Archetype(role), k), Wave(seed, Place(k)));
  }

  /** A knob that is not diversified is the archetype's. */
  lemma ArchetypeKept(child: int, family: int, k: Knob)
    requires Place(k) < 0
    ensures var arch, knobs := Archetype(RoleOf(child)), ChildKnobs(child, family);
      (k in knobs <==> k in arch) && (k in arch ==> knobs[k] == arch[k])
  {
    KnobsFromAt(Archetype(RoleOf(child)), Seed(child, family), k);
  }

  lemma KnobsFromAt(arch: Knobs, seed: int, k: Knob)
    ensures k in KnobsFrom(arch, seed) <==> k in arch || Place(k) >= 0
    ensures k in KnobsFrom(arch, seed) ==> KnobsFrom(arch, seed)[k] == ChildKnob(arch, seed, k)
  {
  }

  // ---- Which children share their knobs ----

  lemma CreativityIff(s: int, t: int)
    ensures CreativitySalt(s) == CreativitySalt(t) <==> Congruent(s, t, 80)
  {
    SaltExact(15, (s * 7) % 80);
    SaltExact(15, (t * 7) % 80);
    Cancel(s, t, 7, 0, 80, 23, 2);
  }

  lemma EmpathyIff(s: int, t: int)
    ensures EmpathySalt(s) == EmpathySalt(t) <==> Congruent(s, t, 78)
  {
    SaltExact(18, (s * 11 + 5) % 78);
    SaltExact(18, (t * 11 + 5) % 78);
    Cancel(s, t, 11, 5, 78, 71, 10);
  }

  /** The two salted knobs agree exactly for seeds congruent modulo 3120. */
  lemma SaltsIff(s: int, t: int)
    ensures CreativitySalt(s) == CreativitySalt(t) && EmpathySalt(s) == EmpathySalt(t)
      <==> Congruent(s, t, 3120)
  {
    CreativityIff(s, t);
    EmpathyIff(s, t);
    if Congruent(s, t, 80) && Congruent(s, t, 78) {
      CombineDown(s, t, 39, 2);
      CombineUp(s, t, 80, 39, 20, -41);
    }
    if Congruent(s, t, 3120) {
      CombineDown(s, t, 80, 39);
      CombineDown(s, t, 78, 40);
    }
  }

  /** For one base value, the wave can be read back from the knob. */
  lemma MixInjective(base: real, v: int, w: int)
    requires Hundredths(base) && 0 <= v < 83 && 0 <= w < 83 && Mix(base, v) == Mix(base, w)
    ensures v == w
  {
    MixExact(base, v);
    MixExact(base, w);
  }

  const PERIOD: int := 258960

  lemma SeedsIff(role: Role, s: int, t: int)
    ensures KnobsFrom(Archetype(role), s) == KnobsFrom(Archetype(role), t) <==> Congruent(s, t, PERIOD)
  {
    var arch := Archetype(role);
    if KnobsFrom(arch, s) == KnobsFrom(arch, t) {
      BaseHundredths(role, Humor);
      SameMeansCongruent(arch, s, t);
    }
    if Congruent(s, t, PERIOD) {
      CongruentMeansSame(arch, s, t);
    }
  }

  lemma SameValue(arch: Knobs, s: int, t: int, k: Knob)
    requires KnobsFrom(arch, s) == KnobsFrom(arch, t) && Place(k) >= 0
    ensures ChildKnob(arch, s, k) == ChildKnob(arch, t, k)
  {
    assert k in DIVERSITY;
    assert KnobsFrom(arch, s)[k] == ChildKnob(arch, s, k);
    assert KnobsFrom(arch, t)[k] == ChildKnob(arch, t, k);
  }

  lemma WaveOne(base: real, s: int, t: int)
    requires Hundredths(base) && Mix(base, Wave(s, 1)) == Mix(base, Wave(t, 1))
    ensures Congruent(s, t, 83)
  {
    MixInjective(base, Wave(s, 1), Wave(t, 1));
    Cancel(s, t, 4, 19, 83, 21, 1);
  }

  lemma SameMeansCongruent(arch: Knobs, s: int, t: int)
    requires KnobsFrom(arch, s) == KnobsFrom(arch, t) && Hundredths(Base(arch, Humor))
    ensures Congruent(s, t, PERIOD)
  {
    SameValue(arch, s, t, Creativity);
    SameValue(arch, s, t, Empathy);
    SameValue(arch, s, t, Humor);
    SaltsIff(s, t);
    WaveOne(Base(arch, Humor), s, t);
    CombineUp(s, t, 3120, 83, 61, -2293);
  }

  lemma CongruentMeansSame(arch: Knobs, s: int, t: int)
    requires Congruent(s, t, PERIOD)
    ensures KnobsFrom(arch, s) == KnobsFrom(arch, t)
  {
    CombineDown(s, t, 3120, 83);
    CombineDown(s, t, 83, 3120);
    SaltsIff(s, t);
    forall k: Knob
      ensures ChildKnob(arch, s, k) == ChildKnob(arch, t, k)
    {
      Scale(s, t, Place(k) + 3, Place(k) * 19, 83);
    }
  }

  /** The knobs outside the diversified list give the role away. */
  lemma RoleFromKeys(c: int, d: int)
    requires forall k :: k !in DIVERSITY ==> (k in Archetype(RoleOf(c)) <==> k in Archetype(RoleOf(d)))
    ensures Congruent(c, d, 5)
  {
    assert Place(StepByStep) < 0 && Place(Abstraction) < 0 && Place(CreativityInReasoning) < 0;
    assert Place(Conscientiousness) < 0 && Place(Transparency) < 0;
    assert forall k :: Place(k) < 0 ==> (k in Archetype(RoleOf(c)) <==> k in Archetype(RoleOf(d)));
    RoleSignature(c);
    RoleSignature(d);
  }

  lemma RoleSignature(c: int)
    ensures Abstraction in Archetype(RoleOf(c)) <==> c % 5 == 0
    ensures CreativityInReasoning in Archetype(RoleOf(c)) <==> c % 5 == 1
    ensures Conscientiousness in Archetype(RoleOf(c)) <==> c % 5 == 2 || c % 5 == 4
    ensures Transparency in Archetype(RoleOf(c)) <==> c % 5 == 3
    ensures StepByStep in Archetype(RoleOf(c)) <==> c % 5 == 0 || c % 5 == 4
  {
  }

  /** Two children have the same knobs exactly when their places agree modulo 5 and their seeds
      modulo 258960. */
  lemma ChildrenShareKnobsIff(c: int, f: int, d: int, g: int)
    ensures ChildKnobs(c, f) == ChildKnobs(d, g)
      <==> Congruent(c, d, 5) && Congruent(Seed(c, f), Seed(d, g), PERIOD)
  {
    if ChildKnobs(c, f) == ChildKnobs(d, g) {
      assert forall k :: k in ChildKnobs(c, f) <==> k in Archetype(RoleOf(c)) || k in DIVERSITY;
      assert forall k :: k in ChildKnobs(d, g) <==> k in Archetype(RoleOf(d)) || k in DIVERSITY;
      RoleFromKeys(c, d);
    }
    if Congruent(c, d, 5) {
      assert RoleOf(c) == RoleOf(d);
      SeedsIff(RoleOf(c), Seed(c, f), Seed(d, g));
    }
  }

  // ---- Which parents share their knobs ----

  function ParentKnobs(family: int): Knobs {
    var seed := family * 41 + 3;
    Archetype(Coordinator)
    [ReasoningDepth := Clamp(0.85 + (seed % 10) as real / 100.0)]
    [Agreeableness := Clamp(0.65 + ((seed * 3) % 25) as real / 100.0)]
    [Verbosity := Clamp(0.4 + ((seed * 5) % 30) as real / 100.0)]
  }

  lemma VerbosityIff(s: int, t: int)
    ensures Congruent(s * 5, t * 5, 30) <==> Congruent(s, t, 6)
  {
    if Congruent(s, t, 6) {
      Multiple(s, t, 6);
      ByMultiple(s * 5, t * 5, 30, Quotient(s, t, 6));
    }
    if Congruent(s * 5, t * 5, 30) {
      Multiple(s * 5, t * 5, 30);
      ByMultiple(s, t, 6, Quotient(s * 5, t * 5, 30));
    }
  }

  lemma ParentSeedsIff(s: int, t: int)
    ensures Congruent(s, t, 10) && Congruent(s * 3, t * 3, 25) && Congruent(s * 5, t * 5, 30)
      <==> Congruent(s, t, 150)
  {
    Cancel(s, t, 3, 0, 25, 17, 2);
    VerbosityIff(s, t);
    if Congruent(s, t, 25) && Congruent(s, t, 6) {
      CombineUp(s, t, 25, 6, 1, -4);
    }
    if Congruent(s, t, 150) {
      CombineDown(s, t, 25, 6);
      CombineDown(s, t, 6, 25);
      CombineDown(s, t, 10, 15);
    }
  }

  lemma ParentKnobsExact(family: int)
    ensures var seed, knobs := family * 41 + 3, ParentKnobs(family);
      && knobs[ReasoningDepth] == (85 + seed % 10) as real / 100.0
      && knobs[Agreeableness] == (65 + (seed * 3) % 25) as real / 100.0
      && knobs[Verbosity] == (40 + (seed * 5) % 30) as real / 100.0
  {
    var seed := family * 41 + 3;
    SaltExact(85, seed % 10);
    SaltExact(65, (seed * 3) % 25);
    SaltExact(40, (seed * 5) % 30);
  }

  /** Two parents have the same knobs exactly when their families agree modulo 150. */
  lemma ParentsShareKnobsIff(f: int, g: int)
    ensures ParentKnobs(f) == ParentKnobs(g) <==> Congruent(f, g, 150)
  {
    ParentKnobsExact(f);
    ParentKnobsExact(g);
    ParentSeedsIff(f * 41 + 3, g * 41 + 3);
    Cancel(f, g, 41, 3, 150, 11, 3);
  }

  // ---- A whole city ----

  datatype Agent = Parent(family: int) | Child(child: int, family: int)

  function KnobsOf(a: Agent): Knobs {
    match a
    case Parent(f) => ParentKnobs(f)
    case Child(c, f) => ChildKnobs(c, f)
  }

  predicate InCity(a: Agent, families: int, children: int) {
    0 <= a.family < families && (a.Child? ==> 0 <= a.child < children)
  }

  ghost predicate AllDistinct(families: int, children: int) {
    forall a, b :: InCity(a, families, children) && InCity(b, families, children) && a != b ==>
      KnobsOf(a) != KnobsOf(b)
  }

  lemma ParentsDistinct(f: int, g: int)
    requires 0 <= f < 150 && 0 <= g < 150 && f != g
    ensures ParentKnobs(f) != ParentKnobs(g)
  {
    if Congruent(f, g, 150) {
      SmallCongruent(f, g, 150);
    } else {
      ParentsShareKnobsIff(f, g);
    }
  }

  lemma SmallCongruent(f: int, g: int, m: int)
    requires 0 <= f < m && 0 <= g < m && Congruent(f, g, m)
    ensures f == g
  {
    Multiple(f, g, m);
    SmallMultiple(m, Quotient(f, g, m));
  }

  lemma ParentIsNoChild(f: int, c: int, g: int)
    ensures ParentKnobs(f) != ChildKnobs(c, g)
  {
    assert DIVERSITY[0] == Creativity;
    assert Creativity in ChildKnobs(c, g);
    assert Creativity !in ParentKnobs(f);
  }

  /** Equal seeds with places equal modulo 5: the places differ by 155 for every 85 families. */
  lemma SeedsEqual(dc: int, df: int, j: int) returns (v: int)
    requires 17 * dc + 31 * df == 0 && dc == 5 * j
    ensures dc == 155 * v && df == -85 * v
  {
    var u := -11 * df - 6 * dc;
    assert dc == 31 * u;
    v := j - 6 * u;
    assert u == 5 * v;
  }

  lemma PlacesEqual(families: int, children: int, dc: int, df: int, j: int)
    requires children <= 155 || families <= 85
    requires -children < dc < children && -families < df < families
    requires 17 * dc + 31 * df == 0 && dc == 5 * j
    ensures dc == 0 && df == 0
  {
    var v := SeedsEqual(dc, df, j);
  }

  /** Two children `dc` places and `df` families apart share their knobs. */
  predicate Clash(dc: int, df: int) {
    (dc != 0 || df != 0) && dc % 5 == 0 && (17 * dc + 31 * df) % PERIOD == 0
  }

  ghost predicate NoClash(families: int, children: int) {
    forall dc, df :: 0 <= dc < children && -families < df < families ==> !Clash(dc, df)
  }

  lemma CongruentDifference(a: int, b: int, m: int)
    requires m > 0
    ensures Congruent(a, b, m) <==> (a - b) % m == 0
  {
    if Congruent(a, b, m) {
      Multiple(a, b, m);
      ByMultiple(a - b, 0, m, Quotient(a, b, m));
    }
    if (a - b) % m == 0 {
      ByMultiple(a, b, m, (a - b) / m);
    }
  }

  lemma SharedKnobsClash(c: int, f: int, d: int, g: int)
    requires (c, f) != (d, g)
    ensures ChildKnobs(c, f) == ChildKnobs(d, g) <==> Clash(c - d, f - g)
  {
    ChildrenShareKnobsIff(c, f, d, g);
    ClashIff(c, f, d, g);
  }

  lemma ClashIff(c: int, f: int, d: int, g: int)
    requires (c, f) != (d, g)
    ensures Congruent(c, d, 5) && Congruent(Seed(c, f), Seed(d, g), PERIOD) <==> Clash(c - d, f - g)
  {
    CongruentDifference(c, d, 5);
    CongruentDifference(Seed(c, f), Seed(d, g), PERIOD);
  }

  lemma SharedSpoils(families: int, children: int, a: Agent, b: Agent)
    requires InCity(a, families, children) && InCity(b, families, children) && a != b && KnobsOf(a) == KnobsOf(b)
    ensures !AllDistinct(families, children)
  {
  }

  lemma TooManyFamilies(families: int, children: int)
    requires families > 150
    ensures !AllDistinct(families, children)
  {
    ParentsShareKnobsIff(0, 150);
    SharedSpoils(families, children, Parent(0), Parent(150));
  }

  lemma ClashSpoils(families: int, children: int, dc: int, df: int)
    requires 0 <= dc < children && -families < df < families && Clash(dc, df)
    ensures !AllDistinct(families, children)
  {
    if df < 0 {
      ClashAt(families, children, dc, 0, 0, -df);
    } else {
      ClashAt(families, children, dc, df, 0, 0);
    }
  }

  lemma ClashAt(families: int, children: int, c: int, f: int, d: int, g: int)
    requires 0 <= c < children && 0 <= d < children && 0 <= f < families && 0 <= g < families
    requires Clash(c - d, f - g)
    ensures !AllDistinct(families, children)
  {
    SharedKnobsClash(c, f, d, g);
    SharedSpoils(families, children, Child(c, f), Child(d, g));
  }

  /** For a city of any size: all agents differ exactly when it has at most 150 families and no two
      places in it clash. */
  lemma CityDistinctIffNoClash(families: int, children: int)
    requires families >= 1 && children >= 1
    ensures AllDistinct(families, children) <==> families <= 150 && NoClash(families, children)
  {
    if families > 150 {
      TooManyFamilies(families, children);
    } else if !NoClash(families, children) {
      var dc, df :| 0 <= dc < children && -families < df < families && Clash(dc, df);
      ClashSpoils(families, children, dc, df);
    } else {
      forall a, b | InCity(a, families, children) && InCity(b, families, children) && a != b
        ensures KnobsOf(a) != KnobsOf(b)
      {
        NoClashPair(families, children, a, b);
      }
    }
  }

  lemma NoClashPair(families: int, children: int, a: Agent, b: Agent)
    requires families <= 150 && NoClash(families, children)
    requires InCity(a, families, children) && InCity(b, families, children) && a != b
    ensures KnobsOf(a) != KnobsOf(b)
  {
    match (a, b) {
      case (Parent(f), Parent(g)) => ParentsDistinct(f, g);
      case (Parent(f), Child(c, g)) => ParentIsNoChild(f, c, g);
      case (Child(c, g), Parent(f)) => ParentIsNoChild(f, c, g);
      case (Child(c, f), Child(d, g)) =>
        if c >= d {
          SharedKnobsClash(c, f, d, g);
        } else {
          SharedKnobsClash(d, g, c, f);
        }
    }
  }

  /** While seeds stay below the period, all agents of a city differ exactly when it has at most 150
      families and not both more than 155 children per family and more than 85 families. */
  lemma CityDistinctIff(families: int, children: int)
    requires families >= 1 && children >= 1
    requires 17 * (children - 1) + 31 * (families - 1) < PERIOD
    ensures AllDistinct(families, children)
      <==> families <= 150 && (children <= 155 || families <= 85)
  {
    CityDistinctIffNoClash(families, children);
    NoClashIff(families, children);
  }

  lemma NoClashIff(families: int, children: int)
    requires families >= 1 && children >= 1
    requires 17 * (children - 1) + 31 * (families - 1) < PERIOD
    ensures NoClash(families, children) <==> children <= 155 || families <= 85
  {
    if children > 155 && families > 85 {
      assert Clash(155, -85);
    } else {
      forall dc, df | 0 <= dc < children && -families < df < families
        ensures !Clash(dc, df)
      {
        SmallClash(families, children, dc, df);
      }
    }
  }

  lemma SmallClash(families: int, children: int, dc: int, df: int)
    requires 17 * (children - 1) + 31 * (families - 1) < PERIOD && (children <= 155 || families <= 85)
    requires 0 <= dc < children && -families < df < families
    ensures !Clash(dc, df)
  {
    if Clash(dc, df) {
      var n := 17 * dc + 31 * df;
      SmallMultiple(PERIOD, n / PERIOD);
      PlacesEqual(families, children, dc, df, dc / 5);
    }
  }

  /** Not every pair of indices has a personality of its own. */
  lemma NotEveryPairDiffers()
    ensures KnobsOf(Child(0, 85)) == KnobsOf(Child(155, 0))
  {
    assert Seed(0, 85) == Seed(155, 0) == 2635;
    ChildrenShareKnobsIff(0, 85, 155, 0);
  }
}
