/**
 What an heir inherits besides its place: the name without its generation suffix, the dreams with
 one ancestral marker, and the personality knobs with a small drift.
 */
module Heritage {
  import opened Prelude
  import opened Text

  // ---- Names ----

  /** Separates a base name from its generation number. */
  const SUFFIX: string := " \U{00B7} G"

  predicate SuffixAt(s: string, i: nat) {
    i + 4 <= |s| && s[i] == ' ' && s[i + 1] == '\U{00B7}' && s[i + 2] == ' ' && s[i + 3] == 'G'
  }

  /** Position of the first suffix at or after i, or the end of the string. */
  function FirstSuffix(s: string, i: nat): (k: nat)
    requires i <= |s|
    ensures i <= k <= |s|
    decreases |s| - i
  {
    if i == |s| || SuffixAt(s, i) then i else FirstSuffix(s, i + 1)
  }

  function RStrip(s: string): string {
    if s != "" && IsSpace(s[|s| - 1]) then RStrip(s[..|s| - 1]) else s
  }

  function BaseName(name: string): string { RStrip(name[..FirstSuffix(name, 0)]) }

  function Digits(n: nat): string {
    if n < 10 then [('0' as int + n) as char] else Digits(n / 10) + [('0' as int + n % 10) as char]
  }

  function HeirName(name: string, generation: nat): string {
    BaseName(name) + SUFFIX + Digits(generation)
  }

  lemma {:induction false} FirstSuffixIsFirst(s: string, i: nat)
    requires i <= |s|
    ensures forall j :: i <= j < FirstSuffix(s, i) ==> !SuffixAt(s, j)
    decreases |s| - i
  {
    if i < |s| && !SuffixAt(s, i) {
      FirstSuffixIsFirst(s, i + 1);
    }
  }

  lemma {:induction false} FirstSuffixUnique(s: string, i: nat, k: nat)
    requires i <= k <= |s| && (k == |s| || SuffixAt(s, k))
    requires forall j :: i <= j < k ==> !SuffixAt(s, j)
    ensures FirstSuffix(s, i) == k
    decreases |s| - i
  {
    if i < k {
      FirstSuffixUnique(s, i + 1, k);
    }
  }

  lemma {:induction false} RStripIsPrefix(s: string)
    ensures RStrip(s) <= s
    ensures RStrip(s) != "" ==> !IsSpace(RStrip(s)[|RStrip(s)| - 1])
    ensures RStrip(RStrip(s)) == RStrip(s)
    ensures forall i :: |RStrip(s)| <= i < |s| ==> IsSpace(s[i])
  {
    if s != "" && IsSpace(s[|s| - 1]) {
      RStripIsPrefix(s[..|s| - 1]);
    }
  }

  /** A base name holds no suffix and does not end in a space. */
  lemma BaseNameClean(name: string)
    ensures forall j :: 0 <= j < |BaseName(name)| ==> !SuffixAt(BaseName(name), j)
    ensures RStrip(BaseName(name)) == BaseName(name)
    ensures BaseName(name) != "" ==> !IsSpace(BaseName(name)[|BaseName(name)| - 1])
  {
    var k := FirstSuffix(name, 0);
    FirstSuffixIsFirst(name, 0);
    RStripIsPrefix(name[..k]);
    forall j | 0 <= j < |BaseName(name)|
      ensures !SuffixAt(BaseName(name), j)
    {
      assert !SuffixAt(name, j);
    }
  }

  /** No suffix can begin inside a clean base and end in the suffix that follows it. */
  lemma NoStraddle(base: string, rest: string, j: nat)
    requires forall i :: 0 <= i < |base| ==> !SuffixAt(base, i)
    requires base != "" ==> !IsSpace(base[|base| - 1])
    requires j < |base|
    ensures !SuffixAt(base + SUFFIX + rest, j)
  {
    var s := base + SUFFIX + rest;
    if j + 4 <= |base| {
      assert !SuffixAt(base, j);
    } else if j + 1 == |base| {
      assert s[j] == base[j];
    } else if j + 2 == |base| {
      assert s[j + 3] == SUFFIX[1];
    } else {
      assert s[j + 3] == SUFFIX[0];
    }
  }

  /** A name without a suffix and without a space at its end. */
  predicate Plain(name: string) {
    (forall i :: 0 <= i < |name| ==> !SuffixAt(name, i)) && (name != "" ==> !IsSpace(name[|name| - 1]))
  }

  /** A plain name is its own base, and stays the base when a suffix is added. */
  lemma BaseOfPlain(base: string, rest: string)
    requires Plain(base)
    ensures BaseName(base) == base
    ensures BaseName(base + " \U{00B7} G" + rest) == base
  {
    FirstSuffixUnique(base, 0, |base|);
    assert base[..|base|] == base;
    var s := base + " \U{00B7} G" + rest;
    forall j | 0 <= j < |base|
      ensures !SuffixAt(s, j)
    {
      NoStraddle(base, rest, j);
    }
    assert SuffixAt(s, |base|);
    FirstSuffixUnique(s, 0, |base|);
    assert s[..|base|] == base;
  }

  /** Generation suffixes never pile up: the base of an heir's name is the base of its ancestor's. */
  lemma BaseNameSurvives(name: string, generation: nat)
    ensures BaseName(HeirName(name, generation)) == BaseName(name)
  {
    BaseNameClean(name);
    BaseOfPlain(BaseName(name), Digits(generation));
  }

  /** The number that a string of digits writes. */
  function NumberOf(s: string): int {
    if s == "" then 0 else 10 * NumberOf(s[..|s| - 1]) + (s[|s| - 1] as int - '0' as int)
  }

  /** A generation is written in decimal digits, without a leading zero. */
  lemma {:induction false} DigitsWriteNumber(n: nat)
    ensures Digits(n) != "" && NumberOf(Digits(n)) == n
    ensures forall i :: 0 <= i < |Digits(n)| ==> '0' <= Digits(n)[i] <= '9'
    ensures n > 0 ==> Digits(n)[0] != '0'
  {
    if n >= 10 {
      DigitsWriteNumber(n / 10);
      assert Digits(n)[..|Digits(n)| - 1] == Digits(n / 10);
    } else {
      assert NumberOf("") == 0;
      assert Digits(n)[..0] == "";
    }
  }

  /** The name after a line of successions. */
  function LineName(name: string, generations: seq<nat>): string {
    if generations == [] then name
    else HeirName(LineName(name, generations[..|generations| - 1]), generations[|generations| - 1])
  }

  /** Along any line the name is the founder's base name with the last generation's suffix. */
  lemma {:induction false} LineNameShape(name: string, generations: seq<nat>)
    ensures BaseName(LineName(name, generations)) == BaseName(name)
    ensures generations != [] ==>
      LineName(name, generations) == BaseName(name) + SUFFIX + Digits(generations[|generations| - 1])
  {
    if generations != [] {
      var rest := generations[..|generations| - 1];
      LineNameShape(name, rest);
      BaseNameSurvives(LineName(name, rest), generations[|generations| - 1]);
    }
  }

  // ---- Dreams ----

  /** `dict.fromkeys`: the first occurrence of each entry, in order. */
  function Dedup(s: seq<string>): seq<string> {
    if s == [] then []
    else
      var d := Dedup(s[..|s| - 1]);
      if s[|s| - 1] in d then d else d + [s[|s| - 1]]
  }

  function FirstSix(s: seq<string>): seq<string> { if |s| <= 6 then s else s[..6] }

  function HeirDreams(dreams: seq<string>, defaults: seq<string>, base: string): seq<string> {
    FirstSix(Dedup((if dreams == [] then defaults else dreams) + ["honor legacy of " + base]))
  }

  predicate Distinct(s: seq<string>) { forall i, j :: 0 <= i < j < |s| ==> s[i] != s[j] }

  lemma {:induction false} DedupDistinct(s: seq<string>)
    ensures Distinct(Dedup(s))
    ensures forall x :: x in s ==> x in Dedup(s)
  {
    if s != [] {
      DedupDistinct(s[..|s| - 1]);
      assert forall x :: x in s ==> x in s[..|s| - 1] || x == s[|s| - 1];
    }
  }

  lemma {:induction false} DedupOfDistinct(s: seq<string>)
    requires Distinct(s)
    ensures Dedup(s) == s
  {
    if s != [] {
      DedupOfDistinct(s[..|s| - 1]);
      assert s == s[..|s| - 1] + [s[|s| - 1]];
    }
  }

  lemma DedupAppend(s: seq<string>, x: string)
    requires Distinct(s)
    ensures Dedup(s + [x]) == if x in s then s else s + [x]
  {
    DedupOfDistinct(s);
    assert (s + [x])[..|s|] == s;
  }

  /** How many different entries the first k have. */
  function NewAmong(s: seq<string>, k: nat): nat
    requires k <= |s|
  {
    if k == 0 then 0 else NewAmong(s, k - 1) + (if s[k - 1] in s[..k - 1] then 0 else 1)
  }

  lemma {:induction false} NewAmongPrefix(s: seq<string>, n: nat, k: nat)
    requires k <= n <= |s|
    ensures NewAmong(s[..n], k) == NewAmong(s, k)
  {
    if k > 0 {
      NewAmongPrefix(s, n, k - 1);
      assert s[..n][..k - 1] == s[..k - 1];
    }
  }

  lemma {:induction false} DedupMembers(s: seq<string>)
    ensures |Dedup(s)| == NewAmong(s, |s|)
    ensures forall x :: x in Dedup(s) <==> x in s
  {
    if s != [] {
      var n := |s| - 1;
      DedupMembers(s[..n]);
      NewAmongPrefix(s, n, n);
      assert s == s[..n] + [s[n]];
    }
  }

  /** Each entry stands where its first occurrence puts it among the different ones. */
  lemma {:induction false} DedupAt(s: seq<string>, i: nat)
    requires i < |s| && s[i] !in s[..i]
    ensures NewAmong(s, i) < |Dedup(s)| && Dedup(s)[NewAmong(s, i)] == s[i]
  {
    var n := |s| - 1;
    DedupMembers(s[..n]);
    NewAmongPrefix(s, n, i);
    assert s[..n][..i] == s[..i];
    if i < n {
      DedupAt(s[..n], i);
    }
  }

  /** An heir dreams the dreams of its predecessor, or the default ones, then of its legacy, each once
      and in order, up to six. */
  lemma DreamsInherited(dreams: seq<string>, defaults: seq<string>, base: string)
    ensures var own := (if dreams == [] then defaults else dreams) + ["honor legacy of " + base];
      var heirs := HeirDreams(dreams, defaults, base);
      && |heirs| == (if NewAmong(own, |own|) < 6 then NewAmong(own, |own|) else 6)
      && forall i :: 0 <= i < |own| && own[i] !in own[..i] && NewAmong(own, i) < 6 ==>
           NewAmong(own, i) < |heirs| && heirs[NewAmong(own, i)] == own[i]
  {
    var own := (if dreams == [] then defaults else dreams) + ["honor legacy of " + base];
    DedupMembers(own);
    forall i | 0 <= i < |own| && own[i] !in own[..i]
      ensures NewAmong(own, i) < |Dedup(own)| && Dedup(own)[NewAmong(own, i)] == own[i]
    {
      DedupAt(own, i);
    }
  }

  /** The dreams list is a fixed point after the first succession of a line. */
  lemma DreamsSettle(dreams: seq<string>, defaults: seq<string>, later: seq<string>, base: string)
    ensures HeirDreams(HeirDreams(dreams, defaults, base), later, base) == HeirDreams(dreams, defaults, base)
    ensures Distinct(HeirDreams(dreams, defaults, base)) && 1 <= |HeirDreams(dreams, defaults, base)| <= 6
  {
    var marker := "honor legacy of " + base;
    var own := (if dreams == [] then defaults else dreams) + [marker];
    var d := Dedup(own);
    var e := FirstSix(d);
    DedupDistinct(own);
    assert own[|own| - 1] == marker && marker in own;
    assert Distinct(e);
    DedupAppend(e, marker);
  }

  // ---- Knobs ----

  /** A knob dictionary in insertion order. */
  type Knobs = seq<(string, real)>

  function Clamp(x: real): real { if x < 0.0 then 0.0 else if x > 1.0 then 1.0 else x }

  function Delta(generation: nat, i: nat): real {
    (((generation * 17) % 11 + i) % 5 - 2) as real * 0.03
  }

  function Mutated(knobs: Knobs, generation: nat): (r: Knobs)
    ensures |r| == |knobs|
    ensures forall i :: 0 <= i < |knobs| ==> r[i] == (knobs[i].0, Clamp(knobs[i].1 + Delta(generation, i)))
  {
    seq(|knobs|, i requires 0 <= i < |knobs| => (knobs[i].0, Clamp(knobs[i].1 + Delta(generation, i))))
  }

  /** `mutate_knobs`. */
  method MutateKnobs(knobs: Knobs, generation: nat) returns (out: Knobs)
    ensures out == Mutated(knobs, generation)
    ensures |out| == |knobs|
    ensures forall i :: 0 <= i < |knobs| ==>
      var moved := knobs[i].1 + (((generation * 17) % 11 + i) % 5 - 2) as real * 0.03;
      out[i] == (knobs[i].0, if moved < 0.0 then 0.0 else if moved > 1.0 then 1.0 else moved)
  {
    out := [];
    var salt := (generation * 17) % 11;
    var i := 0;
    while i < |knobs|
      invariant 0 <= i <= |knobs| && |out| == i
      invariant forall k :: 0 <= k < i ==> out[k] == (knobs[k].0, Clamp(knobs[k].1 + Delta(generation, k)))
    {
      var delta := ((salt + i) % 5 - 2) as real * 0.03;
      out := out + [(knobs[i].0, Clamp(knobs[i].1 + delta))];
      i := i + 1;
    }
  }

  function Lookup(knobs: Knobs, key: string): Option<real> {
    if knobs == [] then None
    else if knobs[0].0 == key then Some(knobs[0].1)
    else Lookup(knobs[1..], key)
  }

  function Overridden(knobs: Knobs, over: Knobs): (r: Knobs)
    ensures |r| == |knobs|
  {
    if knobs == [] then []
    else
      var v := Lookup(over, knobs[0].0);
      [(knobs[0].0, if v.Some? then v.value else knobs[0].1)] + Overridden(knobs[1..], over)
  }

  function Missing(knobs: Knobs, over: Knobs): Knobs {
    if over == [] then []
    else (if Lookup(knobs, over[0].0).None? then [over[0]] else []) + Missing(knobs, over[1..])
  }

  /** `{**knobs, **over}`: values of `over` win, keys keep the order of `knobs`, new keys follow. */
  function Merged(knobs: Knobs, over: Knobs): Knobs { Overridden(knobs, over) + Missing(knobs, over) }

  /** The knobs of an heir: the overrides drift, are laid over the persona's knobs if there is a
      persona, and drift once more. */
  function HeirKnobs(overrides: Knobs, persona: Option<Knobs>, generation: nat): Knobs {
    var drifted := Mutated(overrides, generation);
    if persona.Some? then Mutated(Merged(persona.value, drifted), generation) else drifted
  }

  predicate InRange(knobs: Knobs) { forall i :: 0 <= i < |knobs| ==> 0.0 <= knobs[i].1 <= 1.0 }

  function Abs(x: real): real { if x < 0.0 then -x else x }

  /** Both absent, or both present and at most `d` apart, the second within [0, 1]. */
  predicate Near(a: Option<real>, b: Option<real>, d: real) {
    (a.None? && b.None?) || (a.Some? && b.Some? && Abs(b.value - a.value) <= d && 0.0 <= b.value <= 1.0)
  }

  lemma DeltaSmall(generation: nat, i: nat)
    ensures -0.06 <= Delta(generation, i) <= 0.06
  {
    var r := ((generation * 17) % 11 + i) % 5;
    assert 0 <= r <= 4;
  }

  lemma {:induction false} MutatedTailNear(knobs: Knobs, out: Knobs, key: string)
    requires |out| == |knobs|
    requires forall i :: 0 <= i < |knobs| ==> out[i].0 == knobs[i].0 && Near(Some(knobs[i].1), Some(out[i].1), 0.06)
    ensures Near(Lookup(knobs, key), Lookup(out, key), 0.06)
  {
    if knobs != [] && knobs[0].0 != key {
      MutatedTailNear(knobs[1..], out[1..], key);
    }
  }

  lemma MutatedNear(knobs: Knobs, generation: nat, key: string)
    requires InRange(knobs)
    ensures InRange(Mutated(knobs, generation))
    ensures Near(Lookup(knobs, key), Lookup(Mutated(knobs, generation), key), 0.06)
  {
    var out := Mutated(knobs, generation);
    forall i | 0 <= i < |knobs|
      ensures out[i].0 == knobs[i].0 && Near(Some(knobs[i].1), Some(out[i].1), 0.06)
    {
      DeltaSmall(generation, i);
    }
    MutatedTailNear(knobs, out, key);
  }

  lemma {:induction false} LookupConcat(a: Knobs, b: Knobs, key: string)
    ensures Lookup(a + b, key) == if Lookup(a, key).Some? then Lookup(a, key) else Lookup(b, key)
  {
    if a == [] {
      assert a + b == b;
    } else {
      assert (a + b)[1..] == a[1..] + b;
      LookupConcat(a[1..], b, key);
    }
  }

  lemma {:induction false} LookupOverridden(knobs: Knobs, over: Knobs, key: string)
    ensures Lookup(Overridden(knobs, over), key)
         == if Lookup(knobs, key).None? then None
            else if Lookup(over, key).Some? then Lookup(over, key) else Lookup(knobs, key)
  {
    if knobs != [] {
      var o := Overridden(knobs, over);
      assert o[1..] == Overridden(knobs[1..], over);
      LookupOverridden(knobs[1..], over, key);
    }
  }

  lemma {:induction false} OverriddenAt(knobs: Knobs, over: Knobs, i: nat)
    requires i < |knobs|
    ensures Overridden(knobs, over)[i].0 == knobs[i].0
    ensures Overridden(knobs, over)[i].1
         == if Lookup(over, knobs[i].0).Some? then Lookup(over, knobs[i].0).value else knobs[i].1
  {
    if i > 0 {
      OverriddenAt(knobs[1..], over, i - 1);
    }
  }

  lemma {:induction false} LookupFirst(knobs: Knobs, j: nat)
    requires j < |knobs| && forall l :: 0 <= l < j ==> knobs[l].0 != knobs[j].0
    ensures Lookup(knobs, knobs[j].0) == Some(knobs[j].1)
  {
    if j > 0 {
      assert knobs[0].0 != knobs[j].0;
      LookupFirst(knobs[1..], j - 1);
    }
  }

  lemma {:induction false} LookupAbsent(knobs: Knobs, key: string)
    requires forall l :: 0 <= l < |knobs| ==> knobs[l].0 != key
    ensures Lookup(knobs, key).None?
  {
    if knobs != [] {
      LookupAbsent(knobs[1..], key);
    }
  }

  /** Knob j is the first with this name. */
  predicate FirstAt(knobs: Knobs, key: string, j: int) {
    0 <= j < |knobs| && knobs[j].0 == key && forall l :: 0 <= l < j ==> knobs[l].0 != key
  }

  /** Knob i of an heir without a persona, exactly: the override, drifted once. */
  lemma HeirKnobsAlone(overrides: Knobs, generation: nat, i: nat)
    requires i < |overrides|
    ensures var knobs := HeirKnobs(overrides, None, generation);
      |knobs| == |overrides| && knobs[i] == (overrides[i].0, Clamp(overrides[i].1 + Delta(generation, i)))
  {
  }

  /** Knob i of an heir with a persona, exactly: the persona's knob drifted once or, where the member
      overrides it as knob j, the override drifted twice, first as j and then as i. */
  lemma HeirKnobsOver(overrides: Knobs, persona: Knobs, generation: nat, i: nat)
    requires i < |persona|
    ensures var knobs, key := HeirKnobs(overrides, Some(persona), generation), persona[i].0;
      && i < |knobs| && knobs[i].0 == key
      && (forall j :: FirstAt(overrides, key, j) ==>
            knobs[i].1 == Clamp(Clamp(overrides[j].1 + Delta(generation, j)) + Delta(generation, i)))
      && ((forall j :: 0 <= j < |overrides| ==> overrides[j].0 != key) ==>
            knobs[i].1 == Clamp(persona[i].1 + Delta(generation, i)))
  {
    var drifted, key := Mutated(overrides, generation), persona[i].0;
    OverriddenAt(persona, drifted, i);
    if forall j :: 0 <= j < |overrides| ==> overrides[j].0 != key {
      LookupAbsent(drifted, key);
    }
    forall j | FirstAt(overrides, key, j)
      ensures Lookup(drifted, key) == Some(drifted[j].1)
    {
      LookupFirst(drifted, j);
    }
  }

  lemma {:induction false} LookupMissing(knobs: Knobs, over: Knobs, key: string)
    requires Lookup(knobs, key).None?
    ensures Lookup(Missing(knobs, over), key) == Lookup(over, key)
  {
    if over != [] {
      LookupMissing(knobs, over[1..], key);
      var head := if Lookup(knobs, over[0].0).None? then [over[0]] else [];
      LookupConcat(head, Missing(knobs, over[1..]), key);
    }
  }

  lemma LookupMerged(knobs: Knobs, over: Knobs, key: string)
    ensures Lookup(Merged(knobs, over), key)
         == if Lookup(over, key).Some? then Lookup(over, key) else Lookup(knobs, key)
  {
    LookupConcat(Overridden(knobs, over), Missing(knobs, over), key);
    LookupOverridden(knobs, over, key);
    if Lookup(knobs, key).None? {
      LookupMissing(knobs, over, key);
    }
  }

  lemma {:induction false} LookupInRange(knobs: Knobs, key: string)
    requires InRange(knobs)
    ensures Lookup(knobs, key).Some? ==> 0.0 <= Lookup(knobs, key).value <= 1.0
  {
    if knobs != [] && knobs[0].0 != key {
      LookupInRange(knobs[1..], key);
    }
  }

  lemma {:induction false} OverriddenInRange(knobs: Knobs, over: Knobs)
    requires InRange(knobs) && InRange(over)
    ensures InRange(Overridden(knobs, over))
  {
    if knobs != [] {
      LookupInRange(over, knobs[0].0);
      OverriddenInRange(knobs[1..], over);
    }
  }

  lemma {:induction false} MissingInRange(knobs: Knobs, over: Knobs)
    requires InRange(over)
    ensures InRange(Missing(knobs, over))
  {
    if over != [] {
      MissingInRange(knobs, over[1..]);
    }
  }

  // ---- What an heir is made of ----

  /** A member's overrides and the knobs of its persona, if it has one. */
  datatype Character = Character(overrides: Knobs, persona: Option<Knobs>)

  /** A member's knob: its own override, else its persona's. */
  function Effective(c: Character, key: string): Option<real> {
    if Lookup(c.overrides, key).Some? || c.persona.None? then Lookup(c.overrides, key)
    else Lookup(c.persona.value, key)
  }

  predicate CharacterInRange(c: Character) { InRange(c.overrides) && (c.persona.Some? ==> InRange(c.persona.value)) }

  /** The knobs whose names are persona fields. */
  function OnlyFields(knobs: Knobs, fields: seq<string>): Knobs {
    if knobs == [] then []
    else (if knobs[0].0 in fields then [knobs[0]] else []) + OnlyFields(knobs[1..], fields)
  }

  /** Every persona field with its knob, or with 0.5 if there is none. */
  function Filled(knobs: Knobs, fields: seq<string>): Knobs {
    if fields == [] then []
    else
      var v := Lookup(knobs, fields[0]);
      [(fields[0], if v.Some? then v.value else 0.5)] + Filled(knobs, fields[1..])
  }

  /** The heir's overrides are the drifted knobs among the persona fields; its new persona has all of
      the fields. */
  function HeirOf(c: Character, fields: seq<string>, generation: nat): Character {
    var knobs := HeirKnobs(c.overrides, c.persona, generation);
    Character(OnlyFields(knobs, fields), Some(Filled(knobs, fields)))
  }

  lemma {:induction false} LookupOnlyFields(knobs: Knobs, fields: seq<string>, key: string)
    ensures Lookup(OnlyFields(knobs, fields), key) == if key in fields then Lookup(knobs, key) else None
    ensures InRange(knobs) ==> InRange(OnlyFields(knobs, fields))
  {
    if knobs != [] {
      LookupOnlyFields(knobs[1..], fields, key);
      var rest := OnlyFields(knobs[1..], fields);
      assert ([knobs[0]] + rest)[1..] == rest;
      assert OnlyFields(knobs, fields) == if knobs[0].0 in fields then [knobs[0]] + rest else rest;
    }
  }

  lemma {:induction false} LookupFilled(knobs: Knobs, fields: seq<string>, key: string)
    ensures Lookup(Filled(knobs, fields), key)
         == if key !in fields then None else if Lookup(knobs, key).Some? then Lookup(knobs, key) else Some(0.5)
    ensures InRange(knobs) ==> InRange(Filled(knobs, fields))
  {
    if fields != [] {
      LookupFilled(knobs, fields[1..], key);
      assert Filled(knobs, fields)[1..] == Filled(knobs, fields[1..]);
      if InRange(knobs) {
        LookupInRange(knobs, fields[0]);
      }
    }
  }

  lemma KnobsDrift(c: Character, generation: nat, key: string)
    requires CharacterInRange(c)
    ensures InRange(HeirKnobs(c.overrides, c.persona, generation))
    ensures Near(Effective(c, key), Lookup(HeirKnobs(c.overrides, c.persona, generation), key), 0.12)
  {
    var drifted := Mutated(c.overrides, generation);
    MutatedNear(c.overrides, generation, key);
    if c.persona.Some? {
      var persona := c.persona.value;
      OverriddenInRange(persona, drifted);
      MissingInRange(persona, drifted);
      LookupMerged(persona, drifted, key);
      MutatedNear(Merged(persona, drifted), generation, key);
    }
  }

  /** Personality drift is bounded: an heir's knobs lie within [0, 1]; of the persona fields it has those
      of its predecessor, each at most 0.12 away, and 0.5 for a field its predecessor lacks; and it has
      no other knobs. */
  lemma DriftBounded(c: Character, fields: seq<string>, generation: nat, key: string)
    requires CharacterInRange(c)
    ensures var h := HeirOf(c, fields, generation);
      && CharacterInRange(h)
      && (if key !in fields then Effective(h, key).None?
          else if Effective(c, key).None? then Effective(h, key) == Some(0.5)
          else Near(Effective(c, key), Effective(h, key), 0.12))
  {
    var knobs := HeirKnobs(c.overrides, c.persona, generation);
    KnobsDrift(c, generation, key);
    LookupOnlyFields(knobs, fields, key);
    LookupFilled(knobs, fields, key);
  }

  /** The end of a line after successions into the given generations. */
  function LineOf(c: Character, fields: seq<string>, generations: seq<nat>): Character {
    if generations == [] then c
    else HeirOf(LineOf(c, fields, generations[..|generations| - 1]), fields, generations[|generations| - 1])
  }

  /** Along a line of any length knobs stay within [0, 1], no persona field is ever lost, and each field
      moves by at most 0.12 per succession. */
  lemma {:induction false} LineDriftBounded(c: Character, fields: seq<string>, generations: seq<nat>, key: string)
    requires CharacterInRange(c) && key in fields && Effective(c, key).Some?
    ensures var h := LineOf(c, fields, generations);
      && CharacterInRange(h) && Effective(h, key).Some?
      && Abs(Effective(h, key).value - Effective(c, key).value) <= 0.12 * |generations| as real
  {
    if generations != [] {
      var n := |generations| - 1;
      LineDriftBounded(c, fields, generations[..n], key);
      DriftBounded(LineOf(c, fields, generations[..n]), fields, generations[n], key);
    }
  }
}
