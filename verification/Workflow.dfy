/**
 Execution of a workflow chain: steps that share a parallel group and stand next to each other run
 at once, each seeing only what was completed before the group. The language model, the tool runner
 and the system prompts are functions.
 */
module Workflow {
  import opened Prelude

  datatype Step = Step(role: string, task: string, dependsOn: seq<string>, group: Option<string>)

  datatype Record = Record(role: string, task: string, output: string, toolCalls: seq<string>)

  datatype Env = Env(
    llm: (string, string) -> string,
    systemPrompt: string -> string,
    tools: Option<(string, string) -> seq<string>>)

  type Completed = map<string, string>

  // ---- One step ----

  /** One line for each dependency that is completed, in the order of the list. */
  function ContextBits(deps: seq<string>, done: Completed): seq<string> {
    if deps == [] then []
    else
      (if deps[0] in done then ["[" + deps[0] + "]: " + done[deps[0]]] else [])
      + ContextBits(deps[1..], done)
  }

  function Join(bits: seq<string>): string {
    if bits == [] then "" else if |bits| == 1 then bits[0] else bits[0] + "\n" + Join(bits[1..])
  }

  function Prompt(s: Step, done: Completed): string {
    var context := Join(ContextBits(s.dependsOn, done));
    if context == "" then s.task else s.task + "\n\nPrior context:\n" + context
  }

  function Output(env: Env, s: Step, done: Completed): string {
    env.llm(env.systemPrompt(s.role), Prompt(s, done))
  }

  function Recorded(env: Env, role: string, task: string, output: string): Record {
    Record(role, task, output, if env.tools.Some? then env.tools.value(role, output) else [])
  }

  // ---- Reference: one step after the other ----

  function RunInTurn(env: Env, steps: seq<Step>, done: Completed): seq<Record> {
    if steps == [] then []
    else
      var s := steps[0];
      var output := Output(env, s, done);
      [Recorded(env, s.role, s.task, output)] + RunInTurn(env, steps[1..], done[s.role := output])
  }

  // ---- The executor: groups at once ----

  /** An empty group name is no group. */
  predicate Grouped(s: Step) { s.group.Some? && s.group.value != "" }

  /** How many steps from the front belong to the given group. */
  function Leading(steps: seq<Step>, group: Option<string>): (n: nat)
    ensures n <= |steps|
  {
    if steps == [] || steps[0].group != group then 0 else 1 + Leading(steps[1..], group)
  }

  /** The stretch of steps that is executed together. */
  function BlockSize(steps: seq<Step>): (n: nat)
    requires steps != []
    ensures 1 <= n <= |steps|
  {
    if Grouped(steps[0]) then 1 + Leading(steps[1..], steps[0].group) else 1
  }

  /** The task of the first step of the block with the given role; the executor asks for roles that the
      block has. */
  function TaskFor(block: seq<Step>, role: string): string {
    if block == [] then "" else if block[0].role == role then block[0].task else TaskFor(block[1..], role)
  }

  function RecordAt(env: Env, block: seq<Step>, done: Completed, k: nat): Record
    requires k < |block|
  {
    Recorded(env, block[k].role, TaskFor(block, block[k].role), Output(env, block[k], done))
  }

  /** The records of block[k..]. */
  function BlockRecords(env: Env, block: seq<Step>, done: Completed, k: nat): seq<Record>
    requires k <= |block|
    decreases |block| - k
  {
    if k == |block| then [] else [RecordAt(env, block, done, k)] + BlockRecords(env, block, done, k + 1)
  }

  /** The outputs of block[k..], all computed from `base`, entered one after the other. */
  function EnterBlock(env: Env, block: seq<Step>, base: Completed, done: Completed, k: nat): Completed
    requires k <= |block|
    decreases |block| - k
  {
    if k == |block| then done
    else EnterBlock(env, block, base, done[block[k].role := Output(env, block[k], base)], k + 1)
  }

  function RunGrouped(env: Env, steps: seq<Step>, done: Completed): seq<Record>
    decreases |steps|
  {
    if steps == [] then []
    else
      var n := BlockSize(steps);
      BlockRecords(env, steps[..n], done, 0)
      + RunGrouped(env, steps[n..], EnterBlock(env, steps[..n], done, done, 0))
  }

  // ---- Grouping preserves meaning ----

  /** Steps of one block with the same role have the same task, and no step depends on the role of
      an earlier step of its block. */
  predicate BlockOk(block: seq<Step>) {
    forall k, l :: 0 <= k < l < |block| ==>
      && (block[k].role == block[l].role ==> block[k].task == block[l].task)
      && block[k].role !in block[l].dependsOn
  }

  predicate GroupsOk(steps: seq<Step>)
    decreases |steps|
  {
    steps == [] || (BlockOk(steps[..BlockSize(steps)]) && GroupsOk(steps[BlockSize(steps)..]))
  }

  lemma {:induction false} BitsAgree(deps: seq<string>, a: Completed, b: Completed)
    requires forall x :: x in deps ==> (x in a <==> x in b) && (x in a ==> a[x] == b[x])
    ensures ContextBits(deps, a) == ContextBits(deps, b)
  {
    if deps != [] {
      BitsAgree(deps[1..], a, b);
    }
  }

  lemma {:induction false} TaskForSame(block: seq<Step>, k: nat)
    requires k < |block|
    requires forall j :: 0 <= j < k && block[j].role == block[k].role ==> block[j].task == block[k].task
    ensures TaskFor(block, block[k].role) == block[k].task
  {
    if block[0].role != block[k].role {
      TaskForSame(block[1..], k - 1);
    }
  }

  /** `done` differs from `base` at most at the roles of block[..k]. */
  ghost predicate OffBlock(block: seq<Step>, k: nat, base: Completed, done: Completed)
    requires k <= |block|
  {
    forall x {:trigger x in done} :: (forall j :: 0 <= j < k ==> block[j].role != x) ==>
      (x in done <==> x in base) && (x in done ==> done[x] == base[x])
  }

  lemma SameOutput(env: Env, block: seq<Step>, k: nat, base: Completed, done: Completed)
    requires k < |block| && BlockOk(block) && OffBlock(block, k, base, done)
    ensures Output(env, block[k], done) == Output(env, block[k], base)
  {
    forall x | x in block[k].dependsOn
      ensures (x in done <==> x in base) && (x in done ==> done[x] == base[x])
    {
      assert forall j :: 0 <= j < k ==> block[j].role != x;
      assert x in done || x !in done;
    }
    BitsAgree(block[k].dependsOn, done, base);
  }

  lemma TurnStep(env: Env, s: Step, rest: seq<Step>, done: Completed)
    ensures RunInTurn(env, [s] + rest, done)
         == [Recorded(env, s.role, s.task, Output(env, s, done))]
            + RunInTurn(env, rest, done[s.role := Output(env, s, done)])
  {
    assert ([s] + rest)[1..] == rest;
  }

  lemma OffBlockStep(block: seq<Step>, k: nat, base: Completed, done: Completed, output: string)
    requires k < |block| && OffBlock(block, k, base, done)
    ensures OffBlock(block, k + 1, base, done[block[k].role := output])
  {
  }

  /** Inside a block, running in turn computes what the block computes at once. */
  lemma {:induction false} BlockInTurn(env: Env, block: seq<Step>, rest: seq<Step>, base: Completed, done: Completed, k: nat)
    requires k <= |block| && BlockOk(block) && OffBlock(block, k, base, done)
    ensures RunInTurn(env, block[k..] + rest, done)
         == BlockRecords(env, block, base, k) + RunInTurn(env, rest, EnterBlock(env, block, base, done, k))
    decreases |block| - k
  {
    if k == |block| {
      assert block[k..] + rest == rest;
    } else {
      var s := block[k];
      var output := Output(env, s, base);
      var next := done[s.role := output];
      SameOutput(env, block, k, base, done);
      OffBlockStep(block, k, base, done, output);
      BlockInTurn(env, block, rest, base, next, k + 1);
      TurnStep(env, s, block[k + 1..] + rest, done);
      assert block[k..] + rest == [s] + (block[k + 1..] + rest);
      TaskForSame(block, k);
      ConcatAssoc([RecordAt(env, block, base, k)], BlockRecords(env, block, base, k + 1),
                  RunInTurn(env, rest, EnterBlock(env, block, base, next, k + 1)));
    }
  }

  /** Parallel grouping preserves meaning: for every chain whose blocks are independent, every
      language model, tool runner and start, the executor records exactly what running the steps
      one by one records. */
  lemma {:induction false} GroupingPreservesMeaning(env: Env, steps: seq<Step>, done: Completed)
    requires GroupsOk(steps)
    ensures RunGrouped(env, steps, done) == RunInTurn(env, steps, done)
    decreases |steps|
  {
    if steps != [] {
      var n := BlockSize(steps);
      var block, rest := steps[..n], steps[n..];
      assert block[0..] == block && block + rest == steps;
      BlockInTurn(env, block, rest, done, done, 0);
      GroupingPreservesMeaning(env, rest, EnterBlock(env, block, done, done, 0));
    }
  }

  // ---- Every step once, in order ----

  predicate TasksOk(steps: seq<Step>)
    decreases |steps|
  {
    steps == [] || (OneTaskPerRole(steps[..BlockSize(steps)]) && TasksOk(steps[BlockSize(steps)..]))
  }

  predicate OneTaskPerRole(block: seq<Step>) {
    forall k, l :: 0 <= k < l < |block| && block[k].role == block[l].role ==> block[k].task == block[l].task
  }

  lemma {:induction false} TaskForIsFirst(block: seq<Step>, k: nat) returns (j: nat)
    requires k < |block|
    ensures j <= k && block[j].role == block[k].role && TaskFor(block, block[k].role) == block[j].task
  {
    if block[0].role == block[k].role {
      j := 0;
    } else {
      var i := TaskForIsFirst(block[1..], k - 1);
      j := i + 1;
    }
  }

  /** The tasks that the executor writes into its records. */
  function RecordedTasks(steps: seq<Step>): (r: seq<string>)
    ensures |r| == |steps|
    decreases |steps|
  {
    if steps == [] then []
    else
      var n := BlockSize(steps);
      BlockTasks(steps[..n], 0) + RecordedTasks(steps[n..])
  }

  function BlockTasks(block: seq<Step>, k: nat): (r: seq<string>)
    requires k <= |block|
    ensures |r| == |block| - k
    decreases |block| - k
  {
    if k == |block| then [] else [TaskFor(block, block[k].role)] + BlockTasks(block, k + 1)
  }

  predicate Labelled(records: seq<Record>, steps: seq<Step>, tasks: seq<string>) {
    && |records| == |steps| == |tasks|
    && forall k :: 0 <= k < |steps| ==> records[k].role == steps[k].role && records[k].task == tasks[k]
  }

  lemma LabelledConcat(a: seq<Record>, b: seq<Record>, s: seq<Step>, t: seq<Step>, u: seq<string>, v: seq<string>)
    requires Labelled(a, s, u) && Labelled(b, t, v)
    ensures Labelled(a + b, s + t, u + v)
  {
  }

  lemma {:induction false} BlockLabelled(env: Env, block: seq<Step>, done: Completed, k: nat)
    requires k <= |block|
    ensures Labelled(BlockRecords(env, block, done, k), block[k..], BlockTasks(block, k))
    decreases |block| - k
  {
    if k < |block| {
      BlockLabelled(env, block, done, k + 1);
      LabelledConcat([RecordAt(env, block, done, k)], BlockRecords(env, block, done, k + 1),
                     [block[k]], block[k + 1..], [TaskFor(block, block[k].role)], BlockTasks(block, k + 1));
      assert block[k..] == [block[k]] + block[k + 1..];
    }
  }

  /** Whatever the chain, each step is recorded once, in chain order, under its own role and the
      task the executor finds for it. */
  lemma {:induction false} StepsOnceInOrder(env: Env, steps: seq<Step>, done: Completed)
    ensures Labelled(RunGrouped(env, steps, done), steps, RecordedTasks(steps))
    decreases |steps|
  {
    if steps != [] {
      var n := BlockSize(steps);
      var block, rest := steps[..n], steps[n..];
      var next := EnterBlock(env, block, done, done, 0);
      StepsOnceInOrder(env, rest, next);
      BlockLabelled(env, block, done, 0);
      assert block[0..] == block && block + rest == steps;
      LabelledConcat(BlockRecords(env, block, done, 0), RunGrouped(env, rest, next), block, rest,
                     BlockTasks(block, 0), RecordedTasks(rest));
    }
  }

  predicate OwnTasks(tasks: seq<string>, steps: seq<Step>)
    requires |tasks| == |steps|
  {
    forall k :: 0 <= k < |steps| ==> tasks[k] == steps[k].task
  }

  lemma OwnTasksConcat(a: seq<string>, b: seq<string>, s: seq<Step>, t: seq<Step>)
    requires |a| == |s| && |b| == |t|
    ensures OwnTasks(a + b, s + t) <==> OwnTasks(a, s) && OwnTasks(b, t)
  {
    if OwnTasks(a + b, s + t) {
      assert forall k :: 0 <= k < |s| ==> (a + b)[k] == a[k] && (s + t)[k] == s[k];
      assert forall k :: 0 <= k < |t| ==> (a + b)[|a| + k] == b[k] && (s + t)[|s| + k] == t[k];
    }
  }

  /** That task is the step's own, for every step, if and only if no block gives one role two tasks. */
  lemma {:induction false} OwnTasksIff(steps: seq<Step>)
    ensures OwnTasks(RecordedTasks(steps), steps) <==> TasksOk(steps)
    decreases |steps|
  {
    if steps != [] {
      var n := BlockSize(steps);
      var block, rest := steps[..n], steps[n..];
      OwnTasksIff(rest);
      BlockTasksIff(block);
      OwnTasksConcat(BlockTasks(block, 0), RecordedTasks(rest), block, rest);
      assert block + rest == steps;
    }
  }

  lemma {:induction false} BlockTaskAt(block: seq<Step>, k: nat, l: nat)
    requires k <= l < |block|
    ensures BlockTasks(block, k)[l - k] == TaskFor(block, block[l].role)
    decreases l - k
  {
    if k < l {
      BlockTaskAt(block, k + 1, l);
    }
  }

  lemma BlockTasksIff(block: seq<Step>)
    ensures OwnTasks(BlockTasks(block, 0), block) <==> OneTaskPerRole(block)
  {
    forall k | 0 <= k < |block|
      ensures BlockTasks(block, 0)[k] == TaskFor(block, block[k].role)
    {
      BlockTaskAt(block, 0, k);
    }
    if OwnTasks(BlockTasks(block, 0), block) {
      forall k, l | 0 <= k < l < |block| && block[k].role == block[l].role
        ensures block[k].task == block[l].task
      {
        assert BlockTasks(block, 0)[k] == block[k].task && BlockTasks(block, 0)[l] == block[l].task;
      }
    } else {
      var k :| 0 <= k < |block| && BlockTasks(block, 0)[k] != block[k].task;
      var j := TaskForIsFirst(block, k);
    }
  }

  /** Two tasks for one role: the record of the second step carries the task of the first. */
  lemma SecondTaskIsLost(env: Env, done: Completed)
    ensures var steps := [Step("a", "x", [], Some("g")), Step("a", "y", [], Some("g"))];
      && |RunGrouped(env, steps, done)| == 2
      && RunGrouped(env, steps, done)[1].task == "x" != steps[1].task
  {
    var a, b := Step("a", "x", [], Some("g")), Step("a", "y", [], Some("g"));
    var steps := [a, b];
    assert Leading([b], Some("g")) == 1;
    assert steps[1..] == [b] && BlockSize(steps) == 2 && steps[..2] == steps;
    StepsOnceInOrder(env, steps, done);
    BlockTaskAt(steps, 0, 1);
    assert steps[2..] == [] && RecordedTasks(steps) == BlockTasks(steps, 0) + [];
  }

  // ---- What a record holds ----

  /** How many of the first k dependencies are completed. */
  function DoneAmong(deps: seq<string>, done: Completed, k: nat): nat
    requires k <= |deps|
  {
    if k == 0 then 0 else DoneAmong(deps, done, k - 1) + (if deps[k - 1] in done then 1 else 0)
  }

  lemma {:induction false} DoneAmongTail(deps: seq<string>, done: Completed, k: nat)
    requires 0 < k <= |deps|
    ensures DoneAmong(deps, done, k) == (if deps[0] in done then 1 else 0) + DoneAmong(deps[1..], done, k - 1)
  {
    if k > 1 {
      DoneAmongTail(deps, done, k - 1);
    }
  }

  /** The context has one line for every completed dependency, in the order of the list. */
  lemma {:induction false} ContextLines(deps: seq<string>, done: Completed)
    ensures |ContextBits(deps, done)| == DoneAmong(deps, done, |deps|)
    ensures forall k :: 0 <= k < |deps| && deps[k] in done ==>
      && DoneAmong(deps, done, k) < |ContextBits(deps, done)|
      && ContextBits(deps, done)[DoneAmong(deps, done, k)] == "[" + deps[k] + "]: " + done[deps[k]]
  {
    if deps != [] {
      var bits, rest := ContextBits(deps, done), ContextBits(deps[1..], done);
      ContextLines(deps[1..], done);
      DoneAmongTail(deps, done, |deps|);
      forall k | 0 <= k < |deps| && deps[k] in done
        ensures DoneAmong(deps, done, k) < |bits|
        ensures bits[DoneAmong(deps, done, k)] == "[" + deps[k] + "]: " + done[deps[k]]
      {
        if k > 0 {
          DoneAmongTail(deps, done, k);
          assert deps[1..][k - 1] == deps[k];
        }
      }
    }
  }

  /** Lines are joined by line breaks. */
  lemma {:induction false} JoinLines(a: seq<string>, b: seq<string>)
    requires a != [] && b != []
    ensures Join(a + b) == Join(a) + "\n" + Join(b)
    ensures |a| == 1 ==> Join(a) == a[0]
  {
    assert (a + b)[1..] == a[1..] + b;
    if |a| > 1 {
      JoinLines(a[1..], b);
    } else {
      assert a[1..] + b == b;
    }
  }

  /** What the language model is asked: the task, and below it the context if there is any. */
  lemma PromptIs(s: Step, done: Completed)
    ensures (forall x :: x in s.dependsOn ==> x !in done) ==> Prompt(s, done) == s.task
    ensures (exists x :: x in s.dependsOn && x in done) ==>
      Prompt(s, done) == s.task + "\n\nPrior context:\n" + Join(ContextBits(s.dependsOn, done))
  {
    if x :| x in s.dependsOn && x in done {
      SomeBits(s.dependsOn, done, x);
    } else {
      BitsAgree(s.dependsOn, done, map[]);
      NoBits(s.dependsOn);
    }
  }

  /** A group is the longest stretch of steps with the first one's group; a step without one stands alone. */
  lemma BlockSizeIs(steps: seq<Step>)
    requires steps != []
    ensures var n := BlockSize(steps);
      && (forall i :: 0 <= i < n ==> steps[i].group == steps[0].group)
      && (n > 1 ==> steps[0].group.Some? && steps[0].group.value != "")
      && (n < |steps| && steps[0].group.Some? && steps[0].group.value != "" ==> steps[n].group != steps[0].group)
  {
    LeadingIs(steps[1..], steps[0].group);
  }

  lemma {:induction false} LeadingIs(steps: seq<Step>, group: Option<string>)
    ensures forall i :: 0 <= i < Leading(steps, group) ==> steps[i].group == group
    ensures Leading(steps, group) < |steps| ==> steps[Leading(steps, group)].group != group
  {
    if steps != [] && steps[0].group == group {
      LeadingIs(steps[1..], group);
    }
  }

  /** What is completed when the group of step k starts. */
  function Seen(env: Env, steps: seq<Step>, done: Completed, k: nat): Completed
    requires k < |steps|
    decreases |steps|
  {
    var n := BlockSize(steps);
    if k < n then done else Seen(env, steps[n..], EnterBlock(env, steps[..n], done, done, 0), k - n)
  }

  lemma RunSize(env: Env, steps: seq<Step>, done: Completed)
    ensures |RunGrouped(env, steps, done)| == |steps|
  {
    StepsOnceInOrder(env, steps, done);
  }

  lemma {:induction false} BlockRecordsSize(env: Env, block: seq<Step>, done: Completed, k: nat)
    requires k <= |block|
    ensures |BlockRecords(env, block, done, k)| == |block| - k
    decreases |block| - k
  {
    if k < |block| {
      BlockRecordsSize(env, block, done, k + 1);
    }
  }

  lemma AtFirst<T>(a: seq<T>, b: seq<T>, k: nat)
    requires k < |a|
    ensures (a + b)[k] == a[k]
  {
  }

  lemma AtSecond<T>(a: seq<T>, b: seq<T>, k: nat)
    requires |a| <= k < |a| + |b|
    ensures (a + b)[k] == b[k - |a|]
  {
  }

  /** A record of the first group. */
  lemma RunFirst(env: Env, steps: seq<Step>, done: Completed, block: seq<Step>, k: nat)
    requires steps != [] && k < BlockSize(steps) && block == steps[..BlockSize(steps)]
    ensures k < |RunGrouped(env, steps, done)| && RunGrouped(env, steps, done)[k] == RecordAt(env, block, done, k)
  {
    BlockRecordAt(env, block, done, 0, k);
    AtFirst(BlockRecords(env, block, done, 0),
            RunGrouped(env, steps[BlockSize(steps)..], EnterBlock(env, block, done, done, 0)), k);
  }

  /** A record of a later group. */
  lemma RunLater(env: Env, steps: seq<Step>, done: Completed, rest: seq<Step>, next: Completed, k: nat)
    requires steps != [] && BlockSize(steps) <= k < |steps|
    requires var n := BlockSize(steps); rest == steps[n..] && next == EnterBlock(env, steps[..n], done, done, 0)
    ensures |RunGrouped(env, steps, done)| == |steps| && |RunGrouped(env, rest, next)| == |rest|
    ensures RunGrouped(env, steps, done)[k] == RunGrouped(env, rest, next)[k - BlockSize(steps)]
  {
    var n := BlockSize(steps);
    RunSize(env, rest, next);
    BlockRecordsSize(env, steps[..n], done, 0);
    AtSecond(BlockRecords(env, steps[..n], done, 0), RunGrouped(env, rest, next), k);
  }

  /** The record of a step that saw `done`. */
  predicate Answers(env: Env, s: Step, done: Completed, rec: Record) {
    && rec.role == s.role
    && rec.output == env.llm(env.systemPrompt(s.role), Prompt(s, done))
    && rec.toolCalls == (if env.tools.None? then [] else env.tools.value(s.role, rec.output))
  }

  /** Record k holds the role of step k, what the model answered to that role's system prompt and the
      step's prompt, and what the tool runner made of the answer. */
  lemma {:induction false} RecordIs(env: Env, steps: seq<Step>, done: Completed, k: nat)
    requires k < |steps|
    ensures k < |RunGrouped(env, steps, done)|
    ensures Answers(env, steps[k], Seen(env, steps, done, k), RunGrouped(env, steps, done)[k])
    decreases |steps|
  {
    if k < BlockSize(steps) {
      RecordFirst(env, steps, done, k);
    } else {
      var rest, next := RestOf(env, steps, done);
      RecordIs(env, rest, next, k - BlockSize(steps));
      RecordLater(env, steps, done, rest, next, k);
    }
  }

  /** The chain after its first group, and what is completed then. */
  lemma RestOf(env: Env, steps: seq<Step>, done: Completed) returns (rest: seq<Step>, next: Completed)
    requires steps != []
    ensures rest == steps[BlockSize(steps)..] && |rest| == |steps| - BlockSize(steps) < |steps|
    ensures next == EnterBlock(env, steps[..BlockSize(steps)], done, done, 0)
  {
    rest := steps[BlockSize(steps)..];
    next := EnterBlock(env, steps[..BlockSize(steps)], done, done, 0);
  }

  lemma RecordFirst(env: Env, steps: seq<Step>, done: Completed, k: nat)
    requires k < |steps| && k < BlockSize(steps)
    ensures k < |RunGrouped(env, steps, done)|
    ensures Answers(env, steps[k], Seen(env, steps, done, k), RunGrouped(env, steps, done)[k])
  {
    RunFirst(env, steps, done, steps[..BlockSize(steps)], k);
  }

  lemma RecordLater(env: Env, steps: seq<Step>, done: Completed, rest: seq<Step>, next: Completed, k: nat)
    requires steps != [] && BlockSize(steps) <= k < |steps|
    requires var n := BlockSize(steps); rest == steps[n..] && next == EnterBlock(env, steps[..n], done, done, 0)
    requires var m := k - BlockSize(steps);
      m < |RunGrouped(env, rest, next)| && Answers(env, rest[m], Seen(env, rest, next, m), RunGrouped(env, rest, next)[m])
    ensures k < |RunGrouped(env, steps, done)|
    ensures Answers(env, steps[k], Seen(env, steps, done, k), RunGrouped(env, steps, done)[k])
  {
    RunLater(env, steps, done, rest, next, k);
    assert Seen(env, steps, done, k) == Seen(env, rest, next, k - BlockSize(steps));
    assert rest[k - BlockSize(steps)] == steps[k];
  }

  /** The last step before `end` with role x, or -1. */
  function LastWith(steps: seq<Step>, end: nat, x: string): (j: int)
    requires end <= |steps|
    ensures -1 <= j < end && (j >= 0 ==> steps[j].role == x)
  {
    if end == 0 then -1 else if steps[end - 1].role == x then end - 1 else LastWith(steps, end - 1, x)
  }

  lemma {:induction false} LastWithIsLast(steps: seq<Step>, end: nat, x: string)
    requires end <= |steps|
    ensures forall i :: LastWith(steps, end, x) < i < end ==> steps[i].role != x
  {
    if end > 0 && steps[end - 1].role != x {
      LastWithIsLast(steps, end - 1, x);
    }
  }

  /** Entering a group: of each role the output of its last step, and nothing else changes. */
  lemma {:induction false} EnterIs(env: Env, block: seq<Step>, base: Completed, done: Completed, k: nat, x: string, j: int)
    requires k <= |block| && j == LastWith(block, |block|, x)
    ensures j >= k ==> x in EnterBlock(env, block, base, done, k)
    ensures j >= k ==> EnterBlock(env, block, base, done, k)[x] == Output(env, block[j], base)
    ensures j < k ==> (x in EnterBlock(env, block, base, done, k) <==> x in done)
    ensures j < k && x in done ==> EnterBlock(env, block, base, done, k)[x] == done[x]
    decreases |block| - k
  {
    if k < |block| {
      if k > j && block[k].role == x {
        LastWithIsLast(block, |block|, x);
      }
      EnterIs(env, block, base, done[block[k].role := Output(env, block[k], base)], k + 1, x, j);
    }
  }

  /** What x stands for in `seen`: the output of step j, or of no step, as at the start. */
  predicate Shows(seen: Completed, x: string, j: int, records: seq<Record>, done: Completed)
    requires j < |records|
  {
    if j >= 0 then x in seen && seen[x] == records[j].output
    else (x in seen <==> x in done) && (x in done ==> seen[x] == done[x])
  }

  /** After a group, each of its roles stands for the output of the last step with that role, and every
      other role for what it stood for before. */
  lemma ShowsAfterBlock(env: Env, block: seq<Step>, done: Completed, x: string)
    ensures |BlockRecords(env, block, done, 0)| == |block|
    ensures Shows(EnterBlock(env, block, done, done, 0), x, LastWith(block, |block|, x), BlockRecords(env, block, done, 0), done)
  {
    var j := LastWith(block, |block|, x);
    BlockRecordsSize(env, block, done, 0);
    EnterIs(env, block, done, done, 0, x, j);
    if j >= 0 {
      BlockRecordAt(env, block, done, 0, j);
    }
  }

  // ---- The condition on one group is exact ----

  /** A language model that repeats its prompt, without tools. */
  const Echo: Env := Env((s: string, p: string) => p, (r: string) => r, None)

  /** What is completed after the first l steps, one after the other. */
  function TurnDone(env: Env, steps: seq<Step>, done: Completed, l: nat): Completed
    requires l <= |steps|
    decreases l
  {
    if l == 0 then done
    else TurnDone(env, steps[1..], done[steps[0].role := Output(env, steps[0], done)], l - 1)
  }

  lemma {:induction false} TurnAt(env: Env, steps: seq<Step>, done: Completed, l: nat)
    requires l < |steps|
    ensures |RunInTurn(env, steps, done)| == |steps|
    ensures RunInTurn(env, steps, done)[l].task == steps[l].task
    ensures RunInTurn(env, steps, done)[l].output == Output(env, steps[l], TurnDone(env, steps, done, l))
    decreases |steps|
  {
    var next := done[steps[0].role := Output(env, steps[0], done)];
    if |steps| > 1 {
      TurnAt(env, steps[1..], next, if l > 0 then l - 1 else 0);
    } else {
      assert RunInTurn(env, steps[1..], next) == [];
    }
  }

  lemma {:induction false} TurnKeeps(env: Env, steps: seq<Step>, done: Completed, l: nat, x: string)
    requires l <= |steps| && x in done
    ensures x in TurnDone(env, steps, done, l)
    decreases l
  {
    if l > 0 {
      TurnKeeps(env, steps[1..], done[steps[0].role := Output(env, steps[0], done)], l - 1, x);
    }
  }

  lemma {:induction false} TurnHas(env: Env, steps: seq<Step>, done: Completed, k: nat, l: nat)
    requires k < l <= |steps|
    ensures steps[k].role in TurnDone(env, steps, done, l)
    decreases l
  {
    var next := done[steps[0].role := Output(env, steps[0], done)];
    if k == 0 {
      TurnKeeps(env, steps[1..], next, l - 1, steps[0].role);
    } else {
      TurnHas(env, steps[1..], next, k - 1, l - 1);
    }
  }

  lemma {:induction false} NoBits(deps: seq<string>)
    ensures ContextBits(deps, map[]) == []
  {
    if deps != [] {
      NoBits(deps[1..]);
    }
  }

  /** A completed dependency leaves a trace in the prompt. */
  lemma {:induction false} SomeBits(deps: seq<string>, done: Completed, x: string)
    requires x in deps && x in done
    ensures Join(ContextBits(deps, done)) != ""
  {
    if deps[0] in done {
      assert ContextBits(deps, done)[0] == "[" + deps[0] + "]: " + done[deps[0]];
    } else {
      SomeBits(deps[1..], done, x);
      assert ContextBits(deps, done) == ContextBits(deps[1..], done);
    }
  }

  lemma {:induction false} BlockRecordAt(env: Env, block: seq<Step>, done: Completed, k: nat, l: nat)
    requires k <= l < |block|
    ensures |BlockRecords(env, block, done, k)| == |block| - k
    ensures BlockRecords(env, block, done, k)[l - k] == RecordAt(env, block, done, l)
    decreases |block| - k
  {
    if k + 1 < |block| {
      BlockRecordAt(env, block, done, k + 1, if k < l then l else l + 1);
    } else {
      assert BlockRecords(env, block, done, k + 1) == [];
    }
  }

  lemma DependencyShows(block: seq<Step>, k: nat, l: nat)
    requires k < l < |block| && block[k].role in block[l].dependsOn
    ensures |BlockRecords(Echo, block, map[], 0)| == |block| == |RunInTurn(Echo, block, map[])|
    ensures |BlockRecords(Echo, block, map[], 0)[l].output| < |RunInTurn(Echo, block, map[])[l].output|
  {
    var done := TurnDone(Echo, block, map[], l);
    BlockRecordAt(Echo, block, map[], 0, l);
    TurnAt(Echo, block, map[], l);
    TurnHas(Echo, block, map[], k, l);
    NoBits(block[l].dependsOn);
    SomeBits(block[l].dependsOn, done, block[k].role);
  }

  lemma TaskShows(env: Env, block: seq<Step>, done: Completed, k: nat, l: nat)
    requires k < l < |block| && block[k].role == block[l].role
    requires BlockRecords(env, block, done, 0) == RunInTurn(env, block, done)
    ensures block[k].task == block[l].task
  {
    BlockRecordAt(env, block, done, 0, k);
    BlockRecordAt(env, block, done, 0, l);
    TurnAt(env, block, done, k);
    TurnAt(env, block, done, l);
  }

  /** A model that repeats its prompt tells a dependent group apart from its steps in turn. */
  lemma EchoTells(block: seq<Step>)
    requires BlockRecords(Echo, block, map[], 0) == RunInTurn(Echo, block, map[])
    ensures BlockOk(block)
  {
    forall k, l | 0 <= k < l < |block|
      ensures block[k].role == block[l].role ==> block[k].task == block[l].task
      ensures block[k].role !in block[l].dependsOn
    {
      if block[k].role in block[l].dependsOn {
        DependencyShows(block, k, l);
      }
      if block[k].role == block[l].role {
        TaskShows(Echo, block, map[], k, l);
      }
    }
  }

  /** For one group the condition is exact: its records are those of its steps one after the other, for
      every language model, tool runner and start, if and only if the group is independent. */
  lemma GroupPreservesMeaningIff(block: seq<Step>)
    ensures BlockOk(block) <==>
      forall env, done :: BlockRecords(env, block, done, 0) == RunInTurn(env, block, done)
  {
    if BlockOk(block) {
      forall env, done
        ensures BlockRecords(env, block, done, 0) == RunInTurn(env, block, done)
      {
        BlockInTurn(env, block, [], done, done, 0);
        assert block[0..] + [] == block;
      }
    } else {
      var env: Env, start: Completed := Echo, map[];
      if BlockRecords(env, block, start, 0) == RunInTurn(env, block, start) {
        EchoTells(block);
      }
      assert BlockRecords(env, block, start, 0) != RunInTurn(env, block, start);
    }
  }

  /** A dependency inside a group is lost: the dependent step does not see the output. */
  lemma InnerDependencyIsLost()
    ensures var env := Env((s: string, p: string) => p, (r: string) => r, None);
      var steps := [Step("a", "x", [], Some("g")), Step("b", "y", ["a"], Some("g"))];
      && |RunGrouped(env, steps, map[])| == 2 == |RunInTurn(env, steps, map[])|
      && RunGrouped(env, steps, map[])[1].output == "y"
      && RunInTurn(env, steps, map[])[1].output == "y\n\nPrior context:\n[a]: x"
  {
    var env := Env((s: string, p: string) => p, (r: string) => r, None);
    var a, b := Step("a", "x", [], Some("g")), Step("b", "y", ["a"], Some("g"));
    var steps := [a, b];
    assert Leading([b], Some("g")) == 1;
    assert steps[1..] == [b] && BlockSize(steps) == 2 && steps[..2] == steps;
    assert Output(env, a, map[]) == "x";
    assert Output(env, b, map[]) == "y";
    var done: Completed := map["a" := "x"];
    assert ["a"][1..] == [] && "[" + "a" + "]: " + "x" == "[a]: x";
    assert ContextBits(["a"], done) == ["[a]: x"];
    assert Output(env, b, done) == "y\n\nPrior context:\n[a]: x";
    assert RunInTurn(env, [b], done)[0].output == "y\n\nPrior context:\n[a]: x";
  }

  // ---- The executor ----

  /** `execute_workflow_chain_parallel`: find the block, run its steps on what was completed before
      it, then record the results and enter them in order. */
  method ExecuteChain(env: Env, steps: seq<Step>) returns (records: seq<Record>)
    ensures records == RunGrouped(env, steps, map[])
  {
    records := [];
    var completed: Completed := map[];
    var i := 0;
    while i < |steps|
      invariant 0 <= i <= |steps|
      invariant records + RunGrouped(env, steps[i..], completed) == RunGrouped(env, steps, map[])
    {
      var j := BlockEnd(steps, i);
      ghost var before := completed;
      var more;
      more, completed := RunBlock(env, steps[i..j], completed);
      BlockThenRest(env, steps, i, j, before);
      ConcatAssoc(records, more, RunGrouped(env, steps[j..], completed));
      records := records + more;
      i := j;
    }
    assert steps[i..] == [];
  }

  lemma BlockThenRest(env: Env, steps: seq<Step>, i: nat, j: nat, done: Completed)
    requires i < j <= |steps| && j - i == BlockSize(steps[i..])
    ensures RunGrouped(env, steps[i..], done)
         == BlockRecords(env, steps[i..j], done, 0)
            + RunGrouped(env, steps[j..], EnterBlock(env, steps[i..j], done, done, 0))
  {
    assert steps[i..][..j - i] == steps[i..j] && steps[i..][j - i..] == steps[j..];
  }

  lemma ConcatAssoc(a: seq<Record>, b: seq<Record>, c: seq<Record>)
    ensures a + (b + c) == a + b + c
  {
  }

  /** The inner search: one past the last step of the block that starts at i. */
  method BlockEnd(steps: seq<Step>, i: nat) returns (j: nat)
    requires i < |steps|
    ensures i < j <= |steps| && j - i == BlockSize(steps[i..])
  {
    j := i + 1;
    if Grouped(steps[i]) {
      var group := steps[i].group;
      assert steps[i..][1..] == steps[i + 1..];
      while j < |steps| && steps[j].group == group
        invariant i < j <= |steps|
        invariant 1 + Leading(steps[i + 1..], group) == j - i + Leading(steps[j..], group)
      {
        assert steps[j..][1..] == steps[j + 1..];
        j := j + 1;
      }
    }
  }

  /** Outputs of all steps of a block from the same `completed`, then recorded in order. */
  method RunBlock(env: Env, block: seq<Step>, completed: Completed) returns (records: seq<Record>, after: Completed)
    ensures records == BlockRecords(env, block, completed, 0)
    ensures after == EnterBlock(env, block, completed, completed, 0)
  {
    var outputs: seq<string> := [];
    var k := 0;
    while k < |block|
      invariant 0 <= k <= |block| && |outputs| == k
      invariant forall l :: 0 <= l < k ==> outputs[l] == Output(env, block[l], completed)
    {
      outputs := outputs + [Output(env, block[k], completed)];
      k := k + 1;
    }
    records, after := [], completed;
    k := 0;
    while k < |block|
      invariant 0 <= k <= |block|
      invariant records + BlockRecords(env, block, completed, k) == BlockRecords(env, block, completed, 0)
      invariant EnterBlock(env, block, completed, after, k) == EnterBlock(env, block, completed, completed, 0)
    {
      var s := block[k];
      ConcatAssoc(records, [RecordAt(env, block, completed, k)], BlockRecords(env, block, completed, k + 1));
      records := records + [Recorded(env, s.role, TaskFor(block, s.role), outputs[k])];
      after := after[s.role := outputs[k]];
      k := k + 1;
    }
  }
}
