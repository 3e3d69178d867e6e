/** The multi-agent pattern: agents wired into a dependency graph, a crew that
    collects them while it is active, orders them with Kahn's algorithm and runs
    them, each agent handing its output to the agents that depend on it.
    The crew and the agent refer to each other, so they share one module. */
module Multiagent {
  import opened Wrappers
  import opened Seqs

  const CycleMessage := "There's a circle of dependencies on the agents! Topological sort is not possible"
  const DependencyTypeMessage := "The dependency must be an instance or list of Agent."
  const DependentTypeMessage := "The dependent must be an instance or list of Agent."

  /** The value handed to `add_dependency`, `add_dependent` or a shift operator:
      an agent, a list (whose items may be anything), or some other value. */
  datatype Operand = AgentValue(agent: Agent) | ListValue(items: seq<Operand>) | OtherValue

  /** The agents named by an operand, in order; items that are not agents are dropped. */
  function Wired(other: Operand): seq<Agent> {
    match other
    case AgentValue(a) => [a]
    case ListValue(items) => ListAgents(items)
    case OtherValue => []
  }

  function ListAgents(items: seq<Operand>): seq<Agent> {
    if items == [] then []
    else (if items[0].AgentValue? then [items[0].agent] else []) + ListAgents(items[1..])
  }

  lemma {:induction false} ListAgentsAll(items: seq<Operand>)
    requires forall k :: 0 <= k < |items| ==> items[k].AgentValue?
    ensures |ListAgents(items)| == |items|
    ensures forall k :: 0 <= k < |items| ==> ListAgents(items)[k] == items[k].agent
  {
    if items != [] {
      ListAgentsAll(items[1..]);
    }
  }

  /** The objects an operand lets a wiring operation touch. */
  function Targets(other: Operand): set<Agent> {
    Elements(Wired(other))
  }

  /** The isinstance test of the wiring operations: an agent, or a list all of whose items are agents. */
  predicate Wirable(other: Operand) {
    match other
    case AgentValue(_) => true
    case ListValue(items) => forall k :: 0 <= k < |items| ==> items[k].AgentValue?
    case OtherValue => false
  }

  /** The chunk `receive_context` appends: the receiver's own name, a fixed marker, the payload. */
  function Chunk(receiver: string, payload: string): (r: string)
    ensures |r| == |receiver| + 20 + |payload|
    ensures r[..|receiver|] == receiver
    ensures r[|receiver|..|receiver| + 20] == " received context: \n"
    ensures r[|receiver| + 20..] == payload
  {
    receiver + " received context: \n" + payload
  }

  /** The prompt text of `create_prompt`: the fixed instructions (`PromptIntro` for every agent),
      then the three values in place, then the request for a response. */
  function Prompt(instructions: string, taskDescription: string, expectedOutput: string, context: string): string
  {
    instructions
      + Block("task_description", taskDescription) + "\n\n"
      + Block("task_expected_output", expectedOutput) + "\n\n"
      + Block("context", context) + "\n\nYour response:"
  }

  /** A prompt opens with the instructions, ends with the request for a response, and holds the
      three values, each in its own tagged block, in order. */
  lemma PromptHolds(instructions: string, taskDescription: string, expectedOutput: string, context: string)
    ensures var r := Prompt(instructions, taskDescription, expectedOutput, context);
      instructions <= r &&
      exists mid1, mid2 :: PromptLayout(r, instructions, mid1, mid2, "\n\nYour response:", taskDescription, expectedOutput, context)
  {
    var r := Prompt(instructions, taskDescription, expectedOutput, context);
    assert PromptLayout(r, instructions, "\n\n", "\n\n", "\n\nYour response:", taskDescription, expectedOutput, context);
  }

  /** `body` on its own lines between `<tag>` and `</tag>`. */
  function Block(tag: string, body: string): string {
    "<" + tag + ">\n" + body + "\n</" + tag + ">"
  }

  /** `r` holds the task description, the expected output and the context, in that order, each in its own tagged block. */
  ghost predicate PromptLayout(r: string, pre: string, mid1: string, mid2: string, post: string,
                               taskDescription: string, expectedOutput: string, context: string)
  {
    r == pre + Block("task_description", taskDescription) + mid1
           + Block("task_expected_output", expectedOutput) + mid2
           + Block("context", context) + post
  }

  const PromptIntro :=
    "You are an AI agent. You are part of a team of agents working together to complete a task.\n"
    + "I'm going to give you the task description enclosed in <task_description></task_description> tags. I'll also give\n"
    + "you the available context from the other agents in <context></context> tags. If the context\n"
    + "is not available, the <context></context> tags will be empty. You'll also receive the task\n"
    + "expected output enclosed in <task_expected_output></task_expected_output> tags. With all this information\n"
    + "you need to create the best possible response, always respecting the format as describe in\n"
    + "<task_expected_output></task_expected_output> tags. If expected output is not available, just create\n"
    + "a meaningful response to complete the task.\n\n"

  /** Stands for the class attribute `Crew.current_crew`: the crew, if any, that newly built agents join. */
  class Scope {
    var current: Crew?

    constructor ()
      ensures current == null
    {
      current := null;
    }
  }

  class Agent {
    const name: string
    const backstory: string
    const taskDescription: string
    const taskExpectedOutput: string
    const instructions: string    // the fixed opening of every prompt
    var dependencies: seq<Agent>  // agents this one waits for
    var dependents: seq<Agent>    // agents that wait for this one
    var context: string           // what the agents this one waits for have handed over

    /** A new agent starts unwired with an empty context and joins the active crew, if there is one. */
    constructor (name: string, backstory: string, taskDescription: string, taskExpectedOutput: string, scope: Scope)
      modifies scope.current
      ensures this.name == name && this.backstory == backstory
      ensures this.taskDescription == taskDescription && this.taskExpectedOutput == taskExpectedOutput
      ensures instructions == PromptIntro
      ensures dependencies == [] && dependents == [] && context == ""
      ensures scope.current != null ==> scope.current.agents == old(scope.current.agents) + [this]
    {
      instructions := PromptIntro;
      this.name := name;
      this.backstory := backstory;
      this.taskDescription := taskDescription;
      this.taskExpectedOutput := taskExpectedOutput;
      dependencies := [];
      dependents := [];
      context := "";
      new;
      Crew.RegisterAgent(scope, this);
    }

    /** `self.add_dependency(other)`: this agent comes to wait for each agent `other` names. */
    method AddDependency(other: Operand) returns (r: Outcome)
      modifies Guarded(other, {this})`dependencies, Guarded(other, Targets(other))`dependents
      ensures r == if Wirable(other) then Pass else Fail(TypeError(DependencyTypeMessage))
      ensures r.Pass? ==> AddedDependencies(this, Wired(other))
    {
      match other
      case AgentValue(a) =>
        dependencies := dependencies + [a];
        a.dependents := a.dependents + [this];
        r := Pass;
      case ListValue(items) =>
        if forall k :: 0 <= k < |items| ==> items[k].AgentValue? {
          ListAgentsAll(items);
          WaitForAll(ListAgents(items));
          r := Pass;
        } else {
          r := Fail(TypeError(DependencyTypeMessage));
        }
      case OtherValue =>
        r := Fail(TypeError(DependencyTypeMessage));
    }

    /** `self.add_dependent(other)`: each agent `other` names comes to wait for this agent. */
    method AddDependent(other: Operand) returns (r: Outcome)
      modifies Guarded(other, {this})`dependents, Guarded(other, Targets(other))`dependencies
      ensures r == if Wirable(other) then Pass else Fail(TypeError(DependentTypeMessage))
      ensures r.Pass? ==> AddedDependents(this, Wired(other))
    {
      match other
      case AgentValue(a) =>
        a.dependencies := a.dependencies + [this];
        dependents := dependents + [a];
        r := Pass;
      case ListValue(items) =>
        if forall k :: 0 <= k < |items| ==> items[k].AgentValue? {
          ListAgentsAll(items);
          ReleaseAll(ListAgents(items));
          r := Pass;
        } else {
          r := Fail(TypeError(DependentTypeMessage));
        }
      case OtherValue =>
        r := Fail(TypeError(DependentTypeMessage));
    }

    /** The loop of `add_dependency` over a list: each item in turn becomes a dependency. */
    method WaitForAll(wired: seq<Agent>)
      modifies this`dependencies, (set a | a in wired)`dependents
      ensures dependencies == old(dependencies) + wired
      ensures forall a: Agent :: a in wired ==> a.dependents == old(a.dependents) + Repeat(this, Count(wired, a))
    {
      var k := 0;
      while k < |wired|
        invariant 0 <= k <= |wired|
        invariant dependencies == old(dependencies) + wired[..k]
        invariant forall a: Agent :: a in wired ==> a.dependents == old(a.dependents) + Repeat(this, Count(wired[..k], a))
      {
        var item := wired[k];
        CountStep(wired, k);
        dependencies := dependencies + [item];
        AppendRepeat(old(item.dependents), this, Count(wired[..k], item));
        item.dependents := item.dependents + [this];
        k := k + 1;
      }
      assert wired[..k] == wired;
    }

    /** The loop of `add_dependent` over a list: each item in turn becomes a dependent. */
    method ReleaseAll(wired: seq<Agent>)
      modifies this`dependents, (set a | a in wired)`dependencies
      ensures dependents == old(dependents) + wired
      ensures forall a: Agent :: a in wired ==> a.dependencies == old(a.dependencies) + Repeat(this, Count(wired, a))
    {
      var k := 0;
      while k < |wired|
        invariant 0 <= k <= |wired|
        invariant dependents == old(dependents) + wired[..k]
        invariant forall a: Agent :: a in wired ==> a.dependencies == old(a.dependencies) + Repeat(this, Count(wired[..k], a))
      {
        var item := wired[k];
        CountStep(wired, k);
        AppendRepeat(old(item.dependencies), this, Count(wired[..k], item));
        item.dependencies := item.dependencies + [this];
        dependents := dependents + [item];
        k := k + 1;
      }
      assert wired[..k] == wired;
    }

    /** `self >> other`: what `other` names comes to wait for this agent; the value is `other`. */
    method RShift(other: Operand) returns (r: Result<Operand>)
      modifies Guarded(other, {this})`dependents, Guarded(other, Targets(other))`dependencies
      ensures r == if Wirable(other) then Ok(other) else Err(TypeError(DependentTypeMessage))
      ensures r.Ok? ==> AddedDependents(this, Wired(other))
    {
      var o := AddDependent(other);
      r := if o.Pass? then Ok(other) else Err(o.error);
    }

    /** `self << other`: this agent comes to wait for what `other` names; the value is `other`. */
    method LShift(other: Operand) returns (r: Result<Operand>)
      modifies Guarded(other, {this})`dependencies, Guarded(other, Targets(other))`dependents
      ensures r == if Wirable(other) then Ok(other) else Err(TypeError(DependencyTypeMessage))
      ensures r.Ok? ==> AddedDependencies(this, Wired(other))
    {
      var o := AddDependency(other);
      r := if o.Pass? then Ok(other) else Err(o.error);
    }

    /** `other >> self` with a left operand that is not an agent: this agent waits for it; the value is this agent. */
    method RRShift(other: Operand) returns (r: Result<Operand>)
      modifies Guarded(other, {this})`dependencies, Guarded(other, Targets(other))`dependents
      ensures r == if Wirable(other) then Ok(AgentValue(this)) else Err(TypeError(DependencyTypeMessage))
      ensures r.Ok? ==> AddedDependencies(this, Wired(other))
    {
      var o := AddDependency(other);
      r := if o.Pass? then Ok(AgentValue(this)) else Err(o.error);
    }

    /** `other << self` with a left operand that is not an agent: it waits for this agent; the value is this agent. */
    method RLShift(other: Operand) returns (r: Result<Operand>)
      modifies Guarded(other, {this})`dependents, Guarded(other, Targets(other))`dependencies
      ensures r == if Wirable(other) then Ok(AgentValue(this)) else Err(TypeError(DependentTypeMessage))
      ensures r.Ok? ==> AddedDependents(this, Wired(other))
    {
      var o := AddDependent(other);
      r := if o.Pass? then Ok(AgentValue(this)) else Err(o.error);
    }

    /** Appends one chunk, named after this (receiving) agent, to the context; nothing already there is lost. */
    method ReceiveContext(input: string)
      modifies this`context
      ensures context == old(context) + Chunk(name, input)
      ensures old(context) <= context
    {
      context := context + Chunk(name, input);
    }

    /** The prompt built from the task, the expected output and the current context; a function, so it changes nothing. */
    function CreatePrompt(): (r: string)
      reads this`context
      ensures exists pre, mid1, mid2, post :: PromptLayout(r, pre, mid1, mid2, post, taskDescription, taskExpectedOutput, context)
    {
      PromptHolds(instructions, taskDescription, taskExpectedOutput, context);
      Prompt(instructions, taskDescription, taskExpectedOutput, context)
    }

    /** Asks the reasoning agent for an output, then hands that output to every dependent, once per entry, in list order. */
    method Run(react: (Agent, string) -> string) returns (output: string)
      modifies (set d | d in dependents)`context
      ensures output == react(this, old(CreatePrompt()))
      ensures forall d: Agent :: d in dependents ==>
        d.context == old(d.context) + Times(Chunk(d.name, output), Count(dependents, d))
    {
      var msg := CreatePrompt();
      output := react(this, msg);
      Broadcast(output);
    }

    /** The loop at the end of `run`: every dependent receives `output`, once per time it is listed. */
    method Broadcast(output: string)
      modifies (set d | d in dependents)`context
      ensures forall d: Agent :: d in dependents ==>
        d.context == old(d.context) + Times(Chunk(d.name, output), Count(dependents, d))
    {
      var k := 0;
      while k < |dependents|
        invariant 0 <= k <= |dependents|
        invariant forall d: Agent :: d in dependents ==>
          d.context == old(d.context) + Times(Chunk(d.name, output), Count(dependents[..k], d))
      {
        var dependent := dependents[k];
        CountStep(dependents, k);
        AppendTimes(old(dependent.context), Chunk(dependent.name, output), Count(dependents[..k], dependent));
        dependent.ReceiveContext(output);
        k := k + 1;
      }
      assert dependents[..k] == dependents;
    }
  }

  lemma AppendRepeat<T>(s: seq<T>, x: T, n: nat)
    ensures s + Repeat(x, n) + [x] == s + Repeat(x, n + 1)
  {
  }

  lemma AppendTimes(s: string, c: string, n: nat)
    ensures s + Times(c, n) + c == s + Times(c, n + 1)
  {
  }

  lemma CountStep(wired: seq<Agent>, k: nat)
    requires k < |wired|
    ensures wired[..k + 1] == wired[..k] + [wired[k]]
    ensures forall a: Agent :: Count(wired[..k + 1], a) == Count(wired[..k], a) + (if a == wired[k] then 1 else 0)
  {
    assert wired[..k + 1] == wired[..k] + [wired[k]];
    forall a ensures Count(wired[..k + 1], a) == Count(wired[..k], a) + (if a == wired[k] then 1 else 0) {
      CountAppend(wired[..k], [wired[k]], a);
    }
  }

  /** The objects a wiring operation may touch: none when the operand is refused. */
  function Guarded(other: Operand, objs: set<Agent>): set<Agent> {
    if Wirable(other) then objs else {}
  }

  /** The effect of `self.add_dependency(items)`: `items` appended to self's dependencies, and
      self appended to each item's dependents once per occurrence of that item. (The frames of
      the wiring methods say that no other list and no context changes.) */
  twostate predicate AddedDependencies(self: Agent, items: seq<Agent>)
    reads self, items
  {
    && self.dependencies == old(self.dependencies) + items
    && (forall a: Agent :: a in items ==> a.dependents == old(a.dependents) + Repeat(self, Count(items, a)))
  }

  /** The effect of `self.add_dependent(items)`, the mirror image of AddedDependencies. */
  twostate predicate AddedDependents(self: Agent, items: seq<Agent>)
    reads self, items
  {
    && self.dependents == old(self.dependents) + items
    && (forall a: Agent :: a in items ==> a.dependencies == old(a.dependencies) + Repeat(self, Count(items, a)))
  }

  /** Every dependency of each agent of `order` comes earlier in `order`. */
  ghost predicate RespectsDependencies(order: seq<Agent>)
    reads (set a | a in order)`dependencies
  {
    forall i, d :: 0 <= i < |order| && d in order[i].dependencies ==> d in order[..i]
  }

  /** `p` is a closed walk along dependency edges: each agent waits for the next, the last for the first. */
  ghost predicate IsCycle(p: seq<Agent>)
    reads p
  {
    && |p| > 0
    && (forall k :: 0 <= k < |p| - 1 ==> p[k + 1] in p[k].dependencies)
    && p[0] in p[|p| - 1].dependencies
  }

  /** The agents of `s` that wait for nobody, in the order of `s`. */
  function Roots(s: seq<Agent>): (r: seq<Agent>)
    reads s
    ensures forall a: Agent :: a in r ==> a in s && |a.dependencies| == 0
    ensures forall i :: 0 <= i < |s| && |s[i].dependencies| == 0 ==> s[i] in r
  {
    if s == [] then []
    else (if |s[0].dependencies| == 0 then [s[0]] else []) + Roots(s[1..])
  }

  /** The dependents list of each agent of `order`: whom each agent's output reaches. */
  function Fanout(order: seq<Agent>): (r: seq<seq<Agent>>)
    reads (set x | x in order)`dependents
    ensures |r| == |order| && forall i :: 0 <= i < |order| ==> r[i] == order[i].dependents
  {
    if order == [] then [] else [order[0].dependents] + Fanout(order[1..])
  }

  lemma {:induction false} FanoutOf(order: seq<Agent>, fanout: seq<seq<Agent>>)
    requires |fanout| == |order| && forall j :: 0 <= j < |order| ==> order[j].dependents == fanout[j]
    ensures Fanout(order) == fanout
  {
    if order != [] {
      FanoutOf(order[1..], fanout[1..]);
      assert fanout == [fanout[0]] + fanout[1..];
    }
  }

  /** Everything agent `a` has received once agents with the dependents lists `fanout` have
      produced `outputs`, in that order: one chunk per time `a` is listed in each list. */
  function Received(a: Agent, fanout: seq<seq<Agent>>, outputs: seq<string>): string
    requires |fanout| == |outputs|
  {
    if fanout == [] then ""
    else
      var n := |fanout| - 1;
      Received(a, fanout[..n], outputs[..n]) + Times(Chunk(a.name, outputs[n]), Count(fanout[n], a))
  }

  /** The prompt agent `a` builds when it runs after agents with dependents lists `fanout` have
      produced `outputs`, its context having been `context` before. */
  function PromptAt(a: Agent, context: string, fanout: seq<seq<Agent>>, outputs: seq<string>): string
    requires |fanout| == |outputs|
  {
    Prompt(a.instructions, a.taskDescription, a.taskExpectedOutput, context + Received(a, fanout, outputs))
  }

  /** Agent `order[n]` produced `outputs[n]` from the prompt it built after the first `n` agents had run. */
  ghost predicate RanInOrder(order: seq<Agent>, start: map<Agent, string>, fanout: seq<seq<Agent>>,
                             react: (Agent, string) -> string, outputs: seq<string>)
    requires |outputs| <= |order| == |fanout|
    requires forall a: Agent :: a in order ==> a in start
    decreases |outputs|
  {
    || outputs == []
    || var n := |outputs| - 1;
       && RanInOrder(order, start, fanout, react, outputs[..n])
       && outputs[n] == react(order[n], PromptAt(order[n], start[order[n]], fanout[..n], outputs[..n]))
  }

  lemma {:induction false} RanInOrderAt(order: seq<Agent>, start: map<Agent, string>, fanout: seq<seq<Agent>>,
                                        react: (Agent, string) -> string, outputs: seq<string>)
    requires |outputs| <= |order| == |fanout|
    requires forall a: Agent :: a in order ==> a in start
    requires RanInOrder(order, start, fanout, react, outputs)
    ensures forall k :: 0 <= k < |outputs| ==>
      outputs[k] == react(order[k], PromptAt(order[k], start[order[k]], fanout[..k], outputs[..k]))
    decreases |outputs|
  {
    if outputs != [] {
      var n := |outputs| - 1;
      var prefix := outputs[..n];
      assert RanInOrder(order, start, fanout, react, prefix);
      RanInOrderAt(order, start, fanout, react, prefix);
      forall k | 0 <= k < |outputs|
        ensures outputs[k] == react(order[k], PromptAt(order[k], start[order[k]], fanout[..k], outputs[..k]))
      {
        if k < n {
          assert prefix[k] == outputs[k] && prefix[..k] == outputs[..k];
        }
      }
    }
  }

  lemma ReceivedStep(a: Agent, fanout: seq<seq<Agent>>, outputs: seq<string>, k: nat, output: string)
    requires k < |fanout| && |outputs| == k
    ensures Received(a, fanout[..k + 1], outputs + [output])
      == Received(a, fanout[..k], outputs) + Times(Chunk(a.name, output), Count(fanout[k], a))
  {
    assert fanout[..k + 1][..k] == fanout[..k];
    assert (outputs + [output])[..k] == outputs;
  }

  /** What an agent has received after the turn of agent `k`, from what it had received before. */
  lemma ContextAfterRun(a: Agent, start: string, before: string, after: string,
                        fanout: seq<seq<Agent>>, outputs: seq<string>, k: nat, output: string)
    requires k < |fanout| && |outputs| == k
    requires before == start + Received(a, fanout[..k], outputs)
    requires after == before + Times(Chunk(a.name, output), Count(fanout[k], a))
    ensures after == start + Received(a, fanout[..k + 1], outputs + [output])
  {
    ReceivedStep(a, fanout, outputs, k, output);
  }

  /** The nodes and edges of the diagram `Crew.plot` draws, one edge per (dependency, agent) pair. */
  datatype Diagram = Diagram(nodes: seq<string>, edges: seq<(string, string)>)

  function DependencyEdges(deps: seq<Agent>, target: string): (r: seq<(string, string)>)
    ensures forall e :: e in r <==> exists d: Agent :: d in deps && e == (d.name, target)
  {
    if deps == [] then []
    else [(deps[0].name, target)] + DependencyEdges(deps[1..], target)
  }

  function Plot(agents: seq<Agent>): (r: Diagram)
    reads agents
    ensures |r.nodes| == |agents| && forall i :: 0 <= i < |agents| ==> r.nodes[i] == agents[i].name
    ensures forall e :: e in r.edges <==>
      exists a: Agent, d: Agent :: a in agents && d in a.dependencies && e == (d.name, a.name)
  {
    if agents == [] then Diagram([], [])
    else
      var rest := Plot(agents[1..]);
      Diagram([agents[0].name] + rest.nodes, DependencyEdges(agents[0].dependencies, agents[0].name) + rest.edges)
  }

  class Crew {
    var agents: seq<Agent>  // registration order

    constructor ()
      ensures agents == []
    {
      agents := [];
    }

    /** `with crew:` makes this crew the one new agents join. */
    method Enter(scope: Scope) returns (self: Crew)
      modifies scope
      ensures scope.current == this && self == this
    {
      scope.current := this;
      self := this;
    }

    /** Leaving the `with` block clears the active crew; an outer crew is not restored. */
    method Exit(scope: Scope)
      modifies scope
      ensures scope.current == null
    {
      scope.current := null;
    }

    method AddAgent(agent: Agent)
      modifies this
      ensures agents == old(agents) + [agent]
    {
      agents := agents + [agent];
    }

    /** Appends the agent to the active crew, if any (no check for duplicates); otherwise changes nothing. */
    static method RegisterAgent(scope: Scope, agent: Agent)
      modifies scope.current
      ensures scope.current != null ==> scope.current.agents == old(scope.current.agents) + [agent]
    {
      if scope.current != null {
        scope.current.AddAgent(agent);
      }
    }

    /** The wiring this crew's scheduler is meant for: each agent registered once, every
        neighbour of a registered agent registered, and each edge once in each of the two lists. */
    ghost predicate WellFormed()
      reads this, agents
      ensures WellFormed() ==> forall a: Agent, b: Agent :: a in agents && b in agents ==>
        (b in a.dependencies <==> a in b.dependents)
    {
      Distinct(agents) && NeighboursRegistered(agents) && Symmetric(agents)
    }

    /** `order` lists the registered agents, each once, every agent after all it waits for. */
    ghost predicate IsSchedule(order: seq<Agent>)
      reads this, (set a | a in order)`dependencies
    {
      multiset(order) == multiset(agents) && RespectsDependencies(order)
    }

    /** A schedule is as long as the list of agents, and the two hold the same agents. */
    lemma ScheduleCovers(order: seq<Agent>)
      requires IsSchedule(order)
      ensures |order| == |agents|
      ensures forall i :: 0 <= i < |order| ==> order[i] in agents
      ensures forall i :: 0 <= i < |agents| ==> agents[i] in order
    {
      assert |multiset(order)| == |order| && |multiset(agents)| == |agents|;
      forall i | 0 <= i < |order| ensures order[i] in agents {
        assert order[i] in multiset(order);
      }
      forall i | 0 <= i < |agents| ensures agents[i] in order {
        assert agents[i] in multiset(agents);
      }
    }

    /** Each registered agent's context. */
    ghost function Contexts(): (m: map<Agent, string>)
      reads this, (set a | a in agents)`context
      ensures m.Keys == Elements(agents) && forall a: Agent :: a in agents ==> m[a] == a.context
    {
      map a: Agent | a in agents :: a.context
    }

    ghost predicate HasCycle()
      reads this, agents
      ensures HasCycle() ==> exists i, j :: 0 <= i < |agents| && 0 <= j < |agents| && agents[j] in agents[i].dependencies
    {
      CycleAmong(agents)
    }

    /** Kahn's algorithm with a FIFO queue seeded, in registration order, with the agents that wait for nobody. */
    method TopologicalSort() returns (r: Result<seq<Agent>>)
      ensures r.Ok? ==> |r.value| == |agents| && forall a: Agent :: a in r.value ==> a in agents
      ensures r.Ok? ==> forall a: Agent, d: Agent :: a in r.value && d in a.dependents ==> d in agents
      ensures r.Ok? ==> Roots(agents) <= r.value
      ensures r.Err? ==>
        || r.error == ValueError(CycleMessage)
        || exists a: Agent, d: Agent :: a in agents && d in a.dependents && d !in agents && r.error == KeyError(d.name)
      ensures WellFormed() ==> (r.Ok? <==> !HasCycle())
      ensures WellFormed() && r.Ok? ==> IsSchedule(r.value)
      ensures WellFormed() && r.Err? ==> r.error == ValueError(CycleMessage)
    {
      var sorted, inDegree, missing := Kahn();
      if missing.Some? {
        return Err(KeyError(missing.value.name));
      }
      if |sorted| != |agents| {
        if WellFormed() {
          KahnStuck(agents, sorted, inDegree);
        }
        return Err(ValueError(CycleMessage));
      }
      if WellFormed() {
        KahnDone(agents, sorted, inDegree);
      }
      return Ok(sorted);
    }

    /** The loop of Kahn's algorithm: dequeue, emit, release the dependents, until the queue is empty or a
        dependent turns out to have no in-degree. Returns the emitted agents and the final in-degrees. */
    method Kahn() returns (sorted: seq<Agent>, inDegree: map<Agent, int>, missing: Option<Agent>)
      ensures inDegree.Keys == Elements(agents)
      ensures forall a: Agent :: a in sorted ==> a in agents
      ensures missing.Some? ==> exists a: Agent :: a in agents && missing.value in a.dependents && missing.value !in agents
      ensures missing.None? ==> Roots(agents) <= sorted
      ensures missing.None? ==> forall a: Agent, d: Agent :: a in sorted && d in a.dependents ==> d in agents
      ensures WellFormed() ==> missing.None? && KahnState(agents, sorted, [], inDegree, [])
    {
      ghost var wf := WellFormed();
      inDegree := map a | a in agents :: |a.dependencies|;
      var queue := Roots(agents);
      sorted := [];
      if wf {
        KahnStart(agents, queue, inDegree);
      }
      while queue != []
        invariant Sorting(wf, sorted, queue, inDegree)
        decreases |queue| + |Positive(inDegree)|
      {
        var sorted', queue', inDegree', missed := KahnStep(wf, sorted, queue, inDegree);
        if missed.Some? {
          return sorted', inDegree, missed;
        }
        sorted, queue, inDegree := sorted', queue', inDegree';
      }
      assert sorted + queue == sorted;
      missing := None;
    }

    /** What holds between two turns of Kahn's loop; `wf` records whether the crew is well formed. */
    ghost predicate Sorting(wf: bool, sorted: seq<Agent>, queue: seq<Agent>, inDegree: map<Agent, int>)
      reads this, agents, sorted
    {
      && inDegree.Keys == Elements(agents)
      && (forall a: Agent :: a in sorted ==> a in agents)
      && (forall a: Agent :: a in queue ==> a in agents)
      && Roots(agents) <= sorted + queue
      && (forall a: Agent, d: Agent :: a in sorted && d in a.dependents ==> d in agents)
      && (wf ==> KahnState(agents, sorted, queue, inDegree, []))
    }

    /** One turn of Kahn's loop: emit the head of the queue and release its dependents. A dependent
        without an in-degree stops the sort; that cannot happen in a well-formed crew. */
    method KahnStep(ghost wf: bool, sorted: seq<Agent>, queue: seq<Agent>, inDegree: map<Agent, int>)
      returns (sorted': seq<Agent>, queue': seq<Agent>, inDegree': map<Agent, int>, missed: Option<Agent>)
      requires queue != [] && (wf ==> WellFormed())
      requires Sorting(wf, sorted, queue, inDegree)
      ensures sorted' == sorted + [queue[0]] && queue[0] in agents
      ensures missed.Some? ==> !wf && missed.value in queue[0].dependents && missed.value !in agents
      ensures missed.None? ==> Sorting(wf, sorted', queue', inDegree')
      ensures missed.None? ==> |queue'| + |Positive(inDegree')| < |queue| + |Positive(inDegree)|
    {
      var current := queue[0];
      var rest := queue[1..];
      sorted' := sorted + [current];
      PopSplit(sorted, queue);
      var degrees, next, missing := ReleaseDependents(current.dependents, inDegree, rest);
      if missing.Some? {
        return sorted', rest, inDegree, missing;
      }
      ReleaseMeasure(inDegree, rest, current.dependents);
      if wf {
        KahnTurn(agents, sorted, queue, inDegree);
      }
      PrefixExtend(Roots(agents), sorted', rest, next);
      queue', inDegree', missed := next, degrees, None;
    }

    /** `crew.run()`: sort the crew, then run each agent once in that order. Each agent builds its
        prompt from its context at the moment it runs, and its output reaches every one of its
        dependents. When the sort fails no agent runs. */
    method Run(react: (Agent, string) -> string) returns (r: Result<seq<Agent>>, outputs: seq<string>)
      modifies (set a | a in agents)`context
      ensures r.Err? ==> outputs == [] && forall a: Agent :: a in agents ==> a.context == old(a.context)
      ensures old(WellFormed()) ==> (r.Ok? <==> !old(HasCycle()))
      ensures r.Ok? ==> forall a: Agent :: a in r.value ==> a in agents
      ensures old(WellFormed()) && r.Ok? ==> IsSchedule(r.value)
      ensures r.Ok? ==> |outputs| == |r.value| == |agents|
      ensures r.Ok? ==> forall k :: 0 <= k < |r.value| ==>
        outputs[k] == react(r.value[k], PromptAt(r.value[k], old(Contexts())[r.value[k]], Fanout(r.value)[..k], outputs[..k]))
      ensures r.Ok? ==> forall a: Agent :: a in agents ==> a.context == old(Contexts())[a] + Received(a, Fanout(r.value), outputs)
    {
      r := TopologicalSort();
      assert WellFormed() == old(WellFormed()) && HasCycle() == old(HasCycle());
      assert Contexts() == old(Contexts());
      outputs := [];
      if r.Ok? {
        ghost var scheduled := IsSchedule(r.value);
        ghost var fanout := Fanout(r.value);
        outputs := RunInOrder(r.value, Contexts(), fanout, react);
        assert IsSchedule(r.value) == scheduled;
        assert Fanout(r.value) == fanout;
      }
    }

    /** What holds after the first `|outputs|` turns of the loop of `crew.run()`: each agent that ran produced
        its output from the prompt of its turn, and every context holds what the agents so far sent it. */
    ghost predicate Ran(order: seq<Agent>, start: map<Agent, string>, fanout: seq<seq<Agent>>,
                        react: (Agent, string) -> string, outputs: seq<string>)
      reads this, agents, order
    {
      && |outputs| <= |order| == |fanout|
      && start.Keys == Elements(agents)
      && (forall a: Agent :: a in order ==> a in agents)
      && (forall j :: 0 <= j < |order| ==> order[j].dependents == fanout[j])
      && (forall a: Agent :: a in agents ==> a.context == start[a] + Received(a, fanout[..|outputs|], outputs))
      && RanInOrder(order, start, fanout, react, outputs)
    }

    /** One turn of the loop of `crew.run()`: agent `order[k]` runs and its output reaches its dependents. */
    method RunStep(order: seq<Agent>, ghost start: map<Agent, string>, ghost fanout: seq<seq<Agent>>,
                   react: (Agent, string) -> string, k: nat, ghost outputs: seq<string>) returns (output: string)
      requires k < |order| && |outputs| == k
      requires forall d: Agent :: d in order[k].dependents ==> d in agents
      requires Ran(order, start, fanout, react, outputs)
      modifies (set a | a in agents)`context
      ensures output == react(order[k], PromptAt(order[k], start[order[k]], fanout[..k], outputs))
      ensures Ran(order, start, fanout, react, outputs + [output])
    {
      output := order[k].Run(react);
      assert (outputs + [output])[..k] == outputs;
      forall a: Agent | a in agents
        ensures a.context == start[a] + Received(a, fanout[..k + 1], outputs + [output])
      {
        if a !in order[k].dependents {
          assert Times(Chunk(a.name, output), Count(fanout[k], a)) == "";
        }
        ContextAfterRun(a, start[a], old(a.context), a.context, fanout, outputs, k, output);
      }
    }

    /** The loop of `crew.run()` over an order whose agents, and whose agents' dependents, are all in the crew. */
    method RunInOrder(order: seq<Agent>, ghost start: map<Agent, string>, ghost fanout: seq<seq<Agent>>,
                      react: (Agent, string) -> string) returns (outputs: seq<string>)
      requires forall a: Agent :: a in order ==> a in agents
      requires forall a: Agent, d: Agent :: a in order && d in a.dependents ==> d in agents
      requires start == Contexts() && fanout == Fanout(order)
      modifies (set a | a in agents)`context
      ensures |outputs| == |order|
      ensures forall k :: 0 <= k < |order| ==>
        outputs[k] == react(order[k], PromptAt(order[k], start[order[k]], fanout[..k], outputs[..k]))
      ensures forall a: Agent :: a in agents ==> a.context == start[a] + Received(a, fanout, outputs)
      ensures Fanout(order) == fanout
    {
      outputs := [];
      var k := 0;
      while k < |order|
        invariant k <= |order| && |outputs| == k
        invariant Ran(order, start, fanout, react, outputs)
      {
        var output := RunStep(order, start, fanout, react, k, outputs);
        outputs := outputs + [output];
        k := k + 1;
      }
      assert fanout[..k] == fanout;
      RanInOrderAt(order, start, fanout, react, outputs);
      FanoutOf(order, fanout);
    }
  }

  lemma PrefixExtend<T>(r: seq<T>, s: seq<T>, q: seq<T>, q': seq<T>)
    requires r <= s + q && q <= q'
    ensures r <= s + q'
  {
    assert s + q' == (s + q) + q'[|q|..];
  }

  lemma PopSplit<T>(s: seq<T>, w: seq<T>)
    requires w != []
    ensures (s + [w[0]]) + w[1..] == s + w
  {
    assert w == [w[0]] + w[1..];
  }

  /** The inner loop of Kahn's algorithm: one decrement per entry of `dependents`, in order, each
      agent queued when its in-degree reaches 0. A dependent without an in-degree entry is a KeyError. */
  method ReleaseDependents(dependents: seq<Agent>, inDegree: map<Agent, int>, queue: seq<Agent>)
    returns (degrees: map<Agent, int>, next: seq<Agent>, missing: Option<Agent>)
    ensures missing.None? <==> forall d: Agent :: d in dependents ==> d in inDegree
    ensures missing.Some? ==> missing.value in dependents && missing.value !in inDegree
    ensures missing.None? ==> (degrees, next) == Release(inDegree, queue, dependents)
  {
    degrees, next := inDegree, queue;
    var i := 0;
    while i < |dependents|
      invariant 0 <= i <= |dependents|
      invariant forall d: Agent :: d in dependents[..i] ==> d in inDegree
      invariant degrees.Keys == inDegree.Keys
      invariant Release(inDegree, queue, dependents) == Release(degrees, next, dependents[i..])
    {
      var dependent := dependents[i];
      if dependent !in degrees {
        return degrees, next, Some(dependent);
      }
      assert dependents[i..][1..] == dependents[i + 1..];
      assert dependents[..i + 1] == dependents[..i] + [dependent];
      degrees := degrees[dependent := degrees[dependent] - 1];
      if degrees[dependent] == 0 {
        next := next + [dependent];
      }
      i := i + 1;
    }
    assert dependents[..i] == dependents;
    assert dependents[i..] == [];
    missing := None;
  }

  /** One decrement of a release: `d`'s in-degree drops by one, and `d` joins the queue when it reaches 0. */
  function Decrement(inDegree: map<Agent, int>, queue: seq<Agent>, d: Agent): (r: (map<Agent, int>, seq<Agent>))
    requires d in inDegree
  {
    var m := inDegree[d := inDegree[d] - 1];
    (m, if m[d] == 0 then queue + [d] else queue)
  }

  /** The in-degrees and the queue after releasing the entries of `released` one at a time;
      the release stops at an entry that has no in-degree. */
  function Release(inDegree: map<Agent, int>, queue: seq<Agent>, released: seq<Agent>): (r: (map<Agent, int>, seq<Agent>))
    ensures r.0.Keys == inDegree.Keys
    ensures queue <= r.1 && forall x: Agent :: x in r.1 ==> x in queue || x in released
    decreases |released|
  {
    if released == [] || released[0] !in inDegree then (inDegree, queue)
    else
      var next := Decrement(inDegree, queue, released[0]);
      var r := Release(next.0, next.1, released[1..]);
      assert forall x: Agent :: x in released[1..] ==> x in released;
      r
  }

  /** The agents whose in-degree is still positive. */
  ghost function Positive(inDegree: map<Agent, int>): set<Agent> {
    set a: Agent | a in inDegree && inDegree[a] > 0
  }

  /** Each agent a release queues had a positive in-degree before: the loop measure never grows. */
  lemma {:induction false} ReleaseMeasure(inDegree: map<Agent, int>, queue: seq<Agent>, released: seq<Agent>)
    ensures var r := Release(inDegree, queue, released); |r.1| + |Positive(r.0)| <= |queue| + |Positive(inDegree)|
    decreases |released|
  {
    if released != [] && released[0] in inDegree {
      var d := released[0];
      var m := inDegree[d := inDegree[d] - 1];
      var q := if m[d] == 0 then queue + [d] else queue;
      ReleaseMeasure(m, q, released[1..]);
      PositiveStep(inDegree, d);
    }
  }

  /** One decrement takes `d` out of the positive set exactly when it reaches 0. */
  lemma PositiveStep(inDegree: map<Agent, int>, d: Agent)
    requires d in inDegree
    ensures var m := inDegree[d := inDegree[d] - 1];
      if m[d] == 0 then d in Positive(inDegree) && Positive(m) == Positive(inDegree) - {d}
      else Positive(m) == Positive(inDegree)
  {
  }

  /** Releasing a list is releasing its first entry, then the rest. */
  lemma ReleaseFirst(inDegree: map<Agent, int>, queue: seq<Agent>, released: seq<Agent>)
    requires released != [] && released[0] in inDegree
    ensures var next := Decrement(inDegree, queue, released[0]);
      Release(inDegree, queue, released) == Release(next.0, next.1, released[1..])
  {
  }

  /** One turn of Kahn's loop on a well-formed crew: emit the head of the queue, then release all its dependents. */
  lemma KahnTurn(agents: seq<Agent>, before: seq<Agent>, waiting: seq<Agent>, inDegree: map<Agent, int>)
    requires inDegree.Keys == Elements(agents)
    requires NeighboursRegistered(agents) && Symmetric(agents)
    requires forall a: Agent :: a in before ==> a in agents
    requires waiting != [] && waiting[0] in agents
    requires forall d: Agent :: d in waiting[0].dependents ==> d in inDegree
    requires KahnState(agents, before, waiting, inDegree, [])
    ensures var r := Release(inDegree, waiting[1..], waiting[0].dependents);
      r.0.Keys == Elements(agents) && KahnState(agents, before + [waiting[0]], r.1, r.0, [])
  {
    KahnPop(agents, before, waiting, inDegree);
    KahnReleaseAll(agents, before + [waiting[0]], waiting[1..], inDegree, waiting[0].dependents,
                   Release(inDegree, waiting[1..], waiting[0].dependents));
  }

  /** Releasing all pending decrements restores Kahn's invariant between two dequeues; `final` names the
      in-degrees and queue after the release. */
  lemma {:induction false} KahnReleaseAll(agents: seq<Agent>, sorted: seq<Agent>, queue: seq<Agent>,
                                          inDegree: map<Agent, int>, released: seq<Agent>, final: (map<Agent, int>, seq<Agent>))
    requires inDegree.Keys == Elements(agents)
    requires forall d: Agent :: d in released ==> d in agents
    requires Pending(agents, sorted, queue, inDegree, released)
    requires final == Release(inDegree, queue, released)
    ensures final.0.Keys == Elements(agents)
    ensures Pending(agents, sorted, final.1, final.0, [])
    decreases |released|
  {
    if released == [] {
      assert final == (inDegree, queue);
    } else {
      KahnReleaseHead(agents, sorted, queue, inDegree, released, final);
      var next := Decrement(inDegree, queue, released[0]);
      KahnReleaseAll(agents, sorted, next.1, next.0, released[1..], final);
    }
  }



  /** The first pending decrement of a release, with Kahn's invariant for the rest. */
  lemma KahnReleaseHead(agents: seq<Agent>, sorted: seq<Agent>, queue: seq<Agent>,
                        inDegree: map<Agent, int>, released: seq<Agent>, final: (map<Agent, int>, seq<Agent>))
    requires released != []
    requires inDegree.Keys == Elements(agents)
    requires forall d: Agent :: d in released ==> d in agents
    requires Pending(agents, sorted, queue, inDegree, released)
    requires final == Release(inDegree, queue, released)
    ensures forall d: Agent :: d in released[1..] ==> d in agents
    ensures released[0] in inDegree
    ensures var next := Decrement(inDegree, queue, released[0]);
      && next.0.Keys == Elements(agents)
      && Pending(agents, sorted, next.1, next.0, released[1..])
      && final == Release(next.0, next.1, released[1..])
  {
    assert released[0] in inDegree;
    ReleaseFirst(inDegree, queue, released);
    KahnRelease(agents, sorted, queue, inDegree, released);
    assert forall x: Agent :: x in released[1..] ==> x in released;
  }

  /** Every neighbour of a registered agent is registered. */
  ghost predicate NeighboursRegistered(agents: seq<Agent>)
    reads agents
  {
    && (forall a: Agent, d: Agent :: a in agents && d in a.dependencies ==> d in agents)
    && (forall a: Agent, d: Agent :: a in agents && d in a.dependents ==> d in agents)
  }

  /** `self.add_dependency(items)` keeps the wiring of a crew that holds `self` and the items consistent:
      each edge stays listed as often on both sides, and every neighbour stays registered. The frames of
      `AddDependency`, `LShift` and `RRShift` give the last two requirements. */
  twostate lemma AddedDependenciesKeepWiring(agents: seq<Agent>, self: Agent, items: seq<Agent>)
    requires old(Symmetric(agents)) && old(NeighboursRegistered(agents))
    requires self in agents && forall k :: 0 <= k < |items| ==> items[k] in agents
    requires AddedDependencies(self, items)
    requires forall k :: 0 <= k < |agents| && agents[k] != self ==> agents[k].dependencies == old(agents[k].dependencies)
    requires forall k :: 0 <= k < |agents| && agents[k] !in items ==> agents[k].dependents == old(agents[k].dependents)
    ensures Symmetric(agents) && NeighboursRegistered(agents)
  {
    forall a: Agent, b: Agent | a in agents && b in agents ensures DependencyCount(a, b) == DependentCount(b, a) {
      assert old(DependencyCount(a, b)) == old(DependentCount(b, a));
      if a == self {
        CountAppend(old(self.dependencies), items, b);
      }
      if b in items {
        CountAppend(old(b.dependents), Repeat(self, Count(items, b)), a);
        CountRepeat(self, Count(items, b), a);
      }
    }
    forall a: Agent, d: Agent | a in agents && d in a.dependents ensures d in agents {
      if a in items && d !in old(a.dependents) {
        assert d in Repeat(self, Count(items, a));
      }
    }
  }

  /** `self.add_dependent(items)`, the mirror image: the wiring stays consistent. The frames of
      `AddDependent`, `RShift` and `RLShift` give the last two requirements. */
  twostate lemma AddedDependentsKeepWiring(agents: seq<Agent>, self: Agent, items: seq<Agent>)
    requires old(Symmetric(agents)) && old(NeighboursRegistered(agents))
    requires self in agents && forall k :: 0 <= k < |items| ==> items[k] in agents
    requires AddedDependents(self, items)
    requires forall k :: 0 <= k < |agents| && agents[k] != self ==> agents[k].dependents == old(agents[k].dependents)
    requires forall k :: 0 <= k < |agents| && agents[k] !in items ==> agents[k].dependencies == old(agents[k].dependencies)
    ensures Symmetric(agents) && NeighboursRegistered(agents)
  {
    forall a: Agent, b: Agent | a in agents && b in agents ensures DependencyCount(a, b) == DependentCount(b, a) {
      assert old(DependencyCount(a, b)) == old(DependentCount(b, a));
      if b == self {
        CountAppend(old(self.dependents), items, a);
      }
      if a in items {
        CountAppend(old(a.dependencies), Repeat(self, Count(items, a)), b);
        CountRepeat(self, Count(items, a), b);
      }
    }
    forall a: Agent, d: Agent | a in agents && d in a.dependencies ensures d in agents {
      if a in items && d !in old(a.dependencies) {
        assert d in Repeat(self, Count(items, a));
      }
    }
  }

  /** A new agent, unwired, not yet registered and listed by no registered agent, keeps a well-formed
      crew well formed when the constructor registers it. */
  lemma JoinKeepsWiring(agents: seq<Agent>, a: Agent)
    requires Distinct(agents) && Symmetric(agents) && NeighboursRegistered(agents)
    requires a !in agents && a.dependencies == [] && a.dependents == []
    requires forall k :: 0 <= k < |agents| ==> a !in agents[k].dependencies && a !in agents[k].dependents
    ensures Distinct(agents + [a]) && Symmetric(agents + [a]) && NeighboursRegistered(agents + [a])
  {
  }

  /** Each edge is listed as often among the waiting agent's dependencies as among the awaited agent's dependents. */
  ghost predicate Symmetric(agents: seq<Agent>)
    reads agents
  {
    forall a: Agent, b: Agent :: a in agents && b in agents ==> DependencyCount(a, b) == DependentCount(b, a)
  }

  lemma SymmetricAt(agents: seq<Agent>, a: Agent, b: Agent)
    requires Symmetric(agents) && a in agents && b in agents
    ensures Count(a.dependencies, b) == Count(b.dependents, a)
  {
    assert DependencyCount(a, b) == DependentCount(b, a);
  }

  /** How often `a` lists `b` among its dependencies. */
  ghost function DependencyCount(a: Agent, b: Agent): nat
    reads a
  {
    Count(a.dependencies, b)
  }

  /** How often `b` lists `a` among its dependents. */
  ghost function DependentCount(b: Agent, a: Agent): nat
    reads b
  {
    Count(b.dependents, a)
  }

  /** Some agents of `agents`, given by their positions, wait for one another in a ring. */
  ghost predicate CycleAmong(agents: seq<Agent>)
    reads agents
  {
    exists q: seq<nat> :: (forall k :: 0 <= k < |q| ==> q[k] < |agents|) && IsCycle(At(agents, q))
  }

  /** Every dependency of an agent of `sorted` is in `sorted`. */
  ghost predicate Closed(sorted: seq<Agent>)
    reads sorted
  {
    forall a: Agent, d: Agent :: a in sorted && d in a.dependencies ==> d in sorted
  }

  /** Each in-degree counts the dependencies not yet emitted, plus the pending decrements in `released`. */
  ghost predicate PendingCounts(agents: seq<Agent>, sorted: seq<Agent>, inDegree: map<Agent, int>, released: seq<Agent>)
    reads agents
    requires inDegree.Keys == Elements(agents)
  {
    forall a: Agent {:trigger inDegree[a]} :: a in agents ==> inDegree[a] == CountNotIn(a.dependencies, sorted) + Count(released, a)
  }

  /** An agent is queued exactly when it is not yet emitted and its in-degree is 0. */
  ghost predicate QueueExact(agents: seq<Agent>, sorted: seq<Agent>, queue: seq<Agent>, inDegree: map<Agent, int>)
    requires inDegree.Keys == Elements(agents)
  {
    forall a: Agent {:trigger inDegree[a]} :: a in agents ==> (a in queue <==> a !in sorted && inDegree[a] == 0)
  }

  /** The invariant of Kahn's algorithm on a well-formed crew. `released` lists the dependents of
      the agent emitted last whose in-degrees are still to be decremented; between two dequeues it is empty. */
  ghost predicate KahnState(agents: seq<Agent>, sorted: seq<Agent>, queue: seq<Agent>, inDegree: map<Agent, int>,
                            released: seq<Agent>)
    reads agents, sorted
    requires inDegree.Keys == Elements(agents)
  {
    Settled(sorted) && Pending(agents, sorted, queue, inDegree, released)
  }

  /** The part of Kahn's invariant about the emitted agents alone: emitted after their dependencies, and with them. */
  ghost predicate Settled(sorted: seq<Agent>)
    reads sorted
  {
    RespectsDependencies(sorted) && Closed(sorted)
  }

  /** The part of Kahn's invariant that a release changes: the queue, the in-degrees and the pending decrements. */
  ghost predicate Pending(agents: seq<Agent>, sorted: seq<Agent>, queue: seq<Agent>, inDegree: map<Agent, int>,
                          released: seq<Agent>)
    reads agents
    requires inDegree.Keys == Elements(agents)
  {
    && Distinct(sorted + queue)
    && PendingCounts(agents, sorted, inDegree, released)
    && QueueExact(agents, sorted, queue, inDegree)
    && (forall a: Agent :: a in sorted ==> a !in released)
  }


  lemma KahnStart(agents: seq<Agent>, queue: seq<Agent>, inDegree: map<Agent, int>)
    requires Distinct(agents)
    requires queue == Roots(agents)
    requires inDegree == map a | a in agents :: |a.dependencies|
    ensures KahnState(agents, [], queue, inDegree, [])
  {
    RootsDistinct(agents);
    assert [] + queue == queue;
    forall a: Agent | a in agents ensures inDegree[a] == CountNotIn(a.dependencies, []) + Count([], a) {
      CountNotInNone(a.dependencies);
    }
    forall a: Agent | a in agents ensures (a in queue <==> a !in [] && inDegree[a] == 0) {
      var i :| 0 <= i < |agents| && agents[i] == a;
    }
  }

  lemma {:induction false} RootsDistinct(s: seq<Agent>)
    requires Distinct(s)
    ensures Distinct(Roots(s))
  {
    if s != [] {
      assert Distinct(s[1..]) by {
        forall i, j | 0 <= i < j < |s[1..]| ensures s[1..][i] != s[1..][j] {
          assert s[1..][i] == s[i + 1] && s[1..][j] == s[j + 1];
        }
      }
      RootsDistinct(s[1..]);
      assert s[0] !in s[1..] by {
        forall j | 0 <= j < |s[1..]| ensures s[1..][j] != s[0] {
          assert s[1..][j] == s[j + 1];
        }
      }
      var head := if |s[0].dependencies| == 0 then [s[0]] else [];
      var tail := Roots(s[1..]);
      forall i, j | 0 <= i < j < |head + tail| ensures (head + tail)[i] != (head + tail)[j] {
        if i < |head| {
          assert (head + tail)[j] == tail[j - |head|];
          assert tail[j - |head|] in tail;
        } else {
          assert (head + tail)[i] == tail[i - |head|] && (head + tail)[j] == tail[j - |head|];
        }
      }
    }
  }

  /** Dequeuing the head of the queue and emitting it: its dependents become the pending decrements. */
  lemma KahnPop(agents: seq<Agent>, before: seq<Agent>, waiting: seq<Agent>, inDegree: map<Agent, int>)
    requires inDegree.Keys == Elements(agents)
    requires NeighboursRegistered(agents) && Symmetric(agents)
    requires forall a: Agent :: a in before ==> a in agents
    requires waiting != [] && waiting[0] in agents
    requires KahnState(agents, before, waiting, inDegree, [])
    ensures KahnState(agents, before + [waiting[0]], waiting[1..], inDegree, waiting[0].dependents)
  {
    var current := waiting[0];
    var sorted := before + [current];
    assert sorted + waiting[1..] == before + waiting;
    HeadNotBefore(before, waiting);
    assert inDegree[current] == CountNotIn(current.dependencies, before) + Count([], current);
    CountNotInZero(current.dependencies, before);
    PopCounts(agents, before, current, inDegree);
    forall a: Agent | a in agents ensures (a in waiting[1..] <==> a !in sorted && inDegree[a] == 0) {
      QueueTail(before, waiting, a);
    }
    PopRespects(before, current);
    PopFresh(agents, before, current);
  }

  lemma HeadNotBefore(before: seq<Agent>, waiting: seq<Agent>)
    requires waiting != [] && Distinct(before + waiting)
    ensures waiting[0] !in before
  {
    assert (before + waiting)[|before|] == waiting[0];
    forall j | 0 <= j < |before| ensures before[j] != waiting[0] {
      assert (before + waiting)[j] == before[j];
    }
  }

  lemma PopCounts(agents: seq<Agent>, before: seq<Agent>, current: Agent, inDegree: map<Agent, int>)
    requires inDegree.Keys == Elements(agents)
    requires Symmetric(agents)
    requires current in agents && current !in before
    requires PendingCounts(agents, before, inDegree, [])
    ensures PendingCounts(agents, before + [current], inDegree, current.dependents)
  {
    forall a: Agent | a in agents
      ensures inDegree[a] == CountNotIn(a.dependencies, before + [current]) + Count(current.dependents, a)
    {
      assert inDegree[a] == CountNotIn(a.dependencies, before) + Count([], a);
      CountNotInExtend(a.dependencies, before, current);
      SymmetricAt(agents, a, current);
    }
  }

  lemma QueueTail(before: seq<Agent>, waiting: seq<Agent>, a: Agent)
    requires waiting != [] && Distinct(before + waiting)
    ensures a in waiting[1..] <==> a in waiting && a !in before + [waiting[0]]
  {
    var all := before + waiting;
    if a in waiting[1..] {
      var j :| 0 <= j < |waiting[1..]| && waiting[1..][j] == a;
      assert all[|before| + 1 + j] == a && all[|before|] == waiting[0];
      forall m | 0 <= m < |before| ensures before[m] != a {
        assert all[m] == before[m];
      }
    }
    if a in waiting && a != waiting[0] {
      var j :| 0 <= j < |waiting| && waiting[j] == a;
      assert j != 0;
      assert waiting[1..][j - 1] == a;
    }
  }

  lemma PopRespects(before: seq<Agent>, current: Agent)
    requires RespectsDependencies(before) && Closed(before)
    requires forall d: Agent :: d in current.dependencies ==> d in before
    ensures RespectsDependencies(before + [current]) && Closed(before + [current])
  {
    var sorted := before + [current];
    forall i, d | 0 <= i < |sorted| && d in sorted[i].dependencies ensures d in sorted[..i] {
      if i < |before| {
        assert sorted[i] == before[i] && sorted[..i] == before[..i];
      } else {
        assert sorted[..i] == before;
      }
    }
  }

  /** No emitted agent, the new one included, is a dependent of the agent just emitted. */
  lemma PopFresh(agents: seq<Agent>, before: seq<Agent>, current: Agent)
    requires Symmetric(agents) && Closed(before)
    requires forall a: Agent :: a in before ==> a in agents
    requires current in agents && current !in before
    requires forall d: Agent :: d in current.dependencies ==> d in before
    ensures forall a: Agent :: a in before + [current] ==> a !in current.dependents
  {
    forall a: Agent | a in before + [current] ensures a !in current.dependents {
      assert a in agents by {
        if a != current {
          assert a in before;
        }
      }
      assert current !in a.dependencies;
      SymmetricAt(agents, a, current);
    }
  }

  /** Decrementing the in-degree of the next released dependent, and queueing it when it reaches 0. */
  lemma KahnRelease(agents: seq<Agent>, sorted: seq<Agent>, waiting: seq<Agent>, pre: map<Agent, int>, released: seq<Agent>)
    requires pre.Keys == Elements(agents)
    requires released != [] && released[0] in agents
    requires Pending(agents, sorted, waiting, pre, released)
    ensures var next := Decrement(pre, waiting, released[0]);
      Pending(agents, sorted, next.1, next.0, released[1..])
  {
    var d := released[0];
    var post := pre[d := pre[d] - 1];
    var queue := if post[d] == 0 then waiting + [d] else waiting;
    assert released == [d] + released[1..];
    forall a ensures Count(released, a) == (if a == d then 1 else 0) + Count(released[1..], a) {
      CountAppend([d], released[1..], a);
    }
    assert d !in sorted;
    assert post.Keys == pre.Keys;
    assert pre[d] == CountNotIn(d.dependencies, sorted) + Count(released, d);
    assert (d in waiting <==> d !in sorted && pre[d] == 0);
    if post[d] == 0 {
      assert sorted + queue == (sorted + waiting) + [d];
      AppendDistinct(sorted + waiting, d);
    }
    forall a: Agent | a in agents
      ensures post[a] == CountNotIn(a.dependencies, sorted) + Count(released[1..], a)
      ensures a in queue <==> a !in sorted && post[a] == 0
    {
      assert pre[a] == CountNotIn(a.dependencies, sorted) + Count(released, a);
      assert (a in waiting <==> a !in sorted && pre[a] == 0);
    }
    forall a: Agent | a in sorted ensures a !in released[1..] {
      assert a !in released;
    }
  }

  lemma AppendDistinct(s: seq<Agent>, d: Agent)
    requires Distinct(s) && d !in s
    ensures Distinct(s + [d])
  {
    forall i, j | 0 <= i < j < |s + [d]| ensures (s + [d])[i] != (s + [d])[j] {
      if j == |s| {
        assert (s + [d])[i] == s[i];
      } else {
        assert (s + [d])[i] == s[i] && (s + [d])[j] == s[j];
      }
    }
  }

  /** With the queue empty and an agent left over, the leftovers all wait for one another: there is a cycle. */
  lemma KahnStuck(agents: seq<Agent>, sorted: seq<Agent>, inDegree: map<Agent, int>)
    requires inDegree.Keys == Elements(agents)
    requires Distinct(agents) && NeighboursRegistered(agents)
    requires forall a: Agent :: a in sorted ==> a in agents
    requires KahnState(agents, sorted, [], inDegree, [])
    requires |sorted| != |agents|
    ensures CycleAmong(agents)
  {
    assert sorted + [] == sorted;
    DistinctSubsetLength(sorted, agents);
    var a0: Agent :| a0 in agents && a0 !in sorted by {
      if forall a: Agent :: a in agents ==> a in sorted {
        DistinctSubsetLength(agents, sorted);
      }
    }
    var left := set a | a in agents && a !in sorted;
    forall a: Agent | a in left ensures WaitsWithin(a, left) {
      assert inDegree[a] == CountNotIn(a.dependencies, sorted) + Count([], a);
      CountNotInZero(a.dependencies, sorted);
      var d: Agent :| d in a.dependencies && d !in sorted;
      assert d in left;
    }
    var p := StuckCycle(left, a0);
    var q := Positions(agents, p);
    assert IsCycle(At(agents, q));
  }

  /** At the end of a run that emitted every agent, the emitted order is a schedule and there is no cycle. */
  lemma KahnDone(agents: seq<Agent>, sorted: seq<Agent>, inDegree: map<Agent, int>)
    requires inDegree.Keys == Elements(agents)
    requires Distinct(agents)
    requires forall a: Agent :: a in sorted ==> a in agents
    requires KahnState(agents, sorted, [], inDegree, [])
    requires |sorted| == |agents|
    ensures multiset(sorted) == multiset(agents) && RespectsDependencies(sorted)
    ensures !CycleAmong(agents)
  {
    assert sorted + [] == sorted;
    DistinctSubsetLength(sorted, agents);
    if CycleAmong(agents) {
      var q: seq<nat> :| (forall k :: 0 <= k < |q| ==> q[k] < |agents|) && IsCycle(At(agents, q));
      var p := At(agents, q);
      forall k | 0 <= k < |p| ensures p[k] in sorted {
        assert p[k] in multiset(agents);
      }
      CycleBlocksOrder(sorted, p);
    }
  }

  /** The agents at positions `q` of `s`. */
  function At(s: seq<Agent>, q: seq<nat>): (p: seq<Agent>)
    requires forall k :: 0 <= k < |q| ==> q[k] < |s|
    ensures |p| == |q| && forall k :: 0 <= k < |q| ==> p[k] == s[q[k]]
  {
    seq(|q|, k requires 0 <= k < |q| => s[q[k]])
  }

  /** The positions in `s` of the agents of `p`, all of which occur in `s`. */
  lemma Positions(s: seq<Agent>, p: seq<Agent>) returns (q: seq<nat>)
    requires forall k :: 0 <= k < |p| ==> p[k] in s
    ensures forall k :: 0 <= k < |q| ==> q[k] < |s|
    ensures At(s, q) == p
  {
    q := seq(|p|, k requires 0 <= k < |p| => IndexOf(s, p[k]));
  }

  /** Agent `x` waits for some agent of `s`. */
  ghost predicate WaitsWithin(x: Agent, s: set<Agent>)
    reads x
  {
    exists d: Agent :: d in x.dependencies && d in s
  }

  /** Every agent of `s` waits for some agent of `s`. */
  ghost predicate Stuck(s: set<Agent>)
    reads s
  {
    forall x: Agent {:trigger WaitsWithin(x, s)} :: x in s ==> WaitsWithin(x, s)
  }

  /** The walk from `a` that at each step moves to some dependency inside `s`. */
  ghost function Walk(s: set<Agent>, a: Agent, n: nat): (w: seq<Agent>)
    reads s
    requires a in s && Stuck(s)
    ensures |w| == n + 1 && w[0] == a
    ensures forall k :: 0 <= k < |w| ==> w[k] in s
    ensures forall k :: 0 <= k < n ==> w[k + 1] in w[k].dependencies
    decreases n
  {
    if n == 0 then [a]
    else
      assert WaitsWithin(a, s);
      var d: Agent :| d in a.dependencies && d in s;
      var rest := Walk(s, d, n - 1);
      assert forall k :: 0 <= k < n - 1 ==> rest[k + 1] in rest[k].dependencies;
      [a] + rest
  }

  /** A nonempty set in which every agent waits for another of the set contains a cycle. */
  lemma StuckCycle(s: set<Agent>, a: Agent) returns (p: seq<Agent>)
    requires a in s && Stuck(s)
    ensures IsCycle(p) && forall k :: 0 <= k < |p| ==> p[k] in s
  {
    var w := Walk(s, a, |s|);
    var i, j := Repetition(w, s);
    p := w[i..j];
    ClosedWalk(w, i, j);
  }

  /** The stretch of a walk between two visits of the same agent is a cycle. */
  lemma ClosedWalk(w: seq<Agent>, i: nat, j: nat)
    requires i < j < |w| && w[i] == w[j]
    requires forall k :: 0 <= k < |w| - 1 ==> w[k + 1] in w[k].dependencies
    ensures IsCycle(w[i..j])
  {
    var p := w[i..j];
    assert p[0] == w[j];
    assert p[|p| - 1] == w[j - 1];
    assert w[j] in w[j - 1].dependencies;
    forall k | 0 <= k < |p| - 1 ensures p[k + 1] in p[k].dependencies {
      assert p[k] == w[i + k] && p[k + 1] == w[i + k + 1];
    }
  }

  /** A repetition-free sequence drawn from a set is no longer than the set. */
  lemma DistinctBound<T>(w: seq<T>, s: set<T>)
    requires forall k :: 0 <= k < |w| ==> w[k] in s
    ensures Distinct(w) ==> |w| <= |s|
  {
    if Distinct(w) {
      DistinctCard(w);
      assert Elements(w) <= s;
      assert s == Elements(w) + (s - Elements(w));
    }
  }

  /** A sequence longer than the set it is drawn from repeats some element. */
  lemma Repetition<T>(w: seq<T>, s: set<T>) returns (i: nat, j: nat)
    requires |w| > |s|
    requires forall k :: 0 <= k < |w| ==> w[k] in s
    ensures i < j < |w| && w[i] == w[j]
  {
    DistinctBound(w, s);
    i, j :| 0 <= i < j < |w| && w[i] == w[j];
  }

  /** In an order that respects dependencies, each step along a dependency edge moves strictly earlier. */
  lemma {:induction false} WalkMovesEarlier(order: seq<Agent>, p: seq<Agent>, k: nat)
    requires RespectsDependencies(order)
    requires k < |p| && forall m :: 0 <= m < |p| ==> p[m] in order
    requires forall m :: 0 <= m < |p| - 1 ==> p[m + 1] in p[m].dependencies
    ensures IndexOf(order, p[k]) + k <= IndexOf(order, p[0])
  {
    if k > 0 {
      WalkMovesEarlier(order, p, k - 1);
      EarlierIndex(order, p[k - 1], p[k]);
    }
  }

  lemma EarlierIndex(order: seq<Agent>, a: Agent, d: Agent)
    requires RespectsDependencies(order)
    requires a in order && d in a.dependencies
    ensures d in order && IndexOf(order, d) < IndexOf(order, a)
  {
    var i := IndexOf(order, a);
    assert d in order[..i];
    var j :| 0 <= j < i && order[j] == d;
    FirstIndex(order, d, j);
  }

  lemma {:induction false} FirstIndex(s: seq<Agent>, x: Agent, j: nat)
    requires j < |s| && s[j] == x
    ensures IndexOf(s, x) <= j
  {
    if s[0] != x {
      assert s[1..][j - 1] == x;
      FirstIndex(s[1..], x, j - 1);
    }
  }

  /** No order of the agents on a cycle respects dependencies. */
  lemma CycleBlocksOrder(order: seq<Agent>, p: seq<Agent>)
    requires IsCycle(p)
    requires forall k :: 0 <= k < |p| ==> p[k] in order
    ensures !RespectsDependencies(order)
  {
    if RespectsDependencies(order) {
      WalkMovesEarlier(order, p, |p| - 1);
      EarlierIndex(order, p[|p| - 1], p[0]);
    }
  }
}
