/**
 * The task tree the multiplexer builds for a request tree
 * (`createParallelRequestsTask`, `createRequestHandlingTask`, `toVoid`).
 *
 * A plan says only how tasks are composed; `Precedes` is the order its
 * `Seq`s impose (the parts of a `Seq` run one after another, the
 * branches of a `Par` are unordered), and `Trace` is one execution,
 * the one that runs the branches of a `Par` in list order.
 */
module ExecutionPlans {
  import opened IndividualRequests

  /** The steps of one individual request's handling chain. */
  datatype Step =
    | RequestSanitization
    | InheritEnvelopeRequest
    | RequestFilter
    | SyntheticRequestCreation
    | RequestHandling
    | IndividualResponseConversion
    | ResponseFilter
    | AddResponse

  /** The chain's steps in the order `createRequestHandlingTask` sequences them. */
  const ChainSteps: seq<Step> := [RequestSanitization, InheritEnvelopeRequest, RequestFilter,
                                  SyntheticRequestCreation, RequestHandling,
                                  IndividualResponseConversion, ResponseFilter, AddResponse]

  /** One step of the chain of the request `id`. */
  datatype Event = Event(id: string, request: IndividualRequest, step: Step)

  /** A task: a chain step, `Tasks.seq`, `Tasks.par`, or the "do nothing" action. */
  datatype Plan =
    | Action(event: Event)
    | Seq(plans: seq<Plan>)
    | Par(plans: seq<Plan>)
    | DoNothing

  /** The events a plan holds. */
  predicate Occurs(p: Plan, e: Event)
  {
    match p
    case Action(a) => a == e
    case Seq(ps) => exists i :: 0 <= i < |ps| && Occurs(ps[i], e)
    case Par(ps) => exists i :: 0 <= i < |ps| && Occurs(ps[i], e)
    case DoNothing => false
  }

  /**
   * Some `Seq` of `p` orders an occurrence of `a` before an occurrence of
   * `b`: it holds `a` in an earlier part than `b`. A `Par` orders nothing
   * between its branches. Events are values, so for a plan in which an
   * event occurs once this is the order every execution keeps.
   */
  predicate Precedes(p: Plan, a: Event, b: Event)
  {
    match p
    case Action(_) => false
    case Seq(ps) =>
      || (exists i, j :: 0 <= i < j < |ps| && Occurs(ps[i], a) && Occurs(ps[j], b))
      || (exists i :: 0 <= i < |ps| && Precedes(ps[i], a, b))
    case Par(ps) => exists i :: 0 <= i < |ps| && Precedes(ps[i], a, b)
    case DoNothing => false
  }

  /** The events of a plan in the order a sequential run meets them, `Par` branches in list order. */
  function Trace(p: Plan): seq<Event>
  {
    match p
    case Action(e) => [e]
    case Seq(ps) => TraceAll(ps)
    case Par(ps) => TraceAll(ps)
    case DoNothing => []
  }

  function TraceAll(ps: seq<Plan>): seq<Event>
  {
    if ps == [] then [] else TraceAll(ps[..|ps| - 1]) + Trace(ps[|ps| - 1])
  }

  /** The requests whose step `step` a sequence of events runs, in order. */
  function StepEntries(events: seq<Event>, step: Step): seq<Entry>
  {
    if events == [] then []
    else
      var last := events[|events| - 1];
      StepEntries(events[..|events| - 1], step) + (if last.step == step then [Entry(last.id, last.request)] else [])
  }

  /** The requests whose responses a sequence of events records, in order. */
  function Records(events: seq<Event>): seq<Entry>
  {
    StepEntries(events, AddResponse)
  }

  /** The eight events of one request's chain, in order. */
  function ChainTrace(e: Entry): seq<Event>
  {
    seq(|ChainSteps|, i requires 0 <= i < |ChainSteps| => Event(e.id, e.request, ChainSteps[i]))
  }

  /** The chains of `entries`, one after another. */
  function ChainTraces(entries: seq<Entry>): seq<Event>
  {
    if entries == [] then [] else ChainTraces(entries[..|entries| - 1]) + ChainTrace(entries[|entries| - 1])
  }

  /**
   * `createRequestHandlingTask`: the eight steps of the request `id` in one
   * `Tasks.seq`.
   */
  function CreateRequestHandlingTask(id: string, request: IndividualRequest): Plan
  {
    Seq([Action(Event(id, request, RequestSanitization)),
         Action(Event(id, request, InheritEnvelopeRequest)),
         Action(Event(id, request, RequestFilter)),
         Action(Event(id, request, SyntheticRequestCreation)),
         Action(Event(id, request, RequestHandling)),
         Action(Event(id, request, IndividualResponseConversion)),
         Action(Event(id, request, ResponseFilter)),
         Action(Event(id, request, AddResponse))])
  }

  /**
   * The chain runs its eight steps in the fixed order and records exactly
   * one response, its own, at its last step.
   */
  lemma RequestHandlingTaskTrace(id: string, request: IndividualRequest)
    ensures Trace(CreateRequestHandlingTask(id, request)) == ChainTrace(Entry(id, request))
    ensures Records(Trace(CreateRequestHandlingTask(id, request))) == [Entry(id, request)]
  {
    var e := Entry(id, request);
    var ps := CreateRequestHandlingTask(id, request).plans;
    ChainPrefixTrace(e, |ps|);
    assert ps[..|ps|] == ps;
    StepEntriesOfChain(e, AddResponse);
  }

  /** Every execution of the chain runs its steps one after the other, in the fixed order. */
  lemma RequestHandlingTaskOrder(id: string, request: IndividualRequest, i: nat, j: nat)
    requires i < j < |ChainSteps|
    ensures Precedes(CreateRequestHandlingTask(id, request), Event(id, request, ChainSteps[i]), Event(id, request, ChainSteps[j]))
  {
    var ps := CreateRequestHandlingTask(id, request).plans;
    assert Occurs(ps[i], Event(id, request, ChainSteps[i]));
    assert Occurs(ps[j], Event(id, request, ChainSteps[j]));
  }

  lemma {:induction false} ChainPrefixTrace(e: Entry, k: nat)
    requires k <= |ChainSteps|
    ensures TraceAll(CreateRequestHandlingTask(e.id, e.request).plans[..k]) == ChainTrace(e)[..k]
  {
    var ps := CreateRequestHandlingTask(e.id, e.request).plans;
    if k > 0 {
      ChainPrefixTrace(e, k - 1);
      assert ps[..k][..k - 1] == ps[..k - 1];
      assert ChainTrace(e)[..k] == ChainTrace(e)[..k - 1] + [ChainTrace(e)[k - 1]];
    }
  }

  /** Events none of which runs `step` contribute nothing to `StepEntries`. */
  lemma {:induction false} StepEntriesOfOthers(events: seq<Event>, step: Step)
    requires forall i :: 0 <= i < |events| ==> events[i].step != step
    ensures StepEntries(events, step) == []
  {
    if events != [] {
      StepEntriesOfOthers(events[..|events| - 1], step);
    }
  }

  lemma {:induction false} StepEntriesAppend(first: seq<Event>, second: seq<Event>, step: Step)
    ensures StepEntries(first + second, step) == StepEntries(first, step) + StepEntries(second, step)
  {
    if second == [] {
      assert first + second == first;
    } else {
      var n := |second|;
      assert (first + second)[..|first + second| - 1] == first + second[..n - 1];
      StepEntriesAppend(first, second[..n - 1], step);
    }
  }

  /** A sequence in which exactly one event runs `step` yields that event's request alone. */
  lemma StepEntriesOfUnique(events: seq<Event>, k: nat, step: Step)
    requires k < |events| && events[k].step == step
    requires forall i :: 0 <= i < |events| && i != k ==> events[i].step != step
    ensures StepEntries(events, step) == [Entry(events[k].id, events[k].request)]
  {
    assert events == events[..k] + [events[k]] + events[k + 1..];
    StepEntriesOfOthers(events[..k], step);
    StepEntriesOfOthers(events[k + 1..], step);
    StepEntriesAppend(events[..k], [events[k]], step);
    StepEntriesAppend(events[..k] + [events[k]], events[k + 1..], step);
  }

  /** The position of a step in the chain. */
  function StepIndex(step: Step): (k: nat)
    ensures k < |ChainSteps| && ChainSteps[k] == step
    ensures forall i :: 0 <= i < |ChainSteps| && ChainSteps[i] == step ==> i == k
  {
    match step
    case RequestSanitization => 0
    case InheritEnvelopeRequest => 1
    case RequestFilter => 2
    case SyntheticRequestCreation => 3
    case RequestHandling => 4
    case IndividualResponseConversion => 5
    case ResponseFilter => 6
    case AddResponse => 7
  }

  /** A chain runs each step once, for its own request; in particular it records one response, its own. */
  lemma StepEntriesOfChain(e: Entry, step: Step)
    ensures StepEntries(ChainTrace(e), step) == [e]
  {
    StepEntriesOfUnique(ChainTrace(e), StepIndex(step), step);
  }

  /** `toVoid`: the task followed by an action that does nothing. */
  function ToVoid(task: Plan): (r: Plan)
    ensures Trace(r) == Trace(task)
    ensures forall a, b :: Precedes(r, a, b) <==> Precedes(task, a, b)
  {
    var r := Seq([task, DoNothing]);
    assert [task, DoNothing][..1] == [task];
    assert [task][..0] == [];
    assert TraceAll([task]) == Trace(task);
    assert TraceAll(r.plans) == TraceAll([task]) + Trace(DoNothing);
    assert forall a, b :: Precedes(r, a, b) <==> Precedes(task, a, b) by {
      forall a, b ensures Precedes(r, a, b) <==> Precedes(task, a, b) {
        assert r.plans == [task, DoNothing];
        assert !Occurs(DoNothing, b);
        assert !Precedes(DoNothing, a, b);
      }
    }
    r
  }

  /** The task of one entry: its chain, then, when it has dependents, their plan. */
  function NodeTask(e: Entry): Plan
    decreases e, 1
  {
    var individualRequestTask := CreateRequestHandlingTask(e.id, e.request);
    if e.request.dependentRequests == [] then individualRequestTask
    else Seq([individualRequestTask, ParallelPlan(e.request.dependentRequests)])
  }

  /** The tasks of a map's entries, in iteration order. */
  function NodeTasks(level: seq<Entry>): (tasks: seq<Plan>)
    decreases level, 0
  {
    seq(|level|, i requires 0 <= i < |level| => NodeTask(level[i]))
  }

  /** The plan `createParallelRequestsTask` builds: the entries' tasks in one `Tasks.par`. */
  function ParallelPlan(level: seq<Entry>): Plan
    decreases level, 1
  {
    ToVoid(Par(NodeTasks(level)))
  }

  /**
   * `createParallelRequestsTask`: one task per entry, its dependents'
   * plan sequenced after it, all of them in one `Tasks.par`.
   */
  method CreateParallelRequestsTask(individualRequests: seq<Entry>) returns (task: Plan)
    ensures task == ParallelPlan(individualRequests)
    decreases individualRequests
  {
    var tasks: seq<Plan> := [];
    for i := 0 to |individualRequests|
      invariant tasks == NodeTasks(individualRequests[..i])
    {
      var entry := individualRequests[i];
      var individualRequestTask := CreateRequestHandlingTask(entry.id, entry.request);
      var dependentRequests := entry.request.dependentRequests;
      if dependentRequests == [] {
        tasks := tasks + [individualRequestTask];
      } else {
        var dependentRequestsTask := CreateParallelRequestsTask(dependentRequests);
        tasks := tasks + [Seq([individualRequestTask, dependentRequestsTask])];
      }
      assert individualRequests[..i + 1][..i] == individualRequests[..i];
    }
    assert individualRequests[..|individualRequests|] == individualRequests;
    task := ToVoid(Par(tasks));
  }

  lemma {:induction false} ChainTracesAppend(first: seq<Entry>, second: seq<Entry>)
    ensures ChainTraces(first + second) == ChainTraces(first) + ChainTraces(second)
  {
    if second == [] {
      assert first + second == first;
    } else {
      var n := |second|;
      assert (first + second)[..|first + second| - 1] == first + second[..n - 1];
      ChainTracesAppend(first, second[..n - 1]);
    }
  }

  lemma TraceOfPair(first: Plan, second: Plan)
    ensures Trace(Seq([first, second])) == Trace(first) + Trace(second)
  {
    var ps := [first, second];
    assert ps[..1] == [first] && [first][..0] == [];
    assert TraceAll([first]) == Trace(first);
    assert TraceAll(ps) == TraceAll(ps[..1]) + Trace(second);
  }

  /**
   * The task of an entry runs the chains of its subtree in pre-order: its
   * own chain first, then those of its dependents.
   */
  lemma {:induction false} NodeTaskTrace(e: Entry)
    ensures Trace(NodeTask(e)) == ChainTraces(Flatten([e]))
    decreases e, 2
  {
    var deps := e.request.dependentRequests;
    var chain := CreateRequestHandlingTask(e.id, e.request);
    RequestHandlingTaskTrace(e.id, e.request);
    FlattenOne(e);
    assert ChainTraces([e]) == ChainTrace(e) by {
      assert [e][..0] == [];
    }
    ChainTracesAppend([e], Flatten(deps));
    if deps == [] {
      assert Trace(NodeTask(e)) == ChainTrace(e);
    } else {
      ParallelPlanTrace(deps);
      TraceOfPair(chain, ParallelPlan(deps));
    }
  }

  lemma {:induction false} NodeTasksTrace(level: seq<Entry>)
    ensures TraceAll(NodeTasks(level)) == ChainTraces(Flatten(level))
    decreases level, 1
  {
    if level != [] {
      var n := |level|;
      assert NodeTasks(level)[..n - 1] == NodeTasks(level[..n - 1]);
      NodeTasksTrace(level[..n - 1]);
      NodeTaskTrace(level[n - 1]);
      FlattenSplit(level);
      ChainTracesAppend(Flatten(level[..n - 1]), Flatten([level[n - 1]]));
    }
  }

  /**
   * One chain per entry of the tree, at every depth: a sequential run of
   * the plan runs the chains of the entries in pre-order.
   */
  lemma {:induction false} ParallelPlanTrace(level: seq<Entry>)
    ensures Trace(ParallelPlan(level)) == ChainTraces(Flatten(level))
    decreases level, 2
  {
    NodeTasksTrace(level);
  }

  lemma {:induction false} StepEntriesOfChains(es: seq<Entry>, step: Step)
    ensures StepEntries(ChainTraces(es), step) == es
  {
    if es != [] {
      var n := |es|;
      StepEntriesOfChains(es[..n - 1], step);
      StepEntriesAppend(ChainTraces(es[..n - 1]), ChainTrace(es[n - 1]), step);
      StepEntriesOfChain(es[n - 1], step);
      assert es == es[..n - 1] + [es[n - 1]];
    }
  }

  /**
   * Every step of every entry of the tree runs exactly once, in pre-order,
   * so the plan records one response per entry, as many as
   * `TotalRequestCount` counts, parents before their dependents.
   */
  lemma PlanRunsEachStepOncePerEntry(level: seq<Entry>, step: Step)
    ensures StepEntries(Trace(ParallelPlan(level)), step) == Flatten(level)
    ensures |Records(Trace(ParallelPlan(level)))| == |Flatten(level)|
  {
    ParallelPlanTrace(level);
    StepEntriesOfChains(Flatten(level), step);
    StepEntriesOfChains(Flatten(level), AddResponse);
  }

  /** An event occurs in a plan exactly when a sequential run of it meets the event. */
  lemma {:induction false} OccursIffInTrace(p: Plan, ev: Event)
    ensures Occurs(p, ev) <==> ev in Trace(p)
    decreases p, 1
  {
    match p
    case Action(_) =>
    case Seq(ps) => OccursIffInTraceAll(ps, ev);
    case Par(ps) => OccursIffInTraceAll(ps, ev);
    case DoNothing =>
  }

  lemma {:induction false} OccursIffInTraceAll(ps: seq<Plan>, ev: Event)
    ensures (exists i :: 0 <= i < |ps| && Occurs(ps[i], ev)) <==> ev in TraceAll(ps)
    decreases ps, 0
  {
    if ps != [] {
      var n := |ps|;
      OccursIffInTraceAll(ps[..n - 1], ev);
      OccursIffInTrace(ps[n - 1], ev);
      if exists i :: 0 <= i < n && Occurs(ps[i], ev) {
        var i :| 0 <= i < n && Occurs(ps[i], ev);
        if i < n - 1 {
          assert ps[..n - 1][i] == ps[i];
        }
      }
      var prefix := ps[..n - 1];
      if exists i :: 0 <= i < |prefix| && Occurs(prefix[i], ev) {
        var i :| 0 <= i < |prefix| && Occurs(prefix[i], ev);
        assert ps[i] == prefix[i];
      }
    }
  }

  /** The chains of `es` hold the events of exactly the requests of `es`. */
  lemma {:induction false} InChainTraces(es: seq<Entry>, ev: Event)
    ensures ev in ChainTraces(es) <==> Entry(ev.id, ev.request) in es
  {
    if es != [] {
      var n := |es|;
      InChainTraces(es[..n - 1], ev);
      assert es == es[..n - 1] + [es[n - 1]];
      var e := es[n - 1];
      if Entry(ev.id, ev.request) == e {
        assert ChainTrace(e)[StepIndex(ev.step)] == ev;
      }
    }
  }

  /** The plan holds every step of the entries of the tree, and nothing else. */
  lemma PlanEvents(level: seq<Entry>, ev: Event)
    ensures Occurs(ParallelPlan(level), ev) <==> Entry(ev.id, ev.request) in Flatten(level)
  {
    OccursIffInTrace(ParallelPlan(level), ev);
    ParallelPlanTrace(level);
    InChainTraces(Flatten(level), ev);
  }

  /** An entry of the tree is a top-level entry or lies below one. */
  lemma {:induction false} FlattenMember(level: seq<Entry>, e: Entry) returns (i: nat)
    requires e in Flatten(level)
    ensures i < |level|
    ensures e == level[i] || e in Flatten(level[i].request.dependentRequests)
  {
    var n := |level|;
    if e in Flatten(level[..n - 1]) {
      i := FlattenMember(level[..n - 1], e);
    } else {
      i := n - 1;
    }
  }

  /** What a plan orders stays ordered when the plan is one entry's dependents' plan or a branch of the whole. */
  lemma {:induction false} PrecedesLifts(level: seq<Entry>, e: Entry, a: Event, b: Event)
    requires e in Flatten(level)
    requires Precedes(NodeTask(e), a, b)
    ensures Precedes(ParallelPlan(level), a, b)
  {
    var i := FlattenMember(level, e);
    var top := level[i];
    if e != top {
      var deps := top.request.dependentRequests;
      PrecedesLifts(deps, e, a, b);
      assert NodeTask(top).plans[1] == ParallelPlan(deps);
    }
    assert NodeTasks(level)[i] == NodeTask(top);
    assert Precedes(Par(NodeTasks(level)), a, b);
  }

  /** Within the whole plan, each entry's chain still runs its steps in order. */
  lemma ChainOrderInPlan(level: seq<Entry>, e: Entry, i: nat, j: nat)
    requires e in Flatten(level)
    requires i < j < |ChainSteps|
    ensures Precedes(ParallelPlan(level), Event(e.id, e.request, ChainSteps[i]), Event(e.id, e.request, ChainSteps[j]))
  {
    RequestHandlingTaskOrder(e.id, e.request, i, j);
    var a := Event(e.id, e.request, ChainSteps[i]);
    var b := Event(e.id, e.request, ChainSteps[j]);
    if e.request.dependentRequests != [] {
      assert NodeTask(e).plans[0] == CreateRequestHandlingTask(e.id, e.request);
    }
    PrecedesLifts(level, e, a, b);
  }

  /**
   * A dependent runs after its parent's whole chain, including the step
   * that records the parent's response: every step of an entry precedes
   * every step of every request below it.
   */
  lemma ParentPrecedesDependents(level: seq<Entry>, e: Entry, d: Entry, parentStep: Step, dependentStep: Step)
    requires e in Flatten(level)
    requires d in Flatten(e.request.dependentRequests)
    ensures Precedes(ParallelPlan(level), Event(e.id, e.request, parentStep), Event(d.id, d.request, dependentStep))
  {
    var deps := e.request.dependentRequests;
    var a := Event(e.id, e.request, parentStep);
    var b := Event(d.id, d.request, dependentStep);
    var chain := CreateRequestHandlingTask(e.id, e.request);
    RequestHandlingTaskTrace(e.id, e.request);
    OccursIffInTrace(chain, a);
    assert ChainTrace(e)[StepIndex(parentStep)] == a;
    PlanEvents(deps, b);
    assert NodeTask(e).plans == [chain, ParallelPlan(deps)];
    assert Occurs(NodeTask(e).plans[0], a) && Occurs(NodeTask(e).plans[1], b);
    PrecedesLifts(level, e, a, b);
  }

  /** An ordered pair of events both occur in the plan. */
  lemma {:induction false} PrecedesOccurs(p: Plan, a: Event, b: Event)
    requires Precedes(p, a, b)
    ensures Occurs(p, a) && Occurs(p, b)
  {
    match p
    case Seq(ps) =>
      if !(exists i, j :: 0 <= i < j < |ps| && Occurs(ps[i], a) && Occurs(ps[j], b)) {
        var i :| 0 <= i < |ps| && Precedes(ps[i], a, b);
        PrecedesOccurs(ps[i], a, b);
      }
    case Par(ps) =>
      var i :| 0 <= i < |ps| && Precedes(ps[i], a, b);
      PrecedesOccurs(ps[i], a, b);
  }

  /**
   * The order the plan of `level` imposes, read off the tree: `a` comes
   * before `b` when both are steps of one request of the tree, `a` the
   * earlier, or when `b` is a step of a request below `a`'s.
   */
  predicate TreeOrders(level: seq<Entry>, a: Event, b: Event)
  {
    var ea := Entry(a.id, a.request);
    var eb := Entry(b.id, b.request);
    && ea in Flatten(level)
    && ((eb == ea && StepIndex(a.step) < StepIndex(b.step)) || eb in Flatten(ea.request.dependentRequests))
  }

  /** The `i`-th part of the chain is the `i`-th step of the request. */
  lemma ChainPart(id: string, request: IndividualRequest, i: nat)
    requires i < |ChainSteps|
    ensures |CreateRequestHandlingTask(id, request).plans| == |ChainSteps|
    ensures CreateRequestHandlingTask(id, request).plans[i] == Action(Event(id, request, ChainSteps[i]))
  {
  }

  /** The chain orders nothing but its own steps, earlier before later. */
  lemma {:induction false} ChainOrdersOnlyItsSteps(id: string, request: IndividualRequest, a: Event, b: Event)
    requires Precedes(CreateRequestHandlingTask(id, request), a, b)
    ensures a.id == id && a.request == request && b.id == id && b.request == request
    ensures StepIndex(a.step) < StepIndex(b.step)
  {
    var ps := CreateRequestHandlingTask(id, request).plans;
    ChainPart(id, request, 0);
    assert !(exists i :: 0 <= i < |ps| && Precedes(ps[i], a, b)) by {
      forall i | 0 <= i < |ps| ensures !Precedes(ps[i], a, b) {
        ChainPart(id, request, i);
      }
    }
    var i, j :| 0 <= i < j < |ps| && Occurs(ps[i], a) && Occurs(ps[j], b);
    ChainPart(id, request, i);
    ChainPart(id, request, j);
  }

  /** Whatever the plan orders, the tree orders. */
  lemma {:induction false} PrecedesInTree(level: seq<Entry>, a: Event, b: Event)
    requires Precedes(ParallelPlan(level), a, b)
    ensures TreeOrders(level, a, b)
  {
    var tasks := NodeTasks(level);
    assert ParallelPlan(level).plans == [Par(tasks), DoNothing];
    assert !Occurs(DoNothing, b);
    assert !Precedes(DoNothing, a, b);
    assert Precedes(Par(tasks), a, b);
    var k :| 0 <= k < |tasks| && Precedes(tasks[k], a, b);
    var e := level[k];
    assert e in Flatten(level);
    var deps := e.request.dependentRequests;
    var chain := CreateRequestHandlingTask(e.id, e.request);
    assert tasks[k] == NodeTask(e);
    if deps == [] {
      assert tasks[k] == chain;
      ChainOrdersOnlyItsSteps(e.id, e.request, a, b);
    } else {
      var ps := [chain, ParallelPlan(deps)];
      assert tasks[k] == Seq(ps);
      if Precedes(chain, a, b) {
        ChainOrdersOnlyItsSteps(e.id, e.request, a, b);
      } else if Precedes(ParallelPlan(deps), a, b) {
        PrecedesInTree(deps, a, b);
        FlattenBelow(level, e, Entry(a.id, a.request));
      } else {
        assert !(exists i :: 0 <= i < |ps| && Precedes(ps[i], a, b));
        var i, j :| 0 <= i < j < |ps| && Occurs(ps[i], a) && Occurs(ps[j], b);
        assert i == 0 && j == 1;
        RequestHandlingTaskTrace(e.id, e.request);
        OccursIffInTrace(chain, a);
        var t := ChainTrace(e);
        var m :| 0 <= m < |t| && t[m] == a;
        PlanEvents(deps, b);
      }
    }
  }

  /**
   * The plan orders exactly what the tree orders: the steps of one request
   * in chain order, and every step of a request before every step of every
   * request below it. Nothing else is ordered; in particular sibling
   * requests, at every depth, are not.
   */
  lemma PlanOrderIsTreeOrder(level: seq<Entry>, a: Event, b: Event)
    ensures Precedes(ParallelPlan(level), a, b) <==> TreeOrders(level, a, b)
  {
    if Precedes(ParallelPlan(level), a, b) {
      PrecedesInTree(level, a, b);
    }
    if TreeOrders(level, a, b) {
      var ea := Entry(a.id, a.request);
      var eb := Entry(b.id, b.request);
      if eb == ea && StepIndex(a.step) < StepIndex(b.step) {
        ChainOrderInPlan(level, ea, StepIndex(a.step), StepIndex(b.step));
      } else {
        ParentPrecedesDependents(level, ea, eb, a.step, b.step);
      }
    }
  }

  /**
   * Requests run in one `Tasks.par` with their siblings, at every depth:
   * steps of two different requests neither of which lies below the other
   * are not ordered either way.
   */
  lemma SiblingsUnordered(level: seq<Entry>, a: Event, b: Event)
    requires Entry(a.id, a.request) != Entry(b.id, b.request)
    requires Entry(b.id, b.request) !in Flatten(a.request.dependentRequests)
    requires Entry(a.id, a.request) !in Flatten(b.request.dependentRequests)
    ensures !Precedes(ParallelPlan(level), a, b) && !Precedes(ParallelPlan(level), b, a)
  {
    PlanOrderIsTreeOrder(level, a, b);
    PlanOrderIsTreeOrder(level, b, a);
  }
}
