/** Any instance serves any request. */
module Statelessness {
  import opened AtomicStore
  import opened TaskTable
  import opened StoreProtocol
  import StoreInvariant
  import opened StoreTheorems
  import opened JsonRpc
  import opened ToolRegistry
  import opened Handlers

  /** A request served by the instance on connection `c`, statement by statement,
      with no other request under way. */
  function HandleAt(config: Config, s: State, c: nat, req: Request): (State, Response)
    requires req.name != METHOD_CALL
  {
    match PlanFor(config.setup, req)
    case Answer(payload) => (s, Response(req.id, payload))
    case ListTools => (s, Response(req.id, ListingPayload(config)))
    case Perform(op) =>
      var end := Run(s, Solo(c, 0, op));
      var reply := if end.events == [] then Stored else end.events[|end.events| - 1].reply;
      (end, Response(req.id, ReplyPayload(config.setup, reply)))
  }

  /** An instance: how it is configured, its own map of tools, and the order in
      which that map gives them. */
  datatype Instance = Instance(config: Config, tools: map<string, ToolEntry>, hashOrder: seq<ToolEntry>)

  /** It was given `setup`, registered `entries`, and lists what its map holds. */
  ghost predicate BuiltFrom(instance: Instance, setup: Setup, entries: seq<ToolEntry>) {
    && instance.config.setup == setup
    && LastWins(entries, instance.tools)
    && SomeOrder(instance.hashOrder, instance.tools)
    && Sorts(instance.hashOrder, instance.config.listing)
  }

  ghost predicate AllBuiltFrom(instances: seq<Instance>, setup: Setup, entries: seq<ToolEntry>) {
    forall i :: 0 <= i < |instances| ==> BuiltFrom(instances[i], setup, entries)
  }

  /** Instances built alike look alike, whatever order their maps are in. */
  lemma BuiltAlikeLookAlike(a: Instance, b: Instance, setup: Setup, entries: seq<ToolEntry>)
    requires BuiltFrom(a, setup, entries) && BuiltFrom(b, setup, entries)
    ensures a.config == b.config
  {
    ListingsAgree(entries, a.tools, a.hashOrder, a.config.listing, b.tools, b.hashOrder, b.config.listing);
  }

  /** Every request has an instance to go to. */
  predicate Routed(instances: seq<Instance>, reqs: seq<Request>, routing: seq<nat>) {
    && |routing| == |reqs|
    && forall i :: 0 <= i < |reqs| ==> reqs[i].name != METHOD_CALL && routing[i] < |instances|
  }

  /** A list of requests, request `i` going to instance `routing[i]`, which works
      on the connection of that number. */
  function Serve(instances: seq<Instance>, s: State, reqs: seq<Request>, routing: seq<nat>): (State, seq<Response>)
    requires Routed(instances, reqs, routing)
    decreases |reqs|
  {
    if reqs == [] then (s, []) else
      var (next, resp) := HandleAt(instances[routing[0]].config, s, routing[0], reqs[0]);
      var (end, rest) := Serve(instances, next, reqs[1..], routing[1..]);
      (end, [resp] + rest)
  }

  function ServeAtomically(config: Config, tasks: TaskMap, reqs: seq<Request>): (r: (TaskMap, seq<Response>))
    requires forall i :: 0 <= i < |reqs| ==> reqs[i].name != METHOD_CALL
    ensures |r.1| == |reqs| && forall i :: 0 <= i < |reqs| ==> r.1[i].id == reqs[i].id
  {
    if reqs == [] then (tasks, []) else
      var (next, resp) := Handle(config, tasks, reqs[0]);
      var (end, rest) := ServeAtomically(config, next, reqs[1..]);
      (end, [resp] + rest)
  }

  ghost predicate AllIdle(s: State) {
    forall c :: 0 <= c < |s.conns| ==> s.conns[c].Idle?
  }

  lemma HandleAtIsAtomic(config: Config, rows: Table, s: State, c: nat, req: Request)
    requires Inv(rows, s) && AllIdle(s) && c < |s.conns| && req.name != METHOD_CALL
    ensures var (end, resp) := HandleAt(config, s, c, req);
            && Inv(rows, end) && end.conns == s.conns
            && (Abs(end.rows), resp) == Handle(config, Abs(s.rows), req)
  {
    if PlanFor(config.setup, req).Perform? {
      SoloIsAtomic(rows, s, c, 0, PlanFor(config.setup, req).op);
    }
  }

  /** Whatever instance each request goes to, responses and tasks are those of
      one atomic store. */
  lemma {:induction false} ServeIsAtomic(
    config: Config, instances: seq<Instance>, rows: Table, s: State, reqs: seq<Request>, routing: seq<nat>)
    requires Inv(rows, s) && AllIdle(s) && |instances| == |s.conns| && Routed(instances, reqs, routing)
    requires forall i :: 0 <= i < |instances| ==> instances[i].config == config
    ensures var (end, resps) := Serve(instances, s, reqs, routing);
            && Inv(rows, end)
            && (Abs(end.rows), resps) == ServeAtomically(config, Abs(s.rows), reqs)
    decreases |reqs|
  {
    if reqs == [] {
    } else {
      HandleAtIsAtomic(config, rows, s, routing[0], reqs[0]);
      var next := HandleAt(config, s, routing[0], reqs[0]).0;
      ServeIsAtomic(config, instances, rows, next, reqs[1..], routing[1..]);
    }
  }

  /** Statelessness: any two ways of spreading the same requests over any
      numbers of instances built alike, on the same table, give the same
      responses and the same table. */
  lemma InstancesAreInterchangeable(
    setup: Setup, entries: seq<ToolEntry>, reqs: seq<Request>,
    instances: seq<Instance>, s: State, routing: seq<nat>,
    others: seq<Instance>, t: State, otherRouting: seq<nat>)
    requires Initial(s) && Initial(t) && s.rows == t.rows
    requires |instances| == |s.conns| && AllBuiltFrom(instances, setup, entries) && Routed(instances, reqs, routing)
    requires |others| == |t.conns| && AllBuiltFrom(others, setup, entries) && Routed(others, reqs, otherRouting)
    ensures var (sEnd, sResps) := Serve(instances, s, reqs, routing);
            var (tEnd, tResps) := Serve(others, t, reqs, otherRouting);
            && sResps == tResps && sEnd.rows == tEnd.rows
            && |sResps| == |reqs| && forall i :: 0 <= i < |reqs| ==> sResps[i].id == reqs[i].id
  {
    if reqs != [] {
      var config := instances[routing[0]].config;
      forall i | 0 <= i < |instances| ensures instances[i].config == config {
        BuiltAlikeLookAlike(instances[i], instances[routing[0]], setup, entries);
      }
      forall i | 0 <= i < |others| ensures others[i].config == config {
        BuiltAlikeLookAlike(others[i], instances[routing[0]], setup, entries);
      }
      StoreInvariant.InitialInv(s);
      StoreInvariant.InitialInv(t);
      ServeIsAtomic(config, instances, s.rows, s, reqs, routing);
      ServeIsAtomic(config, others, t.rows, t, reqs, otherRouting);
      AbsInjective(Serve(instances, s, reqs, routing).0.rows, Serve(others, t, reqs, otherRouting).0.rows);
    }
  }
}
