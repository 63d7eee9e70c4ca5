/** The correlation engine's state and its correlation pass (backend/app.py,
    `normalize`, `_process_for_correlation`, and the window append of
    `orchestrate`). The window and the two incident lists are module globals in
    the source; here they are the fields of one engine object. */
module Engine {
  import opened Common
  import opened Mapper
  import opened Incidents
  import opened Store
  import opened Grouping
  import opened Scoring
  import opened SingleDomain

  /** The default correlation window, in seconds. */
  const DefaultWindowSeconds: int := 30
  /** At most this many correlated incidents survive the retention step. */
  const CorrelatedCap: nat := 50
  /** At most this many single-domain incidents survive the retention step. */
  const SingleCap: nat := 100

  // ---- The pass as a function of the old state ----

  /** Events older than this are evicted from the window. */
  function WindowStart(now: real, windowSeconds: int): real {
    now - windowSeconds as real
  }

  /** Incidents not newer than this are aged out: two windows back. */
  function RetentionStart(now: real, windowSeconds: int): real {
    now - 2.0 * windowSeconds as real
  }

  /** The window after eviction: events are dropped from the front while the
      front event is older than `cutoff`. */
  function Evict(w: seq<Event>, cutoff: real): (r: seq<Event>)
    ensures |r| <= |w| && r == w[|w| - |r|..]
    ensures r == [] || r[0].timestamp >= cutoff
    ensures forall i :: 0 <= i < |w| - |r| ==> w[i].timestamp < cutoff
  {
    if w != [] && w[0].timestamp < cutoff then
      var r := Evict(w[1..], cutoff);
      assert w[1..][|w| - 1 - |r|..] == w[|w| - |r|..];
      assert forall i :: 1 <= i < |w| - |r| ==> w[i] == w[1..][i - 1];
      r
    else w
  }

  /** Eviction stops at the first event that is not expired: an older event
      behind a fresh one survives. */
  lemma EvictKeepsLateStaleEvent(current: Event, stale: Event, cutoff: real)
    requires current.timestamp >= cutoff && stale.timestamp < cutoff
    ensures Evict([current, stale], cutoff) == [current, stale]
  {
  }

  /** The upsert loop over the candidate groups: each group that passes the gate
      becomes an incident, which replaces any incident under its key. Yields the
      new correlated list and the incidents created, in group order. */
  function Correlate(c: seq<Incident>, groups: seq<Group>, now: real, window: real): (r: (seq<Incident>, seq<Incident>))
    requires window > 0.0
    ensures |r.1| <= |groups|
  {
    if groups == [] then (c, [])
    else
      var prev := Correlate(c, groups[..|groups| - 1], now, window);
      var g := groups[|groups| - 1];
      match Synthesize(g.0, g.1, now, window)
      case Some(inc) => (Upsert(prev.0, inc), prev.1 + [inc])
      case None => prev
  }

  /** The engine's state: the event window and the two incident lists. */
  datatype EngineState = EngineState(window: seq<Event>, correlated: seq<Incident>, single: seq<Incident>)

  /** The invariant of the engine's state: at most one correlated incident per
      key, and each list holds incidents of its own kind. */
  ghost predicate StateValid(s: EngineState) {
    UniqueKeys(s.correlated) && AllCorrelated(s.correlated) && AllSingleDomain(s.single)
  }

  /** The pass after the grouping: age out and cap both lists at `keepAfter`,
      route the single-domain nodes among `nodes`, then gate, score and upsert
      `groups`. Yields the new state and the incidents created. */
  function Step(s: EngineState, window: seq<Event>, nodes: seq<Option<string>>, groups: seq<Group>,
                keepAfter: real, now: real, w: real): (r: (EngineState, seq<Incident>))
    requires w > 0.0
    ensures r.0.window == window
  {
    var single := RouteSingles(Retain(s.single, keepAfter, SingleCap), window, nodes);
    var correlated := Correlate(Retain(s.correlated, keepAfter, CorrelatedCap), groups, now, w);
    (EngineState(window, correlated.0, single), correlated.1)
  }

  /** One correlation pass at time `now`: evict, age out and cap, route
      single-domain nodes, then build, gate, score and upsert the groups.
      Yields the new state and the incidents created. */
  function Pass(s: EngineState, now: real, windowSeconds: int): (r: (EngineState, seq<Incident>))
    requires windowSeconds > 0
    ensures r.0.window == Evict(s.window, WindowStart(now, windowSeconds))
  {
    var w := windowSeconds as real;
    var window := Evict(s.window, WindowStart(now, windowSeconds));
    Step(s, window, NodeOrder(window), Groups(window, now), RetentionStart(now, windowSeconds), now, w)
  }

  // ---- Properties of the pass ----

  lemma {:induction false} RetainKeepsKinds(s: seq<Incident>, cutoff: real, cap: nat)
    ensures AllCorrelated(s) ==> AllCorrelated(Retain(s, cutoff, cap))
    ensures AllSingleDomain(s) ==> AllSingleDomain(Retain(s, cutoff, cap))
    ensures UniqueKeys(s) ==> UniqueKeys(Retain(s, cutoff, cap))
  {
    RetainSubset(s, cutoff, cap);
    var r := Retain(s, cutoff, cap);
    forall i | 0 <= i < |r| ensures exists j :: 0 <= j < |s| && s[j] == r[i] {
      assert r[i] in s;
    }
  }

  /** The upsert loop keeps the correlated list's invariant. */
  lemma {:induction false} CorrelateKeepsValid(c: seq<Incident>, groups: seq<Group>, now: real, window: real)
    requires window > 0.0
    requires UniqueKeys(c) && AllCorrelated(c)
    ensures UniqueKeys(Correlate(c, groups, now, window).0)
    ensures AllCorrelated(Correlate(c, groups, now, window).0)
  {
    if groups != [] {
      var prev := Correlate(c, groups[..|groups| - 1], now, window);
      CorrelateKeepsValid(c, groups[..|groups| - 1], now, window);
      var g := groups[|groups| - 1];
      match Synthesize(g.0, g.1, now, window)
      case Some(inc) =>
        UpsertKeepsKeysUnique(prev.0, inc);
        var r := Upsert(prev.0, inc);
        forall i | 0 <= i < |r| ensures r[i].origin.Correlated? {
          if i < |r| - 1 {
            assert r[i] in WithoutKey(prev.0, NodeField(inc));
          }
        }
      case None =>
    }
  }

  /** The state invariant survives the age-out, the routing and the upserts,
      whatever the window and the groups. */
  lemma StepKeepsValid(s: EngineState, window: seq<Event>, nodes: seq<Option<string>>, groups: seq<Group>,
                       keepAfter: real, now: real, w: real)
    requires w > 0.0 && StateValid(s)
    ensures StateValid(Step(s, window, nodes, groups, keepAfter, now, w).0)
  {
    RetainKeepsKinds(s.single, keepAfter, SingleCap);
    RetainKeepsKinds(s.correlated, keepAfter, CorrelatedCap);
    RouteKeepsSingleDomain(Retain(s.single, keepAfter, SingleCap), window, nodes);
    CorrelateKeepsValid(Retain(s.correlated, keepAfter, CorrelatedCap), groups, now, w);
  }

  /** A pass keeps the engine's invariant. */
  lemma PassKeepsValid(s: EngineState, now: real, windowSeconds: int)
    requires windowSeconds > 0 && StateValid(s)
    ensures StateValid(Pass(s, now, windowSeconds).0)
  {
    var w := windowSeconds as real;
    var window := Evict(s.window, WindowStart(now, windowSeconds));
    StepKeepsValid(s, window, NodeOrder(window), Groups(window, now), RetentionStart(now, windowSeconds), now, w);
  }

  /** Every incident the upsert loop creates is stamped `now`, and every incident
      it keeps was already in the list. */
  lemma {:induction false} CorrelateSources(c: seq<Incident>, groups: seq<Group>, now: real, window: real)
    requires window > 0.0
    ensures forall x :: x in Correlate(c, groups, now, window).1 ==> x.timestamp == now
    ensures forall x :: x in Correlate(c, groups, now, window).0 ==> x in c || x.timestamp == now
  {
    if groups != [] {
      CorrelateSources(c, groups[..|groups| - 1], now, window);
    }
  }

  /** After the upserts every correlated incident is newer than the age-out
      cutoff: the retained ones by the age-out, the new ones because they are
      stamped `now`. */
  lemma StepCorrelatedFresh(s: EngineState, window: seq<Event>, nodes: seq<Option<string>>, groups: seq<Group>,
                            keepAfter: real, now: real, w: real)
    requires w > 0.0 && keepAfter < now
    ensures forall x :: x in Step(s, window, nodes, groups, keepAfter, now, w).0.correlated ==> x.timestamp > keepAfter
  {
    var kept := Retain(s.correlated, keepAfter, CorrelatedCap);
    RetainBounds(s.correlated, keepAfter, CorrelatedCap);
    CorrelateSources(kept, groups, now, w);
  }

  /** After a pass every correlated incident is younger than two windows. */
  lemma PassCorrelatedFresh(s: EngineState, now: real, windowSeconds: int)
    requires windowSeconds > 0
    ensures forall x :: x in Pass(s, now, windowSeconds).0.correlated ==>
      x.timestamp > RetentionStart(now, windowSeconds)
  {
    var w := windowSeconds as real;
    var window := Evict(s.window, WindowStart(now, windowSeconds));
    StepCorrelatedFresh(s, window, NodeOrder(window), Groups(window, now), RetentionStart(now, windowSeconds), now, w);
  }

  /** The cap applies before the new incidents arrive: after the upserts the
      correlated list holds at most the retained incidents plus one per group. */
  lemma {:induction false} CorrelateGrowth(c: seq<Incident>, groups: seq<Group>, now: real, window: real)
    requires window > 0.0
    ensures |Correlate(c, groups, now, window).0| <= |c| + |groups|
  {
    if groups != [] {
      CorrelateGrowth(c, groups[..|groups| - 1], now, window);
      var prev := Correlate(c, groups[..|groups| - 1], now, window);
      var g := groups[|groups| - 1];
      match Synthesize(g.0, g.1, now, window)
      case Some(inc) =>
        WithoutKeyShrinks(prev.0, NodeField(inc));
      case None =>
    }
  }

  lemma {:induction false} WithoutKeyShrinks(s: seq<Incident>, k: Option<string>)
    ensures |WithoutKey(s, k)| <= |s|
  {
    if s != [] {
      WithoutKeyShrinks(s[1..], k);
    }
  }

  /** After a pass the correlated list holds at most 50 incidents plus one per
      candidate group: the cap is not re-applied after the upserts. */
  lemma PassCorrelatedBound(s: EngineState, now: real, windowSeconds: int)
    requires windowSeconds > 0
    ensures var window := Evict(s.window, WindowStart(now, windowSeconds));
      |Pass(s, now, windowSeconds).0.correlated| <= CorrelatedCap + |Groups(window, now)|
  {
    var w := windowSeconds as real;
    var window := Evict(s.window, WindowStart(now, windowSeconds));
    RetainBounds(s.correlated, RetentionStart(now, windowSeconds), CorrelatedCap);
    CorrelateGrowth(Retain(s.correlated, RetentionStart(now, windowSeconds), CorrelatedCap), Groups(window, now), now, w);
  }

  /** When every group passes the gate, the upsert loop creates one incident per
      group, in group order, each holding its group's key and events. */
  lemma {:induction false} CorrelateCreatesOnePerGroup(c: seq<Incident>, groups: seq<Group>, now: real, window: real)
    requires window > 0.0
    requires forall i :: 0 <= i < |groups| ==> |groups[i].1| >= 2 && |DomainsOf(groups[i].1)| >= 2
    ensures var created := Correlate(c, groups, now, window).1;
      && |created| == |groups|
      && forall i :: 0 <= i < |groups| ==> created[i].origin == Correlated(groups[i].0) && created[i].events == groups[i].1
  {
    if groups != [] {
      var front := groups[..|groups| - 1];
      var g := groups[|groups| - 1];
      CorrelateCreatesOnePerGroup(c, front, now, window);
      var prev := Correlate(c, front, now, window);
      var inc := Synthesize(g.0, g.1, now, window).value;
      var created := prev.1 + [inc];
      assert Correlate(c, groups, now, window).1 == created;
      forall i | 0 <= i < |groups|
        ensures created[i].origin == Correlated(groups[i].0) && created[i].events == groups[i].1
      {
        if i < |front| {
          assert created[i] == prev.1[i] && groups[i] == front[i];
        }
      }
    }
  }

  lemma UpsertKeepsOtherKeys(s: seq<Incident>, inc: Incident, y: Incident)
    requires y in s && NodeField(y) != NodeField(inc)
    ensures y in Upsert(s, inc)
  {
    assert y in WithoutKey(s, NodeField(inc));
  }

  /** With distinct keys, each gated group's incident is still in the list when
      the loop ends: no later group replaces it. */
  lemma {:induction false} CorrelateStoresGroup(c: seq<Incident>, groups: seq<Group>, now: real, window: real, x: Group)
    requires window > 0.0
    requires DistinctKeys(groups)
    requires forall g :: g in groups ==> |g.1| >= 2 && |DomainsOf(g.1)| >= 2
    requires x in groups
    ensures exists inc :: (inc in Correlate(c, groups, now, window).0
                            && inc.origin == Correlated(x.0) && inc.events == x.1)
  {
    var front := groups[..|groups| - 1];
    var g := groups[|groups| - 1];
    var prev := Correlate(c, front, now, window);
    var inc := Synthesize(g.0, g.1, now, window).value;
    assert Correlate(c, groups, now, window).0 == Upsert(prev.0, inc);
    if x == g {
      UpsertReplaces(prev.0, inc);
    } else {
      EarlierGroup(groups, x);
      CorrelateStoresGroup(c, front, now, window, x);
      var y :| y in prev.0 && y.origin == Correlated(x.0) && y.events == x.1;
      UpsertKeepsOtherKeys(prev.0, inc, y);
    }
  }

  /** A group other than the last one comes from the front, under a different key
      than the last one. */
  lemma EarlierGroup(groups: seq<Group>, x: Group)
    requires DistinctKeys(groups) && x in groups && x != groups[|groups| - 1]
    ensures x in groups[..|groups| - 1] && x.0 != groups[|groups| - 1].0
    ensures DistinctKeys(groups[..|groups| - 1])
    ensures forall g :: g in groups[..|groups| - 1] ==> g in groups
  {
    var i :| 0 <= i < |groups| && groups[i] == x;
    assert groups[..|groups| - 1][i] == x;
  }

  /** Node groups survive the cross-domain group: its key is never a node key. */
  lemma NodeGroupInGroups(w: seq<Event>, now: real, x: Group)
    requires x in NodeGroups(w, NodeOrder(w))
    ensures x in Groups(w, now)
  {
    var n :| n in NodeOrder(w) && GroupOfNode(w, n, x);
    CrossKeyIsNotNodeKey(now, n);
  }

  /** The node-specific incident: after a pass, a node other than "unknown" whose
      window events span at least two domains, and whose key no other node of the
      window shares, has a correlated incident under `node-<id>` holding its newest
      event per domain. */
  lemma PassBuildsNodeIncident(s: EngineState, now: real, windowSeconds: int, n: Option<string>)
    requires windowSeconds > 0
    requires var window := Evict(s.window, WindowStart(now, windowSeconds));
      && n in NodeOrder(window)
      && (forall m :: m in NodeOrder(window) && m != n ==> NodeKey(m) != NodeKey(n))
      && |DomainOrder(AtNode(window, n))| >= 2
    ensures var window := Evict(s.window, WindowStart(now, windowSeconds));
      exists inc :: inc in Pass(s, now, windowSeconds).0.correlated
        && inc.origin == Correlated(NodeKey(n))
        && inc.events == Representatives(AtNode(window, n))
  {
    var w := windowSeconds as real;
    var window := Evict(s.window, WindowStart(now, windowSeconds));
    var kept := Retain(s.correlated, RetentionStart(now, windowSeconds), CorrelatedCap);
    var groups := Groups(window, now);
    var x := (NodeKey(n), Representatives(AtNode(window, n)));
    NodeGroupOfNode(window, NodeOrder(window), n);
    NodeGroupInGroups(window, now, x);
    GroupsPassGate(window, now);
    CorrelateStoresGroup(kept, groups, now, w, x);
  }

  // ---- The engine object ----

  /** The orchestration action an operator submits: its name and its optional target. */
  /** A pass whose window spans two or more domains stores the cross-domain
      incident, keyed by the truncated clock, holding the newest event of each
      domain. */
  lemma PassBuildsCrossIncident(s: EngineState, now: real, windowSeconds: int)
    requires windowSeconds > 0
    requires |DomainOrder(Evict(s.window, WindowStart(now, windowSeconds)))| >= 2
    ensures var window := Evict(s.window, WindowStart(now, windowSeconds));
      exists inc :: inc in Pass(s, now, windowSeconds).0.correlated
        && inc.origin == Correlated(CrossKey(now))
        && inc.events == Representatives(window)
  {
    var w := windowSeconds as real;
    var window := Evict(s.window, WindowStart(now, windowSeconds));
    var kept := Retain(s.correlated, RetentionStart(now, windowSeconds), CorrelatedCap);
    var groups := Groups(window, now);
    CrossGroup(window, now);
    GroupsPassGate(window, now);
    CorrelateStoresGroup(kept, groups, now, w, (CrossKey(now), Representatives(window)));
  }

  datatype Action = Action(name: Option<string>, target: Option<string>)

  /** The event an orchestration logs into the window. */
  function OrchestrationEvent(a: Action, now: real): (e: Event)
    ensures e.vendor == "VISION" && e.domain == "ORCHESTRATOR" && e.severity == "info"
    ensures e.nodeId == Some(a.target.GetOr("orchestrator"))
    ensures e.timestamp == now && e.metrics == map[]
  {
    Event(now, "VISION", "ORCHESTRATOR", Some(a.target.GetOr("orchestrator")),
          Some("ORCH_" + Render(a.name)), "info", map[])
  }

  class CorrelationEngine {
    const windowSeconds: int
    /** The normalized events of the current window, in arrival order. */
    var window: seq<Event>
    /** The correlated incidents, at most one per group key. */
    var correlated: seq<Incident>
    /** The single-domain incidents. */
    var single: seq<Incident>

    function State(): EngineState
      reads this
    {
      EngineState(window, correlated, single)
    }

    ghost predicate Valid()
      reads this
    {
      windowSeconds > 0 && StateValid(State())
    }

    constructor(windowSeconds: int)
      requires windowSeconds > 0
      ensures Valid()
      ensures this.windowSeconds == windowSeconds
      ensures State() == EngineState([], [], [])
    {
      this.windowSeconds := windowSeconds;
      window, correlated, single := [], [], [];
    }

    /** The `/normalize` route: map the payload, append the event to the window,
        and run a correlation pass. */
    method Normalize(p: Payload, now: real) returns (e: Event, created: seq<Incident>)
      requires Valid()
      modifies this
      ensures Valid()
      ensures e == MapToCanonical(p, now)
      ensures (State(), created) == Pass(old(State()).(window := old(window) + [e]), now, windowSeconds)
    {
      e := MapToCanonical(p, now);
      window := window + [e];
      assert StateValid(State());
      created := ProcessForCorrelation(now);
    }

    /** The `/orchestrate` route's effect on the engine: the action is logged in the
        window; no pass runs. */
    method LogOrchestration(a: Action, now: real)
      requires Valid()
      modifies this`window
      ensures Valid()
      ensures window == old(window) + [OrchestrationEvent(a, now)]
    {
      window := window + [OrchestrationEvent(a, now)];
    }

    /** The eviction loop: pop the front event while it is older than `cutoff`. */
    method EvictExpired(cutoff: real)
      modifies this`window
      ensures window == Evict(old(window), cutoff)
    {
      while window != [] && window[0].timestamp < cutoff
        invariant Evict(window, cutoff) == Evict(old(window), cutoff)
        decreases |window|
      {
        window := window[1..];
      }
    }

    /** The age-out and cap of both incident lists. */
    method AgeOut(cutoff: real)
      modifies this`correlated, this`single
      ensures correlated == Retain(old(correlated), cutoff, CorrelatedCap)
      ensures single == Retain(old(single), cutoff, SingleCap)
    {
      correlated := Recent(correlated, cutoff);
      single := Recent(single, cutoff);
      if |correlated| > CorrelatedCap {
        correlated := SortByRecency(correlated)[..CorrelatedCap];
      }
      if |single| > SingleCap {
        single := SortByRecency(single)[..SingleCap];
      }
    }

    /** `process_single_domain_incident`: refresh the first recent duplicate in
        place, or append a new incident. */
    method ProcessSingleDomainIncident(e: Event)
      modifies this`single
      ensures single == SingleStep(old(single), e)
    {
      var i := 0;
      while i < |single|
        invariant 0 <= i <= |single|
        invariant single == old(single)
        invariant forall j :: 0 <= j < i ==> !IsRecentDuplicate(single[j], e)
      {
        if IsRecentDuplicate(single[i], e) {
          single := single[i := Refreshed(single[i], e)];
          return;
        }
        i := i + 1;
      }
      single := single + [NewSingle(e)];
    }

    /** The single-domain path for every event of a node, in window order. */
    method RouteNodeEvents(events: seq<Event>)
      modifies this`single
      ensures single == SingleAfter(old(single), events)
    {
      ghost var before := single;
      for j := 0 to |events|
        invariant single == SingleAfter(before, events[..j])
      {
        assert events[..j + 1][..j] == events[..j];
        ProcessSingleDomainIncident(events[j]);
      }
      assert events[..|events|] == events;
    }

    /** The loop over `node_grouped`: a node spanning two or more domains becomes a
        group of its newest event per domain; the events of any other node take
        the single-domain path. */
    method CollectNodeGroups(nodes: seq<Option<string>>, byNode: map<Option<string>, seq<Event>>)
      returns (grouped: seq<Group>)
      requires forall n :: n in nodes ==> n in byNode && byNode[n] == AtNode(window, n)
      modifies this`single
      ensures grouped == NodeGroups(window, nodes)
      ensures single == RouteSingles(old(single), window, nodes)
    {
      grouped := [];
      for k := 0 to |nodes|
        invariant grouped == NodeGroups(window, nodes[..k])
        invariant single == RouteSingles(old(single), window, nodes[..k])
      {
        assert nodes[..k + 1][..k] == nodes[..k];
        var n := nodes[k];
        var events := byNode[n];
        var nodeDomains := DomainOrder(events);
        if |nodeDomains| >= 2 {
          var reps := NodeRepresentatives(events, nodeDomains);
          grouped := Put(grouped, NodeKey(n), reps);
        } else {
          RouteNodeEvents(events);
        }
      }
      assert nodes[..|nodes|] == nodes;
    }

    /** The loop over `grouped`: each group that passes the gate becomes an incident
        that replaces any correlated incident under its key. */
    method UpsertGroups(grouped: seq<Group>, now: real) returns (created: seq<Incident>)
      requires windowSeconds > 0
      modifies this`correlated
      ensures (correlated, created) == Correlate(old(correlated), grouped, now, windowSeconds as real)
    {
      var w := windowSeconds as real;
      created := [];
      for k := 0 to |grouped|
        invariant (correlated, created) == Correlate(old(correlated), grouped[..k], now, w)
      {
        assert grouped[..k + 1][..k] == grouped[..k];
        var key := grouped[k].0;
        var candidate := Synthesize(key, grouped[k].1, now, w);
        if candidate.Some? {
          correlated := WithoutKey(correlated, Some(key)) + [candidate.value];
          created := created + [candidate.value];
        }
      }
      assert grouped[..|grouped|] == grouped;
    }

    /** `_process_for_correlation`: one correlation pass at time `now`. */
    method ProcessForCorrelation(now: real) returns (created: seq<Incident>)
      requires Valid()
      modifies this
      ensures Valid()
      ensures (State(), created) == Pass(old(State()), now, windowSeconds)
    {
      ghost var s0 := State();
      var w := windowSeconds as real;
      EvictExpired(WindowStart(now, windowSeconds));
      AgeOut(RetentionStart(now, windowSeconds));
      var nodes, byNode := GroupByNode(window);
      var domains, byDomain := GroupByDomain(window);
      var grouped := CollectNodeGroups(nodes, byNode);
      if |domains| >= 2 {
        var reps := CrossRepresentatives(byDomain, domains, window);
        grouped := Put(grouped, CrossKey(now), reps);
      }
      assert grouped == Groups(window, now);
      created := UpsertGroups(grouped, now);
      PassKeepsValid(s0, now, windowSeconds);
    }
  }
}
