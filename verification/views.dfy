/** The two incident listings (backend/app.py, `get_incidents` and
    `get_all_incidents`): the incidents newest first, and a "normalized count"
    that is never below the window's size, the number of distinct supporting
    events, or the number of incidents listed. */
module Views {
  import opened Common
  import opened Mapper
  import opened Incidents
  import opened Store
  import opened Engine

  /** The identity a listing gives a supporting event: `vendor-node_id-timestamp`,
      kept as its three parts, the node as Python renders it. */
  datatype EventKey = EventKey(vendor: string, node: string, timestamp: real)

  function KeyOf(e: Event): EventKey {
    EventKey(e.vendor, Render(e.nodeId), e.timestamp)
  }

  /** The identities of a list of events. */
  function KeysOf(es: seq<Event>): set<EventKey> {
    set e | e in es :: KeyOf(e)
  }

  /** The identities of every supporting event of `incs`. */
  function EventKeys(incs: seq<Incident>): set<EventKey> {
    if incs == [] then {} else EventKeys(incs[..|incs| - 1]) + KeysOf(incs[|incs| - 1].events)
  }

  /** The number of supporting events of `incs`, duplicates included. */
  function EventTotal(incs: seq<Incident>): nat {
    if incs == [] then 0 else EventTotal(incs[..|incs| - 1]) + |incs[|incs| - 1].events|
  }

  /** Python's `max(a, b, c)`. */
  function Max3(a: nat, b: nat, c: nat): (m: nat)
    ensures a <= m && b <= m && c <= m
    ensures m == a || m == b || m == c
  {
    if a >= b && a >= c then a else if b >= c then b else c
  }

  /** The `/incidents` response. */
  datatype IncidentsResponse = IncidentsResponse(incidents: seq<Incident>, normalizedCount: nat, incidentCount: nat)

  /** The `/all-incidents` response. */
  datatype AllIncidentsResponse = AllIncidentsResponse(
    incidents: seq<Incident>,
    normalizedCount: nat,
    correlatedCount: nat,
    singleCount: nat,
    totalCount: nat)

  /** The correlated listing of a state. */
  function IncidentsOf(s: EngineState): IncidentsResponse {
    IncidentsResponse(
      SortByRecency(s.correlated),
      Max3(|s.window|, |EventKeys(s.correlated)|, |s.correlated|),
      |s.correlated|)
  }

  /** The combined listing of a state: correlated incidents first, then single-domain. */
  function AllIncidentsOf(s: EngineState): AllIncidentsResponse {
    var all := s.correlated + s.single;
    AllIncidentsResponse(
      SortByRecency(all),
      Max3(|s.window|, |EventKeys(all)|, |s.correlated| + |s.single|),
      |s.correlated|,
      |s.single|,
      |s.correlated| + |s.single|)
  }

  lemma KeysSnoc(es: seq<Event>, e: Event)
    ensures KeysOf(es + [e]) == KeysOf(es) + {KeyOf(e)}
  {
    forall k | k in KeysOf(es + [e]) ensures k in KeysOf(es) + {KeyOf(e)} {
      var x :| x in es + [e] && KeyOf(x) == k;
      if x != e {
        assert x in es;
      }
    }
  }

  /** An event identity is counted exactly when some incident carries an event with it. */
  lemma {:induction false} EventKeysMembers(incs: seq<Incident>, k: EventKey)
    ensures k in EventKeys(incs) <==> exists inc :: inc in incs && k in KeysOf(inc.events)
  {
    if incs != [] {
      var front := incs[..|incs| - 1];
      var last := incs[|incs| - 1];
      EventKeysMembers(front, k);
      assert incs == front + [last];
      if exists inc :: inc in incs && k in KeysOf(inc.events) {
        var inc :| inc in incs && k in KeysOf(inc.events);
        if inc != last {
          assert inc in front;
        }
      }
    }
  }

  /** The identities do not depend on the order of the incidents: the sorted
      listing and the stored list give the same set. */
  lemma EventKeysPermutation(a: seq<Incident>, b: seq<Incident>)
    requires multiset(a) == multiset(b)
    ensures EventKeys(a) == EventKeys(b)
  {
    forall k ensures k in EventKeys(a) <==> k in EventKeys(b) {
      EventKeysMembers(a, k);
      EventKeysMembers(b, k);
      assert forall inc :: inc in a <==> inc in multiset(a);
      assert forall inc :: inc in b <==> inc in multiset(b);
    }
  }

  /** A list of events has at most as many identities as events. */
  lemma {:induction false} KeysOfBound(es: seq<Event>)
    ensures |KeysOf(es)| <= |es|
  {
    if es != [] {
      var front := es[..|es| - 1];
      KeysOfBound(front);
      assert es == front + [es[|es| - 1]];
      KeysSnoc(front, es[|es| - 1]);
    }
  }

  /** The distinct supporting events are at most all the supporting events. */
  lemma {:induction false} EventKeysBound(incs: seq<Incident>)
    ensures |EventKeys(incs)| <= EventTotal(incs)
  {
    if incs != [] {
      EventKeysBound(incs[..|incs| - 1]);
      KeysOfBound(incs[|incs| - 1].events);
    }
  }

  /** The correlated listing holds exactly the correlated incidents, newest first;
      its normalized count is never below the window's size, the distinct
      supporting events or the incident count, and is one of the three. */
  lemma IncidentsListing(s: EngineState)
    ensures var r := IncidentsOf(s);
      && NewestFirst(r.incidents) && multiset(r.incidents) == multiset(s.correlated)
      && r.incidentCount == |s.correlated|
      && r.normalizedCount >= r.incidentCount
      && r.normalizedCount >= |s.window|
      && r.normalizedCount >= |EventKeys(s.correlated)|
      && r.normalizedCount <= |s.window| + EventTotal(s.correlated) + |s.correlated|
  {
    EventKeysBound(s.correlated);
  }

  /** The combined listing holds both lists, newest first, and its counts add up. */
  lemma AllIncidentsListing(s: EngineState)
    ensures var r := AllIncidentsOf(s);
      && NewestFirst(r.incidents)
      && multiset(r.incidents) == multiset(s.correlated) + multiset(s.single)
      && r.totalCount == r.correlatedCount + r.singleCount == |r.incidents|
      && r.normalizedCount >= r.totalCount
      && r.normalizedCount >= |s.window|
      && r.normalizedCount >= |EventKeys(s.correlated + s.single)|
  {
  }

  /** The set of supporting-event identities, built incident by incident. */
  method CollectEventKeys(incs: seq<Incident>) returns (ids: set<EventKey>)
    ensures ids == EventKeys(incs)
  {
    ids := {};
    for k := 0 to |incs|
      invariant ids == EventKeys(incs[..k])
    {
      assert incs[..k + 1][..k] == incs[..k];
      var es := incs[k].events;
      ghost var before := ids;
      for j := 0 to |es|
        invariant ids == before + KeysOf(es[..j])
      {
        assert es[..j + 1] == es[..j] + [es[j]];
        KeysSnoc(es[..j], es[j]);
        ids := ids + {KeyOf(es[j])};
      }
      assert es[..|es|] == es;
    }
    assert incs[..|incs|] == incs;
  }

  /** The `/incidents` route over the engine's state. */
  method GetIncidents(engine: CorrelationEngine) returns (r: IncidentsResponse)
    ensures r == IncidentsOf(engine.State())
  {
    var sorted := SortByRecency(engine.correlated);
    var ids := CollectEventKeys(sorted);
    EventKeysPermutation(sorted, engine.correlated);
    r := IncidentsResponse(sorted, Max3(|engine.window|, |ids|, |engine.correlated|), |engine.correlated|);
  }

  /** The `/all-incidents` route over the engine's state. */
  method GetAllIncidents(engine: CorrelationEngine) returns (r: AllIncidentsResponse)
    ensures r == AllIncidentsOf(engine.State())
  {
    var all := engine.correlated + engine.single;
    var sorted := SortByRecency(all);
    var ids := CollectEventKeys(all);
    var total := |engine.correlated| + |engine.single|;
    r := AllIncidentsResponse(sorted, Max3(|engine.window|, |ids|, total), |engine.correlated|, |engine.single|, total);
  }
}
