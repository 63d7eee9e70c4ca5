/** The single-domain path: an event of a node seen in one domain only either
    refreshes the first recent incident of the same vendor and node, or opens a
    new single-domain incident (backend/app.py, `process_single_domain_incident`). */
module SingleDomain {
  import opened Common
  import opened Mapper
  import opened Incidents
  import opened Grouping

  /** Incidents this many seconds older than the event are no longer duplicates. */
  const DedupSeconds: real := 60.0
  const CriticalSingleConfidence: real := 0.85
  const SingleConfidence: real := 0.6

  /** `inc` is a recent incident of the event's vendor and node. */
  predicate IsRecentDuplicate(inc: Incident, e: Event) {
    VendorField(inc) == Some(e.vendor) && NodeField(inc) == e.nodeId
      && inc.timestamp > e.timestamp - DedupSeconds
  }

  /** The position of the first recent duplicate of `e` in `s`, if any. */
  function FirstDuplicate(s: seq<Incident>, e: Event): (r: Option<nat>)
    ensures r.Some? ==> r.value < |s| && IsRecentDuplicate(s[r.value], e)
    ensures r.Some? ==> forall j :: 0 <= j < r.value ==> !IsRecentDuplicate(s[j], e)
    ensures r.None? <==> forall j :: 0 <= j < |s| ==> !IsRecentDuplicate(s[j], e)
  {
    if s == [] then None
    else if IsRecentDuplicate(s[0], e) then Some(0)
    else
      var t := FirstDuplicate(s[1..], e);
      assert forall j :: 1 <= j < |s| ==> s[j] == s[1..][j - 1];
      if t.Some? then Some(t.value + 1) else None
  }

  /** A duplicate after the refresh: only its events, its timestamp and its
      explanation change. */
  function Refreshed(inc: Incident, e: Event): (r: Incident)
    ensures r.id == inc.id && r.origin == inc.origin && r.rootCause == inc.rootCause
    ensures r.confidence == inc.confidence && r.isCritical == inc.isCritical
    ensures r.events == [e] && r.timestamp == e.timestamp
  {
    inc.(events := [e], timestamp := e.timestamp, explanation := UpdatedNote(e.domain, e.nodeId))
  }

  /** The root cause of a new single-domain incident, before any critical prefix. */
  function SingleCause(e: Event): string {
    e.domain + " issue: " + Render(e.alarmType)
  }

  /** The incident a non-duplicate event opens. */
  function NewSingle(e: Event): (inc: Incident)
    ensures inc.origin == SingleDomain(e.vendor, e.domain, e.nodeId)
    ensures VendorField(inc) == Some(e.vendor) && NodeField(inc) == e.nodeId
    ensures inc.events == [e] && inc.timestamp == e.timestamp
    ensures inc.isCritical == IsCritical(e)
    ensures inc.confidence == if IsCritical(e) then CriticalSingleConfidence else SingleConfidence
    ensures IsCritical(e) ==> inc.rootCause == CriticalPrefix + SingleCause(e)
    ensures !IsCritical(e) ==> inc.rootCause == SingleCause(e)
  {
    var critical := IsCritical(e);
    Incident(
      SingleId(e.vendor, e.nodeId, Trunc(e.timestamp)),
      SingleDomain(e.vendor, e.domain, e.nodeId),
      if critical then CriticalPrefix + SingleCause(e) else SingleCause(e),
      [e],
      if critical then CriticalSingleConfidence else SingleConfidence,
      SingleNote(critical, e.domain, e.nodeId),
      e.timestamp,
      critical)
  }

  /** The single-domain list after one event: the first recent duplicate refreshed,
      or one new incident appended. */
  function SingleStep(s: seq<Incident>, e: Event): (r: seq<Incident>)
    ensures |r| == if FirstDuplicate(s, e).Some? then |s| else |s| + 1
    ensures FirstDuplicate(s, e).None? ==> r == s + [NewSingle(e)]
    ensures FirstDuplicate(s, e).Some? ==>
      var i := FirstDuplicate(s, e).value;
      r[i] == Refreshed(s[i], e) && forall j :: 0 <= j < |s| && j != i ==> r[j] == s[j]
  {
    match FirstDuplicate(s, e)
    case Some(i) => s[i := Refreshed(s[i], e)]
    case None => s + [NewSingle(e)]
  }

  /** `e` is on record: some incident of its vendor and node carries exactly `e`,
      stamped with `e`'s time. */
  ghost predicate Recorded(s: seq<Incident>, e: Event) {
    exists i :: 0 <= i < |s| && VendorField(s[i]) == Some(e.vendor) && NodeField(s[i]) == e.nodeId
      && s[i].events == [e] && s[i].timestamp == e.timestamp
  }

  /** After a step the event is on record. */
  lemma StepRecords(s: seq<Incident>, e: Event)
    ensures Recorded(SingleStep(s, e), e)
  {
    var r := SingleStep(s, e);
    match FirstDuplicate(s, e)
    case Some(i) =>
      assert VendorField(r[i]) == Some(e.vendor) && NodeField(r[i]) == e.nodeId;
    case None =>
      assert r[|s|] == NewSingle(e);
  }

  /** The dedup: once an event is on record, a second event of the same vendor
      and node less than 60 seconds later appends nothing. */
  lemma {:induction false} SecondEventAppendsNothing(s: seq<Incident>, e1: Event, e2: Event)
    requires e2.vendor == e1.vendor && e2.nodeId == e1.nodeId
    requires e1.timestamp > e2.timestamp - DedupSeconds
    ensures |SingleStep(SingleStep(s, e1), e2)| == |SingleStep(s, e1)|
  {
    var r := SingleStep(s, e1);
    StepRecords(s, e1);
    var i :| 0 <= i < |r| && VendorField(r[i]) == Some(e1.vendor) && NodeField(r[i]) == e1.nodeId
      && r[i].events == [e1] && r[i].timestamp == e1.timestamp;
    assert IsRecentDuplicate(r[i], e2);
  }

  /** A step keeps the list single-domain. */
  lemma StepKeepsSingleDomain(s: seq<Incident>, e: Event)
    requires AllSingleDomain(s)
    ensures AllSingleDomain(SingleStep(s, e))
  {
  }

  /** The single-domain list after each event of `es` in turn. */
  function SingleAfter(s: seq<Incident>, es: seq<Event>): (r: seq<Incident>)
    ensures |s| <= |r| <= |s| + |es|
  {
    if es == [] then s else SingleStep(SingleAfter(s, es[..|es| - 1]), es[|es| - 1])
  }

  /** The last event of `es` is on record afterwards. */
  lemma {:induction false} AfterRecordsLast(s: seq<Incident>, es: seq<Event>)
    requires es != []
    ensures Recorded(SingleAfter(s, es), es[|es| - 1])
  {
    StepRecords(SingleAfter(s, es[..|es| - 1]), es[|es| - 1]);
  }

  lemma {:induction false} AfterKeepsSingleDomain(s: seq<Incident>, es: seq<Event>)
    requires AllSingleDomain(s)
    ensures AllSingleDomain(SingleAfter(s, es))
  {
    if es != [] {
      AfterKeepsSingleDomain(s, es[..|es| - 1]);
      StepKeepsSingleDomain(SingleAfter(s, es[..|es| - 1]), es[|es| - 1]);
    }
  }

  /** The single-domain routing of a pass: for each node in turn, when its window
      events span fewer than two domains, each of them takes the single-domain
      path. */
  function RouteSingles(s: seq<Incident>, w: seq<Event>, nodes: seq<Option<string>>): (r: seq<Incident>)
    ensures |s| <= |r|
  {
    if nodes == [] then s
    else
      var prev := RouteSingles(s, w, nodes[..|nodes| - 1]);
      var es := AtNode(w, nodes[|nodes| - 1]);
      if |DomainOrder(es)| < 2 then SingleAfter(prev, es) else prev
  }

  /** Routing keeps the list single-domain. */
  lemma {:induction false} RouteKeepsSingleDomain(s: seq<Incident>, w: seq<Event>, nodes: seq<Option<string>>)
    requires AllSingleDomain(s)
    ensures AllSingleDomain(RouteSingles(s, w, nodes))
  {
    if nodes != [] {
      RouteKeepsSingleDomain(s, w, nodes[..|nodes| - 1]);
      AfterKeepsSingleDomain(RouteSingles(s, w, nodes[..|nodes| - 1]), AtNode(w, nodes[|nodes| - 1]));
    }
  }

  /** Routing a multi-domain node's events changes nothing: only single-domain
      nodes reach this path. */
  lemma RouteSkipsMultiDomain(s: seq<Incident>, w: seq<Event>, nodes: seq<Option<string>>)
    requires nodes != [] && |DomainOrder(AtNode(w, nodes[|nodes| - 1]))| >= 2
    ensures RouteSingles(s, w, nodes) == RouteSingles(s, w, nodes[..|nodes| - 1])
  {
  }

  /** Routing never grows the list by more than the window's events at the routed nodes. */
  lemma {:induction false} RouteGrowth(s: seq<Incident>, w: seq<Event>, nodes: seq<Option<string>>)
    ensures |RouteSingles(s, w, nodes)| <= |s| + SumAtNodes(w, nodes)
  {
    if nodes != [] {
      RouteGrowth(s, w, nodes[..|nodes| - 1]);
    }
  }

  /** The number of window events at the listed nodes. */
  function SumAtNodes(w: seq<Event>, nodes: seq<Option<string>>): nat {
    if nodes == [] then 0 else SumAtNodes(w, nodes[..|nodes| - 1]) + |AtNode(w, nodes[|nodes| - 1])|
  }
}
