/** Incident records, correlated and single-domain, as the engine stores them. */
module Incidents {
  import opened Common
  import opened Mapper

  /** `INC-<key>-<second>` for a correlated incident, `INC-<vendor>-<node>-<second>`
      for a single-domain one; kept structured rather than rendered. */
  datatype IncidentId =
    | CorrelatedId(key: string, second: int)
    | SingleId(vendor: string, nodeId: Option<string>, second: int)

  /** Where an incident came from: a correlation group key, or one vendor's node in one domain. */
  datatype Origin =
    | Correlated(key: string)
    | SingleDomain(vendor: string, domain: string, nodeId: Option<string>)

  /** The explanation text, by template and the values it interpolates. The
      correlated template prints Python's `list(domains)` of a set, whose order
      Python does not fix, so the model keeps the set. */
  datatype Explanation =
    | CorrelatedNote(critical: bool, count: nat, domains: set<string>)
    | SingleNote(critical: bool, domain: string, nodeId: Option<string>)
    | UpdatedNote(domain: string, nodeId: Option<string>)

  datatype Incident = Incident(
    id: IncidentId,
    origin: Origin,
    rootCause: string,
    events: seq<Event>,
    confidence: real,
    explanation: Explanation,
    timestamp: real,
    isCritical: bool)

  /** The prefix a critical incident's root cause carries. */
  const CriticalPrefix: string := "CRITICAL: "

  /** The event's severity is "critical", compared case-insensitively. */
  predicate IsCritical(e: Event) {
    Lower(e.severity) == "critical"
  }

  /** The incident's `node_id` entry: the group key of a correlated incident, the node of a single-domain one. */
  function NodeField(inc: Incident): Option<string> {
    match inc.origin
    case Correlated(key) => Some(key)
    case SingleDomain(_, _, node) => node
  }

  /** The incident's `vendor` entry, absent on correlated incidents. */
  function VendorField(inc: Incident): Option<string> {
    match inc.origin
    case Correlated(_) => None
    case SingleDomain(vendor, _, _) => Some(vendor)
  }

  /** How many incidents of `s` carry `node_id == k`. */
  function CountNode(s: seq<Incident>, k: Option<string>): nat {
    if s == [] then 0 else (if NodeField(s[0]) == k then 1 else 0) + CountNode(s[1..], k)
  }

  /** At most one incident per `node_id`: for correlated incidents, one per group key. */
  ghost predicate UniqueKeys(s: seq<Incident>) {
    forall k :: CountNode(s, k) <= 1
  }

  ghost predicate AllCorrelated(s: seq<Incident>) {
    forall i :: 0 <= i < |s| ==> s[i].origin.Correlated?
  }

  ghost predicate AllSingleDomain(s: seq<Incident>) {
    forall i :: 0 <= i < |s| ==> s[i].origin.SingleDomain?
  }

  lemma {:induction false} CountNodeAppend(a: seq<Incident>, b: seq<Incident>, k: Option<string>)
    ensures CountNode(a + b, k) == CountNode(a, k) + CountNode(b, k)
  {
    if a != [] {
      assert (a + b)[1..] == a[1..] + b;
      CountNodeAppend(a[1..], b, k);
    } else {
      assert a + b == b;
    }
  }

  /** An incident with key `k` occurs in `s` exactly when `s` counts it. */
  lemma {:induction false} CountNodePositive(s: seq<Incident>, k: Option<string>)
    ensures CountNode(s, k) > 0 <==> exists i :: 0 <= i < |s| && NodeField(s[i]) == k
  {
    if s != [] {
      CountNodePositive(s[1..], k);
      if exists i :: 0 <= i < |s| && NodeField(s[i]) == k {
        var i :| 0 <= i < |s| && NodeField(s[i]) == k;
        if i > 0 { assert NodeField(s[1..][i - 1]) == k; }
      }
      if exists i :: 0 <= i < |s[1..]| && NodeField(s[1..][i]) == k {
        var i :| 0 <= i < |s[1..]| && NodeField(s[1..][i]) == k;
        assert NodeField(s[i + 1]) == k;
      }
    }
  }
}
