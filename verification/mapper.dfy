/** The canonical event mapper: turns a vendor payload into a canonical event
    (backend/app.py, `map_to_canonical`). */
module Mapper {
  import opened Common

  type Metrics = map<string, real>

  /** A vendor payload as received: its text fields, its numeric fields and its
      optional `metrics` object, each keyed by the payload's own field names. */
  datatype Payload = Payload(text: map<string, string>, numbers: map<string, real>, metrics: Option<Metrics>)

  /** A canonical event. `nodeId` and `alarmType` are absent when the vendor
      payload lacked the field the vendor's mapping reads. */
  datatype Event = Event(
    timestamp: real,
    vendor: string,
    domain: string,
    nodeId: Option<string>,
    alarmType: Option<string>,
    severity: string,
    metrics: Metrics)

  /** `payload.get(key)` for a text field. */
  function Text(p: Payload, key: string): Option<string> {
    if key in p.text then Some(p.text[key]) else None
  }

  /** `payload.get(key, default)` for a text field. */
  function TextOr(p: Payload, key: string, default: string): string {
    Text(p, key).GetOr(default)
  }

  /** `payload.get(key, now)` for a timestamp field. */
  function TimeOr(p: Payload, key: string, now: real): real {
    if key in p.numbers then p.numbers[key] else now
  }

  function MetricsOf(p: Payload): Metrics {
    p.metrics.GetOr(map[])
  }

  /** Python truthiness of a string-or-None value. */
  predicate Truthy(v: Option<string>) {
    v.Some? && v.value != ""
  }

  /** `payload.get(k0) or payload.get(k1) or ...`: the first truthy field, else the last one read. */
  function FirstTruthy(p: Payload, keys: seq<string>): (r: Option<string>)
    requires keys != []
    ensures r.Some? ==> exists i :: 0 <= i < |keys| && Text(p, keys[i]) == r
    ensures Truthy(Text(p, keys[0])) ==> r == Text(p, keys[0])
    ensures forall i :: 0 <= i < |keys| && Truthy(Text(p, keys[i])) && (forall j :: 0 <= j < i ==> !Truthy(Text(p, keys[j]))) ==> r == Text(p, keys[i])
    ensures (forall i :: 0 <= i < |keys| ==> !Truthy(Text(p, keys[i]))) ==> r == Text(p, keys[|keys| - 1])
  {
    if |keys| == 1 || Truthy(Text(p, keys[0])) then Text(p, keys[0])
    else
      assert forall i :: 1 <= i < |keys| ==> keys[1..][i - 1] == keys[i];
      FirstTruthy(p, keys[1..])
  }

  /** The vendor named by the payload, `"unknown"` when it names none. */
  function VendorOf(p: Payload): string {
    TextOr(p, "vendor", "unknown")
  }

  /** Python's `map_to_canonical`, written branch for branch. */
  function MapToCanonical(p: Payload, now: real): (e: Event)
    ensures e.vendor == VendorOf(p)
    ensures e.metrics == MetricsOf(p)
    ensures e.vendor in Rules ==> e == ApplyRule(Rules[e.vendor], e.vendor, p, now)
    ensures e.vendor !in Rules ==>
      && e.domain == TextOr(p, "domain", "UNKNOWN")
      && e.nodeId == Some(TextOr(p, "node_id", "unknown"))
      && e.alarmType == Some(TextOr(p, "alarm_type", "unknown"))
      && e.severity == TextOr(p, "severity", "minor")
      && e.timestamp == TimeOr(p, "ts", now)
  {
    var v := VendorOf(p);
    if v == "VendorA" then
      Event(TimeOr(p, "ts", now), v, "RAN", FirstTruthy(p, ["cell", "node"]),
            Text(p, "desc"), TextOr(p, "severity", "major"), MetricsOf(p))
    else if v == "VendorB" then
      Event(TimeOr(p, "time", now), v, "CORE", Text(p, "core_id"),
            Text(p, "alarm"), TextOr(p, "level", "minor"), MetricsOf(p))
    else if v == "VendorC" then
      Event(TimeOr(p, "ts", now), v, "TRANSPORT", FirstTruthy(p, ["link", "node"]),
            Text(p, "type"), TextOr(p, "severity", "minor"), MetricsOf(p))
    else
      Event(TimeOr(p, "ts", now), v, TextOr(p, "domain", "UNKNOWN"),
            Some(TextOr(p, "node_id", "unknown")), Some(TextOr(p, "alarm_type", "unknown")),
            TextOr(p, "severity", "minor"), MetricsOf(p))
  }

  /** A known vendor's field layout, as configuration data: the fixed domain, the
      timestamp field, the node fields tried in order, the alarm field, and the
      severity field with its default. */
  datatype VendorRule = VendorRule(
    domain: string,
    timeKey: string,
    nodeKeys: seq<string>,
    alarmKey: string,
    severityKey: string,
    defaultSeverity: string)

  const Rules: map<string, VendorRule> := map[
    "VendorA" := VendorRule("RAN", "ts", ["cell", "node"], "desc", "severity", "major"),
    "VendorB" := VendorRule("CORE", "time", ["core_id"], "alarm", "level", "minor"),
    "VendorC" := VendorRule("TRANSPORT", "ts", ["link", "node"], "type", "severity", "minor")
  ]

  /** The event a layout rule extracts from a payload. */
  function ApplyRule(r: VendorRule, vendor: string, p: Payload, now: real): Event
    requires r.nodeKeys != []
  {
    Event(TimeOr(p, r.timeKey, now), vendor, r.domain, FirstTruthy(p, r.nodeKeys),
          Text(p, r.alarmKey), TextOr(p, r.severityKey, r.defaultSeverity), MetricsOf(p))
  }

  /** The domain is fixed by the vendor for the three known vendors; a missing
      severity takes the vendor's default; a missing node field gives no node. */
  lemma KnownVendorDefaults(p: Payload, now: real)
    ensures var e := MapToCanonical(p, now);
      && (VendorOf(p) == "VendorA" ==> e.domain == "RAN" && ("severity" !in p.text ==> e.severity == "major")
                                       && ("cell" !in p.text && "node" !in p.text ==> e.nodeId == None))
      && (VendorOf(p) == "VendorB" ==> e.domain == "CORE" && ("level" !in p.text ==> e.severity == "minor")
                                       && ("core_id" !in p.text ==> e.nodeId == None))
      && (VendorOf(p) == "VendorC" ==> e.domain == "TRANSPORT" && ("severity" !in p.text ==> e.severity == "minor")
                                       && ("link" !in p.text && "node" !in p.text ==> e.nodeId == None))
  {
  }

  /** A payload naming no known vendor and carrying none of the fallback fields
      yields the fallback event. */
  lemma FallbackDefaults(p: Payload, now: real)
    requires VendorOf(p) !in Rules
    requires forall k :: k in p.text ==> k == "vendor"
    requires "ts" !in p.numbers
    ensures var e := MapToCanonical(p, now);
      && e.domain == "UNKNOWN" && e.nodeId == Some("unknown") && e.alarmType == Some("unknown")
      && e.severity == "minor" && e.timestamp == now
  {
  }
}
