/** The incident synthesizer: the gate, the confidence formula, the root-cause
    label and the critical flag of a correlated incident (backend/app.py,
    `_process_for_correlation`, lines 162-214). */
module Scoring {
  import opened Common
  import opened Mapper
  import opened Incidents
  import opened Grouping

  const ConfidenceBase: real := 0.7
  const ConfidenceCap: real := 0.99

  /** An event's contribution to the severity factor. */
  function SeverityWeight(e: Event): real {
    if e.severity == "major" then 1.2 else 0.8
  }

  function SeverityTotal(es: seq<Event>): (r: real)
    ensures 0.8 * |es| as real <= r <= 1.2 * |es| as real
  {
    if es == [] then 0.0 else SeverityWeight(es[0]) + SeverityTotal(es[1..])
  }

  /** The mean severity weight of a group. */
  function SeverityFactor(es: seq<Event>): (r: real)
    requires es != []
    ensures 0.8 <= r <= 1.2
  {
    var n := |es| as real;
    var t := SeverityTotal(es);
    assert t / n * n == t;
    t / n
  }

  /** The greatest timestamp of a group. */
  function Newest(es: seq<Event>): (r: real)
    requires es != []
    ensures exists i :: 0 <= i < |es| && es[i].timestamp == r
    ensures forall i :: 0 <= i < |es| ==> es[i].timestamp <= r
  {
    if |es| == 1 then es[0].timestamp
    else
      var m := Newest(es[1..]);
      assert forall i :: 1 <= i < |es| ==> es[i] == es[1..][i - 1];
      if es[0].timestamp >= m then es[0].timestamp else m
  }

  /** The smallest timestamp of a group. */
  function Oldest(es: seq<Event>): (r: real)
    requires es != []
    ensures exists i :: 0 <= i < |es| && es[i].timestamp == r
    ensures forall i :: 0 <= i < |es| ==> r <= es[i].timestamp
  {
    if |es| == 1 then es[0].timestamp
    else
      var m := Oldest(es[1..]);
      assert forall i :: 1 <= i < |es| ==> es[i] == es[1..][i - 1];
      if es[0].timestamp <= m then es[0].timestamp else m
  }

  /** `1 - (max ts - min ts) / window`, not clamped. */
  function TemporalProximity(es: seq<Event>, window: real): (r: real)
    requires es != [] && window > 0.0
    ensures r <= 1.0
  {
    1.0 - (Newest(es) - Oldest(es)) / window
  }

  /** Some event of the group is critical. */
  predicate HasCritical(es: seq<Event>) {
    exists e :: e in es && IsCritical(e)
  }

  /** The uncapped score from its five features. */
  function RawScore(count: nat, domains: nat, severity: real, proximity: real, critical: bool): real {
    ConfidenceBase + 0.1 * count as real + 0.05 * domains as real + 0.1 * severity
      + 0.1 * proximity + (if critical then 0.3 else 0.0)
  }

  /** Python's `round(x, 2)` scaled by 100: the nearest integer to `100 x`, ties to even. */
  function Hundredths(x: real): (n: int)
    ensures n as real - 0.5 <= 100.0 * x <= n as real + 0.5
    ensures 100.0 * x - (100.0 * x).Floor as real == 0.5 ==> n % 2 == 0
  {
    var y := 100.0 * x;
    var f := y.Floor;
    var frac := y - f as real;
    if frac < 0.5 then f
    else if frac > 0.5 then f + 1
    else if f % 2 == 0 then f
    else f + 1
  }

  /** `round(x, 2)` over exact reals. */
  function Round2(x: real): (r: real)
    ensures -0.005 <= r - x <= 0.005
  {
    Hundredths(x) as real / 100.0
  }

  /** The confidence of a group: the capped score, rounded to hundredths. */
  function Confidence(es: seq<Event>, window: real): (r: real)
    requires es != [] && window > 0.0
    ensures r <= ConfidenceCap
  {
    var raw := RawScore(|es|, |DomainsOf(es)|, SeverityFactor(es), TemporalProximity(es, window), HasCritical(es));
    var capped := if ConfidenceCap < raw then ConfidenceCap else raw;
    var r := Round2(if capped < ConfidenceCap then capped else ConfidenceCap);
    assert Hundredths(if capped < ConfidenceCap then capped else ConfidenceCap) <= 99;
    r
  }

  /** The root-cause label by domain priority. */
  function RootCauseLabel(ds: set<string>): string {
    if "TRANSPORT" in ds && ("RAN" in ds || "CORE" in ds) then "Cross-domain congestion in transport layer"
    else if "RAN" in ds && "CORE" in ds then "End-to-end connectivity issue"
    else "Domain-specific degradation"
  }

  /** The incident a candidate group becomes, or None when it fails the gate of at
      least two events from at least two domains. */
  function Synthesize(key: string, es: seq<Event>, now: real, window: real): (r: Option<Incident>)
    requires window > 0.0
    ensures r.Some? <==> |es| >= 2 && |DomainsOf(es)| >= 2
    ensures r.Some? ==> r.value.origin == Correlated(key) && r.value.events == es && r.value.timestamp == now
  {
    if |es| >= 2 && |DomainsOf(es)| >= 2 then
      Some(Scored(key, es, now, window))
    else None
  }

  /** The scored incident of a group that passed the gate. */
  function Scored(key: string, es: seq<Event>, now: real, window: real): (inc: Incident)
    requires window > 0.0 && es != []
    ensures inc.origin == Correlated(key) && inc.events == es && inc.timestamp == now
  {
    var critical := HasCritical(es);
    var title := RootCauseLabel(DomainsOf(es));
    Incident(
      CorrelatedId(key, Trunc(now)),
      Correlated(key),
      if critical then CriticalPrefix + title else title,
      es,
      Confidence(es, window),
      CorrelatedNote(critical, |es|, DomainsOf(es)),
      now,
      critical)
  }

  /** A correlated incident carries its group's key, is flagged critical exactly
      when the group holds a critical event, scores at most 0.99, and its root
      cause is the priority label, prefixed "CRITICAL: " exactly when critical. */
  lemma SynthesizeShape(key: string, es: seq<Event>, now: real, window: real)
    requires window > 0.0 && |es| >= 2 && |DomainsOf(es)| >= 2
    ensures var inc := Synthesize(key, es, now, window).value;
      && NodeField(inc) == Some(key)
      && inc.isCritical == HasCritical(es)
      && inc.confidence == Confidence(es, window) <= ConfidenceCap
      && (IsPrefix(CriticalPrefix, inc.rootCause) <==> HasCritical(es))
      && inc.rootCause[if HasCritical(es) then |CriticalPrefix| else 0..] == RootCauseLabel(DomainsOf(es))
  {
    var title := RootCauseLabel(DomainsOf(es));
    assert !IsPrefix(CriticalPrefix, title) by {
      assert title[0] != 'C' || title[1] != 'R';
    }
  }

  /** The root-cause priority, case by case, in both directions. */
  lemma RootCausePriority(ds: set<string>)
    ensures (RootCauseLabel(ds) == "Cross-domain congestion in transport layer")
              <==> ("TRANSPORT" in ds && ("RAN" in ds || "CORE" in ds))
    ensures (RootCauseLabel(ds) == "End-to-end connectivity issue")
              <==> ("TRANSPORT" !in ds && "RAN" in ds && "CORE" in ds)
    ensures (RootCauseLabel(ds) == "Domain-specific degradation")
              <==> (!("RAN" in ds && "CORE" in ds) && !("TRANSPORT" in ds && ("RAN" in ds || "CORE" in ds)))
  {
  }

  /** A group drawn from at least two of the three vendor domains never gets the
      generic label. */
  lemma TwoKnownDomainsAreNamed(ds: set<string>)
    requires ds <= {"RAN", "CORE", "TRANSPORT"} && |ds| >= 2
    ensures RootCauseLabel(ds) != "Domain-specific degradation"
  {
    KnownDomainsCard(ds);
  }

  function Indicator(b: bool): nat { if b then 1 else 0 }

  /** A set of vendor domains has one element per domain it holds. */
  lemma KnownDomainsCard(ds: set<string>)
    requires ds <= {"RAN", "CORE", "TRANSPORT"}
    ensures |ds| == Indicator("RAN" in ds) + Indicator("CORE" in ds) + Indicator("TRANSPORT" in ds)
  {
    var noRan := ds - {"RAN"};
    var noCore := noRan - {"CORE"};
    var rest := noCore - {"TRANSPORT"};
    RemoveOne(ds, "RAN");
    RemoveOne(noRan, "CORE");
    RemoveOne(noCore, "TRANSPORT");
    assert rest == {};
  }

  lemma RemoveOne(s: set<string>, x: string)
    ensures |s| == |s - {x}| + Indicator(x in s)
  {
    if x in s {
      assert s == (s - {x}) + {x};
    } else {
      assert s == s - {x};
    }
  }

  /** The critical boost adds exactly 0.3 before the cap. */
  lemma CriticalBoost(count: nat, domains: nat, severity: real, proximity: real)
    ensures RawScore(count, domains, severity, proximity, true) == RawScore(count, domains, severity, proximity, false) + 0.3
  {
  }

  /** Two events from two domains, a severity factor of at least 0.8 and a
      proximity of at least -0.9 already reach the cap. */
  lemma RawReachesCap(count: nat, domains: nat, severity: real, proximity: real, critical: bool)
    requires count >= 2 && domains >= 2 && severity >= 0.8 && proximity >= -0.9
    ensures RawScore(count, domains, severity, proximity, critical) >= ConfidenceCap
  {
  }

  /** A span of at most 1.9 windows keeps the proximity at or above -0.9. */
  lemma ProximityFloor(es: seq<Event>, window: real)
    requires es != [] && window > 0.0
    requires Newest(es) - Oldest(es) <= 1.9 * window
    ensures TemporalProximity(es, window) >= -0.9
  {
    QuotientBound(Newest(es) - Oldest(es), window, 1.9);
  }

  lemma QuotientBound(a: real, w: real, c: real)
    requires w > 0.0 && a <= c * w
    ensures a / w <= c
  {
    assert a / w * w == a;
    assert (c - a / w) * w >= 0.0;
  }

  /** Any group that passes the gate and whose events span at most 1.9 windows
      scores exactly the cap, 0.99, with or without a critical event. */
  lemma ConfidenceSaturates(es: seq<Event>, window: real)
    requires window > 0.0
    requires |es| >= 2 && |DomainsOf(es)| >= 2
    requires Newest(es) - Oldest(es) <= 1.9 * window
    ensures Confidence(es, window) == ConfidenceCap
  {
    ProximityFloor(es, window);
    RawReachesCap(|es|, |DomainsOf(es)|, SeverityFactor(es), TemporalProximity(es, window), HasCritical(es));
    assert Hundredths(ConfidenceCap) == 99;
  }

  /** The design's lower bound of 0 does not hold for the code: a stale event that
      survives eviction behind a fresh one drives the unclamped proximity far
      below zero. */
  lemma ConfidenceCanBeNegative()
    ensures var es := [
        Event(3000.0, "VendorA", "RAN", Some("Cell-1"), None, "minor", map[]),
        Event(0.0, "VendorB", "CORE", Some("Cell-1"), None, "minor", map[])];
      Confidence(es, 30.0) < 0.0
  {
    var es := [
        Event(3000.0, "VendorA", "RAN", Some("Cell-1"), None, "minor", map[]),
        Event(0.0, "VendorB", "CORE", Some("Cell-1"), None, "minor", map[])];
    assert !IsCritical(es[0]) && !IsCritical(es[1]) by {
      assert Lower("minor") == "minor";
    }
    StalePairScoresNegative(es[0], es[1], 30.0);
  }

  /** Any two non-critical events of different domains lying at least a hundred
      windows apart score below zero, whatever their severities. */
  lemma StalePairScoresNegative(a: Event, b: Event, window: real)
    requires window > 0.0 && a.domain != b.domain
    requires !IsCritical(a) && !IsCritical(b)
    requires b.timestamp + 100.0 * window <= a.timestamp
    ensures Confidence([a, b], window) < 0.0
  {
    var es := [a, b];
    assert DomainsOf(es) == {a.domain, b.domain};
    assert !HasCritical(es) by {
      forall e | e in es ensures !IsCritical(e) {
        assert e == a || e == b;
      }
    }
    StaleProximity(es, window);
    assert |DomainsOf(es)| == 2;
    FarApartScoresNegative(es, window);
  }

  /** Events a hundred windows apart put the proximity at -99 or below. */
  lemma StaleProximity(es: seq<Event>, window: real)
    requires window > 0.0 && |es| == 2 && es[1].timestamp + 100.0 * window <= es[0].timestamp
    ensures TemporalProximity(es, window) <= -99.0
  {
    var span := Newest(es) - Oldest(es);
    assert span >= 100.0 * window by {
      assert es[0].timestamp <= Newest(es) && Oldest(es) <= es[1].timestamp;
    }
    assert span / window >= 100.0 by {
      assert span / window * window == span;
    }
  }

  /** A pair of two domains, without a critical event, whose proximity is at most -99. */
  lemma FarApartScoresNegative(es: seq<Event>, window: real)
    requires window > 0.0 && |es| == 2 && |DomainsOf(es)| == 2 && !HasCritical(es)
    requires TemporalProximity(es, window) <= -99.0
    ensures Confidence(es, window) < 0.0
  {
    var raw := RawScore(2, 2, SeverityFactor(es), TemporalProximity(es, window), false);
    assert raw <= -8.78;
  }
}
