/** The analytics rollup (backend/app.py, `get_analytics`): per vendor and per
    domain, the number of incidents whose events involve it, each incident
    counted once; the incident total; and a health band derived from it. */
module Analytics {
  import opened Mapper
  import opened Incidents
  import opened Engine

  /** What an incident is counted under. */
  datatype Facet = ByVendor | ByDomain

  function TagOf(e: Event, f: Facet): string {
    match f
    case ByVendor => e.vendor
    case ByDomain => e.domain
  }

  /** The distinct vendors or domains of a list of events. */
  function Tags(es: seq<Event>, f: Facet): set<string> {
    set e | e in es :: TagOf(e, f)
  }

  lemma TagsSnoc(es: seq<Event>, e: Event, f: Facet)
    ensures Tags(es + [e], f) == Tags(es, f) + {TagOf(e, f)}
  {
    forall t | t in Tags(es + [e], f) ensures t in Tags(es, f) + {TagOf(e, f)} {
      var x :| x in es + [e] && TagOf(x, f) == t;
      if x != e {
        assert x in es;
      }
    }
  }

  /** Every vendor or domain some incident of `incs` involves. */
  function AllTags(incs: seq<Incident>, f: Facet): set<string> {
    if incs == [] then {} else AllTags(incs[..|incs| - 1], f) + Tags(incs[|incs| - 1].events, f)
  }

  /** The number of incidents of `incs` whose events involve `t`. */
  function Tally(incs: seq<Incident>, f: Facet, t: string): (n: nat)
    ensures n <= |incs|
  {
    if incs == [] then 0
    else Tally(incs[..|incs| - 1], f, t) + (if t in Tags(incs[|incs| - 1].events, f) then 1 else 0)
  }

  /** The count table: one entry per vendor or domain involved, holding its tally. */
  function TallyMap(incs: seq<Incident>, f: Facet): map<string, nat> {
    map t | t in AllTags(incs, f) :: Tally(incs, f, t)
  }

  /** A vendor or domain is counted at all exactly when some incident involves it. */
  lemma {:induction false} TallyPositive(incs: seq<Incident>, f: Facet, t: string)
    ensures Tally(incs, f, t) > 0 <==> t in AllTags(incs, f)
    ensures t in AllTags(incs, f) <==> exists i :: 0 <= i < |incs| && t in Tags(incs[i].events, f)
  {
    if incs != [] {
      var front := incs[..|incs| - 1];
      TallyPositive(front, f, t);
      assert forall i :: 0 <= i < |front| ==> front[i] == incs[i];
      if t in AllTags(incs, f) && t !in AllTags(front, f) {
        assert t in Tags(incs[|incs| - 1].events, f);
      }
    }
  }

  /** An incident adds at most one to any count, however many of its events
      share the vendor or domain. */
  lemma OncePerIncident(incs: seq<Incident>, inc: Incident, f: Facet, t: string)
    ensures Tally(incs + [inc], f, t) <= Tally(incs, f, t) + 1
    ensures (exists e :: e in inc.events && TagOf(e, f) == t) ==> Tally(incs + [inc], f, t) == Tally(incs, f, t) + 1
  {
    assert (incs + [inc])[..|incs|] == incs;
  }

  /** Tallies add up over concatenation. */
  lemma {:induction false} TallyAppend(a: seq<Incident>, b: seq<Incident>, f: Facet, t: string)
    ensures Tally(a + b, f, t) == Tally(a, f, t) + Tally(b, f, t)
  {
    if b != [] {
      var front := b[..|b| - 1];
      TallyAppend(a, front, f, t);
      assert (a + b)[..|a + b| - 1] == a + front;
    } else {
      assert a + b == a;
    }
  }

  /** The network health bands. */
  datatype Health = Unknown | Healthy | Warning | Critical

  /** The health of a non-empty incident store by its total. */
  function HealthOf(total: nat): (h: Health)
    ensures h != Unknown
    ensures h == Healthy <==> total < 5
    ensures h == Warning <==> 5 <= total < 15
    ensures h == Critical <==> 15 <= total
  {
    if total < 5 then Healthy else if total < 15 then Warning else Critical
  }

  /** The analytics response. */
  datatype Report = Report(vendorCounts: map<string, nat>, typeCounts: map<string, nat>, total: nat, health: Health)

  /** The rollup over the correlated and the single-domain incidents. With no
      correlated incident the report is empty, whatever the single-domain list holds. */
  function AnalyticsOf(correlated: seq<Incident>, single: seq<Incident>): Report {
    if correlated == [] then Report(map[], map[], 0, Unknown)
    else
      var all := correlated + single;
      Report(TallyMap(all, ByVendor), TallyMap(all, ByDomain), |all|, HealthOf(|all|))
  }

  /** The report's total counts both lists, its band follows the total, and every
      count lies between one and the total. */
  lemma ReportBounds(correlated: seq<Incident>, single: seq<Incident>)
    requires correlated != []
    ensures var r := AnalyticsOf(correlated, single);
      && r.total == |correlated| + |single|
      && r.health == HealthOf(|correlated| + |single|)
      && (forall t :: t in r.vendorCounts ==> 1 <= r.vendorCounts[t] <= r.total)
      && (forall t :: t in r.typeCounts ==> 1 <= r.typeCounts[t] <= r.total)
  {
    var all := correlated + single;
    forall t | t in AllTags(all, ByVendor) ensures Tally(all, ByVendor, t) >= 1 {
      TallyPositive(all, ByVendor, t);
    }
    forall t | t in AllTags(all, ByDomain) ensures Tally(all, ByDomain, t) >= 1 {
      TallyPositive(all, ByDomain, t);
    }
  }

  /** A vendor is in the report exactly when one of the incidents carries an
      event of it, and its count splits into the correlated and the single-domain part. */
  lemma ReportVendorCounts(correlated: seq<Incident>, single: seq<Incident>, v: string)
    requires correlated != []
    ensures var r := AnalyticsOf(correlated, single);
      && (v in r.vendorCounts <==> exists i :: 0 <= i < |correlated + single| && v in Tags((correlated + single)[i].events, ByVendor))
      && (v in r.vendorCounts ==> r.vendorCounts[v] == Tally(correlated, ByVendor, v) + Tally(single, ByVendor, v))
  {
    TallyPositive(correlated + single, ByVendor, v);
    TallyAppend(correlated, single, ByVendor, v);
  }

  /** The distinct vendors and domains of one incident's events. */
  method CollectTags(es: seq<Event>) returns (vendors: set<string>, domains: set<string>)
    ensures vendors == Tags(es, ByVendor) && domains == Tags(es, ByDomain)
  {
    vendors, domains := {}, {};
    for i := 0 to |es|
      invariant vendors == Tags(es[..i], ByVendor) && domains == Tags(es[..i], ByDomain)
    {
      assert es[..i + 1] == es[..i] + [es[i]];
      TagsSnoc(es[..i], es[i], ByVendor);
      TagsSnoc(es[..i], es[i], ByDomain);
      vendors := vendors + {es[i].vendor};
      domains := domains + {es[i].domain};
    }
    assert es[..|es|] == es;
  }

  /** `counts.get(t, 0) + 1` for every `t` of `tags`. */
  method BumpAll(counts: map<string, nat>, tags: set<string>) returns (r: map<string, nat>)
    ensures r.Keys == counts.Keys + tags
    ensures forall t :: t in r ==> r[t] == (if t in counts then counts[t] else 0) + (if t in tags then 1 else 0)
  {
    r := counts;
    var rest := tags;
    while rest != {}
      invariant rest <= tags
      invariant r.Keys == counts.Keys + (tags - rest)
      invariant forall t :: t in r ==> r[t] == (if t in counts then counts[t] else 0) + (if t in tags - rest then 1 else 0)
      decreases rest
    {
      var t :| t in rest;
      r := r[t := (if t in r then r[t] else 0) + 1];
      rest := rest - {t};
    }
  }

  /** The counting loop over the incidents. */
  method CountIncidents(incs: seq<Incident>) returns (vendorCounts: map<string, nat>, typeCounts: map<string, nat>)
    ensures vendorCounts == TallyMap(incs, ByVendor)
    ensures typeCounts == TallyMap(incs, ByDomain)
  {
    vendorCounts, typeCounts := map[], map[];
    for k := 0 to |incs|
      invariant vendorCounts.Keys == AllTags(incs[..k], ByVendor)
      invariant forall t :: t in vendorCounts ==> vendorCounts[t] == Tally(incs[..k], ByVendor, t)
      invariant typeCounts.Keys == AllTags(incs[..k], ByDomain)
      invariant forall t :: t in typeCounts ==> typeCounts[t] == Tally(incs[..k], ByDomain, t)
    {
      assert incs[..k + 1][..k] == incs[..k];
      var vendors, domains := CollectTags(incs[k].events);
      forall t | t !in AllTags(incs[..k], ByVendor) ensures Tally(incs[..k], ByVendor, t) == 0 {
        TallyPositive(incs[..k], ByVendor, t);
      }
      forall t | t !in AllTags(incs[..k], ByDomain) ensures Tally(incs[..k], ByDomain, t) == 0 {
        TallyPositive(incs[..k], ByDomain, t);
      }
      vendorCounts := BumpAll(vendorCounts, vendors);
      typeCounts := BumpAll(typeCounts, domains);
    }
    assert incs[..|incs|] == incs;
  }

  /** The `/analytics` route over the engine's two incident lists. */
  method GetAnalytics(engine: CorrelationEngine) returns (r: Report)
    ensures r == AnalyticsOf(engine.correlated, engine.single)
  {
    if engine.correlated == [] {
      return Report(map[], map[], 0, Unknown);
    }
    var all := engine.correlated + engine.single;
    var vendorCounts, typeCounts := CountIncidents(all);
    var total := |all|;
    var health := if total < 5 then Healthy else if total < 15 then Warning else Critical;
    r := Report(vendorCounts, typeCounts, total, health);
  }
}
