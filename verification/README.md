# Alarm correlation engine, modelled in Dafny

This project models the core of the network-alarm correlation backend in `backend/app.py`.

**Ingesting an event.** Vendor alarm payloads are mapped to canonical events (`map_to_canonical`). Each event is appended to a rolling window. Every append runs a correlation pass (`_process_for_correlation`), which does the following in order:

1. It evicts expired events from the front of the window.
2. It ages out incidents older than two windows and caps the stored lists: 50 correlated incidents and 100 single-domain incidents, newest kept.
3. It groups the window by node and by domain.
4. A node seen in two or more domains becomes a node group holding its newest event per domain. Every event of any other node except "unknown" goes through the single-domain path (`process_single_domain_incident`). Events at node "unknown" are left out of the node grouping and can only join the cross-domain group. That path refreshes a recent incident of the same vendor and node, or opens a new one.
5. When the window spans two or more domains, one cross-domain group is added.
6. Each group with at least two events from at least two domains is scored and labelled. It then replaces any correlated incident under the same key.

**Reading the state.** Three read-only views are modelled: the incident listings with their "normalized count" (`get_incidents`, `get_all_incidents`) and the analytics rollup (`get_analytics`). Two more operations are covered: the window append that `orchestrate` performs, and the keyword intent translator (`translate_intent`).

**Layout.** There is one module per concern:

| Module | What it covers |
|---|---|
| `Mapper` | event mapping |
| `Incidents` | incident records |
| `Store` | list operations on the incident store |
| `Grouping` | node/domain partitions and group keys |
| `Scoring` | gate, confidence and root cause |
| `SingleDomain` | the single-domain path |
| `Engine` | the pass as a function, plus the `CorrelationEngine` class |
| `Analytics` | the analytics rollup |
| `Views` | the two listings |
| `Intent` | the intent translator |

**Pure code** is modelled as datatypes and functions: the mapper, the scoring arithmetic and the intent scores.

**Stateful code.** The window and the two incident lists, which are module globals in the source, are the fields of a `CorrelationEngine` object. Its methods use the source's loops:
- popping the window front;
- the dedup scan that refreshes in place or appends;
- the grouping loops;
- the upsert loop.

Each method is proved equal to a specification function of the old state, such as `Engine.Pass`. The properties are then proved about those functions.

Time is a parameter: `now` is passed to each pass.

## Model

| member | source | states |
|---|---|---|
| Mapper.MapToCanonical | backend/app.py:23-65 | The vendor is the payload's, "unknown" when absent, and metrics default to an empty map. A known vendor's event is exactly what its layout rule in the `Rules` table extracts. An unknown vendor gets the fallback fields. |
| Mapper.FirstTruthy | backend/app.py:31 | `a or b` on payload fields: the first truthy field when there is one, else the last field read. Any result is one of the fields read. |
| Mapper.KnownVendorDefaults | backend/app.py:26-55 | VendorA/B/C fix the domain to RAN/CORE/TRANSPORT. A missing severity gives the vendor's default, and a missing node field gives no node. |
| Mapper.FallbackDefaults | backend/app.py:57-65 | A payload of an unknown vendor with no other fields maps to domain UNKNOWN, node "unknown", alarm "unknown", severity "minor", time now. |
| Store.Recent | backend/app.py:97-98 | The age-out keeps exactly the incidents newer than the cutoff, and never adds a key. |
| Store.RecentConcat | backend/app.py:97-98 | The age-out keeps order and multiplicity: it distributes over concatenation, and keeps a single incident iff it is newer than the cutoff. |
| Store.SortByRecency | backend/app.py:102 | The sort yields a newest-first permutation of its input. |
| Store.InsertAtStamp | backend/app.py:102 | Inserting an incident puts it ahead of every incident already listed with the same timestamp. |
| Store.SortIsStable | backend/app.py:102 | The sort is stable: incidents with equal timestamps keep their relative order. |
| Store.InsertByRecency | backend/app.py:102 | Inserting into a newest-first list keeps it newest-first and adds exactly the one incident. |
| Store.RetainBounds | backend/app.py:96-107 | After age-out and cap, at most `cap` incidents remain, all newer than the cutoff. Below the cap nothing is dropped; above it exactly `cap` remain. |
| Store.RetainKeepsNewest | backend/app.py:100-107 | Kept plus discarded is exactly what survived the age-out, and no discarded incident is newer than a kept one. |
| Store.RetainSubset | backend/app.py:96-107 | Retention keeps only incidents it was given, and no key gains incidents. |
| Store.WithoutKey | backend/app.py:218 | Exactly the incidents with a different `node_id` remain, and other keys' counts are unchanged. |
| Store.WithoutKeyConcat | backend/app.py:218 | The key filter keeps order and multiplicity: it distributes over concatenation, and keeps a single incident iff its key differs. |
| Store.UpsertReplaces | backend/app.py:215-219 | After the upsert exactly one incident carries the key, namely the new one. Other keys keep their incidents in order. |
| Store.UpsertKeepsKeysUnique | backend/app.py:215-219 | The upsert keeps at most one incident per key. |
| Grouping.NodeOrder | backend/app.py:114-118 | The `node_grouped` keys: distinct, never "unknown", covering every other node of the window, and only nodes of the window. |
| Grouping.NodeOrderFirstAppearance | backend/app.py:114-118 | The `node_grouped` keys are in order of first appearance: wherever a later key occurs in the window, every earlier key has occurred before it. |
| Grouping.AtNode | backend/app.py:114-118 | `node_grouped[n]`: window events at node `n`, holding every window event at `n`, and empty iff the node is absent. |
| Grouping.AtNodeConcat | backend/app.py:114-118 | `node_grouped[n]` keeps window order and multiplicity: it distributes over concatenation, and keeps a single event iff it is at `n`. |
| Grouping.DomainOrder | backend/app.py:121-124 | The `domains_grouped` keys: distinct, and exactly the window's domains. |
| Grouping.DomainOrderFirstAppearance | backend/app.py:121-124 | The `domains_grouped` keys are in order of first appearance: wherever a later domain occurs, every earlier domain has occurred before it. |
| Grouping.DomainCount | backend/app.py:132-134 | The number of keys equals the number of distinct domains. |
| Grouping.InDomain | backend/app.py:140 | The events of one domain, containing every event of that domain, and empty iff the domain is absent. |
| Grouping.InDomainConcat | backend/app.py:140 | The domain filter keeps order and multiplicity: it distributes over concatenation, and keeps a single event iff it is of the domain. |
| Grouping.NewestIndex | backend/app.py:143 | The index of the first event with the greatest timestamp. |
| Grouping.MostRecent | backend/app.py:143 | `max(..., key=timestamp)`: a member of the list, no older than any other, and the first such. |
| Grouping.Reps | backend/app.py:139-144 | At most as many representatives as listed domains. Each is the newest event of its domain, and its domain is a listed one. |
| Grouping.RepsOnePerDomain | backend/app.py:139-144 | When every listed domain occurs, there is exactly one representative per listed domain, in listed order. |
| Grouping.RepresentativesShape | backend/app.py:138-144 | A group holds one event per distinct domain of its source events, covers all of them, and each is the newest of its domain. |
| Grouping.CrossKeyIsNotNodeKey | backend/app.py:136-154 | A `cross-domain-N` key never equals a `node-X` key. |
| Grouping.NodeKeyCollision | backend/app.py:136 | Two distinct nodes share a `node-` key iff they are a missing node and the node named "None". |
| Grouping.Put | backend/app.py:137 | `grouped[k] = v` on an insertion-ordered dict: keys stay distinct, `(k, v)` is present, and other entries are kept. |
| Grouping.PutInPlace | backend/app.py:137 | An existing key keeps its position, with only its value replaced. A new key is appended at the end. |
| Grouping.NodeGroups | backend/app.py:129-144 | Node groups have distinct keys, and each is the group of a node spanning at least 2 domains. |
| Grouping.Groups | backend/app.py:129-160 | All candidate groups have distinct keys. |
| Grouping.CrossGroup | backend/app.py:150-160 | With two or more domains in the window, the candidates are the node groups followed by `(cross-domain-N, representatives of the window)`. A cross-domain key is present only then. Every other candidate is a node group. |
| Grouping.GroupsPassGate | backend/app.py:134-167 | Every candidate group has at least 2 events from at least 2 domains. |
| Grouping.NodeGroupOfNode | backend/app.py:130-144 | A node spanning at least 2 domains, whose key no other node shares, has its representatives as its group. A single-domain node has no group. |
| Grouping.UnknownOnlyCrossDomain | backend/app.py:116-160 | Events at node "unknown" appear in no group other than the cross-domain one. |
| Grouping.GroupByNode | backend/app.py:114-118 | The grouping loop builds exactly `NodeOrder` and `AtNode`. |
| Grouping.GroupByDomain | backend/app.py:121-124 | The grouping loop builds exactly `DomainOrder` and `InDomain`. |
| Grouping.NodeRepresentatives | backend/app.py:139-144 | The per-domain loop of a node yields its representatives. |
| Grouping.CrossRepresentatives | backend/app.py:156-160 | The loop over `domains_grouped` yields the window's representatives. |
| Scoring.SeverityFactor | backend/app.py:175 | The mean severity weight lies in [0.8, 1.2]. |
| Scoring.Newest | backend/app.py:176-177 | The greatest timestamp of the group, attained by some event. |
| Scoring.Oldest | backend/app.py:176-177 | The smallest timestamp of the group, attained by some event. |
| Scoring.TemporalProximity | backend/app.py:176-177 | At most 1, with no lower clamp. |
| Scoring.Hundredths | backend/app.py:210 | `round(x, 2)` scaled by 100: within one half of 100x, with ties going to even. |
| Scoring.Round2 | backend/app.py:210 | `round(x, 2)` differs from x by at most 0.005. |
| Scoring.Confidence | backend/app.py:191-210 | The stored confidence never exceeds 0.99. |
| Scoring.Synthesize | backend/app.py:162-214 | An incident is produced iff the group has at least 2 events and at least 2 domains. It carries the key, the group's events and the pass time. |
| Scoring.SynthesizeShape | backend/app.py:180-213 | `node_id` is the key, and the incident is critical iff some event is critical. The confidence is the formula capped at 0.99. The root cause carries the "CRITICAL: " prefix iff critical, followed by the priority label. |
| Scoring.RootCausePriority | backend/app.py:180-185 | Each of the three labels, in both directions: TRANSPORT with RAN or CORE; else RAN with CORE; else generic. |
| Scoring.TwoKnownDomainsAreNamed | backend/app.py:180-185 | Any two of RAN/CORE/TRANSPORT get a specific label, never the generic one. |
| Scoring.CriticalBoost | backend/app.py:196 | Before the cap, a critical event adds exactly 0.3. |
| Scoring.RawReachesCap | backend/app.py:191-196 | With 2 events, 2 domains, severity ≥ 0.8 and proximity ≥ -0.9, the raw score is at least 0.99. |
| Scoring.ProximityFloor | backend/app.py:176-177 | A span of at most 1.9 windows keeps the proximity at or above -0.9. |
| Scoring.ConfidenceSaturates | backend/app.py:191-210 | Every gated group spanning at most 1.9 windows scores exactly 0.99, critical or not. |
| Scoring.ConfidenceCanBeNegative | backend/app.py:176-196 | Two gated events 3000 s apart in a 30 s window score below 0. |
| Scoring.StalePairScoresNegative | backend/app.py:176-196 | Any two non-critical events of different domains lying at least 100 windows apart score below 0, whatever their severities. |
| SingleDomain.FirstDuplicate | backend/app.py:490-495 | Returns the first incident of the same vendor and node newer than `ts - 60`, and None iff there is none. |
| SingleDomain.Refreshed | backend/app.py:497-499 | A refresh replaces the events with `[event]` and sets the timestamp. The id, key, root cause, confidence and critical flag are unchanged. |
| SingleDomain.NewSingle | backend/app.py:502-529 | A new incident keeps the event's vendor, domain and node. Confidence is 0.85 if critical, else 0.6. The root cause is "<domain> issue: <alarm>", prefixed iff critical. |
| SingleDomain.SingleStep | backend/app.py:490-532 | With a duplicate, only the first duplicate changes, refreshed, and the length is kept. Otherwise the new incident is appended. |
| SingleDomain.StepRecords | backend/app.py:490-532 | After a step, some incident of the event's vendor and node holds exactly that event and its time. |
| SingleDomain.SecondEventAppendsNothing | backend/app.py:490-500 | A second event of the same vendor and node within 60 s does not grow the list. |
| SingleDomain.StepKeepsSingleDomain | backend/app.py:517-532 | The list stays single-domain. |
| SingleDomain.SingleAfter | backend/app.py:147-148 | Routing a node's events adds at most one incident per event. |
| SingleDomain.AfterRecordsLast | backend/app.py:147-148 | After routing a node's events, the last event is on record. |
| SingleDomain.AfterKeepsSingleDomain | backend/app.py:147-148 | Routing keeps the list single-domain. |
| SingleDomain.RouteSingles | backend/app.py:130-148 | Routing all nodes never shrinks the list. |
| SingleDomain.RouteKeepsSingleDomain | backend/app.py:130-148 | Routing all nodes keeps the list single-domain. |
| SingleDomain.RouteSkipsMultiDomain | backend/app.py:134-148 | A node spanning at least 2 domains sends nothing to the single-domain path. |
| SingleDomain.RouteGrowth | backend/app.py:145-148 | Routing grows the list by at most the number of routed events. |
| Engine.Evict | backend/app.py:92-93 | Eviction removes a prefix of expired events. The new front is not expired. |
| Engine.EvictKeepsLateStaleEvent | backend/app.py:92-93 | An expired event behind a fresh one survives eviction. |
| Engine.Correlate | backend/app.py:162-220 | The upsert loop creates at most one incident per group. |
| Engine.Step | backend/app.py:95-220 | The pass after grouping leaves the given window in place. |
| Engine.Pass | backend/app.py:77-223 | The pass's window is the evicted window. |
| Engine.RetainKeepsKinds | backend/app.py:95-107 | Retention keeps each list's kind and keeps keys unique. |
| Engine.CorrelateKeepsValid | backend/app.py:215-219 | The upsert loop keeps one correlated incident per key, all correlated. |
| Engine.StepKeepsValid | backend/app.py:95-220 | The state invariant survives the rest of the pass, for any window and groups. |
| Engine.PassKeepsValid | backend/app.py:77-223 | A pass keeps the invariant: unique correlated keys, each list of its own kind. |
| Engine.CorrelateSources | backend/app.py:205-220 | Created incidents are stamped now. Kept incidents were already stored. |
| Engine.StepCorrelatedFresh | backend/app.py:96-219 | After the upserts every correlated incident is newer than the age-out cutoff. |
| Engine.PassCorrelatedFresh | backend/app.py:96-219 | After a pass every correlated incident is younger than two windows. |
| Engine.CorrelateGrowth | backend/app.py:215-220 | The upserts grow the list by at most one per group. |
| Engine.WithoutKeyShrinks | backend/app.py:218 | Filtering by key never grows the list. |
| Engine.PassCorrelatedBound | backend/app.py:100-219 | After a pass at most 50 plus one per candidate group correlated incidents remain. |
| Engine.CorrelateCreatesOnePerGroup | backend/app.py:162-220 | When all groups pass the gate, one incident per group is created, in order, with its key and events. |
| Engine.UpsertKeepsOtherKeys | backend/app.py:218-219 | An incident under another key survives an upsert. |
| Engine.CorrelateStoresGroup | backend/app.py:162-219 | With distinct keys, every gated group's incident is in the list at the end. |
| Engine.EarlierGroup | backend/app.py:163 | A group other than the last comes earlier in the dict, under a different key. |
| Engine.NodeGroupInGroups | backend/app.py:150-155 | Node groups survive the addition of the cross-domain group. |
| Engine.PassBuildsNodeIncident | backend/app.py:128-219 | After a pass, a node spanning at least 2 domains with an unshared key has a correlated incident under `node-<id>` holding its newest event per domain. |
| Engine.PassBuildsCrossIncident | backend/app.py:150-219 | After a pass whose evicted window spans at least 2 domains, the correlated list holds an incident under `cross-domain-N`, N the truncated clock modulo 100, holding the newest event of each domain. |
| Engine.OrchestrationEvent | backend/app.py:412-420 | The logged event is VISION/ORCHESTRATOR, severity "info", at the action's target or "orchestrator", stamped now, with no metrics. |
| Engine.CorrelationEngine.constructor | backend/app.py:15-20 | The engine starts with an empty window and empty lists, and the given window length. |
| Engine.CorrelationEngine.Normalize | backend/app.py:67-75 | The mapped event is appended, then one pass runs. The new state is `Pass` of the old one with the event appended, and the invariant is kept. |
| Engine.CorrelationEngine.LogOrchestration | backend/app.py:412-420 | Exactly the orchestration event is appended to the window, and the engine invariant is kept. |
| Engine.CorrelationEngine.EvictExpired | backend/app.py:92-93 | The popping loop leaves `Evict` of the old window. |
| Engine.CorrelationEngine.AgeOut | backend/app.py:96-107 | Both lists become `Retain` of themselves, with caps 50 and 100. |
| Engine.CorrelationEngine.ProcessSingleDomainIncident | backend/app.py:476-532 | The scan with early return leaves `SingleStep` of the old list. |
| Engine.CorrelationEngine.RouteNodeEvents | backend/app.py:147-148 | The single-domain path for each of a node's events in turn. |
| Engine.CorrelationEngine.CollectNodeGroups | backend/app.py:129-148 | The node loop yields `NodeGroups` and routes exactly the single-domain nodes. |
| Engine.CorrelationEngine.UpsertGroups | backend/app.py:162-220 | The gate-and-upsert loop yields `Correlate` of the list and the groups. |
| Engine.CorrelationEngine.ProcessForCorrelation | backend/app.py:77-223 | The whole pass: the new state and the created incidents are `Pass` of the old state, and the invariant is kept. |
| Analytics.Tally | backend/app.py:448-463 | An incident count never exceeds the number of incidents. |
| Analytics.TallyPositive | backend/app.py:448-463 | A vendor or domain is counted iff some incident has an event of it. |
| Analytics.OncePerIncident | backend/app.py:459-463 | Each incident adds at most 1 to a count, and exactly 1 when one of its events has the vendor or domain. |
| Analytics.TallyAppend | backend/app.py:445-463 | Counts over the two lists add up. |
| Analytics.HealthOf | backend/app.py:467 | Healthy iff below 5, Warning iff 5 to 14, Critical iff at least 15. Never Unknown. |
| Analytics.ReportBounds | backend/app.py:441-474 | The total is the sum of both list lengths, and the band follows the total. Every reported count is between 1 and the total. |
| Analytics.ReportVendorCounts | backend/app.py:445-463 | A vendor is reported iff some incident has an event of it. Its count is its correlated count plus its single-domain count. |
| Analytics.CollectTags | backend/app.py:450-457 | The inner loop yields exactly the incident's vendor set and domain set. |
| Analytics.BumpAll | backend/app.py:460-463 | `counts.get(t, 0) + 1` for each tag of the set: new keys are the tags, and each tag's count goes up by one. |
| Analytics.CountIncidents | backend/app.py:448-463 | The loop yields exactly the tally maps of the incident list. |
| Analytics.GetAnalytics | backend/app.py:423-474 | The route returns `AnalyticsOf` the engine's lists. It is empty with health Unknown when there is no correlated incident. |
| Views.Max3 | backend/app.py:239 | `max` of three counts: at least each, and equal to one of them. |
| Views.EventKeysMembers | backend/app.py:231-236 | An event identity is collected iff some incident has an event with it. |
| Views.EventKeysPermutation | backend/app.py:228-236 | Collecting from the sorted list gives the same identities as collecting from the stored list. |
| Views.KeysOfBound | backend/app.py:233-236 | A list of events has at most as many identities as events. |
| Views.EventKeysBound | backend/app.py:231-236 | Distinct supporting events are at most all supporting events. |
| Views.IncidentsListing | backend/app.py:225-245 | The listing is a newest-first permutation of the correlated list. The normalized count is at least the window size, the distinct events and the incident count. It is at most the window size plus the supporting events, counted with repeats, plus the incident count. |
| Views.AllIncidentsListing | backend/app.py:247-271 | The combined listing is a newest-first permutation of both lists. The counts add up, and the normalized count is at least the total. |
| Views.CollectEventKeys | backend/app.py:231-236 | The nested loop yields exactly the set of event identities. |
| Views.GetIncidents | backend/app.py:225-245 | The route returns `IncidentsOf` the engine state. |
| Views.GetAllIncidents | backend/app.py:247-271 | The route returns `AllIncidentsOf` the engine state. |
| Intent.ScoreBounds | backend/app.py:287-314 | In tenths: create_slice and reroute_traffic score at most 10, scale_service at most 8, and unknown exactly 1. Each intent scores iff its trigger words occur, and then at least 4, 5 or 3. |
| Intent.Best | backend/app.py:317 | The chosen intent has the highest score, and every intent listed earlier scores strictly less: the first maximum. |
| Intent.UnknownIffNoTrigger | backend/app.py:287-318 | The intent is unknown iff none of the trigger words occur. |
| Intent.FullSliceRequestWins | backend/app.py:295-318 | "latency", "low" and "slice" together always give create_slice. |
| Intent.Words | backend/app.py:359 | `str.split()`: every word is non-empty and whitespace-free. |
| Intent.SplitJoin | backend/app.py:359 | Splitting words joined by single spaces gives the words back. |
| Intent.SliceAction | backend/app.py:326-352 | The slice type fixes the latency target: ultra-low 5 ms, low 10 ms, default or high-bandwidth 50 ms. |
| Intent.LowLatencySlice | backend/app.py:330-335 | "low" and "latency" with no gaming cue give the 10 ms low-latency slice. |
| Intent.FirstTarget | backend/app.py:359-362 | The first word starting with node/cell/link, and None iff there is none. |
| Intent.ParseInt | backend/app.py:381-383 | `int(word)` succeeds iff the word is one or more digits, optionally after a single sign. An unsigned digit string reads as its decimal value. |
| Intent.ParseNatText | backend/app.py:381 | `int` reads back `str(n)`, also with a "-" or "+" sign. |
| Intent.AmountDefault | backend/app.py:376-383 | With no number before a "%" word, the amount is 50. |
| Intent.AmountIsLastTaken | backend/app.py:376-383 | The last number before a "%" word wins. |
| Intent.ScaleWithoutScaleWordIsUp | backend/app.py:309-374 | A scale request that lacks the word "scale" is a scale-up. |
| Intent.TranslationMatchesIntent | backend/app.py:317-397 | The action is the winning intent's. The stated confidence is the winning score and at least 0.3. |
| Intent.FindAvoidNode | backend/app.py:358-362 | The loop with `break` yields the first target word, else "Node-1". |
| Intent.FindAmount | backend/app.py:376-383 | The loop yields the last parsed number before a "%" word, else 50. |
| Intent.TranslateIntent | backend/app.py:276-397 | The route returns `TranslationOf` the text. |

## Where the code and the design description differ

The model follows the code in each case below.

- **Confidence range.** The design promises a correlated confidence in [0, 1]. The code does not clamp the temporal proximity, and eviction stops at the first fresh event, so a stale event can survive behind it. `Scoring.StalePairScoresNegative` shows that every gated pair lying 100 windows apart scores below 0 (`Scoring.ConfidenceCanBeNegative` is one such pair), and `Engine.EvictKeepsLateStaleEvent` shows how such an event stays in the window.
- **Critical boost.** The design promises that a critical event raises the confidence by at least 0.3. The boost is added before the 0.99 cap (`Scoring.CriticalBoost`). For every gated group spanning at most 1.9 windows the cap absorbs it entirely (`Scoring.ConfidenceSaturates`).
- **Caps.** The caps of 50 and 100 apply before the pass adds incidents, so the caps do not bound the lists after a pass. The bound proved for the correlated list is 50 plus one per candidate group (`Engine.PassCorrelatedBound`). The single-domain list can grow by one per routed event (`SingleDomain.RouteGrowth`).
- **Critical severity.** The design calls a severity critical when it is "critical". The code lower-cases first, so "CRITICAL" and "Critical" count too (`Incidents.IsCritical`).
- **Node defaults.** The design says missing fields degrade to node "unknown". For VendorA/B/C a missing node field gives no node, which prints as "None" in keys and ids. Such events are grouped under that node, not dropped (`Mapper.KnownVendorDefaults`, `Grouping.NodeKeyCollision`). VendorB reads its node only from `core_id`. A VendorB payload that carries `node` therefore has no node, and forms no node group with a VendorA event at that node.
- **Empty analytics.** The analytics rollup is empty, with health "Unknown", whenever there is no correlated incident, even when single-domain incidents exist (`Analytics.GetAnalytics`).

## Left out

- HTTP routing (FastAPI, uvicorn), the `requests` import, the UI and the simulators are not part of this model. The orchestrate response text and the intent explanation strings are also left out; the explanation is kept as the intent and its confidence.
- Clock reads: `time.time()` is read several times per pass in the source. The model reads it once, as the `now` parameter, which also stamps incident ids and the cross-domain key. In the source each correlated incident takes its own reading, so incidents created later in one pass carry later timestamps. The source's listing therefore shows the last-created incident of a pass first, and its cap keeps the last-created ones at the cap boundary. In the model all incidents of a pass carry `now` and the stable sort keeps stored order. The listing therefore shows them in creation order, and the cap keeps the earliest-created ones.
- JSON values of the wrong type and explicit nulls in payloads are not modelled: a payload has text fields, numeric fields and optional metrics.
- Binary floating point is not modelled: timestamps and scores are exact reals, and `round` is round-half-to-even on them. Intent scores are exact tenths; for every combination of trigger words they select the same intent as the float sums.
- Text rendering is kept structured rather than rendered:
  - incident ids and explanation texts are datatypes;
  - the correlated explanation prints Python's `list(set)`, whose order Python does not fix, so the model keeps the set;
  - event identities in the listings are (vendor, node, timestamp) triples, so distinct triples that would render to the same string are not merged, and an integer timestamp and its float equal are not distinguished.
- Node-group domain order: the source iterates a `set` of domains, whose order is unspecified. The model takes the domains in order of first appearance in the window.
- `str.lower()` and `str.split()` are modelled on ASCII only: non-ASCII case mappings and non-ASCII whitespace are not modelled. `int()` does not accept underscores or non-ASCII digits in the model.
- Thread safety and concurrent requests: the source declares a `threading` import but uses no lock, and the model runs one request at a time.
- A correlation window of zero or less (`CORRELATION_WINDOW_SECONDS` from the environment) is excluded by the engine's invariant. With a window of zero the source divides by zero. A negative window runs in the source and is not modelled.
- Engine.CorrelationEngine.ProcessForCorrelation: the incident-list entries are whole values. Python mutates the refreshed dict in place, which would also be visible through any other reference to it; the model has no aliasing.
