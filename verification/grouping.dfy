/** The node/domain grouping of the correlation pass (backend/app.py,
    `_process_for_correlation`, lines 113-160): partitions of the window by node
    and by domain, the most recent event per domain, and the group keys. */
module Grouping {
  import opened Common
  import opened Mapper

  /** The node every unattributed fallback event carries; it is never grouped by node. */
  const UnknownNode: Option<string> := Some("unknown")

  /** The distinct nodes of a window other than "unknown", in order of first
      appearance: the keys of `node_grouped` in insertion order. */
  function NodeOrder(w: seq<Event>): (r: seq<Option<string>>)
    ensures Distinct(r)
    ensures UnknownNode !in r
    ensures forall i :: 0 <= i < |w| && w[i].nodeId != UnknownNode ==> w[i].nodeId in r
    ensures forall n :: n in r ==> exists i :: 0 <= i < |w| && w[i].nodeId == n
  {
    if w == [] then []
    else
      var prev := NodeOrder(w[..|w| - 1]);
      var n := w[|w| - 1].nodeId;
      assert forall i :: 0 <= i < |w| - 1 ==> w[..|w| - 1][i] == w[i];
      if n == UnknownNode || n in prev then prev else prev + [n]
  }

  /** The events of the window at node `n`, in window order: `node_grouped[n]`. */
  function AtNode(w: seq<Event>, n: Option<string>): (r: seq<Event>)
    ensures forall i :: 0 <= i < |r| ==> r[i] in w && r[i].nodeId == n
    ensures forall e :: e in w && e.nodeId == n ==> e in r
    ensures r == [] <==> forall i :: 0 <= i < |w| ==> w[i].nodeId != n
  {
    if w == [] then []
    else
      var prev := AtNode(w[..|w| - 1], n);
      assert w == w[..|w| - 1] + [w[|w| - 1]];
      assert forall i :: 0 <= i < |w| - 1 ==> w[..|w| - 1][i] == w[i];
      if w[|w| - 1].nodeId == n then prev + [w[|w| - 1]] else prev
  }

  /** `node_grouped[n]` keeps the window's order and multiplicities: the events of
      a concatenation are those of each part, and a single event is kept exactly
      when it is at `n`. */
  lemma {:induction false} AtNodeConcat(a: seq<Event>, b: seq<Event>, n: Option<string>)
    ensures AtNode(a + b, n) == AtNode(a, n) + AtNode(b, n)
    ensures forall e :: AtNode([e], n) == if e.nodeId == n then [e] else []
  {
    forall e ensures AtNode([e], n) == if e.nodeId == n then [e] else [] {
      AtNodeLast([e], n);
      assert [e][..0] == [];
    }
    if b == [] {
      assert a + b == a;
    } else {
      var front, last := b[..|b| - 1], b[|b| - 1];
      var tail := if last.nodeId == n then [last] else [];
      assert (a + b)[..|a + b| - 1] == a + front && (a + b)[|a + b| - 1] == last;
      AtNodeLast(a + b, n);
      AtNodeLast(b, n);
      AtNodeConcat(a, front, n);
      var fa, ff := AtNode(a, n), AtNode(front, n);
      calc {
        AtNode(a + b, n);
        (fa + ff) + tail;
        { ConcatAssoc(fa, ff, tail); }
        fa + (ff + tail);
        fa + AtNode(b, n);
      }
    }
  }

  lemma AtNodeLast(w: seq<Event>, n: Option<string>)
    requires w != []
    ensures AtNode(w, n) == AtNode(w[..|w| - 1], n) + (if w[|w| - 1].nodeId == n then [w[|w| - 1]] else [])
  {
  }

  /** Event `k` of `w` is preceded by an event at node `n`. */
  ghost predicate NodeSeenBefore(w: seq<Event>, n: Option<string>, k: int) {
    exists j :: 0 <= j < k && j < |w| && w[j].nodeId == n
  }

  /** `r` lists nodes in order of first appearance in `w`: wherever a later node
      of `r` occurs in `w`, every earlier node of `r` has already occurred. */
  ghost predicate NodesInFirstOrder(w: seq<Event>, r: seq<Option<string>>) {
    forall i, j, k :: 0 <= i < j < |r| && 0 <= k < |w| && w[k].nodeId == r[j] ==> NodeSeenBefore(w, r[i], k)
  }

  /** The keys of `node_grouped` come in order of first appearance. */
  lemma {:induction false} NodeOrderFirstAppearance(w: seq<Event>)
    ensures NodesInFirstOrder(w, NodeOrder(w))
  {
    if w != [] {
      NodeOrderFirstAppearance(w[..|w| - 1]);
      var r := NodeOrder(w);
      forall i, j, k | 0 <= i < j < |r| && 0 <= k < |w| && w[k].nodeId == r[j]
        ensures NodeSeenBefore(w, r[i], k)
      {
        NodeOrderStepAt(w, i, j, k);
      }
    }
  }

  lemma NodeOrderStepAt(w: seq<Event>, i: nat, j: nat, k: nat)
    requires w != [] && NodesInFirstOrder(w[..|w| - 1], NodeOrder(w[..|w| - 1]))
    requires i < j < |NodeOrder(w)| && k < |w| && w[k].nodeId == NodeOrder(w)[j]
    ensures NodeSeenBefore(w, NodeOrder(w)[i], k)
  {
    var p := w[..|w| - 1];
    var rp := NodeOrder(p);
    var r := NodeOrder(w);
    assert r[i] == rp[i];
    if j < |rp| {
      NodeStepOld(w, i, j, k);
    } else {
      NodeStepNew(w, i, k);
    }
  }

  /** Event `k` is at a node already listed before the last event. */
  lemma NodeStepOld(w: seq<Event>, i: nat, j: nat, k: nat)
    requires w != [] && NodesInFirstOrder(w[..|w| - 1], NodeOrder(w[..|w| - 1]))
    requires i < j < |NodeOrder(w[..|w| - 1])| && k < |w| && w[k].nodeId == NodeOrder(w[..|w| - 1])[j]
    ensures NodeSeenBefore(w, NodeOrder(w[..|w| - 1])[i], k)
  {
    var p := w[..|w| - 1];
    var rp := NodeOrder(p);
    var k0 := k;
    if k == |p| {
      k0 := NodeIndex(p, rp[j]);
    }
    assert p[k0] == w[k0];
    assert NodeSeenBefore(p, rp[i], k0);
    var m :| 0 <= m < k0 && m < |p| && p[m].nodeId == rp[i];
    assert w[m] == p[m];
  }

  /** Event `k` is at the node the last event adds. */
  lemma NodeStepNew(w: seq<Event>, i: nat, k: nat)
    requires w != [] && i < |NodeOrder(w[..|w| - 1])| && k < |w|
    requires w[|w| - 1].nodeId !in NodeOrder(w[..|w| - 1]) && w[|w| - 1].nodeId != UnknownNode
    requires w[k].nodeId == w[|w| - 1].nodeId
    ensures NodeSeenBefore(w, NodeOrder(w[..|w| - 1])[i], k)
  {
    var p := w[..|w| - 1];
    var rp := NodeOrder(p);
    assert forall q :: 0 <= q < |p| ==> p[q] == w[q] && p[q] in p;
    assert k == |p|;
    assert rp[i] in rp;
    var m := NodeIndex(p, rp[i]);
    assert w[m] == p[m];
  }

  /** A position of an event at a node of the ordered keys. */
  lemma NodeIndex(w: seq<Event>, n: Option<string>) returns (k: nat)
    requires n in NodeOrder(w)
    ensures k < |w| && w[k].nodeId == n
  {
    k :| k < |w| && w[k].nodeId == n;
  }

  /** The set of domains of a list of events. */
  function DomainsOf(es: seq<Event>): set<string> {
    set e | e in es :: e.domain
  }

  /** The distinct domains of a list of events, in order of first appearance:
      the keys of `domains_grouped` in insertion order. */
  function DomainOrder(es: seq<Event>): (r: seq<string>)
    ensures Distinct(r)
    ensures forall d :: d in r <==> d in DomainsOf(es)
  {
    if es == [] then []
    else
      var prev := DomainOrder(es[..|es| - 1]);
      var d := es[|es| - 1].domain;
      assert es == es[..|es| - 1] + [es[|es| - 1]];
      assert DomainsOf(es) == DomainsOf(es[..|es| - 1]) + {d};
      if d in prev then prev else prev + [d]
  }

  /** Event `k` of `es` is preceded by an event of domain `d`. */
  ghost predicate DomainSeenBefore(es: seq<Event>, d: string, k: int) {
    exists j :: 0 <= j < k && j < |es| && es[j].domain == d
  }

  /** `r` lists domains in order of first appearance in `es`: wherever a later
      domain of `r` occurs in `es`, every earlier domain of `r` has already occurred. */
  ghost predicate DomainsInFirstOrder(es: seq<Event>, r: seq<string>) {
    forall i, j, k :: 0 <= i < j < |r| && 0 <= k < |es| && es[k].domain == r[j] ==> DomainSeenBefore(es, r[i], k)
  }

  /** The keys of `domains_grouped` come in order of first appearance. */
  lemma {:induction false} DomainOrderFirstAppearance(es: seq<Event>)
    ensures DomainsInFirstOrder(es, DomainOrder(es))
  {
    if es != [] {
      DomainOrderFirstAppearance(es[..|es| - 1]);
      var r := DomainOrder(es);
      forall i, j, k | 0 <= i < j < |r| && 0 <= k < |es| && es[k].domain == r[j]
        ensures DomainSeenBefore(es, r[i], k)
      {
        DomainOrderStepAt(es, i, j, k);
      }
    }
  }

  lemma DomainOrderStepAt(es: seq<Event>, i: nat, j: nat, k: nat)
    requires es != [] && DomainsInFirstOrder(es[..|es| - 1], DomainOrder(es[..|es| - 1]))
    requires i < j < |DomainOrder(es)| && k < |es| && es[k].domain == DomainOrder(es)[j]
    ensures DomainSeenBefore(es, DomainOrder(es)[i], k)
  {
    var p := es[..|es| - 1];
    var rp := DomainOrder(p);
    var r := DomainOrder(es);
    assert r[i] == rp[i];
    if j < |rp| {
      DomainStepOld(es, i, j, k);
    } else {
      DomainStepNew(es, i, k);
    }
  }

  /** Event `k` is of a domain already listed before the last event. */
  lemma DomainStepOld(es: seq<Event>, i: nat, j: nat, k: nat)
    requires es != [] && DomainsInFirstOrder(es[..|es| - 1], DomainOrder(es[..|es| - 1]))
    requires i < j < |DomainOrder(es[..|es| - 1])| && k < |es| && es[k].domain == DomainOrder(es[..|es| - 1])[j]
    ensures DomainSeenBefore(es, DomainOrder(es[..|es| - 1])[i], k)
  {
    var p := es[..|es| - 1];
    var rp := DomainOrder(p);
    var k0 := k;
    if k == |p| {
      k0 := DomainIndex(p, rp[j]);
    }
    assert p[k0] == es[k0];
    assert DomainSeenBefore(p, rp[i], k0);
    var m :| 0 <= m < k0 && m < |p| && p[m].domain == rp[i];
    assert es[m] == p[m];
  }

  /** Event `k` is of the domain the last event adds. */
  lemma DomainStepNew(es: seq<Event>, i: nat, k: nat)
    requires es != [] && i < |DomainOrder(es[..|es| - 1])| && k < |es|
    requires es[|es| - 1].domain !in DomainOrder(es[..|es| - 1])
    requires es[k].domain == es[|es| - 1].domain
    ensures DomainSeenBefore(es, DomainOrder(es[..|es| - 1])[i], k)
  {
    var p := es[..|es| - 1];
    var rp := DomainOrder(p);
    assert forall q :: 0 <= q < |p| ==> p[q] == es[q] && p[q] in p && p[q].domain in DomainsOf(p);
    assert k == |p|;
    assert rp[i] in rp;
    var m := DomainIndex(p, rp[i]);
    assert es[m] == p[m];
  }

  /** A position of an event of a domain that occurs. */
  lemma DomainIndex(es: seq<Event>, d: string) returns (k: nat)
    requires d in DomainOrder(es)
    ensures k < |es| && es[k].domain == d
  {
    assert d in DomainsOf(es);
    var e :| e in es && e.domain == d;
    k :| k < |es| && es[k] == e;
  }

  /** The number of distinct domains counted from the ordered list equals the size of the set. */
  lemma DomainCount(es: seq<Event>)
    ensures |DomainOrder(es)| == |DomainsOf(es)|
  {
    var r := DomainOrder(es);
    DistinctCard(r);
    assert (set x | x in r) == DomainsOf(es);
  }

  /** The events of domain `d`, in order: `domains_grouped[d]`, and the node path's
      `[e for e in events if e["domain"] == d]`. */
  function InDomain(es: seq<Event>, d: string): (r: seq<Event>)
    ensures forall i :: 0 <= i < |r| ==> r[i] in es && r[i].domain == d
    ensures forall e :: e in es && e.domain == d ==> e in r
    ensures r == [] <==> forall i :: 0 <= i < |es| ==> es[i].domain != d
  {
    if es == [] then []
    else
      var prev := InDomain(es[..|es| - 1], d);
      assert es == es[..|es| - 1] + [es[|es| - 1]];
      if es[|es| - 1].domain == d then prev + [es[|es| - 1]] else prev
  }

  /** `domains_grouped[d]` keeps the order and multiplicities of the events: the
      events of a concatenation are those of each part, and a single event is
      kept exactly when it is of domain `d`. */
  lemma {:induction false} InDomainConcat(a: seq<Event>, b: seq<Event>, d: string)
    ensures InDomain(a + b, d) == InDomain(a, d) + InDomain(b, d)
    ensures forall e :: InDomain([e], d) == if e.domain == d then [e] else []
  {
    forall e ensures InDomain([e], d) == if e.domain == d then [e] else [] {
      InDomainLast([e], d);
      assert [e][..0] == [];
    }
    if b == [] {
      assert a + b == a;
    } else {
      var front, last := b[..|b| - 1], b[|b| - 1];
      var tail := if last.domain == d then [last] else [];
      assert (a + b)[..|a + b| - 1] == a + front && (a + b)[|a + b| - 1] == last;
      InDomainLast(a + b, d);
      InDomainLast(b, d);
      InDomainConcat(a, front, d);
      var fa, ff := InDomain(a, d), InDomain(front, d);
      calc {
        InDomain(a + b, d);
        (fa + ff) + tail;
        { ConcatAssoc(fa, ff, tail); }
        fa + (ff + tail);
        fa + InDomain(b, d);
      }
    }
  }

  lemma InDomainLast(es: seq<Event>, d: string)
    requires es != []
    ensures InDomain(es, d) == InDomain(es[..|es| - 1], d) + (if es[|es| - 1].domain == d then [es[|es| - 1]] else [])
  {
  }

  /** The position of the first event with the greatest timestamp. */
  function NewestIndex(es: seq<Event>): (k: nat)
    requires es != []
    ensures k < |es|
    ensures forall j :: 0 <= j < |es| ==> es[j].timestamp <= es[k].timestamp
    ensures forall j :: 0 <= j < k ==> es[j].timestamp < es[k].timestamp
  {
    if |es| == 1 then 0
    else
      var m := NewestIndex(es[1..]);
      assert forall j :: 1 <= j < |es| ==> es[j] == es[1..][j - 1];
      if es[0].timestamp >= es[m + 1].timestamp then 0 else m + 1
  }

  /** Python's `max(es, key=timestamp)`: the first event with the greatest timestamp. */
  function MostRecent(es: seq<Event>): (r: Event)
    requires es != []
    ensures r in es
    ensures forall e :: e in es ==> e.timestamp <= r.timestamp
    ensures exists k :: 0 <= k < |es| && es[k] == r && forall j :: 0 <= j < k ==> es[j].timestamp < r.timestamp
  {
    var k := NewestIndex(es);
    assert forall e :: e in es ==> exists j :: 0 <= j < |es| && es[j] == e;
    es[k]
  }

  /** `e` is the newest event of its own domain among `es`. */
  ghost predicate NewestOfDomain(e: Event, es: seq<Event>) {
    e in es && forall x :: x in es && x.domain == e.domain ==> x.timestamp <= e.timestamp
  }

  /** For each domain of `ds` in turn, the most recent event of that domain, if any. */
  function Reps(es: seq<Event>, ds: seq<string>): (r: seq<Event>)
    ensures |r| <= |ds|
    ensures forall i :: 0 <= i < |r| ==> NewestOfDomain(r[i], es) && r[i].domain in ds
  {
    if ds == [] then []
    else
      var prev := Reps(es, ds[..|ds| - 1]);
      var des := InDomain(es, ds[|ds| - 1]);
      if des != [] then prev + [MostRecent(des)] else prev
  }

  /** When every listed domain occurs in `es`, the representatives are one per
      listed domain, in the listed order. */
  lemma {:induction false} RepsOnePerDomain(es: seq<Event>, ds: seq<string>)
    requires forall d :: d in ds ==> d in DomainsOf(es)
    ensures |Reps(es, ds)| == |ds|
    ensures forall i :: 0 <= i < |ds| ==> Reps(es, ds)[i].domain == ds[i]
  {
    if ds != [] {
      var d := ds[|ds| - 1];
      var front := ds[..|ds| - 1];
      assert forall x :: x in front ==> x in ds;
      RepsOnePerDomain(es, front);
      var prev := Reps(es, front);
      assert d in ds;
      assert d in DomainsOf(es);
      var e :| e in es && e.domain == d;
      var des := InDomain(es, d);
      assert e in des;
      assert Reps(es, ds) == prev + [MostRecent(des)];
      forall i | 0 <= i < |ds| ensures Reps(es, ds)[i].domain == ds[i] {
        if i < |ds| - 1 {
          assert front[i] == ds[i];
        }
      }
    }
  }

  /** The representatives of a list of events: its newest event per domain, in
      order of first appearance of the domains. */
  function Representatives(es: seq<Event>): seq<Event> {
    Reps(es, DomainOrder(es))
  }

  /** A group holds exactly one event per distinct domain of its source events,
      each the newest of its domain there. */
  lemma RepresentativesShape(es: seq<Event>)
    ensures var r := Representatives(es);
      && |r| == |DomainsOf(es)|
      && DomainsOf(r) == DomainsOf(es)
      && (forall i, j :: 0 <= i < j < |r| ==> r[i].domain != r[j].domain)
      && (forall i :: 0 <= i < |r| ==> NewestOfDomain(r[i], es))
  {
    var ds := DomainOrder(es);
    RepsOnePerDomain(es, ds);
    DomainCount(es);
    RepresentativesDomains(es);
  }

  lemma RepresentativesDomains(es: seq<Event>)
    ensures DomainsOf(Representatives(es)) == DomainsOf(es)
  {
    RepresentativesCoverDomains(es);
    RepresentativesWithinDomains(es);
  }

  lemma RepresentativesCoverDomains(es: seq<Event>)
    ensures DomainsOf(es) <= DomainsOf(Representatives(es))
  {
    var ds := DomainOrder(es);
    RepsOnePerDomain(es, ds);
    var r := Representatives(es);
    forall d | d in DomainsOf(es) ensures d in DomainsOf(r) {
      var i :| 0 <= i < |ds| && ds[i] == d;
      assert r[i] in r && r[i].domain == d;
    }
  }

  lemma RepresentativesWithinDomains(es: seq<Event>)
    ensures DomainsOf(Representatives(es)) <= DomainsOf(es)
  {
    var r := Representatives(es);
    forall d | d in DomainsOf(r) ensures d in DomainsOf(es) {
      var e :| e in r && e.domain == d;
      assert NewestOfDomain(e, es);
    }
  }

  /** `f"node-{node_id}"`: a missing node prints as "None". */
  function NodeKey(n: Option<string>): string {
    "node-" + Render(n)
  }

  /** `f"cross-domain-{int(now) % 100}"`. */
  function CrossKey(now: real): string {
    "cross-domain-" + NatText(Trunc(now) % 100)
  }

  lemma CrossKeyIsNotNodeKey(now: real, n: Option<string>)
    ensures CrossKey(now) != NodeKey(n)
  {
    assert CrossKey(now)[0] == 'c' && NodeKey(n)[0] == 'n';
  }

  /** Only a missing node and the node literally named "None" share a key. */
  lemma {:induction false} NodeKeyCollision(n: Option<string>, m: Option<string>)
    requires n != m
    ensures NodeKey(n) == NodeKey(m) <==> {n, m} == {None, Some("None")}
  {
    if NodeKey(n) == NodeKey(m) {
      assert Render(n) == NodeKey(n)[5..] == NodeKey(m)[5..] == Render(m);
    }
  }

  /** A candidate group: its key and its events. */
  type Group = (string, seq<Event>)

  ghost predicate DistinctKeys(g: seq<Group>) {
    forall i, j :: 0 <= i < j < |g| ==> g[i].0 != g[j].0
  }

  /** Python's `grouped[k] = v` on an insertion-ordered dict: replaces the value in
      place when the key is present, appends otherwise. */
  function Put(g: seq<Group>, k: string, v: seq<Event>): (r: seq<Group>)
    requires DistinctKeys(g)
    ensures DistinctKeys(r)
    ensures (k, v) in r
    ensures forall x :: x in r ==> x == (k, v) || (x in g && x.0 != k)
    ensures forall x :: x in g && x.0 != k ==> x in r
  {
    if g == [] then [(k, v)]
    else if g[0].0 == k then
      assert forall x :: x in g[1..] ==> x.0 != k;
      [(k, v)] + g[1..]
    else [g[0]] + Put(g[1..], k, v)
  }

  /** The dict assignment keeps positions: an existing key keeps its slot and
      takes the new value; a new key goes last. */
  lemma {:induction false} PutInPlace(g: seq<Group>, k: string, v: seq<Event>)
    requires DistinctKeys(g)
    ensures forall i :: 0 <= i < |g| && g[i].0 == k ==> Put(g, k, v) == g[i := (k, v)]
    ensures (forall i :: 0 <= i < |g| ==> g[i].0 != k) ==> Put(g, k, v) == g + [(k, v)]
  {
    if g != [] {
      var rest := g[1..];
      assert DistinctKeys(rest) by {
        forall i, j | 0 <= i < j < |rest| ensures rest[i].0 != rest[j].0 {
          assert rest[i] == g[i + 1] && rest[j] == g[j + 1];
        }
      }
      assert forall i :: 0 <= i < |rest| ==> rest[i] == g[i + 1];
      if g[0].0 == k {
        assert g[0 := (k, v)] == [(k, v)] + rest;
      } else {
        PutInPlace(rest, k, v);
        assert g == [g[0]] + rest;
        forall i | 0 <= i < |g| && g[i].0 == k ensures Put(g, k, v) == g[i := (k, v)] {
          assert rest[i - 1].0 == k;
          assert [g[0]] + rest[i - 1 := (k, v)] == g[i := (k, v)];
        }
        if forall i :: 0 <= i < |g| ==> g[i].0 != k {
          assert [g[0]] + (rest + [(k, v)]) == g + [(k, v)];
        }
      }
    }
  }

  /** `x` is the group node `n` forms: its key and its newest event per domain,
      formed only when the node spans at least two domains. */
  ghost predicate GroupOfNode(w: seq<Event>, n: Option<string>, x: Group) {
    x.0 == NodeKey(n) && |DomainOrder(AtNode(w, n))| >= 2 && x.1 == Representatives(AtNode(w, n))
  }

  /** The node groups of a window, built node by node: `grouped` after the loop
      over `node_grouped`. Nodes with fewer than two domains add nothing. */
  function NodeGroups(w: seq<Event>, nodes: seq<Option<string>>): (g: seq<Group>)
    ensures DistinctKeys(g)
    ensures forall x :: x in g ==> exists n :: n in nodes && GroupOfNode(w, n, x)
  {
    if nodes == [] then []
    else
      var prev := NodeGroups(w, nodes[..|nodes| - 1]);
      var n := nodes[|nodes| - 1];
      var es := AtNode(w, n);
      assert forall m :: m in nodes[..|nodes| - 1] ==> m in nodes;
      if |DomainOrder(es)| >= 2 then
        assert GroupOfNode(w, n, (NodeKey(n), Representatives(es)));
        Put(prev, NodeKey(n), Representatives(es))
      else prev
  }

  /** All candidate groups of a pass: the node groups, then the cross-domain group
      when the window spans at least two domains. */
  function Groups(w: seq<Event>, now: real): (g: seq<Group>)
    ensures DistinctKeys(g)
  {
    var g := NodeGroups(w, NodeOrder(w));
    if |DomainOrder(w)| >= 2 then Put(g, CrossKey(now), Representatives(w)) else g
  }

  /** The cross-domain group: when the window spans at least two domains it comes
      after the node groups, keyed `cross-domain-N` and holding the window's newest
      event per domain; otherwise there is none. Every other candidate is a node group. */
  lemma CrossGroup(w: seq<Event>, now: real)
    ensures |DomainOrder(w)| >= 2 ==> Groups(w, now) == NodeGroups(w, NodeOrder(w)) + [(CrossKey(now), Representatives(w))]
    ensures |DomainOrder(w)| >= 2 ==> (CrossKey(now), Representatives(w)) in Groups(w, now)
    ensures (exists x :: x in Groups(w, now) && x.0 == CrossKey(now)) ==> |DomainOrder(w)| >= 2
    ensures forall x :: x in Groups(w, now) ==> x.0 == CrossKey(now) || x in NodeGroups(w, NodeOrder(w))
  {
    var g := NodeGroups(w, NodeOrder(w));
    forall i | 0 <= i < |g| ensures g[i].0 != CrossKey(now) {
      assert g[i] in g;
      var n :| n in NodeOrder(w) && GroupOfNode(w, n, g[i]);
      CrossKeyIsNotNodeKey(now, n);
    }
    PutInPlace(g, CrossKey(now), Representatives(w));
  }

  /** Every candidate group passes the incident gate: at least two events from at
      least two domains. */
  lemma GroupsPassGate(w: seq<Event>, now: real)
    ensures forall x :: x in Groups(w, now) ==> |x.1| >= 2 && |DomainsOf(x.1)| >= 2
  {
    forall x | x in Groups(w, now) ensures |x.1| >= 2 && |DomainsOf(x.1)| >= 2 {
      var g := NodeGroups(w, NodeOrder(w));
      var es: seq<Event>;
      if x in g {
        var n :| n in NodeOrder(w) && GroupOfNode(w, n, x);
        es := AtNode(w, n);
      } else {
        es := w;
      }
      RepresentativesShape(es);
      DomainCount(es);
    }
  }

  /** The group of a node that spans several domains, when no other node of the
      window shares its key, is its newest event per domain. */
  lemma {:induction false} NodeGroupOfNode(w: seq<Event>, nodes: seq<Option<string>>, n: Option<string>)
    requires n in nodes && Distinct(nodes)
    requires forall m :: m in nodes && m != n ==> NodeKey(m) != NodeKey(n)
    ensures |DomainOrder(AtNode(w, n))| >= 2 ==> (NodeKey(n), Representatives(AtNode(w, n))) in NodeGroups(w, nodes)
    ensures |DomainOrder(AtNode(w, n))| < 2 ==> forall x :: x in NodeGroups(w, nodes) ==> x.0 != NodeKey(n)
  {
    var last := nodes[|nodes| - 1];
    var front := nodes[..|nodes| - 1];
    assert nodes == front + [last];
    if last == n {
      assert n !in front by {
        forall i | 0 <= i < |front| ensures front[i] != n { assert front[i] == nodes[i]; }
      }
      forall x | x in NodeGroups(w, front) ensures x.0 != NodeKey(n) {
        var m :| m in front && GroupOfNode(w, m, x);
      }
    } else {
      assert Distinct(front);
      NodeGroupOfNode(w, front, n);
      CrossKeyFree(n, last);
    }
  }

  lemma CrossKeyFree(n: Option<string>, m: Option<string>)
    ensures n == m || NodeKey(n) != NodeKey(m) || {n, m} == {None, Some("None")}
  {
    if n != m { NodeKeyCollision(n, m); }
  }

  /** Events at the "unknown" node join no node group; they reach only the
      cross-domain group. */
  lemma UnknownOnlyCrossDomain(w: seq<Event>, now: real)
    ensures forall x, e :: x in Groups(w, now) && e in x.1 && x.0 != CrossKey(now) ==> e.nodeId != UnknownNode
  {
    forall x, e | x in Groups(w, now) && e in x.1 && x.0 != CrossKey(now) ensures e.nodeId != UnknownNode {
      assert x in NodeGroups(w, NodeOrder(w));
      NodeGroupMember(w, x, e);
    }
  }

  lemma NodeGroupMember(w: seq<Event>, x: Group, e: Event)
    requires x in NodeGroups(w, NodeOrder(w)) && e in x.1
    ensures e.nodeId != UnknownNode
  {
    var n :| n in NodeOrder(w) && GroupOfNode(w, n, x);
    RepresentativesShape(AtNode(w, n));
    assert e in AtNode(w, n);
  }

  // ---- The loops of the pass that build the partitions ----

  /** The loop that fills `node_grouped`: returns its keys in insertion order and the dict. */
  method GroupByNode(w: seq<Event>) returns (nodes: seq<Option<string>>, byNode: map<Option<string>, seq<Event>>)
    ensures nodes == NodeOrder(w)
    ensures forall n :: n in byNode <==> n in nodes
    ensures forall n :: n in byNode ==> byNode[n] == AtNode(w, n)
  {
    nodes, byNode := [], map[];
    for i := 0 to |w|
      invariant nodes == NodeOrder(w[..i])
      invariant forall n :: n in byNode <==> n in nodes
      invariant forall n :: n in byNode ==> byNode[n] == AtNode(w[..i], n)
    {
      assert w[..i + 1][..i] == w[..i];
      assert w[..i + 1][i] == w[i];
      assert forall m :: AtNode(w[..i + 1], m) == AtNode(w[..i], m) + (if w[i].nodeId == m then [w[i]] else []);
      var n := w[i].nodeId;
      if n != UnknownNode {
        if n in byNode {
          byNode := byNode[n := byNode[n] + [w[i]]];
        } else {
          nodes := nodes + [n];
          byNode := byNode[n := [w[i]]];
        }
      }
    }
    assert w[..|w|] == w;
  }

  /** `domains` and `byDomain` are `domains_grouped` as built from `es`: its keys in
      insertion order and the events of each. */
  ghost predicate DomainTable(es: seq<Event>, domains: seq<string>, byDomain: map<string, seq<Event>>) {
    && domains == DomainOrder(es)
    && (forall d :: d in byDomain <==> d in domains)
    && (forall d :: d in byDomain ==> byDomain[d] == InDomain(es, d))
  }

  /** The loop that fills `domains_grouped`: returns its keys in insertion order and the dict. */
  method GroupByDomain(w: seq<Event>) returns (domains: seq<string>, byDomain: map<string, seq<Event>>)
    ensures domains == DomainOrder(w)
    ensures forall d :: d in byDomain <==> d in domains
    ensures forall d :: d in byDomain ==> byDomain[d] == InDomain(w, d)
  {
    domains, byDomain := [], map[];
    for i := 0 to |w|
      invariant DomainTable(w[..i], domains, byDomain)
    {
      var d := w[i].domain;
      if d in byDomain {
        DomainTableGrow(w, i, domains, byDomain);
        byDomain := byDomain[d := byDomain[d] + [w[i]]];
      } else {
        DomainTableAdd(w, i, domains, byDomain);
        domains := domains + [d];
        byDomain := byDomain[d := [w[i]]];
      }
    }
    assert w[..|w|] == w;
  }

  /** The loop step for a domain already in the table: its list grows by the event. */
  lemma DomainTableGrow(w: seq<Event>, i: nat, domains: seq<string>, byDomain: map<string, seq<Event>>)
    requires i < |w| && DomainTable(w[..i], domains, byDomain) && w[i].domain in byDomain
    ensures DomainTable(w[..i + 1], domains, byDomain[w[i].domain := byDomain[w[i].domain] + [w[i]]])
  {
    var b := byDomain[w[i].domain := byDomain[w[i].domain] + [w[i]]];
    DomainOrderStep(w, i);
    forall m | m in b ensures b[m] == InDomain(w[..i + 1], m) {
      InDomainStep(w, i, m);
    }
  }

  /** The loop step for a new domain: it is appended to the keys with the event alone. */
  lemma DomainTableAdd(w: seq<Event>, i: nat, domains: seq<string>, byDomain: map<string, seq<Event>>)
    requires i < |w| && DomainTable(w[..i], domains, byDomain) && w[i].domain !in byDomain
    ensures DomainTable(w[..i + 1], domains + [w[i].domain], byDomain[w[i].domain := [w[i]]])
  {
    var b := byDomain[w[i].domain := [w[i]]];
    DomainOrderStep(w, i);
    NoDomainNoEvents(w[..i], w[i].domain);
    forall m | m in b ensures b[m] == InDomain(w[..i + 1], m) {
      InDomainStep(w, i, m);
    }
  }

  lemma DomainOrderStep(w: seq<Event>, i: nat)
    requires i < |w|
    ensures DomainOrder(w[..i + 1]) == if w[i].domain in DomainOrder(w[..i]) then DomainOrder(w[..i]) else DomainOrder(w[..i]) + [w[i].domain]
  {
    assert w[..i + 1][..i] == w[..i];
  }

  lemma InDomainStep(w: seq<Event>, i: nat, m: string)
    requires i < |w|
    ensures InDomain(w[..i + 1], m) == InDomain(w[..i], m) + (if w[i].domain == m then [w[i]] else [])
  {
    assert w[..i + 1][..i] == w[..i];
  }

  lemma NoDomainNoEvents(es: seq<Event>, d: string)
    requires d !in DomainOrder(es)
    ensures InDomain(es, d) == []
  {
    assert forall i :: 0 <= i < |es| ==> es[i] in es && es[i].domain in DomainsOf(es);
  }

  /** The node path's loop over the node's domains: the newest event of each. */
  method NodeRepresentatives(events: seq<Event>, domains: seq<string>) returns (reps: seq<Event>)
    ensures reps == Reps(events, domains)
  {
    reps := [];
    for k := 0 to |domains|
      invariant reps == Reps(events, domains[..k])
    {
      assert domains[..k + 1][..k] == domains[..k];
      var des := InDomain(events, domains[k]);
      if des != [] {
        reps := reps + [MostRecent(des)];
      }
    }
    assert domains[..|domains|] == domains;
  }

  /** The cross-domain path's loop over `domains_grouped.values()`: the newest event of each. */
  method CrossRepresentatives(byDomain: map<string, seq<Event>>, domains: seq<string>, ghost w: seq<Event>)
    returns (reps: seq<Event>)
    requires forall d :: d in domains ==> d in byDomain && byDomain[d] == InDomain(w, d)
    ensures reps == Reps(w, domains)
  {
    reps := [];
    for k := 0 to |domains|
      invariant reps == Reps(w, domains[..k])
    {
      assert domains[..k + 1][..k] == domains[..k];
      var des := byDomain[domains[k]];
      if des != [] {
        reps := reps + [MostRecent(des)];
      }
    }
    assert domains[..|domains|] == domains;
  }
}
