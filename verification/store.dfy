/** The incident store's list operations: age-out, the retention cap (sort by
    recency, keep the newest) and replace-by-key upsert (backend/app.py,
    `_process_for_correlation`). */
module Store {
  import opened Common
  import opened Incidents

  /** `[inc for inc in s if inc["timestamp"] > cutoff]`. */
  function Recent(s: seq<Incident>, cutoff: real): (r: seq<Incident>)
    ensures |r| <= |s|
    ensures forall i :: 0 <= i < |r| ==> r[i].timestamp > cutoff
    ensures forall x :: x in r <==> x in s && x.timestamp > cutoff
    ensures forall k :: CountNode(r, k) <= CountNode(s, k)
  {
    if s == [] then []
    else if s[0].timestamp > cutoff then [s[0]] + Recent(s[1..], cutoff)
    else Recent(s[1..], cutoff)
  }

  /** The age-out is a list comprehension: it keeps the list's order and
      multiplicities. Filtering a concatenation filters each part, and a single
      incident stays exactly when it is newer than the cutoff. */
  lemma {:induction false} RecentConcat(a: seq<Incident>, b: seq<Incident>, cutoff: real)
    ensures Recent(a + b, cutoff) == Recent(a, cutoff) + Recent(b, cutoff)
    ensures forall x :: Recent([x], cutoff) == if x.timestamp > cutoff then [x] else []
  {
    forall x ensures Recent([x], cutoff) == if x.timestamp > cutoff then [x] else [] {
      RecentHead([x], cutoff);
      assert [x][1..] == [];
    }
    if a == [] {
      assert a + b == b;
    } else {
      var h, t := a[0], a[1..];
      var head := (if h.timestamp > cutoff then [h] else []);
      assert (a + b)[0] == h && (a + b)[1..] == t + b;
      RecentHead(a + b, cutoff);
      RecentHead(a, cutoff);
      RecentConcat(t, b, cutoff);
      var ft, fb := Recent(t, cutoff), Recent(b, cutoff);
      calc {
        Recent(a + b, cutoff);
        head + Recent(t + b, cutoff);
        head + (ft + fb);
        { ConcatAssoc(head, ft, fb); }
        (head + ft) + fb;
        Recent(a, cutoff) + fb;
      }
    }
  }

  lemma RecentHead(s: seq<Incident>, cutoff: real)
    requires s != []
    ensures Recent(s, cutoff) == (if s[0].timestamp > cutoff then [s[0]] else []) + Recent(s[1..], cutoff)
  {
  }


  /** The order Python's `sort(key=timestamp, reverse=True)` produces: newest first. */
  ghost predicate NewestFirst(s: seq<Incident>) {
    forall i, j :: 0 <= i < j < |s| ==> s[i].timestamp >= s[j].timestamp
  }

  /** Inserts `x` into a newest-first list ahead of every incident no newer than it. */
  function InsertByRecency(x: Incident, s: seq<Incident>): (r: seq<Incident>)
    requires NewestFirst(s)
    ensures NewestFirst(r)
    ensures forall y :: y in r ==> y == x || y in s
    ensures multiset(r) == multiset(s) + multiset{x}
    ensures forall k :: CountNode(r, k) == CountNode(s, k) + (if NodeField(x) == k then 1 else 0)
  {
    if s == [] || s[0].timestamp <= x.timestamp then
      assert ([x] + s)[1..] == s;
      [x] + s
    else
      var t := InsertByRecency(x, s[1..]);
      InsertStep(x, s, t);
      [s[0]] + t
  }

  lemma InsertStep(x: Incident, s: seq<Incident>, t: seq<Incident>)
    requires s != [] && NewestFirst(s) && x.timestamp < s[0].timestamp
    requires NewestFirst(t) && forall y :: y in t ==> y == x || y in s[1..]
    ensures NewestFirst([s[0]] + t)
    ensures forall k :: CountNode([s[0]] + t, k) == (if NodeField(s[0]) == k then 1 else 0) + CountNode(t, k)
    ensures multiset([s[0]] + t) == multiset{s[0]} + multiset(t)
    ensures multiset(s) == multiset{s[0]} + multiset(s[1..])
  {
    assert s == [s[0]] + s[1..];
    assert ([s[0]] + t)[1..] == t;
    forall j | 0 <= j < |t| ensures t[j].timestamp <= s[0].timestamp {
      if t[j] != x {
        assert t[j] in s[1..];
        var m :| 0 <= m < |s[1..]| && s[1..][m] == t[j];
        assert s[m + 1] == t[j];
      }
    }
  }

  /** A stable descending sort by timestamp. */
  function SortByRecency(s: seq<Incident>): (r: seq<Incident>)
    ensures NewestFirst(r)
    ensures multiset(r) == multiset(s)
    ensures |r| == |s|
    ensures forall k :: CountNode(r, k) == CountNode(s, k)
  {
    if s == [] then []
    else
      assert s == [s[0]] + s[1..];
      InsertByRecency(s[0], SortByRecency(s[1..]))
  }

  /** The incidents of `s` stamped exactly `t`, in list order. */
  function AtStamp(s: seq<Incident>, t: real): seq<Incident> {
    if s == [] then [] else (if s[0].timestamp == t then [s[0]] else []) + AtStamp(s[1..], t)
  }

  /** Insertion puts `x` ahead of every incident stamped the same as it. */
  lemma {:induction false} InsertAtStamp(x: Incident, s: seq<Incident>, t: real)
    requires NewestFirst(s)
    ensures AtStamp(InsertByRecency(x, s), t) == (if x.timestamp == t then [x] else []) + AtStamp(s, t)
  {
    if s == [] || s[0].timestamp <= x.timestamp {
      AtStampCons(x, s, t);
    } else {
      var h, rest := s[0], s[1..];
      assert s == [h] + rest;
      var r := InsertByRecency(x, rest);
      assert InsertByRecency(x, s) == [h] + r;
      InsertAtStamp(x, rest, t);
      AtStampCons(h, r, t);
      AtStampCons(h, rest, t);
      var hs := if h.timestamp == t then [h] else [];
      var xs := if x.timestamp == t then [x] else [];
      var tail := AtStamp(rest, t);
      assert hs + xs == xs + hs;
      calc {
        AtStamp([h] + r, t);
        hs + AtStamp(r, t);
        hs + (xs + tail);
        { ConcatAssoc(hs, xs, tail); }
        (hs + xs) + tail;
        (xs + hs) + tail;
        { ConcatAssoc(xs, hs, tail); }
        xs + (hs + tail);
        xs + AtStamp(s, t);
      }
    }
  }

  lemma AtStampCons(h: Incident, s: seq<Incident>, t: real)
    ensures AtStamp([h] + s, t) == (if h.timestamp == t then [h] else []) + AtStamp(s, t)
  {
    assert ([h] + s)[0] == h && ([h] + s)[1..] == s;
  }

  /** The sort is stable: incidents with equal timestamps keep their relative order. */
  lemma {:induction false} SortIsStable(s: seq<Incident>, t: real)
    ensures AtStamp(SortByRecency(s), t) == AtStamp(s, t)
  {
    if s != [] {
      SortIsStable(s[1..], t);
      InsertAtStamp(s[0], SortByRecency(s[1..]), t);
    }
  }

  /** The age-out and cap of one incident list: drop incidents not newer than
      `cutoff`; if more than `cap` remain, keep the `cap` newest. */
  function Retain(s: seq<Incident>, cutoff: real, cap: nat): seq<Incident> {
    var kept := Recent(s, cutoff);
    if |kept| > cap then SortByRecency(kept)[..cap] else kept
  }

  /** What the cap throws away. */
  function Discarded(s: seq<Incident>, cutoff: real, cap: nat): seq<Incident> {
    var kept := Recent(s, cutoff);
    if |kept| > cap then SortByRecency(kept)[cap..] else []
  }

  lemma {:induction false} CountNodePrefix(s: seq<Incident>, n: nat, k: Option<string>)
    requires n <= |s|
    ensures CountNode(s[..n], k) <= CountNode(s, k)
  {
    assert s == s[..n] + s[n..];
    CountNodeAppend(s[..n], s[n..], k);
  }

  /** After retention every incident is newer than the cutoff and there are at
      most `cap` of them; below the cap nothing moves, above it exactly `cap` stay. */
  lemma {:induction false} RetainBounds(s: seq<Incident>, cutoff: real, cap: nat)
    ensures var r := Retain(s, cutoff, cap);
      && |r| <= cap
      && (|Recent(s, cutoff)| > cap ==> |r| == cap)
      && (|Recent(s, cutoff)| <= cap ==> r == Recent(s, cutoff))
      && (forall i :: 0 <= i < |r| ==> r[i].timestamp > cutoff)
  {
    var kept := Recent(s, cutoff);
    if |kept| > cap {
      var t := SortByRecency(kept);
      forall i | 0 <= i < cap ensures t[i].timestamp > cutoff {
        assert t[i] in multiset(kept);
      }
    }
  }

  /** The cap keeps the newest: what it discards together with what it keeps is
      exactly what survived the age-out, and no discarded incident is newer than
      a kept one. */
  lemma {:induction false} RetainKeepsNewest(s: seq<Incident>, cutoff: real, cap: nat)
    ensures var r := Retain(s, cutoff, cap);
      && multiset(r) + multiset(Discarded(s, cutoff, cap)) == multiset(Recent(s, cutoff))
      && (forall i, j :: 0 <= i < |r| && 0 <= j < |Discarded(s, cutoff, cap)| ==>
            Discarded(s, cutoff, cap)[j].timestamp <= r[i].timestamp)
  {
    var kept := Recent(s, cutoff);
    if |kept| > cap {
      SplitNewestFirst(SortByRecency(kept), cap);
    }
  }

  /** Cutting a newest-first list in two loses nothing, and puts nothing newer
      behind the cut than in front of it. */
  lemma SplitNewestFirst(t: seq<Incident>, cap: nat)
    requires NewestFirst(t) && cap <= |t|
    ensures multiset(t[..cap]) + multiset(t[cap..]) == multiset(t)
    ensures forall i, j :: 0 <= i < cap && 0 <= j < |t| - cap ==> t[cap..][j].timestamp <= t[..cap][i].timestamp
  {
    assert t == t[..cap] + t[cap..];
    forall i, j | 0 <= i < cap && 0 <= j < |t| - cap
      ensures t[cap..][j].timestamp <= t[..cap][i].timestamp
    {
      assert t[cap..][j] == t[cap + j];
      assert t[..cap][i] == t[i];
    }
  }

  /** Retention keeps only incidents it was given, and so keeps keys unique. */
  lemma {:induction false} RetainSubset(s: seq<Incident>, cutoff: real, cap: nat)
    ensures forall x :: x in Retain(s, cutoff, cap) ==> x in s
    ensures forall k :: CountNode(Retain(s, cutoff, cap), k) <= CountNode(s, k)
  {
    var kept := Recent(s, cutoff);
    if |kept| > cap {
      var t := SortByRecency(kept);
      forall x | x in t[..cap] ensures x in s {
        assert x in multiset(kept);
      }
      forall k ensures CountNode(t[..cap], k) <= CountNode(s, k) {
        CountNodePrefix(t, cap, k);
      }
    }
  }

  /** `[inc for inc in s if inc["node_id"] != key]`. */
  function WithoutKey(s: seq<Incident>, k: Option<string>): (r: seq<Incident>)
    ensures CountNode(r, k) == 0
    ensures forall k' :: k' != k ==> CountNode(r, k') == CountNode(s, k')
    ensures forall x :: x in r <==> x in s && NodeField(x) != k
  {
    if s == [] then []
    else if NodeField(s[0]) == k then WithoutKey(s[1..], k)
    else [s[0]] + WithoutKey(s[1..], k)
  }

  /** The key filter is a list comprehension: it keeps the list's order and
      multiplicities. Filtering a concatenation filters each part, and a single
      incident stays exactly when its key differs. */
  lemma {:induction false} WithoutKeyConcat(a: seq<Incident>, b: seq<Incident>, k: Option<string>)
    ensures WithoutKey(a + b, k) == WithoutKey(a, k) + WithoutKey(b, k)
    ensures forall x :: WithoutKey([x], k) == if NodeField(x) != k then [x] else []
  {
    forall x ensures WithoutKey([x], k) == if NodeField(x) != k then [x] else [] {
      WithoutKeyHead([x], k);
      assert [x][1..] == [];
    }
    if a == [] {
      assert a + b == b;
    } else {
      var h, t := a[0], a[1..];
      var head := (if NodeField(h) != k then [h] else []);
      assert (a + b)[0] == h && (a + b)[1..] == t + b;
      WithoutKeyHead(a + b, k);
      WithoutKeyHead(a, k);
      WithoutKeyConcat(t, b, k);
      var ft, fb := WithoutKey(t, k), WithoutKey(b, k);
      calc {
        WithoutKey(a + b, k);
        head + WithoutKey(t + b, k);
        head + (ft + fb);
        { ConcatAssoc(head, ft, fb); }
        (head + ft) + fb;
        WithoutKey(a, k) + fb;
      }
    }
  }

  lemma WithoutKeyHead(s: seq<Incident>, k: Option<string>)
    requires s != []
    ensures WithoutKey(s, k) == (if NodeField(s[0]) != k then [s[0]] else []) + WithoutKey(s[1..], k)
  {
  }


  /** Replace-not-merge insertion of a correlated incident under its key. */
  function Upsert(s: seq<Incident>, inc: Incident): seq<Incident> {
    WithoutKey(s, NodeField(inc)) + [inc]
  }

  /** After the upsert exactly one incident carries the new incident's key, it is
      the new incident, and the incidents under every other key are those that
      were there before, in the same order. */
  lemma {:induction false} UpsertReplaces(s: seq<Incident>, inc: Incident)
    ensures var r := Upsert(s, inc);
      && CountNode(r, NodeField(inc)) == 1
      && r[|r| - 1] == inc
      && (forall k :: k != NodeField(inc) ==> CountNode(r, k) == CountNode(s, k))
      && WithoutKey(r, NodeField(inc)) == WithoutKey(s, NodeField(inc))
  {
    var k := NodeField(inc);
    var w := WithoutKey(s, k);
    assert [inc][1..] == [];
    assert CountNode([inc], k) == 1;
    forall k' ensures CountNode(w + [inc], k') == CountNode(w, k') + CountNode([inc], k') {
      CountNodeAppend(w, [inc], k');
    }
    WithoutKeyIdempotent(w, k);
    WithoutKeyAppend(w, inc, k);
  }

  lemma {:induction false} WithoutKeyIdempotent(s: seq<Incident>, k: Option<string>)
    requires CountNode(s, k) == 0
    ensures WithoutKey(s, k) == s
  {
    if s != [] {
      WithoutKeyIdempotent(s[1..], k);
      assert s == [s[0]] + s[1..];
    }
  }

  lemma {:induction false} WithoutKeyAppend(s: seq<Incident>, x: Incident, k: Option<string>)
    requires NodeField(x) == k
    ensures WithoutKey(s + [x], k) == WithoutKey(s, k)
  {
    if s == [] {
      assert [x][1..] == [];
    } else {
      assert (s + [x])[1..] == s[1..] + [x];
      WithoutKeyAppend(s[1..], x, k);
    }
  }

  /** Upserting keeps keys unique. */
  lemma UpsertKeepsKeysUnique(s: seq<Incident>, inc: Incident)
    requires UniqueKeys(s)
    ensures UniqueKeys(Upsert(s, inc))
  {
    UpsertReplaces(s, inc);
  }
}
