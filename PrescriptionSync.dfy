/** The merge rule of the prescription sync (app.backup.js:1391-1438),
    stated over values: which copy of each prescription survives, and in
    which order the survivors are written back. */
module PrescriptionSync {
  import opened Wrappers
  import opened Records
  import opened Sorting
  import opened OrderedDict

  /** `new Date(p.datetime || p.propagatedAt || 0).getTime()`. */
  function Ts(p: Prescription): int {
    if p.datetime.Some? then p.datetime.value
    else if p.propagatedAt.Some? then p.propagatedAt.value
    else 0
  }

  /** A prescription with a truthy id; a missing id is modelled as "". */
  predicate HasId(p: Prescription) { p.id != [] }

  function IdSet(s: seq<Prescription>): set<string> {
    set p | p in s :: p.id
  }

  /** The ids of the id-bearing prescriptions of `s`. */
  function KeptIds(s: seq<Prescription>): set<string> {
    set p | p in s && HasId(p) :: p.id
  }

  predicate DistinctIds(s: seq<Prescription>) {
    forall i, j :: 0 <= i < j < |s| ==> s[i].id != s[j].id
  }

  /** Every dictionary entry is filed under its own id. */
  predicate KeyedById(d: Dict<Prescription>) {
    forall k :: k in d.vals ==> d.vals[k].id == k
  }

  /** `c[j]` is the copy of `k` the dedup keeps: no copy of `k` has a greater
      timestamp, and every earlier copy has a strictly smaller one. */
  predicate IsWinner(c: seq<Prescription>, k: string, j: int) {
    0 <= j < |c| && c[j].id == k &&
    (forall i :: 0 <= i < |c| && c[i].id == k ==> Ts(c[i]) <= Ts(c[j])) &&
    (forall i :: 0 <= i < j && c[i].id == k ==> Ts(c[i]) < Ts(c[j]))
  }

  /** One step of the dedup loop. */
  function DedupStep(d: Dict<Prescription>, p: Prescription): (r: Dict<Prescription>)
    requires Valid(d)
    ensures Valid(r)
  {
    if !HasId(p) then d
    else if p.id !in d.vals then Put(d, p.id, p)
    else if Ts(p) > Ts(d.vals[p.id]) then Put(d, p.id, p)
    else d
  }

  /** `byId` after the dedup loop over `c`. */
  function Dedup(c: seq<Prescription>): (r: Dict<Prescription>)
    ensures Valid(r)
  {
    if c == [] then Empty() else DedupStep(Dedup(c[..|c| - 1]), c[|c| - 1])
  }

  /** `o[p.id] = p` for every `p` of `s`, in order. */
  function Overlay(d: Dict<Prescription>, s: seq<Prescription>): (r: Dict<Prescription>)
    requires Valid(d)
    ensures Valid(r)
  {
    if s == [] then d else Put(Overlay(d, s[..|s| - 1]), s[|s| - 1].id, s[|s| - 1])
  }

  /** `merged`: the deduplicated copies, newest first. */
  function Merged(c: seq<Prescription>): seq<Prescription> {
    SortDesc(Values(Dedup(c)), Ts)
  }

  /** `finalPresc`: the merged copies overlaid by the role's own list, newest first. */
  function Synced(c: seq<Prescription>, local: seq<Prescription>): seq<Prescription> {
    SortDesc(Values(Overlay(Overlay(Empty(), Merged(c)), local)), Ts)
  }

  /** The last element of `s` with id `k`. */
  function LastWithId(s: seq<Prescription>, k: string): (p: Prescription)
    requires k in IdSet(s)
    ensures p.id == k && p in s
    ensures exists j :: 0 <= j < |s| && s[j] == p && forall i :: j < i < |s| ==> s[i].id != k
  {
    var n := |s| - 1;
    if s[n].id == k then s[n]
    else
      assert s == s[..n] + [s[n]];
      assert k in IdSet(s[..n]) by {
        var q :| q in s && q.id == k;
        assert q in s[..n];
      }
      var p := LastWithId(s[..n], k);
      var j :| 0 <= j < n && s[..n][j] == p && forall i :: j < i < n ==> s[..n][i].id != k;
      assert s[j] == p;
      p
  }

  // ---- The dedup keeps the winner of each id ----

  lemma WinnerExtends(c: seq<Prescription>, x: Prescription, k: string, j: int)
    requires IsWinner(c, k, j)
    requires x.id != k || Ts(x) <= Ts(c[j])
    ensures IsWinner(c + [x], k, j)
  {
    var c' := c + [x];
    assert forall i :: 0 <= i < |c| ==> c'[i] == c[i];
  }

  lemma WinnerFirst(c: seq<Prescription>, x: Prescription)
    requires forall i :: 0 <= i < |c| ==> c[i].id != x.id
    ensures IsWinner(c + [x], x.id, |c|)
  {
    var c' := c + [x];
    assert forall i :: 0 <= i < |c| ==> c'[i] == c[i];
  }

  lemma WinnerBeaten(c: seq<Prescription>, x: Prescription, j: int)
    requires IsWinner(c, x.id, j) && Ts(x) > Ts(c[j])
    ensures IsWinner(c + [x], x.id, |c|)
  {
    var c' := c + [x];
    assert forall i :: 0 <= i < |c| ==> c'[i] == c[i];
  }

  lemma KeptIdsSnoc(c: seq<Prescription>, x: Prescription)
    ensures KeptIds(c + [x]) == KeptIds(c) + (if HasId(x) then {x.id} else {})
  {
    assert forall p :: p in c + [x] <==> p in c || p == x;
  }

  lemma KeptIdsIndex(c: seq<Prescription>, i: int)
    requires 0 <= i < |c| && HasId(c[i])
    ensures c[i].id in KeptIds(c)
  {
    assert c[i] in c;
  }

  /** Every entry of `byId` is filed under its own, non-empty id. */
  lemma {:induction false} DedupKeyed(c: seq<Prescription>)
    ensures KeyedById(Dedup(c))
    ensures forall k :: k in Dedup(c).vals <==> k in KeptIds(c)
  {
    if c != [] {
      var n := |c| - 1;
      assert c == c[..n] + [c[n]];
      DedupKeyed(c[..n]);
      KeptIdsSnoc(c[..n], c[n]);
    }
  }

  /** One step of the dedup loop keeps each entry the winning copy of its id. */
  lemma DedupStepWinners(c0: seq<Prescription>, x: Prescription)
    requires forall k :: k in Dedup(c0).vals <==> k in KeptIds(c0)
    requires forall k :: k in Dedup(c0).vals ==> exists j :: IsWinner(c0, k, j) && c0[j] == Dedup(c0).vals[k]
    ensures forall k :: k in DedupStep(Dedup(c0), x).vals ==>
      exists j :: IsWinner(c0 + [x], k, j) && (c0 + [x])[j] == DedupStep(Dedup(c0), x).vals[k]
  {
    var c := c0 + [x];
    var d0 := Dedup(c0);
    var d := DedupStep(d0, x);
    forall k | k in d.vals ensures exists j :: IsWinner(c, k, j) && c[j] == d.vals[k] {
      if k in d0.vals {
        var j0 :| IsWinner(c0, k, j0) && c0[j0] == d0.vals[k];
        if x.id == k && HasId(x) && Ts(x) > Ts(d0.vals[k]) {
          WinnerBeaten(c0, x, j0);
          assert c[|c0|] == d.vals[k];
        } else {
          WinnerExtends(c0, x, k, j0);
          assert c[j0] == c0[j0];
        }
      } else {
        assert k == x.id && HasId(x);
        forall i | 0 <= i < |c0| ensures c0[i].id != x.id {
          if c0[i].id == x.id { KeptIdsIndex(c0, i); }
        }
        WinnerFirst(c0, x);
        assert c[|c0|] == d.vals[k];
      }
    }
  }

  /** `byId` holds, under each id of `c`, exactly the winning copy. */
  lemma {:induction false} DedupSpec(c: seq<Prescription>)
    ensures KeyedById(Dedup(c))
    ensures forall k :: k in Dedup(c).vals <==> k in KeptIds(c)
    ensures forall k :: k in Dedup(c).vals ==> exists j :: IsWinner(c, k, j) && c[j] == Dedup(c).vals[k]
  {
    DedupKeyed(c);
    if c != [] {
      var n := |c| - 1;
      assert c == c[..n] + [c[n]];
      DedupSpec(c[..n]);
      DedupStepWinners(c[..n], c[n]);
    }
  }

  /** Overlaying `s` files each of its ids under its last element and keeps every other entry. */
  lemma {:induction false} OverlaySpec(d: Dict<Prescription>, s: seq<Prescription>)
    requires Valid(d) && KeyedById(d)
    ensures KeyedById(Overlay(d, s))
    ensures forall k :: k in Overlay(d, s).vals <==> k in d.vals || k in IdSet(s)
    ensures forall k :: k in IdSet(s) ==> Overlay(d, s).vals[k] == LastWithId(s, k)
    ensures forall k :: k in d.vals && k !in IdSet(s) ==> Overlay(d, s).vals[k] == d.vals[k]
  {
    if s != [] {
      var n := |s| - 1;
      var s0, x := s[..n], s[n];
      assert s == s0 + [x];
      OverlaySpec(d, s0);
      IdSetSnoc(s0, x);
      var o0 := Overlay(d, s0);
      assert Overlay(d, s).vals == o0.vals[x.id := x];
      forall k | k in IdSet(s) ensures Overlay(d, s).vals[k] == LastWithId(s, k) {
        if k != x.id {
          LastWithIdSnoc(s0, x, k);
        }
      }
    }
  }

  lemma IdSetSnoc(s: seq<Prescription>, x: Prescription)
    ensures IdSet(s + [x]) == IdSet(s) + {x.id}
  {
    assert forall p :: p in s + [x] <==> p in s || p == x;
  }

  /** Appending an element with another id keeps the last element with `k`. */
  lemma LastWithIdSnoc(s: seq<Prescription>, x: Prescription, k: string)
    requires k in IdSet(s + [x]) && k != x.id
    ensures k in IdSet(s) && LastWithId(s + [x], k) == LastWithId(s, k)
  {
    IdSetSnoc(s, x);
    assert (s + [x])[..|s|] == s;
  }

  /** The values of a dictionary filed by id have distinct ids and are exactly its entries. */
  lemma ValuesOfKeyed(d: Dict<Prescription>)
    requires Valid(d) && KeyedById(d)
    ensures DistinctIds(Values(d))
    ensures forall p :: p in Values(d) <==> p.id in d.vals && d.vals[p.id] == p
    ensures IdSet(Values(d)) == d.vals.Keys
  {
    ValuesMembers(d);
    var r := Values(d);
    forall k | k in d.vals ensures k in IdSet(r) {
      assert d.vals[k] in r;
    }
  }

  /** Sorting a list with distinct ids keeps its ids distinct and its members. */
  lemma SortKeepsIds(s: seq<Prescription>)
    requires DistinctIds(s)
    ensures DistinctIds(SortDesc(s, Ts))
    ensures forall p :: p in SortDesc(s, Ts) <==> p in s
  {
    SortDescMembers(s, Ts);
    PermutationKeepsDistinct(s, SortDesc(s, Ts), (p: Prescription) => p.id);
  }

  /** In a list with distinct ids, the last element with an id is its only element with that id. */
  lemma LastWithIdDistinct(s: seq<Prescription>, p: Prescription)
    requires DistinctIds(s) && p in s
    ensures LastWithId(s, p.id) == p
  {
    DistinctInjective(s, (q: Prescription) => q.id);
    assert p.id in IdSet(s);
    var l := LastWithId(s, p.id);
  }

  /** `merged` holds the winning copy of each collected id, and nothing else. */
  lemma MergedSpec(c: seq<Prescription>)
    ensures DistinctIds(Merged(c))
    ensures IdSet(Merged(c)) == KeptIds(c)
    ensures forall p :: p in Merged(c) ==> exists j :: IsWinner(c, p.id, j) && c[j] == p
  {
    var d := Dedup(c);
    DedupSpec(c);
    ValuesOfKeyed(d);
    SortKeepsIds(Values(d));
    var m := Merged(c);
    assert IdSet(m) == IdSet(Values(d)) by {
      assert forall p :: p in m <==> p in Values(d);
    }
  }

  /** `mergedById` before the local overlay: the winners, filed by id. */
  lemma MergedByIdSpec(c: seq<Prescription>)
    ensures KeyedById(Overlay(Empty(), Merged(c)))
    ensures forall k :: k in Overlay(Empty(), Merged(c)).vals <==> k in KeptIds(c)
    ensures forall k :: k in Overlay(Empty(), Merged(c)).vals ==>
      exists j :: IsWinner(c, k, j) && c[j] == Overlay(Empty(), Merged(c)).vals[k]
  {
    var m := Merged(c);
    MergedSpec(c);
    OverlaySpec(Empty(), m);
    var d1 := Overlay(Empty(), m);
    forall k | k in d1.vals ensures exists j :: IsWinner(c, k, j) && c[j] == d1.vals[k] {
      var p := LastWithId(m, k);
      assert p in m;
    }
  }

  /** What the sync writes back, in terms of what it collected (`c`) and the role's own list. */
  lemma SyncedSpec(c: seq<Prescription>, local: seq<Prescription>)
    ensures SortedDesc(Synced(c, local), Ts)
    ensures DistinctIds(Synced(c, local))
    ensures IdSet(Synced(c, local)) == KeptIds(c) + IdSet(local)
    ensures forall p :: p in Synced(c, local) && p.id in IdSet(local) ==> p == LastWithId(local, p.id)
    ensures forall p :: p in Synced(c, local) && p.id !in IdSet(local) ==>
      exists j :: IsWinner(c, p.id, j) && c[j] == p
  {
    var d1 := Overlay(Empty(), Merged(c));
    MergedByIdSpec(c);
    OverlaySpec(d1, local);
    var d2 := Overlay(d1, local);
    ValuesOfKeyed(d2);
    SortKeepsIds(Values(d2));
    var f := Synced(c, local);
    assert IdSet(f) == IdSet(Values(d2)) by {
      assert forall p :: p in f <==> p in Values(d2);
    }
  }

  /** Syncing a role whose own list already holds every collected id, once each,
      keeps exactly the role's own records: re-running a sync changes no record. */
  lemma SyncedStable(c: seq<Prescription>, local: seq<Prescription>)
    requires DistinctIds(local)
    requires KeptIds(c) <= IdSet(local)
    ensures forall p :: p in Synced(c, local) <==> p in local
    ensures DistinctIds(Synced(c, local))
  {
    SyncedSpec(c, local);
    var f := Synced(c, local);
    forall q | q in local ensures q in f {
      LastWithIdDistinct(local, q);
      assert q.id in IdSet(local);
      assert q.id in IdSet(f);
      var p :| p in f && p.id == q.id;
      assert p == LastWithId(local, q.id);
    }
    forall p | p in f ensures p in local {
      assert p.id in IdSet(f);
      assert p.id in IdSet(local);
      var l := LastWithId(local, p.id);
      assert l in local;
    }
  }

  /** The dedup loop over two prescriptions of different ids keeps both, in order. */
  lemma DedupPair(a: Prescription, b: Prescription)
    requires HasId(a) && HasId(b) && a.id != b.id
    ensures Dedup([a, b]).keys == [a.id, b.id]
    ensures Dedup([a, b]).vals == map[a.id := a, b.id := b]
  {
    assert [a][..0] == [];
    assert Dedup([a]) == Put(Empty(), a.id, a);
    assert [a, b][..1] == [a];
    assert Dedup([a, b]) == Put(Dedup([a]), b.id, b);
  }

  /** A further copy no newer than the stored one leaves the dedup unchanged. */
  lemma DedupSkipsOlder(c: seq<Prescription>, p: Prescription)
    requires p.id in Dedup(c).vals && Ts(p) <= Ts(Dedup(c).vals[p.id])
    ensures Dedup(c + [p]) == Dedup(c)
  {
    assert (c + [p])[..|c|] == c;
    assert Dedup(c + [p]) == DedupStep(Dedup(c), p);
  }

  /** `Object.values` of a two-key object. */
  lemma ValuesPair(d: Dict<Prescription>)
    requires Valid(d) && |d.keys| == 2
    ensures Values(d) == [d.vals[d.keys[0]], d.vals[d.keys[1]]]
  {
  }

  /** Overlaying a two-element list is two assignments in order. */
  lemma OverlayPair(d: Dict<Prescription>, a: Prescription, b: Prescription)
    requires Valid(d)
    ensures Overlay(d, [a, b]) == Put(Put(d, a.id, a), b.id, b)
  {
    assert Overlay(d, []) == d;
    assert [a][..0] == [];
    assert Overlay(d, [a]) == Put(d, a.id, a);
    assert [a, b][..1] == [a];
  }

  /** Two prescriptions of different ids and a third copy of one of them that
      is no newer: the dedup drops the third, and the two come out newest first. */
  lemma MergedOfThree(a: Prescription, b: Prescription, x: Prescription)
    requires HasId(a) && HasId(b) && a.id != b.id
    requires (x.id == a.id && Ts(x) <= Ts(a)) || (x.id == b.id && Ts(x) <= Ts(b))
    ensures Merged([a, b, x]) == if Ts(a) >= Ts(b) then [a, b] else [b, a]
  {
    DedupPair(a, b);
    DedupSkipsOlder([a, b], x);
    assert [a, b] + [x] == [a, b, x];
    ValuesPair(Dedup([a, b]));
    SortPair(a, b, Ts);
  }

  /** Overlaying two prescriptions of different ids onto an empty object. */
  lemma OverlayFresh(a: Prescription, b: Prescription)
    requires a.id != b.id
    ensures Overlay(Empty(), [a, b]).keys == [a.id, b.id]
    ensures Overlay(Empty(), [a, b]).vals[a.id] == a && Overlay(Empty(), [a, b]).vals[b.id] == b
  {
    OverlayPair(Empty(), a, b);
  }

  /** Overlaying ids the object already holds keeps its key order. */
  lemma OverlayOnto(d: Dict<Prescription>, x: Prescription, y: Prescription)
    requires Valid(d) && x.id in d.vals && y.id in d.vals
    ensures Overlay(d, [x, y]).keys == d.keys
    ensures Overlay(d, [x, y]).vals == d.vals[x.id := x][y.id := y]
  {
    OverlayPair(d, x, y);
  }

  /** The first run of the merge when the role's own list holds two copies
      `l1`, `l2` of one id, the later one older, and another role holds `n`
      with the older copy's timestamp: the role ends with `[l2, n]`. */
  lemma FirstRunOfDuplicates(l1: Prescription, l2: Prescription, n: Prescription)
    requires HasId(l1) && HasId(n) && l1.id == l2.id && n.id != l1.id
    requires Ts(l2) == Ts(n) < Ts(l1)
    ensures Synced([n, l1, l2], [l1, l2]) == [l2, n]
  {
    MergedOfThree(n, l1, l2);
    OverlayFresh(l1, n);
    var o1 := Overlay(Empty(), [l1, n]);
    OverlayOnto(o1, l1, l2);
    ValuesPair(Overlay(o1, [l1, l2]));
    SortPair(l2, n, Ts);
  }

  /** The second run, on what the first left: `[n, l2]` collected from the
      other role and the dedup's own, with the role's list `[l2, n]`. */
  lemma SecondRunOfDuplicates(l2: Prescription, n: Prescription)
    requires HasId(l2) && HasId(n) && n.id != l2.id
    requires Ts(l2) == Ts(n)
    ensures Synced([n, l2, n], [l2, n]) == [n, l2]
  {
    MergedOfThree(n, l2, n);
    OverlayFresh(n, l2);
    var o1 := Overlay(Empty(), [n, l2]);
    OverlayOnto(o1, l2, n);
    ValuesPair(Overlay(o1, [l2, n]));
    SortPair(n, l2, Ts);
  }

  /** Re-running the merge on what the first run left swaps the two records of
      equal timestamp: a rerun is not order-stable when the role's own list
      held one id twice before the first sync. */
  lemma RerunReordersDuplicates(l1: Prescription, l2: Prescription, n: Prescription)
    requires HasId(l1) && HasId(n) && l1.id == l2.id && n.id != l1.id
    requires Ts(l2) == Ts(n) < Ts(l1)
    ensures Synced([n, l1, l2], [l1, l2]) == [l2, n]
    ensures Synced([n, l2, n], [l2, n]) == [n, l2]
  {
    FirstRunOfDuplicates(l1, l2, n);
    SecondRunOfDuplicates(l2, n);
  }

  /** The dedup loop: `byId[p.id]` is set when the id is new, or replaced when
      the copy's timestamp is strictly greater; copies without an id are skipped. */
  method DedupById(collected: seq<Prescription>) returns (byId: Dict<Prescription>)
    ensures byId == Dedup(collected)
  {
    byId := Empty();
    var i := 0;
    while i < |collected|
      invariant 0 <= i <= |collected|
      invariant byId == Dedup(collected[..i])
    {
      var p := collected[i];
      assert collected[..i + 1][..i] == collected[..i];
      if !HasId(p) {
      } else if p.id !in byId.vals {
        byId := Put(byId, p.id, p);
      } else if Ts(p) > Ts(byId.vals[p.id]) {
        byId := Put(byId, p.id, p);
      }
      i := i + 1;
    }
    assert collected[..|collected|] == collected;
  }

  /** `list.forEach(p => o[p.id] = p)`. */
  method OverlayById(d: Dict<Prescription>, list: seq<Prescription>) returns (o: Dict<Prescription>)
    requires Valid(d)
    ensures o == Overlay(d, list)
  {
    o := d;
    var i := 0;
    while i < |list|
      invariant 0 <= i <= |list|
      invariant o == Overlay(d, list[..i])
    {
      assert list[..i + 1][..i] == list[..i] && list[..i + 1][i] == list[i];
      assert Overlay(d, list[..i + 1]) == Put(Overlay(d, list[..i]), list[i].id, list[i]);
      o := Put(o, list[i].id, list[i]);
      i := i + 1;
    }
    assert list[..|list|] == list;
  }

  /** The merge inside the sync: dedup the collected copies, sort them newest
      first, overlay the role's own list on them, and sort again. */
  method SyncedById(collected: seq<Prescription>, local: seq<Prescription>) returns (finalPresc: seq<Prescription>)
    ensures finalPresc == Synced(collected, local)
  {
    var byId := DedupById(collected);
    var merged := SortDesc(Values(byId), Ts);
    var mergedById := OverlayById(Empty(), merged);
    mergedById := OverlayById(mergedById, local);
    finalPresc := SortDesc(Values(mergedById), Ts);
  }
}
