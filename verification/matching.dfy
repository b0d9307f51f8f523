/**
  The interaction matcher of the modular version: `consult_next`, the two
  matching phases of `match_interactions`, and the resolution of the queued
  claims.
*/
module Matching {
  import opened Wrappers
  import opened Grid
  import opened Goods
  import opened Lists
  import opened World
  import opened Facilities
  import opened Queue

  /** The two phases: drop-off (hogs with cargo, takers) and pick-up (empty-handed hogs, givers). */
  datatype Phase = DropOff | PickUp

  /** `target instanceof type` for the phase's type. */
  predicate Serves(k: Kind, phase: Phase) {
    if phase == DropOff then IsTaker(k) else IsGiver(k)
  }

  /** `hog.holding.name`: undefined (`None`) for an empty-handed hog. */
  function HoldName(hog: Hog): Option<string> {
    if hog.holding.Some? then Some(hog.holding.value.name) else None
  }

  /** `hog.holding ? hog.holding.name : ''`. */
  function GoodKey(hog: Hog): string {
    if hog.holding.Some? then hog.holding.value.name else ""
  }

  /** Whether hog `x` exists and carries a good named `n` (or nothing, for `None`). */
  predicate Named(hogs: seq<Hog>, x: HogId, n: Option<string>) {
    x < |hogs| && HoldName(hogs[x]) == n
  }

  /** The hogs of `list` whose `holding.name` is `n`, in order. */
  function WithHoldName(hogs: seq<Hog>, list: seq<HogId>, n: Option<string>): (r: seq<HogId>)
    ensures |r| <= |list|
  {
    if |list| == 0 then []
    else (if Named(hogs, list[0], n) then [list[0]] else []) + WithHoldName(hogs, list[1..], n)
  }

  /** Everything `WithHoldName` keeps is listed and carries the name. */
  lemma {:induction false} WithHoldNameSound(hogs: seq<Hog>, list: seq<HogId>, n: Option<string>)
    ensures forall x :: x in WithHoldName(hogs, list, n) ==> x in list && Named(hogs, x, n)
  {
    if |list| > 0 {
      WithHoldNameSound(hogs, list[1..], n);
      assert forall x :: x in list[1..] ==> x in list;
    }
  }

  /**
    `competing_hogs`: the hogs already queued for `f`; in the drop-off phase
    only those carrying a good of the same name as hog `h`.
  */
  function Competing(hogs: seq<Hog>, q: seq<Claim>, f: FacId, h: HogId, phase: Phase): (r: seq<HogId>)
    requires h < |hogs| && forall c :: c in q ==> c.hog < |hogs|
    ensures forall x :: x in r ==> x < |hogs| && Claim(x, f) in q
  {
    WithHoldNameSound(hogs, HogsOf(q, f), HoldName(hogs[h]));
    if phase == DropOff then WithHoldName(hogs, HogsOf(q, f), HoldName(hogs[h])) else HogsOf(q, f)
  }

  /** `rank(h)`: the position of the hog's tile in the facility's `tile_preferences`; -1, the best, if absent. */
  function Rank(fac: Facility, hog: Hog): (r: int)
    ensures -1 <= r < |fac.tilePrefs|
    ensures r == -1 <==> Some(hog.tile) !in fac.tilePrefs
  {
    IndexOf(fac.tilePrefs, Some(hog.tile))
  }

  /**
    Sorting with a stable sort by rank and popping takes the last of the
    entries of maximal rank: this is its position.
  */
  function LastMaxIndex(ranks: seq<int>): (k: nat)
    requires |ranks| > 0
    ensures k < |ranks|
    ensures forall j :: 0 <= j < |ranks| ==> ranks[j] <= ranks[k]
    ensures forall j :: k < j < |ranks| ==> ranks[j] < ranks[k]
  {
    if |ranks| == 1 then 0
    else
      var k := LastMaxIndex(ranks[..|ranks| - 1]);
      assert forall j :: 0 <= j < |ranks| - 1 ==> ranks[..|ranks| - 1][j] == ranks[j];
      if ranks[|ranks| - 1] >= ranks[k] then |ranks| - 1 else k
  }

  /** The two properties of `LastMaxIndex` determine it. */
  lemma LastMaxUnique(ranks: seq<int>, k: nat)
    requires k < |ranks|
    requires forall j :: 0 <= j < |ranks| ==> ranks[j] <= ranks[k]
    requires forall j :: k < j < |ranks| ==> ranks[j] < ranks[k]
    ensures k == LastMaxIndex(ranks)
  {
  }

  /** The ranks of a list of hogs at a facility. */
  function Ranks(fac: Facility, hogs: seq<Hog>, cands: seq<HogId>): (r: seq<int>)
    requires forall i :: 0 <= i < |cands| ==> cands[i] < |hogs|
    ensures |r| == |cands| && forall i :: 0 <= i < |cands| ==> r[i] == Rank(fac, hogs[cands[i]])
  {
    seq(|cands|, i requires 0 <= i < |cands| => Rank(fac, hogs[cands[i]]))
  }

  /** `competing_hogs.sort(by rank).pop()`: the worst-ranked candidate, the last one among equals. */
  function Disfavored(fac: Facility, hogs: seq<Hog>, cands: seq<HogId>): (d: HogId)
    requires |cands| > 0 && forall i :: 0 <= i < |cands| ==> cands[i] < |hogs|
    ensures d in cands
    ensures forall i :: 0 <= i < |cands| ==> Rank(fac, hogs[cands[i]]) <= Rank(fac, hogs[d])
    ensures exists k :: 0 <= k < |cands| && cands[k] == d &&
              forall j :: k < j < |cands| ==> Rank(fac, hogs[cands[j]]) < Rank(fac, hogs[d])
  {
    var ranks := Ranks(fac, hogs, cands);
    var k := LastMaxIndex(ranks);
    assert forall j :: k < j < |cands| ==> Rank(fac, hogs[cands[j]]) < Rank(fac, hogs[cands[k]]);
    cands[k]
  }

  /** The matcher's state: hogs (their preferences are consumed), the work list and the claim queue. */
  datatype MatchState = MatchState(hogs: seq<Hog>, work: seq<HogId>, queue: seq<Claim>)

  /** Preferences only name facilities that exist. */
  ghost predicate PrefsInRange(hogs: seq<Hog>, nfacs: nat) {
    forall x, p :: 0 <= x < |hogs| && p in hogs[x].prefs && p.Some? ==> p.value < nfacs
  }

  /** Indices in range and every shop input's target known to the table. */
  ghost predicate WellFormed(table: GoodsTable, facs: seq<Facility>, st: MatchState) {
    && (forall f :: 0 <= f < |facs| ==> ShopKnown(table, facs[f]))
    && (forall i :: 0 <= i < |st.work| ==> st.work[i] < |st.hogs|)
    && ClaimsInRange(st.queue, |st.hogs|, |facs|)
    && PrefsInRange(st.hogs, |facs|)
  }

  function Max0(c: int): nat {
    if c < 0 then 0 else c
  }

  /**
    The capacity invariant: for every facility and every hog, the claims that
    hog would compete with number at most the facility's capacity for the
    hog's good (and none when that capacity is not positive).
  */
  ghost predicate WithinCapacity(table: GoodsTable, facs: seq<Facility>, st: MatchState, phase: Phase)
    requires WellFormed(table, facs, st)
  {
    forall f, x :: 0 <= f < |facs| && 0 <= x < |st.hogs| ==>
      |Competing(st.hogs, st.queue, f, x, phase)| <= Max0(Capacity(table, facs[f], GoodKey(st.hogs[x])))
  }

  /** The termination measure's first component: preferences left over all hogs. */
  function TotalPrefs(hogs: seq<Hog>): nat {
    if |hogs| == 0 then 0 else |hogs[0].prefs| + TotalPrefs(hogs[1..])
  }

  lemma {:induction false} TotalPrefsUpdate(hogs: seq<Hog>, i: nat, hog: Hog)
    requires i < |hogs|
    ensures TotalPrefs(hogs[i := hog]) == TotalPrefs(hogs) - |hogs[i].prefs| + |hog.prefs|
  {
    if i > 0 {
      assert hogs[i := hog][1..] == hogs[1..][i - 1 := hog];
      TotalPrefsUpdate(hogs[1..], i - 1, hog);
    }
  }

  /**
    `q` is the queue with the front hog's claim on its next preference added,
    a facility of the phase's kind with room for it.
  */
  ghost predicate ClaimUnderCapacity(table: GoodsTable, facs: seq<Facility>, st: MatchState, q: seq<Claim>, phase: Phase)
    requires WellFormed(table, facs, st) && |st.work| > 0
  {
    var h := st.work[0];
    var hog := st.hogs[h];
    && |hog.prefs| > 0
    && hog.prefs[0].Some?
    && hog.prefs[0].value < |facs|
    && q == st.queue + [Claim(h, hog.prefs[0].value)]
    && Serves(facs[hog.prefs[0].value].kind, phase)
    && |Competing(st.hogs, st.queue, hog.prefs[0].value, h, phase)|
       < Capacity(table, facs[hog.prefs[0].value], GoodKey(hog))
  }

  /** The front hog's first preference is consumed (`interact_preferences.shift()`). */
  function ShiftPref(hogs: seq<Hog>, h: HogId, nfacs: nat): (r: seq<Hog>)
    requires h < |hogs| && |hogs[h].prefs| > 0 && PrefsInRange(hogs, nfacs)
    ensures r == hogs[h := hogs[h].(prefs := hogs[h].prefs[1..])]
    ensures PrefsInRange(r, nfacs)
    ensures TotalPrefs(r) < TotalPrefs(hogs)
  {
    var hog := hogs[h];
    var r := hogs[h := hog.(prefs := hog.prefs[1..])];
    TotalPrefsUpdate(hogs, h, hog.(prefs := hog.prefs[1..]));
    assert PrefsInRange(r, nfacs) by {
      forall x, p | 0 <= x < |r| && p in r[x].prefs && p.Some?
        ensures p.value < nfacs
      {
        if x == h {
          assert p in hog.prefs;
        } else {
          assert p in hogs[x].prefs;
        }
      }
    }
    r
  }

  /** A work list stays in range when its head is dropped and an in-range hog is appended. */
  lemma WorkInRange(work: seq<HogId>, d: HogId, n: nat)
    requires |work| > 0 && d < n
    requires forall i :: 0 <= i < |work| ==> work[i] < n
    ensures forall i :: 0 <= i < |work[1..] + [d]| ==> (work[1..] + [d])[i] < n
    ensures forall i :: 0 <= i < |work[1..]| ==> work[1..][i] < n
  {
  }

  /**
    `consult_next`: the hog at the front of the work list takes its next
    preference.  No preference left: it drops out.  A facility of the wrong
    kind (or none): it goes to the back of the list.  Room at the facility:
    the claim is queued.  No room: the claim is added and then `remove_pair`
    takes the last pair off again, and the worst-ranked of the competitors and
    the hog goes to the back of the list.
  */
  function ConsultNext(table: GoodsTable, facs: seq<Facility>, st: MatchState, phase: Phase): (r: MatchState)
    requires WellFormed(table, facs, st) && |st.work| > 0
    ensures WellFormed(table, facs, r)
    ensures |r.hogs| == |st.hogs|
    ensures var h := st.work[0];
            && (|st.hogs[h].prefs| == 0 ==> r == st.(work := st.work[1..]))
            && (|st.hogs[h].prefs| > 0 ==> r.hogs == st.hogs[h := st.hogs[h].(prefs := st.hogs[h].prefs[1..])])
    ensures Consulted(table, facs, st, r, phase)
    ensures r.queue == st.queue || ClaimUnderCapacity(table, facs, st, r.queue, phase)
    ensures r.work == st.work[1..] || (|r.work| == |st.work| && r.work[..|st.work| - 1] == st.work[1..])
    ensures forall x :: x in r.work ==> x in st.work || exists c :: c in st.queue && c.hog == x
    ensures TotalPrefs(r.hogs) < TotalPrefs(st.hogs) || (r.hogs == st.hogs && |r.work| < |st.work|)
  {
    var h := st.work[0];
    WorkInRange(st.work, h, |st.hogs|);
    if |st.hogs[h].prefs| == 0 then st.(work := st.work[1..])
    else ConsultTarget(table, facs, st, phase)
  }

  /**
    What `consult_next` does for the front hog `h` with a preference left:
    a hole or a facility of the wrong kind sends `h` to the back of the work
    list; a facility with room queues `h`'s claim; a full one leaves the
    queue as it was (`remove_pair` takes the pair just added) and sends the
    worst-ranked candidate to the back.
  */
  ghost predicate Consulted(table: GoodsTable, facs: seq<Facility>, st: MatchState, r: MatchState, phase: Phase)
    requires WellFormed(table, facs, st) && |st.work| > 0
  {
    var h := st.work[0];
    var p := st.hogs[h].prefs;
    |p| > 0 ==>
      if p[0].None? || p[0].value >= |facs| || !Serves(facs[p[0].value].kind, phase) then
        r.work == st.work[1..] + [h] && r.queue == st.queue
      else if |Competing(st.hogs, st.queue, p[0].value, h, phase)| < Capacity(table, facs[p[0].value], GoodKey(st.hogs[h])) then
        r.work == st.work[1..] && r.queue == st.queue + [Claim(h, p[0].value)]
      else
        r.work == st.work[1..] + [Boot(table, facs, st, p[0].value, phase)] && r.queue == st.queue
  }

  /** `consult_next` for a hog with a preference left. */
  function ConsultTarget(table: GoodsTable, facs: seq<Facility>, st: MatchState, phase: Phase): (r: MatchState)
    requires WellFormed(table, facs, st) && |st.work| > 0 && |st.hogs[st.work[0]].prefs| > 0
    ensures WellFormed(table, facs, r)
    ensures r.hogs == ShiftPref(st.hogs, st.work[0], |facs|)
    ensures Consulted(table, facs, st, r, phase)
    ensures r.queue == st.queue || ClaimUnderCapacity(table, facs, st, r.queue, phase)
    ensures r.work == st.work[1..] || (|r.work| == |st.work| && r.work[..|st.work| - 1] == st.work[1..])
    ensures forall x :: x in r.work ==> x in st.work || exists c :: c in st.queue && c.hog == x
  {
    var h := st.work[0];
    var rest := st.work[1..];
    var hog := st.hogs[h];
    var target := hog.prefs[0];
    assert target in hog.prefs;
    var hogs' := ShiftPref(st.hogs, h, |facs|);
    WorkInRange(st.work, h, |st.hogs|);
    assert (rest + [h])[..|st.work| - 1] == rest;
    if target.None? || !Serves(facs[target.value].kind, phase) then
      MatchState(hogs', rest + [h], st.queue)
    else
      var f := target.value;
      var competing := Competing(st.hogs, st.queue, f, h, phase);
      if |competing| < Capacity(table, facs[f], GoodKey(hog)) then
        MatchState(hogs', rest, AddPair(st.queue, Claim(h, f)))
      else
        var d := Boot(table, facs, st, f, phase);
        WorkInRange(st.work, d, |st.hogs|);
        assert (rest + [d])[..|st.work| - 1] == rest;
        AddThenRemove(st.queue, Claim(h, f), Claim(d, f));
        MatchState(hogs', rest + [d], RemovePair(AddPair(st.queue, Claim(h, f)), Claim(d, f)))
  }

  /** At capacity: the worst-ranked of the competitors and the claiming hog. */
  function Boot(table: GoodsTable, facs: seq<Facility>, st: MatchState, f: FacId, phase: Phase): (d: HogId)
    requires WellFormed(table, facs, st) && |st.work| > 0 && f < |facs|
    ensures d < |st.hogs|
    ensures d == st.work[0] || exists c :: c in st.queue && c.hog == d
    ensures d == st.work[0] || d in Competing(st.hogs, st.queue, f, st.work[0], phase)
    ensures forall x :: x in Competing(st.hogs, st.queue, f, st.work[0], phase) ==>
              Rank(facs[f], st.hogs[x]) <= Rank(facs[f], st.hogs[d])
    ensures Rank(facs[f], st.hogs[st.work[0]]) <= Rank(facs[f], st.hogs[d])
    ensures Rank(facs[f], st.hogs[st.work[0]]) == Rank(facs[f], st.hogs[d]) ==> d == st.work[0]
  {
    var h := st.work[0];
    var competing := Competing(st.hogs, st.queue, f, h, phase);
    var cands := competing + [h];
    assert forall i :: 0 <= i < |cands| ==> cands[i] < |st.hogs| by {
      forall i | 0 <= i < |cands| ensures cands[i] < |st.hogs| {
        if i < |competing| {
          assert cands[i] in competing;
        }
      }
    }
    var d := Disfavored(facs[f], st.hogs, cands);
    assert d != h ==> d in competing;
    assert cands[|competing|] == h;
    assert Rank(facs[f], st.hogs[h]) == Rank(facs[f], st.hogs[d]) ==> d == h by {
      var k := LastMaxIndex(Ranks(facs[f], st.hogs, cands));
      assert d == cands[k];
      if k < |competing| {
        assert Ranks(facs[f], st.hogs, cands)[|competing|] < Ranks(facs[f], st.hogs, cands)[k];
      }
    }
    forall x | x in competing
      ensures Rank(facs[f], st.hogs[x]) <= Rank(facs[f], st.hogs[d])
    {
      var i :| 0 <= i < |competing| && competing[i] == x;
      assert cands[i] == x;
    }
    d
  }

  lemma {:induction false} WithHoldNameAppend(hogs: seq<Hog>, list: seq<HogId>, y: HogId, n: Option<string>)
    ensures WithHoldName(hogs, list + [y], n) ==
              WithHoldName(hogs, list, n) + (if Named(hogs, y, n) then [y] else [])
  {
    if |list| == 0 {
      assert [y][1..] == [];
    } else {
      var l := list + [y];
      assert l[0] == list[0] && l[1..] == list[1..] + [y];
      WithHoldNameAppend(hogs, list[1..], y, n);
      var hd := if Named(hogs, list[0], n) then [list[0]] else [];
      var tl := if Named(hogs, y, n) then [y] else [];
      assert WithHoldName(hogs, l, n) == hd + WithHoldName(hogs, l[1..], n);
      assert hd + (WithHoldName(hogs, list[1..], n) + tl) == (hd + WithHoldName(hogs, list[1..], n)) + tl;
    }
  }

  /** Which hogs compete depends on what the hogs carry, not on their preferences. */
  lemma {:induction false} WithHoldNameCargoOnly(hogs: seq<Hog>, hogs': seq<Hog>, list: seq<HogId>, n: Option<string>)
    requires |hogs'| == |hogs| && forall x :: 0 <= x < |hogs| ==> hogs'[x].holding == hogs[x].holding
    ensures WithHoldName(hogs', list, n) == WithHoldName(hogs, list, n)
  {
    if |list| > 0 {
      WithHoldNameCargoOnly(hogs, hogs', list[1..], n);
    }
  }

  /**
    `consult_next` keeps the capacity invariant: a claim is only added below
    capacity, and the at-capacity add is undone by `remove_pair`.
  */
  lemma ConsultKeepsCapacity(table: GoodsTable, facs: seq<Facility>, st: MatchState, phase: Phase)
    requires WellFormed(table, facs, st) && |st.work| > 0
    requires WithinCapacity(table, facs, st, phase)
    ensures WithinCapacity(table, facs, ConsultNext(table, facs, st, phase), phase)
  {
    var r := ConsultNext(table, facs, st, phase);
    forall f, x | 0 <= f < |facs| && 0 <= x < |r.hogs|
      ensures |Competing(r.hogs, r.queue, f, x, phase)| <= Max0(Capacity(table, facs[f], GoodKey(r.hogs[x])))
    {
      assert |Competing(st.hogs, st.queue, f, x, phase)| <= Max0(Capacity(table, facs[f], GoodKey(st.hogs[x])));
      CapacityAt(table, facs, st, r, phase, f, x);
    }
  }

  /** `ConsultKeepsCapacity` for one facility and one hog. */
  lemma CapacityAt(table: GoodsTable, facs: seq<Facility>, st: MatchState, r: MatchState, phase: Phase, f: FacId, x: HogId)
    requires WellFormed(table, facs, st) && |st.work| > 0 && WellFormed(table, facs, r)
    requires |r.hogs| == |st.hogs| && forall y :: 0 <= y < |st.hogs| ==> r.hogs[y].holding == st.hogs[y].holding
    requires r.queue == st.queue || ClaimUnderCapacity(table, facs, st, r.queue, phase)
    requires f < |facs| && x < |st.hogs|
    requires |Competing(st.hogs, st.queue, f, x, phase)| <= Max0(Capacity(table, facs[f], GoodKey(st.hogs[x])))
    ensures |Competing(r.hogs, r.queue, f, x, phase)| <= Max0(Capacity(table, facs[f], GoodKey(r.hogs[x])))
  {
    var h := st.work[0];
    assert GoodKey(r.hogs[x]) == GoodKey(st.hogs[x]);
    assert HoldName(r.hogs[x]) == HoldName(st.hogs[x]);
    if r.queue == st.queue {
      if phase == DropOff {
        WithHoldNameCargoOnly(st.hogs, r.hogs, HogsOf(st.queue, f), HoldName(st.hogs[x]));
      }
    } else {
      var g := st.hogs[h].prefs[0].value;
      var c := Claim(h, g);
      var room := Capacity(table, facs[g], GoodKey(st.hogs[h]));
      assert |Competing(st.hogs, st.queue, g, h, phase)| < room;
      HogsOfAppend(st.queue, c, f);
      if phase == DropOff {
        WithHoldNameCargoOnly(st.hogs, r.hogs, HogsOf(st.queue + [c], f), HoldName(st.hogs[x]));
        WithHoldNameAppend(st.hogs, HogsOf(st.queue, f), h, HoldName(st.hogs[x]));
        var n := HoldName(st.hogs[x]);
        assert Competing(r.hogs, r.queue, f, x, phase) == WithHoldName(st.hogs, HogsOf(st.queue + [c], f), n);
        if f != g {
          assert HogsOf(st.queue + [c], f) == HogsOf(st.queue, f);
        } else if HoldName(st.hogs[h]) == n {
          assert GoodKey(st.hogs[h]) == GoodKey(st.hogs[x]);
          assert Competing(st.hogs, st.queue, g, x, phase) == Competing(st.hogs, st.queue, g, h, phase);
        } else {
          assert WithHoldName(st.hogs, HogsOf(st.queue + [c], f), n) == WithHoldName(st.hogs, HogsOf(st.queue, f), n);
        }
      } else if f == g {
        assert IsGiver(facs[g].kind);
        assert Capacity(table, facs[g], GoodKey(st.hogs[x])) == room;
      }
    }
  }

  /** `a` is what is left of `b` after some `shift()`s. */
  ghost predicate IsSuffix<T>(a: seq<T>, b: seq<T>) {
    |a| <= |b| && a == b[|b| - |a|..]
  }

  /**
    What a phase keeps true about the hogs it started from (`hogs0`) and the
    hogs of its work list (`work0`): only preferences change, each to what is
    left of the original after some `shift()`s; every claim is on a facility of
    the phase's kind that its hog originally preferred, and made by a hog of
    the work list; the work list holds only such hogs.
  */
  ghost predicate Tracks(facs: seq<Facility>, hogs0: seq<Hog>, work0: seq<HogId>, st: MatchState, phase: Phase)
  {
    TracksHogs(hogs0, st) && TracksClaims(facs, hogs0, work0, st, phase)
  }

  /** Only preferences change, and each hog's preferences are what is left of its initial ones. */
  ghost predicate TracksHogs(hogs0: seq<Hog>, st: MatchState)
  {
    && |st.hogs| == |hogs0|
    && (forall x :: 0 <= x < |hogs0| ==> st.hogs[x] == hogs0[x].(prefs := st.hogs[x].prefs))
    && (forall x :: 0 <= x < |hogs0| ==> IsSuffix(st.hogs[x].prefs, hogs0[x].prefs))
  }

  /** Every claim pairs a hog of the initial work list with a facility it preferred that serves the phase. */
  ghost predicate TracksClaims(facs: seq<Facility>, hogs0: seq<Hog>, work0: seq<HogId>, st: MatchState, phase: Phase)
  {
    && (forall c :: c in st.queue ==>
          && c.fac < |facs| && c.hog < |hogs0|
          && Serves(facs[c.fac].kind, phase)
          && Some(c.fac) in hogs0[c.hog].prefs
          && c.hog in work0)
    && (forall x :: x in st.work ==> x in work0)
  }

  lemma ConsultKeepsTrack(table: GoodsTable, facs: seq<Facility>, hogs0: seq<Hog>, work0: seq<HogId>,
                          st: MatchState, phase: Phase)
    requires WellFormed(table, facs, st) && |st.work| > 0
    requires Tracks(facs, hogs0, work0, st, phase)
    ensures Tracks(facs, hogs0, work0, ConsultNext(table, facs, st, phase), phase)
  {
    ConsultKeepsHogs(table, facs, hogs0, st, phase);
    ConsultKeepsClaims(table, facs, hogs0, work0, st, phase);
  }

  lemma ConsultKeepsHogs(table: GoodsTable, facs: seq<Facility>, hogs0: seq<Hog>, st: MatchState, phase: Phase)
    requires WellFormed(table, facs, st) && |st.work| > 0
    requires TracksHogs(hogs0, st)
    ensures TracksHogs(hogs0, ConsultNext(table, facs, st, phase))
  {
    var r := ConsultNext(table, facs, st, phase);
    var h := st.work[0];
    assert h in st.work;
    if |st.hogs[h].prefs| > 0 {
      PopKeepsHogs(hogs0, st, h, r);
    }
  }

  /** Dropping the first preference of one hog keeps every hog's preferences a suffix of its initial ones. */
  lemma PopKeepsHogs(hogs0: seq<Hog>, st: MatchState, h: HogId, r: MatchState)
    requires TracksHogs(hogs0, st) && h < |st.hogs| && |st.hogs[h].prefs| > 0
    requires r.hogs == st.hogs[h := st.hogs[h].(prefs := st.hogs[h].prefs[1..])]
    ensures TracksHogs(hogs0, r)
  {
    var p := st.hogs[h].prefs;
    var p0 := hogs0[h].prefs;
    assert p == p0[|p0| - |p|..];
    assert p[1..] == p0[|p0| - |p[1..]|..];
    forall x | 0 <= x < |hogs0|
      ensures IsSuffix(r.hogs[x].prefs, hogs0[x].prefs)
    {
      if x != h {
        assert r.hogs[x] == st.hogs[x];
      }
    }
  }

  lemma ConsultKeepsClaims(table: GoodsTable, facs: seq<Facility>, hogs0: seq<Hog>, work0: seq<HogId>,
                           st: MatchState, phase: Phase)
    requires WellFormed(table, facs, st) && |st.work| > 0
    requires TracksHogs(hogs0, st) && TracksClaims(facs, hogs0, work0, st, phase)
    ensures TracksClaims(facs, hogs0, work0, ConsultNext(table, facs, st, phase), phase)
  {
    var r := ConsultNext(table, facs, st, phase);
    var h := st.work[0];
    assert h in st.work;
    forall c | c in r.queue
      ensures && c.fac < |facs| && c.hog < |hogs0|
              && Serves(facs[c.fac].kind, phase)
              && Some(c.fac) in hogs0[c.hog].prefs
              && c.hog in work0
    {
      if c !in st.queue {
        assert ClaimUnderCapacity(table, facs, st, r.queue, phase);
        assert c == Claim(h, st.hogs[h].prefs[0].value);
        var p := st.hogs[h].prefs;
        var p0 := hogs0[h].prefs;
        assert p == p0[|p0| - |p|..];
        assert p0[|p0| - |p|] == p[0];
      }
    }
  }


  /** Preference `p` names a facility of the phase's kind (`target instanceof type`). */
  predicate ServesPref(facs: seq<Facility>, p: Option<FacId>, phase: Phase) {
    p.Some? && p.value < |facs| && Serves(facs[p.value].kind, phase)
  }

  /** How many of its initial preferences hog `x` has used up. */
  function Tried(hogs0: seq<Hog>, hogs: seq<Hog>, x: HogId): int
    requires x < |hogs0| && x < |hogs|
  {
    |hogs0[x].prefs| - |hogs[x].prefs|
  }

  /** A claim by hog `x` on `f` finds no room against queue `q`: `consult_next` would not queue it. */
  ghost predicate Full(table: GoodsTable, facs: seq<Facility>, hogs: seq<Hog>, q: seq<Claim>, f: FacId, x: HogId,
                       phase: Phase)
  {
    && f < |facs| && x < |hogs| && ClaimsInRange(q, |hogs|, |facs|) && ShopKnown(table, facs[f])
    && |Competing(hogs, q, f, x, phase)| >= Capacity(table, facs[f], GoodKey(hogs[x]))
  }

  /** Each of the first `k` preferences of `x` that serves the phase is full against `q`. */
  ghost predicate TriedFull(table: GoodsTable, facs: seq<Facility>, hogs0: seq<Hog>, q: seq<Claim>, phase: Phase,
                            x: HogId, k: int)
    requires x < |hogs0|
  {
    forall i :: 0 <= i < k && i < |hogs0[x].prefs| && ServesPref(facs, hogs0[x].prefs[i], phase) ==>
      Full(table, facs, hogs0, q, hogs0[x].prefs[i].value, x, phase)
  }

  /** After `k` preferences, `x` has tried all of them, or the last one it tried serves the phase. */
  ghost predicate LastTried(facs: seq<Facility>, hogs0: seq<Hog>, phase: Phase, x: HogId, k: int)
    requires x < |hogs0|
  {
    k == |hogs0[x].prefs| || (0 < k <= |hogs0[x].prefs| && ServesPref(facs, hogs0[x].prefs[k - 1], phase))
  }

  /**
    Hog `x` gave up after its first `k` preferences: each of them that serves
    the phase had no room for it, and it either tried them all or was turned
    away by the last one it tried.
  */
  ghost predicate GaveUpAt(table: GoodsTable, facs: seq<Facility>, hogs0: seq<Hog>, q: seq<Claim>, phase: Phase,
                           x: HogId, k: nat)
  {
    x < |hogs0| && k <= |hogs0[x].prefs| && TriedFull(table, facs, hogs0, q, phase, x, k)
    && LastTried(facs, hogs0, phase, x, k)
  }

  /**
    The progress a finished phase has made: every hog of the work list holds
    a claim, or gave up.  A phase that queues nothing meets this only when no
    hog has room at any facility it tries.
  */
  ghost predicate Settled(table: GoodsTable, facs: seq<Facility>, hogs0: seq<Hog>, work0: seq<HogId>, q: seq<Claim>,
                          phase: Phase)
  {
    forall x :: x in work0 ==> x in Claimants(q) || exists k: nat :: GaveUpAt(table, facs, hogs0, q, phase, x, k)
  }

  /** `Settled` while the phase runs: a hog without a claim found no room so far, and has given up once it left the list. */
  ghost predicate Progress(table: GoodsTable, facs: seq<Facility>, hogs0: seq<Hog>, work0: seq<HogId>, st: MatchState,
                           phase: Phase)
  {
    forall x :: 0 <= x < |hogs0| && x < |st.hogs| && x !in Claimants(st.queue) ==>
      && TriedFull(table, facs, hogs0, st.queue, phase, x, Tried(hogs0, st.hogs, x))
      && (x in work0 && x !in st.work ==> LastTried(facs, hogs0, phase, x, Tried(hogs0, st.hogs, x)))
  }

  /** A facility with no room stays without room when a claim is appended. */
  lemma FullGrows(table: GoodsTable, facs: seq<Facility>, hogs: seq<Hog>, q: seq<Claim>, c: Claim, f: FacId, x: HogId,
                  phase: Phase)
    requires Full(table, facs, hogs, q, f, x, phase) && c.hog < |hogs| && c.fac < |facs|
    ensures Full(table, facs, hogs, q + [c], f, x, phase)
  {
    var q' := q + [c];
    assert ClaimsInRange(q', |hogs|, |facs|) by {
      forall d | d in q' ensures d.hog < |hogs| && d.fac < |facs| {
        if d != c { assert d in q; }
      }
    }
    HogsOfAppend(q, c, f);
    var l := HogsOf(q, f);
    var l' := HogsOf(q', f);
    assert l' == l + (if c.fac == f then [c.hog] else []);
    if phase == DropOff {
      var n := HoldName(hogs[x]);
      WithHoldNameAppend(hogs, l, c.hog, n);
      assert Competing(hogs, q', f, x, phase) == WithHoldName(hogs, l', n);
      if c.fac == f {
        assert |WithHoldName(hogs, l', n)| >= |WithHoldName(hogs, l, n)|;
      } else {
        assert l' == l;
      }
    } else {
      assert Competing(hogs, q', f, x, phase) == l';
    }
  }

  /** One consultation keeps `Progress`. */
  lemma ConsultKeepsProgress(table: GoodsTable, facs: seq<Facility>, hogs0: seq<Hog>, work0: seq<HogId>,
                             st: MatchState, phase: Phase)
    requires WellFormed(table, facs, st) && |st.work| > 0
    requires Tracks(facs, hogs0, work0, st, phase) && Progress(table, facs, hogs0, work0, st, phase)
    ensures Progress(table, facs, hogs0, work0, ConsultNext(table, facs, st, phase), phase)
  {
    var r := ConsultNext(table, facs, st, phase);
    ConsultKeepsHogs(table, facs, hogs0, st, phase);
    if r.queue != st.queue {
      assert ClaimUnderCapacity(table, facs, st, r.queue, phase);
      ClaimantsAppend(st.queue, Claim(st.work[0], st.hogs[st.work[0]].prefs[0].value));
    }
    forall x | 0 <= x < |hogs0| && x < |r.hogs| && x !in Claimants(r.queue)
      ensures && TriedFull(table, facs, hogs0, r.queue, phase, x, Tried(hogs0, r.hogs, x))
              && (x in work0 && x !in r.work ==> LastTried(facs, hogs0, phase, x, Tried(hogs0, r.hogs, x)))
    {
      assert x !in Claimants(st.queue);
      ProgressAt(table, facs, hogs0, work0, st, r, phase, x);
    }
  }

  /** `TriedFull` survives the queue growing by at most one claim. */
  lemma TriedFullGrows(table: GoodsTable, facs: seq<Facility>, hogs0: seq<Hog>, q: seq<Claim>, q': seq<Claim>,
                       c: Claim, phase: Phase, x: HogId, k: int)
    requires x < |hogs0|
    requires q' == q || (q' == q + [c] && c.hog < |hogs0| && c.fac < |facs|)
    requires TriedFull(table, facs, hogs0, q, phase, x, k)
    ensures TriedFull(table, facs, hogs0, q', phase, x, k)
  {
    var p0 := hogs0[x].prefs;
    forall i | 0 <= i < k && i < |p0| && ServesPref(facs, p0[i], phase)
      ensures Full(table, facs, hogs0, q', p0[i].value, x, phase)
    {
      if q' != q {
        FullGrows(table, facs, hogs0, q, c, p0[i].value, x, phase);
      }
    }
  }

  /** `ConsultKeepsProgress` for one hog without a claim, from what `ConsultNext` promises. */
  lemma ProgressAt(table: GoodsTable, facs: seq<Facility>, hogs0: seq<Hog>, work0: seq<HogId>,
                   st: MatchState, r: MatchState, phase: Phase, x: HogId)
    requires WellFormed(table, facs, st) && |st.work| > 0
    requires var h := st.work[0];
             && (|st.hogs[h].prefs| == 0 ==> r == st.(work := st.work[1..]))
             && (|st.hogs[h].prefs| > 0 ==> r.hogs == st.hogs[h := st.hogs[h].(prefs := st.hogs[h].prefs[1..])])
    requires Consulted(table, facs, st, r, phase)
    requires r.queue == st.queue || ClaimUnderCapacity(table, facs, st, r.queue, phase)
    requires r.work == st.work[1..] || (|r.work| == |st.work| && r.work[..|st.work| - 1] == st.work[1..])
    requires TracksHogs(hogs0, st) && TracksHogs(hogs0, r)
    requires x < |hogs0| && x !in Claimants(r.queue)
    requires TriedFull(table, facs, hogs0, st.queue, phase, x, Tried(hogs0, st.hogs, x))
    requires x in work0 && x !in st.work ==> LastTried(facs, hogs0, phase, x, Tried(hogs0, st.hogs, x))
    ensures TriedFull(table, facs, hogs0, r.queue, phase, x, Tried(hogs0, r.hogs, x))
    ensures x in work0 && x !in r.work ==> LastTried(facs, hogs0, phase, x, Tried(hogs0, r.hogs, x))
  {
    var h := st.work[0];
    var k := Tried(hogs0, st.hogs, x);
    if r.queue != st.queue {
      assert ClaimUnderCapacity(table, facs, st, r.queue, phase);
      TriedFullGrows(table, facs, hogs0, st.queue, r.queue, Claim(h, st.hogs[h].prefs[0].value), phase, x, k);
    }
    if x != h {
      assert x in st.work ==> x in st.work[1..];
      assert r.hogs[x] == st.hogs[x];
    } else if |st.hogs[h].prefs| > 0 {
      FrontProgress(table, facs, hogs0, st, r, phase);
      TriedFullExtend(table, facs, hogs0, r.queue, phase, h, k);
    }
  }

  /** `TriedFull` for `k` preferences extends to `k + 1` when preference `k` is full or does not serve. */
  lemma TriedFullExtend(table: GoodsTable, facs: seq<Facility>, hogs0: seq<Hog>, q: seq<Claim>, phase: Phase,
                        x: HogId, k: int)
    requires x < |hogs0| && TriedFull(table, facs, hogs0, q, phase, x, k)
    requires 0 <= k < |hogs0[x].prefs| && ServesPref(facs, hogs0[x].prefs[k], phase) ==>
               Full(table, facs, hogs0, q, hogs0[x].prefs[k].value, x, phase)
    ensures TriedFull(table, facs, hogs0, q, phase, x, k + 1)
  {
  }

  /** The consulting hog, if left without a claim, used up a preference that was full or of the wrong kind. */
  lemma FrontProgress(table: GoodsTable, facs: seq<Facility>, hogs0: seq<Hog>, st: MatchState, r: MatchState,
                      phase: Phase)
    requires WellFormed(table, facs, st) && |st.work| > 0 && |st.hogs[st.work[0]].prefs| > 0
    requires r.hogs == st.hogs[st.work[0] := st.hogs[st.work[0]].(prefs := st.hogs[st.work[0]].prefs[1..])]
    requires Consulted(table, facs, st, r, phase)
    requires TracksHogs(hogs0, st) && st.work[0] !in Claimants(r.queue)
    ensures var h := st.work[0];
            && Tried(hogs0, r.hogs, h) == Tried(hogs0, st.hogs, h) + 1
            && (ServesPref(facs, st.hogs[h].prefs[0], phase) ==>
                  && r.queue == st.queue
                  && Full(table, facs, hogs0, st.queue, st.hogs[h].prefs[0].value, h, phase))
            && (h !in r.work ==> ServesPref(facs, st.hogs[h].prefs[0], phase))
            && hogs0[h].prefs[Tried(hogs0, st.hogs, h)] == st.hogs[h].prefs[0]
  {
    var h := st.work[0];
    var p := st.hogs[h].prefs;
    var p0 := hogs0[h].prefs;
    assert p == p0[|p0| - |p|..];
    assert p0[|p0| - |p|] == p[0];
    if ServesPref(facs, p[0], phase) {
      var f := p[0].value;
      assert Claim(h, f) !in r.queue;
      assert HoldName(st.hogs[h]) == HoldName(hogs0[h]) && GoodKey(st.hogs[h]) == GoodKey(hogs0[h]);
      if phase == DropOff {
        WithHoldNameCargoOnly(hogs0, st.hogs, HogsOf(st.queue, f), HoldName(st.hogs[h]));
      }
    }
  }

  /** A finished phase that kept `Progress` is `Settled`. */
  lemma ProgressSettles(table: GoodsTable, facs: seq<Facility>, hogs0: seq<Hog>, work0: seq<HogId>, st: MatchState,
                        phase: Phase)
    requires st.work == [] && TracksHogs(hogs0, st) && Progress(table, facs, hogs0, work0, st, phase)
    requires forall i :: 0 <= i < |work0| ==> work0[i] < |hogs0|
    ensures Settled(table, facs, hogs0, work0, st.queue, phase)
  {
    forall x | x in work0 && x !in Claimants(st.queue)
      ensures exists k: nat :: GaveUpAt(table, facs, hogs0, st.queue, phase, x, k)
    {
      var k := Tried(hogs0, st.hogs, x);
      assert GaveUpAt(table, facs, hogs0, st.queue, phase, x, k);
    }
  }

  /**
    `while (hogs.length > 0) consult_next(hogs, type, queue)`: one matching
    phase, run until the work list is empty.  The result respects every
    facility's capacity, and every claim is on a facility of the phase's kind
    that its hog preferred.
  */
  method RunPhase(table: GoodsTable, facs: seq<Facility>, hogs: seq<Hog>, work: seq<HogId>, phase: Phase)
    returns (st: MatchState)
    requires WellFormed(table, facs, MatchState(hogs, work, []))
    ensures st.work == []
    ensures WellFormed(table, facs, st) && WithinCapacity(table, facs, st, phase)
    ensures Tracks(facs, hogs, work, st, phase)
    ensures Settled(table, facs, hogs, work, st.queue, phase)
  {
    st := MatchState(hogs, work, []);
    while |st.work| > 0
      invariant WellFormed(table, facs, st) && WithinCapacity(table, facs, st, phase)
      invariant Tracks(facs, hogs, work, st, phase)
      invariant Progress(table, facs, hogs, work, st, phase)
      decreases TotalPrefs(st.hogs), |st.work|
    {
      ConsultKeepsCapacity(table, facs, st, phase);
      ConsultKeepsTrack(table, facs, hogs, work, st, phase);
      ConsultKeepsProgress(table, facs, hogs, work, st, phase);
      st := ConsultNext(table, facs, st, phase);
    }
    ProgressSettles(table, facs, hogs, work, st, phase);
  }

  /**
    `interact_with(hog)` for one queued pair: a taker pushes the hog's cargo and
    leaves it empty-handed (`take_from`); a giver hands the hog its last good
    (`give_to`).
  */
  function Interact(facs: seq<Facility>, hogs: seq<Hog>, c: Claim): (r: (seq<Facility>, seq<Hog>))
    requires c.fac < |facs| && c.hog < |hogs|
    ensures |r.0| == |facs| && |r.1| == |hogs|
    ensures forall f :: 0 <= f < |facs| && f != c.fac ==> r.0[f] == facs[f]
    ensures forall x :: 0 <= x < |hogs| && x != c.hog ==> r.1[x] == hogs[x]
    ensures forall f :: 0 <= f < |facs| ==> r.0[f].kind == facs[f].kind && r.0[f].tilePrefs == facs[f].tilePrefs
    ensures r.1[c.hog] == hogs[c.hog].(holding := r.1[c.hog].holding)
    ensures IsTaker(facs[c.fac].kind) ==>
              r.0[c.fac].holding == facs[c.fac].holding + [hogs[c.hog].holding] && r.1[c.hog].holding.None?
    ensures IsGiver(facs[c.fac].kind) && |facs[c.fac].holding| > 0 ==>
              r.0[c.fac].holding + [r.1[c.hog].holding] == facs[c.fac].holding
    ensures IsGiver(facs[c.fac].kind) && |facs[c.fac].holding| == 0 ==>
              r.0[c.fac] == facs[c.fac] && r.1[c.hog].holding.None?
  {
    var fac := facs[c.fac];
    var hog := hogs[c.hog];
    var e := if IsTaker(fac.kind) then TakeFrom(fac, hog.holding) else GiveTo(fac);
    (facs[c.fac := e.0], hogs[c.hog := hog.(holding := e.1)])
  }

  /** `queue.resolve()`: every queued pair interacts, in queue order. */
  function Resolve(facs: seq<Facility>, hogs: seq<Hog>, q: seq<Claim>): (r: (seq<Facility>, seq<Hog>))
    requires ClaimsInRange(q, |hogs|, |facs|)
    ensures |r.0| == |facs| && |r.1| == |hogs|
    ensures forall f :: 0 <= f < |facs| ==> r.0[f].kind == facs[f].kind && r.0[f].tilePrefs == facs[f].tilePrefs
    ensures forall x :: 0 <= x < |hogs| ==> r.1[x] == hogs[x].(holding := r.1[x].holding)
    decreases |q|
  {
    if |q| == 0 then (facs, hogs)
    else
      assert q[0] in q;
      var s := Interact(facs, hogs, q[0]);
      assert ClaimsInRange(q[1..], |hogs|, |facs|) by {
        forall c | c in q[1..] ensures c.hog < |hogs| && c.fac < |facs| {
          assert c in q;
        }
      }
      Resolve(s.0, s.1, q[1..])
  }

  /** A facility nobody queued for comes out of the resolution unchanged. */
  lemma {:induction false} ResolveUntouched(facs: seq<Facility>, hogs: seq<Hog>, q: seq<Claim>, f: FacId)
    requires ClaimsInRange(q, |hogs|, |facs|) && f < |facs|
    requires HogsOf(q, f) == []
    ensures Resolve(facs, hogs, q).0[f] == facs[f]
    decreases |q|
  {
    if |q| > 0 {
      TailInRange(q, |hogs|, |facs|);
      HogsOfTail(q, f);
      var s := Interact(facs, hogs, q[0]);
      ResolveUntouched(s.0, s.1, q[1..], f);
    }
  }

  /** A hog with no queued pair comes out of the resolution unchanged. */
  lemma {:induction false} ResolveIdleHog(facs: seq<Facility>, hogs: seq<Hog>, q: seq<Claim>, x: HogId)
    requires ClaimsInRange(q, |hogs|, |facs|) && x < |hogs|
    requires forall c :: c in q ==> c.hog != x
    ensures Resolve(facs, hogs, q).1[x] == hogs[x]
    decreases |q|
  {
    if |q| > 0 {
      TailInRange(q, |hogs|, |facs|);
      assert q[0] in q;
      var s := Interact(facs, hogs, q[0]);
      assert forall c :: c in q[1..] ==> c in q;
      ResolveIdleHog(s.0, s.1, q[1..], x);
    }
  }

  /**
    A taker keeps what it held and gains exactly one entry per pair queued for
    it.
  */
  lemma {:induction false} ResolveTakerGrows(facs: seq<Facility>, hogs: seq<Hog>, q: seq<Claim>, f: FacId)
    requires ClaimsInRange(q, |hogs|, |facs|) && f < |facs| && IsTaker(facs[f].kind)
    ensures var h := Resolve(facs, hogs, q).0[f].holding;
            && |h| == |facs[f].holding| + |HogsOf(q, f)|
            && h[..|facs[f].holding|] == facs[f].holding
    decreases |q|
  {
    if |q| > 0 {
      TailInRange(q, |hogs|, |facs|);
      HogsOfTail(q, f);
      var s := Interact(facs, hogs, q[0]);
      ResolveTakerGrows(s.0, s.1, q[1..], f);
      var h := Resolve(facs, hogs, q).0[f].holding;
      if q[0].fac == f {
        assert h[..|s.0[f].holding|][..|facs[f].holding|] == h[..|facs[f].holding|];
      }
    }
  }

  /**
    A giver with at least as many goods as pairs queued for it gives one good
    per pair, from the end of its list.
  */
  lemma {:induction false} ResolveGiverPops(facs: seq<Facility>, hogs: seq<Hog>, q: seq<Claim>, f: FacId)
    requires ClaimsInRange(q, |hogs|, |facs|) && f < |facs| && IsGiver(facs[f].kind)
    requires |HogsOf(q, f)| <= |facs[f].holding|
    ensures Resolve(facs, hogs, q).0[f].holding == facs[f].holding[..|facs[f].holding| - |HogsOf(q, f)|]
    decreases |q|
  {
    if |q| > 0 {
      TailInRange(q, |hogs|, |facs|);
      HogsOfTail(q, f);
      var s := Interact(facs, hogs, q[0]);
      ResolveGiverPops(s.0, s.1, q[1..], f);
      var n := |facs[f].holding|;
      if q[0].fac == f {
        assert |HogsOf(q, f)| == 1 + |HogsOf(q[1..], f)|;
        assert s.0[f].holding == facs[f].holding[..n - 1];
        PrefixOfPrefix(facs[f].holding, n - 1, n - |HogsOf(q, f)|);
      } else {
        assert s.0[f] == facs[f];
      }
    }
  }

  lemma PrefixOfPrefix<T>(s: seq<T>, a: nat, b: nat)
    requires b <= a <= |s|
    ensures s[..a][..b] == s[..b]
  {
  }

  /** Every queued pair is with a taker. */
  ghost predicate AllToTakers(facs: seq<Facility>, q: seq<Claim>) {
    forall c :: c in q ==> c.fac < |facs| && IsTaker(facs[c.fac].kind)
  }

  /** Each hog carries what it carried at the start of the phase, or nothing. */
  ghost predicate CargoFrom(hogs0: seq<Hog>, hogs: seq<Hog>) {
    |hogs| == |hogs0| && forall x :: 0 <= x < |hogs| ==> hogs[x].holding == hogs0[x].holding || hogs[x].holding.None?
  }

  /**
    Resolving pairs with takers adds to a facility's count of goods named `n`
    at most one per pair whose hog set out carrying such a good.
  */
  lemma {:induction false} ResolveNameCount(facs: seq<Facility>, hogs0: seq<Hog>, hogs: seq<Hog>, q: seq<Claim>,
                                            f: FacId, n: string)
    requires ClaimsInRange(q, |hogs|, |facs|) && f < |facs|
    requires AllToTakers(facs, q) && CargoFrom(hogs0, hogs)
    ensures forall x :: x in HogsOf(q, f) ==> x < |hogs0|
    ensures NumberHeld(Resolve(facs, hogs, q).0[f].holding, n) <=
              NumberHeld(facs[f].holding, n) + |WithHoldName(hogs0, HogsOf(q, f), Some(n))|
    decreases |q|
  {
    if |q| > 0 {
      TailInRange(q, |hogs|, |facs|);
      HogsOfTail(q, f);
      var c := q[0];
      assert c in q;
      var s := Interact(facs, hogs, c);
      assert AllToTakers(s.0, q[1..]) by {
        forall c' | c' in q[1..] ensures c'.fac < |s.0| && IsTaker(s.0[c'.fac].kind) {
          assert c' in q;
        }
      }
      assert CargoFrom(hogs0, s.1);
      ResolveNameCount(s.0, hogs0, s.1, q[1..], f, n);
      var rest := HogsOf(q[1..], f);
      if c.fac == f {
        var list := HogsOf(q, f);
        assert list == [c.hog] + rest;
        assert list[1..] == rest;
        assert c.hog in list;
        var cnt := |WithHoldName(hogs0, list, Some(n))|;
        assert cnt == |WithHoldName(hogs0, rest, Some(n))| + (if HoldName(hogs0[c.hog]) == Some(n) then 1 else 0);
        NumberHeldAppend(facs[f].holding, hogs[c.hog].holding, n);
        assert s.0[f].holding == facs[f].holding + [hogs[c.hog].holding];
      } else {
        assert HogsOf(q, f) == rest;
        assert s.0[f] == facs[f];
      }
    }
  }

  /** Appending never lowers a count. */
  lemma {:induction false} NumberHeldGrows(holding: seq<Option<Good>>, extra: seq<Option<Good>>, name: string)
    ensures NumberHeld(holding, name) <= NumberHeld(holding + extra, name)
    decreases |extra|
  {
    if |extra| > 0 {
      var init := extra[..|extra| - 1];
      NumberHeldGrows(holding, init, name);
      assert extra == init + [extra[|extra| - 1]];
      assert holding + extra == (holding + init) + [extra[|extra| - 1]];
      NumberHeldAppend(holding + init, extra[|extra| - 1], name);
    } else {
      assert holding + extra == holding;
    }
  }

  /** After a drop-off resolution every hog that was empty-handed or queued is empty-handed. */
  lemma {:induction false} ResolveEmptiesHands(facs: seq<Facility>, hogs: seq<Hog>, q: seq<Claim>, x: HogId)
    requires ClaimsInRange(q, |hogs|, |facs|) && AllToTakers(facs, q) && x < |hogs|
    requires hogs[x].holding.None? || exists c :: c in q && c.hog == x
    ensures Resolve(facs, hogs, q).1[x].holding.None?
    decreases |q|
  {
    if |q| > 0 {
      TailInRange(q, |hogs|, |facs|);
      var c := q[0];
      assert c in q;
      var s := Interact(facs, hogs, c);
      assert AllToTakers(s.0, q[1..]) by {
        forall c' | c' in q[1..] ensures c'.fac < |s.0| && IsTaker(s.0[c'.fac].kind) {
          assert c' in q;
        }
      }
      if c.hog != x && hogs[x].holding.Some? {
        var c' :| c' in q && c'.hog == x;
        assert c' in q[1..] by {
          assert c' != q[0];
          var i :| 0 <= i < |q| && q[i] == c';
          assert q[1..][i - 1] == c';
        }
      }
      ResolveEmptiesHands(s.0, s.1, q[1..], x);
    }
  }

  /**
    `reset_interact_preferences()`: the facilities (or `false`) on the tiles
    in front of a hog at `t` heading `d`, to its right and to its left, in that
    order.
  */
  function NeighborPrefs(b: Board, facAt: seq<Option<FacId>>, t: Tile, d: Dir): (r: seq<Option<FacId>>)
    requires b.Valid() && b.IsTile(t) && |facAt| == b.Size()
    ensures |r| == 3
    ensures r[0] == facAt[Neighbor(b, t, d)]
    ensures r[1] == facAt[Neighbor(b, t, Right(d))]
    ensures r[2] == facAt[Neighbor(b, t, Left(d))]
  {
    [facAt[Neighbor(b, t, d)], facAt[Neighbor(b, t, Right(d))], facAt[Neighbor(b, t, Left(d))]]
  }

  /** Rebuilt preferences name only facilities that exist. */
  lemma NeighborPrefsInRange(b: Board, facAt: seq<Option<FacId>>, t: Tile, d: Dir, nfacs: nat)
    requires b.Valid() && b.IsTile(t) && |facAt| == b.Size() && FacAtInRange(facAt, nfacs)
    ensures forall p :: p in NeighborPrefs(b, facAt, t, d) && p.Some? ==> p.value < nfacs
  {
    var r := NeighborPrefs(b, facAt, t, d);
    assert forall p :: p in r ==> p == r[0] || p == r[1] || p == r[2];
  }

  function ResetPrefs(b: Board, facAt: seq<Option<FacId>>, hog: Hog): (r: Hog)
    requires b.Valid() && b.IsTile(hog.tile) && |facAt| == b.Size()
    ensures r == hog.(prefs := NeighborPrefs(b, facAt, hog.tile, hog.dir))
  {
    hog.(prefs := NeighborPrefs(b, facAt, hog.tile, hog.dir))
  }

  /** `facAt` names only facilities that exist. */
  ghost predicate FacAtInRange(facAt: seq<Option<FacId>>, nfacs: nat) {
    forall t :: 0 <= t < |facAt| && facAt[t].Some? ==> facAt[t].value < nfacs
  }

  /** Every hog stands on a board tile. */
  ghost predicate OnBoard(b: Board, hogs: seq<Hog>) {
    forall x :: 0 <= x < |hogs| ==> b.IsTile(hogs[x].tile)
  }

  /** The preference reset for every listed hog; the others are left alone. */
  function ResetListed(b: Board, facAt: seq<Option<FacId>>, hogs: seq<Hog>, list: seq<HogId>): (r: seq<Hog>)
    requires b.Valid() && |facAt| == b.Size() && OnBoard(b, hogs)
    requires forall i :: 0 <= i < |list| ==> list[i] < |hogs|
    ensures |r| == |hogs|
    ensures forall x :: 0 <= x < |hogs| && x !in list ==> r[x] == hogs[x]
    ensures forall x :: 0 <= x < |hogs| && x in list ==> r[x] == ResetPrefs(b, facAt, hogs[x])
    decreases |list|
  {
    if |list| == 0 then hogs
    else
      var x := list[|list| - 1];
      var init := list[..|list| - 1];
      var r := ResetListed(b, facAt, hogs, init);
      assert forall y :: y in list <==> y in init || y == x;
      r[x := ResetPrefs(b, facAt, hogs[x])]
  }

  /**
    `board.hogs.filter(hog => hog.hopped_from)` over the first `n` hogs, in
    the order of `hogs`.  The order is `Board.hogs`'s own only when `hogs` is
    listed in that order (`World.AllHogs`); here the matcher takes the hog
    sequence as given.
  */
  function Hopped(hogs: seq<Hog>, n: nat): (r: seq<HogId>)
    requires n <= |hogs|
    ensures forall i :: 0 <= i < |r| ==> r[i] < n && hogs[r[i]].hoppedFrom.Some?
    ensures forall x :: 0 <= x < n && hogs[x].hoppedFrom.Some? ==> x in r
    ensures forall i, j :: 0 <= i < j < |r| ==> r[i] < r[j]
  {
    if n == 0 then []
    else
      var r := Hopped(hogs, n - 1);
      if hogs[n - 1].hoppedFrom.Some? then r + [n - 1] else r
  }

  /** `list.filter(hog => hog.holding)` (`cargo`) or `list.filter(hog => !hog.holding)` (`!cargo`). */
  function WithCargo(hogs: seq<Hog>, list: seq<HogId>, cargo: bool): (r: seq<HogId>)
    requires forall i :: 0 <= i < |list| ==> list[i] < |hogs|
    ensures forall i :: 0 <= i < |r| ==> r[i] in list && hogs[r[i]].holding.Some? == cargo
    ensures forall i :: 0 <= i < |list| && hogs[list[i]].holding.Some? == cargo ==> list[i] in r
  {
    if |list| == 0 then []
    else
      var rest := WithCargo(hogs, list[1..], cargo);
      assert forall i :: 0 <= i < |rest| ==> rest[i] in list;
      assert forall i :: 1 <= i < |list| ==> list[i] == list[1..][i - 1];
      (if hogs[list[0]].holding.Some? == cargo then [list[0]] else []) + rest
  }

  /** Every claim is with a facility that cannot be `f`. */
  lemma NoneQueuedFor(q: seq<Claim>, f: FacId)
    requires forall c :: c in q ==> c.fac != f
    ensures HogsOf(q, f) == []
  {
  }

  /**
    The drop-off capacity invariant, for one name: the claims on `f` by hogs
    carrying goods named `n` are no more than the facility accepts of `n`.
  */
  lemma DropOffBound(table: GoodsTable, facs: seq<Facility>, st: MatchState, f: FacId, n: string)
    requires WellFormed(table, facs, st) && WithinCapacity(table, facs, st, DropOff) && f < |facs|
    ensures |WithHoldName(st.hogs, HogsOf(st.queue, f), Some(n))| <= Max0(Capacity(table, facs[f], n))
  {
    var list := WithHoldName(st.hogs, HogsOf(st.queue, f), Some(n));
    if |list| > 0 {
      var x := list[0];
      assert x in list;
      WithHoldNameSound(st.hogs, HogsOf(st.queue, f), Some(n));
      assert GoodKey(st.hogs[x]) == n;
      assert |Competing(st.hogs, st.queue, f, x, DropOff)| <= Max0(Capacity(table, facs[f], n));
    }
  }

  /** The pick-up capacity invariant: a giver never has more claims than goods. */
  lemma PickUpBound(table: GoodsTable, facs: seq<Facility>, st: MatchState, f: FacId)
    requires WellFormed(table, facs, st) && WithinCapacity(table, facs, st, PickUp) && f < |facs|
    requires IsGiver(facs[f].kind)
    ensures |HogsOf(st.queue, f)| <= |facs[f].holding|
  {
    if |HogsOf(st.queue, f)| > 0 {
      var x := HogsOf(st.queue, f)[0];
      assert x in HogsOf(st.queue, f);
      assert |Competing(st.hogs, st.queue, f, x, PickUp)| <= Max0(Capacity(table, facs[f], GoodKey(st.hogs[x])));
    }
  }

  /** A facility's holding starts with `pre`. */
  predicate Extends<T(==)>(holding: seq<T>, pre: seq<T>) {
    |pre| <= |holding| && holding[..|pre|] == pre
  }

  /** No shop input holds more of a good than its recipe asks for, unless it already did. */
  ghost predicate NoOverfill(table: GoodsTable, facs: seq<Facility>, facs': seq<Facility>)
    requires |facs'| == |facs| && forall f :: 0 <= f < |facs| ==> ShopKnown(table, facs[f])
  {
    forall f, n :: 0 <= f < |facs| && facs[f].kind.ShopInput? && ShopKnown(table, facs[f]) ==>
      var part := RecipeRequires(table[facs[f].kind.target].recipe, n);
      && (part.None? ==> NumberHeld(facs'[f].holding, n) == NumberHeld(facs[f].holding, n))
      && (part.Some? ==> NumberHeld(facs'[f].holding, n) <= Max(NumberHeld(facs[f].holding, n), part.value.amount))
  }

  function Max(a: int, b: int): int {
    if a < b then b else a
  }

  /** What the drop-off resolution does to the facilities. */
  lemma DropOffFacts(table: GoodsTable, facs: seq<Facility>, hogs0: seq<Hog>, work0: seq<HogId>, st: MatchState)
    requires WellFormed(table, facs, st) && WithinCapacity(table, facs, st, DropOff)
    requires Tracks(facs, hogs0, work0, st, DropOff)
    ensures var r := Resolve(facs, st.hogs, st.queue);
            && (forall f :: 0 <= f < |facs| && IsGiver(facs[f].kind) ==> r.0[f] == facs[f])
            && (forall f :: 0 <= f < |facs| && IsTaker(facs[f].kind) ==> Extends(r.0[f].holding, facs[f].holding))
            && NoOverfill(table, facs, r.0)
  {
    var r := Resolve(facs, st.hogs, st.queue);
    assert AllToTakers(facs, st.queue);
    forall f | 0 <= f < |facs| && IsGiver(facs[f].kind) ensures r.0[f] == facs[f] {
      NoneQueuedFor(st.queue, f);
      ResolveUntouched(facs, st.hogs, st.queue, f);
    }
    forall f | 0 <= f < |facs| && IsTaker(facs[f].kind) ensures Extends(r.0[f].holding, facs[f].holding) {
      ResolveTakerGrows(facs, st.hogs, st.queue, f);
    }
    forall f, n | 0 <= f < |facs| && facs[f].kind.ShopInput?
      ensures var part := RecipeRequires(table[facs[f].kind.target].recipe, n);
              && (part.None? ==> NumberHeld(r.0[f].holding, n) == NumberHeld(facs[f].holding, n))
              && (part.Some? ==> NumberHeld(r.0[f].holding, n) <= Max(NumberHeld(facs[f].holding, n), part.value.amount))
    {
      ShopInputCount(table, facs, st, f, n);
    }
  }

  lemma ShopInputCount(table: GoodsTable, facs: seq<Facility>, st: MatchState, f: FacId, n: string)
    requires WellFormed(table, facs, st) && WithinCapacity(table, facs, st, DropOff)
    requires AllToTakers(facs, st.queue) && f < |facs| && facs[f].kind.ShopInput?
    ensures var r := Resolve(facs, st.hogs, st.queue);
            var part := RecipeRequires(table[facs[f].kind.target].recipe, n);
            && (part.None? ==> NumberHeld(r.0[f].holding, n) == NumberHeld(facs[f].holding, n))
            && (part.Some? ==> NumberHeld(r.0[f].holding, n) <= Max(NumberHeld(facs[f].holding, n), part.value.amount))
  {
    DropOffBound(table, facs, st, f, n);
    assert IsTaker(facs[f].kind);
    TakerNameCount(facs, st.hogs, st.queue, f, n);
    TakerNameGrows(facs, st.hogs, st.queue, f, n);
  }

  /** Resolving claims on a taker never loses any of its goods named `n`. */
  lemma TakerNameGrows(facs: seq<Facility>, hogs: seq<Hog>, q: seq<Claim>, f: FacId, n: string)
    requires ClaimsInRange(q, |hogs|, |facs|) && f < |facs| && IsTaker(facs[f].kind)
    ensures NumberHeld(facs[f].holding, n) <= NumberHeld(Resolve(facs, hogs, q).0[f].holding, n)
  {
    var h := Resolve(facs, hogs, q).0[f].holding;
    ResolveTakerGrows(facs, hogs, q, f);
    var k := |facs[f].holding|;
    assert h == facs[f].holding + h[k..];
    NumberHeldGrows(facs[f].holding, h[k..], n);
  }

  /**
    Resolving the drop-off claims on a taker adds, of the goods named `n`,
    at most one per queued hog carrying one.
  */
  lemma TakerNameCount(facs: seq<Facility>, hogs: seq<Hog>, q: seq<Claim>, f: FacId, n: string)
    requires ClaimsInRange(q, |hogs|, |facs|) && AllToTakers(facs, q) && f < |facs|
    ensures NumberHeld(Resolve(facs, hogs, q).0[f].holding, n) <=
              NumberHeld(facs[f].holding, n) + |WithHoldName(hogs, HogsOf(q, f), Some(n))|
  {
    ResolveNameCount(facs, hogs, hogs, q, f, n);
  }


  /** What the pick-up resolution does to the facilities. */
  lemma PickUpFacts(table: GoodsTable, facs: seq<Facility>, hogs0: seq<Hog>, work0: seq<HogId>, st: MatchState)
    requires WellFormed(table, facs, st) && WithinCapacity(table, facs, st, PickUp)
    requires Tracks(facs, hogs0, work0, st, PickUp)
    ensures var r := Resolve(facs, st.hogs, st.queue);
            && (forall f :: 0 <= f < |facs| && IsTaker(facs[f].kind) ==> r.0[f] == facs[f])
            && (forall f :: 0 <= f < |facs| && IsGiver(facs[f].kind) ==>
                  |r.0[f].holding| <= |facs[f].holding| && r.0[f].holding == facs[f].holding[..|r.0[f].holding|])
  {
    var r := Resolve(facs, st.hogs, st.queue);
    forall f | 0 <= f < |facs| && IsTaker(facs[f].kind) ensures r.0[f] == facs[f] {
      NoneQueuedFor(st.queue, f);
      ResolveUntouched(facs, st.hogs, st.queue, f);
    }
    forall f | 0 <= f < |facs| && IsGiver(facs[f].kind)
      ensures |r.0[f].holding| <= |facs[f].holding| && r.0[f].holding == facs[f].holding[..|r.0[f].holding|]
    {
      PickUpBound(table, facs, st, f);
      ResolveGiverPops(facs, st.hogs, st.queue, f);
    }
  }

  /** A hog outside a phase's work list is not touched by its resolution. */
  lemma OutsideUntouched(facs: seq<Facility>, hogs0: seq<Hog>, work0: seq<HogId>, st: MatchState, phase: Phase, x: HogId)
    requires ClaimsInRange(st.queue, |st.hogs|, |facs|)
    requires Tracks(facs, hogs0, work0, st, phase) && x < |st.hogs| && x !in work0
    ensures Resolve(facs, st.hogs, st.queue).1[x] == st.hogs[x]
  {
    ResolveIdleHog(facs, st.hogs, st.queue, x);
  }

  /** `for (let hog of board.hogs) hog.reset_interact_preferences()`. */
  function ResetAll(b: Board, facAt: seq<Option<FacId>>, nfacs: nat, hogs: seq<Hog>): (r: seq<Hog>)
    requires b.Valid() && |facAt| == b.Size() && FacAtInRange(facAt, nfacs) && OnBoard(b, hogs)
    ensures |r| == |hogs| && forall x :: 0 <= x < |hogs| ==> r[x] == ResetPrefs(b, facAt, hogs[x])
    ensures PrefsInRange(r, nfacs)
  {
    var r := seq(|hogs|, i requires 0 <= i < |hogs| => ResetPrefs(b, facAt, hogs[i]));
    assert PrefsInRange(r, nfacs) by {
      forall x, p | 0 <= x < |r| && p in r[x].prefs && p.Some? ensures p.value < nfacs {
        NeighborPrefsInRange(b, facAt, hogs[x].tile, hogs[x].dir, nfacs);
      }
    }
    r
  }

  /** Facility kinds and tile preferences are the same; only holdings differ. */
  ghost predicate SameFacilities(facs: seq<Facility>, facs': seq<Facility>) {
    |facs'| == |facs| && forall f :: 0 <= f < |facs| ==> facs'[f].kind == facs[f].kind && facs'[f].tilePrefs == facs[f].tilePrefs
  }

  /** Only the hogs' cargo and preferences differ. */
  ghost predicate SameHogs(hogs: seq<Hog>, hogs': seq<Hog>) {
    |hogs'| == |hogs| && forall x :: 0 <= x < |hogs| ==> hogs'[x] == hogs[x].(holding := hogs'[x].holding, prefs := hogs'[x].prefs)
  }

  /** Only the cargo of the hogs outside `active` is sure to be unchanged. */
  ghost predicate CargoKept(hogs: seq<Hog>, hogs': seq<Hog>, active: seq<HogId>) {
    && SameHogs(hogs, hogs')
    && forall x :: 0 <= x < |hogs| && x !in active ==> hogs'[x].holding == hogs[x].holding
  }

  /** Drop-off: givers are untouched and takers only gain entries at the end. */
  ghost predicate DropOffEffect(facs: seq<Facility>, facs': seq<Facility>) {
    && SameFacilities(facs, facs')
    && (forall f :: 0 <= f < |facs| && IsGiver(facs[f].kind) ==> facs'[f] == facs[f])
    && (forall f :: 0 <= f < |facs| && IsTaker(facs[f].kind) ==> Extends(facs'[f].holding, facs[f].holding))
  }

  /** Pick-up: takers are untouched and givers only lose entries from the end. */
  ghost predicate PickUpEffect(facs: seq<Facility>, facs': seq<Facility>) {
    && SameFacilities(facs, facs')
    && (forall f :: 0 <= f < |facs| && IsTaker(facs[f].kind) ==> facs'[f] == facs[f])
    && (forall f :: 0 <= f < |facs| && IsGiver(facs[f].kind) ==> Extends(facs[f].holding, facs'[f].holding))
  }

  /** Both phases: takers only gain entries at the end, givers only lose entries from the end. */
  ghost predicate MatchEffect(facs: seq<Facility>, facs': seq<Facility>) {
    && SameFacilities(facs, facs')
    && (forall f :: 0 <= f < |facs| && IsTaker(facs[f].kind) ==> Extends(facs'[f].holding, facs[f].holding))
    && (forall f :: 0 <= f < |facs| && IsGiver(facs[f].kind) ==> Extends(facs[f].holding, facs'[f].holding))
  }

  /** Whether a hog gave up depends only on which facilities serve the phase and which are full. */
  lemma GaveUpTransfer(table: GoodsTable, facs: seq<Facility>, facs': seq<Facility>, hogs0: seq<Hog>, q: seq<Claim>,
                       x: HogId, k: nat)
    requires DropOffEffect(facs, facs') && GaveUpAt(table, facs', hogs0, q, PickUp, x, k)
    ensures GaveUpAt(table, facs, hogs0, q, PickUp, x, k)
  {
    var p0 := hogs0[x].prefs;
    forall i | 0 <= i < k && i < |p0| && ServesPref(facs, p0[i], PickUp)
      ensures Full(table, facs, hogs0, q, p0[i].value, x, PickUp)
    {
      assert ServesPref(facs', p0[i], PickUp);
      assert facs'[p0[i].value] == facs[p0[i].value];
    }
    if k < |p0| {
      assert ServesPref(facs', p0[k - 1], PickUp);
    }
  }

  /** The pick-up progress made against the facilities after drop-off holds against those before it. */
  lemma SettledTransfer(table: GoodsTable, facs: seq<Facility>, facs': seq<Facility>, hogs0: seq<Hog>,
                        work0: seq<HogId>, q: seq<Claim>)
    requires DropOffEffect(facs, facs') && Settled(table, facs', hogs0, work0, q, PickUp)
    ensures Settled(table, facs, hogs0, work0, q, PickUp)
  {
    forall x | x in work0 && x !in Claimants(q)
      ensures exists k: nat :: GaveUpAt(table, facs, hogs0, q, PickUp, x, k)
    {
      var k: nat :| GaveUpAt(table, facs', hogs0, q, PickUp, x, k);
      GaveUpTransfer(table, facs, facs', hogs0, q, x, k);
    }
  }

  /** Which hogs moved does not depend on their preferences. */
  lemma {:induction false} HoppedPrefsOnly(hogs: seq<Hog>, hogs': seq<Hog>, n: nat)
    requires n <= |hogs| == |hogs'|
    requires forall x :: 0 <= x < |hogs| ==> hogs'[x].hoppedFrom == hogs[x].hoppedFrom
    ensures Hopped(hogs', n) == Hopped(hogs, n)
  {
    if n > 0 {
      HoppedPrefsOnly(hogs, hogs', n - 1);
    }
  }

  /** Which listed hogs carry a good does not depend on their preferences. */
  lemma {:induction false} WithCargoPrefsOnly(hogs: seq<Hog>, hogs': seq<Hog>, list: seq<HogId>, cargo: bool)
    requires |hogs'| == |hogs| && forall i :: 0 <= i < |list| ==> list[i] < |hogs|
    requires forall x :: 0 <= x < |hogs| ==> hogs'[x].holding == hogs[x].holding
    ensures WithCargo(hogs', list, cargo) == WithCargo(hogs, list, cargo)
  {
    if |list| > 0 {
      WithCargoPrefsOnly(hogs, hogs', list[1..], cargo);
    }
  }

  /**
    The drop-off half of `match_interactions`: the hogs of `active` carrying a
    good are matched with takers and the pairs resolved; then the preference
    reset loop over the drained holder list, which therefore rebuilds no
    hog's preferences: each keeps what was left after drop-off.

    Every claim is by an active hog carrying a good, on a taker it preferred;
    every such hog holds a claim or found each taker it tried full.
  */
  method DropOffHalf(table: GoodsTable, b: Board, facAt: seq<Option<FacId>>, facs: seq<Facility>, hogs: seq<Hog>,
                 active: seq<HogId>)
    returns (facs': seq<Facility>, hogs': seq<Hog>, holderQueue: seq<Claim>)
    requires b.Valid() && |facAt| == b.Size() && OnBoard(b, hogs)
    requires WellFormed(table, facs, MatchState(hogs, active, []))
    ensures CargoKept(hogs, hogs', active) && PrefsInRange(hogs', |facs|)
    ensures DropOffEffect(facs, facs') && NoOverfill(table, facs, facs')
    ensures forall x :: 0 <= x < |hogs| ==> IsSuffix(hogs'[x].prefs, hogs[x].prefs)
    ensures forall c :: c in holderQueue ==>
              && c.hog < |hogs| && c.hog in active && hogs[c.hog].holding.Some?
              && c.fac < |facs| && IsTaker(facs[c.fac].kind) && Some(c.fac) in hogs[c.hog].prefs
    ensures Settled(table, facs, hogs, WithCargo(hogs, active, true), holderQueue, DropOff)
  {
    var holders := WithCargo(hogs, active, true);
    var st := RunPhase(table, facs, hogs, holders, DropOff);
    holderQueue := st.queue;
    DropOffFacts(table, facs, hogs, holders, st);
    var r := Resolve(facs, st.hogs, st.queue);
    facs' := r.0;
    hogs' := ResetListed(b, facAt, r.1, st.work);
    assert PrefsInRange(hogs', |facs|) by {
      forall x, p | 0 <= x < |hogs'| && p in hogs'[x].prefs && p.Some? ensures p.value < |facs| {
        assert p in st.hogs[x].prefs;
      }
    }
    forall x | 0 <= x < |hogs| && x !in active ensures hogs'[x].holding == hogs[x].holding {
      assert x !in holders;
      OutsideUntouched(facs, hogs, holders, st, DropOff, x);
    }
  }

  /**
    The pick-up half of `match_interactions`: the hogs of `active` now
    empty-handed are matched with givers and the pairs resolved.

    Every claim is by an active empty-handed hog, on a giver it preferred;
    every such hog holds a claim or found each giver it tried out of goods.
  */
  method PickUpHalf(table: GoodsTable, facs: seq<Facility>, hogs: seq<Hog>, active: seq<HogId>)
    returns (facs': seq<Facility>, hogs': seq<Hog>, seekerQueue: seq<Claim>)
    requires WellFormed(table, facs, MatchState(hogs, active, []))
    ensures CargoKept(hogs, hogs', active) && PickUpEffect(facs, facs')
    ensures forall c :: c in seekerQueue ==>
              && c.hog < |hogs| && c.hog in active && hogs[c.hog].holding.None?
              && c.fac < |facs| && IsGiver(facs[c.fac].kind) && Some(c.fac) in hogs[c.hog].prefs
    ensures Settled(table, facs, hogs, WithCargo(hogs, active, false), seekerQueue, PickUp)
  {
    var seekers := WithCargo(hogs, active, false);
    var st := RunPhase(table, facs, hogs, seekers, PickUp);
    seekerQueue := st.queue;
    PickUpFacts(table, facs, hogs, seekers, st);
    var r := Resolve(facs, st.hogs, st.queue);
    facs', hogs' := r.0, r.1;
    forall x | 0 <= x < |hogs| && x !in active ensures hogs'[x].holding == hogs[x].holding {
      assert x !in seekers;
      OutsideUntouched(facs, hogs, seekers, st, PickUp, x);
    }
  }

  /** Drop-off followed by pick-up composes into the effect of the whole match. */
  lemma ComposeEffects(table: GoodsTable, facs: seq<Facility>, facs2: seq<Facility>, facs': seq<Facility>)
    requires forall f :: 0 <= f < |facs| ==> ShopKnown(table, facs[f])
    requires DropOffEffect(facs, facs2) && NoOverfill(table, facs, facs2) && PickUpEffect(facs2, facs')
    ensures MatchEffect(facs, facs') && NoOverfill(table, facs, facs')
  {
    forall f, n | 0 <= f < |facs| && facs[f].kind.ShopInput? && ShopKnown(table, facs[f])
      ensures NumberHeld(facs'[f].holding, n) == NumberHeld(facs2[f].holding, n)
    {
      assert facs'[f] == facs2[f];
    }
  }

  lemma CargoKeptTrans(a: seq<Hog>, b: seq<Hog>, c: seq<Hog>, active: seq<HogId>)
    requires CargoKept(a, b, active) && CargoKept(b, c, active)
    ensures CargoKept(a, c, active)
  {
  }

  /**
    The two phases of `match_interactions` over the hogs of `active`.  `mid`
    is the hogs as pick-up starts: same cargo outside `active`, and
    preferences that are what drop-off left of the given ones.
  */
  method Phases(table: GoodsTable, b: Board, facAt: seq<Option<FacId>>, facs: seq<Facility>, hogs: seq<Hog>,
                active: seq<HogId>)
    returns (facs': seq<Facility>, hogs': seq<Hog>, holderQueue: seq<Claim>, mid: seq<Hog>, seekerQueue: seq<Claim>)
    requires b.Valid() && |facAt| == b.Size() && OnBoard(b, hogs)
    requires WellFormed(table, facs, MatchState(hogs, active, []))
    ensures CargoKept(hogs, hogs', active)
    ensures MatchEffect(facs, facs') && NoOverfill(table, facs, facs')
    ensures CargoKept(hogs, mid, active) && CargoKept(mid, hogs', active)
    ensures forall x :: 0 <= x < |hogs| ==> IsSuffix(mid[x].prefs, hogs[x].prefs)
    ensures forall c :: c in holderQueue ==>
              && c.hog < |hogs| && c.hog in active && hogs[c.hog].holding.Some?
              && c.fac < |facs| && IsTaker(facs[c.fac].kind) && Some(c.fac) in hogs[c.hog].prefs
    ensures Settled(table, facs, hogs, WithCargo(hogs, active, true), holderQueue, DropOff)
    ensures forall c :: c in seekerQueue ==>
              && c.hog < |hogs| && c.hog in active && mid[c.hog].holding.None?
              && c.fac < |facs| && IsGiver(facs[c.fac].kind) && Some(c.fac) in mid[c.hog].prefs
    ensures Settled(table, facs, mid, WithCargo(mid, active, false), seekerQueue, PickUp)
  {
    var facs2;
    facs2, mid, holderQueue := DropOffHalf(table, b, facAt, facs, hogs, active);
    facs', hogs', seekerQueue := PickUpHalf(table, facs2, mid, active);
    CargoKeptTrans(hogs, mid, hogs', active);
    ComposeEffects(table, facs, facs2, facs');
    SettledTransfer(table, facs, facs2, mid, WithCargo(mid, active, false), seekerQueue);
  }

  /**
    `match_interactions`: every hog's preferences are rebuilt from the tiles
    around it; the hogs that moved this tick drop off, and then those of them
    now empty-handed pick up.  `facAt` gives each tile's facility
    (`tile.interactable`).

    Hogs that did not move keep their cargo; takers only gain entries and
    givers only lose them from the end; no shop input takes more of an
    ingredient than its recipe still needs, nor any good its recipe does not
    use.  Every drop-off claim is by a moved hog carrying a good, on a taker
    among the tiles around it; every such hog holds a claim or found each
    taker it tried full.  Pick-up is the same for the moved hogs that are
    empty-handed in `mid`, the hogs as pick-up starts.
  */
  method MatchInteractions(table: GoodsTable, b: Board, facAt: seq<Option<FacId>>,
                           facs: seq<Facility>, hogs: seq<Hog>)
    returns (facs': seq<Facility>, hogs': seq<Hog>, holderQueue: seq<Claim>, mid: seq<Hog>, seekerQueue: seq<Claim>)
    requires b.Valid() && |facAt| == b.Size() && FacAtInRange(facAt, |facs|) && OnBoard(b, hogs)
    requires forall f :: 0 <= f < |facs| ==> ShopKnown(table, facs[f])
    ensures SameFacilities(facs, facs') && SameHogs(hogs, hogs')
    ensures forall x :: 0 <= x < |hogs| && hogs[x].hoppedFrom.None? ==> hogs'[x].holding == hogs[x].holding
    ensures MatchEffect(facs, facs') && NoOverfill(table, facs, facs')
    ensures SameHogs(hogs, mid)
    ensures forall x :: 0 <= x < |hogs| ==> IsSuffix(mid[x].prefs, NeighborPrefs(b, facAt, hogs[x].tile, hogs[x].dir))
    ensures forall c :: c in holderQueue ==>
              && c.hog < |hogs| && hogs[c.hog].hoppedFrom.Some? && hogs[c.hog].holding.Some?
              && c.fac < |facs| && IsTaker(facs[c.fac].kind)
              && Some(c.fac) in NeighborPrefs(b, facAt, hogs[c.hog].tile, hogs[c.hog].dir)
    ensures Settled(table, facs, ResetAll(b, facAt, |facs|, hogs), WithCargo(hogs, Hopped(hogs, |hogs|), true),
                    holderQueue, DropOff)
    ensures forall c :: c in seekerQueue ==>
              && c.hog < |hogs| && hogs[c.hog].hoppedFrom.Some? && mid[c.hog].holding.None?
              && c.fac < |facs| && IsGiver(facs[c.fac].kind) && Some(c.fac) in mid[c.hog].prefs
    ensures Settled(table, facs, mid, WithCargo(mid, Hopped(hogs, |hogs|), false), seekerQueue, PickUp)
  {
    var hogs1 := ResetAll(b, facAt, |facs|, hogs);
    var active := Hopped(hogs1, |hogs1|);
    facs', hogs', holderQueue, mid, seekerQueue := Phases(table, b, facAt, facs, hogs1, active);
    forall x | 0 <= x < |hogs| && hogs[x].hoppedFrom.None? ensures hogs'[x].holding == hogs[x].holding {
      assert x !in active;
    }
    HoppedPrefsOnly(hogs, hogs1, |hogs|);
    WithCargoPrefsOnly(hogs, hogs1, active, true);
    ResetHogsFacts(b, facAt, |facs|, hogs, mid, active);
    forall c | c in holderQueue
      ensures Some(c.fac) in NeighborPrefs(b, facAt, hogs[c.hog].tile, hogs[c.hog].dir)
    {
      assert Some(c.fac) in hogs1[c.hog].prefs;
    }
  }

  /** Hogs as left by a phase run on the reset hogs differ from the originals only in cargo and in preferences. */
  lemma ResetHogsFacts(b: Board, facAt: seq<Option<FacId>>, nfacs: nat, hogs: seq<Hog>, mid: seq<Hog>,
                       active: seq<HogId>)
    requires b.Valid() && |facAt| == b.Size() && FacAtInRange(facAt, nfacs) && OnBoard(b, hogs)
    requires var hogs1 := ResetAll(b, facAt, nfacs, hogs);
             && CargoKept(hogs1, mid, active)
             && forall x :: 0 <= x < |hogs| ==> IsSuffix(mid[x].prefs, hogs1[x].prefs)
    ensures SameHogs(hogs, mid)
    ensures forall x :: 0 <= x < |hogs| ==> IsSuffix(mid[x].prefs, NeighborPrefs(b, facAt, hogs[x].tile, hogs[x].dir))
  {
  }

}
