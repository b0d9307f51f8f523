/**
  The claim queue of the matcher (`interaction_queue_generator` in the modular
  version, `InteractionQueue` in the monolith): an ordered list of
  (hog, facility) pairs.
*/
module Queue {
  import opened World

  /** One queued `[hog, interactable]` pair. */
  datatype Claim = Claim(hog: HogId, fac: FacId)

  /** Every claim names a hog and a facility that exist. */
  ghost predicate ClaimsInRange(q: seq<Claim>, nhogs: nat, nfacs: nat) {
    forall c :: c in q ==> c.hog < nhogs && c.fac < nfacs
  }

  /** `hogs_of(f)` / `flans_of(f)`: the hogs queued for `f`, in queue order. */
  function HogsOf(q: seq<Claim>, f: FacId): (r: seq<HogId>)
    ensures |r| <= |q|
    ensures forall x :: x in r <==> Claim(x, f) in q
  {
    if |q| == 0 then []
    else (if q[0].fac == f then [q[0].hog] else []) + HogsOf(q[1..], f)
  }

  /** Appending a claim extends the hog list of its facility only, at the end. */
  lemma {:induction false} HogsOfAppend(q: seq<Claim>, c: Claim, f: FacId)
    ensures HogsOf(q + [c], f) == HogsOf(q, f) + (if c.fac == f then [c.hog] else [])
  {
    if |q| == 0 {
      assert [c][1..] == [];
    } else {
      assert (q + [c])[1..] == q[1..] + [c];
      HogsOfAppend(q[1..], c, f);
    }
  }

  /** The hogs that hold at least one claim in `q`. */
  function Claimants(q: seq<Claim>): (r: set<HogId>)
    ensures forall c :: c in q ==> c.hog in r
  {
    set c | c in q :: c.hog
  }

  /** A claim appended to the queue adds its hog to the claimants and removes nobody. */
  lemma ClaimantsAppend(q: seq<Claim>, c: Claim)
    ensures Claimants(q + [c]) == Claimants(q) + {c.hog}
  {
    forall x | x in Claimants(q + [c]) ensures x in Claimants(q) + {c.hog} {
      var d :| d in q + [c] && d.hog == x;
      if d != c {
        assert d in q;
      }
    }
  }

  /** `add_pair`: append. */
  function AddPair(q: seq<Claim>, c: Claim): (r: seq<Claim>)
    ensures |r| == |q| + 1 && r[..|q|] == q && r[|q|] == c
  {
    q + [c]
  }

  /**
    `Array.prototype.splice(start, 1)` on `s`, as the array left behind: a
    negative `start` counts from the end (clamped at 0), one past the end
    removes nothing.
  */
  function Splice1<T>(s: seq<T>, start: int): (r: seq<T>)
    ensures start < 0 && |s| > 0 && |s| + start <= 0 ==> r == s[1..]
    ensures start < 0 && |s| + start > 0 ==> r == s[..|s| + start] + s[|s| + start + 1..]
    ensures start >= |s| ==> r == s
    ensures 0 <= start < |s| ==> r == s[..start] + s[start + 1..]
  {
    var i := if start < 0 then (if |s| + start < 0 then 0 else |s| + start)
             else if start > |s| then |s| else start;
    if i < |s| then s[..i] + s[i + 1..] else s
  }

  /**
    `remove_pair(hog, f)`: `pairs.indexOf([hog, f])` compares a freshly built
    array by identity and never finds it, so this is `splice(-1, 1)`: whatever
    the arguments, the last pair goes.
  */
  function RemovePair(q: seq<Claim>, c: Claim): (r: seq<Claim>)
    ensures |q| > 0 ==> r == q[..|q| - 1]
    ensures |q| == 0 ==> r == q
  {
    Splice1(q, -1)
  }

  /** An at-capacity `add_pair` followed by `remove_pair` of any pair leaves the queue as it was. */
  lemma AddThenRemove(q: seq<Claim>, c: Claim, other: Claim)
    ensures RemovePair(AddPair(q, c), other) == q
  {
  }

  /** The hogs queued for a facility exist. */
  lemma HogsOfInRange(q: seq<Claim>, f: FacId, nhogs: nat, nfacs: nat)
    requires ClaimsInRange(q, nhogs, nfacs)
    ensures forall i :: 0 <= i < |HogsOf(q, f)| ==> HogsOf(q, f)[i] < nhogs
  {
    forall i | 0 <= i < |HogsOf(q, f)| ensures HogsOf(q, f)[i] < nhogs {
      assert HogsOf(q, f)[i] in HogsOf(q, f);
    }
  }

  lemma TailInRange(q: seq<Claim>, nhogs: nat, nfacs: nat)
    requires |q| > 0 && ClaimsInRange(q, nhogs, nfacs)
    ensures q[0].hog < nhogs && q[0].fac < nfacs
    ensures ClaimsInRange(q[1..], nhogs, nfacs)
  {
    assert q[0] in q;
    forall c | c in q[1..] ensures c.hog < nhogs && c.fac < nfacs {
      assert c in q;
    }
  }

  lemma HogsOfTail(q: seq<Claim>, f: FacId)
    requires |q| > 0
    ensures HogsOf(q, f) == (if q[0].fac == f then [q[0].hog] else []) + HogsOf(q[1..], f)
  {
  }
}
