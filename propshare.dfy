/**
 * krankilepropshare.py: rarest-first requests after sorting the neighbours
 * by id in place; uploads that give 90% of the capacity to last round's
 * uploaders in proportion to what they sent, with a 10% optimistic slot.
 */
module Propshare {
  import opened Messages
  import opened Planner
  import opened Tally
  import Draws

  // ---------------------------------------------------------------------
  // Ordering peer ids
  // ---------------------------------------------------------------------

  /** Python's `<=` on strings: lexicographic by character code. */
  predicate IdLeq(a: PeerId, b: PeerId) {
    a == [] || (b != [] && (a[0] < b[0] || (a[0] == b[0] && IdLeq(a[1..], b[1..]))))
  }

  /** Any two ids are comparable. */
  lemma {:induction false} IdLeqTotal(a: PeerId, b: PeerId)
    ensures IdLeq(a, b) || IdLeq(b, a)
  {
    if a != [] && b != [] && a[0] == b[0] {
      IdLeqTotal(a[1..], b[1..]);
    }
  }

  lemma {:induction false} IdLeqTransitive(a: PeerId, b: PeerId, c: PeerId)
    requires IdLeq(a, b) && IdLeq(b, c)
    ensures IdLeq(a, c)
  {
    if a != [] && a[0] == b[0] && b[0] == c[0] {
      IdLeqTransitive(a[1..], b[1..], c[1..]);
    }
  }

  /** Two ids each at most the other are the same id. */
  lemma {:induction false} IdLeqAntisymmetric(a: PeerId, b: PeerId)
    requires IdLeq(a, b) && IdLeq(b, a)
    ensures a == b
  {
    if a != [] {
      IdLeqAntisymmetric(a[1..], b[1..]);
      assert a == [a[0]] + a[1..] && b == [b[0]] + b[1..];
    }
  }

  ghost predicate SortedById(s: seq<PeerView>) {
    forall x, y :: 0 <= x < y < |s| ==> IdLeq(s[x].id, s[y].id)
  }

  /**
   * `peers.sort(key=lambda p: p.id)`: a stable in-place insertion sort that
   * moves each neighbour left past the ones with a strictly larger id.
   */
  method SortById(a: array<PeerView>)
    modifies a
    ensures SortedById(a[..])
    ensures multiset(a[..]) == multiset(old(a[..]))
  {
    var i := 0;
    while i < a.Length
      invariant 0 <= i <= a.Length
      invariant SortedById(a[..i])
      invariant multiset(a[..]) == multiset(old(a[..]))
    {
      InsertLeft(a, i);
      i := i + 1;
    }
    assert a[..] == a[..a.Length];
  }

  /** During one pass: `s[..i+1]` is sorted once the element at `j` is set aside. */
  ghost predicate SortedExcept(s: seq<PeerView>, i: nat, j: nat)
    requires j <= i < |s|
  {
    forall x, y :: 0 <= x < y <= i && x != j && y != j ==> IdLeq(s[x].id, s[y].id)
  }

  /** During one pass: the element at `j` is at most every element it has passed. */
  ghost predicate BelowPassed(s: seq<PeerView>, i: nat, j: nat)
    requires j <= i < |s|
  {
    forall y :: j < y <= i ==> IdLeq(s[j].id, s[y].id)
  }

  /** Swapping the moving element with a larger left neighbour keeps both pass invariants. */
  lemma SwapKeepsPass(s: seq<PeerView>, i: nat, j: nat)
    requires 0 < j <= i < |s| && SortedExcept(s, i, j) && BelowPassed(s, i, j)
    requires !IdLeq(s[j - 1].id, s[j].id)
    ensures SortedExcept(s[j - 1 := s[j]][j := s[j - 1]], i, j - 1)
    ensures BelowPassed(s[j - 1 := s[j]][j := s[j - 1]], i, j - 1)
  {
    IdLeqTotal(s[j - 1].id, s[j].id);
  }

  /** A pass stops once the moving element is not smaller than its left neighbour. */
  lemma PassDone(s: seq<PeerView>, i: nat, j: nat)
    requires j <= i < |s| && SortedExcept(s, i, j) && BelowPassed(s, i, j)
    requires j == 0 || IdLeq(s[j - 1].id, s[j].id)
    ensures SortedById(s[..i + 1])
  {
    forall x | 0 <= x < j
      ensures IdLeq(s[x].id, s[j].id)
    {
      if x < j - 1 {
        IdLeqTransitive(s[x].id, s[j - 1].id, s[j].id);
      }
    }
  }

  /** One pass of the insertion sort: `a[i]` joins the sorted prefix `a[..i]`. */
  method InsertLeft(a: array<PeerView>, i: nat)
    requires i < a.Length && SortedById(a[..i])
    modifies a
    ensures SortedById(a[..i + 1])
    ensures multiset(a[..]) == multiset(old(a[..]))
  {
    var j := i;
    while j > 0 && !IdLeq(a[j - 1].id, a[j].id)
      invariant 0 <= j <= i
      invariant multiset(a[..]) == multiset(old(a[..]))
      invariant SortedExcept(a[..], i, j) && BelowPassed(a[..], i, j)
    {
      SwapKeepsPass(a[..], i, j);
      a[j - 1], a[j] := a[j], a[j - 1];
      j := j - 1;
    }
    PassDone(a[..], i, j);
  }

  /**
   * `requests`: sorts the caller's `peers` by id, then plans rarest-first
   * exactly as the standard strategy does.
   */
  method Requests(selfId: PeerId, pieces: seq<nat>, blocksPerPiece: nat, maxRequests: nat,
                  peers: array<PeerView>)
    returns (requests: seq<Request>, choices: seq<seq<nat>>)
    modifies peers
    ensures SortedById(peers[..]) && multiset(peers[..]) == multiset(old(peers[..]))
    ensures |choices| == peers.Length && ChoicesInPieces(choices, pieces)
    ensures forall i :: 0 <= i < peers.Length ==>
              RarestFirstChoice(choices[i], Candidates(peers[i], NeededPieces(pieces, blocksPerPiece)),
                                maxRequests, peers[..], NeededPieces(pieces, blocksPerPiece))
    ensures requests == PlanOf(selfId, pieces, peers[..], choices)
  {
    SortById(peers);
    requests, choices := RarestFirstRequests(selfId, pieces, blocksPerPiece, maxRequests, peers[..]);
  }

  /** Every request of a plan goes to one of the planned neighbours. */
  lemma TargetsArePeers(selfId: PeerId, pieces: seq<nat>, peers: seq<PeerView>, choices: seq<seq<nat>>, k: nat)
    requires |choices| == |peers| && ChoicesInPieces(choices, pieces)
    requires k < |PlanOf(selfId, pieces, peers, choices)|
    ensures exists i :: 0 <= i < |peers| && PlanOf(selfId, pieces, peers, choices)[k].peerId == peers[i].id
  {
    PlanOrigin(selfId, pieces, peers, choices, k);
  }

  /** Target ids never decrease along a list of requests. */
  ghost predicate GroupedById(plan: seq<Request>) {
    forall x, y :: 0 <= x < y < |plan| ==> IdLeq(plan[x].peerId, plan[y].peerId)
  }

  /**
   * Planning over neighbours sorted by id groups the requests by target:
   * their target ids never decrease along the list.
   */
  lemma {:induction false} PlanGroupedById(selfId: PeerId, pieces: seq<nat>, peers: seq<PeerView>,
                                           choices: seq<seq<nat>>)
    requires |choices| == |peers| && ChoicesInPieces(choices, pieces) && SortedById(peers)
    ensures GroupedById(PlanOf(selfId, pieces, peers, choices))
  {
    if peers != [] {
      var n := |peers| - 1;
      var front := PlanOf(selfId, pieces, peers[..n], choices[..n]);
      var last := PeerRequests(selfId, pieces, peers[n].id, choices[n]);
      assert PlanOf(selfId, pieces, peers, choices) == front + last;
      assert SortedById(peers[..n]);
      PlanGroupedById(selfId, pieces, peers[..n], choices[..n]);
      var plan := front + last;
      forall x, y | 0 <= x < y < |plan| ensures IdLeq(plan[x].peerId, plan[y].peerId) {
        if y < |front| {
          assert plan[x] == front[x] && plan[y] == front[y];
        } else {
          assert plan[y] == last[y - |front|] && last[y - |front|].peerId == peers[n].id;
          if x >= |front| {
            assert plan[x] == last[x - |front|] && last[x - |front|].peerId == peers[n].id;
            IdLeqTotal(peers[n].id, peers[n].id);
          } else {
            TargetsArePeers(selfId, pieces, peers[..n], choices[..n], x);
            var i :| 0 <= i < n && front[x].peerId == peers[..n][i].id;
            assert peers[..n][i] == peers[i] && plan[x] == front[x];
            assert IdLeq(peers[i].id, peers[n].id);
          }
        }
      }
    }
  }

  // ---------------------------------------------------------------------
  // Proportional-share uploads
  // ---------------------------------------------------------------------

  /** One entry `[peer_id, bw]` of `id_and_bw`; every bandwidth there is a whole number. */
  datatype Grant = Grant(peer: PeerId, bw: int)

  /** `sum(uploader_c.values())`, over a listing of the counter's keys. */
  function SumCounts(keys: seq<PeerId>, c: map<PeerId, nat>): nat
    requires forall k :: k in keys ==> k in c
  {
    if keys == [] then 0 else SumCounts(keys[..|keys| - 1], c) + c[keys[|keys| - 1]]
  }

  /** The total covers each key's count, and any two distinct keys' counts together. */
  lemma {:induction false} SumCountsCovers(keys: seq<PeerId>, c: map<PeerId, nat>, i: nat, j: nat)
    requires (forall k :: k in keys ==> k in c) && Distinct(keys)
    requires i < |keys| && j < |keys|
    ensures c[keys[i]] <= SumCounts(keys, c)
    ensures i != j ==> c[keys[i]] + c[keys[j]] <= SumCounts(keys, c)
  {
    var n := |keys| - 1;
    var init := keys[..n];
    assert forall k :: k in init ==> k in keys;
    assert Distinct(init) by {
      forall a, b | 0 <= a < b < |init| ensures init[a] != init[b] {
        assert init[a] == keys[a] && init[b] == keys[b];
      }
    }
    if i < n && j < n {
      SumCountsCovers(init, c, i, j);
      assert init[i] == keys[i] && init[j] == keys[j];
    } else if i < n {
      SumCountsCovers(init, c, i, i);
      assert init[i] == keys[i];
    } else if j < n {
      SumCountsCovers(init, c, j, j);
      assert init[j] == keys[j];
    }
  }

  /** `floor((uploader_c[ele] / total) * 0.9 * up_bw)` with Python 2's floor division of integers. */
  function Share(count: nat, total: nat, upBw: nat): int
    requires total > 0
  {
    ((count / total) as real * (9.0 / 10.0) * upBw as real).Floor
  }

  /** What flooring the share drops: the term added to `not_used_float`. */
  function Frac(count: nat, total: nat, upBw: nat): real
    requires total > 0
  {
    (count / total) as real * (9.0 / 10.0) * upBw as real - Share(count, total, upBw) as real
  }

  /** `id_and_bw` after the loop at line 125, in the counter's iteration order `keys`. */
  function Shares(keys: seq<PeerId>, c: map<PeerId, nat>, total: nat, upBw: nat): (r: seq<Grant>)
    requires (forall k :: k in keys ==> k in c) && (total > 0 || keys == [])
    ensures |r| == |keys| && forall k :: 0 <= k < |r| ==> r[k].peer == keys[k]
  {
    if keys == [] then []
    else Shares(keys[..|keys| - 1], c, total, upBw) + [Grant(keys[|keys| - 1], Share(c[keys[|keys| - 1]], total, upBw))]
  }

  /** `not_used_float` after the loop at line 125. */
  function Leftover(keys: seq<PeerId>, c: map<PeerId, nat>, total: nat, upBw: nat): real
    requires (forall k :: k in keys ==> k in c) && (total > 0 || keys == [])
  {
    if keys == [] then 0.0
    else Leftover(keys[..|keys| - 1], c, total, upBw) + Frac(c[keys[|keys| - 1]], total, upBw)
  }

  /** The loop at lines 125-128: one floored share per key, the dropped fractions summed. */
  method ProportionalShares(keys: seq<PeerId>, c: map<PeerId, nat>, total: nat, upBw: nat)
    returns (idAndBw: seq<Grant>, notUsedFloat: real)
    requires (forall k :: k in keys ==> k in c) && (total > 0 || keys == [])
    ensures idAndBw == Shares(keys, c, total, upBw) && notUsedFloat == Leftover(keys, c, total, upBw)
  {
    idAndBw, notUsedFloat := [], 0.0;
    for i := 0 to |keys|
      invariant idAndBw == Shares(keys[..i], c, total, upBw)
      invariant notUsedFloat == Leftover(keys[..i], c, total, upBw)
    {
      var ele := keys[i];
      assert keys[..i + 1][..i] == keys[..i];
      var bw := Share(c[ele], total, upBw);
      notUsedFloat := notUsedFloat + ((c[ele] / total) as real * (9.0 / 10.0) * upBw as real - bw as real);
      idAndBw := idAndBw + [Grant(ele, bw)];
    }
    assert keys[..|keys|] == keys;
  }

  /**
   * With integer division a key's ratio is 1 when it sent every counted block
   * and 0 otherwise: the sole uploader gets `floor(0.9 * up_bw)`, every other
   * key gets nothing and leaves nothing over.
   */
  lemma ShareIsAllOrNothing(count: nat, total: nat, upBw: nat)
    requires 0 < total && count <= total
    ensures count == total ==> Share(count, total, upBw) == ((9.0 / 10.0) * upBw as real).Floor
    ensures count == total ==> 0.0 <= Frac(count, total, upBw) < 1.0
    ensures count < total ==> Share(count, total, upBw) == 0 && Frac(count, total, upBw) == 0.0
  {
    if count == total {
      assert count / total == 1;
    } else {
      assert count / total == 0;
    }
  }

  /** No two distinct keys both sent every counted block. */
  ghost predicate AtMostOneFull(keys: seq<PeerId>, c: map<PeerId, nat>, total: nat)
    requires forall k :: k in keys ==> k in c
  {
    forall i, j :: 0 <= i < j < |keys| ==> c[keys[i]] < total || c[keys[j]] < total
  }

  /** The shape of any tally with a positive total: counts within the total, at most one full. */
  lemma TallyShape(keys: seq<PeerId>, c: map<PeerId, nat>)
    requires (forall k :: k in keys ==> k in c) && Distinct(keys) && SumCounts(keys, c) > 0
    ensures forall k :: k in keys ==> c[k] <= SumCounts(keys, c)
    ensures AtMostOneFull(keys, c, SumCounts(keys, c))
  {
    forall k | k in keys ensures c[k] <= SumCounts(keys, c) {
      var i :| 0 <= i < |keys| && keys[i] == k;
      SumCountsCovers(keys, c, i, i);
    }
    forall i, j | 0 <= i < j < |keys|
      ensures c[keys[i]] < SumCounts(keys, c) || c[keys[j]] < SumCounts(keys, c)
    {
      SumCountsCovers(keys, c, i, j);
    }
  }

  function GrantSum(g: seq<Grant>): int {
    if g == [] then 0 else GrantSum(g[..|g| - 1]) + g[|g| - 1].bw
  }

  /** Dropping the last key keeps the tally's shape; if the last key is full, no other key is. */
  lemma ShapeOfInit(keys: seq<PeerId>, c: map<PeerId, nat>, total: nat)
    requires (forall k :: k in keys ==> k in c) && keys != []
    requires (forall k :: k in keys ==> c[k] <= total) && AtMostOneFull(keys, c, total)
    ensures var init := keys[..|keys| - 1];
            && (forall k :: k in init ==> k in c && c[k] <= total)
            && AtMostOneFull(init, c, total)
            && (c[keys[|keys| - 1]] >= total ==> forall k :: k in init ==> c[k] < total)
  {
    var n := |keys| - 1;
    var init := keys[..n];
    assert forall k :: k in init ==> k in keys;
    assert AtMostOneFull(init, c, total) by {
      forall i, j | 0 <= i < j < |init| ensures c[init[i]] < total || c[init[j]] < total {
        assert init[i] == keys[i] && init[j] == keys[j];
      }
    }
    if c[keys[n]] >= total {
      forall k | k in init ensures c[k] < total {
        var i :| 0 <= i < |init| && init[i] == k;
        assert keys[i] == k && i < n;
      }
    }
  }

  /**
   * With at most one full key the dropped fractions add up to less than one
   * unit, so `not_used_int` is 0 and the loop at line 140 never runs.
   */
  lemma {:induction false} LeftoverBelowOne(keys: seq<PeerId>, c: map<PeerId, nat>, total: nat, upBw: nat)
    requires (forall k :: k in keys ==> k in c) && total > 0
    requires (forall k :: k in keys ==> c[k] <= total) && AtMostOneFull(keys, c, total)
    ensures 0.0 <= Leftover(keys, c, total, upBw) < 1.0
    ensures (forall k :: k in keys ==> c[k] < total) ==> Leftover(keys, c, total, upBw) == 0.0
  {
    if keys != [] {
      var n := |keys| - 1;
      ShapeOfInit(keys, c, total);
      LeftoverBelowOne(keys[..n], c, total, upBw);
      ShareIsAllOrNothing(c[keys[n]], total, upBw);
    }
  }

  /** With at most one full key the proportional shares add up to at most `floor(0.9 * up_bw)`. */
  lemma {:induction false} SharesWithinNinetyPercent(keys: seq<PeerId>, c: map<PeerId, nat>, total: nat, upBw: nat)
    requires (forall k :: k in keys ==> k in c) && total > 0
    requires (forall k :: k in keys ==> c[k] <= total) && AtMostOneFull(keys, c, total)
    ensures 0 <= GrantSum(Shares(keys, c, total, upBw)) <= ((9.0 / 10.0) * upBw as real).Floor
    ensures (forall k :: k in keys ==> c[k] < total) ==> GrantSum(Shares(keys, c, total, upBw)) == 0
  {
    if keys != [] {
      var n := |keys| - 1;
      ShapeOfInit(keys, c, total);
      SharesWithinNinetyPercent(keys[..n], c, total, upBw);
      ShareIsAllOrNothing(c[keys[n]], total, upBw);
      var shares := Shares(keys, c, total, upBw);
      assert shares[..n] == Shares(keys[..n], c, total, upBw);
    }
  }

  /** `floor(up_bw * 0.1)`: the bandwidth of the optimistic slot. */
  function OptimisticShare(upBw: nat): int {
    (upBw as real * (1.0 / 10.0)).Floor
  }

  /** The proportional part and the optimistic slot together stay within `up_bw`. */
  lemma TenthsFit(upBw: nat)
    ensures 0 <= ((9.0 / 10.0) * upBw as real).Floor && 0 <= OptimisticShare(upBw)
    ensures ((9.0 / 10.0) * upBw as real).Floor + OptimisticShare(upBw) <= upBw
  {
  }

  /**
   * `set(x[0] for x in uploader_c)`: the first character of every key, as a
   * one-character id. Only a one-character requester id can ever match it.
   */
  function FirstChars(keys: set<PeerId>): set<PeerId>
    requires "" !in keys
  {
    set k | k in keys :: k[..1]
  }

  /** `peer_ids`: the requesters left over for the optimistic slot after line 132. */
  function OptimisticPool(requests: seq<Request>, c: map<PeerId, nat>): set<PeerId>
    requires "" !in c
  {
    RequesterIds(requests) - FirstChars(c.Keys)
  }

  /**
   * The exclusion at line 132 compares whole ids with first characters, so a
   * requester whose id is not exactly one character long stays eligible for
   * the optimistic slot even when it already has a proportional share.
   */
  lemma ExclusionKeepsLongIds(requests: seq<Request>, c: map<PeerId, nat>, p: PeerId)
    requires "" !in c && p in RequesterIds(requests) && |p| != 1
    ensures p in OptimisticPool(requests, c)
  {
  }

  /** Concretely: "p1" sent blocks and requested, and is still in the optimistic pool. */
  lemma ServedPeerStaysInPool()
    ensures var requests := [Request("p1", "me", 0, 0)];
            var c := UploaderCounts([Download("p1", 5)], RequesterIds(requests));
            c == map["p1" := 5] && OptimisticPool(requests, c) == {"p1"}
  {
    var requests := [Request("p1", "me", 0, 0)];
    var ds := [Download("p1", 5)];
    assert RequesterIds(requests) == {"p1"};
    assert Senders(ds) == {"p1"};
    assert BlocksFrom(ds, "p1") == 5 by {
      assert ds[..0] == [];
    }
    var c := UploaderCounts(ds, RequesterIds(requests));
    assert c == map["p1" := 5];
    assert FirstChars(c.Keys) == {"p"} by {
      assert "p1"[..1] == "p";
    }
  }

  // Sorting by bandwidth

  ghost predicate DescendingBw(s: seq<Grant>) {
    forall x, y :: 0 <= x < y < |s| ==> s[y].bw <= s[x].bw
  }

  /** Inserts `x` before the first entry whose bandwidth does not exceed its own. */
  function InsertByBw(x: Grant, s: seq<Grant>): (r: seq<Grant>)
    ensures |r| == |s| + 1
    ensures multiset(r) == multiset(s) + multiset{x}
  {
    if s == [] || s[0].bw <= x.bw then
      [x] + s
    else
      assert s == [s[0]] + s[1..];
      [s[0]] + InsertByBw(x, s[1..])
  }

  /** No entry of `s` has more than `bound`. */
  ghost predicate AllAtMost(s: seq<Grant>, bound: int) {
    forall y :: 0 <= y < |s| ==> s[y].bw <= bound
  }

  /** A descending list whose entries are all below `h` stays descending behind `h`. */
  lemma ConsDescending(h: Grant, s: seq<Grant>)
    requires DescendingBw(s) && AllAtMost(s, h.bw)
    ensures DescendingBw([h] + s)
  {
    var r := [h] + s;
    forall a, b | 0 <= a < b < |r| ensures r[b].bw <= r[a].bw {
      assert r[b] == s[b - 1];
      if a > 0 {
        assert r[a] == s[a - 1];
      }
    }
  }

  /** Inserting an entry below `bound` into a list below `bound` keeps it below. */
  lemma InsertAtMost(x: Grant, s: seq<Grant>, bound: int)
    requires AllAtMost(s, bound) && x.bw <= bound
    ensures AllAtMost(InsertByBw(x, s), bound)
  {
    var r := InsertByBw(x, s);
    forall y | 0 <= y < |r| ensures r[y].bw <= bound {
      assert r[y] in multiset(r);
      if r[y] != x {
        assert r[y] in multiset(s);
        var z :| 0 <= z < |s| && s[z] == r[y];
      }
    }
  }

  /** Inserting into a descending list keeps it descending. */
  lemma {:induction false} InsertByBwDescending(x: Grant, s: seq<Grant>)
    requires DescendingBw(s)
    ensures DescendingBw(InsertByBw(x, s))
  {
    if s != [] && x.bw < s[0].bw {
      var t := s[1..];
      assert DescendingBw(t) by {
        forall a, b | 0 <= a < b < |t| ensures t[b].bw <= t[a].bw {
          assert t[a] == s[a + 1] && t[b] == s[b + 1];
        }
      }
      assert AllAtMost(t, s[0].bw) by {
        forall y | 0 <= y < |t| ensures t[y].bw <= s[0].bw {
          assert t[y] == s[y + 1];
        }
      }
      InsertByBwDescending(x, t);
      InsertAtMost(x, t, s[0].bw);
      ConsDescending(s[0], InsertByBw(x, t));
    } else {
      assert AllAtMost(s, x.bw) by {
        forall y | 0 <= y < |s| ensures s[y].bw <= x.bw {
          assert s[y].bw <= s[0].bw;
        }
      }
      ConsDescending(x, s);
    }
  }

  /**
   * `sorted(id_and_bw, key=itemgetter(1), reverse=True)`: a rearrangement in
   * descending order of bandwidth; entries with equal bandwidth keep their order.
   */
  function SortByBw(s: seq<Grant>): (r: seq<Grant>)
    ensures |r| == |s| && DescendingBw(r) && multiset(r) == multiset(s)
  {
    if s == [] then []
    else
      assert s == [s[0]] + s[1..];
      var rest := SortByBw(s[1..]);
      InsertByBwDescending(s[0], rest);
      InsertByBw(s[0], rest)
  }

  lemma {:induction false} GrantSumAppend(a: seq<Grant>, b: seq<Grant>)
    ensures GrantSum(a + b) == GrantSum(a) + GrantSum(b)
  {
    if b == [] {
      assert a + b == a;
    } else {
      assert (a + b)[..|a + b| - 1] == a + b[..|b| - 1];
      GrantSumAppend(a, b[..|b| - 1]);
    }
  }

  /** The sum does not depend on the order of the entries. */
  lemma {:induction false} GrantSumPermutation(a: seq<Grant>, b: seq<Grant>)
    requires multiset(a) == multiset(b)
    ensures GrantSum(a) == GrantSum(b)
  {
    if a != [] {
      var x := a[|a| - 1];
      assert x in multiset(b);
      var i :| 0 <= i < |b| && b[i] == x;
      var b' := b[..i] + b[i + 1..];
      RemoveMatching(a, b, i);
      GrantSumPermutation(a[..|a| - 1], b');
      GrantSumSplice(b, i);
    }
  }

  /** Taking the last entry off `a` and the same entry off `b` keeps the multisets equal. */
  lemma RemoveMatching(a: seq<Grant>, b: seq<Grant>, i: nat)
    requires multiset(a) == multiset(b) && a != [] && i < |b| && b[i] == a[|a| - 1]
    ensures multiset(a[..|a| - 1]) == multiset(b[..i] + b[i + 1..])
  {
    var x := b[i];
    var a' := a[..|a| - 1];
    var b' := b[..i] + b[i + 1..];
    assert a == a' + [x];
    assert b == b[..i] + [x] + b[i + 1..];
    assert multiset(a) == multiset(a') + multiset{x};
    assert multiset(b) == multiset(b') + multiset{x};
    forall y ensures multiset(a')[y] == multiset(b')[y] {
      assert (multiset(a') + multiset{x})[y] == (multiset(b') + multiset{x})[y];
    }
  }

  /** Cutting entry `i` out of `b` lowers the sum by its bandwidth. */
  lemma GrantSumSplice(b: seq<Grant>, i: nat)
    requires i < |b|
    ensures GrantSum(b) == GrantSum(b[..i] + b[i + 1..]) + b[i].bw
  {
    var x := b[i];
    assert b == b[..i] + [x] + b[i + 1..];
    GrantSumAppend(b[..i] + [x], b[i + 1..]);
    GrantSumAppend(b[..i], [x]);
    GrantSumAppend(b[..i], b[i + 1..]);
    assert GrantSum([x]) == x.bw by {
      assert [x][..0] == [];
    }
  }

  // Redistributing the leftover

  /** Units the round-robin at line 140 has handed to entry `k` of `n` after `u` steps. */
  function Units(k: nat, n: nat, u: nat): nat
    requires n > 0
  {
    if u == 0 then 0 else Units(k, n, u - 1) + (if (u - 1) % n == k then 1 else 0)
  }

  /** Units handed to the first `m` entries. */
  function UnitsBelow(m: nat, n: nat, u: nat): nat
    requires n > 0
  {
    if m == 0 then 0 else UnitsBelow(m - 1, n, u) + Units(m - 1, n, u)
  }

  lemma {:induction false} UnitsBelowStep(m: nat, n: nat, u: nat)
    requires n > 0 && u > 0
    ensures UnitsBelow(m, n, u) == UnitsBelow(m, n, u - 1) + (if (u - 1) % n < m then 1 else 0)
  {
    if m > 0 {
      UnitsBelowStep(m - 1, n, u);
    }
  }

  /** The round-robin hands out exactly `u` units in all. */
  lemma {:induction false} UnitsTotal(n: nat, u: nat)
    requires n > 0
    ensures UnitsBelow(n, n, u) == u
  {
    if u == 0 {
      UnitsNone(n, n);
    } else {
      UnitsTotal(n, u - 1);
      UnitsBelowStep(n, n, u);
    }
  }

  lemma {:induction false} UnitsNone(m: nat, n: nat)
    requires n > 0
    ensures UnitsBelow(m, n, 0) == 0
  {
    if m > 0 {
      UnitsNone(m - 1, n);
    }
  }

  lemma {:induction false} GrantSumPlusUnits(g: seq<Grant>, r: seq<Grant>, u: nat, m: nat)
    requires |g| == |r| && |g| > 0 && m <= |g|
    requires forall k :: 0 <= k < |g| ==> r[k].bw == g[k].bw + Units(k, |g|, u)
    ensures GrantSum(r[..m]) == GrantSum(g[..m]) + UnitsBelow(m, |g|, u)
  {
    if m > 0 {
      GrantSumPlusUnits(g, r, u, m - 1);
      assert r[..m][..m - 1] == r[..m - 1] && g[..m][..m - 1] == g[..m - 1];
    }
  }

  /**
   * The `while not_used_int > 0` loop: entry `index % len` gains one unit per
   * step; with an empty list Python would divide by zero, so a positive
   * leftover needs at least one entry.
   */
  method Redistribute(grants: seq<Grant>, notUsedInt: nat) returns (r: seq<Grant>)
    requires notUsedInt > 0 ==> grants != []
    ensures |r| == |grants|
    ensures forall k :: 0 <= k < |r| ==>
              r[k].peer == grants[k].peer && r[k].bw == grants[k].bw + Units(k, |grants|, notUsedInt)
    ensures GrantSum(r) == GrantSum(grants) + notUsedInt
    ensures notUsedInt == 0 ==> r == grants
  {
    r := grants;
    if grants == [] {
      return;
    }
    var n := |grants|;
    var index := 0;
    while index < notUsedInt
      invariant 0 <= index <= notUsedInt && |r| == n
      invariant index == 0 ==> r == grants
      invariant forall k :: 0 <= k < n ==> r[k].peer == grants[k].peer && r[k].bw == grants[k].bw + Units(k, n, index)
    {
      var k := index % n;
      r := r[k := Grant(r[k].peer, r[k].bw + 1)];
      index := index + 1;
    }
    GrantSumPlusUnits(grants, r, notUsedInt, n);
    UnitsTotal(n, notUsedInt);
    assert r[..n] == r && grants[..n] == grants;
  }

  // The allocator

  /** The uploads made from a list of grants, in order. */
  function AsUploads(selfId: PeerId, grants: seq<Grant>): (r: seq<Upload>)
    ensures |r| == |grants|
    ensures forall k :: 0 <= k < |r| ==> r[k] == Upload(selfId, grants[k].peer, grants[k].bw as real)
  {
    seq(|grants|, k requires 0 <= k < |grants| => Upload(selfId, grants[k].peer, grants[k].bw as real))
  }

  lemma {:induction false} AsUploadsTotal(selfId: PeerId, grants: seq<Grant>)
    ensures TotalBw(AsUploads(selfId, grants)) == GrantSum(grants) as real
  {
    if grants != [] {
      var n := |grants| - 1;
      assert AsUploads(selfId, grants)[..n] == AsUploads(selfId, grants[..n]);
      AsUploadsTotal(selfId, grants[..n]);
    }
  }

  /** `keys` lists the counter's keys, each once: the counter's iteration order. */
  ghost predicate Lists(keys: seq<PeerId>, c: map<PeerId, nat>) {
    |keys| == |c| && Distinct(keys) && forall k :: k in keys <==> k in c
  }

  /**
   * The outcome of `uploads` once there is a request and a last round:
   * dividing by a zero total, indexing an empty key, or the proportional
   * shares plus at most one optimistic grant, sorted by descending bandwidth.
   */
  ghost predicate Allocated(result: Result<seq<Upload>, PyError>, selfId: PeerId, upBw: nat,
                            requests: seq<Request>, c: map<PeerId, nat>, keys: seq<PeerId>, extra: seq<Grant>)
  {
    && Lists(keys, c)
    && (keys != [] && SumCounts(keys, c) == 0 ==> result == Failure(ZeroDivisionError))
    && (SumCounts(keys, c) > 0 || keys == [] ==>
          if "" in c then result == Failure(IndexError)
          else
            && |extra| <= 1
            && (extra == [] <==> OptimisticPool(requests, c) == {})
            && (forall g :: g in extra ==> g.peer in OptimisticPool(requests, c) && g.bw == OptimisticShare(upBw))
            && result == Success(AsUploads(selfId, SortByBw(Shares(keys, c, SumCounts(keys, c), upBw) + extra))))
  }

  /** Whatever the optimistic pick, the allocation stays within `up_bw`. */
  lemma AllocationWithinBudget(upBw: nat, c: map<PeerId, nat>, keys: seq<PeerId>, extra: seq<Grant>)
    requires Lists(keys, c) && (SumCounts(keys, c) > 0 || keys == [])
    requires |extra| <= 1 && forall g :: g in extra ==> g.bw == OptimisticShare(upBw)
    ensures GrantSum(SortByBw(Shares(keys, c, SumCounts(keys, c), upBw) + extra)) <= upBw
  {
    var total := SumCounts(keys, c);
    var shares := Shares(keys, c, total, upBw);
    if total > 0 {
      TallyShape(keys, c);
      SharesWithinNinetyPercent(keys, c, total, upBw);
    }
    TenthsFit(upBw);
    GrantSumAppend(shares, extra);
    GrantSumPermutation(shares + extra, SortByBw(shares + extra));
    assert extra != [] ==> GrantSum(extra) == OptimisticShare(upBw) by {
      if extra != [] {
        assert extra[..0] == [] && extra[0] in extra;
      }
    }
  }

  /** Only the counter's keys and the optimistic pick appear in the allocation. */
  lemma AllocationRecipients(upBw: nat, c: map<PeerId, nat>, keys: seq<PeerId>, extra: seq<Grant>, g: Grant)
    requires (forall k :: k in keys ==> k in c) && (SumCounts(keys, c) > 0 || keys == [])
    requires g in SortByBw(Shares(keys, c, SumCounts(keys, c), upBw) + extra)
    ensures g.peer in c || g in extra
  {
    var shares := Shares(keys, c, SumCounts(keys, c), upBw);
    assert g in multiset(SortByBw(shares + extra));
    assert g in shares + extra;
    if g in shares {
      var j :| 0 <= j < |shares| && shares[j] == g;
      assert keys[j] in keys;
    }
  }

  /** The dropped fractions never add up to a whole unit: `not_used_int` is 0. */
  lemma NoLeftoverUnits(keys: seq<PeerId>, c: map<PeerId, nat>, upBw: nat)
    requires Lists(keys, c) && (SumCounts(keys, c) > 0 || keys == [])
    ensures Leftover(keys, c, SumCounts(keys, c), upBw).Floor == 0
  {
    if SumCounts(keys, c) > 0 {
      TallyShape(keys, c);
      LeftoverBelowOne(keys, c, SumCounts(keys, c), upBw);
    }
  }

  /** The allocation stays within `up_bw` and goes only to requesters. */
  lemma AllocationSound(selfId: PeerId, upBw: nat, requests: seq<Request>, c: map<PeerId, nat>,
                        keys: seq<PeerId>, extra: seq<Grant>)
    requires Lists(keys, c) && (SumCounts(keys, c) > 0 || keys == [])
    requires forall k :: k in c ==> k in RequesterIds(requests)
    requires |extra| <= 1 && forall g :: g in extra ==> g.peer in RequesterIds(requests) && g.bw == OptimisticShare(upBw)
    ensures var uploads := AsUploads(selfId, SortByBw(Shares(keys, c, SumCounts(keys, c), upBw) + extra));
            && TotalBw(uploads) <= upBw as real
            && forall u :: u in uploads ==> u.fromId == selfId && u.toId in RequesterIds(requests)
  {
    var sorted := SortByBw(Shares(keys, c, SumCounts(keys, c), upBw) + extra);
    AllocationWithinBudget(upBw, c, keys, extra);
    AsUploadsTotal(selfId, sorted);
    var uploads := AsUploads(selfId, sorted);
    forall u | u in uploads ensures u.fromId == selfId && u.toId in RequesterIds(requests) {
      var k :| 0 <= k < |uploads| && uploads[k] == u;
      assert sorted[k] in sorted;
      AllocationRecipients(upBw, c, keys, extra, sorted[k]);
    }
  }

  /** The records of the last completed round. */
  function LastRound(history: History): seq<Download>
    requires history.downloads != []
  {
    history.downloads[|history.downloads| - 1]
  }

  /**
   * `uploads`: proportional shares of 90% of `up_bw` to last round's
   * uploaders among the requesters, 10% to one other requester, never more
   * than `up_bw` in all.
   */
  method Uploads(selfId: PeerId, upBw: nat, requests: seq<Request>, history: History)
    returns (result: Result<seq<Upload>, PyError>, ghost keys: seq<PeerId>, ghost extra: seq<Grant>)
    ensures requests == [] ==> result == Success([])
    ensures requests != [] && history.downloads == [] ==> result == Failure(IndexError)
    ensures requests != [] && history.downloads != [] ==>
              Allocated(result, selfId, upBw, requests, UploaderCounts(LastRound(history), RequesterIds(requests)),
                        keys, extra)
    ensures result.Success? ==> TotalBw(result.value) <= upBw as real
    ensures result.Success? ==> forall u :: u in result.value ==> u.fromId == selfId && u.toId in RequesterIds(requests)
  {
    keys, extra := [], [];
    if requests == [] {
      return Success([]), keys, extra;
    }
    if history.downloads == [] {
      return Failure(IndexError), keys, extra;
    }
    var requesterIds := RequesterIds(requests);
    var c := CountUploaders(LastRound(history), requesterIds);
    var listed := Draws.ListOfSet(c.Keys);
    keys := listed;
    var total := SumCounts(listed, c);
    if listed != [] && total == 0 {
      return Failure(ZeroDivisionError), keys, extra;
    }
    assert forall k :: k in c ==> k in requesterIds;
    result, extra := Allocate(selfId, upBw, requests, c, listed);
  }

  /**
   * Lines 121-146 once the total is known not to be zero: the shares, the
   * leftover (always 0 here), the optimistic slot, the sort and the
   * redistribution.
   */
  method Allocate(selfId: PeerId, upBw: nat, requests: seq<Request>, c: map<PeerId, nat>, keys: seq<PeerId>)
    returns (result: Result<seq<Upload>, PyError>, ghost extra: seq<Grant>)
    requires Lists(keys, c) && (SumCounts(keys, c) > 0 || keys == [])
    requires forall k :: k in c ==> k in RequesterIds(requests)
    ensures "" in c ==> result == Failure(IndexError)
    ensures "" !in c ==>
              && |extra| <= 1
              && (extra == [] <==> OptimisticPool(requests, c) == {})
              && (forall g :: g in extra ==> g.peer in OptimisticPool(requests, c) && g.bw == OptimisticShare(upBw))
              && result == Success(AsUploads(selfId, SortByBw(Shares(keys, c, SumCounts(keys, c), upBw) + extra)))
    ensures result.Success? ==> TotalBw(result.value) <= upBw as real
    ensures result.Success? ==> forall u :: u in result.value ==> u.fromId == selfId && u.toId in RequesterIds(requests)
  {
    extra := [];
    var total := SumCounts(keys, c);
    var idAndBw, notUsedFloat := ProportionalShares(keys, c, total, upBw);
    NoLeftoverUnits(keys, c, upBw);
    var notUsedInt := notUsedFloat.Floor;
    if "" in c {
      return Failure(IndexError), extra;
    }
    var peerIds := OptimisticPool(requests, c);
    if peerIds != {} {
      var pick :| pick in peerIds;
      var optimistic := Grant(pick, OptimisticShare(upBw));
      idAndBw := idAndBw + [optimistic];
      extra := [optimistic];
      assert forall g :: g in extra ==> g == optimistic;
    } else {
      assert idAndBw + extra == idAndBw;
    }
    assert idAndBw == Shares(keys, c, total, upBw) + extra;
    var sorted := SortByBw(idAndBw);
    var final := Redistribute(sorted, notUsedInt);
    result := Success(AsUploads(selfId, final));
    AllocationSound(selfId, upBw, requests, c, keys, extra);
  }
}
