/**
 * The request planner's building blocks, shared by every strategy: which
 * pieces are still needed, the rarity tally over the neighbours, the ordering
 * of candidate pieces by rarity, and the requests emitted for a chosen list of
 * pieces. `RarestFirstRequests` is the planner of krankilestd.py (inherited
 * by krankiletyrant.py) and, after its sort of the peers, of
 * krankilepropshare.py.
 */
module Planner {
  import opened Messages
  import Draws

  /** A piece is needed while fewer than `blocksPerPiece` of its blocks are held. */
  predicate PieceNeeded(pieces: seq<nat>, blocksPerPiece: nat, i: nat)
    requires i < |pieces|
    ensures PieceNeeded(pieces, blocksPerPiece, i) ==> blocksPerPiece >= 1 && pieces[i] + 1 <= blocksPerPiece
    ensures pieces[i] == blocksPerPiece ==> !PieceNeeded(pieces, blocksPerPiece, i)
  {
    pieces[i] < blocksPerPiece
  }

  function NeededPieces(pieces: seq<nat>, blocksPerPiece: nat): set<nat> {
    set i: nat | i < |pieces| && PieceNeeded(pieces, blocksPerPiece, i)
  }

  /** The pieces a neighbour can serve us: those it holds that we still need. */
  function Candidates(peer: PeerView, needed: set<nat>): set<nat> {
    peer.available * needed
  }

  /**
   * Held-block counts never decrease, so a piece needed after an update was
   * needed before it: once a piece is complete it never becomes needed again.
   */
  lemma NeededShrinks(before: seq<nat>, after: seq<nat>, blocksPerPiece: nat)
    requires |before| == |after|
    requires forall i :: 0 <= i < |before| ==> before[i] <= after[i]
    ensures NeededPieces(after, blocksPerPiece) <= NeededPieces(before, blocksPerPiece)
    ensures forall i :: 0 <= i < |after| && PieceNeeded(after, blocksPerPiece, i) ==> PieceNeeded(before, blocksPerPiece, i)
  {
  }

  // ---------------------------------------------------------------------------
  // Rarity tally

  /** Reference definition of rarity: how many of `peers` hold needed piece `p`. */
  function Holders(peers: seq<PeerView>, needed: set<nat>, p: nat): nat {
    if peers == [] then 0
    else Holders(peers[..|peers| - 1], needed, p) +
         (if p in Candidates(peers[|peers| - 1], needed) then 1 else 0)
  }

  /** A `Counter` reads 0 at a missing key. */
  function Count(counter: map<nat, nat>, p: nat): nat {
    if p in counter then counter[p] else 0
  }

  /** `Counter.update(s)` for a set `s`: every element of `s` counts once more. */
  function Bump(counter: map<nat, nat>, s: set<nat>): map<nat, nat> {
    map p | p in counter.Keys + s :: Count(counter, p) + (if p in s then 1 else 0)
  }

  /** The `piece_counter` loop: tallies, per needed piece, the peers that hold it. */
  method TallyRarity(peers: seq<PeerView>, needed: set<nat>) returns (counter: map<nat, nat>)
    ensures forall p :: Count(counter, p) == Holders(peers, needed, p)
    ensures counter.Keys <= needed
  {
    counter := map[];
    var i := 0;
    while i < |peers|
      invariant 0 <= i <= |peers|
      invariant forall p :: Count(counter, p) == Holders(peers[..i], needed, p)
      invariant counter.Keys <= needed
    {
      counter := Bump(counter, Candidates(peers[i], needed));
      assert peers[..i + 1][..i] == peers[..i];
      i := i + 1;
    }
    assert peers[..|peers|] == peers;
  }

  // ---------------------------------------------------------------------------
  // Ordering candidates by rarity: Python's stable `sorted` with the
  // comparator `piece_counter[p1] - piece_counter[p2]`

  ghost predicate SortedByCount(s: seq<nat>, counter: map<nat, nat>) {
    forall i, j :: 0 <= i < j < |s| ==> Count(counter, s[i]) <= Count(counter, s[j])
  }

  /** Places `x` before the first element at least as frequent (keeps ties stable). */
  function InsertByCount(x: nat, s: seq<nat>, counter: map<nat, nat>): (r: seq<nat>)
    ensures |r| == |s| + 1
    ensures forall y :: y in r <==> y == x || y in s
    ensures Distinct(s) && x !in s ==> Distinct(r)
  {
    if s == [] then [x]
    else if Count(counter, x) <= Count(counter, s[0]) then [x] + s
    else
      var rest := InsertByCount(x, s[1..], counter);
      DistinctCons(s, rest, x);
      [s[0]] + rest
  }

  /** No element of `s` is rarer than `bound`. */
  ghost predicate AllAtLeast(s: seq<nat>, counter: map<nat, nat>, bound: nat) {
    forall j :: 0 <= j < |s| ==> bound <= Count(counter, s[j])
  }

  /** A sorted list none of whose elements is rarer than `h` stays sorted behind `h`. */
  lemma ConsSorted(h: nat, s: seq<nat>, counter: map<nat, nat>)
    requires SortedByCount(s, counter) && AllAtLeast(s, counter, Count(counter, h))
    ensures SortedByCount([h] + s, counter)
  {
    var r := [h] + s;
    forall i, j | 0 <= i < j < |r| ensures Count(counter, r[i]) <= Count(counter, r[j]) {
      assert r[j] == s[j - 1];
      if i > 0 {
        assert r[i] == s[i - 1];
      }
    }
  }

  /** Inserting into a rarity-sorted list keeps it sorted. */
  lemma {:induction false} InsertByCountSorted(x: nat, s: seq<nat>, counter: map<nat, nat>)
    requires SortedByCount(s, counter)
    ensures SortedByCount(InsertByCount(x, s, counter), counter)
  {
    if s != [] && Count(counter, s[0]) < Count(counter, x) {
      var t := s[1..];
      assert SortedByCount(t, counter) by {
        forall i, j | 0 <= i < j < |t| ensures Count(counter, t[i]) <= Count(counter, t[j]) {
          assert t[i] == s[i + 1] && t[j] == s[j + 1];
        }
      }
      InsertByCountSorted(x, t, counter);
      var rest := InsertByCount(x, t, counter);
      assert AllAtLeast(rest, counter, Count(counter, s[0])) by {
        forall j | 0 <= j < |rest| ensures Count(counter, s[0]) <= Count(counter, rest[j]) {
          assert rest[j] in rest;
          if rest[j] != x {
            var m :| 0 <= m < |t| && t[m] == rest[j];
            assert s[m + 1] == rest[j];
          }
        }
      }
      ConsSorted(s[0], rest, counter);
    } else if s != [] {
      assert AllAtLeast(s, counter, Count(counter, x)) by {
        forall j | 0 <= j < |s| ensures Count(counter, x) <= Count(counter, s[j]) {
          assert Count(counter, s[0]) <= Count(counter, s[j]);
        }
      }
      ConsSorted(x, s, counter);
    }
  }

  lemma DistinctCons(s: seq<nat>, rest: seq<nat>, x: nat)
    requires s != [] && forall y :: y in rest <==> y == x || y in s[1..]
    requires Distinct(s) && x !in s ==> Distinct(rest)
    ensures Distinct(s) && x !in s ==> Distinct([s[0]] + rest)
  {
    if Distinct(s) && x !in s {
      forall m | 0 <= m < |s[1..]| ensures s[1..][m] != s[0] {
        assert s[1..][m] == s[m + 1];
      }
      forall j | 0 <= j < |rest| ensures rest[j] != s[0] {
        assert rest[j] in rest;
      }
      var r := [s[0]] + rest;
      forall i, j | 0 <= i < j < |r| ensures r[i] != r[j] {
        if i > 0 {
          assert r[i] == rest[i - 1] && r[j] == rest[j - 1];
        } else {
          assert r[j] == rest[j - 1];
        }
      }
    }
  }

  /** The candidates rarest first; stable, so ties keep their listed order. */
  function SortByCount(s: seq<nat>, counter: map<nat, nat>): (r: seq<nat>)
    ensures |r| == |s| && SortedByCount(r, counter)
    ensures forall y :: y in r <==> y in s
    ensures Distinct(s) ==> Distinct(r)
  {
    if s == [] then []
    else
      var rest := SortByCount(s[1..], counter);
      InsertByCountSorted(s[0], rest, counter);
      InsertByCount(s[0], rest, counter)
  }

  /**
   * A prefix of the rarity-sorted candidates: no candidate left out is
   * strictly rarer than one taken.
   */
  lemma SortedPrefixIsRarest(sorted: seq<nat>, counter: map<nat, nat>, n: nat, q: nat)
    requires SortedByCount(sorted, counter) && n <= |sorted|
    requires q in sorted && q !in sorted[..n]
    ensures forall k :: 0 <= k < n ==> Count(counter, sorted[k]) <= Count(counter, q)
  {
    var j :| 0 <= j < |sorted| && sorted[j] == q;
    forall k | 0 <= k < n ensures sorted[k] != q {
      assert sorted[k] == sorted[..n][k];
    }
  }

  // ---------------------------------------------------------------------------
  // Emitting requests

  predicate InPieces(choice: seq<nat>, pieces: seq<nat>) {
    forall k :: 0 <= k < |choice| ==> choice[k] < |pieces|
  }

  /** The requests to `target` for the pieces of `choice`, each from its next missing block. */
  function PeerRequests(selfId: PeerId, pieces: seq<nat>, target: PeerId, choice: seq<nat>): seq<Request>
    requires InPieces(choice, pieces)
  {
    seq(|choice|, k requires 0 <= k < |choice| => Request(selfId, target, choice[k], pieces[choice[k]]))
  }

  /** The body of `for piece_id in ...: requests.append(Request(...))`. */
  method EmitRequests(selfId: PeerId, pieces: seq<nat>, target: PeerId, choice: seq<nat>)
    returns (out: seq<Request>)
    requires InPieces(choice, pieces)
    ensures out == PeerRequests(selfId, pieces, target, choice)
    ensures |out| == |choice|
    ensures forall k :: 0 <= k < |out| ==>
              out[k].requesterId == selfId && out[k].peerId == target &&
              out[k].pieceId == choice[k] && out[k].start == pieces[choice[k]]
  {
    out := [];
    var k := 0;
    while k < |choice|
      invariant 0 <= k <= |choice| && |out| == k
      invariant forall j :: 0 <= j < k ==> out[j] == Request(selfId, target, choice[j], pieces[choice[j]])
    {
      out := out + [Request(selfId, target, choice[k], pieces[choice[k]])];
      k := k + 1;
    }
  }

  ghost predicate ChoicesInPieces(choices: seq<seq<nat>>, pieces: seq<nat>) {
    forall i :: 0 <= i < |choices| ==> InPieces(choices[i], pieces)
  }

  /** A whole plan: the requests for each peer in turn, for the pieces chosen for it. */
  function PlanOf(selfId: PeerId, pieces: seq<nat>, peers: seq<PeerView>, choices: seq<seq<nat>>): seq<Request>
    requires |choices| == |peers| && ChoicesInPieces(choices, pieces)
  {
    if peers == [] then []
    else PlanOf(selfId, pieces, peers[..|peers| - 1], choices[..|choices| - 1]) +
         PeerRequests(selfId, pieces, peers[|peers| - 1].id, choices[|choices| - 1])
  }

  /** Extends a plan's invariant by one peer (used by every planner loop). */
  lemma PlanOfSnoc(selfId: PeerId, pieces: seq<nat>, peers: seq<PeerView>, choices: seq<seq<nat>>, i: nat, choice: seq<nat>)
    requires |choices| == i < |peers| && ChoicesInPieces(choices, pieces) && InPieces(choice, pieces)
    ensures ChoicesInPieces(choices + [choice], pieces)
    ensures PlanOf(selfId, pieces, peers[..i + 1], choices + [choice]) ==
            PlanOf(selfId, pieces, peers[..i], choices) + PeerRequests(selfId, pieces, peers[i].id, choice)
  {
    assert peers[..i + 1][..i] == peers[..i];
    assert (choices + [choice])[..i] == choices;
  }

  /** Every request of a plan comes from the choice made for one of the peers. */
  lemma {:induction false} PlanOrigin(selfId: PeerId, pieces: seq<nat>, peers: seq<PeerView>, choices: seq<seq<nat>>, k: nat)
    requires |choices| == |peers| && ChoicesInPieces(choices, pieces)
    requires k < |PlanOf(selfId, pieces, peers, choices)|
    ensures exists i :: 0 <= i < |peers| &&
              PlanOf(selfId, pieces, peers, choices)[k].peerId == peers[i].id &&
              PlanOf(selfId, pieces, peers, choices)[k].pieceId in choices[i]
    ensures PlanOf(selfId, pieces, peers, choices)[k].requesterId == selfId
    ensures var r := PlanOf(selfId, pieces, peers, choices)[k]; r.pieceId < |pieces| && r.start == pieces[r.pieceId]
  {
    var n := |peers| - 1;
    var front := PlanOf(selfId, pieces, peers[..n], choices[..n]);
    var plan := PlanOf(selfId, pieces, peers, choices);
    assert plan == front + PeerRequests(selfId, pieces, peers[n].id, choices[n]);
    if k < |front| {
      PlanOrigin(selfId, pieces, peers[..n], choices[..n], k);
      var i :| 0 <= i < n && front[k].peerId == peers[..n][i].id && front[k].pieceId in choices[..n][i];
      assert plan[k] == front[k];
      assert peers[..n][i] == peers[i] && choices[..n][i] == choices[i];
    } else {
      var j := k - |front|;
      assert plan[k] == Request(selfId, peers[n].id, choices[n][j], pieces[choices[n][j]]);
      assert choices[n][j] in choices[n];
    }
  }

  /**
   * Soundness of any plan whose choices are candidates: each request names a
   * needed piece that its target holds, and starts at that piece's next
   * missing block.
   */
  lemma PlanSound(selfId: PeerId, pieces: seq<nat>, blocksPerPiece: nat, peers: seq<PeerView>, choices: seq<seq<nat>>)
    requires |choices| == |peers|
    requires forall i, k :: 0 <= i < |peers| && 0 <= k < |choices[i]| ==>
               choices[i][k] in Candidates(peers[i], NeededPieces(pieces, blocksPerPiece))
    ensures ChoicesInPieces(choices, pieces)
    ensures forall r :: r in PlanOf(selfId, pieces, peers, choices) ==>
              r.requesterId == selfId && r.pieceId < |pieces| &&
              PieceNeeded(pieces, blocksPerPiece, r.pieceId) && r.start == pieces[r.pieceId] &&
              exists i :: 0 <= i < |peers| && r.peerId == peers[i].id && r.pieceId in peers[i].available
  {
    assert ChoicesInPieces(choices, pieces) by {
      forall i, k | 0 <= i < |peers| && 0 <= k < |choices[i]| ensures choices[i][k] < |pieces| {
      }
    }
    var plan := PlanOf(selfId, pieces, peers, choices);
    forall r | r in plan
      ensures r.requesterId == selfId && r.pieceId < |pieces| &&
              PieceNeeded(pieces, blocksPerPiece, r.pieceId) && r.start == pieces[r.pieceId] &&
              exists i :: 0 <= i < |peers| && r.peerId == peers[i].id && r.pieceId in peers[i].available
    {
      var k :| 0 <= k < |plan| && plan[k] == r;
      PlanOrigin(selfId, pieces, peers, choices, k);
      var i :| 0 <= i < |peers| && r.peerId == peers[i].id && r.pieceId in choices[i];
      var j :| 0 <= j < |choices[i]| && choices[i][j] == r.pieceId;
      assert r.pieceId in Candidates(peers[i], NeededPieces(pieces, blocksPerPiece));
    }
  }

  // ---------------------------------------------------------------------------
  // Rarest-first planning (krankilestd.py, krankilepropshare.py)

  /**
   * What rarest-first promises for one peer: `min(maxRequests, |candidates|)`
   * distinct candidates, in ascending rarity, and none left out that is
   * strictly rarer than one taken.
   */
  ghost predicate RarestFirstChoice(choice: seq<nat>, candidates: set<nat>, maxRequests: nat,
                                    peers: seq<PeerView>, needed: set<nat>)
  {
    && |choice| == Min(maxRequests, |candidates|)
    && Distinct(choice)
    && (forall k :: 0 <= k < |choice| ==> choice[k] in candidates)
    && (forall k, l :: 0 <= k < l < |choice| ==> Holders(peers, needed, choice[k]) <= Holders(peers, needed, choice[l]))
    && (forall k, q :: 0 <= k < |choice| && q in candidates && q !in choice ==>
          Holders(peers, needed, choice[k]) <= Holders(peers, needed, q))
  }

  /** The rarest-first pick for one peer: sort the listed candidates, take a prefix. */
  method RarestFirstFor(peer: PeerView, needed: set<nat>, counter: map<nat, nat>, maxRequests: nat,
                        ghost peers: seq<PeerView>)
    returns (choice: seq<nat>)
    requires forall p :: Count(counter, p) == Holders(peers, needed, p)
    ensures RarestFirstChoice(choice, Candidates(peer, needed), maxRequests, peers, needed)
  {
    var isect := Candidates(peer, needed);
    var n := Min(maxRequests, |isect|);
    var listed := Draws.ListOfSet(isect);
    var rarestFirst := SortByCount(listed, counter);
    choice := rarestFirst[..n];
    forall k, q | 0 <= k < |choice| && q in isect && q !in choice
      ensures Holders(peers, needed, choice[k]) <= Holders(peers, needed, q)
    {
      SortedPrefixIsRarest(rarestFirst, counter, n, q);
    }
  }

  /**
   * `requests` of krankilestd.py: for every peer in order, the rarest
   * `min(max_requests, |candidates|)` candidates, each requested from its next
   * missing block.
   */
  method RarestFirstRequests(selfId: PeerId, pieces: seq<nat>, blocksPerPiece: nat, maxRequests: nat,
                             peers: seq<PeerView>)
    returns (requests: seq<Request>, choices: seq<seq<nat>>)
    ensures |choices| == |peers| && ChoicesInPieces(choices, pieces)
    ensures forall i :: 0 <= i < |peers| ==>
              RarestFirstChoice(choices[i], Candidates(peers[i], NeededPieces(pieces, blocksPerPiece)),
                                maxRequests, peers, NeededPieces(pieces, blocksPerPiece))
    ensures requests == PlanOf(selfId, pieces, peers, choices)
  {
    var needed := NeededPieces(pieces, blocksPerPiece);
    var counter := TallyRarity(peers, needed);
    requests, choices := [], [];
    var i := 0;
    while i < |peers|
      invariant 0 <= i <= |peers| && |choices| == i && ChoicesInPieces(choices, pieces)
      invariant RarestSoFar(choices, peers, needed, maxRequests)
      invariant requests == PlanOf(selfId, pieces, peers[..i], choices)
    {
      var choice := RarestFirstFor(peers[i], needed, counter, maxRequests, peers);
      RarestStep(choice, choices, pieces, blocksPerPiece, maxRequests, peers);
      var block := EmitRequests(selfId, pieces, peers[i].id, choice);
      PlanOfSnoc(selfId, pieces, peers, choices, i, choice);
      requests := requests + block;
      choices := choices + [choice];
      i := i + 1;
    }
    assert peers[..|peers|] == peers;
  }

  /** The choices made so far, one per peer in order, each rarest first. */
  ghost predicate RarestSoFar(choices: seq<seq<nat>>, peers: seq<PeerView>, needed: set<nat>, maxRequests: nat) {
    && |choices| <= |peers|
    && forall j :: 0 <= j < |choices| ==>
         RarestFirstChoice(choices[j], Candidates(peers[j], needed), maxRequests, peers, needed)
  }

  /** A rarest-first choice for the next peer extends the choices made so far. */
  lemma RarestStep(choice: seq<nat>, choices: seq<seq<nat>>, pieces: seq<nat>, blocksPerPiece: nat,
                   maxRequests: nat, peers: seq<PeerView>)
    requires |choices| < |peers|
    requires RarestSoFar(choices, peers, NeededPieces(pieces, blocksPerPiece), maxRequests)
    requires RarestFirstChoice(choice, Candidates(peers[|choices|], NeededPieces(pieces, blocksPerPiece)),
                               maxRequests, peers, NeededPieces(pieces, blocksPerPiece))
    ensures InPieces(choice, pieces)
    ensures RarestSoFar(choices + [choice], peers, NeededPieces(pieces, blocksPerPiece), maxRequests)
  {
    var needed := NeededPieces(pieces, blocksPerPiece);
    forall k | 0 <= k < |choice| ensures choice[k] < |pieces| {
      assert choice[k] in needed;
    }
    var cs := choices + [choice];
    forall j | 0 <= j < |cs|
      ensures RarestFirstChoice(cs[j], Candidates(peers[j], needed), maxRequests, peers, needed)
    {
      if j < |choices| {
        assert cs[j] == choices[j];
      }
    }
  }

  /** The rarity-order example: A holds {1, 2}, B holds {1}; piece 2 is asked of A before piece 1. */
  lemma RarestFirstExample(choice: seq<nat>)
    requires RarestFirstChoice(choice, {1, 2}, 1, [PeerView("A", {1, 2}), PeerView("B", {1})], {1, 2})
    ensures choice == [2]
  {
    var peers := [PeerView("A", {1, 2}), PeerView("B", {1})];
    assert Holders(peers, {1, 2}, 1) == 2 by {
      assert peers[..1][..0] == [];
    }
    assert Holders(peers, {1, 2}, 2) == 1 by {
      assert peers[..1][..0] == [];
    }
  }
}
