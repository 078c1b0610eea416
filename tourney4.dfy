/**
 * discarded_ideas/krankiletourney4.py: requests the single rarest candidate
 * from every peer, then fills up with a shuffled selection of the others;
 * uploads to the requesters of up to three sampled requests.
 */
module Tourney4 {
  import opened Messages
  import opened Planner
  import Draws
  import Choke

  /** The number of upload slots, written as a literal in `uploads`. */
  const Slots: nat := 3

  /** Python's `s[:stop]`, where a negative `stop` counts from the end. */
  function SliceTo<T>(s: seq<T>, stop: int): (r: seq<T>)
    ensures |r| == (if stop >= 0 then Min(stop, |s|) else Max(0, |s| + stop))
    ensures r == s[..|r|]
  {
    if stop >= 0 then s[..Min(stop, |s|)] else s[..Max(0, |s| + stop)]
  }

  /**
   * How many pieces `rarest + lisect[:n-1]` names for `m` candidates. With
   * `max_requests >= 1` this is `min(max_requests, m)`; with `max_requests == 0`
   * and candidates present, `n - 1 == -1` drops only the last shuffled piece.
   */
  function RequestCount(maxRequests: nat, m: nat): nat {
    if m == 0 then 0
    else if maxRequests == 0 then 1 + Max(0, m - 2)
    else Min(maxRequests, m)
  }

  /** With at least one request allowed, the count is the usual `min(max_requests, m)`. */
  lemma RequestCountUsual(maxRequests: nat, m: nat)
    requires maxRequests >= 1
    ensures RequestCount(maxRequests, m) == Min(maxRequests, m)
  {
  }

  /** With no requests allowed, a peer with candidates is still asked for at least one piece. */
  lemma ZeroMaxRequestsStillRequests(m: nat)
    requires m >= 1
    ensures RequestCount(0, m) >= 1 && RequestCount(0, m) == Max(1, m - 1)
  {
  }

  /**
   * What the planner promises for one peer: distinct candidates, as many as
   * `RequestCount` says, the first of which is a rarest candidate.
   */
  ghost predicate RarestThenShuffledChoice(choice: seq<nat>, candidates: set<nat>, maxRequests: nat,
                                           peers: seq<PeerView>, needed: set<nat>)
  {
    && |choice| == RequestCount(maxRequests, |candidates|)
    && Distinct(choice)
    && (forall k :: 0 <= k < |choice| ==> choice[k] in candidates)
    && (|choice| > 0 ==> forall q :: q in candidates ==> Holders(peers, needed, choice[0]) <= Holders(peers, needed, q))
  }

  /** Putting a fresh element in front of a duplicate-free list keeps it duplicate-free. */
  lemma DistinctPrepend(x: nat, fill: seq<nat>)
    requires Distinct(fill) && x !in fill
    ensures Distinct([x] + fill)
  {
    var c := [x] + fill;
    forall a, b | 0 <= a < b < |c| ensures c[a] != c[b] {
      assert c[b] == fill[b - 1];
      if a > 0 {
        assert c[a] == fill[a - 1];
      }
    }
  }

  /** The head of a duplicate-free list does not occur in its tail. */
  lemma HeadNotInTail(s: seq<nat>)
    requires s != [] && Distinct(s)
    ensures s[0] !in s[1..]
  {
    forall j | 0 <= j < |s[1..]| ensures s[1..][j] != s[0] {
      assert s[1..][j] == s[j + 1];
    }
  }

  /** The head of a rarity-sorted list is a rarest element of it. */
  lemma HeadIsRarest(s: seq<nat>, counter: map<nat, nat>)
    requires s != [] && SortedByCount(s, counter)
    ensures forall q :: q in s ==> Count(counter, s[0]) <= Count(counter, q)
  {
    forall q | q in s ensures Count(counter, s[0]) <= Count(counter, q) {
      var j :| 0 <= j < |s| && s[j] == q;
    }
  }

  /** The per-peer promise stated over the tally. */
  ghost predicate ChoiceByTally(choice: seq<nat>, candidates: set<nat>, maxRequests: nat, counter: map<nat, nat>) {
    && |choice| == RequestCount(maxRequests, |candidates|) && Distinct(choice)
    && (forall k :: 0 <= k < |choice| ==> choice[k] in candidates)
    && (|choice| > 0 ==> forall q :: q in candidates ==> Count(counter, choice[0]) <= Count(counter, q))
  }

  /** A tally that agrees with the rarity definition turns the one promise into the other. */
  lemma TallyChoiceIsRarest(choice: seq<nat>, candidates: set<nat>, maxRequests: nat, counter: map<nat, nat>,
                            peers: seq<PeerView>, needed: set<nat>)
    requires forall p :: Count(counter, p) == Holders(peers, needed, p)
    requires ChoiceByTally(choice, candidates, maxRequests, counter)
    ensures RarestThenShuffledChoice(choice, candidates, maxRequests, peers, needed)
  {
  }

  /** Popping the head of a duplicate-free list leaves a duplicate-free tail without it. */
  lemma PopHead(s: seq<nat>)
    requires s != [] && Distinct(s)
    ensures Distinct(s[1..]) && s[0] !in s[1..]
  {
    HeadNotInTail(s);
    forall a, b | 0 <= a < b < |s[1..]| ensures s[1..][a] != s[1..][b] {
      assert s[1..][a] == s[a + 1] && s[1..][b] == s[b + 1];
    }
  }

  /**
   * `[rarest] + lisect[:n-1]` after the shuffle: the assembled choice keeps
   * the promise for the candidates it was drawn from.
   */
  lemma AssembleChoice(rarest: nat, popped: seq<nat>, shuffled: seq<nat>, isect: set<nat>,
                       maxRequests: nat, counter: map<nat, nat>)
    requires rarest in isect && |popped| + 1 == |isect|
    requires Distinct(popped) && rarest !in popped && forall x :: x in popped ==> x in isect
    requires multiset(shuffled) == multiset(popped) && Distinct(shuffled)
    requires forall q :: q in isect ==> Count(counter, rarest) <= Count(counter, q)
    ensures ChoiceByTally([rarest] + SliceTo(shuffled, Min(maxRequests, |isect|) - 1), isect, maxRequests, counter)
  {
    assert |shuffled| == |popped| by {
      calc == {
        |shuffled|;
        |multiset(shuffled)|;
        |multiset(popped)|;
        |popped|;
      }
    }
    var fill := SliceTo(shuffled, Min(maxRequests, |isect|) - 1);
    forall x | x in fill ensures x in popped && x in isect {
      var j :| 0 <= j < |fill| && fill[j] == x;
      assert shuffled[j] == x;
      assert multiset(shuffled)[x] > 0;
    }
    assert Distinct(fill) by {
      forall a, b | 0 <= a < b < |fill| ensures fill[a] != fill[b] {
        assert fill[a] == shuffled[a] && fill[b] == shuffled[b];
      }
    }
    DistinctPrepend(rarest, fill);
    var choice := [rarest] + fill;
    forall k | 0 <= k < |choice| ensures choice[k] in isect {
      if k > 0 {
        assert choice[k] == fill[k - 1] && fill[k - 1] in fill;
      }
    }
  }

  /** One peer: sort by rarity, pop the rarest, shuffle the rest, take `lisect[:n-1]`. */
  method RarestThenShuffledFor(peer: PeerView, needed: set<nat>, counter: map<nat, nat>, maxRequests: nat)
    returns (choice: seq<nat>)
    ensures ChoiceByTally(choice, Candidates(peer, needed), maxRequests, counter)
  {
    var isect := Candidates(peer, needed);
    var n := Min(maxRequests, |isect|);
    var lisect := Draws.ListOfSet(isect);
    lisect := SortByCount(lisect, counter);
    if lisect == [] {
      choice := [];
      return;
    }
    HeadIsRarest(lisect, counter);
    PopHead(lisect);
    var rarest := lisect[0];
    var popped := lisect[1..];  // lisect.pop(0)
    lisect := Draws.Shuffle(popped);
    AssembleChoice(rarest, popped, lisect, isect, maxRequests, counter);
    choice := [rarest] + SliceTo(lisect, n - 1);
  }

  /** `requests`: for every peer in order, its rarest candidate and then a shuffled fill. */
  method Requests(selfId: PeerId, pieces: seq<nat>, blocksPerPiece: nat, maxRequests: nat,
                  peers: seq<PeerView>)
    returns (requests: seq<Request>, choices: seq<seq<nat>>)
    ensures |choices| == |peers| && ChoicesInPieces(choices, pieces)
    ensures forall i :: 0 <= i < |peers| ==>
              RarestThenShuffledChoice(choices[i], Candidates(peers[i], NeededPieces(pieces, blocksPerPiece)),
                                       maxRequests, peers, NeededPieces(pieces, blocksPerPiece))
    ensures requests == PlanOf(selfId, pieces, peers, choices)
  {
    var needed := NeededPieces(pieces, blocksPerPiece);
    var counter := TallyRarity(peers, needed);
    requests, choices := [], [];
    var i := 0;
    while i < |peers|
      invariant 0 <= i <= |peers| && |choices| == i && ChoicesInPieces(choices, pieces)
      invariant ChosenSoFar(choices, peers, needed, maxRequests)
      invariant requests == PlanOf(selfId, pieces, peers[..i], choices)
    {
      var choice := RarestThenShuffledFor(peers[i], needed, counter, maxRequests);
      ChoiceStep(choice, choices, pieces, blocksPerPiece, maxRequests, counter, peers);
      var block := EmitRequests(selfId, pieces, peers[i].id, choice);
      PlanOfSnoc(selfId, pieces, peers, choices, i, choice);
      requests := requests + block;
      choices := choices + [choice];
      i := i + 1;
    }
    assert peers[..|peers|] == peers;
  }

  /** The choices made so far, one per peer in order, each keeping the per-peer promise. */
  ghost predicate ChosenSoFar(choices: seq<seq<nat>>, peers: seq<PeerView>, needed: set<nat>, maxRequests: nat) {
    && |choices| <= |peers|
    && forall j :: 0 <= j < |choices| ==>
         RarestThenShuffledChoice(choices[j], Candidates(peers[j], needed), maxRequests, peers, needed)
  }

  /** A choice made from the tally for the next peer extends the choices made so far. */
  lemma ChoiceStep(choice: seq<nat>, choices: seq<seq<nat>>, pieces: seq<nat>, blocksPerPiece: nat,
                   maxRequests: nat, counter: map<nat, nat>, peers: seq<PeerView>)
    requires |choices| < |peers|
    requires ChosenSoFar(choices, peers, NeededPieces(pieces, blocksPerPiece), maxRequests)
    requires forall p :: Count(counter, p) == Holders(peers, NeededPieces(pieces, blocksPerPiece), p)
    requires ChoiceByTally(choice, Candidates(peers[|choices|], NeededPieces(pieces, blocksPerPiece)), maxRequests, counter)
    ensures InPieces(choice, pieces)
    ensures ChosenSoFar(choices + [choice], peers, NeededPieces(pieces, blocksPerPiece), maxRequests)
  {
    var needed := NeededPieces(pieces, blocksPerPiece);
    TallyChoiceIsRarest(choice, Candidates(peers[|choices|], needed), maxRequests, counter, peers, needed);
    forall k | 0 <= k < |choice| ensures choice[k] < |pieces| {
      assert choice[k] in needed;
    }
    var cs := choices + [choice];
    forall j | 0 <= j < |cs|
      ensures RarestThenShuffledChoice(cs[j], Candidates(peers[j], needed), maxRequests, peers, needed)
    {
      if j < |choices| {
        assert cs[j] == choices[j];
      }
    }
  }

  /** `uploads`: `min(|requests|, 3)` sampled requests, bandwidth split evenly. */
  function Uploads(selfId: PeerId, upBw: nat, requests: seq<Request>, sample: seq<nat>,
                   evenSplit: (int, nat) -> seq<int>): (r: seq<Upload>)
    requires SplitsIntoN(evenSplit)
    requires requests != [] ==> Choke.IsSample(sample, |requests|, Min(Slots, |requests|))
    ensures requests == [] ==> r == []
    ensures requests != [] ==> |r| == Min(|requests|, Slots)
    ensures forall k :: 0 <= k < |r| ==>
              r[k].fromId == selfId && r[k].toId == requests[sample[k]].requesterId &&
              r[k].bw == evenSplit(upBw, |r|)[k] as real
  {
    Choke.SampledUploads(selfId, upBw, requests, Slots, sample, evenSplit)
  }
}
