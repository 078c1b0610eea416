/**
 * krankiletourney.py: requests a random sample of the candidate pieces from
 * every peer, and uploads to the requesters of a random sample of the
 * requests received.
 */
module Tourney {
  import opened Messages
  import opened Planner
  import Draws
  import Choke

  /** `self.slots`, set in `post_init`. */
  const Slots: nat := 2

  /** What the random planner promises for one peer: `min(max_requests, |candidates|)` distinct candidates. */
  ghost predicate SampledChoice(choice: seq<nat>, candidates: set<nat>, maxRequests: nat) {
    && |choice| == Min(maxRequests, |candidates|)
    && Distinct(choice)
    && forall k :: 0 <= k < |choice| ==> choice[k] in candidates
  }

  /** `requests`: for every peer in order, a random sample of its candidates. */
  method Requests(selfId: PeerId, pieces: seq<nat>, blocksPerPiece: nat, maxRequests: nat,
                  peers: seq<PeerView>)
    returns (requests: seq<Request>, choices: seq<seq<nat>>)
    ensures |choices| == |peers| && ChoicesInPieces(choices, pieces)
    ensures forall i :: 0 <= i < |peers| ==>
              SampledChoice(choices[i], Candidates(peers[i], NeededPieces(pieces, blocksPerPiece)), maxRequests)
    ensures requests == PlanOf(selfId, pieces, peers, choices)
  {
    var needed := NeededPieces(pieces, blocksPerPiece);
    requests, choices := [], [];
    var i := 0;
    while i < |peers|
      invariant 0 <= i <= |peers| && |choices| == i && ChoicesInPieces(choices, pieces)
      invariant SampledSoFar(choices, peers, needed, maxRequests)
      invariant requests == PlanOf(selfId, pieces, peers[..i], choices)
    {
      var neededAndAvailable := Candidates(peers[i], needed);
      var n := Min(maxRequests, |neededAndAvailable|);
      var choice := Draws.Sample(neededAndAvailable, n);
      SampleStep(choice, choices, pieces, blocksPerPiece, maxRequests, peers);
      var block := EmitRequests(selfId, pieces, peers[i].id, choice);
      PlanOfSnoc(selfId, pieces, peers, choices, i, choice);
      requests := requests + block;
      choices := choices + [choice];
      i := i + 1;
    }
    assert peers[..|peers|] == peers;
  }

  /** The choices made so far, one per peer in order, each a sample of its candidates. */
  ghost predicate SampledSoFar(choices: seq<seq<nat>>, peers: seq<PeerView>, needed: set<nat>, maxRequests: nat) {
    && |choices| <= |peers|
    && forall j :: 0 <= j < |choices| ==> SampledChoice(choices[j], Candidates(peers[j], needed), maxRequests)
  }

  /** A sample for the next peer extends the choices made so far. */
  lemma SampleStep(choice: seq<nat>, choices: seq<seq<nat>>, pieces: seq<nat>, blocksPerPiece: nat,
                   maxRequests: nat, peers: seq<PeerView>)
    requires |choices| < |peers|
    requires SampledSoFar(choices, peers, NeededPieces(pieces, blocksPerPiece), maxRequests)
    requires SampledChoice(choice, Candidates(peers[|choices|], NeededPieces(pieces, blocksPerPiece)), maxRequests)
    ensures InPieces(choice, pieces)
    ensures SampledSoFar(choices + [choice], peers, NeededPieces(pieces, blocksPerPiece), maxRequests)
  {
    var needed := NeededPieces(pieces, blocksPerPiece);
    forall k | 0 <= k < |choice| ensures choice[k] < |pieces| {
      assert choice[k] in needed;
    }
    var cs := choices + [choice];
    forall j | 0 <= j < |cs| ensures SampledChoice(cs[j], Candidates(peers[j], needed), maxRequests) {
      if j < |choices| {
        assert cs[j] == choices[j];
      }
    }
  }

  /** `uploads`: `min(slots, |requests|)` sampled requests, bandwidth split evenly. */
  function Uploads(selfId: PeerId, upBw: nat, requests: seq<Request>, sample: seq<nat>,
                   evenSplit: (int, nat) -> seq<int>): (r: seq<Upload>)
    requires SplitsIntoN(evenSplit)
    requires requests != [] ==> Choke.IsSample(sample, |requests|, Min(Slots, |requests|))
    ensures requests == [] ==> r == []
    ensures requests != [] ==> |r| == Min(Slots, |requests|)
    ensures forall k :: 0 <= k < |r| ==>
              r[k].fromId == selfId && r[k].toId == requests[sample[k]].requesterId &&
              r[k].bw == evenSplit(upBw, |r|)[k] as real
  {
    Choke.SampledUploads(selfId, upBw, requests, Slots, sample, evenSplit)
  }
}
