/**
 * The random-choke allocator shared by krankiletourney.py (2 slots) and
 * discarded_ideas/krankiletourney4.py (3 slots): sample a few of the
 * requests received and split the upload bandwidth evenly among their
 * requesters.
 */
module Choke {
  import opened Messages

  /** `random.sample(range(len), k)`: `k` distinct positions below `len`. */
  predicate IsSample(sample: seq<nat>, len: nat, k: nat) {
    |sample| == k && Distinct(sample) && forall j :: 0 <= j < |sample| ==> sample[j] < len
  }

  /**
   * No requests: no uploads. Otherwise one upload per sampled request, to its
   * requester (the same requester can be sampled twice through two of its
   * requests), with the shares of `even_split(up_bw, n)` in order.
   */
  function SampledUploads(selfId: PeerId, upBw: nat, requests: seq<Request>, slots: nat,
                          sample: seq<nat>, evenSplit: (int, nat) -> seq<int>): (r: seq<Upload>)
    requires SplitsIntoN(evenSplit)
    requires requests != [] ==> IsSample(sample, |requests|, Min(slots, |requests|))
    ensures requests == [] ==> r == []
    ensures requests != [] ==> |r| == Min(slots, |requests|)
    ensures forall k :: 0 <= k < |r| ==>
              r[k].fromId == selfId && r[k].toId in RequesterIds(requests) &&
              r[k].toId == requests[sample[k]].requesterId &&
              r[k].bw == evenSplit(upBw, |r|)[k] as real
  {
    if requests == [] then []
    else
      var n := Min(slots, |requests|);
      var chosen := seq(n, k requires 0 <= k < n => requests[sample[k]].requesterId);
      var bws := evenSplit(upBw, |chosen|);
      seq(|chosen|, k requires 0 <= k < |chosen| => Upload(selfId, chosen[k], bws[k] as real))
  }

  /** Sampling distinct requests does not make their requesters distinct. */
  lemma SameRequesterTwice(evenSplit: (int, nat) -> seq<int>)
    requires SplitsIntoN(evenSplit)
    ensures var requests := [Request("B", "A", 0, 0), Request("B", "A", 1, 0)];
            var r := SampledUploads("A", 10, requests, 2, [0, 1], evenSplit);
            |r| == 2 && r[0].toId == r[1].toId == "B"
  {
  }
}
