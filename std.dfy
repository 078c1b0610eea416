/**
 * krankilestd.py: rarest-first requests (`Planner.RarestFirstRequests`) and
 * uploads that reciprocate the top uploaders of the last two rounds, plus
 * one optimistically unchoked requester that persists across rounds.
 */
module Std {
  import opened Messages
  import opened Tally
  import Draws

  /** Python truthiness of `self.optimistic_unchoke`: set, and not the empty string. */
  predicate IsSet(o: Option<PeerId>) {
    o.Some? && o.value != ""
  }

  /** `history.downloads[-2:]`: the last two rounds, or all of them if fewer. */
  function LastTwo(history: History): seq<seq<Download>> {
    history.downloads[Max(0, |history.downloads| - 2)..]
  }

  /** `[Upload(self.id, peer_id, bw) for (peer_id, bw) in zip(order, bws)]`. */
  function ZipUploads(selfId: PeerId, order: seq<PeerId>, bws: seq<int>): (r: seq<Upload>)
    ensures |r| == Min(|order|, |bws|)
    ensures forall k :: 0 <= k < |r| ==> r[k] == Upload(selfId, order[k], bws[k] as real)
  {
    seq(Min(|order|, |bws|), k requires 0 <= k < Min(|order|, |bws|) => Upload(selfId, order[k], bws[k] as real))
  }

  /**
   * The reciprocated set `chosen` of line 92 plus the optimistic peer, if
   * one is set.
   */
  function WithOptimistic(top: set<PeerId>, optimistic: Option<PeerId>): set<PeerId> {
    if IsSet(optimistic) then top + {optimistic.value} else top
  }

  /** At most `normal_slots` reciprocated peers and one optimistic peer. */
  lemma ChosenBound(top: set<PeerId>, c: map<PeerId, nat>, k: nat, optimistic: Option<PeerId>)
    requires IsTop(top, c, k)
    ensures |WithOptimistic(top, optimistic)| <= k + 1
    ensures |WithOptimistic(top, optimistic)| <= |c| + 1
    ensures IsSet(optimistic) ==> optimistic.value in WithOptimistic(top, optimistic)
  {
  }

  /**
   * Every reciprocated peer is a requester that sent at least one download
   * record in the last two rounds.
   */
  lemma ReciprocatedAreRecentUploaders(top: set<PeerId>, history: History, requests: seq<Request>, k: nat, p: PeerId)
    requires IsTop(top, UploaderCounts(Flatten(LastTwo(history)), RequesterIds(requests)), k)
    requires p in top
    ensures p in RequesterIds(requests)
    ensures exists d :: d in Flatten(LastTwo(history)) && d.fromId == p
  {
    CountedKeys(Flatten(LastTwo(history)), RequesterIds(requests), p);
  }

  /**
   * Lines 108-116: nothing for an empty set, otherwise one upload per chosen
   * peer (in the set's iteration order) with the shares of
   * `even_split(up_bw, |chosen|)`.
   */
  method SplitEvenly(selfId: PeerId, upBw: nat, chosen: set<PeerId>, evenSplit: (int, nat) -> seq<int>)
    returns (uploads: seq<Upload>)
    requires SplitsIntoN(evenSplit)
    ensures |uploads| == |chosen|
    ensures forall k :: 0 <= k < |uploads| ==>
              uploads[k].fromId == selfId && uploads[k].toId in chosen &&
              uploads[k].bw == evenSplit(upBw, |chosen|)[k] as real
    ensures forall p :: p in chosen ==> exists k :: 0 <= k < |uploads| && uploads[k].toId == p
  {
    if |chosen| < 1 {
      return [];
    }
    var bws := evenSplit(upBw, |chosen|);
    var order := Draws.ListOfSet(chosen);
    uploads := ZipUploads(selfId, order, bws);
    forall p | p in chosen ensures exists k :: 0 <= k < |uploads| && uploads[k].toId == p {
      var k :| 0 <= k < |order| && order[k] == p;
      assert uploads[k].toId == p;
    }
  }

  class KrankileStd {
    const id: PeerId
    const upBw: nat
    const normalSlots: nat
    const optimisticUnchokeInterval: nat
    /** The peer currently unchoked optimistically, kept across rounds. */
    var optimisticUnchoke: Option<PeerId>

    /** `post_init`: three reciprocation slots, a new optimistic peer every third round. */
    constructor (id: PeerId, upBw: nat)
      ensures this.id == id && this.upBw == upBw
      ensures normalSlots == 3 && optimisticUnchokeInterval == 3 && optimisticUnchoke == None
    {
      this.id := id;
      this.upBw := upBw;
      normalSlots := 3;
      optimisticUnchokeInterval := 3;
      optimisticUnchoke := None;
    }

    /**
     * Whether `uploads` may pick a new optimistic peer: some requester is not
     * reciprocated, and either the round count is a multiple of the interval
     * or no optimistic peer is set.
     */
    predicate MayReassign(pool: set<PeerId>, rounds: nat)
      reads this
    {
      pool != {} && ((optimisticUnchokeInterval > 0 && rounds % optimisticUnchokeInterval == 0) || !IsSet(optimisticUnchoke))
    }

    /**
     * `uploads`: tally the requesters' blocks over the last two rounds,
     * reciprocate the top `min(|requesters|, normal_slots)`, maybe pick a new
     * optimistic peer among the others, and split `up_bw` evenly over all
     * chosen peers.
     */
    method Uploads(requests: seq<Request>, history: History, evenSplit: (int, nat) -> seq<int>)
      returns (uploads: seq<Upload>, top: set<PeerId>, chosen: set<PeerId>)
      requires SplitsIntoN(evenSplit) && optimisticUnchokeInterval > 0
      modifies this
      ensures requests == [] ==> uploads == [] && optimisticUnchoke == old(optimisticUnchoke)
      ensures requests != [] ==>
                && IsTop(top, UploaderCounts(Flatten(LastTwo(history)), RequesterIds(requests)),
                         Min(|RequesterIds(requests)|, normalSlots))
                && (old(MayReassign(RequesterIds(requests) - top, |history.downloads|)) ==>
                      optimisticUnchoke.Some? && optimisticUnchoke.value in RequesterIds(requests) - top)
                && (!old(MayReassign(RequesterIds(requests) - top, |history.downloads|)) ==>
                      optimisticUnchoke == old(optimisticUnchoke))
                && chosen == WithOptimistic(top, optimisticUnchoke)
                && |chosen| <= normalSlots + 1
                && |uploads| == |chosen|
                && (forall k :: 0 <= k < |uploads| ==>
                      uploads[k].fromId == id && uploads[k].toId in chosen &&
                      uploads[k].bw == evenSplit(upBw, |chosen|)[k] as real)
                && (forall p :: p in chosen ==> exists k :: 0 <= k < |uploads| && uploads[k].toId == p)
    {
      top, chosen := {}, {};
      if |requests| == 0 {
        return [], top, chosen;
      }
      var requesterIds := RequesterIds(requests);
      var uploaderC := CountUploaders(Flatten(LastTwo(history)), requesterIds);
      var reciprocated := MostCommon(uploaderC, Min(|requesterIds|, normalSlots));
      top := reciprocated;
      var peerIds := requesterIds - reciprocated;
      if MayReassign(peerIds, |history.downloads|) {
        var unchoke :| unchoke in peerIds;
        optimisticUnchoke := Some(unchoke);
      }
      var unchoked := WithOptimistic(reciprocated, optimisticUnchoke);
      chosen := unchoked;
      ChosenBound(reciprocated, uploaderC, Min(|requesterIds|, normalSlots), optimisticUnchoke);
      uploads := SplitEvenly(id, upBw, unchoked, evenSplit);
    }
  }
}
