/**
 * The uploader `Counter` that krankilestd.py and krankilepropshare.py build
 * from recent download records, and `Counter.most_common`.
 */
module Tally {
  import opened Messages

  /** Blocks received from `p` over a list of download records. */
  function BlocksFrom(ds: seq<Download>, p: PeerId): nat {
    if ds == [] then 0
    else BlocksFrom(ds[..|ds| - 1], p) + (if ds[|ds| - 1].fromId == p then ds[|ds| - 1].blocks else 0)
  }

  /**
   * The counter after `uploader_c.update({d.from_id: d.blocks})` for every
   * record whose sender is among `ids`: a sender is a key even when all its
   * records carry zero blocks.
   */
  function UploaderCounts(ds: seq<Download>, ids: set<PeerId>): map<PeerId, nat> {
    map p | p in Senders(ds) && p in ids :: BlocksFrom(ds, p)
  }

  /** `chain(*rounds)`: the records of several rounds, oldest first. */
  function Flatten(rounds: seq<seq<Download>>): seq<Download> {
    if rounds == [] then [] else Flatten(rounds[..|rounds| - 1]) + rounds[|rounds| - 1]
  }

  /** Appending one record adds its sender and its blocks and nothing else. */
  lemma CountsSnoc(ds: seq<Download>, d: Download, ids: set<PeerId>)
    ensures var before := UploaderCounts(ds, ids);
            UploaderCounts(ds + [d], ids) ==
              if d.fromId in ids
              then before[d.fromId := (if d.fromId in before then before[d.fromId] else 0) + d.blocks]
              else before
  {
    var ds' := ds + [d];
    assert ds'[..|ds'| - 1] == ds;
    assert Senders(ds') == Senders(ds) + {d.fromId} by {
      forall p ensures p in Senders(ds') <==> p in Senders(ds) + {d.fromId} {
        if p in Senders(ds') {
          var e :| e in ds' && e.fromId == p;
        }
        if p in Senders(ds) {
          var e :| e in ds && e.fromId == p;
          assert e in ds';
        }
        assert d in ds';
      }
    }
    forall p | p !in Senders(ds)
      ensures BlocksFrom(ds, p) == 0
    {
      SilentSender(ds, p);
    }
  }

  /** A peer with no record has sent nothing. */
  lemma {:induction false} SilentSender(ds: seq<Download>, p: PeerId)
    requires p !in Senders(ds)
    ensures BlocksFrom(ds, p) == 0
  {
    if ds != [] {
      var init := ds[..|ds| - 1];
      assert p !in Senders(init) by {
        forall e | e in init ensures e.fromId != p {
          assert e in ds;
        }
      }
      SilentSender(init, p);
      assert ds[|ds| - 1] in ds;
    }
  }

  /** The loop over the records that fills the counter. */
  method CountUploaders(ds: seq<Download>, ids: set<PeerId>) returns (c: map<PeerId, nat>)
    ensures c == UploaderCounts(ds, ids)
  {
    c := map[];
    assert UploaderCounts([], ids) == map[];
    for i := 0 to |ds|
      invariant c == UploaderCounts(ds[..i], ids)
    {
      var d := ds[i];
      CountsSnoc(ds[..i], d, ids);
      assert ds[..i + 1] == ds[..i] + [d];
      if d.fromId in ids {
        c := c[d.fromId := (if d.fromId in c then c[d.fromId] else 0) + d.blocks];
      }
    }
    assert ds[..|ds|] == ds;
  }

  /** The counter's keys are exactly the requesters that appear in the records. */
  lemma CountedKeys(ds: seq<Download>, ids: set<PeerId>, p: PeerId)
    ensures p in UploaderCounts(ds, ids) <==> p in ids && exists d :: d in ds && d.fromId == p
  {
  }

  /**
   * `most_common(k)` as a set of keys: as many keys as it can, none of them
   * with a smaller count than a key left out.
   */
  ghost predicate IsTop(top: set<PeerId>, c: map<PeerId, nat>, k: nat) {
    && top <= c.Keys
    && |top| == Min(k, |c|)
    && forall a, b :: a in top && b in c && b !in top ==> c[b] <= c[a]
  }

  /** Every finite non-empty set of keys has one with the largest count. */
  lemma {:induction false} LargestExists(s: set<PeerId>, c: map<PeerId, nat>)
    requires s != {} && s <= c.Keys
    ensures exists x :: x in s && forall y :: y in s ==> c[y] <= c[x]
  {
    var x :| x in s;
    if s != {x} {
      var rest := s - {x};
      LargestExists(rest, c);
      var m :| m in rest && forall y :: y in rest ==> c[y] <= c[m];
      if c[x] <= c[m] {
        assert forall y :: y in s ==> c[y] <= c[m];
      } else {
        assert forall y :: y in s ==> c[y] <= c[x];
      }
    }
  }

  /**
   * `most_common(k)`: repeatedly takes a remaining key with the largest count;
   * ties are broken arbitrarily.
   */
  method MostCommon(c: map<PeerId, nat>, k: nat) returns (top: set<PeerId>)
    ensures IsTop(top, c, k)
  {
    top := {};
    var rest := c.Keys;
    while |top| < k && rest != {}
      invariant top !! rest && top + rest == c.Keys
      invariant |top| <= k
      invariant forall a, b :: a in top && b in rest ==> c[b] <= c[a]
      decreases |rest|
    {
      LargestExists(rest, c);
      var x :| x in rest && forall y :: y in rest ==> c[y] <= c[x];
      top := top + {x};
      rest := rest - {x};
    }
    assert |c.Keys| == |top| + |rest|;
  }

  /** A key that outsends every other key is always among the top `k >= 1`. */
  lemma LeaderIsTop(top: set<PeerId>, c: map<PeerId, nat>, k: nat, leader: PeerId)
    requires IsTop(top, c, k) && k >= 1
    requires leader in c && forall p :: p in c && p != leader ==> c[p] < c[leader]
    ensures leader in top
  {
    assert |top| >= 1;
    var a :| a in top;
    if a != leader {
      assert c[a] < c[leader];
    }
  }
}
