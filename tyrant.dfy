/**
 * krankiletyrant.py: the adaptive "tyrant" allocator. It keeps, per peer, an
 * estimate of the upload needed for reciprocation (`upload_bws`, the price)
 * and of the download rate it would bring (`downloads`). Each round it
 * updates them from the history, then serves requesters in descending
 * rate/price order while the budget lasts. Its `requests` is the standard
 * strategy's, `Planner.RarestFirstRequests`.
 */
module Tyrant {
  import opened Messages
  import Draws

  // ---------------------------------------------------------------------
  // Seeding: the defaultdict factories
  // ---------------------------------------------------------------------

  /** `max(randint(min_up_bw, max_up_bw) / 3, 1)`, with integer division. */
  function SeedPrice(draw: int): real {
    Max(draw / 3, 1) as real
  }

  /** `randint(min_up_bw, max_up_bw) / 4`, with integer division. */
  function SeedRate(draw: int): int {
    draw / 4
  }

  /** A fresh price is at least 1 and a fresh rate is not negative. */
  lemma SeedBounds(draw: int)
    requires draw >= 0
    ensures SeedPrice(draw) >= 1.0
    ensures 0 <= SeedRate(draw) && SeedRate(draw) as real <= draw as real / 4.0
  {
  }

  /** `upload_bws[p]`: the stored price, or the one a missing key would be seeded with. */
  function PriceOf(prices: map<PeerId, real>, p: PeerId, priceDraw: PeerId -> int): real {
    if p in prices then prices[p] else SeedPrice(priceDraw(p))
  }

  /** `upload_bws[p]` for every `p` of `ids`: missing keys are seeded with a fresh price. */
  function SeededPrices(prices: map<PeerId, real>, ids: set<PeerId>, priceDraw: PeerId -> int)
    : (r: map<PeerId, real>)
    ensures r.Keys == prices.Keys + ids
    ensures forall p :: p in prices ==> r[p] == prices[p]
    ensures forall p :: p in ids && p !in prices ==> r[p] == SeedPrice(priceDraw(p))
  {
    map p | p in prices.Keys + ids :: PriceOf(prices, p, priceDraw)
  }

  /** `downloads[p]` for every `p` of `ids`: missing keys are seeded with a fresh rate. */
  function SeededRates(rates: map<PeerId, int>, ids: set<PeerId>, rateDraw: PeerId -> int)
    : (r: map<PeerId, int>)
    ensures r.Keys == rates.Keys + ids
    ensures forall p :: p in rates ==> r[p] == rates[p]
    ensures forall p :: p in ids && p !in rates ==> r[p] == SeedRate(rateDraw(p))
  {
    map p | p in rates.Keys + ids :: if p in rates then rates[p] else SeedRate(rateDraw(p))
  }

  // ---------------------------------------------------------------------
  // The three estimate updates
  // ---------------------------------------------------------------------

  /** The two price updates: step 1 raises by `alpha`, step 3 decays by `gamma`. */
  datatype Step = Raise(alpha: real) | Decay(gamma: real)

  /** `max(x * (1 + alpha), 1)` or `min(x * (1 - gamma), 1)`. */
  function Apply(step: Step, x: real): real {
    match step
    case Raise(alpha) => RealMax(x * (1.0 + alpha), 1.0)
    case Decay(gamma) => RealMin(x * (1.0 - gamma), 1.0)
  }

  /** `for p in targets: upload_bws[p] = step(upload_bws[p])`; no other price changes. */
  function Updated(prices: map<PeerId, real>, targets: set<PeerId>, step: Step,
                   priceDraw: PeerId -> int): (r: map<PeerId, real>)
    ensures r.Keys == prices.Keys + targets
    ensures forall p :: p in targets ==> r[p] == Apply(step, PriceOf(prices, p, priceDraw))
    ensures forall p :: p in prices && p !in targets ==> r[p] == prices[p]
  {
    map p | p in prices.Keys + targets :: if p in targets then Apply(step, PriceOf(prices, p, priceDraw)) else prices[p]
  }

  /** Updating one more peer, not yet updated, is a single map update. */
  lemma UpdatedStep(prices: map<PeerId, real>, done: set<PeerId>, step: Step, priceDraw: PeerId -> int, p: PeerId)
    requires p !in done
    ensures Updated(prices, done + {p}, step, priceDraw) ==
            Updated(prices, done, step, priceDraw)[p := Apply(step, PriceOf(Updated(prices, done, step, priceDraw), p, priceDraw))]
  {
  }

  /** The elements of a list, as a set. */
  function ToSet(l: seq<PeerId>): set<PeerId> {
    set x | x in l
  }

  /** Visiting element `i` of a duplicate-free list adds a new element to the visited set. */
  lemma ToSetSnoc(l: seq<PeerId>, i: nat)
    requires i < |l| && Distinct(l)
    ensures ToSet(l[..i + 1]) == ToSet(l[..i]) + {l[i]}
    ensures l[i] !in ToSet(l[..i])
  {
    assert l[..i + 1] == l[..i] + [l[i]];
    forall k | 0 <= k < i ensures l[..i][k] != l[i] {
      assert l[..i][k] == l[k];
    }
  }

  /** Once the whole listing is visited, the visited set is the listed set. */
  lemma ToSetAll(l: seq<PeerId>, s: set<PeerId>)
    requires forall x :: x in l <==> x in s
    ensures ToSet(l[..|l|]) == s
  {
    assert l[..|l|] == l;
  }

  /** The loop of steps 1 and 3 over a copy of the prices. */
  method UpdateEach(prices: map<PeerId, real>, targets: set<PeerId>, step: Step, priceDraw: PeerId -> int)
    returns (m: map<PeerId, real>)
    ensures m == Updated(prices, targets, step, priceDraw)
  {
    m := prices;
    var order := Draws.ListOfSet(targets);
    for i := 0 to |order|
      invariant m == Updated(prices, ToSet(order[..i]), step, priceDraw)
    {
      var p := order[i];
      ToSetSnoc(order, i);
      UpdatedStep(prices, ToSet(order[..i]), step, priceDraw, p);
      m := m[p := Apply(step, PriceOf(m, p, priceDraw))];
    }
    ToSetAll(order, targets);
  }

  /** Step 1's targets: the neighbours that sent us nothing last round. */
  function Choked(peers: seq<PeerView>, last: seq<Download>): set<PeerId> {
    PeerIds(peers) - Senders(last)
  }

  /**
   * The blocks of the last record from `p`: the dict comprehension at line 61
   * keeps the last value written for each key.
   */
  function Observed(round: seq<Download>, p: PeerId): (b: nat)
    requires p in Senders(round)
    ensures exists i :: 0 <= i < |round| && round[i].fromId == p && round[i].blocks == b &&
                        forall j :: i < j < |round| ==> round[j].fromId != p
  {
    var n := |round| - 1;
    if round[n].fromId == p then round[n].blocks
    else
      assert p in Senders(round[..n]) by {
        var d :| d in round && d.fromId == p;
        var i :| 0 <= i < |round| && round[i] == d;
        assert round[..n][i] == d;
      }
      var b := Observed(round[..n], p);
      assert exists i :: 0 <= i < n && round[i].fromId == p && round[i].blocks == b &&
                         forall j :: i < j < |round| ==> round[j].fromId != p by {
        var i :| 0 <= i < n && round[..n][i].fromId == p && round[..n][i].blocks == b &&
                 forall j :: i < j < n ==> round[..n][j].fromId != p;
        assert round[i] == round[..n][i];
        forall j | i < j < |round| ensures round[j].fromId != p {
          if j < n {
            assert round[j] == round[..n][j];
          }
        }
      }
      b
  }

  /** `{d.from_id: d.blocks for d in history.downloads[-1]}`. */
  function LastObserved(round: seq<Download>): map<PeerId, nat> {
    map p | p in Senders(round) :: Observed(round, p)
  }

  /** `m` with the keys `keys` (all in `src`) set to their values in `src`. */
  function Overwritten(m: map<PeerId, int>, src: map<PeerId, nat>, keys: set<PeerId>): (r: map<PeerId, int>)
    requires keys <= src.Keys
    ensures r.Keys == m.Keys + keys
  {
    map p | p in m.Keys + keys :: if p in keys then src[p] as int else m[p]
  }

  /** Overwriting one more key is a single map update. */
  lemma OverwriteStep(m: map<PeerId, int>, src: map<PeerId, nat>, keys: set<PeerId>, p: PeerId)
    requires keys <= src.Keys && p in src
    ensures Overwritten(m, src, keys + {p}) == Overwritten(m, src, keys)[p := src[p]]
  {
  }

  /** The loop of step 2 over a copy of the rates: every entry of `src` is written. */
  method OverwriteEach(rates: map<PeerId, int>, src: map<PeerId, nat>) returns (m: map<PeerId, int>)
    ensures m == Overwritten(rates, src, src.Keys)
  {
    m := rates;
    var order := Draws.ListOfSet(src.Keys);
    for i := 0 to |order|
      invariant m == Overwritten(rates, src, ToSet(order[..i]))
    {
      var p := order[i];
      ToSetSnoc(order, i);
      OverwriteStep(rates, src, ToSet(order[..i]), p);
      m := m[p := src[p]];
    }
    ToSetAll(order, src.Keys);
  }

  /** Writing each entry of the dict of line 61 into the rates is step 2. */
  lemma ObservedOverwrites(rates: map<PeerId, int>, round: seq<Download>)
    ensures LastObserved(round).Keys == Senders(round)
    ensures Overwritten(rates, LastObserved(round), Senders(round)) == AfterObserve(rates, round)
  {
    var a := Overwritten(rates, LastObserved(round), Senders(round));
    var b := AfterObserve(rates, round);
    assert a.Keys == b.Keys;
    forall p | p in a.Keys ensures a[p] == b[p] {
    }
  }

  /** Step 2: the observed rates replace the estimates of last round's senders; no other rate changes. */
  function AfterObserve(rates: map<PeerId, int>, round: seq<Download>): (r: map<PeerId, int>)
    ensures r.Keys == rates.Keys + Senders(round)
    ensures forall p :: p in Senders(round) ==> r[p] == Observed(round, p)
    ensures forall p :: p in rates && p !in Senders(round) ==> r[p] == rates[p]
  {
    map p | p in rates.Keys + Senders(round) :: if p in Senders(round) then Observed(round, p) else rates[p]
  }

  /** `history.downloads[-r:-1]`: up to `r - 1` rounds before the last one (`-0` is `0`). */
  function Window(downloads: seq<seq<Download>>, r: nat): seq<seq<Download>>
    requires downloads != []
  {
    downloads[(if r == 0 then 0 else Max(0, |downloads| - r))..|downloads| - 1]
  }

  /** Step 3's targets: last round's senders that also sent in every round of the window. */
  function Reciprocators(last: seq<Download>, window: seq<seq<Download>>): set<PeerId> {
    set p | p in Senders(last) && forall i :: 0 <= i < |window| ==> p in Senders(window[i])
  }

  /**
   * The two price updates never touch the same peer: step 1 raises only
   * peers that sent nothing last round, step 3 decays only peers that did.
   */
  lemma StepsDisjoint(peers: seq<PeerView>, last: seq<Download>, window: seq<seq<Download>>)
    ensures Choked(peers, last) !! Reciprocators(last, window)
  {
  }

  /** A peer is decayed exactly when it sent something in each of the last `min(r, rounds)` rounds. */
  lemma ReciprocatorsAreSteady(downloads: seq<seq<Download>>, r: nat, p: PeerId)
    requires downloads != [] && r >= 1
    ensures p in Reciprocators(downloads[|downloads| - 1], Window(downloads, r)) <==>
            forall i :: Max(0, |downloads| - r) <= i < |downloads| ==> p in Senders(downloads[i])
  {
    var L := |downloads|;
    var w := Window(downloads, r);
    if forall i :: Max(0, L - r) <= i < L ==> p in Senders(downloads[i]) {
      forall i | 0 <= i < |w| ensures p in Senders(w[i]) {
        assert w[i] == downloads[Max(0, L - r) + i];
      }
    }
    if p in Reciprocators(downloads[L - 1], w) {
      forall i | Max(0, L - r) <= i < L ensures p in Senders(downloads[i]) {
        if i < L - 1 {
          assert downloads[i] == w[i - Max(0, L - r)];
        }
      }
    }
  }

  /** A raised price is at least 1; from 5/6 upwards the raise is the full factor `1 + alpha`. */
  lemma RaiseBounds(x: real)
    ensures Apply(Raise(1.0 / 5.0), x) >= 1.0
    ensures x >= 5.0 / 6.0 ==> Apply(Raise(1.0 / 5.0), x) == x * 6.0 / 5.0
    ensures x < 5.0 / 6.0 ==> Apply(Raise(1.0 / 5.0), x) == 1.0
  {
  }

  /**
   * A decayed price never grows, stays positive and is at most 1: the
   * `min(..., 1)` at line 74 caps it, so every price of at least 10/9 drops
   * straight to 1.
   */
  lemma DecayBounds(x: real)
    requires x > 0.0
    ensures 0.0 < Apply(Decay(1.0 / 10.0), x) <= 1.0
    ensures Apply(Decay(1.0 / 10.0), x) <= x
    ensures x >= 10.0 / 9.0 ==> Apply(Decay(1.0 / 10.0), x) == 1.0
    ensures x < 10.0 / 9.0 ==> Apply(Decay(1.0 / 10.0), x) == x * 9.0 / 10.0
  {
  }

  // ---------------------------------------------------------------------
  // Ordering requesters
  // ---------------------------------------------------------------------

  /** Python 2's `round`: to the nearest integer, halves away from zero. */
  function RoundHalfAway(x: real): int {
    if x >= 0.0 then (x + 0.5).Floor else -((-x + 0.5).Floor)
  }

  /** `sort_func` on two ratios: the difference in thousandths, rounded. */
  function Cmp(ra: real, rb: real): int {
    RoundHalfAway((rb - ra) * 1000.0)
  }

  /** Swapping the arguments negates the comparison. */
  lemma CmpAntisymmetric(ra: real, rb: real)
    ensures Cmp(rb, ra) == -Cmp(ra, rb)
  {
    var x := (rb - ra) * 1000.0;
    assert (ra - rb) * 1000.0 == -x;
  }

  /** `Cmp(ra, rb) <= 0` says exactly that `rb` is below `ra` plus half a thousandth. */
  lemma CmpMeaning(ra: real, rb: real)
    ensures Cmp(ra, rb) <= 0 <==> rb < ra + 1.0 / 2000.0
  {
  }

  /** Ratios within half a thousandth compare equal, which makes the order intransitive. */
  lemma CmpNotTransitive()
    ensures Cmp(0.0, 0.0004) == 0 && Cmp(0.0004, 0.0008) == 0 && Cmp(0.0, 0.0008) == 1
  {
    assert (0.0004 - 0.0) * 1000.0 == 0.4;
    assert (0.0008 - 0.0004) * 1000.0 == 0.4;
    assert (0.0008 - 0.0) * 1000.0 == 0.8;
  }

  /** Both estimates of `p` are known and its price is positive. */
  predicate Rated(rates: map<PeerId, int>, prices: map<PeerId, real>, p: PeerId) {
    p in rates && p in prices && prices[p] > 0.0
  }

  /** `get_ratio`: estimated download per unit of upload. */
  function Ratio(rates: map<PeerId, int>, prices: map<PeerId, real>, p: PeerId): (q: real)
    requires Rated(rates, prices, p)
    ensures q * prices[p] == rates[p] as real
    ensures rates[p] >= 0 ==> q >= 0.0
  {
    rates[p] as real / prices[p]
  }

  /** `sort_func(a, b)`. */
  function SortFunc(rates: map<PeerId, int>, prices: map<PeerId, real>, a: PeerId, b: PeerId): (c: int)
    requires Rated(rates, prices, a) && Rated(rates, prices, b)
    ensures c <= 0 <==> Ratio(rates, prices, b) < Ratio(rates, prices, a) + 1.0 / 2000.0
    ensures c >= 0 <==> Ratio(rates, prices, a) < Ratio(rates, prices, b) + 1.0 / 2000.0
  {
    var ra, rb := Ratio(rates, prices, a), Ratio(rates, prices, b);
    CmpMeaning(ra, rb);
    CmpMeaning(rb, ra);
    CmpAntisymmetric(ra, rb);
    Cmp(ra, rb)
  }

  /** Every element of `s` has both estimates and a positive price. */
  ghost predicate AllRated(rates: map<PeerId, int>, prices: map<PeerId, real>, s: seq<PeerId>) {
    forall q :: q in s ==> Rated(rates, prices, q)
  }

  /** No neighbour in `s` compares greater than the one after it. */
  ghost predicate CmpSorted(rates: map<PeerId, int>, prices: map<PeerId, real>, s: seq<PeerId>)
    requires AllRated(rates, prices, s)
  {
    forall k :: 0 <= k < |s| - 1 ==> SortFunc(rates, prices, s[k], s[k + 1]) <= 0
  }

  /** Inserts `x` before the first element that does not compare below it. */
  function InsertByCmp(rates: map<PeerId, int>, prices: map<PeerId, real>, x: PeerId, s: seq<PeerId>)
    : (r: seq<PeerId>)
    requires Rated(rates, prices, x) && AllRated(rates, prices, s)
    ensures multiset(r) == multiset(s) + multiset{x}
    ensures r[0] == x || (s != [] && r[0] == s[0])
    ensures AllRated(rates, prices, r)
  {
    if s == [] || SortFunc(rates, prices, x, s[0]) <= 0 then
      [x] + s
    else
      assert AllRated(rates, prices, s[1..]) by {
        forall q | q in s[1..] ensures Rated(rates, prices, q) {
          assert q in s;
        }
      }
      var rest := InsertByCmp(rates, prices, x, s[1..]);
      assert s == [s[0]] + s[1..];
      assert AllRated(rates, prices, [s[0]] + rest) by {
        forall q | q in [s[0]] + rest ensures Rated(rates, prices, q) {
          if q != s[0] {
            assert q in multiset(rest);
          }
        }
      }
      [s[0]] + rest
  }

  /** Inserting into a list without an inversion leaves none. */
  lemma {:induction false} InsertKeepsSorted(rates: map<PeerId, int>, prices: map<PeerId, real>, x: PeerId,
                                             s: seq<PeerId>)
    requires Rated(rates, prices, x) && AllRated(rates, prices, s) && CmpSorted(rates, prices, s)
    ensures CmpSorted(rates, prices, InsertByCmp(rates, prices, x, s))
  {
    if s != [] && SortFunc(rates, prices, x, s[0]) > 0 {
      CmpAntisymmetric(Ratio(rates, prices, x), Ratio(rates, prices, s[0]));
      var t := s[1..];
      assert AllRated(rates, prices, t) by {
        forall q | q in t ensures Rated(rates, prices, q) {
          assert q in s;
        }
      }
      assert CmpSorted(rates, prices, t) by {
        forall k | 0 <= k < |t| - 1 ensures SortFunc(rates, prices, t[k], t[k + 1]) <= 0 {
          assert t[k] == s[k + 1] && t[k + 1] == s[k + 2];
        }
      }
      InsertKeepsSorted(rates, prices, x, t);
      var rest := InsertByCmp(rates, prices, x, t);
      var r := [s[0]] + rest;
      forall k | 0 <= k < |r| - 1 ensures SortFunc(rates, prices, r[k], r[k + 1]) <= 0 {
        if k > 0 {
          assert r[k] == rest[k - 1] && r[k + 1] == rest[k];
        }
      }
    }
  }

  /**
   * `sorted(requester_ids, self.sort_func)`, modelled as a stable insertion
   * sort by the comparator. A single requester is never compared.
   */
  function SortByCmp(rates: map<PeerId, int>, prices: map<PeerId, real>, s: seq<PeerId>): (r: seq<PeerId>)
    requires |s| >= 2 ==> AllRated(rates, prices, s)
    ensures multiset(r) == multiset(s)
    ensures |s| >= 2 ==> AllRated(rates, prices, r)
  {
    if |s| <= 1 then s
    else
      assert s == [s[0]] + s[1..];
      assert s[0] in s;
      assert AllRated(rates, prices, s[1..]) by {
        forall q | q in s[1..] ensures Rated(rates, prices, q) {
          assert q in s;
        }
      }
      InsertByCmp(rates, prices, s[0], SortByCmp(rates, prices, s[1..]))
  }

  /** The sorted list is a rearrangement in which no requester compares greater than the next. */
  lemma {:induction false} SortByCmpSorted(rates: map<PeerId, int>, prices: map<PeerId, real>, s: seq<PeerId>)
    requires |s| >= 2 && AllRated(rates, prices, s)
    ensures CmpSorted(rates, prices, SortByCmp(rates, prices, s))
  {
    assert s[0] in s;
    var t := s[1..];
    assert AllRated(rates, prices, t) by {
      forall q | q in t ensures Rated(rates, prices, q) {
        assert q in s;
      }
    }
    if |t| >= 2 {
      SortByCmpSorted(rates, prices, t);
    }
    InsertKeepsSorted(rates, prices, s[0], SortByCmp(rates, prices, t));
  }

  /**
   * In the sorted order each requester's ratio is below the previous one's
   * plus half a thousandth: descending up to the quantisation of `sort_func`.
   */
  lemma SortedRatiosDescend(rates: map<PeerId, int>, prices: map<PeerId, real>, s: seq<PeerId>, k: nat)
    requires AllRated(rates, prices, s) && CmpSorted(rates, prices, s)
    requires k + 1 < |s|
    ensures Ratio(rates, prices, s[k + 1]) < Ratio(rates, prices, s[k]) + 1.0 / 2000.0
  {
    CmpMeaning(Ratio(rates, prices, s[k]), Ratio(rates, prices, s[k + 1]));
  }

  // ---------------------------------------------------------------------
  // Greedy selection
  // ---------------------------------------------------------------------

  function PriceSum(s: seq<PeerId>, prices: map<PeerId, real>): real
    requires forall q :: q in s ==> q in prices
  {
    if s == [] then 0.0 else PriceSum(s[..|s| - 1], prices) + prices[s[|s| - 1]]
  }

  /** Each of the first `n` requesters of `order` fitted strictly under `up_bw` at its turn. */
  ghost predicate FitsEach(order: seq<PeerId>, n: nat, prices: map<PeerId, real>, upBw: nat)
    requires n <= |order| && forall q :: q in order ==> q in prices
  {
    forall k :: 0 <= k < n ==> PriceSum(order[..k], prices) + prices[order[k]] < upBw as real
  }

  /**
   * `chosen` is what lines 85-93 pick from `order`: a prefix of it, each
   * member of which fitted strictly under `up_bw` at its turn, ending at the
   * first requester that did not fit (or at the end of the order).
   */
  ghost predicate GreedyPrefix(order: seq<PeerId>, chosen: seq<PeerId>, prices: map<PeerId, real>, upBw: nat)
    requires forall q :: q in order ==> q in prices
  {
    && |chosen| <= |order| && chosen == order[..|chosen|]
    && FitsEach(order, |chosen|, prices, upBw)
    && (|chosen| < |order| ==> upBw as real <= PriceSum(chosen, prices) + prices[order[|chosen|]])
  }

  /** One more requester that fits extends the run of fitting ones. */
  lemma FitsEachStep(order: seq<PeerId>, n: nat, prices: map<PeerId, real>, upBw: nat)
    requires n < |order| && forall q :: q in order ==> q in prices
    requires FitsEach(order, n, prices, upBw)
    requires PriceSum(order[..n], prices) + prices[order[n]] < upBw as real
    ensures FitsEach(order, n + 1, prices, upBw)
  {
  }

  /** The price sum of a one-longer prefix. */
  lemma PriceSumSnoc(order: seq<PeerId>, n: nat, prices: map<PeerId, real>)
    requires n < |order| && forall q :: q in order ==> q in prices
    ensures order[..n + 1] == order[..n] + [order[n]]
    ensures PriceSum(order[..n + 1], prices) == PriceSum(order[..n], prices) + prices[order[n]]
  {
    assert order[..n + 1][..n] == order[..n];
  }

  /** The greedy loop: stop at the first requester whose price would reach `up_bw`. */
  method Greedy(order: seq<PeerId>, prices: map<PeerId, real>, upBw: nat)
    returns (chosen: seq<PeerId>, used: real)
    requires forall q :: q in order ==> q in prices
    ensures GreedyPrefix(order, chosen, prices, upBw)
    ensures used == PriceSum(chosen, prices)
  {
    chosen, used := [], 0.0;
    var i := 0;
    while i < |order| && used + prices[order[i]] < upBw as real
      invariant i <= |order| && chosen == order[..i]
      invariant used == PriceSum(chosen, prices)
      invariant FitsEach(order, i, prices, upBw)
    {
      var id := order[i];
      FitsEachStep(order, i, prices, upBw);
      PriceSumSnoc(order, i, prices);
      chosen := chosen + [id];
      used := used + prices[id];
      i := i + 1;
    }
  }

  /** The greedy prefix is unique: the prices and the order alone determine it. */
  lemma GreedyPrefixUnique(order: seq<PeerId>, c1: seq<PeerId>, c2: seq<PeerId>, prices: map<PeerId, real>,
                           upBw: nat)
    requires forall q :: q in order ==> q in prices
    requires GreedyPrefix(order, c1, prices, upBw) && GreedyPrefix(order, c2, prices, upBw)
    ensures c1 == c2
  {
    assert FitsEach(order, |c1|, prices, upBw) && FitsEach(order, |c2|, prices, upBw);
    if |c1| < |c2| {
      assert false;
    }
    if |c2| < |c1| {
      assert false;
    }
  }

  /** A non-empty greedy selection spends strictly less than `up_bw`, whatever the prices. */
  lemma GreedyUnderBudget(order: seq<PeerId>, chosen: seq<PeerId>, prices: map<PeerId, real>, upBw: nat)
    requires forall q :: q in order ==> q in prices
    requires GreedyPrefix(order, chosen, prices, upBw) && chosen != []
    ensures PriceSum(chosen, prices) < upBw as real
  {
    var n := |chosen|;
    assert chosen[..n - 1] == order[..n - 1];
  }

  /** `[Upload(self.id, p, self.upload_bws[p]) for p in chosen]`. */
  function PricedUploads(selfId: PeerId, chosen: seq<PeerId>, prices: map<PeerId, real>): (r: seq<Upload>)
    requires forall q :: q in chosen ==> q in prices
    ensures |r| == |chosen|
    ensures forall k :: 0 <= k < |r| ==> r[k] == Upload(selfId, chosen[k], prices[chosen[k]])
  {
    seq(|chosen|, k requires 0 <= k < |chosen| => Upload(selfId, chosen[k], prices[chosen[k]]))
  }

  /** The uploads grant exactly the chosen peers' prices in total. */
  lemma {:induction false} PricedUploadsTotal(selfId: PeerId, chosen: seq<PeerId>, prices: map<PeerId, real>)
    requires forall q :: q in chosen ==> q in prices
    ensures TotalBw(PricedUploads(selfId, chosen, prices)) == PriceSum(chosen, prices)
  {
    if chosen != [] {
      var n := |chosen| - 1;
      assert PricedUploads(selfId, chosen, prices)[..n] == PricedUploads(selfId, chosen[..n], prices);
      PricedUploadsTotal(selfId, chosen[..n], prices);
    }
  }

  /**
   * Lines 81-96 after the estimates are seeded: `order` is the requesters
   * sorted by `sort_func`, `chosen` its greedy prefix, and one upload per
   * chosen peer at its price.
   */
  ghost predicate Served(selfId: PeerId, upBw: nat, ids: set<PeerId>, rates: map<PeerId, int>,
                         prices: map<PeerId, real>, order: seq<PeerId>, chosen: seq<PeerId>, uploads: seq<Upload>)
  {
    && multiset(order) == multiset(ids)
    && (forall q :: q in order ==> q in prices)
    && (|order| >= 2 ==> AllRated(rates, prices, order) && CmpSorted(rates, prices, order))
    && GreedyPrefix(order, chosen, prices, upBw)
    && uploads == PricedUploads(selfId, chosen, prices)
  }

  /**
   * What a served round grants: uploads from this peer to distinct
   * requesters, at their prices, within the budget when anyone is served.
   */
  lemma ServedSound(selfId: PeerId, upBw: nat, ids: set<PeerId>, rates: map<PeerId, int>,
                    prices: map<PeerId, real>, order: seq<PeerId>, chosen: seq<PeerId>, uploads: seq<Upload>)
    requires Served(selfId, upBw, ids, rates, prices, order, chosen, uploads)
    ensures forall k :: 0 <= k < |uploads| ==>
              uploads[k].fromId == selfId && uploads[k].toId in ids && uploads[k].bw == prices[uploads[k].toId]
    ensures forall j, k :: 0 <= j < k < |uploads| ==> uploads[j].toId != uploads[k].toId
    ensures uploads != [] ==> TotalBw(uploads) < upBw as real
  {
    forall k | 0 <= k < |uploads| ensures uploads[k].toId in ids {
      assert uploads[k].toId == order[k];
      assert order[k] in multiset(order);
    }
    ListingOfSetIsDistinct(order, ids);
    forall j, k | 0 <= j < k < |uploads| ensures uploads[j].toId != uploads[k].toId {
      assert uploads[j].toId == order[j] && uploads[k].toId == order[k];
    }
    PricedUploadsTotal(selfId, chosen, prices);
    if uploads != [] {
      GreedyUnderBudget(order, chosen, prices, upBw);
    }
  }

  /**
   * Sorts the listed requesters by ratio, then serves them greedily. Both
   * estimates of every requester are in place.
   */
  method Serve(selfId: PeerId, upBw: nat, ids: set<PeerId>, listed: seq<PeerId>,
               rates: map<PeerId, int>, prices: map<PeerId, real>)
    returns (uploads: seq<Upload>, order: seq<PeerId>, chosen: seq<PeerId>)
    requires Distinct(listed) && (forall q :: q in listed <==> q in ids)
    requires forall q :: q in ids ==> q in prices
    requires |ids| >= 2 ==> forall q :: q in ids ==> Rated(rates, prices, q)
    ensures Served(selfId, upBw, ids, rates, prices, order, chosen, uploads)
  {
    DistinctListing(listed, ids);
    assert |listed| == |ids| by {
      assert |multiset(listed)| == |multiset(ids)|;
    }
    var sortedIds := SortByCmp(rates, prices, listed);
    forall q | q in sortedIds ensures q in ids {
      assert q in multiset(sortedIds);
    }
    if |sortedIds| >= 2 {
      SortByCmpSorted(rates, prices, listed);
    }
    var picked, used := Greedy(sortedIds, prices, upBw);
    uploads := PricedUploads(selfId, picked, prices);
    order, chosen := sortedIds, picked;
  }

  // ---------------------------------------------------------------------
  // The peer
  // ---------------------------------------------------------------------

  /** The prices after steps 1 and 3, or unchanged in round 0. */
  function UpdatedPrices(prices: map<PeerId, real>, peers: seq<PeerView>, history: History,
                         alpha: real, gamma: real, r: nat, priceDraw: PeerId -> int): map<PeerId, real>
  {
    if history.CurrentRound() == 0 then prices
    else
      var last := history.downloads[|history.downloads| - 1];
      var raised := Updated(prices, Choked(peers, last), Raise(alpha), priceDraw);
      Updated(raised, Reciprocators(last, Window(history.downloads, r)), Decay(gamma), priceDraw)
  }

  /** The rates after step 2, or unchanged in round 0. */
  function UpdatedRates(rates: map<PeerId, int>, history: History): map<PeerId, int> {
    if history.CurrentRound() == 0 then rates
    else AfterObserve(rates, history.downloads[|history.downloads| - 1])
  }

  /** Every price is positive, so every ratio is defined. */
  predicate AllPositive(prices: map<PeerId, real>) {
    forall p :: p in prices ==> prices[p] > 0.0
  }

  /** Starting from positive prices, steps 1 and 3 keep every price positive. */
  lemma PositivityKept(prices: map<PeerId, real>, peers: seq<PeerView>, history: History,
                       priceDraw: PeerId -> int)
    requires AllPositive(prices)
    ensures AllPositive(UpdatedPrices(prices, peers, history, 1.0 / 5.0, 1.0 / 10.0, 3, priceDraw))
  {
  }

  /** Step 2 keeps every rate non-negative. */
  lemma RatesKept(rates: map<PeerId, int>, history: History)
    requires forall p :: p in rates ==> rates[p] >= 0
    ensures forall p :: p in UpdatedRates(rates, history) ==> UpdatedRates(rates, history)[p] >= 0
  {
  }

  /** In round 0 the estimates are left alone. */
  lemma FirstRoundKeepsEstimates(prices: map<PeerId, real>, rates: map<PeerId, int>, peers: seq<PeerView>,
                                 alpha: real, gamma: real, r: nat, priceDraw: PeerId -> int)
    ensures UpdatedPrices(prices, peers, History([]), alpha, gamma, r, priceDraw) == prices
    ensures UpdatedRates(rates, History([])) == rates
  {
  }

  /** A list with the multiset of a set holds each element once. */
  lemma ListingOfSetIsDistinct(l: seq<PeerId>, s: set<PeerId>)
    requires multiset(l) == multiset(s)
    ensures Distinct(l)
  {
    forall j, k | 0 <= j < k < |l| ensures l[j] != l[k] {
      assert l == l[..k] + l[k..];
      assert l[j] == l[..k][j] && l[k] == l[k..][0];
      assert multiset(l)[l[j]] == multiset(l[..k])[l[j]] + multiset(l[k..])[l[j]];
      assert multiset(l[..k])[l[j]] >= 1;
      assert multiset(l[k..])[l[k]] >= 1;
      assert multiset(l[k..])[l[j]] == 0;
    }
  }

  /** A duplicate-free listing of a set has the set's multiset. */
  lemma {:induction false} DistinctListing(l: seq<PeerId>, s: set<PeerId>)
    requires Distinct(l) && forall x :: x in l <==> x in s
    ensures multiset(l) == multiset(s)
  {
    if l == [] {
      assert s == {};
    } else {
      var n := |l| - 1;
      var x := l[n];
      var s' := s - {x};
      forall y ensures y in l[..n] <==> y in s' {
        if y in l[..n] {
          var i :| 0 <= i < n && l[..n][i] == y;
          assert l[i] == y;
        }
        if y in s' {
          var i :| 0 <= i < |l| && l[i] == y;
          assert l[..n][i] == y;
        }
      }
      DistinctListing(l[..n], s');
      assert l == l[..n] + [x];
      assert s == s' + {x};
    }
  }

  class KrankileTyrant {
    const id: PeerId
    const upBw: nat
    const minUpBw: nat
    const maxUpBw: nat
    const alpha: real
    const gamma: real
    const r: nat
    /** `upload_bws`: the estimated upload needed for reciprocation, per peer. */
    var uploadBws: map<PeerId, real>
    /** `downloads`: the estimated download rate, per peer. */
    var downloads: map<PeerId, int>

    /** The constants of `post_init`, the bandwidth range, positive prices and non-negative rates. */
    predicate Valid()
      reads this
    {
      && alpha == 1.0 / 5.0 && gamma == 1.0 / 10.0 && r == 3
      && minUpBw <= maxUpBw
      && AllPositive(uploadBws)
      && (forall p :: p in downloads ==> downloads[p] >= 0)
    }

    /** A draw for every peer within `[min_up_bw, max_up_bw]`, as `randint` gives. */
    ghost predicate InRange(draw: PeerId -> int)
      reads this
    {
      forall p :: minUpBw <= draw(p) <= maxUpBw
    }

    /** `post_init`: the parameters and two empty defaultdicts. */
    constructor (id: PeerId, upBw: nat, minUpBw: nat, maxUpBw: nat)
      requires minUpBw <= maxUpBw
      ensures Valid() && uploadBws == map[] && downloads == map[]
      ensures this.id == id && this.upBw == upBw && this.minUpBw == minUpBw && this.maxUpBw == maxUpBw
    {
      this.id := id;
      this.upBw := upBw;
      this.minUpBw := minUpBw;
      this.maxUpBw := maxUpBw;
      alpha := 1.0 / 5.0;
      gamma := 1.0 / 10.0;
      r := 3;
      uploadBws := map[];
      downloads := map[];
    }

    /** Steps 1 and 3: `for p in targets: upload_bws[p] = step(upload_bws[p])`, in any order. */
    method UpdatePrices(targets: set<PeerId>, step: Step, priceDraw: PeerId -> int)
      modifies this
      ensures uploadBws == Updated(old(uploadBws), targets, step, priceDraw)
      ensures downloads == old(downloads)
    {
      uploadBws := UpdateEach(uploadBws, targets, step, priceDraw);
    }

    /** Step 2: `for peer_id, rate in unchoked.items(): self.downloads[peer_id] = rate`, in any order. */
    method ObserveRates(round: seq<Download>)
      modifies this
      ensures downloads == AfterObserve(old(downloads), round)
      ensures uploadBws == old(uploadBws)
    {
      var unchoked := LastObserved(round);
      ObservedOverwrites(downloads, round);
      downloads := OverwriteEach(downloads, unchoked);
    }

    /** Lines 68-70: intersect last round's senders with those of each window round. */
    static method IntersectWindow(last: seq<Download>, window: seq<seq<Download>>) returns (s: set<PeerId>)
      ensures s == Reciprocators(last, window)
    {
      s := Senders(last);
      for i := 0 to |window|
        invariant s == set p | p in Senders(last) && forall j :: 0 <= j < i ==> p in Senders(window[j])
      {
        s := s * Senders(window[i]);
      }
    }

    /** Lines 50-74: the three updates, skipped in round 0. */
    method UpdateEstimates(peers: seq<PeerView>, history: History, priceDraw: PeerId -> int)
      modifies this
      ensures uploadBws == UpdatedPrices(old(uploadBws), peers, history, alpha, gamma, r, priceDraw)
      ensures downloads == UpdatedRates(old(downloads), history)
    {
      if history.CurrentRound() != 0 {
        var last := history.downloads[|history.downloads| - 1];
        UpdatePrices(Choked(peers, last), Raise(alpha), priceDraw);
        ObserveRates(last);
        var unchokedRLast := IntersectWindow(last, Window(history.downloads, r));
        UpdatePrices(unchokedRLast, Decay(gamma), priceDraw);
      }
    }

    /**
     * Reading the estimates of the requesters seeds the missing ones: the
     * prices always, the rates only when `both` (the sort reads them).
     */
    method SeedEstimates(ids: set<PeerId>, both: bool, priceDraw: PeerId -> int, rateDraw: PeerId -> int)
      requires Valid() && InRange(rateDraw)
      modifies this
      ensures Valid()
      ensures uploadBws == SeededPrices(old(uploadBws), ids, priceDraw)
      ensures downloads == if both then SeededRates(old(downloads), ids, rateDraw) else old(downloads)
      ensures forall q :: q in ids ==> q in uploadBws
      ensures both ==> forall q :: q in ids ==> Rated(downloads, uploadBws, q)
    {
      uploadBws := SeededPrices(uploadBws, ids, priceDraw);
      if both {
        downloads := SeededRates(downloads, ids, rateDraw);
      }
    }

    /**
     * `uploads`: update the estimates from the history, then, if anyone
     * requested, sort the requesters by ratio and serve them greedily at their
     * current price. Reading an estimate seeds it: the sort reads both
     * estimates of every requester once there are two or more, and the greedy
     * loop reads the price of a lone requester.
     */
    method Uploads(requests: seq<Request>, peers: seq<PeerView>, history: History,
                   priceDraw: PeerId -> int, rateDraw: PeerId -> int)
      returns (uploads: seq<Upload>, order: seq<PeerId>, chosen: seq<PeerId>)
      requires Valid() && InRange(priceDraw) && InRange(rateDraw)
      modifies this
      ensures Valid()
      ensures requests == [] ==>
                && uploads == []
                && uploadBws == UpdatedPrices(old(uploadBws), peers, history, alpha, gamma, r, priceDraw)
                && downloads == UpdatedRates(old(downloads), history)
      ensures requests != [] ==>
                && uploadBws == SeededPrices(UpdatedPrices(old(uploadBws), peers, history, alpha, gamma, r, priceDraw),
                                             RequesterIds(requests), priceDraw)
                && downloads == (if |RequesterIds(requests)| >= 2
                                 then SeededRates(UpdatedRates(old(downloads), history), RequesterIds(requests), rateDraw)
                                 else UpdatedRates(old(downloads), history))
                && Served(id, upBw, RequesterIds(requests), downloads, uploadBws, order, chosen, uploads)
    {
      UpdateEstimates(peers, history, priceDraw);
      PositivityKept(old(uploadBws), peers, history, priceDraw);
      RatesKept(old(downloads), history);
      assert Valid();
      if |requests| == 0 {
        return [], [], [];
      }
      var ids := RequesterIds(requests);
      var requesterIds := Draws.ListOfSet(ids);
      SeedEstimates(ids, |requesterIds| >= 2, priceDraw, rateDraw);
      uploads, order, chosen := Serve(id, upBw, ids, requesterIds, downloads, uploadBws);
    }
  }
}
