# Krankile peer strategies, modelled in Dafny

This project models five peer strategies written for a round-based,
BitTorrent-like file-sharing simulator. Each round a peer takes two decisions:

- `requests` plans which pieces to ask of which neighbour. Needed pieces are
  those of which fewer than `blocks_per_piece` blocks are held. A peer asks
  each neighbour for at most `max_requests` of the needed pieces that
  neighbour holds. Each request starts at the piece's next missing block.
- `uploads` divides the upload bandwidth `up_bw` among the peers that sent
  requests.

The strategies:

| strategy | requests | uploads |
|---|---|---|
| `KrankileStd` (krankilestd.py) | rarest first by a tally over the neighbours | top `normal_slots` uploaders of the last two rounds, plus one optimistic unchoke that persists across rounds, even split |
| `KrankilePropshare` (krankilepropshare.py) | sorts the neighbours by id in place, then rarest first | 90% of `up_bw` in proportion to last round's blocks, floor leftovers redistributed, a 10% optimistic slot |
| `KrankileTyrant` (krankiletyrant.py) | inherited from `KrankileStd` | keeps per-peer price and rate estimates, updates them from the history, serves requesters greedily by rate/price ratio |
| `KrankileTourney` (krankiletourney.py) | a random sample per neighbour | two random requests, even split |
| `KrankileTourney4` (discarded_ideas/krankiletourney4.py) | the rarest candidate, then a shuffled fill | three random requests, even split |

Modules:

- `Messages` holds `Request`, `Upload`, `Download`, the neighbour view
  `PeerView` and `History`, plus small helpers.
- `Draws` stands in for Python's randomness and for the unspecified iteration
  order of sets and dicts. `random.sample` in the request planners,
  `random.shuffle` and `list(set)` become `Draws` methods whose result is any
  value their postcondition allows. `random.choice` is a `:|` pick inside
  `Std.KrankileStd.Uploads` and `Propshare.Allocate`. The upload-side
  `random.sample` of the tourney strategies is an explicit `sample` input
  constrained by `Choke.IsSample`, and the `randint` draws of the tyrant are
  explicit per-peer draw functions.
- `Planner` is the request planner shared by all strategies: needed pieces,
  the rarity tally, rarity order, and the requests emitted for a chosen list
  of pieces. It contains the rarest-first planner of `KrankileStd`.
- `Tally` is the uploader `Counter` and `Counter.most_common`.
- `Choke` is the random choke shared by the two tourney strategies.
- `Std`, `Propshare`, `Tyrant`, `Tourney` and `Tourney4` hold one strategy
  each.
  - `KrankileStd` and `KrankileTyrant` keep state across rounds, so each is a
    class.
  - Propshare's in-place sort of the caller's neighbour list works on an
    `array`.

Python 2 semantics are written out:

- `/` on integers is floor division, so propshare's ratio
  `uploader_c[ele]/total` is 0 or 1.
- `round` rounds halves away from zero.
- Reading a missing `defaultdict` key seeds it.
- Python's `s[:stop]` accepts a negative `stop`.
- Indexing an empty string raises `IndexError` and dividing by zero raises
  `ZeroDivisionError`. Propshare's `uploads` returns these as a `Result`.

`even_split` lives in `util.py`, which is not part of this model. It is
passed in as a function `evenSplit`, and only one property is assumed of it:
it returns `n` shares (`Messages.SplitsIntoN`). `history.current_round()` is
the number of recorded rounds.

In `KrankileTourney4.requests` with `max_requests == 0`, `n - 1 == -1`, so
`lisect[:-1]` drops the last shuffled piece. A neighbour with `m >= 1`
candidates therefore gets `max(1, m - 1)` requests, more than
`max_requests` (`Tourney4.RequestCount`,
`Tourney4.ZeroMaxRequestsStillRequests`).

## Model

| member | source | states |
|---|---|---|
| Planner.PieceNeeded | krankiletourney.py:15-17 | `piece_needed(i)`: a needed piece misses at least one block and a complete piece is not needed; `Planner.NeededShrinks` gives its meaning over rounds |
| Planner.NeededShrinks | krankiletourney.py:15-17 | held-block counts never decrease, so the needed set only shrinks: a piece needed after an update was needed before it |
| Planner.TallyRarity | krankilestd.py:34-38 | the `piece_counter` loop: every piece's count equals the number of neighbours that hold it among the needed pieces; only needed pieces are keys |
| Planner.InsertByCount | krankilestd.py:53-54 | inserting into the candidates adds exactly one element and keeps them duplicate-free |
| Planner.InsertByCountSorted | krankilestd.py:53-54 | inserting into a rarity-sorted list keeps it sorted |
| Planner.SortByCount | krankilestd.py:53-54 | `sorted(..., piece_counter[p1] - piece_counter[p2])`: the same candidates, ascending in rarity count, duplicate-free |
| Planner.SortedPrefixIsRarest | krankilestd.py:53-55 | in a rarity-sorted list, every element of a prefix is at most as common as any candidate left out |
| Planner.EmitRequests | krankilestd.py:55-58 | one request per chosen piece, to the given neighbour, starting at `pieces[piece_id]` |
| Planner.PlanOrigin | krankilestd.py:44-58 | every request of a plan comes from the piece list chosen for one neighbour, is sent by us, and starts at the piece's held-block count |
| Planner.PlanSound | krankilepropshare.py:33-81 | when every choice is a candidate, each request is from us and names a needed piece that its target holds, starting at the next missing block |
| Planner.RarestFirstFor | krankilestd.py:45-55 | for one neighbour: `min(max_requests, len(candidates))` distinct candidates, in ascending rarity, none left out strictly rarer than one taken |
| Planner.RarestFirstRequests | krankilestd.py:20-60 | `requests` of the standard strategy (inherited by the tyrant): for every neighbour in order, the rarest-first choice above, emitted as requests in that order |
| Planner.RarestStep | krankilestd.py:44-58 | a rarest-first choice for the next neighbour extends the plan's invariant and names only existing pieces |
| Planner.RarestFirstExample | krankilestd.py:53-55 | with A holding {1, 2} and B holding {1}, one request to A asks for piece 2, the rarer one |
| Tally.CountsSnoc | krankilestd.py:84-88 | one more download record adds its blocks to its sender's count, and only when the sender is a requester |
| Tally.SilentSender | krankilestd.py:84-88 | a peer with no record has sent no blocks |
| Tally.CountUploaders | krankilestd.py:79-88 | the loop builds the uploader counter of the given records |
| Tally.CountedKeys | krankilestd.py:84-88 | the counter's keys are exactly the requesters that appear in a record, zero-block records included |
| Tally.LargestExists | krankilestd.py:92-93 | every non-empty set of keys has one with the largest count |
| Tally.MostCommon | krankilestd.py:92-93 | `most_common(k)` as a set: `min(k, len(keys))` keys, none with a smaller count than a key left out |
| Tally.LeaderIsTop | krankilestd.py:92-93 | a key that outsends every other key is always among the top `k >= 1` |
| Std.ZipUploads | krankilestd.py:115-116 | `zip` stops at the shorter list; upload `k` goes to `order[k]` with share `k` |
| Std.ChosenBound | krankilestd.py:92-105 | at most `normal_slots` reciprocated peers plus one optimistic peer; a set optimistic peer is always chosen |
| Std.ReciprocatedAreRecentUploaders | krankilestd.py:79-93 | every reciprocated peer is a requester that sent a download record in the last two rounds |
| Std.SplitEvenly | krankilestd.py:108-116 | no upload for an empty set; otherwise one upload per chosen peer, each chosen peer served, bandwidths from `even_split(up_bw, len(chosen))` in order |
| Std.KrankileStd.constructor | krankilestd.py:12-18 | three normal slots, interval 3, no optimistic peer |
| Std.KrankileStd.Uploads | krankilestd.py:62-118 | see below |
| Propshare.SortById | krankilepropshare.py:56 | `peers.sort(key=id)` in place: the array ends sorted by id and is a permutation of what it was |
| Propshare.InsertLeft | krankilepropshare.py:56 | one insertion pass extends the sorted prefix by one and permutes the array |
| Propshare.IdLeqTotal | krankilepropshare.py:56 | string comparison on ids is total |
| Propshare.IdLeqTransitive | krankilepropshare.py:56 | string comparison on ids is transitive |
| Propshare.IdLeqAntisymmetric | krankilepropshare.py:56 | string comparison on ids is antisymmetric |
| Propshare.Requests | krankilepropshare.py:24-83 | sorts the caller's `peers` by id in place (a permutation), then plans rarest-first for every neighbour in that order |
| Propshare.TargetsArePeers | krankilepropshare.py:66-81 | every request goes to one of the neighbours |
| Propshare.PlanGroupedById | krankilepropshare.py:56-81 | after the sort by id the requests are grouped by target: target ids never decrease |
| Propshare.SumCountsCovers | krankilepropshare.py:119 | the total covers each key's count and any two distinct keys' counts together |
| Propshare.Shares | krankilepropshare.py:125-128 | one entry per counter key, in iteration order |
| Propshare.ProportionalShares | krankilepropshare.py:121-129 | the loop yields the floored shares and the summed dropped fractions |
| Propshare.ShareIsAllOrNothing | krankilepropshare.py:126-127 | with integer division the only uploader gets `floor(0.9 * up_bw)`; any key with less than the total gets 0 and drops nothing |
| Propshare.TallyShape | krankilepropshare.py:110-119 | with a positive total every count is within it and at most one key holds all of it |
| Propshare.ShapeOfInit | krankilepropshare.py:110-119 | dropping the last key keeps that shape |
| Propshare.LeftoverBelowOne | krankilepropshare.py:123-129 | `not_used_float` is in `[0, 1)`, and 0 when no key is full |
| Propshare.SharesWithinNinetyPercent | krankilepropshare.py:121-128 | the proportional shares sum to at most `floor(0.9 * up_bw)`, and to 0 when no key is full |
| Propshare.TenthsFit | krankilepropshare.py:126-135 | `floor(0.9 * up_bw) + floor(0.1 * up_bw) <= up_bw` |
| Propshare.ExclusionKeepsLongIds | krankilepropshare.py:131-132 | the exclusion compares ids with first characters, so a requester whose id is not one character long stays in the optimistic pool |
| Propshare.ServedPeerStaysInPool | krankilepropshare.py:131-135 | concretely, requester "p1" with a proportional share is still eligible for the optimistic slot |
| Propshare.InsertByBw | krankilepropshare.py:138 | inserting adds exactly that entry |
| Propshare.InsertByBwDescending | krankilepropshare.py:138 | inserting into a descending list keeps it descending |
| Propshare.SortByBw | krankilepropshare.py:138 | `sorted(..., key=bw, reverse=True)`: a permutation in descending bandwidth |
| Propshare.GrantSumPermutation | krankilepropshare.py:138-146 | the bandwidth total does not depend on the order of the entries |
| Propshare.UnitsTotal | krankilepropshare.py:139-143 | the round-robin hands out exactly `not_used_int` units in all |
| Propshare.GrantSumPlusUnits | krankilepropshare.py:139-143 | the first `m` entries gain exactly the units handed to them |
| Propshare.Redistribute | krankilepropshare.py:139-143 | entry `k` gains the units of the round-robin from index 0; the total grows by exactly `not_used_int`; nothing changes when it is 0 |
| Propshare.AsUploads | krankilepropshare.py:146 | one upload per entry, in order, from us |
| Propshare.AsUploadsTotal | krankilepropshare.py:146 | the uploads total the entries' bandwidths |
| Propshare.AllocationWithinBudget | krankilepropshare.py:119-143 | shares plus the optimistic slot never exceed `up_bw` |
| Propshare.AllocationRecipients | krankilepropshare.py:121-138 | only counter keys and the optimistic pick are granted |
| Propshare.NoLeftoverUnits | krankilepropshare.py:129 | `not_used_int` is always 0, so the loop at line 140 never runs |
| Propshare.AllocationSound | krankilepropshare.py:119-146 | the uploads total at most `up_bw` and go only from us to requesters |
| Propshare.Allocate | krankilepropshare.py:121-148 | an empty-string key raises `IndexError`; otherwise the sorted shares plus one optimistic grant when the pool is non-empty, within budget, to requesters only |
| Propshare.Uploads | krankilepropshare.py:85-148 | no requests gives `[]`; no history raises `IndexError`; a zero total over a non-empty counter raises `ZeroDivisionError`; otherwise the allocation above |
| Tyrant.SeedBounds | krankiletyrant.py:21-27 | a fresh price is at least 1 and a fresh rate is between 0 and a quarter of the draw |
| Tyrant.SeededPrices | krankiletyrant.py:89-96 | reading the requesters' prices seeds the missing keys with a fresh price and changes no stored price |
| Tyrant.SeededRates | krankiletyrant.py:21-32 | reading the requesters' rates seeds the missing keys with a fresh rate and changes no stored rate |
| Tyrant.Updated | krankiletyrant.py:56-74 | each target's price is the step applied to its (seeded) price; every other price is kept |
| Tyrant.UpdateEach | krankiletyrant.py:56-74 | the loop over the targets, in any order, yields that update |
| Tyrant.Observed | krankiletyrant.py:61 | the dict comprehension keeps the blocks of the last record from each sender |
| Tyrant.OverwriteEach | krankiletyrant.py:62-64 | writing every entry of the observed dict, in any order, overwrites exactly those keys |
| Tyrant.ObservedOverwrites | krankiletyrant.py:61-64 | that loop over the observed dict is step 2 |
| Tyrant.AfterObserve | krankiletyrant.py:61-64 | last round's senders get their observed rate; no other rate changes |
| Tyrant.StepsDisjoint | krankiletyrant.py:52-74 | step 1 raises and step 3 decays disjoint sets of peers |
| Tyrant.ReciprocatorsAreSteady | krankiletyrant.py:68-70 | a peer is decayed exactly when it sent in each of the last `min(r, rounds)` rounds |
| Tyrant.RaiseBounds | krankiletyrant.py:57 | a raised price is at least 1; from 5/6 upwards it is the old price times 1.2 |
| Tyrant.DecayBounds | krankiletyrant.py:74 | a decayed price is positive, at most 1 and never larger; every price of at least 10/9 drops straight to 1 |
| Tyrant.Ratio | krankiletyrant.py:31-32 | `get_ratio`: the ratio times the price is the rate, and it is non-negative for a non-negative rate; `Tyrant.PositivityKept` keeps its divisor positive and `Tyrant.SortedRatiosDescend` orders requesters by it |
| Tyrant.SortFunc | krankiletyrant.py:34-35 | `sort_func(a, b) <= 0` exactly when b's ratio is below a's plus half a thousandth, and `>= 0` exactly when a's is below b's plus half a thousandth (`Tyrant.CmpMeaning`, `Tyrant.CmpAntisymmetric`) |
| Tyrant.CmpAntisymmetric | krankiletyrant.py:34-35 | swapping the arguments of `sort_func` negates it |
| Tyrant.CmpMeaning | krankiletyrant.py:34-35 | `sort_func(a, b) <= 0` exactly when b's ratio is below a's plus half a thousandth |
| Tyrant.CmpNotTransitive | krankiletyrant.py:34-35 | ratios 0, 0.0004 and 0.0008: neighbours compare equal, the ends do not |
| Tyrant.InsertByCmp | krankiletyrant.py:82 | inserting adds exactly that requester and keeps every one rated |
| Tyrant.InsertKeepsSorted | krankiletyrant.py:82 | inserting into a list with no inversion leaves none |
| Tyrant.SortByCmp | krankiletyrant.py:82 | the sorted requesters are a permutation of the listed ones |
| Tyrant.SortByCmpSorted | krankiletyrant.py:82 | in the sorted list no requester compares greater than the next |
| Tyrant.SortedRatiosDescend | krankiletyrant.py:31-82 | along the sorted list each ratio is below the previous one plus half a thousandth |
| Tyrant.Greedy | krankiletyrant.py:85-93 | the chosen peers are the prefix of the order up to the first that would reach `up_bw`; the amount used is their price total |
| Tyrant.GreedyPrefixUnique | krankiletyrant.py:85-93 | the order and the prices determine the greedy choice |
| Tyrant.GreedyUnderBudget | krankiletyrant.py:89 | a non-empty choice spends strictly less than `up_bw` |
| Tyrant.PricedUploads | krankiletyrant.py:96 | one upload per chosen peer, at its current price |
| Tyrant.PricedUploadsTotal | krankiletyrant.py:96 | the uploads total the chosen peers' prices |
| Tyrant.ServedSound | krankiletyrant.py:81-96 | a served round uploads from us to distinct requesters at their prices, strictly within `up_bw` |
| Tyrant.Serve | krankiletyrant.py:81-96 | the requesters, sorted by `sort_func`, then served greedily |
| Tyrant.PositivityKept | krankiletyrant.py:27-74 | steps 1 and 3 keep every price positive, so `get_ratio` never divides by zero |
| Tyrant.RatesKept | krankiletyrant.py:61-64 | step 2 keeps every rate non-negative |
| Tyrant.FirstRoundKeepsEstimates | krankiletyrant.py:50 | in round 0 neither estimate changes |
| Tyrant.KrankileTyrant.constructor | krankiletyrant.py:11-27 | alpha 0.2, gamma 0.1, r 3, two empty estimate maps |
| Tyrant.KrankileTyrant.UpdatePrices | krankiletyrant.py:56-74 | the price map becomes the step's update of the targets; the rates are untouched |
| Tyrant.KrankileTyrant.ObserveRates | krankiletyrant.py:61-64 | the rate map becomes step 2's result; the prices are untouched |
| Tyrant.KrankileTyrant.IntersectWindow | krankiletyrant.py:68-70 | the intersection loop yields last round's senders present in every window round |
| Tyrant.KrankileTyrant.UpdateEstimates | krankiletyrant.py:50-74 | the three steps, skipped in round 0 |
| Tyrant.KrankileTyrant.SeedEstimates | krankiletyrant.py:81-89 | every requester gets a price; with two or more requesters, a rate too |
| Tyrant.KrankileTyrant.Uploads | krankiletyrant.py:37-98 | see below |
| Tourney.Requests | krankiletourney.py:19-49 | per neighbour in order, `min(max_requests, len(candidates))` distinct needed pieces it holds, each from its next missing block |
| Tourney.SampleStep | krankiletourney.py:39-47 | a sample for the next neighbour extends the plan's invariant |
| Tourney.Uploads | krankiletourney.py:51-82 | no requests gives `[]`; otherwise `min(2, len(requests))` uploads to the requesters of the sampled requests, shares of `even_split` in order |
| Choke.SampledUploads | krankiletourney.py:61-82 | the random choke for any number of slots |
| Choke.SameRequesterTwice | krankiletourney.py:72-73 | two sampled requests from one requester give two uploads to the same peer |
| Tourney4.SliceTo | discarded_ideas/krankiletourney4.py:51 | Python's `s[:stop]`: a prefix, shortened from the end for a negative `stop` |
| Tourney4.RequestCountUsual | discarded_ideas/krankiletourney4.py:43-51 | with `max_requests >= 1` a neighbour gets `min(max_requests, m)` pieces |
| Tourney4.ZeroMaxRequestsStillRequests | discarded_ideas/krankiletourney4.py:43-51 | with `max_requests == 0` a neighbour with candidates gets `max(1, m - 1)` pieces |
| Tourney4.HeadIsRarest | discarded_ideas/krankiletourney4.py:47-48 | the head of the rarity-sorted candidates is a rarest candidate |
| Tourney4.TallyChoiceIsRarest | discarded_ideas/krankiletourney4.py:32-51 | with a correct tally the first request to a neighbour names a rarest candidate |
| Tourney4.AssembleChoice | discarded_ideas/krankiletourney4.py:48-51 | `[rarest] + lisect[:n-1]` after the shuffle: distinct candidates, as many as the count says, the rarest first |
| Tourney4.RarestThenShuffledFor | discarded_ideas/krankiletourney4.py:40-51 | one neighbour: sort, pop the rarest, shuffle the rest, slice |
| Tourney4.Requests | discarded_ideas/krankiletourney4.py:15-58 | per neighbour in order, `RequestCount` distinct needed pieces it holds, the first a rarest one, each from its next missing block |
| Tourney4.ChoiceStep | discarded_ideas/krankiletourney4.py:39-56 | a choice for the next neighbour extends the plan's invariant |
| Tourney4.Uploads | discarded_ideas/krankiletourney4.py:60-84 | no requests gives `[]`; otherwise `min(len(requests), 3)` uploads to the requesters of the sampled requests, shares of `even_split` in order |
| Draws.Sample | krankiletourney.py:44 | `random.sample`: `k` distinct elements of the set, all of them when `k` is its size |
| Draws.Shuffle | discarded_ideas/krankiletourney4.py:49 | `random.shuffle`: a rearrangement, duplicate-free when the input is |
| Draws.ListOfSet | krankiletyrant.py:81 | `list(set)`: each element once, in some order |

`Std.KrankileStd.Uploads` states:

- No requests gives `[]` and leaves the optimistic peer as it was.
- Otherwise the reciprocated set is the top `min(|requesters|, normal_slots)`
  uploaders of the last two rounds.
- The optimistic peer is reassigned exactly when some requester is left over
  and either the round count is a multiple of the interval or none is set.
  A new optimistic peer is such a requester.
- The chosen set is the top set plus a set optimistic peer, so it has at most
  `normal_slots + 1` members.
- There is one upload per chosen peer, with the shares of `even_split` in
  order.

`Tyrant.KrankileTyrant.Uploads` states:

- The estimates are always updated by steps 1-3, which are skipped in round 0.
- No requests gives `[]`.
- Otherwise the requesters' prices are seeded, and their rates are seeded
  only when there are two or more requesters.
- The uploads are `Served`: the requesters are sorted by `sort_func` and
  greedily chosen while strictly under `up_bw`, and each upload carries the
  peer's price.
- The class invariant holds after the call: the constants, positive prices
  and non-negative rates.

## Left out

- Logging and `print` (krankilepropshare.py:20-22, 38-47, 97-98). The `print` at krankiletyrant.py:29 seeds key `1` in `upload_bws` as a side effect; that seeding is not modelled.
- The `Peer` base class and the `messages`, `history` and `util` modules are not part of this model. Their records become datatypes, and `peers` and `history.downloads` become sequences.
- `even_split` is a parameter. Only its length is assumed, so nothing is said about the sizes of the shares.
- The PRNG is not modelled. Draws are nondeterministic choices or explicit inputs. `randint` becomes per-peer draw functions within `[min_up_bw, max_up_bw]`, so the order in which draws are consumed is not modelled.
- IEEE-754 floats become exact reals. Rounding error, underflow and `int()` overflow are not modelled.
- The simulator's round loop and block delivery are external collaborators.
- The shuffle of `needed_pieces` at krankilepropshare.py:52 is not modelled: only `np_set` is used afterwards.
- Propshare.SortByBw: stability of `sorted` for equal bandwidths is not proved. Only the descending order and the permutation are proved.
- Planner.SortByCount: stability for equal counts is not proved. Only the rarity order, the element set and distinctness are proved.
- Propshare.SortById: stability of `peers.sort` is not proved. It only matters when two neighbours share an id, which is a configuration error of the simulator.
- Tyrant.SortByCmp: Python's sort is modelled as a stable insertion sort by `sort_func`. Because `sort_func` is intransitive (`Tyrant.CmpNotTransitive`), the model only proves that adjacent requesters are in order, not the exact order Python's merge sort produces.
- Tyrant.KrankileTyrant.Uploads: the `defaultdict` seeding done by the sort is modelled as seeding every requester before sorting. With per-peer draws this gives the same final maps.
- Std.SplitEvenly and Std.KrankileStd.Uploads: the iteration order of `chosen` is left open, so which peer gets which share of `even_split` is not fixed.
- Std.KrankileStd.Uploads: requires `optimistic_unchoke_interval > 0`. The constructor sets it to 3; with 0 Python would raise `ZeroDivisionError` at krankilestd.py:99 whenever some requester is not reciprocated, and return normally otherwise.
- Tyrant.KrankileTyrant.constructor: requires `min_up_bw <= max_up_bw`; otherwise Python raises `ValueError` from `randint` during initialisation, when line 29 reads `upload_bws[1]`.
