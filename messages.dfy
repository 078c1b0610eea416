/**
 * The values the strategies exchange with the simulator: requests, uploads,
 * download records, the per-round view of a neighbour and the download history,
 * together with small helpers shared by every strategy.
 */
module Messages {

  datatype Option<T> = None | Some(value: T)

  datatype Result<T, E> = Success(value: T) | Failure(error: E)

  /** The Python exceptions the strategies can raise on unusual inputs. */
  datatype PyError = IndexError | ZeroDivisionError

  /** Peer identifiers are Python strings. */
  type PeerId = string

  /** Ask `peerId` for piece `pieceId`, starting at block `start`. */
  datatype Request = Request(requesterId: PeerId, peerId: PeerId, pieceId: nat, start: nat)

  /** Grant `bw` units of upload bandwidth from `fromId` to `toId` for one round. */
  datatype Upload = Upload(fromId: PeerId, toId: PeerId, bw: real)

  /** `blocks` blocks were received from `fromId` during one round. */
  datatype Download = Download(fromId: PeerId, blocks: nat)

  /** A neighbour as seen this round: its id and the pieces it holds in full. */
  datatype PeerView = PeerView(id: PeerId, available: set<nat>)

  /** One list of download records per completed round, oldest first. */
  datatype History = History(downloads: seq<seq<Download>>) {
    /** Rounds are numbered from 0; the current round is the number of completed ones. */
    function CurrentRound(): nat { |downloads| }
  }

  function Min(a: int, b: int): int { if a <= b then a else b }

  function Max(a: int, b: int): int { if a <= b then b else a }

  function RealMin(a: real, b: real): real { if a <= b then a else b }

  function RealMax(a: real, b: real): real { if a <= b then b else a }

  predicate Distinct<T(==)>(s: seq<T>) {
    forall i, j :: 0 <= i < j < |s| ==> s[i] != s[j]
  }

  /** The set of ids of the peers that sent at least one of `requests`. */
  function RequesterIds(requests: seq<Request>): set<PeerId> {
    set r | r in requests :: r.requesterId
  }

  function PeerIds(peers: seq<PeerView>): set<PeerId> {
    set p | p in peers :: p.id
  }

  /** The ids of the peers that appear in one round's download records. */
  function Senders(round: seq<Download>): set<PeerId> {
    set d | d in round :: d.fromId
  }

  /** Sum of the bandwidths of a list of uploads. */
  function TotalBw(uploads: seq<Upload>): real {
    if uploads == [] then 0.0 else TotalBw(uploads[..|uploads| - 1]) + uploads[|uploads| - 1].bw
  }

  /**
   * `even_split` lives in a module that is not part of this model; it is taken
   * as a parameter whose only assumed property is that it returns `n` shares.
   */
  ghost predicate SplitsIntoN(evenSplit: (int, nat) -> seq<int>) {
    forall total, n :: |evenSplit(total, n)| == n
  }
}
