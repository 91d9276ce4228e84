/** Identifiers shared by the synchronisation and the matching pipeline. */
module Artworks {

  type Id = nat

  /** A lost artwork and an auction artwork: the key of `match_score`. */
  datatype Pair = Pair(lost: Id, auction: Id)

  /** The order of `(lost_id, auction_id)`. */
  predicate PairBefore(a: Pair, b: Pair) {
    a.lost < b.lost || (a.lost == b.lost && a.auction < b.auction)
  }
}
