/** The status words of a listener, in the order of its life. */
module Statuses {

  datatype Status = Created | Listening | Connected | Disconnected | Exiting | Aborting

  function Rank(s: Status): nat {
    match s
    case Created => 0
    case Listening => 1
    case Connected => 2
    case Disconnected => 3
    case Exiting => 4
    case Aborting => 4
  }

  /** A history that never falls in rank. */
  predicate Ascending(h: seq<Status>) {
    forall i, j :: 0 <= i < j < |h| ==> Rank(h[i]) <= Rank(h[j])
  }
}
