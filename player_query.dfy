/** Classification of one status query into the shutdown trigger. */
module PlayerQuery {

  /** What the status query of one server returned: the number of players
      online, or an exception (lookup failure, timeout, protocol error). */
  datatype QueryResult = Online(players: int) | QueryFailed

  /** The shutdown trigger for one poll: raised exactly when the query succeeded
      and reported nobody online. A failed query never raises it. */
  function ShutdownTrigger(q: QueryResult): (trigger: bool)
    ensures q.QueryFailed? ==> !trigger
    ensures q.Online? ==> (trigger <==> q.players == 0)
  {
    match q
    case Online(n) => n == 0
    case QueryFailed => false
  }
}
