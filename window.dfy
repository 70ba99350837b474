/** The outstanding-window arithmetic behind wait_window: the counter value
    at which the wait stops, given how many operations each progress call
    completes. */
module Window {
  import opened PerfTypes

  /** The counter when wait_window stops, waiting for the counter to drop to
      `limit` (= max_outstanding - n): each progress call completes
      `deliveries[i]` operations, and no call is made once the counter is at
      or below the limit. If the deliveries run out first, the counter they
      leave is returned. */
  function Drained(o: nat, limit: nat, deliveries: seq<nat>): (r: nat)
    requires Sum(deliveries) <= o
    ensures r <= o
    ensures o - Sum(deliveries) <= r
    ensures o - limit <= Sum(deliveries) ==> r <= limit
    ensures r > limit ==> r == o - Sum(deliveries)
    ensures o <= limit ==> r == o
    decreases |deliveries|
  {
    if o <= limit || deliveries == [] then o
    else
      SumCons(deliveries);
      Drained(o - deliveries[0], limit, deliveries[1..])
  }

  /** The oracle for a wait: the library never completes more operations than
      are in flight, and the wait can end: either no wait is needed, or the
      caller progresses and enough completions arrive. A caller that does not
      progress (the responder of a one-sided test) spins forever on a full
      window, so it must find room at once. */
  predicate WaitTerminates(progresses: bool, o: nat, limit: nat, deliveries: seq<nat>) {
    Sum(deliveries) <= o && (o <= limit || (progresses && o - limit <= Sum(deliveries)))
  }

  /** Draining the whole window (limit 0) ends with no operation outstanding,
      and takes exactly the operations that were in flight. */
  lemma DrainToZero(o: nat, deliveries: seq<nat>)
    requires WaitTerminates(true, o, 0, deliveries)
    ensures Drained(o, 0, deliveries) == 0
    ensures Sum(deliveries) == o
  {
  }

  /** One step of the wait: a progress call that leaves the window full
      continues the same wait on the remaining deliveries. */
  lemma DrainedStep(o: nat, limit: nat, deliveries: seq<nat>)
    requires Sum(deliveries) <= o && deliveries != [] && o > limit
    ensures deliveries[0] <= o && Sum(deliveries[1..]) <= o - deliveries[0]
    ensures Drained(o, limit, deliveries) == Drained(o - deliveries[0], limit, deliveries[1..])
  {
    SumCons(deliveries);
  }
}
