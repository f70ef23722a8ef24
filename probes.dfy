/** The two network probes, with every network call replaced by the outcome it
    delivers: the ping retry loop and the single HTTP GET of a port check. */
module Probes {

  datatype Option<T> = None | Some(value: T)

  /** The attempt budget of the ping loop. */
  const MAX_PING_ATTEMPTS: int := 5

  /** What one call of the echo request delivers: a reply whose status is
      Success, a reply with any other status (a timeout among them), or an
      exception instead of a reply. */
  datatype PingOutcome = Success | NonSuccess | Throws

  /** How the ping loop ends: the final `IsReachable` and `Pings`, and the
      index one past the last outcome it consumed. */
  datatype PingRun = PingRun(reachable: bool, pings: int, sent: nat)

  /** The ping loop entered with counter `pings`, when the echo calls still to
      come deliver `outcomes[i..]` in order. `None` when the loop would make
      another call after the last outcome: it has not ended by then. A reply
      counts one attempt; an exception is swallowed without counting. */
  function PingLoop(outcomes: seq<PingOutcome>, i: nat, pings: int): (r: Option<PingRun>)
    requires i <= |outcomes|
    ensures r.Some? ==> i <= r.value.sent <= |outcomes|
    ensures r.Some? && r.value.reachable ==>
              i < r.value.sent && outcomes[r.value.sent - 1] == Success
    ensures r.Some? && r.value.reachable ==> pings < r.value.pings <= MAX_PING_ATTEMPTS
    ensures r.Some? && !r.value.reachable ==>
              r.value.pings == if pings < MAX_PING_ATTEMPTS then MAX_PING_ATTEMPTS else pings
    decreases |outcomes| - i
  {
    if pings >= MAX_PING_ATTEMPTS then Some(PingRun(false, pings, i))
    else if i == |outcomes| then None
    else match outcomes[i]
      case Success => Some(PingRun(true, pings + 1, i + 1))
      case NonSuccess => PingLoop(outcomes, i + 1, pings + 1)
      case Throws => PingLoop(outcomes, i + 1, pings)
  }

  /** The ping loop entered with counter `pings` ends within the outcomes given. */
  predicate PingExits(outcomes: seq<PingOutcome>, pings: int)
  {
    PingLoop(outcomes, 0, pings).Some?
  }

  /** What one HTTP GET delivers: a response with its status code, or a
      failure (an exception, a refused connection, the two-second deadline). */
  datatype HttpResponse = Response(statusCode: int) | Failed

  /** .NET's success test on a status code. */
  predicate IsSuccessStatusCode(statusCode: int)
  {
    200 <= statusCode <= 299
  }

  /** The port check's verdict on its one response: open exactly when a
      response came back whose status code is in the 2xx class. */
  function HttpIsOpen(response: HttpResponse): (open: bool)
    ensures open <==> response.Response? && response.statusCode / 100 == 2
  {
    match response
    case Failed => false
    case Response(code) => IsSuccessStatusCode(code)
  }
}
