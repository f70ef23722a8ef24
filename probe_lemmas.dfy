/** What the ping loop computes, stated without the loop: only the calls that
    returned a reply count, and the verdict is decided by the first Success
    among them within the attempt budget. */
module ProbeLemmas {
  import opened Probes

  /** The outcomes of the calls that returned a reply, in call order. */
  function Counted(outcomes: seq<PingOutcome>): (c: seq<PingOutcome>)
    ensures |c| <= |outcomes|
    ensures Throws !in c
  {
    if outcomes == [] then []
    else (if outcomes[0] == Throws then [] else [outcomes[0]]) + Counted(outcomes[1..])
  }

  /** The 0-based position of the first Success in `c`, or `|c|` when there is none. */
  function FirstSuccess(c: seq<PingOutcome>): (k: nat)
    ensures k <= |c|
    ensures forall j :: 0 <= j < k ==> c[j] != Success
    ensures k < |c| ==> c[k] == Success
  {
    if c == [] then 0 else if c[0] == Success then 0 else 1 + FirstSuccess(c[1..])
  }

  /** `r` is the verdict the replies `c` call for, from counter `pings`: the
      loop ends exactly when the replies hold a Success or fill the remaining
      budget; it reports reachable exactly when the first Success falls within
      the budget, and then its counter is advanced by that Success's 1-based
      position. */
  predicate DecidedByReplies(r: Option<PingRun>, c: seq<PingOutcome>, pings: int)
  {
    var k := FirstSuccess(c);
    var budget := MAX_PING_ATTEMPTS - pings;
    && (r.Some? <==> k < |c| || |c| >= budget)
    && (r.Some? ==> (r.value.reachable <==> k < |c| && k < budget))
    && (r.Some? && r.value.reachable ==> r.value.pings == pings + k + 1)
  }

  /** The loop's verdict, entered at call `i` with counter `pings`, is the one
      the replies among the calls still to come call for. */
  lemma {:induction false} PingLoopCharacterized(outcomes: seq<PingOutcome>, i: nat, pings: int)
    requires i <= |outcomes|
    ensures DecidedByReplies(PingLoop(outcomes, i, pings), Counted(outcomes[i..]), pings)
    decreases |outcomes| - i
  {
    var rest := outcomes[i..];
    if pings >= MAX_PING_ATTEMPTS {
    } else if i == |outcomes| {
      assert rest == [];
    } else {
      assert rest[0] == outcomes[i];
      assert rest[1..] == outcomes[i + 1..];
      var c' := Counted(outcomes[i + 1..]);
      var c := Counted(rest);
      match outcomes[i]
      case Success =>
        assert c == [Success] + c';
        assert FirstSuccess(c) == 0;
      case NonSuccess =>
        PingLoopCharacterized(outcomes, i + 1, pings + 1);
        assert c == [NonSuccess] + c';
        assert c[1..] == c';
        assert FirstSuccess(c) == 1 + FirstSuccess(c') && |c| == 1 + |c'|;
        assert PingLoop(outcomes, i, pings) == PingLoop(outcomes, i + 1, pings + 1);
      case Throws =>
        PingLoopCharacterized(outcomes, i + 1, pings);
        assert c == c';
        assert PingLoop(outcomes, i, pings) == PingLoop(outcomes, i + 1, pings);
    }
  }

  /** The loop's counter advances by exactly the number of calls that
      returned a reply; calls that threw are not counted. */
  lemma {:induction false} PingsCountReplies(outcomes: seq<PingOutcome>, i: nat, pings: int)
    requires i <= |outcomes|
    requires PingLoop(outcomes, i, pings).Some?
    ensures var r := PingLoop(outcomes, i, pings).value;
            r.pings == pings + |Counted(outcomes[i..r.sent])|
    decreases |outcomes| - i
  {
    var r := PingLoop(outcomes, i, pings).value;
    if pings >= MAX_PING_ATTEMPTS {
      assert outcomes[i..r.sent] == [];
    } else {
      var called := outcomes[i..r.sent];
      assert called[0] == outcomes[i];
      assert called[1..] == outcomes[i + 1..r.sent];
      assert Counted(called) == (if outcomes[i] == Throws then [] else [outcomes[i]]) + Counted(called[1..]);
      match outcomes[i]
      case Success =>
        assert called[1..] == [];
      case NonSuccess =>
        PingsCountReplies(outcomes, i + 1, pings + 1);
      case Throws =>
        PingsCountReplies(outcomes, i + 1, pings);
    }
  }

  /** A fresh record (counter 0): the loop leaves `Pings` between 1 and 5; it
      reports reachable exactly when a Success is among the first five
      replies, with `Pings` the 1-based position of the first one and the last
      call made a Success; otherwise `Pings` is 5 and five replies came. */
  lemma FreshPingRun(outcomes: seq<PingOutcome>)
    requires PingExits(outcomes, 0)
    ensures var r := PingLoop(outcomes, 0, 0).value;
            var c := Counted(outcomes);
            && 1 <= r.pings <= MAX_PING_ATTEMPTS
            && (r.reachable <==> Success in c[..if |c| < MAX_PING_ATTEMPTS then |c| else MAX_PING_ATTEMPTS])
            && (r.reachable ==> r.pings == FirstSuccess(c) + 1 && outcomes[r.sent - 1] == Success)
            && (!r.reachable ==> r.pings == MAX_PING_ATTEMPTS && |c| >= MAX_PING_ATTEMPTS)
  {
    PingLoopCharacterized(outcomes, 0, 0);
    assert outcomes[0..] == outcomes;
    var c := Counted(outcomes);
    var k := FirstSuccess(c);
    var m := if |c| < MAX_PING_ATTEMPTS then |c| else MAX_PING_ATTEMPTS;
    if k < |c| && k < MAX_PING_ATTEMPTS {
      assert c[..m][k] == Success;
    } else {
      assert forall j :: 0 <= j < m ==> c[..m][j] != Success;
    }
  }

  /** No call returned a reply when every call threw. */
  lemma {:induction false} CountedAllThrows(outcomes: seq<PingOutcome>)
    requires forall j :: 0 <= j < |outcomes| ==> outcomes[j] == Throws
    ensures Counted(outcomes) == []
  {
    if outcomes != [] {
      CountedAllThrows(outcomes[1..]);
    }
  }

  /** When every call throws, however many calls there are, the loop has not
      ended: the counter never moves, so a host whose echo calls all throw
      keeps the loop running for ever. */
  lemma AllThrowsNeverExits(outcomes: seq<PingOutcome>, pings: int)
    requires forall j :: 0 <= j < |outcomes| ==> outcomes[j] == Throws
    requires pings < MAX_PING_ATTEMPTS
    ensures !PingExits(outcomes, pings)
  {
    PingLoopCharacterized(outcomes, 0, pings);
    assert outcomes[0..] == outcomes;
    CountedAllThrows(outcomes);
  }
}
