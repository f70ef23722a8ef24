/** Properties of a whole run: the routing rule, the bounds on the summary
    totals, and four scenarios: a host found on the third ping, a host that
    never answers, a host whose failed calls use up no attempt, and a run over
    two hosts with its summary. */
module PipelineLemmas {
  import opened Models
  import opened Probes
  import opened ProbeLemmas
  import opened Reporting
  import opened Services

  /** A fresh record's verdict is decided by the calls that returned a reply:
      reachable exactly when a Success is among the first five, with `Pings`
      the 1-based position of the first one; otherwise `Pings` is 5. */
  lemma ProcessDecidedByReplies(h: Host)
    requires PingEnds(h)
    ensures var r := Process(h);
            var c := Counted(h.pingOutcomes);
            && (r.isReachable <==> Success in c[..if |c| < MAX_PING_ATTEMPTS then |c| else MAX_PING_ATTEMPTS])
            && (r.isReachable ==> r.pings == FirstSuccess(c) + 1)
            && (!r.isReachable ==> r.pings == MAX_PING_ATTEMPTS)
  {
    FreshPingRun(h.pingOutcomes);
  }

  /** An unreachable host is never port-probed: its finished record is the
      same whatever the two HTTP responses would have been. */
  lemma UnreachableNeverProbed(h: Host, other80: HttpResponse, other8080: HttpResponse)
    requires PingEnds(h)
    requires !Process(h).isReachable
    ensures Process(Host(h.address, h.pingOutcomes, other80, other8080)) == Process(h)
  {
  }

  /** After a run, the summary reports the empty branch exactly for no hosts;
      otherwise the total is the number of hosts, and neither port count
      exceeds the reachable count, which does not exceed the total. */
  lemma RunSummary(hosts: seq<Host>)
    requires forall i :: 0 <= i < |hosts| ==> PingEnds(hosts[i])
    ensures var s := SummaryOf(ProcessAll(hosts));
            && (s.NoneProcessed? <==> hosts == [])
            && (s.Counts? ==> s.total == |hosts|)
            && (s.Counts? ==> s.http80 <= s.reachable <= s.total && s.http8080 <= s.reachable)
  {
    var rs := ProcessAll(hosts);
    assert forall i :: 0 <= i < |rs| ==> Routed(rs[i]);
    SummaryBounds(rs);
  }

  /** Ping success on the third call, port 80 failing, port 8080 answering 200. */
  lemma ScenarioReachable()
    ensures Process(Host("10.0.0.1", [NonSuccess, NonSuccess, Success], Failed, Response(200)))
         == Record("10.0.0.1", true, 3, false, true)
  {
  }

  /** Five non-success replies: unreachable after five attempts, both ports closed. */
  lemma ScenarioUnreachable(http80: HttpResponse, http8080: HttpResponse)
    ensures Process(Host("10.0.0.2", [NonSuccess, NonSuccess, NonSuccess, NonSuccess, NonSuccess], http80, http8080))
         == Record("10.0.0.2", false, 5, false, false)
  {
  }

  /** Calls that throw are not attempts: two throws around two replies give `Pings == 2`. */
  lemma ScenarioThrowsNotCounted()
    ensures Process(Host("10.0.0.3", [Throws, NonSuccess, Throws, Success], Response(404), Response(204)))
         == Record("10.0.0.3", true, 2, false, true)
  {
  }

  /** One reachable and one unreachable host: two records, one reachable, and
      the unreachable one adds nothing to either port count. */
  lemma ScenarioTwoHosts(http80: HttpResponse, http8080: HttpResponse)
    ensures var hosts := [
              Host("10.0.0.1", [Success], http80, http8080),
              Host("10.0.0.2", [NonSuccess, NonSuccess, NonSuccess, NonSuccess, NonSuccess], http80, http8080)];
            SummaryOf(ProcessAll(hosts))
              == Counts(2, 1, if HttpIsOpen(http80) then 1 else 0, if HttpIsOpen(http8080) then 1 else 0)
  {
    var up := Host("10.0.0.1", [Success], http80, http8080);
    var down := Host("10.0.0.2", [NonSuccess, NonSuccess, NonSuccess, NonSuccess, NonSuccess], http80, http8080);
    var rs := ProcessAll([up, down]);
    assert rs == [Process(up), Process(down)];
    assert Process(up) == Record("10.0.0.1", true, 1, HttpIsOpen(http80), HttpIsOpen(http8080));
    assert Process(down) == Record("10.0.0.2", false, 5, false, false);
    assert rs[..1] == [Process(up)] && rs[..1][..0] == [];
    assert Count(rs, Reachable) == 1;
    assert Count(rs, Port80Open) == if HttpIsOpen(http80) then 1 else 0;
    assert Count(rs, Port8080Open) == if HttpIsOpen(http8080) then 1 else 0;
  }
}
