/** The probing pipeline, run as one sequential pass in place of the dataflow
    blocks: create a record per address, ping it, probe both ports only when
    it is reachable, and collect it. */
module Services {
  import opened Models
  import opened Probes
  import opened Reporting

  /** One input address together with everything the network will answer for
      it: the outcome of each echo call in order, and the response of the GET
      on port 80 and of the GET on port 8080. */
  datatype Host = Host(
    address: string,
    pingOutcomes: seq<PingOutcome>,
    http80: HttpResponse,
    http8080: HttpResponse)

  /** The ping loop of a fresh record for this host ends. */
  predicate PingEnds(h: Host)
  {
    PingExits(h.pingOutcomes, 0)
  }

  /** The finished record of one host: the ping stage's verdict and counter,
      and, for a reachable host only, the verdict on each port's one response. */
  function Process(h: Host): (r: Record)
    requires PingEnds(h)
    ensures r.address == h.address
    ensures 1 <= r.pings <= MAX_PING_ATTEMPTS
    ensures !r.isReachable ==> r.pings == MAX_PING_ATTEMPTS && !r.http80IsOpen && !r.http8080IsOpen
    ensures r.isReachable ==> r.http80IsOpen == HttpIsOpen(h.http80) && r.http8080IsOpen == HttpIsOpen(h.http8080)
  {
    var run := PingLoop(h.pingOutcomes, 0, 0).value;
    if run.reachable then Record(h.address, true, run.pings, HttpIsOpen(h.http80), HttpIsOpen(h.http8080))
    else Record(h.address, false, run.pings, false, false)
  }

  /** The finished records of a list of hosts, in input order. */
  function ProcessAll(hs: seq<Host>): (rs: seq<Record>)
    requires forall i :: 0 <= i < |hs| ==> PingEnds(hs[i])
    ensures |rs| == |hs|
    ensures forall i :: 0 <= i < |hs| ==> rs[i] == Process(hs[i])
  {
    if hs == [] then [] else ProcessAll(hs[..|hs| - 1]) + [Process(hs[|hs| - 1])]
  }

  class PingListBot {
    /** The collected records, in the order they reached the output stage. */
    var results: seq<IPAddressStatus>
    /** The input block has been completed, and with it, through the links,
        every later block: a completed pipeline accepts no more addresses. */
    var ran: bool

    constructor ()
      ensures results == []
      ensures !ran
    {
      results := [];
      ran := false;
    }

    /** Runs every host through the pipeline. The collection is cleared first.
        On the bot's first run it then holds exactly one fresh record per
        host, each the finished record of that host. The run completes the
        pipeline, so on any later run every address is refused and the
        collection stays empty. */
    method Start(hosts: seq<Host>)
      requires !ran ==> forall i :: 0 <= i < |hosts| ==> PingEnds(hosts[i])
      modifies this
      ensures ran
      ensures old(ran) ==> results == []
      ensures !old(ran) ==> |results| == |hosts|
      ensures !old(ran) ==> SnapshotsOf(results) == ProcessAll(hosts)
      ensures forall j :: 0 <= j < |results| ==> fresh(results[j])
      ensures forall j, k :: 0 <= j < k < |results| ==> results[j] != results[k]
    {
      results := [];
      if ran {
        return;
      }
      ghost var expected := ProcessAll(hosts);
      for n := 0 to |hosts|
        invariant |results| == n
        invariant forall j :: 0 <= j < n ==> results[j].Snapshot() == expected[j]
        invariant forall j :: 0 <= j < n ==> fresh(results[j])
        invariant forall j, k :: 0 <= j < k < n ==> results[j] != results[k]
        invariant !ran
      {
        ghost var before := results;
        var ip, _ := RunHost(hosts[n]);
        assert forall j :: 0 <= j < n ==> before[j] != ip;
        HandleOutputs(ip);
        forall j | 0 <= j < n + 1
          ensures results[j].Snapshot() == expected[j] && fresh(results[j])
        {
          if j < n {
            assert results[j] == before[j];
          }
        }
        forall j, k | 0 <= j < k < n + 1
          ensures results[j] != results[k]
        {
          assert results[j] == before[j];
          if k < n {
            assert results[k] == before[k];
          }
        }
      }
      assert SnapshotsOf(results) == expected;
      ran := true;
    }

    /** One host's way through the stages: a new record from its address, the
        ping stage, and then, only if the record is reachable, the port-80 and
        the port-8080 stage. The result is the host's finished record, and
        `ports` lists the ports an HTTP GET went to, in order: one GET per
        port for a reachable host, none for an unreachable one. */
    method RunHost(h: Host) returns (ip: IPAddressStatus, ports: seq<int>)
      requires PingEnds(h)
      ensures fresh(ip)
      ensures ip.Snapshot() == Process(h)
      ensures ports == if ip.IsReachable then [80, 8080] else []
    {
      ip := new IPAddressStatus(h.address);
      var _ := PingIP(ip, h.pingOutcomes);
      ports := [];
      if ip.IsReachable {
        GetHttp80(ip, h.http80);
        ports := ports + [80];
        GetHttp8080(ip, h.http8080);
        ports := ports + [8080];
      }
    }

    /** The output stage: appends the finished record to the collection. */
    method HandleOutputs(ip: IPAddressStatus)
      modifies this
      ensures results == old(results) + [ip]
      ensures ran == old(ran)
    {
      results := results + [ip];
    }

    /** The totals of the summary over the collected records: the "no
        addresses were processed" branch exactly when nothing was collected. */
    method PrintSummary() returns (s: Summary)
      ensures s.NoneProcessed? <==> results == []
      ensures s == SummaryOf(SnapshotsOf(results))
    {
      s := SummaryOf(SnapshotsOf(results));
    }

    /** The ping stage: calls the echo request until a reply of status Success
        or until `MAX_PING_ATTEMPTS` replies have been counted. It ends as the
        ping loop specification says, changes only `Pings` and `IsReachable`,
        and returns the number of echo calls made. */
    method PingIP(ip: IPAddressStatus, outcomes: seq<PingOutcome>) returns (sent: nat)
      requires PingExits(outcomes, ip.Pings)
      modifies ip
      ensures PingLoop(outcomes, 0, old(ip.Pings)) == Some(PingRun(ip.IsReachable, ip.Pings, sent))
      ensures ip.Http80IsOpen == old(ip.Http80IsOpen) && ip.Http8080IsOpen == old(ip.Http8080IsOpen)
    {
      sent := 0;
      while ip.Pings < MAX_PING_ATTEMPTS
        invariant sent <= |outcomes|
        invariant PingLoop(outcomes, sent, ip.Pings) == PingLoop(outcomes, 0, old(ip.Pings))
        invariant ip.Http80IsOpen == old(ip.Http80IsOpen) && ip.Http8080IsOpen == old(ip.Http8080IsOpen)
        decreases |outcomes| - sent
      {
        var result := outcomes[sent];
        sent := sent + 1;
        if result != Throws {
          ip.Pings := ip.Pings + 1;
          if result == Success {
            ip.IsReachable := true;
            return;
          }
        }
      }
      ip.IsReachable := false;
    }

    /** The port-80 stage: one GET, whose verdict goes to `Http80IsOpen` alone. */
    method GetHttp80(ip: IPAddressStatus, response: HttpResponse)
      modifies ip
      ensures ip.Http80IsOpen == HttpIsOpen(response)
      ensures ip.IsReachable == old(ip.IsReachable) && ip.Pings == old(ip.Pings)
      ensures ip.Http8080IsOpen == old(ip.Http8080IsOpen)
    {
      ip.Http80IsOpen := HttpIsOpen(response);
    }

    /** The port-8080 stage: one GET, whose verdict goes to `Http8080IsOpen` alone. */
    method GetHttp8080(ip: IPAddressStatus, response: HttpResponse)
      modifies ip
      ensures ip.Http8080IsOpen == HttpIsOpen(response)
      ensures ip.IsReachable == old(ip.IsReachable) && ip.Pings == old(ip.Pings)
      ensures ip.Http80IsOpen == old(ip.Http80IsOpen)
    {
      ip.Http8080IsOpen := HttpIsOpen(response);
    }
  }
}
