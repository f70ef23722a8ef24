# ping-list-bot: a Dafny model of the probing pipeline

This project models how ping-list-bot decides things for each address. The bot
takes a list of IP addresses. For each one it creates a status record and calls
the echo request until five replies have come back or one of them is a
Success; a call that fails with an exception is retried without using up an
attempt. If the host is reachable, it then checks HTTP on
port 80 and on port 8080. Every record is collected. The summary then reports
that no addresses were processed when the list is empty, and otherwise gives
four totals. The model replaces each network call with the outcome that
call delivers, and runs the pipeline as one sequential pass.

- `models.dfy`, module `Models`: the status record `IPAddressStatus` as a class.
  `Address` is a constant. The four settable properties are mutable fields.
  `Record` is the read-only view of a record that the summary uses.
- `probes.dfy`, module `Probes`: the outcomes of the network calls.
  `PingLoop` is the specification of the ping retry loop, given the sequence of
  outcomes the echo calls deliver. `HttpIsOpen` is the port check's verdict on
  its single response.
- `probe_lemmas.dfy`, module `ProbeLemmas`: the ping loop described without the
  loop. `Counted` keeps only the calls that returned a reply, and
  `FirstSuccess` finds the first Success among them. These lemmas connect them
  to `PingLoop`.
- `reporting.dfy`, module `Reporting`: the summary totals, with `Count` standing
  for `_results.Count(predicate)`. Includes lemmas about order independence and
  bounds.
- `services.dfy`, module `Services`: the class `PingListBot`, holding the
  `results` list and the stages as methods. `Process` is the specification of
  one host's finished record.
- `pipeline_lemmas.dfy`, module `PipelineLemmas`: properties of a whole run,
  plus four scenarios over five hosts: a host found on the third ping, a host
  that never answers, a host whose failed calls use up no attempt, and a
  two-host run with its summary.

Some models of the environment:

- A host's network is a `Host` value. It holds the address, the outcome of each
  echo call in order (`Success`, `NonSuccess` or `Throws`), and the response
  to the GET on each port. That response is a status code or `Failed`, where
  `Failed` covers an exception, a refused connection or the two-second deadline.
- A ping call that throws is caught before `Pings++` runs, so it does not use
  up an attempt. The loop therefore ends only if the calls eventually return
  five replies, or return a Success. `PingIP` and `Start` require that the
  given outcomes end the loop (`PingExits`). `AllThrowsNeverExits` shows that
  when every call throws, no number of calls ends the loop.
- A port counts as open exactly when `IsSuccessStatusCode` holds for its
  response, that is for a status of 200–299, the 2xx class of section 15.3 of
  RFC 9110. `HttpClient` follows redirects before the status is read.
- The URL is `http://{address}:{port}` with the address exactly as the address
  file gives it. For every unbracketed IPv6 literal, and for a bracketed one
  followed by a port such as `[::1]:8080`, that is no valid absolute URL, so
  the GET throws before any network call and the port is reported closed. A
  bracketed literal such as `[::1]` gives a valid URL and is probed like any
  other address. The model takes each response as given, so a `Host` for an
  address of the first kind must carry `Failed` for both ports.

Behaviour of the code that a reader might not expect; the model follows the
code:

- A failed ping call does not use up an attempt. In the code,
  `Pings++` comes after the awaited call, inside the `try`. A throwing call
  therefore uses up no attempt, and a host whose calls always throw keeps the
  loop running for ever.
- The bot processes its addresses only once. `StartAsync` completes the input
  block (line 58), and the links pass that completion on to the later blocks,
  so a second `StartAsync` clears `_results` (line 55), has every `SendAsync`
  refused, and finds the output block already complete (line 59). The list
  stays empty, and `PrintSummary` then takes the "no IP addresses were
  processed" branch. The model keeps this in the flag `ran`.

## Model

| member | source | states |
|---|---|---|
| `Models.IPAddressStatus.constructor` | src/Core/Models/IPAddressStatus.cs:3-9 | A new record has `Address` equal to its argument. `IsReachable` is false, `Pings` is 0, and both port flags are false. `Address` is a constant and can never change. |
| `Probes.PingLoop` | src/Core/Services/PingListBot.cs:99-123 | The ping loop specification. When the loop ends, the calls it made lie within the given outcomes. If reachable: the last call returned Success, and `Pings` rose above its start value but is at most 5. If not reachable: `Pings` is exactly 5, or its start value if that was already 5 or more. |
| `Services.PingListBot.PingIP` | src/Core/Services/PingListBot.cs:99-123 | The `while` loop ends with `IsReachable`, `Pings` and the number of echo calls matching `PingLoop` from the record's starting `Pings`. Only `Pings` and `IsReachable` change. |
| `ProbeLemmas.PingLoopCharacterized` | src/Core/Services/PingListBot.cs:101-118 | Two facts about the replies still to come (the calls that did not throw). The loop ends exactly when those replies contain a Success or fill the remaining budget. It reports reachable exactly when the first Success lies within the budget, and `Pings` then goes up by that Success's 1-based position. |
| `ProbeLemmas.PingsCountReplies` | src/Core/Services/PingListBot.cs:105-118 | `Pings` goes up by exactly the number of calls that returned a reply. A call that throws leaves `Pings` unchanged. |
| `ProbeLemmas.FreshPingRun` | src/Core/Services/PingListBot.cs:101-122 | Starting from `Pings == 0`, the loop ends with `1 <= Pings <= 5`. It reports reachable exactly when a Success is among the first five replies. In that case `Pings` is the 1-based position of the first Success among the replies, and the last call made returned Success. Otherwise `Pings == 5`, and at least five replies came back. |
| `ProbeLemmas.AllThrowsNeverExits` | src/Core/Services/PingListBot.cs:101-119 | If every call throws, then however many calls there are, the loop entered below 5 has not ended. |
| `Probes.HttpIsOpen` | src/Core/Services/PingListBot.cs:137-149 | A port is open exactly when its one request got a response whose status code is in the 2xx class. A failure or timeout gives closed. |
| `Services.PingListBot.GetHttp80` | src/Core/Services/PingListBot.cs:125-129 | Sets `Http80IsOpen` to the verdict on the one port-80 response. No other field of the record changes. |
| `Services.PingListBot.GetHttp8080` | src/Core/Services/PingListBot.cs:131-135 | Sets `Http8080IsOpen` to the verdict on the one port-8080 response. No other field of the record changes. |
| `Services.PingListBot.RunHost` | src/Core/Services/PingListBot.cs:35-49 | A fresh record is created from the address and pinged. The finished record is `Process` of the host. The ports that get an HTTP request are exactly 80 and then 8080 for a reachable record, and none for an unreachable one. |
| `Services.Process` | src/Core/Services/PingListBot.cs:45-49 | A host's finished record keeps its address and has `1 <= Pings <= 5`. An unreachable record has `Pings == 5` and both ports closed. A reachable record carries the verdict on each port's response. |
| `PipelineLemmas.ProcessDecidedByReplies` | src/Core/Services/PingListBot.cs:99-122 | A host is reachable exactly when a Success is among the first five replies. `Pings` is then the position of the first Success among the replies; otherwise it is 5. |
| `PipelineLemmas.UnreachableNeverProbed` | src/Core/Services/PingListBot.cs:45-46 | An unreachable host's record is the same whatever the two HTTP responses would have been. No port probe touches it. |
| `Services.PingListBot.constructor` | src/Core/Services/PingListBot.cs:28-50 | A new bot has an empty result list, and its pipeline has not yet been completed (`!ran`). |
| `Services.PingListBot.Start` | src/Core/Services/PingListBot.cs:53-60 | The list is cleared first, and afterwards the pipeline is complete (`ran`). On the bot's first run the list then holds one fresh, distinct record per input host, in input order, each that host's finished record. On any later run the list stays empty. |
| `Services.PingListBot.HandleOutputs` | src/Core/Services/PingListBot.cs:62-64 | The output stage appends the record, and only the record, to the result list, and leaves the pipeline's completion unchanged. |
| `Services.PingListBot.PrintSummary` | src/Core/Services/PingListBot.cs:72-97 | Gives the "no IP addresses were processed" branch exactly when the result list is empty. Otherwise gives the totals of `SummaryOf` over the collected records. |
| `Reporting.SummaryOf` | src/Core/Services/PingListBot.cs:74-95 | The empty branch happens exactly for no records. Otherwise the total is the number of records, and each of the other three totals is at most that. |
| `Reporting.Count` | src/Core/Services/PingListBot.cs:93-95 | The number of records that satisfy a predicate is at most the number of records. |
| `Reporting.CountMatchesIndices` | src/Core/Services/PingListBot.cs:93-95 | `Count` equals the number of positions in the list whose record satisfies the predicate: each such record is counted once, and no other. |
| `Reporting.SummaryCountsRecords` | src/Core/Services/PingListBot.cs:92-95 | For a non-empty list, the reachable, HTTP-80 and HTTP-8080 totals are the numbers of collected records that are reachable, have port 80 open, and have port 8080 open. |
| `Reporting.CountPermutation` | src/Core/Services/PingListBot.cs:93-95 | Two lists holding the same records, as multisets, give the same count in any order. |
| `Reporting.SummaryOrderIndependent` | src/Core/Services/PingListBot.cs:92-95 | Result lists that are permutations of each other give the same summary. So completion order does not affect the totals. |
| `Reporting.SummaryBounds` | src/Core/Services/PingListBot.cs:92-95 | When no record has an open port without being reachable: HTTP-80-open ≤ reachable ≤ total, and HTTP-8080-open ≤ reachable. |
| `PipelineLemmas.RunSummary` | src/Core/Services/PingListBot.cs:55-95 | After a run, the summary takes the empty branch exactly when there were no hosts. Otherwise total is the number of hosts, HTTP-80-open ≤ reachable ≤ total, and HTTP-8080-open ≤ reachable. |
| `PipelineLemmas.ScenarioReachable` | src/Core/Services/PingListBot.cs:45-49 | Success on the third ping, port 80 failing and port 8080 answering 200 give: reachable, `Pings` 3, port 80 closed, port 8080 open. |
| `PipelineLemmas.ScenarioUnreachable` | src/Core/Services/PingListBot.cs:101-122 | Five non-success replies give: unreachable, `Pings` 5, both ports closed, whatever the HTTP responses. |
| `PipelineLemmas.ScenarioThrowsNotCounted` | src/Core/Services/PingListBot.cs:105-118 | The calls throw, reply NonSuccess, throw, then reply Success. The result is reachable with `Pings` 2. |
| `PipelineLemmas.ScenarioTwoHosts` | src/Core/Services/PingListBot.cs:92-95 | One reachable host and one unreachable host give total 2 and reachable 1. The port totals count only the reachable host's ports. |

## Left out

- Services.PingListBot.PingIP: requires that the given outcomes end the loop (`PingExits`). On a stream that never ends the loop, the source never returns. `AllThrowsNeverExits` is what the model says about that case.
- Services.PingListBot.Start: requires the same of every host on the first run, for the same reason.
- Services.PingListBot.Start: does not state which HTTP requests a whole run sends. That two GETs go to each reachable host and none to an unreachable one is proved per host, by `RunHost`'s `ports`, and `Start` drops that list.
- The TPL Dataflow blocks (links, unbounded parallelism, completion propagation, `SendAsync`, `Task.WhenAll`). The link at line 46 has no `PropagateCompletion`. The model instead runs one sequential pass. It does not capture interleaving or the order in which items complete. `SummaryOrderIndependent` shows that this order does not affect the totals.
- `Ping.SendPingAsync`, `HttpClient.GetAsync`, the 1000 ms and 2 s timeouts and the `CancellationTokenSource`. They are network I/O and wall-clock time. They appear only as the outcomes in `Host`. Redirect following inside `HttpClient` happens before the model gets the response status.
- Building the URL `http://{address}:{port}`. The port number changes only which response the network gives, and in the model each port's response is already given separately. The form of the address is not modelled either: for every unbracketed IPv6 literal, and for a bracketed one followed by a port such as `[::1]:8080`, the URL is not valid, so the GET throws before any network call and the port is closed. `RunHost` and `Start` take the responses as given, so a `Host` for such an address must carry `Failed` for both responses to match the program.
- Console output in `HandleOutputs` and `PrintSummary`, including the table layout and `DateTime.Now`. This is I/O; `PrintSummary` returns the branch it takes and the four totals instead.
- The address provider (`IIPAddressProvider`, `FileIPAddressProvider` with its file reading and `IPAddress.TryParse`). The input is a given list of hosts.
- src/Program.cs (command-line argument handling) and `Dispose` (releasing the HTTP client) are not part of this model.
