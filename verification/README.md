# Load-balancer sampling in the docker-e2e network tests, in Dafny

The networking end-to-end tests of docker-e2e (`tests/network_test.go`) create
a replicated swarm service, look up the port the swarm published for the
service's container port 80, and then probe that port over HTTP. The external
load-balancer test (`TestNetworkExternalLb`) runs a sampling loop and a fairness
check side by side:

- **Sampling loop.** Each probe that succeeds yields an identity for the
  container that answered. The identity is the `Host` response header if it is
  non-empty, otherwise the response body with white space trimmed from both
  ends. The identity's hit count in a shared map goes up by one, or starts at
  one for a new identity. A failed request records nothing. So does a failed
  body read when the body is needed.
- **Fairness check.** It compares the number of distinct identities with the
  replica count. More identities than replicas is a permanent failure that also
  cancels the shared context. Fewer is a "not yet" failure. With exactly as
  many, every identity must have been seen at least twice; otherwise the check
  names one that has not.

This project models that bookkeeping:

- `ports.dfy` (module `Ports`): the published-port lookup. `PublishedPort` is the
  specification. `LookupPublished` is the loop with its `break`. The same loop
  appears twice in the source, at lines 61-69 and at lines 130-138.
- `token.dfy` (module `Token`): Go's `unicode.IsSpace` and `strings.TrimSpace`,
  the probe outcome (`Probe`) and the identity it yields (`Identity`).
- `registry.dfy` (module `Registry`):
  - The map update, `Recorded`.
  - The registry after a run of probes, `Tally`.
  - The verdicts the check may give, `Admits`.
  - The check's `range` loop, `FindUnderSampled`.
  - The class `SampleRegistry`. It holds the map and the cancellation flag,
    with methods `Record`, `Sample` (one locked pass of the sampling loop) and
    `Check`.
- `scenarios.dfy` (module `Scenarios`): two runs driven through the class. One is
  a round over three replicas that converges. The other sees four containers
  where three are expected.
- `wrappers.dfy`: an `Option` type.

The goroutine and the mutex are modelled as sequential calls: each call to
`Sample` or `Check` is one critical section. Go's map iteration order is
unspecified. So `FindUnderSampled` picks the next identity with `:|`, and
`Admits` accepts any under-sampled identity in the "not seen twice" verdict.

Three facts about the code that the model keeps:

- An empty `Host` value falls back to the body, whether the header is absent
  or present with an empty value. A body that is all white space is recorded
  as the identity "".
- One iteration already under way can still record after `cancel()`. The loop
  tests the context before it takes the lock. `Sample` therefore ignores
  `cancelled`.
- In the round A, B, A, C, B, A, C, B over three replicas, the check first
  succeeds after the seventh answer. `Scenarios.RoundRobin` shows this.

## Model

| member | source | states |
|---|---|---|
| `Ports.IndexOfTarget` | tests/network_test.go:133-137 | the index found has the wanted target port and no earlier entry has it; no index only when no entry has it |
| `Ports.PublishedPort` | tests/network_test.go:61-69 | the published port of the first entry whose target port is 80; 0 when no entry targets 80 |
| `Ports.LookupPublished` | tests/network_test.go:130-138 | the zero-initialised search loop with `break` returns exactly `PublishedPort` of the port list |
| `Token.IsSpace` | tests/network_test.go:200 | Go's `unicode.IsSpace`, the white space that trimming removes; `TrimSpaceIsTrimOf` states what trimming with it does |
| `Token.LeadingSpace` | tests/network_test.go:200 | the length of the white-space run at the start of the string: all of it is space, and the next character is not |
| `Token.TrailingSpace` | tests/network_test.go:200 | the length of the white-space run at the end of the string: all of it is space, and the character before it is not |
| `Token.TrimSpace` | tests/network_test.go:200 | the result has white space at neither end and is no longer than the input |
| `Token.TrimSpaceIsTrimOf` | tests/network_test.go:200 | for any split of the input into white space, a middle with no white space at either end, and white space, TrimSpace returns that middle |
| `Token.TrimSpaceSlice` | tests/network_test.go:200 | for every input, the result is the middle of some split of the input into white space, a middle with no white space at either end, and white space |
| `Token.TrimSpaceIdempotent` | tests/network_test.go:200 | trimming a trimmed string changes nothing |
| `Token.Identity` | tests/network_test.go:183-201 | no identity exactly when the request failed, or the `Host` value is empty and the body read failed; a non-empty `Host` value is the identity whatever the body; a body-derived identity has no white space at either end |
| `Token.IdentityFromBody` | tests/network_test.go:190-200 | with an empty `Host` value, the identity is the body with exactly its surrounding white space cut off |
| `Registry.Recorded` | tests/network_test.go:204-210 | the map after one probe answered by a token; `RecordedCounts` states its effect |
| `Registry.Step` | tests/network_test.go:183-210 | the map after one probe: unchanged when the probe yields no identity, otherwise `Recorded` with that identity; `TallyHits` states the effect of a run of steps |
| `Registry.Tally` | tests/network_test.go:165-217 | the map after a run of probes, one step per probe in order; `TallyHits` states each token's count |
| `Registry.Admits` | tests/network_test.go:224-242 | the verdicts the check may return on a map; `Check` returns one of them, and `AdmittedVerdictsAgree` shows they are all of one kind |
| `Registry.RecordedCounts` | tests/network_test.go:204-210 | recording raises the token's count by exactly 1 (from 0 to 1 for a new token); every other count is unchanged; the key set gains at most that token, so the distinct count grows by 1 for a new token and is otherwise unchanged; all counts stay positive |
| `Registry.TallyHits` | tests/network_test.go:176-210 | after a run of probes, a token is in the registry exactly when it was there before or some probe yielded it, and its count is its old count plus the number of probes that yielded it |
| `Registry.TallyGrows` | tests/network_test.go:204-210 | probes never remove a token or lower a count; the distinct count never decreases; counts stay positive |
| `Registry.TallyAppend` | tests/network_test.go:165-217 | processing two runs of probes one after the other equals processing their concatenation |
| `Registry.AdmittedVerdictsAgree` | tests/network_test.go:224-242 | two verdicts the check may give on the same registry and replica count are of the same kind |
| `Registry.ConvergedMeansEverySeenTwice` | tests/network_test.go:236-242 | success on the registry built from a run of probes means the probes reached exactly `replicas` distinct identities, each at least twice |
| `Registry.OvershootIsPermanent` | tests/network_test.go:224-230 | once there are more distinct identities than replicas, every later check on the grown registry is the overshoot verdict |
| `Registry.ConvergedIsStable` | tests/network_test.go:236-242 | after success, further probes that only reach already-seen identities leave the check successful |
| `Registry.FindUnderSampled` | tests/network_test.go:236-240 | returns some identity whose count is below 2, or nothing when every count is at least 2 |
| `Registry.SampleRegistry.constructor` | tests/network_test.go:141-152 | the registry starts empty and the context is not cancelled |
| `Registry.SampleRegistry.Record` | tests/network_test.go:204-210 | the map becomes `Recorded` of the old map; counts stay positive |
| `Registry.SampleRegistry.Sample` | tests/network_test.go:176-210 | the map becomes the old map with the probe's identity recorded, or stays unchanged when the probe yields none |
| `Registry.SampleRegistry.Check` | tests/network_test.go:221-243 | more identities than replicas: overshoot verdict and the context becomes cancelled; fewer: too-few verdict, cancellation unchanged; equal: success exactly when every count is at least 2, otherwise a verdict naming an identity with count below 2, which is exactly 1 because counts are positive; the registry is never modified |
| `Scenarios.BodyIdentity` | tests/network_test.go:192-200 | a response with no `Host` value and body " C\n" identifies container "C" |
| `Scenarios.RoundRobin` | tests/network_test.go:221-243 | for answers A, B, A, C, B, A (plus failed probes), the check names C as not seen twice; after a seventh answer from C, and again after an eighth, it succeeds |
| `Scenarios.TooManyContainers` | tests/network_test.go:224-230 | with four distinct identities and three replicas the check reports overshoot (3, 4), stays overshoot after a fifth identity, and the context is cancelled |

## Left out

- The Docker control-plane calls are not modelled: client creation, network create and remove, service create and inspect, node listing, and service cleanup. They are remote API calls or helpers defined in other files. The port list of an inspected service is an input to `LookupPublished`.
- The convergence poller (`WaitForConverge`), the scale check and the canned service spec are defined in files that are not part of this model. So timeouts, the poll interval and the poller stopping on cancellation are not modelled.
- The HTTP client, its transport and its 5-second timeouts are network I/O. Each probe outcome is an input value (`Probe`).
- The goroutine, the mutex, `time.Sleep` and context deadlines are concurrency and timing machinery. Calls are sequential, each one critical section. The loop-top test of the context (lines 166-171) is not modelled, because it happens outside the lock and does not stop an iteration already under way.
- The final `cancel()` after the poller returns (line 247) only stops the sampling loop, which is not modelled.
- The service-discovery probe is not modelled: its JSON decoding into a list of IP addresses (lines 72-84) is library code with only a length comparison on top.
- URL and port string composition (lines 70, 75-76, 139, 183) is trivial string concatenation.
- The testify assertions are reporting, not logic.
- Token.TrimSpace: works on decoded characters, not on the body's bytes. In Go, a body that is not valid UTF-8 keeps its raw bytes in the map key, so two different invalid bodies are two different keys. A Dafny string cannot hold such bytes, so the model does not represent those identities.
- Registry.Recorded: counts are unbounded naturals. Go's `int` overflows after 2^31 or 2^63 increments, depending on the platform; the model leaves that overflow out.
- Registry.SampleRegistry.Record: the same unbounded counts as `Recorded`, so the overflow is left out here too.
- The exact text of the check's error messages is not modelled; a verdict carries the expected and observed counts, or the identity named.
