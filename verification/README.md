# fprobe core in Dafny

A model of the sequential core of fprobe, a concurrent HTTP/HTTPS prober. It
takes a list of host names, CIDR blocks or `host,port,...` lines and prints
the URLs that answer. Two parts of `main.go` are modelled, with their helper
in `similar.go`:

- **Target generation.** Each input line is trimmed. It then becomes an
  ordered list of *dispatches*: a host string handed either to the HTTPS
  worker pool or to the HTTP worker pool. Four modes are tried in a fixed
  order: CIDR expansion (`-cidr`), ports on the same line (`-l`), an
  explicit scheme (`^(http|ws)s?://`), and last the bare host plus the `-p`
  probe specs. The named lists `medium`, `large` and `xlarge` select
  built-in port tables.
- **Workers and the fingerprint gate.** A worker prefixes the host with its
  scheme and probes the URL. It prints the URL, or a JSON record under `-v`,
  when the probe works. Under `-detect-similar` a probe works only if the
  response's fingerprint is new. The fingerprint is the SHA-1 of the sorted
  header names and the sorted cookie names. An HTTPS task then hands its
  host to the HTTP pool, unless it succeeded and `-prefer-https` is set. A
  WaitGroup counter is raised before every dispatch and lowered when each
  task ends. `main` waits until it is back to zero.

Modules, leaf first:

- `Wrappers`: `Option`.
- `Sequences`: generic facts about sequences, used by the proofs.
- `Strings`: Go's `TrimSpace`, `Split`, `SplitN(…, 2)` (as `Cut`), `Join`,
  `HasPrefix` and `TrimPrefix`.
- `Sorting`: `sort.Strings`.
- `Hex`: the `%x` rendering.
- `Similarity`: `similar.go`.
- `Fingerprint`: `getHash`.
- `Ports`: the port tables.
- `Generator`: the body of the input loop.
- `Prober`: `isWorking`.
- `Dispatcher`: the pools, the WaitGroup and the whole run.

The model takes the outside world as parameters:

- The transport result of each request is a function of the URL and the
  attempt number.
- The CIDR library is a function from the line to its address list, or to
  `None` when the line does not parse.
- SHA-1 is any function from strings to 20-byte digests.

## Behaviour of the code worth knowing

- `xlarge` holds 70 ports (main.go:33).
- The bare host, every CIDR address, every same-line port and every
  named-list port are dispatched to the HTTPS pool only. Their HTTP probe
  comes from the follow-up rule (main.go:158-167).
- A `-p` spec is split at its first `:` (main.go:262). Only the protocol
  `http`, exactly, reaches the HTTP pool. Any other text before the colon
  goes to HTTPS, for example `https`, `HTTP` or `ftp`. A spec without a
  colon is skipped.
- `ws://` and `wss://` lines match the scheme pattern, but nothing is
  stripped from them. They are probed as `https://ws://…` (main.go:229-237).
- In same-line mode the line is trimmed as a whole, but the host field is
  not trimmed again: `a ,8080` probes `a :8080` (main.go:215-224).

## Model

| member | source | states |
|---|---|---|
| Strings.TrimSpace | main.go:189 | the trimmed line neither starts nor ends with Go white space (`unicode.IsSpace`) and is no longer than the input |
| Strings.TrimSpaceFactor | main.go:189 | the input is white space, then the trimmed line, then white space: trimming removes exactly the white space at both ends and nothing inside |
| Strings.TrimSpaceIdempotent | main.go:189 | trimming an already trimmed line changes nothing |
| Strings.Split | main.go:215 | there is at least one field, no field contains the separator, and joining the fields with it gives back the line |
| Strings.SplitJoin | main.go:215 | the inverse direction: splitting a join of separator-free fields gives back the fields |
| Strings.SplitTrailingSeparator | main.go:215 | a trailing comma adds exactly one empty last field |
| Strings.Cut | main.go:262-265 | `SplitN(p, ":", 2)`: `None` exactly when there is no colon; otherwise a colon-free protocol, the colon, and the rest, which rebuild the spec |
| Strings.CutUnique | main.go:262 | any split of a spec at a colon whose left part has no colon is the one `Cut` returns |
| Sorting.Sort | main.go:299 | the result is sorted in Go's string order and is a permutation of the names |
| Sorting.SortedUnique | main.go:299-305 | two sorted lists with the same elements are equal |
| Sorting.SortIgnoresOrder | main.go:299-305 | permuted name lists sort to the same list |
| Hex.Encode | main.go:333 | `%x` gives two lowercase hex digits per byte |
| Hex.DecodeEncode | main.go:333 | decoding the hex text gives back the digest bytes |
| Hex.EncodeInjective | main.go:333 | two digests print the same exactly when they are equal |
| Similarity.NewSimilar | similar.go:14-18 | a new registry holds no hash |
| Similarity.Add | similar.go:21-28 | the size comparison returns true exactly when the hash was absent, and afterwards the set is the old set plus that hash |
| Similarity.FirstAddIsNew | similar.go:14-28 | the first `Add` on a new registry returns true |
| Similarity.AddTwice | similar.go:20-28 | two `Add`s of one hash return true then false, and the second leaves the set unchanged |
| Similarity.AddAll | similar.go:21-28 | over any sequence of atomic `Add`s, a hash is accepted exactly when neither the starting set nor an earlier call held it; the final set is the start plus every hash |
| Similarity.AcceptedOnce | similar.go:21-28 | a repeated hash is rejected at every later occurrence, and a hash new to the registry is accepted at its first |
| Fingerprint.GetHash | main.go:328-334 | the fingerprint is 40 lowercase hex digits that decode to the SHA-1 digest of `join(headers, ",") + "," + join(cookies, ",")` |
| Fingerprint.CanonicalFields | main.go:329-331 | `Canonical`, the hashed string: split at its commas it gives back the header names followed by the cookie names, for comma-free names and at least one of each |
| Fingerprint.SameHashIffSameDigest | main.go:332-333 | two fingerprints agree exactly when the digests of their canonical strings agree |
| Fingerprint.OfIgnoresOrder | main.go:294-306 | `Of`, the fingerprint of a response (names sorted, then hashed), does not depend on the order of the header names or of the cookie names |
| Fingerprint.CanonicalCollides | main.go:329-331 | the canonical string is not injective: header list `a,b` with cookie `c` and header `a` with cookies `b,c` give the same string |
| Fingerprint.AddedHeaderChangesCanonical | main.go:295-306 | one more non-empty header name changes the canonical string that is hashed |
| Ports.NamedListOf | main.go:245-261 | only the exact values `medium`, `large`, `xlarge` name a table, and none of them contains a colon |
| Ports.Table | main.go:31-33 | the medium, large and xlarge tables hold 3, 15 and 70 ports |
| Generator.MatchesSchemeIffPrefix | main.go:29 | `MatchesScheme`, the scheme pattern (`http` or `ws`, an optional `s`, then `://`), accepts exactly the lines starting with `http://`, `https://`, `ws://` or `wss://` |
| Generator.SchemeDispatch | main.go:229-237 | the HTTP pool is chosen exactly for `http://` lines; an `http://` or `https://` line is probed at the URL written; a `ws://` or `wss://` line goes to HTTPS unchanged |
| Generator.WithPorts | main.go:247-259 | one dispatch of `host:port` per port, in table order |
| Generator.CidrDispatches | main.go:198-212 | one HTTPS dispatch per expanded address, in expansion order, and none on a parse failure |
| Generator.PortFields | main.go:220-225 | every kept port is trimmed and non-empty, every non-blank field's trimmed value is kept, and no more ports than fields |
| Generator.PortFieldsOne | main.go:220-225 | a single field is dropped when blank and otherwise kept trimmed; with `PortFieldsAppend` this determines `PortFields` on every list |
| Generator.PortFieldsAppend | main.go:220-225 | fields are handled one at a time, in order |
| Generator.SameLineDispatches | main.go:214-226 | HTTPS only; nothing for fewer than two fields; fewer dispatches than fields; the dispatches themselves are given by `GenerateSameLinePorts` |
| Generator.SpecDispatches | main.go:245-272 | a named list gives one HTTPS dispatch of `line:port` per table port, in table order; a colon-free other spec gives nothing; at most 70 dispatches |
| Generator.ExplicitSpec | main.go:261-271 | `proto:port` gives exactly one dispatch of `line:port`, to HTTP exactly when `proto` is `http` |
| Generator.ProbeHostsExtendLine | main.go:244-273 | every dispatch a spec adds is for `line:` followed by a port |
| Generator.ProbeDispatchesAppend | main.go:244-273 | `ProbeDispatches` handles the specs one after another: the dispatches of a list of specs are those of its parts, in order |
| Generator.ProbeDispatchesOne | main.go:244-273 | a single spec gives exactly its own dispatches; with `ProbeDispatchesAppend` this determines `ProbeDispatches` on every list |
| Generator.HttpOnlyFromHttpSpecs | main.go:244-272 | when no spec starts with `http:`, every spec dispatch goes to HTTPS, named lists included |
| Generator.DefaultDispatches | main.go:239-272 | without `-s` the first dispatch is the bare line on HTTPS; after it (or from the start under `-s`) come exactly the `-p` spec dispatches, `ProbeDispatches(line, probes)`; see also `GenerateDefault` |
| Generator.Generate | main.go:188-273 | a blank line yields nothing; CIDR and same-line modes feed only the HTTPS pool |
| Generator.GenerateLine | main.go:198-273 | for a trimmed line, in CIDR and same-line modes every dispatch goes to the HTTPS pool; the order of the modes is stated by `GenerateCidr`, `GenerateSameLine`, `GenerateScheme` and `GenerateLineDefault` |
| Generator.GenerateCidr | main.go:198-212 | CIDR mode overrides every other switch: one HTTPS dispatch per address in order, or nothing on a parse failure |
| Generator.GenerateSameLine | main.go:198-226 | without `-cidr`, same-line mode takes every non-blank line, whatever the scheme pattern, `-s` and `-p` say |
| Generator.GenerateSameLinePorts | main.go:188-226 | the same-line rule: for a trimmed line `host,f1,...,fn`, one HTTPS dispatch of `host:` plus the trimmed field per non-blank field, in field order; the host is used as it stands |
| Generator.SameLineUntrimmedHost | main.go:189-225 | `a ,8080` gives exactly one dispatch, `a :8080` on HTTPS: the space before the comma stays in the host |
| Generator.GenerateScheme | main.go:229-237 | an `http://` or `https://` line yields exactly one dispatch, whatever `-s` and `-p` say, probed at the URL written |
| Generator.GenerateWebSocket | main.go:229-235 | a `ws://` or `wss://` line yields exactly one HTTPS dispatch of the whole line |
| Generator.WebSocketLine | main.go:229-235 | a `ws://` or `wss://` line matches the scheme pattern and its dispatch is the whole line on HTTPS |
| Generator.GenerateLineDefault | main.go:198-244 | a line that is not a CIDR or same-line entry and does not match the scheme pattern falls through to default mode |
| Generator.GenerateDefault | main.go:188-272 | a non-blank line that is not CIDR, same-line or a scheme line gives the bare host on HTTPS unless `-s`, followed by every `-p` spec's dispatches in order |
| Generator.DefaultSkip | main.go:239-272 | in default mode the bare-host dispatch comes first; with `-s` what remains is exactly the `-p` spec dispatches |
| Generator.SkipDefaultDropsOnlyBareHost | main.go:239-244 | `-s` removes only the first, bare-host dispatch; the `-p` expansion is unchanged |
| Generator.SameLineTrailingComma | main.go:214-226 | a trailing comma adds no dispatch |
| Generator.GenerateTrailingComma | main.go:188-226 | the same for a whole trimmed line in same-line mode |
| Generator.SameLineTwoPorts | main.go:214-226 | `host,p1,p2` gives `host:p1` and then `host:p2`, both on HTTPS |
| Prober.IsWorking | main.go:278-326 | a transport error fails and leaves the registry untouched; success means a response with a new fingerprint when a registry exists; a duplicate is rejected as "similar", distinct from a transport error; the fingerprint is inserted on every response; metadata exists exactly for a success under `-v` and holds the URL, status and three header values |
| Prober.LookalikeSuppressed | main.go:294-311 | of two responses with the same header and cookie names in any order, the second is rejected as similar |
| Dispatcher.Start | main.go:119-121 | the run starts with nothing pending and a counter of zero; an empty registry exists exactly under `-detect-similar` |
| Dispatcher.Submit | main.go:204-206 | every dispatch raises the counter with the pending tasks, so counter = number of pending tasks is kept |
| Dispatcher.BlankLineChangesNothing | main.go:194-196 | a blank line leaves the pending tasks and the counter unchanged |
| Dispatcher.Finish | main.go:125 | `wg.Done()` removes exactly the finished task and keeps counter = number of pending tasks |
| Dispatcher.FollowUp | main.go:158-167 | at most one follow-up, always the same host on the HTTP pool, and one exactly when the task was HTTPS and did not succeed under `-prefer-https` |
| Dispatcher.Complete | main.go:124-168 | a finished HTTPS task for `u` leaves exactly one new HTTP task for `u` unless it succeeded under `-prefer-https`; an HTTP task leaves none; the counter still equals the pending tasks; the registry is the one `isWorking` left |
| Dispatcher.CompletePrints | main.go:128-136 | a success prints exactly one line, the probed URL or under `-v` its JSON record; a failure prints nothing |
| Dispatcher.CompleteUsesWeight | main.go:145-168 | each task ends with strictly less outstanding work, and exactly one unit less without `-prefer-https` |
| Dispatcher.ReplaceWeight | main.go:166-167 | replacing a task by at most one HTTP follow-up lowers the outstanding work by one or by the task's own weight |
| Dispatcher.Drain | main.go:275 | in any completion order the wait ends with nothing pending and a zero counter; there are at least as many probes as tasks and at most one extra per HTTPS task, exactly one extra without `-prefer-https`; the registry only grows |
| Dispatcher.ProbeAll | main.go:188-275 | over all lines, the number of probes is between the number of dispatches and that plus the HTTPS ones (equal to the latter without `-prefer-https`), with at most one printed line per probe |

## Left out

- Flag parsing, the input file and standard input, the scanner error, and the
  `os.Exit` paths (main.go:72-117, main.go:171-193). These are I/O; the model
  starts from the scanned lines.
- The fasthttp client, TLS, dialing and `DoTimeout` (main.go:55-70,
  main.go:280-289). These are a foreign network library. The transport
  outcome is an input, and the timeout race is left to the transport.
- The ants pools, their sizes (`concurrency/2`), real parallelism, the
  blocking of `Invoke`, and the mutex in `Similar`. These are concurrency.
  Pending tasks may be completed in any order, and `Add` is one atomic step.
- `Invoke` errors, which the code ignores. An `Invoke` is assumed to always
  accept the task.
- JSON marshalling and all printing. A printed line is a `Report` value, and
  the debug messages to standard error are not modelled.
- The CIDR library (`cidr.ParseCIDR`, `ForEachIP`) and SHA-1 internals. They
  are foreign and are passed as functions.
- Dispatcher.ProbeAll: submits every line's dispatches before any task
  completes. In the program, generation and probing interleave. The
  probe-count bounds do not depend on the schedule, but the order in which
  the registry sees fingerprints does.
- Fingerprint.AddedHeaderChangesCanonical: proves that the hashed string
  differs, not the fingerprint. SHA-1 is uninterpreted here, so a collision
  cannot be ruled out.
- Ports.Table: states the table sizes only. The entries are copied verbatim
  from the source. They are distinct and ascending, but that is not proved.
- Go strings are bytes; here they are sequences of characters, and white
  space is Go's `unicode.IsSpace` on characters. For valid UTF-8, byte order
  and code point order agree, so sorting is unaffected.
