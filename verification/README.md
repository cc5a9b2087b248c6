# s3tap, verified

A Dafny model of the correlation path of s3tap, from bytes on the wire to one emitted record, with
proofs of what the program's comments argue for. `dafny verify dfyconfig.toml` checks all of it.

s3tap watches S3 clients from inside the kernel. Probes parse DNS messages and TLS hellos and report
socket state changes, connects, and the plaintext heads of requests and responses. Userspace folds the
reports, which arrive on two rings with no order between them, into one record per connection and one
per operation. Descriptors and socket addresses are recycled all the time, every map is capped, and
either ring may lose events; still no operation may be counted twice or lost, and what it is joined to
must be its own connection. The first is proved without reserve; for the second, `CorrelatorRings.dfy` and
`CorrelatorJoins.dfy` give the exact conditions.

| file | what it models |
|---|---|
| `Wrappers.dfy` | optional values, bytes, saturating arithmetic |
| `Eviction.dfy` | the batched eviction all capped maps share, and its amortized cost |
| `DnsNames.dfy` | the in-kernel name decoder, the userspace response parser, and their agreement |
| `HttpHead.dfy` | request and response heads, and the declared body length |
| `HttpMessages.dfy` | what a head composed as text is read back as: status, fields, declared length, request line |
| `HttpResolve.dfy` | bucket and key under every addressing style |
| `HttpTargets.dfy` | what a composed target and host are read back as, and the operation each query asks for |
| `CorrelatorState.dfy` | the correlator's state and each handler as a function of it |
| `Correlator.dfy` | the correlator as a class updated in place, method by method against those functions |
| `CorrelatorRuns.dfy` | whole runs, and the invariant every handler keeps |
| `CorrelatorLedger.dfy` | exactly-once emission |
| `CorrelatorAttribution.dfy`, `CorrelatorRings.dfy` | attribution, over every interleaving of the two rings |
| `CorrelatorLinks.dfy` | when a descriptor's link stands, from the run |
| `CorrelatorEmission.dfy`, `CorrelatorJoins.dfy` | what each record is joined to, at the fold that emits it, and whose life that is of |
| `CorrelatorTeardown.dfy` | whose connect or close aborts an operation |
| `CorrelatorLookups.dfy` | which answer, query and resolver call a dns block is from |
| `CorrelatorAgreement.dfy` | a connection's first operation against the connection's own record |
| `CorrelatorSlots.dfy` | what one event can do to one slot |
| `CorrelatorTally.dfy`, `CorrelatorClock.dfy` | the body tally and the latency phases |
| `CorrelatorRequests.dfy`, `CorrelatorResponses.dfy` | what a request's and a response's text does to the op and its record |
| `CorrelatorConnections.dfy` | a connection's record, from the events of the run |
| `CorrelatorEviction.dfy` | who goes when each map is full |
| `CorrelatorSequence.dfy` | request numbering |
| `CorrelatorFacts.dfy` | what a cookie stands for, over its recycled lives |
| `CorrelatorNames.dfy` | the DNS join |
| `TlsHello.dfy` | the ClientHello and ServerHello walks |
| `Splitmix.dfy`, `Sha256.dfy` | the generator, the hash and the MAC |
| `Sha256Standard.dfy` | the hash in the standard's own terms |
| `SockScope.dfy` | the decide-once scope of sockets |
| `ConnectPairing.dfy` | the pairing of descriptors with sockets |
| `SeatTable.dfy` | the allowlist of processes and the provenance of each seat |

Conventions. Strings stand for byte strings. A handler's choice that depends on the iteration order of
a hash map is a parameter of the event (`pick`, `order`), and the theorems hold for every choice.
Clocks, ring capacity, scope tests on the current task and image lookups are inputs of the event that
needs them. `State.flushed` is the queue of ops flushed outside their own return path.

Where the code and its comments part:

- `filter.rs` lines 309 to 312 describe a listed pid's seat as one an exec cannot invalidate. `main.rs`
  lines 3934 to 3948 write the startup scan's seats over the listed ones, so a listed pid that already
  matched the name scope is seated by name and loses its seat if its first exec is out of that scope.
  `SeatTable.ListedKeepsSeat` and `SeatTable.ListedSeatWithdrawn` are exact, for every listed pid.
- The same comment promises that a fork descendant of an explicit seat keeps it. An exec into the name
  scope retags it (`filter.rs` lines 353 to 361), and the next exec out of it withdraws it.
  `SeatTable.DescendantKeepsSeat` is the exact form, and `SeatTable.DescendantLosesSeat` gives the runs.
- `s3tap.bpf.c` lines 433 to 439 clear `tracked_socks` when a reused address connects out of scope, but
  not `sock_ts`. That is enough as long as the previous life's CLOSE was seen, or its entry evicted:
  `SockScope.UnseenCloseEmits` says exactly when it was not, and `SockScope.UnseenCloseRun` gets there from boot.
- `correlate.rs` lines 561 to 584 replace a recycled cookie's connection and clear its TLS facts so that a
  new connection cannot inherit an old one's. That holds from the new life's connect on. A conn_id (lines
  1022 to 1106) leaves both maps alone, so with the old life's close missed or not yet folded, until the new
  connect is folded and for good if it is lost, a new life's operations carry the old life's process, connect
  time, dns block and name, unmarked by the partial flag (lines 1659 to 1667). `CorrelatorJoins.JoinedLife` is the
  exact condition, `CorrelatorJoins.RecycledAddress` the input; it covers the same-process recycle that lines 536
  to 548 leave to the conn_id.
- `s3tap.bpf.c` lines 2187 to 2192 say a dropped conn_id only degrades an operation to partial, and `correlate.rs`
  lines 682 to 694 rest on every new conn_id being drained ahead of its plaintext. If the descriptor's
  earlier link still stands, the record is the earlier connection's, and not partial if its connect was seen:
  `CorrelatorJoins.MisjoinedExactly` is the exact condition, `CorrelatorJoins.RecycledAddress` covers the run.
- `correlate.rs` lines 525 to 548 take what a connect finds under its address for a dead connection's. An earlier
  life's connect, still behind in its ring when a later life's conn_id and request are folded, aborts that live
  request (`CorrelatorTeardown.LateConnect`). The stamps of lines 618 to 630 do keep a late close off a descriptor,
  but nothing guards a fallback slot (`CorrelatorTeardown.LateClose`). `CorrelatorTeardown.TeardownLife` is the
  exact condition.
- `correlate.rs` lines 657 to 663 say the second pass of a close emits nothing, for want of an open operation. A
  request whose cookie could not be inferred leaves the slot's last owner in place: `CorrelatorTeardown.ResidueAborts`.
- `correlate.rs` lines 1586 to 1588 call the first op's dns block byte-identical to its connection's. The op is
  built when it completes, the connection's record at close, from maps that change in between:
  `CorrelatorAgreement.FirstOpMatchesConnection` is the exact condition, `CorrelatorAgreement.LaterCallParts` an input.
- `http.rs` lines 310 to 320 strip one leading slash so that distinct keys stay distinct. They do in origin form
  (`HttpResolve.ObjectsStayDistinct`); `HttpResolve.SharedObject` is the exact form for any path.

## Model

| member | source | states |
|---|---|---|
| `Eviction.OldestKeys` | crates/s3tap-core/src/correlate.rs:150-186 | whatever order the map yields its entries in, the keys returned are the victims `n` rounds of single-oldest eviction take, in that order, exempt keys aside |
| `Eviction.SelectNth` | crates/s3tap-core/src/correlate.rs:165-180 | the partition step: a rearrangement with everything before the cut no later than anything after it |
| `Eviction.SortUnstable` | crates/s3tap-core/src/correlate.rs:181-186 | the batch ordered by timestamp, then key |
| `Eviction.BatchIsVictims` | crates/s3tap-core/src/correlate.rs:139-149 | a batch of the `n` smallest (timestamp, key) pairs is unique: it is what `n` rounds of remove-the-minimum give |
| `Eviction.VictimsAreBatch` | crates/s3tap-core/src/correlate.rs:139-149 | conversely those rounds give such a batch, oldest first |
| `Eviction.PassBounds` | crates/s3tap-core/src/correlate.rs:137-139 | one pass leaves the map at or below its cap with every exempt key still in it, for a burst of up to `cap` exempt keys |
| `Eviction.PassGap` | crates/s3tap-core/src/correlate.rs:115-123 | after a pass no other runs until max(1, cap/10) fresh keys have come in, one at a time, whatever is removed or overwritten meanwhile |
| `Eviction.AmortizedScan` | crates/s3tap-core/src/correlate.rs:115-129 | over any run the entries ever scanned, times the batch, stay within (cap + 1) per fresh insert |
| `DnsNames.DnsDecodeName` | bpf/include/s3tap_parse.h:70-119 | the in-kernel decoder over the reused scratch buffer answers for the bytes copied in alone; name, truncation flag and end offset are those of the specification |
| `DnsNames.DnsQueryWalk` | bpf/include/s3tap_parse.h:146-156 | a message with no question names nothing; otherwise the name is that of the first `len` bytes |
| `DnsNames.DnsResponseCopyLen` | bpf/include/s3tap_parse.h:169-186 | never past the datagram or the linear head, never a partial header, and the largest length those allow |
| `DnsNames.ParseDnsResponse` | crates/s3tap-core/src/correlate.rs:1787-1837 | the parsing loops compute the specification's id, question name and answer list |
| `DnsNames.SkipNameLoop` | crates/s3tap-core/src/correlate.rs:1765-1777 | the offset just past a name, within 128 labels |
| `DnsNames.ReadQnameLoop` | crates/s3tap-core/src/correlate.rs:1845-1865 | the question's name in canonical form, or nothing |
| `DnsNames.KernelDecodesLegalName` | bpf/include/s3tap_parse.h:70-119 | a legal name (section 3.1 of RFC 1035) is decoded whole, untruncated, at any offset of any message |
| `DnsNames.UserDecodesLegalName` | crates/s3tap-core/src/correlate.rs:1765-1865 | the userspace reader finds the same name and `skip_name` lands on the same offset as the in-kernel decoder |
| `DnsNames.QnameOfLegal` | crates/s3tap-core/src/correlate.rs:1739-1759 | canonicalizing a decoded legal name only lowers its case |
| `DnsNames.NamesAgree` | crates/s3tap-core/src/correlate.rs:867-895 | for a query and a response echoing its question in any letter case, the kernel's name, canonicalized, is the name read back from the response |
| `DnsNames.NameOnPrefix` | bpf/include/s3tap_parse.h:70-119 | a name reported complete on a clipped message is the name of the whole message |
| `DnsNames.ParseOnPrefix` | crates/s3tap-core/src/correlate.rs:1787-1837 | a clipped response yields the same id, the same name or none, and a prefix of the whole response's answers |
| `DnsNames.ResponseRoundTrip` | crates/s3tap-core/src/correlate.rs:1787-1837 | parsing an encoded response returns exactly its id, name and the A and AAAA addresses of its first 64 records |
| `DnsNames.ClippedRoundTrip` | crates/s3tap-core/src/correlate.rs:1787-1837 | clipped past its question, an encoded response still gives its id and name, and the addresses of exactly the records that survived whole, 64 at most |
| `DnsNames.NoName` | crates/s3tap-core/src/correlate.rs:1739-1759 | a field with a character no host name has, or of nothing but dots, is no name |
| `HttpHead.HeaderValueLoop` | crates/s3tap-core/src/http.rs:160-172 | the scan returns the first value of the header, before the blank line |
| `HttpHead.ParseRequestHead` | crates/s3tap-core/src/http.rs:66-104 | the request line taken apart and the Host header found, as the specification says |
| `HttpHead.ContentLengthLoop` | crates/s3tap-core/src/http.rs:190-215 | the scan over the header lines computes the declared length |
| `HttpHead.ContentLengthFrames` | crates/s3tap-core/src/http.rs:181-215 | a length is returned exactly when no Transfer-Encoding line precedes the blank line, some Content-Length does, and all of them say that number, at most 5 TiB (section 6.3 of RFC 9112) |
| `HttpHead.ContentLengthBound` | crates/s3tap-core/src/http.rs:173-179 | no declared length is above the bound, so the tally target stays far below saturation |
| `HttpHead.MessageLength` | crates/s3tap-core/src/http.rs:190-215 | of a whole message only the set of header lines has a say: not the first line, not the body |
| `HttpHead.ReorderedMessage` | crates/s3tap-core/src/http.rs:190-215 | permuting header lines never changes the length |
| `HttpHead.HeaderLinesOfMessage` | crates/s3tap-core/src/http.rs:451-458 | the header lines read back are the ones sent, whatever body follows |
| `HttpHead.HeaderEndOfMessage` | crates/s3tap-core/src/http.rs:217-224 | the body starts right after the head, whatever its bytes spell |
| `HttpMessages.RequestReadsBack` | crates/s3tap-core/src/http.rs:66-104 | a composed request is read as its method, its path, its query and its Host |
| `HttpMessages.RequestExactly` | crates/s3tap-core/src/http.rs:66-104 | a first line is a request's exactly when it is three words, one to sixteen capitals ahead and an HTTP/1 version behind |
| `HttpMessages.StatusReadsBack` | crates/s3tap-core/src/http.rs:106-124 | a composed response is read as the number its three digits write, if one from 100 to 599 |
| `HttpMessages.HeaderReadsBack` | crates/s3tap-core/src/http.rs:157-172 | the first field of the name, in any letter case and with spaces around it, is the value read |
| `HttpMessages.LengthReadsBack` | crates/s3tap-core/src/http.rs:181-215 | with no transfer coding and every Content-Length field writing `n` in decimal, zeros, a plus sign and spaces allowed, the length is `n` if at most 5,497,558,138,880; otherwise none |
| `HttpMessages.OneLengthLine` | crates/s3tap-core/src/http.rs:181-215 | one field `Content-Length: ` and the digits of `n` declares `n` |
| `HttpResolve.BucketFromEndpointSubdomain` | crates/s3tap-core/src/http.rs:401-424 | the loop over configured endpoints returns the labels ahead of the first one that ends the host |
| `HttpResolve.PathStyleReassembles` | crates/s3tap-core/src/http.rs:380-392 | a path-style result with a key puts the path back together as /bucket/key |
| `HttpResolve.PathStyleRoundTrip` | crates/s3tap-core/src/http.rs:380-392 | a composed /bucket/key path resolves to that bucket and that key |
| `HttpResolve.ResolveThenRebuild` | crates/s3tap-core/src/http.rs:349-392 | the path can be rebuilt from bucket and key for every host |
| `HttpResolve.ObjectsStayDistinct` | crates/s3tap-core/src/http.rs:310-320 | on one host, origin-form requests with the same bucket and key asked for the same path |
| `HttpResolve.SharedObject` | crates/s3tap-core/src/http.rs:426-445 | for any two paths on one host: they resolve to the same bucket and key exactly when they are the same once the slashes resolution strips are off, one in front of the path and, where the bucket is in the path, outside origin form one more in front of the key |
| `HttpResolve.KeyOfObject` | crates/s3tap-core/src/http.rs:380-392 | for any path and host a key comes back exactly when something is left of the path, past its bucket if that is in the path |
| `HttpResolve.Collapses` | crates/s3tap-core/src/http.rs:380-392 | both kinds of collapse: /k with k on every host, and in path style /b/k with b/k and with b//k, for every bucket and key |
| `HttpResolve.ObjectOpHasKey` | crates/s3tap-core/src/http.rs:126-155 | a GetObject, PutObject, HeadObject or DeleteObject label comes with a key |
| `HttpResolve.BucketOfComposed` | crates/s3tap-core/src/http.rs:226-272 | every nonempty bucket, even one containing a service label, comes back from a composed AWS host, in any letter case of the endpoint and with or without root dots |
| `HttpResolve.AwsEndpointForms` | crates/s3tap-core/src/http.rs:226-232 | the dotted, dash, dualstack and global endpoint forms all compose |
| `HttpResolve.PortIsStripped` | crates/s3tap-core/src/http.rs:274-291 | an all-digit port is taken off |
| `HttpResolve.OnlyPortsAreStripped` | crates/s3tap-core/src/http.rs:274-291 | and nothing but a colon and digits behind a name without colon or bracket ever is |
| `HttpResolve.VirtualHosted` | crates/s3tap-core/src/http.rs:349-364 | a virtual-hosted request resolves the same with and without a port: to its bucket and its whole path |
| `HttpTargets.OperationOf` | crates/s3tap-core/src/http.rs:126-155 | the operation for every method, path and query, as a table over composed parameters |
| `HttpTargets.TargetReadsBack` | crates/s3tap-core/src/http.rs:336-392 | on a composed AWS host, in each addressing style, a configured endpoint or a name under one, the bucket, key and label are those composed; on any other host there is no bucket and no label, and the key is the whole path |
| `CorrelatorState.KeyOrders` | crates/s3tap-core/src/correlate.rs:148-160 | every key type evicted by is totally ordered, so ties never fall to map order |
| `CorrelatorState.AnswersBound` | crates/s3tap-core/src/correlate.rs:1809-1812 | one response makes at most 64 addresses exempt |
| `Correlator.Correlator.constructor` | crates/s3tap-core/src/correlate.rs:466-484 | empty maps and a cap of at least 1 |
| `Correlator.Correlator.SetS3Endpoints` | crates/s3tap-core/src/correlate.rs:489-491 | the endpoints, lowercased; nothing else changes |
| `Correlator.Correlator.TakeFlushedOps` | crates/s3tap-core/src/correlate.rs:495-497 | hands over the queue and empties it |
| `Correlator.Correlator.FlushAndDropOp` | crates/s3tap-core/src/correlate.rs:1533-1553 | the slot is dropped, after what was open on it is queued as aborted, joined while its link still resolves |
| `Correlator.Correlator.FlushOpenOps` | crates/s3tap-core/src/correlate.rs:499-511 | every slot is flushed once, in some order |
| `Correlator.Correlator.OnConnect` | crates/s3tap-core/src/correlate.rs:521-600 | the whole new state: stale link torn down first, connection replaced, TLS facts cleared, cap enforced |
| `Correlator.Correlator.OnClose` | crates/s3tap-core/src/correlate.rs:602-845 | the whole new state, for a choice of fallback slot the map could have made, and the connection record |
| `Correlator.Correlator.FindBio` | crates/s3tap-core/src/correlate.rs:640-690 | an open op for the cookie is preferred to a residue, in any map order |
| `Correlator.Correlator.OnConnId` | crates/s3tap-core/src/correlate.rs:1022-1106 | the whole new state: slot cleared, links rebound both ways, the displaced key torn down, cap enforced with flushing |
| `Correlator.Correlator.OnTlsWrite` | crates/s3tap-core/src/correlate.rs:1116-1263 | the whole new state and the interrupted op, if any |
| `Correlator.Correlator.OnTlsRead` | crates/s3tap-core/src/correlate.rs:1265-1433 | the whole new state and the finished op, if any |
| `Correlator.Correlator.OnTlsReadBody` | crates/s3tap-core/src/correlate.rs:1444-1467 | the whole new state and the finished op, if any |
| `Correlator.Correlator.TallyBody` | crates/s3tap-core/src/correlate.rs:1469-1500 | bytes counted, or the op emitted once its length is met |
| `Correlator.Correlator.OnTlsHandshake` | crates/s3tap-core/src/correlate.rs:973-998 | the whole new state; a truncated or illegal name changes nothing |
| `Correlator.Correlator.OnTlsServer` | crates/s3tap-core/src/correlate.rs:1000-1020 | the whole new state; 0 never erases what was learned |
| `Correlator.Correlator.OnDnsQuery` | crates/s3tap-core/src/correlate.rs:843-863 | the whole new state |
| `Correlator.Correlator.OnDnsResponse` | crates/s3tap-core/src/correlate.rs:865-923 | the whole new state; a response whose name does not match leaves the query waiting |
| `Correlator.Correlator.OnGetaddrinfo` | crates/s3tap-core/src/correlate.rs:925-971 | the whole new state |
| `CorrelatorRuns.GoodFold` | crates/s3tap-core/src/correlate.rs:206-275 | no handler breaks the inverse links, a cap, or a slot |
| `CorrelatorRuns.GoodAlways` | crates/s3tap-core/src/correlate.rs:206-275 | in every reachable state `fd_links` and `fd_links_rev` are inverse, every map is within its cap, an open op has req_seq + 1 = next_seq, and one with a response still lacks body bytes |
| `CorrelatorLedger.FoldConserves` | crates/s3tap-core/src/correlate.rs:1533-1553 | each fold conserves every op id: inside, or returned, or newly given out |
| `CorrelatorLedger.ExactlyOnce` | crates/s3tap-core/src/correlate.rs:495-511 | of the ids 1..op_counter each is in exactly one place, returned, taken, queued or open on one slot; no other id is anywhere |
| `CorrelatorLedger.NoneLeftOpen` | crates/s3tap-core/src/correlate.rs:499-511 | after the final flush no slot is left and every id given out has been emitted once |
| `CorrelatorAttribution.AlwaysAttributed` | crates/s3tap-core/src/correlate.rs:1557-1560 | every link is its key's last conn_id, every open op descends from a request on its key with no conn_id since, every record tells of its own request |
| `CorrelatorAttribution.EveryRecordReports` | crates/s3tap-core/src/correlate.rs:1557-1562 | every record reports one request of the run, under the cookie it came with, else that of the last conn_id of its descriptor before the request, or none |
| `CorrelatorRings.NoForeignJoin` | crates/s3tap-core/src/correlate.rs:682-694 | under any interleaving of the two rings and any loss from either, a descriptor's record carries no cookie or that of the last conn_id delivered ahead of its request, so one the writing connection announced whenever that conn_id is its own |
| `CorrelatorRings.OwnResponses` | crates/s3tap-core/src/correlate.rs:1444-1458 | a read or body length credited to a descriptor's open op is behind the same conn_id as the op's request: of one connection, whenever each is of the connection its conn_id announced |
| `CorrelatorRings.LosingPlaintext` | crates/s3tap-core/src/correlate.rs:682-694 | losing a plaintext event changes for no other event whether it is of its last conn_id's connection |
| `CorrelatorRings.LosingConnId` | crates/s3tap-core/src/correlate.rs:682-694 | losing a conn_id hands the events behind it, up to the key's next one, to the conn_id before it |
| `CorrelatorEmission.FoldBuilds` | crates/s3tap-core/src/correlate.rs:1533-1553 | whatever a fold tears down, rebinds or completes, each record it emits is the one `build_op` gives on the state ahead of the fold, by the links, connections and names known then |
| `CorrelatorJoins.EveryRecordJoins` | crates/s3tap-core/src/correlate.rs:1557-1667 | over every run: each record reports a request and is emitted by a later fold, with process, connect time, dns block, bucket and partial flag as known ahead of that fold under the request's cookie |
| `CorrelatorJoins.JoinedLife` | crates/s3tap-core/src/correlate.rs:561-584 | with both rings traced: those facts are of the last connect, and the last hello, folded for the cookie by then, and of the life that wrote the request exactly when that life's own connect, or hello, was folded with no connect or close of the cookie after it |
| `CorrelatorJoins.MisjoinedExactly` | crates/s3tap-core/src/correlate.rs:1022-1106 | a descriptor's record carries the cookie of the conn_id that linked the descriptor, if nothing in the run has undone that link by the record's emission, else none; it is another connection's exactly when that conn_id, ahead of the request, is |
| `CorrelatorLinks.LinkStands` | crates/s3tap-core/src/correlate.rs:521-700 | over every run a descriptor is linked exactly when one of its conn_ids is undisturbed, to that conn_id's cookie and time |
| `CorrelatorLinks.LinkerIs` | crates/s3tap-core/src/correlate.rs:1022-1106 | undisturbed: no newer conn_id of the descriptor, none of the cookie elsewhere, no connect of it by another process, no close of it unstamped or stamped at or after the link, no eviction |
| `CorrelatorTeardown.TeardownLife` | crates/s3tap-core/src/correlate.rs:602-690 | over every run of both rings: an op a connect or close tears down is of an earlier life than the event's, its own or a later one; it was live exactly when the event was folded ahead of the writer's own connect; on a descriptor linked by the writer a stamped close is never an earlier life's, and a connect never the writer's own |
| `CorrelatorTeardown.LateConnect` | crates/s3tap-core/src/correlate.rs:525-556 | for every earlier and later life of a cookie in two processes: the earlier's connect, folded late, aborts the later's open op and drops its link, with every guarantee of the rings kept |
| `CorrelatorTeardown.LateClose` | crates/s3tap-core/src/correlate.rs:638-680 | for every fallback op: a close of its cookie aborts it, however stamped |
| `CorrelatorTeardown.ResidueAborts` | crates/s3tap-core/src/correlate.rs:657-680 | a close in its second pass aborts a request that came without a cookie on a slot last used by that close's |
| `CorrelatorLookups.EveryBlockTraced` | crates/s3tap-core/src/correlate.rs:1669-1715 | over every run the dns block of each record is from the last answer naming the endpoint of its connect, to a query of that answer's socket, id and name, timed by the last resolver call for that name if it ended by the connect, a cache hit exactly when no lookup for the name remembered at its fold was on the wire during it, else by query and answer |
| `CorrelatorLookups.ConnectionBlockTraced` | crates/s3tap-core/src/correlate.rs:704-711 | and so is the block of each connection's own record |
| `CorrelatorLookups.QueryAnswered` | crates/s3tap-core/src/correlate.rs:843-923 | from a query for any legal name, over whatever is folded after it, to its true answer in any letter case and clipped past the question: accepted, unless something newer was asked or answered under its socket and id or the waiting queries reached their cap |
| `CorrelatorJoins.RecycledAddress` | crates/s3tap-core/src/correlate.rs:521-600 | for every recycled cookie, process pair, descriptor and exchange: with the close and the next connect lost, or the next conn_id, the next life's record has the earlier life's process and connect time and is not partial |
| `CorrelatorAgreement.FirstOpMatchesConnection` | crates/s3tap-core/src/correlate.rs:1575-1590 | over every run: the first op emitted on a connection and the record made at its close carry the same process and connect time, unless its facts were evicted, and the same dns block exactly when answer and timing of its endpoint are alike at both folds; always when no answer and no resolver call came in between |
| `CorrelatorAgreement.LaterCallParts` | crates/s3tap-core/src/correlate.rs:1696-1705 | a run from the start, for every host, address and exchange, in which one later resolver call for the same host parts the two dns blocks |
| `CorrelatorConnections.ConnectionSays` | crates/s3tap-core/src/correlate.rs:695-845 | over every run, from events alone: a close's record has the process, start, endpoint, port, outcome and connect time of the cookie's last connect, the name of the last whole hello since, and the last nonzero version and cipher told since |
| `CorrelatorConnections.TlsAlwaysTraced` | crates/s3tap-core/src/correlate.rs:973-1020 | in every reachable state the TLS facts of a cookie are those its hellos told since its last connect |
| `CorrelatorRequests.RequestOpens` | crates/s3tap-core/src/correlate.rs:1121-1240 | a composed request opens an op with its method and length, and the bucket, salted key digest and label that its method, target and Host, or failing that the handshake's name, stand for |
| `CorrelatorRequests.RequestInterrupts` | crates/s3tap-core/src/correlate.rs:1161-1263 | what a request does to its slot: the op still open is returned as cut short, with its response's head or doubtful for want of one; the new op is numbered on, or from 0 if the fallback connection changed, and doubtful exactly if it found an op without a response |
| `CorrelatorRequests.HeadCut` | crates/s3tap-core/src/correlate.rs:1220 | a head is cut exactly when bytes were lost and no blank line was captured |
| `CorrelatorResponses.BodilessResponse` | crates/s3tap-core/src/correlate.rs:1352-1433 | a final head with no body to wait for returns the op at once with the status, request id and length its text writes, and no download or total time |
| `CorrelatorResponses.BodyResponse` | crates/s3tap-core/src/correlate.rs:1352-1433 | with a body of known length the op waits for the bytes the read did not bring, or is returned complete |
| `CorrelatorResponses.InterimResponse` | crates/s3tap-core/src/correlate.rs:1324-1351 | a 1xx head leaves the op waiting, with the first such head as its first response byte |
| `CorrelatorResponses.NoResponse` | crates/s3tap-core/src/correlate.rs:1324-1333 | data that is no response head changes nothing for an op without one |
| `CorrelatorEviction.ConnectionsGo` | crates/s3tap-core/src/correlate.rs:586-600 | past the cap a tenth of it goes, those begun no later than any that stay |
| `CorrelatorEviction.HandshakesGo` | crates/s3tap-core/src/correlate.rs:976-998 | likewise the TLS facts, by their last ClientHello |
| `CorrelatorEviction.LinksGo` | crates/s3tap-core/src/correlate.rs:1078-1106 | likewise the links, by their conn_id |
| `CorrelatorEviction.SlotsGo` | crates/s3tap-core/src/correlate.rs:1230-1263 | likewise the slots, by their last plaintext |
| `CorrelatorEviction.QueriesGo` | crates/s3tap-core/src/correlate.rs:847-863 | likewise waiting queries, by when they were asked, past 16384 |
| `CorrelatorEviction.AddressesGo` | crates/s3tap-core/src/correlate.rs:897-923 | likewise answered addresses, by their answer, those just answered exempt |
| `CorrelatorEviction.CallsGo` | crates/s3tap-core/src/correlate.rs:966-971 | likewise resolver calls, by when they ended |
| `CorrelatorEviction.ReadRefreshes` | crates/s3tap-core/src/correlate.rs:1265-1351 | an op's own read that carries its body or opens with a status line makes its slot the freshest, and touches no other |
| `CorrelatorSlots.FoldPasses` | crates/s3tap-core/src/correlate.rs:1533-1553 | a slot changes only by a request on it, by a read of its own, or by being reclaimed, and then its open op is queued as aborted |
| `CorrelatorSlots.ConnIdPasses` | crates/s3tap-core/src/correlate.rs:1030-1062 | a conn_id always clears its own key's slot |
| `CorrelatorTally.ContentBlind` | crates/s3tap-core/src/correlate.rs:1292-1322 | with a response in hand a read is a length: what it spells is never looked at |
| `CorrelatorTally.WholeResponse` | crates/s3tap-core/src/correlate.rs:1352-1500 | from the read that brings a final head: however head and body are split, the op is returned once, complete, by the event that takes the body bytes to the declared length, and not before |
| `CorrelatorTally.HeadStarts` | crates/s3tap-core/src/correlate.rs:1352-1399 | a final head starts the tally at the body bytes it brought, or completes the op at once |
| `CorrelatorTally.TallyRun` | crates/s3tap-core/src/correlate.rs:1475-1500 | over any run an op with a response is still open short of its length with every byte counted, or was returned by the first read that reached it, or was emitted as aborted; status, request id and length stay the first head's |
| `CorrelatorTally.ChunkingInvariant` | crates/s3tap-core/src/correlate.rs:1475-1500 | however the body is split into reads and body lengths, one and the same record is returned, on the read that reaches the length |
| `CorrelatorTally.BioGuard` | crates/s3tap-core/src/correlate.rs:1283-1291 | on the fallback slot an op holding a cookie is advanced or completed only by reads carrying that cookie or 0 |
| `CorrelatorClock.LatencyAdds` | crates/s3tap-core/src/correlate.rs:1591-1607 | with the ring's timestamps in order, total is request to head plus download, and the time to first byte is request to head unless an interim response came first |
| `CorrelatorSequence.SequenceStep` | crates/s3tap-core/src/correlate.rs:1175-1203 | of two successive requests on a key the second is numbered one up if the slot lived on and its fallback cookie did not change, else 0 |
| `CorrelatorSequence.FirstIsZero` | crates/s3tap-core/src/correlate.rs:1184-1203 | the first request a key ever sees is number 0 |
| `CorrelatorSequence.ConnIdRestarts` | crates/s3tap-core/src/correlate.rs:1055-1062 | after a conn_id for its key a request is number 0 |
| `CorrelatorNames.QueryRemembered` | crates/s3tap-core/src/correlate.rs:847-863 | a query for any legal name waits under its canonical form |
| `CorrelatorNames.TrueAnswerAccepted` | crates/s3tap-core/src/correlate.rs:867-923 | the true answer, in any letter case and clipped anywhere past its question, is never turned away: every address that survives names the host afterwards |
| `CorrelatorNames.OnlyTrueAnswers` | crates/s3tap-core/src/correlate.rs:867-895 | a response changes something exactly when its socket, id and name are those of a waiting query |
| `CorrelatorFacts.FactsAreLatest` | crates/s3tap-core/src/correlate.rs:561-584 | in every reachable state the connection kept under a cookie is of the last connect folded for it, with no close since, and its TLS name of the last whole hello since then |
| `CorrelatorFacts.HellosCommute` | crates/s3tap-core/src/correlate.rs:984-1020 | a ClientHello and a ServerHello merge to the same facts in either order |
| `TlsHello.ParseClientHelloSni` | bpf/include/s3tap_parse.h:207-296 | the walk over the reused scratch answers for the bytes copied in alone |
| `TlsHello.ParseServerHello` | bpf/include/s3tap_parse.h:298-349 | the walk over the reused scratch answers for the bytes copied in alone |
| `TlsHello.SniOnPrefix` | bpf/include/s3tap_parse.h:207-296 | a nonempty name reported untruncated on a clipped hello is the whole hello's |
| `TlsHello.ServerHelloOnPrefix` | bpf/include/s3tap_parse.h:298-349 | version and cipher of a clipped ServerHello are each 0 or the whole message's |
| `TlsHello.HelloRoundTrip` | bpf/include/s3tap_parse.h:222-296 | any well-formed hello with server_name among the first 64 extensions gives back exactly its name, cut at 255 bytes and then flagged (section 4.1.2 of RFC 8446, section 3 of RFC 6066) |
| `TlsHello.NoServerName` | bpf/include/s3tap_parse.h:222-296 | no server_name among the first 64 extensions: no name |
| `TlsHello.NoExtensions` | bpf/include/s3tap_parse.h:222-240 | no extensions block: no name |
| `TlsHello.ServerHelloRoundTrip` | bpf/include/s3tap_parse.h:298-349 | an encoded ServerHello, with supported_versions (43) first of its kind among the first 64 extensions, gives back that version and its cipher (section 4.1.3 of RFC 8446) |
| `TlsHello.ServerHelloLegacy` | bpf/include/s3tap_parse.h:298-349 | without that extension, the two octets of the legacy version and the cipher |
| `TlsHello.ServerHelloClipped` | bpf/include/s3tap_parse.h:298-349 | clipped ahead of it, no version, and the cipher |
| `Splitmix.Rng.NextU64` | crates/s3tap-replay/src/rng.rs:10-16 | the `drawn`-th output of the seed |
| `Splitmix.MixIsBijective` | crates/s3tap-replay/src/rng.rs:12-15 | the finalizer has an inverse on 64-bit words, on both sides |
| `Splitmix.StateIsLinear` | crates/s3tap-replay/src/rng.rs:10-12 | after `k` draws the state is seed + k times the increment, modulo 2^64 |
| `Splitmix.SeedsNeverCollide` | crates/s3tap-replay/src/rng.rs:42-47 | two different seeds differ in every output |
| `Splitmix.FullPeriod` | crates/s3tap-replay/src/rng.rs:10-16 | one generator's outputs j and k are equal exactly when j and k agree modulo 2^64 |
| `Splitmix.FirstOutputs` | crates/s3tap-replay/src/rng.rs:10-16 | from seed 0, the generator's published outputs |
| `Sha256.PadMessage` | crates/s3tap-core/src/hash.rs:26-32 | the padding loop appends 0x80, the least zeros, and the bit length |
| `Sha256.PadLength` | crates/s3tap-core/src/hash.rs:26-32 | the padded length is the first multiple of 64 that leaves room (section 5.1.1 of FIPS 180-4) |
| `Sha256.PadInjective` | crates/s3tap-core/src/hash.rs:26-32 | two messages pad alike exactly when they are the same, at any length |
| `Sha256.FillSchedule` | crates/s3tap-core/src/hash.rs:34-46 | the schedule array is the recursive message schedule, in spite of the order the terms are added in |
| `Sha256.CompressBlock` | crates/s3tap-core/src/hash.rs:48-68 | 64 rounds on eight variables updated in place are the standard's rounds (section 6.2 of FIPS 180-4) |
| `Sha256.Hash` | crates/s3tap-core/src/hash.rs:21-76 | the digest is the chained hash of the padded message |
| `Sha256.ChainSplits` | crates/s3tap-core/src/hash.rs:35-70 | hashing goes block by block: the value after whole blocks is where the rest starts |
| `Sha256.DigestContinues` | crates/s3tap-core/src/hash.rs:78-86 | a message's digest continues from the chaining value of its leading whole blocks |
| `Sha256.Hmac` | crates/s3tap-core/src/hash.rs:87-107 | section 2 of RFC 2104, for keys of every length |
| `Sha256.LongKey` | crates/s3tap-core/src/hash.rs:92-96 | an over-long key acts as its digest does |
| `Sha256.ZeroPaddedKey` | crates/s3tap-core/src/hash.rs:92-98 | a short key acts as itself with zeros appended |
| `Sha256Standard.RoundsRecur` | crates/s3tap-core/src/hash.rs:49-68 | the 64 rounds as two recurrences of depth four, the other six variables being earlier values |
| `Sha256Standard.ScheduleRecurs` | crates/s3tap-core/src/hash.rs:36-47 | the schedule as the recurrence over the words of the block, in the program's order of addition |
| `Sha256Standard.RoundRootsA` | crates/s3tap-core/src/hash.rs:8-17 | the round constants are what is behind the point in the cube roots of the first primes (section 4.2.2 of FIPS 180-4) |
| `Sha256Standard.InitialRoots` | crates/s3tap-core/src/hash.rs:22-24 | and the initial hash value in their square roots (section 5.3.3 of FIPS 180-4) |
| `Sha256Standard.BigSigma0Bits` | crates/s3tap-core/src/hash.rs:51-54 | each bit of a sigma function is the exclusive or of three bits above it, around the end of the word |
| `Sha256Standard.Padding` | crates/s3tap-core/src/hash.rs:26-33 | padding adds a one bit, zeros, and the length in bits as a 64-bit number |
| `Sha256Standard.DigestWords` | crates/s3tap-core/src/hash.rs:71-76 | the digest spells the eight words in order |
| `Sha256Standard.MacSpelled` | crates/s3tap-core/src/hash.rs:88-107 | the code under a key of at most a block, with both pads spelled out octet by octet |
| `SockScope.Probe.HandleSetState` | bpf/src/s3tap.bpf.c:405-668 | the two maps and the events emitted are those of the specification, branch by branch |
| `SockScope.Probe.HandleUdpSend` | bpf/src/s3tap.bpf.c:998-1020 | a resolver socket is marked or unmarked by its sender's scope |
| `SockScope.OnlyJudgedEmit` | bpf/src/s3tap.bpf.c:429-524 | once on the allowlist, nothing is emitted but for a life of that socket judged in scope at its SYN under the allowlist, whatever the LRU maps lost |
| `SockScope.UnseenCloseEmits` | bpf/src/s3tap.bpf.c:432-442 | the guarantee needs the CLOSE: after any run at all, an out-of-scope life has something emitted exactly when the last word on its address was a SYN judged in scope, with its CLOSE unseen, and no eviction took the entry since |
| `SockScope.LeftOverIs` | bpf/src/s3tap.bpf.c:443-524 | when an address has an entry left in scope, from the history alone |
| `SockScope.UnseenCloseRun` | bpf/src/s3tap.bpf.c:432-442 | a run from boot that gets there, for every address and process |
| `SockScope.OneConnectOneClose` | bpf/src/s3tap.bpf.c:443-668 | an in-scope life whose entries are not lost emits one connect, failed exactly when it closed straight out of SYN_SENT, then one close |
| `SockScope.LateLife` | bpf/src/s3tap.bpf.c:443-668 | a life first seen when it came up, in scope and with no entry lost, emits one connect of no process and no latency, then one close timed from there |
| `SockScope.UdpMarked` | bpf/src/s3tap.bpf.c:998-1020 | over every run a UDP socket is marked exactly when its last sender was on the allowlist and the mark has not been evicted |
| `ConnectPairing.Probe.HandleConnectEnter` | bpf/src/s3tap.bpf.c:2081-2104 | stashes the descriptor of a wanted call |
| `ConnectPairing.Probe.HandleConnectExit` | bpf/src/s3tap.bpf.c:2106-2135 | drops the stash and records that it runs |
| `ConnectPairing.Probe.EmitConnId` | bpf/src/s3tap.bpf.c:2162-2205 | emits or counts the loss; the stash is gone either way |
| `ConnectPairing.StashIsInFlight` | bpf/src/s3tap.bpf.c:2033-2046 | a stash exists only for a thread inside the connect() that wrote it |
| `ConnectPairing.ConnIdIsInFlight` | bpf/src/s3tap.bpf.c:2033-2046 | every conn_id carries the descriptor of the connect() in flight on its thread |
| `ConnectPairing.AnnouncedOnce` | bpf/src/s3tap.bpf.c:2162-2205 | one connect() is announced at most once |
| `ConnectPairing.ConnectAnnounced` | bpf/src/s3tap.bpf.c:2137-2205 | a surviving stash is announced with its own descriptor and socket, within 10 s if some call was seen to end and 50 ms if none was, and if the ring has room; else the loss is counted |
| `SeatTable.Filter.constructor` | crates/s3tap-cli/src/main.rs:3926-3949 | listed pids, then the startup scan written over them |
| `SeatTable.Filter.HandleExec` | crates/s3tap-cli/src/filter.rs:422-453 | the table after one exec, by the seat's provenance |
| `SeatTable.Filter.HandleFork` | bpf/src/s3tap.bpf.c:2278-2305 | a child inherits its parent's tag |
| `SeatTable.Filter.ReapDead` | crates/s3tap-cli/src/filter.rs:469-511 | dead seats dropped; every sixth tick the unseated matches re-admitted by name |
| `SeatTable.TickIs` | crates/s3tap-cli/src/filter.rs:455-511 | in any run, what a tick makes of any seat: the dead lose theirs, the living keep theirs, and at every sixth tick a process the scan saw is seated by name if there is room |
| `SeatTable.SeatsByNameMatch` | crates/s3tap-cli/src/filter.rs:303-315 | over every run, a live process seated by name runs an image the name matches |
| `SeatTable.TickLeavesLive` | crates/s3tap-cli/src/filter.rs:455-469 | after every tick only live processes are seated |
| `SeatTable.ListedKeepsSeat` | crates/s3tap-cli/src/main.rs:3934-3948 | a listed process keeps an explicit seat for life exactly when the startup scan did not find it |
| `SeatTable.ListedSeatWithdrawn` | crates/s3tap-cli/src/main.rs:3937-3948 | a listed pid that the scan found is seated through its whole life exactly when its first exec is not out of the name scope |
| `SeatTable.CgroupSeat` | crates/s3tap-cli/src/filter.rs:353-368 | an exec into the name scope from a listed cgroup makes the seat explicit, for as long as every later such exec is from one |
| `SeatTable.DescendantKeepsSeat` | crates/s3tap-cli/src/filter.rs:333-368 | a process with an inherited explicit seat keeps it exactly as long as it does not exec into the name scope and then out of it |
| `SeatTable.DescendantLosesSeat` | crates/s3tap-cli/src/filter.rs:333-368 | and for every such process a run that does so and loses the seat |

## Left out

- Regions (`aws_region_from_host`, `looks_like_region`) and the schema strings of versions and families: pure labels.
- The close event's pass-through counters (bytes, retransmits, congestion and receive state) and `on_tcp_sample`: copied field by field.
- Hexadecimal formatting of op ids and hashes, and overflow of the 64-bit id and 32-bit sequence counters: ids and sequence numbers are unbounded here.
- The salted key hash inside the correlator: kept symbolic there, and modelled for itself in `Sha256.dfy`.
- UTF-8: bytes above 127 are kept as characters no legal host name has; a head is not cut at an invalid sequence, and non-ASCII whitespace is not trimmed.
- Entropy for the salt, and one-wayness or collision resistance of the hash.
- Two fallback connections alive at once in one process: the code documents them as best effort; only the cookie guard is proved.
- eBPF loading, verifier barriers, CO-RE probing, `msg_first_iov`, the TLS content-type checks, the sampler and the HTTP prefix recognizers.
- `/proc` reading and `matches_app_exe`: whether an image matches is an input, and an unreadable one never does. `--cgroup` admission appears only as the listing that makes an exec's seat explicit.
- Overrun of the exec ring: a seat is revised at each exec, so an exec whose event is lost is outside the seat theorems.
- `below` and `next_f64` of the generator: one reduction each over `next_u64`.
- Record rendering, warnings, the analyzer and the advisor checks.
- ConnectPairing.ConnectAnnounced: does not cover a stash lost to LRU eviction; that loss is silent in the code too.
- SockScope.OneConnectOneClose: assumes no entry of the life is evicted and no ring loss; a simultaneous open that never comes up emits its close alone.
- Eviction.SelectNth: models the partition by its contract; its linear cost is not modelled.
- CorrelatorClock.LatencyAdds: the filtering of a zero time to first byte is kept, so that phase reads as absent when it is 0.
