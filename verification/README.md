# A verified model of 2nnel

2nnel gives services behind a firewall public names and ports: clients keep one control session to a
server, register HTTP and TCP tunnels on it, and can promote a project directory to an app that the
server runs itself. This project models the server's registry and control sessions, the promotion
pipeline, the byte streams between the two programs, and the printers and parsers that must undo each
other, and proves what they promise.

`dafny verify dfyconfig.toml` checks everything.

## How it is organised

The registry is modelled in layers that are tied together by proof.

- `RegistryModel` holds the value of the registry (three maps, the clients' tunnel lists, the open
  sockets), one function a critical section, and the relations these keep; `RegistryFacts` proves that
  each critical section keeps them. `Registry` and `Control` are the program's own form: classes whose
  methods update maps, lists and sockets in place, proved to compute those functions.
- `Sessions` interleaves the handlers. Every critical section, every `net.Listen` and every reply is one
  step, and a handler has a program counter between them. `SessionSafety` says what holds in every
  reachable state, and exactly which step ends the exclusivity of subdomains.
- `Serial` takes whole operations as steps; there the maps are exact. `SerialRuns` proves that each
  serial run is a run of `Sessions`. `Eviction` has what promotions do to tunnels; `Counts` and `Routing` build on
  the exact maps.
- `Locks` looks below the critical sections, at single lock operations and accesses.

`Promote` interleaves uploads, stops and dismissals step by step; `PromoteOwners` says exactly which
steps lose a directory; `PromoteOrder` has premises on schedules that rule these out, and `PromoteLeaks` schedules that
show each premise needed; `Deploy` has uploads and stops as methods and proves that each, taken alone, is
one of those runs. `Tarball` packs and extracts, on `PathClean`.
`WSConn`, `DataStream`, `Json`, `Utf8` and `ByteStreams` are the streams; `AdminRouter`, `UrlPath`,
`PublicUrl` and `TunnelSpecs` the printer and parser pairs; `Heartbeat` and `Handshake` the timing and
the opening of a session. `Protocol` has the messages, `GoStrings` the string functions of Go's library.

What comes from outside is an input of the model: whether `net.Listen` is granted, how the foreign
work of a promotion turns out, which messages arrive and when, which local addresses answer, how a
base URL parses.

## Results that are not plain confirmations

- Two clients can hold one subdomain: the check and the store are separate critical sections
  (`SessionSafety.SubdomainRace`). A step, and a run, ends exactness exactly with such a stale store.
- A handler that has found no app on its subdomain can store it after one has appeared there
  (`SessionSafety.AppRace`); `SessionSafety.ApartExactly` gives the exact steps.
- A request can be answered with "tunnel entry missing": the lookup and the scan are separate critical
  sections, and the tunnel can be removed between them (`Routing.MissingReached`).
  `Routing.RouteLater` gives the exact condition.
- A promotion evicts by tunnel name. A tunnel named otherwise than its subdomain survives
  (`Eviction.EvictionMisses`); `Eviction.OverlapExactly` gives the exact condition.
- The promotion pipeline can leak a directory. Under every schedule a directory has one owner at most
  (`PromoteOwners.NeverTwoOwners`), and a step leaks exactly when it publishes over an app, or deletes an
  app's entry, whose directory is on disk (`PromoteOwners.LeaksExactlyWhenLosing`). Four premises on schedules
  rule this out, and none follows from the other three: for each there is a leaking schedule that keeps
  the others (`PromoteLeaks.EveryPremiseNeeded`).
- A kept file whose path starts with two dots is packed but not extracted (`Tarball.TwoDotsLost`,
  `Tarball.RoundTripComplete`).
- A heartbeat that is echoed after exactly 90 seconds can come too late (`Heartbeat.EchoAtTheDeadlineIsTooLate`).
- The dashboard's URLs do not address a tunnel whose name is a dot segment (`AdminRouter.DotNameUnreached`).
  `AdminRouter.RouterUndoesUrls` has the exact condition, also for ids; those the server gives out, 32
  hexadecimal digits, always meet it.
- A TCP specification whose port has a plus sign or leading zeros, or is zero, is accepted but prints
  back differently (`TunnelSpecs.LeadingZerosLost`, `TunnelSpecs.PrintUndoesParse`).

## Model

| member | source | states |
|---|---|---|
| RegistryEffects.AddClientDoes | internal/server/server.go:262-266 | the client gets an empty list; everything else stays |
| RegistryEffects.RegisterHTTPDoes | internal/server/server.go:293-301 | the tunnel is last on its client's list and its subdomain leads there; every other list, key, port and socket stays |
| RegistryEffects.RegisterTCPDoes | internal/server/server.go:303-311 | the same for the port |
| RegistryEffects.RemoveClientDoes | internal/server/server.go:268-291 | the client's list goes, with exactly the subdomains, ports and sockets its tunnels had; every other stays |
| RegistryEffects.RemoveTunnelDoes | internal/server/server.go:335-359 | the first tunnel of the name, of whatever kind, is cut out of its list, its subdomain or its port and socket go, and everything else stays; without such a tunnel nothing changes |
| RegistryEffects.SetDirDoes | internal/server/dashboard.go:375-385 | the first tunnel of the name gets the directory and its flag, its other fields and everything else stay |
| Registry.Registry.AddClient | internal/server/server.go:262-266 | the client enters the id map; the new registry is the one of `RegistryModel.AddClient` |
| Registry.Registry.RemoveClient | internal/server/server.go:268-291 | the in-place loop over maps and sockets leaves exactly `RegistryModel.RemoveClient`, and no map points to a missing client |
| Registry.Registry.RegisterHTTP | internal/server/server.go:293-301 | the subdomain leads to the client and the tunnel is appended to its list, nothing else changes |
| Registry.Registry.RegisterTCP | internal/server/server.go:303-311 | the same for the port |
| Registry.Registry.LookupHTTP | internal/server/server.go:313-318 | the entry is the one of the client the subdomain map has, null exactly when it has none |
| Registry.Registry.IsSubdomainTaken | internal/server/server.go:320-325 | true exactly for the subdomains of the map |
| Registry.Registry.IsPortTaken | internal/server/server.go:327-332 | true exactly for the ports of the map |
| Registry.Registry.RemoveTunnelByName | internal/server/server.go:335-359 | in place, only the first tunnel of that name goes, of whatever kind, with its map entry and its socket; the result says whether there was one |
| Registry.Registry.Snapshot | internal/server/server.go:389-425 | every live client once, each with a copy of its tunnels in order: name, type, endpoint, address, directory |
| Registry.Registry.SetTunnelDir | internal/server/dashboard.go:367-386 | the first tunnel of that name gets the directory, whatever else is in the list stays |
| Registry.Registry.DashboardTotals | internal/server/dashboard.go:186-206 | the totals are those of the tunnel lists over every client once, and in every state with exact maps they are the sizes of the three maps |
| Counts.MapSizesCount | internal/server/metrics.go:25-29 | in every state with exact maps and for every order of traversal, the map sizes are the numbers of clients, HTTP tunnels and TCP tunnels |
| Control.Server.PickTCPPort | internal/server/server.go:104-114 | the loop finds the first port of the range that the port map does not have, or none; none without a range |
| Control.Server.RouteRequest | internal/server/http_proxy.go:19-50 | lookup and scan decide as `Routing.Route` |
| Control.Server.EvictAfterPromote | internal/server/deploy.go:325-333 | the registry becomes the one after the serial eviction |
| Control.ControlHandler.HandleRegister | internal/server/control.go:146-158 | one reply is sent, and registry and reply are those of the serial registration |
| Control.ControlHandler.RegisterHTTP | internal/server/control.go:160-196 | both refusals and the store, with the URL in the reply |
| Control.ControlHandler.RegisterTCP | internal/server/control.go:198-262 | all four refusals and the store; the port is the one asked for or picked |
| SessionSafety.PortsExclusive | internal/server/control.go:225-247 | in every interleaving two registered TCP tunnels never share a port, and the port map leads to a client exactly when it holds a TCP tunnel there |
| SessionSafety.OpenSocketsOwnedOnce | internal/server/control.go:232-247 | in every interleaving the open sockets are exactly those of one registered tunnel or of one handler between Listen and registration, each owned once |
| SessionSafety.GoneLeavesNothing | internal/server/server.go:268-291 | a client that left is in no map and owns no open socket, and never comes back |
| SessionSafety.RoutesLive | internal/server/control.go:52-59 | every subdomain entry leads to a live client with a matching tunnel, and a handler that registers always finds its own entry |
| SessionSafety.AnsweredInOrder | internal/server/control.go:146-262 | every decoded registration is answered once and in order, with the URL of its subdomain or of an allowed port, the one asked for if there is one; a client's tunnels were made by a subsequence of the registrations answered positively, each with the URL of its tunnel |
| SessionSafety.ExactUnlessStale | internal/server/control.go:165-188 | from an exact state a step leads to an exact state if and only if it is not a store of a subdomain taken since the check |
| SessionSafety.RunExactUnlessStale | internal/server/control.go:165-188 | a run keeps the subdomain map exact and subdomains exclusive at every point if and only if none of its steps is such a store |
| SessionSafety.SubdomainRace | internal/server/control.go:165-188 | a reachable state in which two live clients hold one subdomain |
| SessionSafety.ApartExactly | internal/server/control.go:172-188 | from a state in which no routed subdomain is an app, a step leads to one with such a subdomain if and only if a handler stores one that has become an app since its check, or an app appears on a routed one |
| SessionSafety.AppRace | internal/server/control.go:172-188 | a reachable state with a subdomain that is both, by way of a stale check |
| Sessions.NextInv | internal/server/control.go:88-143 | every step of handlers and admin requests keeps the registry's invariant |
| Sessions.RunInv | internal/server/control.go:88-143 | so does every run, of any length and any number of clients |
| Serial.SubdomainsExclusive | internal/server/control.go:160-188 | with check and store as one step: a subdomain leads to a client exactly when that client holds it, in one place only |
| Serial.RegistrationExact | internal/server/control.go:160-247 | after any run, a registration succeeds if and only if no live client holds the subdomain and no app has it, or, for TCP, the port asked for or least free is allowed, held by no tunnel and granted by the system; it appends one matching tunnel to its client's list and changes no other, and a refusal changes nothing |
| Serial.RegistrationHolds | internal/server/control.go:180-258 | on success the new tunnel has the fields asked for, its subdomain or port leads to the client, a TCP tunnel has a new open socket on its port, and the answer carries its URL |
| Serial.RefusalsExplained | internal/server/control.go:165-238 | which reason a refusal gives, said of the lists, in the order of the checks |
| Serial.AutoPortIsLeastFree | internal/server/server.go:104-114 | after any run, an automatic registration gets the least port of the range that no tunnel holds and fails exactly when the whole range is held |
| Eviction.EvictionExact | internal/server/deploy.go:325-333 | after a promotion the subdomain leads to no client if and only if it led to none or the client's first tunnel of that name is the HTTP tunnel on it |
| Eviction.EvictionDoes | internal/server/deploy.go:325-333 | eviction removes from the client the subdomain leads to, and from no other, its first tunnel of that name |
| Eviction.OverlapExactly | internal/server/deploy.go:321-333 | from a state in which no subdomain is both a tunnel and an app, an operation leads to one with an overlap if and only if it is a promotion whose eviction misses |
| Eviction.RunOverlapExactly | internal/server/deploy.go:321-333 | a run has no overlap at any point if and only if none of its promotions misses |
| Eviction.EvictionMisses | internal/server/deploy.go:325-333 | a client joins, registers the name `web` on subdomain `app`, and `app` is promoted: then `app` is both a tunnel and an app |
| Eviction.NeverTunnelAndApp | internal/server/deploy.go:321-333 | with tunnels named after their subdomain, no subdomain is ever both a tunnel and a deployed app |
| SerialRuns.OpIsRun | internal/server/control.go:160-262 | each serial operation is a run of the interleaved system in which nothing else happens |
| SerialRuns.RunIsRun | internal/server/control.go:88-143 | and so is each run of them |
| SerialRuns.SerialIsReachable | internal/server/server.go:85-97 | from a start with any loaded apps, the registry after a serial run is one the interleaved system reaches |
| Routing.RequestsDecided | internal/server/http_proxy.go:19-50 | after any serial run and for every host: the index page is shown if and only if the host, less its port, has no label below the base domain; for the others the search decides on that label |
| Routing.RouteSound | internal/server/http_proxy.go:27-50 | when the lookup and the scan see one state, whichever state an interleaving reaches, the entry is not missing and the chosen tunnel is an HTTP tunnel of a live client with the request's subdomain |
| Routing.RouteLater | internal/server/http_proxy.go:27-50 | when any steps come between them and the client is still live, the entry is missing if and only if the client has lost its HTTP tunnel on the subdomain, and a chosen tunnel is one it has |
| Routing.MissingReached | internal/server/http_proxy.go:38-50 | a reachable state from which a removal between lookup and scan leads to the missing-entry answer |
| Routing.RouteIsLinearSearch | internal/server/http_proxy.go:19-50 | after any serial run the indexed decision is the one of a linear search over all clients' tunnels and then the apps |
| Routing.RegisteredUrlRoutes | internal/server/control.go:188-194 | a request for the host in the URL that a registration returned goes to the tunnel just registered |
| PublicUrl.ExtractExactly | internal/server/http_proxy.go:76-95 | for every host, the subdomain is the nonempty label without dots that the host less its port has below the base domain, or before its first dot without a base; otherwise it is empty |
| PublicUrl.UrlLeadsToServer | internal/server/server.go:145-177 | the URL of a registration shows the configured scheme, leads to the configured port, shown or by default, and names the subdomain below the public host name |
| PublicUrl.TcpUrlReads | internal/server/control.go:249-254 | the URL of a TCP registration ends in its port, behind the domain or in brackets |
| PublicUrl.ExtractHost | internal/server/http_proxy.go:76-95 | for any host and port, the subdomain is extracted back if and only if there is no base domain or it is the host's |
| PublicUrl.UrlExtractsBack | internal/server/server.go:145-177 | the same for the URL a registration returns, whatever scheme and port it shows |
| Locks.RoutinesDisciplined | internal/server/server.go:268-425 | every routine writes a tunnel list with both locks held exclusively, reads it with at least one, takes locks in one order, and a client's control lock with nothing held |
| Locks.NoConflict | internal/server/server.go:268-425 | in every interleaving of single lock operations, no two goroutines are about to touch the same maps, list or directory when one writes |
| Locks.NoWaitCycle | internal/server/server.go:227-234 | no reachable state has a cycle of waiting goroutines, with writers that hold back new readers |
| Locks.NeverStuck | internal/server/dashboard.go:362-392 | whenever a goroutine has something left to do, some step is enabled |
| PromoteOwners.NeverTwoOwners | internal/server/deploy.go:207-388 | under every schedule, whatever fails, a directory belongs to one upload in flight or one deployed app at most, and an upload's directory is on disk |
| PromoteOwners.LeaksExactlyWhenLosing | internal/server/deploy.go:321-388 | from a state without a leak a step leads to one if and only if it publishes over an app of its name, or a stop deletes an app's entry, while that app's directory is on disk |
| PromoteOwners.LeakFreeExactly | internal/server/deploy.go:207-388 | a run is free of leaks at every point if and only if none of its steps is of that kind |
| PromoteOrder.DirectoriesConserved | internal/server/deploy.go:207-322 | so over any orderly run, on success and on every failure, every directory on disk has its one owner, and an app's directory is on disk unless a stop has just removed it |
| PromoteOrder.NothingLeftBehind | internal/server/deploy.go:213-304 | once uploads and stops are over, the disk has the apps' directories and no others |
| PromoteOrder.NamesExclusive | internal/server/deploy.go:187-222 | a name has one upload past its checks at most, and none while its app is deployed but the one about to clear its pending entry |
| PromoteOrder.NoSecondAdmission | internal/server/deploy.go:187-194 | no step admits an upload of a name that is running or deployed |
| PromoteLeaks.CheckRaceLeaks | internal/server/deploy.go:191-221 | a schedule that keeps every premise but the one on checks leaks: two uploads look before either stores its pending entry |
| PromoteLeaks.EarlyDismissalLeaks | internal/server/dashboard.go:40-44 | one that keeps every premise but the one on dismissals leaks: the entry of a running build is dismissed |
| PromoteLeaks.CompletionBetweenChecksLeaks | internal/server/deploy.go:187-191 | one that keeps every premise but the one on clearing leaks: an upload completes between the two checks of another |
| PromoteLeaks.OverlappingStopsLeak | internal/server/deploy.go:357-388 | one that keeps every premise but the one on stops leaks: two stops of one app overlap a new upload |
| PromoteLeaks.EveryPremiseNeeded | internal/server/deploy.go:187-388 | each premise is needed beside the other three |
| Deploy.Deployments.HandlePromoteUpload | internal/server/deploy.go:187-322 | what each way an upload can end leaves in the maps and on disk |
| Deploy.Deployments.StopApp | internal/server/deploy.go:357-388 | the app's entry and directory go, and nothing else |
| Deploy.AloneIsRun | internal/server/deploy.go:187-322 | that outcome is what the interleaved system reaches when only this upload steps |
| Deploy.StopAloneIsRun | internal/server/deploy.go:357-388 | the stop method's outcome is what the interleaved system reaches when only this stop steps |
| Tarball.Packer.Visit | internal/client/promote.go:125-184 | the walk appends exactly the entries of the walk function |
| Tarball.WalkPacksKept | internal/client/promote.go:125-184 | the archive has a file's entry exactly when no directory above it is pruned and its base is not dropped, contents unchanged |
| Tarball.PrunedExactly | internal/client/promote.go:117-162 | which directories are not entered, by name, and that the others are as the ignore file says |
| Tarball.WalkOnce | internal/client/promote.go:125-184 | every packed file is in the archive once |
| Tarball.TargetBelow | internal/server/deploy.go:547-555 | for every entry name the target lies strictly below the directory, and there is one exactly for the names that stay inside |
| Tarball.PrefixTestRejectsDot | internal/server/deploy.go:548-555 | for a relative name that does not start with two dots the prefix test rejects exactly `.` |
| Tarball.Extractor.ExtractTarball | internal/server/deploy.go:528-578 | the loop leaves the disk and the verdict of the extraction function |
| Tarball.VerdictExactly | internal/server/deploy.go:538-577 | extraction succeeds if and only if the archive is whole and no entry in its turn finds a file above its place or a directory in it |
| Tarball.ExtractionStaysBelow | internal/server/deploy.go:536-578 | outside the directory no file changes, whatever the archive and whether or not it fails |
| Tarball.RoundTrip | internal/client/promote.go:112-190 | extracting a packed tree gives exactly the kept files with their contents, less those whose path starts with two dots |
| Tarball.RoundTripComplete | internal/server/deploy.go:547-550 | nothing kept is lost if and only if no kept path starts with two dots |
| Tarball.TwoDotsLost | internal/server/deploy.go:547-550 | a file `..env` at the top is packed and not extracted |
| PathClean.CleanRules | internal/server/deploy.go:547 | doubled slashes and `.` elements go, and an ordinary element goes with the `..` behind it |
| PathClean.CleanRoot | internal/server/deploy.go:547 | above the root there is nothing but the root |
| PathClean.CleanFixes | internal/server/deploy.go:547 | paths in normal form are clean |
| PathClean.CleanIdempotent | internal/server/deploy.go:547 | cleaning a path twice is cleaning it once |
| PathClean.DotsLead | internal/server/deploy.go:547-548 | in a cleaned path `..` occurs only as a leading run, and not at all in a rooted one |
| WSConn.Conn.Read | internal/proto/wsconn.go:28-49 | a read returns the next bytes of the current message, none but with an error or into an empty buffer, and fails exactly when no byte is left; empty messages are passed over |
| WSConn.Conn.Write | internal/proto/wsconn.go:51-60 | the socket gets a fresh buffer with the caller's bytes |
| WSConn.StreamKept | internal/proto/wsconn.go:28-60 | over any run of writes and reads, bytes read and bytes pending are together the bytes written, in order |
| WSConn.AnyChunkingReadsBack | internal/proto/wsconn.go:28-60 | any cutting into writes and any buffer sizes read back the same stream |
| DataStream.Reader.ReadBytes | internal/client/proxy.go:21-26 | the line ends at the first delimiter and the rest of the stream is kept, in whatever pieces it arrives |
| DataStream.Reader.CopyAll | internal/client/proxy.go:69-78 | buffered bytes first, then all that still arrives |
| DataStream.HandleDataStream | internal/client/proxy.go:17-81 | the outcome is that of the stream's bytes alone, in whatever pieces they come |
| DataStream.StreamOutcome | internal/client/proxy.go:33-61 | on every stream with a header: the address is the header's, else that of the first configured tunnel of the name; without one nothing is dialled; a failed dial is answered with a 502 if and only if that tunnel is no TCP one; else exactly the payload is forwarded |
| DataStream.BadHeaders | internal/client/proxy.go:21-31 | without a newline the header is missing, a first line that does not parse is malformed |
| DataStream.Choose | internal/client/proxy.go:34-45 | the address is the header's or else the first configured tunnel's of that name, which also gives the type |
| DataStream.HeaderIsOneLine | internal/server/util.go:44-60 | the encoded header has no raw newline and decodes to the same header, for all names and addresses |
| DataStream.HeaderAndPayloadArrive | internal/client/proxy.go:21-78 | for every header and payload the client recovers the header and forwards exactly the payload |
| DataStream.HandleArriving | internal/client/proxy.go:17-81 | in whatever pieces they arrive |
| Json.ParsePrint | internal/server/util.go:44-50 | the decoder undoes the encoder, escapes included |
| Json.PrintedMembers | internal/proto/messages.go:115-118 | the two members of the header, by name and in order |
| Json.LongEscapes | internal/server/util.go:44-50 | characters that HTML would interpret, and line separators, are printed by code point |
| Json.QuoteReads | internal/server/util.go:44-50 | a printed string reads back and leaves what follows it |
| Utf8.EncodedForm | internal/server/util.go:44-50 | the number of bytes of a character, and the ranges of the first one and of the tails |
| Utf8.DecodeEncode | internal/server/util.go:44-50 | every string's bytes decode to it |
| AdminRouter.RouterUndoesUrls | internal/server/dashboard.go:22-80 | a command's URL reaches that command with the same id and name if and only if no segment is a dot segment, only the last is empty, and the id has no `/tunnels/` before the separator |
| AdminRouter.DispatchUndoesPath | internal/server/dashboard.go:22-80 | the same for the decoded path, for all names, the router's own words included |
| AdminRouter.AppRequests | internal/server/dashboard.go:32-44 | the requests for uploads, logs, stops and dismissals, as they are written |
| AdminRouter.ClientRequests | internal/server/dashboard.go:45-50 | those for a client |
| AdminRouter.TunnelRequests | internal/server/dashboard.go:51-76 | those for a client's tunnel, for ids without a slash |
| AdminRouter.PlainIsAddressable | internal/server/web/index.html:376-428 | ids and names that are nonempty, no dot segments and, for ids, free of slashes always qualify |
| AdminRouter.OnlyItsPath | internal/server/dashboard.go:22-80 | a path reaches a command only if it is that command's path, or one of six short forms: the separator before a name doubles as the one before the last word, or the bare root |
| AdminRouter.DotNameUnreached | internal/server/web/index.html:376-428 | no tunnel command reaches its handler by its URL when the tunnel's name is a dot segment, whatever the id |
| UrlPath.PathOfUrl | internal/server/web/index.html:376 | percent-encoded segments arrive as they were |
| UrlPath.CleanUrl | internal/server/server.go:49-51 | the multiplexer passes a URL on unchanged if and only if no segment is a dot segment and only the last is empty |
| TunnelSpecs.ParseTunnelSpecs | cmd/client/main.go:364-399 | the list is accepted exactly when each specification is, keeps length and order, and otherwise fails with the first bad one |
| TunnelSpecs.AcceptedExactly | cmd/client/main.go:367-395 | a specification is accepted as TCP if and only if it reads `name:host:port:tcp`, or that with a proper port behind, and as HTTP if and only if it has two colons or more and neither form |
| TunnelSpecs.HttpPrintsBack | cmd/client/main.go:387-394 | an accepted HTTP specification is its name, a colon and its local address |
| TunnelSpecs.TcpFields | cmd/client/main.go:373-386 | an accepted TCP specification is made of its name, local address, `tcp` and the numeral of its port |
| TunnelSpecs.PrintUndoesParse | cmd/client/main.go:364-399 | printing gives the specification back if and only if a port behind `tcp` is a minus or none and digits of which the first is not zero |
| TunnelSpecs.LeadingZerosLost | cmd/client/main.go:375-381 | a specification with port `007` is accepted with port 7 and prints back differently |
| TunnelSpecs.ParseUndoesPrint | cmd/client/main.go:364-399 | printing and parsing again gives the same tunnel for every accepted specification |
| Heartbeat.Monitor.OnTick | internal/server/control.go:93-107 | more than 90 s after the last message the session is closed, otherwise one heartbeat is sent |
| Heartbeat.HeartbeatsSent | internal/server/control.go:93-107 | over every run the heartbeats sent are the ticks up to the close, one each and in order; the late tick sends none |
| Heartbeat.Monitor.OnMessage | internal/server/control.go:110-121 | any message counts as a sign of life |
| Heartbeat.ClosedAtFirstLateTick | internal/server/control.go:93-107 | the session is closed if and only if some tick came more than 90 s after the last message, and then at the first such tick |
| Heartbeat.SilentClientIsCutOff | internal/server/control.go:88-107 | a client silent since T is cut off by a tick after T + 90 s and no later than T + 120 s |
| Heartbeat.EchoKeepsSessionOpen | internal/client/control.go:161-163 | if every heartbeat is echoed before the tick 90 s later, no run of any length closes the session |
| Heartbeat.SoonIsEchoed | internal/client/control.go:161-163 | echoing in less than 90 s is enough |
| Heartbeat.EchoAtTheDeadlineIsTooLate | internal/server/control.go:100-104 | echoing in exactly 90 s is not |
| Handshake.Connect | internal/client/control.go:88-126 | one registration a tunnel is sent, in order, with the tunnel's name, type, subdomain or else name, port, address and directory; the answers seen are those among as many messages, the rest stay unread |
| Handshake.HandlerAnswersAll | internal/server/control.go:119-125 | under every interleaving, a handler that has received a client's registrations and is idle again has sent one answer to each, in order |
| Handshake.AnswersReachTunnels | internal/client/control.go:108-126 | the i-th answer read carries the i-th tunnel's name and URL; as many answers stay unread as other messages came first |
| Handshake.QuietHandshake | internal/client/control.go:108-126 | when the server sends nothing else, the i-th message is the i-th tunnel's answer and none is left |
| Handshake.BothEnds | internal/client/control.go:88-126 | under every interleaving, when the handler is idle again and has sent nothing but its answers, connecting returns exactly these and leaves nothing unread; a positive one has the URL of the subdomain, or of the port, that the tunnel is configured with |

## Left out

- SessionSafety.PortsExclusive: speaks of states before the server's shutdown; `closeAll` closes sockets and leaves the maps.
- Registry.Registry.SetTunnelDir: tunnels are values in their client's list, so a pointer that a proxy still has to a removed tunnel, and the byte counters behind it, are not modelled.
- Registry.Registry.DashboardTotals: client, HTTP and TCP totals only; the byte totals are sums of counters that the model does not have.
- PromoteOrder.DirectoriesConserved: the corollary for schedules that keep four premises; the exact conditions, for a step and for a run, are PromoteOwners.LeaksExactlyWhenLosing and PromoteOwners.LeakFreeExactly. A directory that cannot be removed is not modelled.
- Deploy.Deployments.HandlePromoteUpload: the tarball's form field and the request's validation are not modelled; containers, images and the state file are not part of this model, and the eviction is `Control.Server.EvictAfterPromote`.
- Eviction.NeverTunnelAndApp: needs tunnels named after their subdomain and names that differ within a client, because eviction goes by name.
- Tarball.WalkPacksKept: regular files and directories only; an unreadable file, which makes packing fail, and links are not modelled. Matching of `.gitignore` patterns is a parameter.
- Tarball.ExtractionStaysBelow: file modes and links already on disk are not modelled; a disk that is full is not either.
- Routing.RouteLater: a client that has left keeps its last list behind the entry pointer; what the scan reads then is the list of the last state in which the client was live.
- PromoteOwners.LeakFreeExactly: a start has no directories left over. Loading skips apps that no longer run and leaves their directories on disk (internal/server/deploy.go:145-148); those stay without an owner.
- WSConn.Conn.Read: deadlines and the two mutexes are not modelled; a reader may report the end of a message early or late, and both are covered.
- DataStream.HandleDataStream: the copy back from the local service, and which direction ends first, are not modelled. The source's comment speaks of a MultiReader; the code copies on from the buffered reader itself, and so does the model.
- Json.ParsePrint: the decoder reads objects of string members with exact names; numbers, nesting and Go's case-insensitive member names are not modelled. Ill-formed UTF-8 in a Go string is not either.
- AdminRouter.RouterUndoesUrls: a browser that resolves dot segments itself asks for another URL; the authentication query is dropped.
- Heartbeat.ClosedAtFirstLateTick: `lastSeen` is shared between two goroutines without a lock; the model takes its reads and writes as atomic. A ticker that drops ticks is not modelled.
- Locks.NoConflict: the fields of a tunnel other than its directory never change after registration and are not tracked; `lastSeen` and the promotion maps are outside it. It also does not follow the code that reads a tunnel after it has left the list's lock.
- PublicUrl.UrlExtractsBack: how `net/url` takes a base URL apart is an input; IPv6 literals are excluded. The host reaches the server as it is written; a browser would put capitals in lower case.
- That the client's configuration and the server's list agree: an add followed at once by a remove leaves a registered tunnel that the client has forgotten (internal/server/dashboard.go:334-335).
- That apps survive a restart, which the repository's README promises: a graceful shutdown stops their containers (internal/server/server.go:92), and loading skips those (internal/server/deploy.go:145-148).
- TLS, yamux, gorilla/websocket, Docker, Nixpacks, `ss`, gzip and the tar format: foreign code, present as inputs.
- Authentication, logging, metrics formatting, the state file, reconnecting, file sharing, service installation and the dashboard page: easy or not about state.
