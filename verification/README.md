# A Dafny model of urnet-client

This project models the parts of urnet-client in which an error is hard to see: the route
managers that rearrange a machine's routing table and must put it back, the SOCKS5 proxy with its
UDP relay, the inbound packet filter and its counters, the token life cycle of `quick-connect`,
and some smaller pieces of text processing that the others rest on. `dafny verify dfyconfig.toml`
checks all of it.

## The parts

**Routing table** (`RouteTable`). One next hop per prefix, longest-prefix-match lookup over 32-bit
addresses, and the commands add, change, delete and link-down. Adds fail when the prefix is taken.
Besides, an arbitrary fault oracle decides for the n-th command of a session whether it fails for
another reason, so that a statement about all sessions is one about all ways to fail.

**Route managers.** `LinuxManager` and `DarwinManager` hold the managers as classes whose methods
change the ledgers and the table command by command. Each method is shown to compute a function of
the manager's state (`LinuxRoutes`, `DarwinRoutes`), about whose runs `LinuxGuarantees` and
`DarwinGuarantees` prove what a session guarantees, in terms of the arguments of its calls. The
macOS invariants are in `DarwinLedgers`, what the calls ask for in `DarwinRequests`. `LinuxEffects`
and `DarwinEffects` say what the operations achieve when their commands work.
`RouteText` reads the dotted quads, netmasks and CIDR suffixes that macOS destinations are spelled
with. The two systems keep different books: Linux
records every attempt, macOS mostly successes. Hence on Linux `Cleanup` may delete an entry of
before the session, on macOS bypasses, excludes and DNS routes never stand in the way.
`LinuxVpn` and `DarwinVpn` add the order in which `cmdVpn` installs the routes and what the result
does to every address. `DarwinCleanup` interleaves, command by command, the goroutine that drops
the DNS bypasses with `Cleanup`.

**SOCKS5 proxy.** `SocksHandshake` and `UdpDatagram` are the two wire formats of RFC 1928 with
their inverses; `SocksServer` reads them from a segmented stream through the reused 262-byte
buffer and relays in both directions, whoever's turn it is; `DomainPolicy` is the choice between
VPN and system path; `UdpForward` is what a client datagram leads to, by the same policy;
`UdpRelay` is the state machine of the three goroutines of a UDP association.

**Inbound filter.** `Inet` has addresses, masks and containment as byte-wise masking and as
arithmetic, `InboundFilter` the filter as it reads bytes and the policy over decoded packets,
`Dataplane` the receive path with its wrapping counters, under the policy that the options
amount to.

**Tokens.** `TokenFile` is the file shared by `quick-connect` and its renewer; `QuickConnect` runs
both against a backend, a clock and a disk that answer as they like.

**Text.** `Text` (trimming, splitting, joining), `Csv` (list normalisation), `ProviderSpecs` (the
choice of provider specs and its doubled client-side filter).

## Where the code falls short of its own documentation

Each of these is a statement with a concrete run or an exact condition.

- A failed kill switch on Linux announces that the original default route is restored; a
  deleted route is restored only if it has a gateway, and where there was no default route one is
  made up. On macOS nothing restores the default route that was deleted for a blackhole that then
  could not be installed.
- A kill switch is documented to outlive `Cleanup`. On Linux it does exactly when no call asked for
  the default route, so an exclude of `0.0.0.0/0` removes it. On macOS only an extra route can.
- `RemoveDNSBypass` forgets its ledger although its deletes may fail. The ledgers account for what
  a session of bypasses, excludes and DNS routes added exactly when no such delete failed, and
  exactly then `Cleanup` leaves nothing behind.
- `Cleanup` is documented to reverse additions precisely. On Linux it does exactly when nothing
  that was asked for had an entry outside the tunnel before; on macOS only recorded split and extra
  routes matter.
- Allowing more inbound sources can lose packets that were let through: the first source switches
  the filter on. Nothing is lost exactly when the filter was on before or stays off.
- A client token given by `--jwt` and found valid is never saved, and the VPN starts with what the
  file holds instead.
- The token file is truncated before it is written. A renewal that is cut off can leave a part of
  a token, with which the VPN then starts; that part is the whole token exactly when the write
  reached its last letter.
- A domain pattern with a space after its trailing dot keeps the dot, since the dot is looked for
  first. A pattern covers what it means exactly when it is not of this kind; as an exclusion, one
  of this kind lets the domain through that it names.
- In a UDP association a sender that found no address can set the pointer back, so replies may go
  to an older client address than the latest; they always go to one that was observed. From then
  on the pointer stays the latest address exactly when it is set and no sender is still on its way
  to overwrite it.
- A well-formed client datagram for a domain name is ignored exactly when it is shorter than ten
  bytes, which a short name with next to no payload is.
- A `country_code` query is compared untrimmed, unlike all others. It finds what the trimmed one
  would exactly when it has no space at either end; with one it finds nothing.

## Model

| member | source | states |
|---|---|---|
| RouteTable.BestMatchIsLongest | routes_linux.go:64-67 | lookup finds the entry of greatest length that matches an address, and none only when none matches; the rule by which the /1 routes take priority over the default |
| RouteTable.HalvesCoverEverything | routes_linux.go:58-62 | every address matches one of the two split routes, and the default |
| RouteTable.DeleteAllEffect | routes_linux.go:146-157 | a list of deletes, whichever fail, removes only listed entries, and a listed entry survives only if one of these deletes failed |
| LinuxManager.LinuxRouteManager.constructor | routes_linux.go:29-35 | a new manager has empty ledgers and no flag set |
| LinuxManager.LinuxRouteManager.AddBypassEndpoint | routes_linux.go:37-56 | the new ledgers and table are those of the specification, through the loop over resolved addresses |
| LinuxManager.LinuxRouteManager.AddSplitDefault | routes_linux.go:58-62 | both halves are requested through the tunnel and marked for Cleanup |
| LinuxManager.LinuxRouteManager.AddKillSwitchRoute | routes_linux.go:68-88 | default deleted, blackhole added, old route re-added only after a failure and with gateway and device |
| LinuxManager.LinuxRouteManager.AddExclude | routes_linux.go:90-103 | destination trimmed, blank ones ignored, every attempt recorded |
| LinuxManager.LinuxRouteManager.AddExtraRoute | routes_linux.go:105-112 | likewise through the tunnel |
| LinuxManager.LinuxRouteManager.AddDNSServerRoutes | routes_linux.go:114-135 | bypassed servers enter the bypass ledger, the others the DNS ledger, every attempt recorded |
| LinuxManager.LinuxRouteManager.Cleanup | routes_linux.go:141-172 | the table after the five delete loops, link-down and the kill-switch branch |
| LinuxEffects.EndpointIsBypassed | routes_linux.go:43-55 | if adds work, each resolved address of an endpoint has an entry afterwards, via the old gateway or else the old device where its prefix was free |
| LinuxEffects.ServersArePlaced | routes_linux.go:114-134 | likewise each DNS server, through the tunnel or around it |
| LinuxEffects.ExcludeIsPlaced | routes_linux.go:90-102 | likewise an exclude, via the old gateway, the old device, or unreachable |
| LinuxEffects.ExtraRouteIsPlaced | routes_linux.go:105-111 | likewise an extra route, through the tunnel |
| LinuxEffects.SplitIsPlaced | routes_linux.go:58-62 | likewise both halves, through the tunnel |
| LinuxEffects.KillSwitchTakesHoldIff | routes_linux.go:68-80 | the blackhole is the default route afterwards, and noted, if and only if its add works and the old default was out of its way |
| LinuxGuarantees.SessionAccounted | routes_linux.go:10-25 | in every session with any failing commands, each entry was there before, is a recorded request with its next hop, or is the kill switch; nothing of before is lost but the default to a kill switch |
| LinuxGuarantees.RecordedIsAsked | routes_linux.go:10-25 | whatever fails, the ledgers hold exactly the destinations that the arguments of the calls ask for |
| LinuxGuarantees.CleanupExact | routes_linux.go:140-159 | without kill switch the table after Cleanup is the one before the session less the destinations that its calls asked for and the tunnel's routes |
| LinuxGuarantees.CleanupRestoresIff | routes_linux.go:140-159 | the old table comes back, tunnel routes aside, if and only if no destination that was asked for had an entry outside the tunnel before |
| LinuxGuarantees.ExcludeCostsEntry | routes_linux.go:90-102 | a session whose exclude of a prefix that had an entry makes Cleanup delete that entry |
| LinuxGuarantees.CleanupUnderFaults | routes_linux.go:141-158 | with failing deletes Cleanup adds nothing, spares what is not recorded, and leaves a recorded entry only if a delete of this Cleanup failed |
| LinuxGuarantees.CleanupTwice | routes_linux.go:141-172 | if the deletes of one Cleanup work, a second one changes nothing, even if its own commands fail |
| LinuxGuarantees.TunnelLossIsBlocked | routes_linux.go:64-67 | with the kill switch in, any address is blocked once the tunnel routes are gone, unless its longest match is a specific entry of before or a bypass or exclude that was asked for |
| LinuxGuarantees.KillSwitchOutlivesCleanupIff | routes_linux.go:160-165 | the blackhole survives Cleanup if and only if no call asked for the default route |
| LinuxGuarantees.CleanupStaysBlocked | routes_linux.go:160-165 | after Cleanup every address is blocked unless a specific entry of before claims it |
| LinuxGuarantees.KillSwitchLostToExclude | routes_linux.go:90-102 | a session whose exclude of the default route makes Cleanup delete the kill switch |
| LinuxGuarantees.FailedKillSwitchRestoresIff | routes_linux.go:78-87 | after a failed blackhole an existing default is as before if and only if it was never deleted or is added again, which takes a gateway, a device and a working command; where there was none, restoring makes one up |
| LinuxGuarantees.FailedKillSwitchLosesDefault | routes_linux.go:73-86 | a default without a gateway is lost to a kill switch that fails, also after Cleanup |
| LinuxVpn.ParseRoute | vpn_linux.go:136-163 | the index loop over the tokens yields what scanning them key by key yields |
| LinuxVpn.ScanPrint | vpn_linux.go:136-159 | a printed line reads back as its fields say, also when a gateway, device or metric is spelled like a keyword, and when it ends in a keyword without a value |
| LinuxVpn.ListDefaultRoutes | vpn_linux.go:129-165 | one route per line with a device, in order; every listed route has a device |
| LinuxVpn.ListedAll | vpn_linux.go:131-164 | every line with a device is listed, in its place |
| LinuxVpn.ListedSkips | vpn_linux.go:160-162 | a line without a device makes no difference |
| LinuxVpn.ChooseGateway | vpn_linux.go:69-80 | the first route outside the tunnel with a gateway, else the first outside the tunnel, else none |
| LinuxVpn.InstallRoutes | vpn_linux.go:86-103 | the manager ends in the state of the session that the options call for, in this order |
| LinuxEffects.PlanAsks | vpn_linux.go:87-103 | which destinations the options ask to be routed around and through the tunnel, DNS servers only without a default route |
| LinuxEffects.KillSwitchIffAsked | vpn_linux.go:87-90 | a kill switch is installed if and only if it is asked for together with a default route |
| LinuxEffects.EndpointsAreReached | vpn_linux.go:87-100 | after the installation, the lookup of an endpoint's address gives the way of the old default |
| LinuxVpn.FullTunnel | vpn_linux.go:87-100 | with the split routes accepted or taken, every address leaves through the tunnel unless its longest match is a /1 entry of before, or is longer than /1 and of before or a bypass or exclude that was asked for; the default entry is never used |
| LinuxVpn.OrderIsIrrelevant | vpn_linux.go:94-100 | excludes and extra routes with distinct prefixes give the same table in any order |
| DarwinManager.DarwinRouteManager.constructor | routes_darwin.go:50-56 | a new manager has empty ledgers and no flag set |
| DarwinManager.DarwinRouteManager.AddBypassEndpoint | routes_darwin.go:60-81 | an address is recorded only when its add succeeded |
| DarwinManager.DarwinRouteManager.AddVariant | routes_darwin.go:329-383 | the four add-or-change variants in order, and the answer |
| DarwinManager.DarwinRouteManager.AddSplitDefault | routes_darwin.go:85-88 | both halves, one after the other |
| DarwinManager.DarwinRouteManager.AddExclude | routes_darwin.go:117-153 | through the gateway, by reject when that failed or there is none, nothing when the entry exists; only successes recorded |
| DarwinManager.DarwinRouteManager.AddExtraRoute | routes_darwin.go:156-181 | with the fallback through the peer; an existing entry counts and is recorded |
| DarwinManager.DarwinRouteManager.AddDNSServerRoutes | routes_darwin.go:185-206 | bare addresses only; only successes recorded |
| DarwinManager.DarwinRouteManager.RemoveDNSBypass | routes_darwin.go:225-230 | the recorded DNS bypasses are deleted and the ledger is cleared |
| DarwinManager.DarwinRouteManager.AddKillSwitchRoute | routes_darwin.go:236-250 | default deleted only with a gateway, blackhole added, success noted |
| DarwinManager.DarwinRouteManager.Cleanup | routes_darwin.go:254-325 | the table after the delete loops, link-down and the kill-switch branch |
| DarwinEffects.EndpointIsBypassed | routes_darwin.go:69-80 | if adds work, each resolved address of an endpoint has an entry afterwards, to the old gateway where its prefix was free |
| DarwinEffects.ServersArePlaced | routes_darwin.go:185-206 | likewise each DNS server, to the old gateway or through the tunnel |
| DarwinEffects.ExcludeIsPlaced | routes_darwin.go:122-149 | an exclude leaves by the old gateway if the first add works, and is rejected if that failed or there is no gateway |
| DarwinEffects.ExtraRouteIsPlaced | routes_darwin.go:161-180 | an extra route leaves by the device if the first add works, and by the peer if that failed |
| DarwinEffects.VariantIsPlaced | routes_darwin.go:329-383 | a half leaves by the device, in the netmask form if the first command works, and by the peer only after two failed commands |
| DarwinEffects.KillSwitchTakesHoldIff | routes_darwin.go:236-246 | the blackhole is the default route afterwards, and noted, if and only if its add works and the old default was out of its way |
| DarwinEffects.DropDrops | routes_darwin.go:225-230 | a drop whose deletes work takes the recorded DNS bypasses out of the table, and nothing else, and clears the ledger |
| DarwinLedgers.SessionLedgered | routes_darwin.go:25-45 | in every session with any failures, the ledgers of bypasses, excludes and DNS routes name pairwise distinct entries that are in the table and were not before; every entry of the table is explained, by a ledger or as leaked by a drop; entries of before stay unless a split took them over; nothing leaks if and only if no delete of a drop failed |
| DarwinGuarantees.ExactLedger | routes_darwin.go:60-81 | over bypasses, excludes, DNS routes and dropped DNS bypasses, with any failures, the table is the one of before plus the recorded and the leaked entries, recorded once each and disjoint from it and each other |
| DarwinGuarantees.ExactLedgerIff | routes_darwin.go:225-230 | over such sessions, with any failures, the ledgers account for every entry that was not there before if and only if no delete of a drop failed |
| DarwinGuarantees.OwnedOnlyRestoresIff | routes_darwin.go:252-304 | Cleanup restores the old table after such a session, tunnel routes aside, if and only if no delete of a drop failed |
| DarwinRequests.RecordedIsAsked | routes_darwin.go:25-45 | whatever fails, the ledgers hold only destinations that the arguments of the calls ask for |
| DarwinRequests.BypassIsAsked | routes_darwin.go:25-45 | and so do the entries that bypass the tunnel, also leaked ones |
| DarwinLedgers.AddVariantOutcome | routes_darwin.go:327-383 | true means exactly one new record, denoting the half asked for, which now leaves through the tunnel; false means no record, an untouched table and at least two (four with a peer) failed commands |
| RouteText.FormsAgree | routes_darwin.go:329-344 | for every dotted quad, the netmask 128.0.0.0 and the suffix /1 spell the same prefix, computed from the texts |
| DarwinLedgers.VariantForms | routes_darwin.go:256-263 | so both forms that are added denote the half asked for, which Cleanup deletes |
| DarwinLedgers.DropKeeps | routes_darwin.go:223-230 | dropping DNS bypasses, with any failing deletes, keeps the invariant and never removes a control-plane bypass or an exclude |
| DarwinLedgers.DropForgetsNothingIff | routes_darwin.go:225-230 | in every session, a drop leaves no entry that it forgets if and only if none of its deletes fails |
| DarwinGuarantees.ForgottenBypassStays | routes_darwin.go:225-230 | a session whose DNS bypass outlives a drop that failed once, and Cleanup |
| DarwinGuarantees.CleanupExact | routes_darwin.go:252-312 | without kill switch Cleanup leaves the entries of before and the leaked ones, less what the split and extra ledgers name and less the tunnel's routes |
| DarwinGuarantees.CleanupRestoresIff | routes_darwin.go:252-312 | the old table comes back, tunnel routes aside, if and only if no split or extra record names an entry outside the tunnel of before, and one names each leaked entry |
| DarwinGuarantees.CleanupRestoresUnlessAsked | routes_darwin.go:252-312 | whatever adds fail, it comes back unless a split or extra route was asked for where such an entry stood |
| DarwinGuarantees.ExtraRouteCostsEntry | routes_darwin.go:169-180 | a session whose extra route for an existing prefix makes Cleanup delete the entry of before |
| DarwinGuarantees.TunnelLossIsBlocked | routes_darwin.go:232-235 | as on Linux, whatever fails, with gateway or reject routes for what was asked for |
| DarwinGuarantees.KillSwitchOutlivesCleanupIff | routes_darwin.go:313-317 | the blackhole survives Cleanup if and only if no extra route denotes the default |
| DarwinGuarantees.KillSwitchOutlivesUnlessAsked | routes_darwin.go:313-317 | it survives whenever no extra route for the default was asked for |
| DarwinGuarantees.CleanupStaysBlocked | routes_darwin.go:313-317 | after Cleanup every address is blocked unless a specific entry of before or a leaked bypass claims it; there are leaks if and only if a delete of a drop failed |
| DarwinGuarantees.KillSwitchLostToExtraRoute | routes_darwin.go:169-180 | a session whose extra route for the default makes Cleanup delete the blackhole |
| DarwinGuarantees.FailedKillSwitchRestoresIff | routes_darwin.go:241-249 | after a failed blackhole, for whatever reason, the table is as before if and only if nothing was deleted for it, and a lost default stays lost through Cleanup |
| DarwinGuarantees.FailedKillSwitchLosesDefault | routes_darwin.go:241-249 | a session that loses its default route so |
| DarwinCleanup.InterleaveKeeps | vpn_darwin.go:146-166 | at every point of every schedule, with any failures, a recorded entry is gone, or still to be deleted by Cleanup, or a delete of it failed; the ledger is cleared only when its entries are dealt with |
| DarwinCleanup.EveryScheduleAccounts | routes_darwin.go:254-312 | whatever fails, no unrecorded entry outside the tunnel is lost, and a recorded one outlives both threads only if a delete of it failed |
| DarwinCleanup.SameAsCleanupAlone | routes_darwin.go:225-230 | if deletes work, whenever Cleanup finishes the table is the one Cleanup alone would have left, wherever the goroutine is |
| DarwinCleanup.EveryScheduleRestoresIff | routes_darwin.go:254-304 | then every schedule restores the table of before, tunnel routes aside, if and only if no split or extra route is recorded where an entry outside the tunnel stood, and nothing that leaked earlier is left |
| DarwinCleanup.CleanupIsWaitFree | routes_darwin.go:285-288 | the goroutine cannot hold Cleanup up: a bounded number of its own steps finishes it |
| DarwinCleanup.DropperDrops | vpn_darwin.go:163 | given its turns, whatever Cleanup does beside it, the goroutine has cleared the ledger, and every recorded DNS bypass is gone or a delete of it failed |
| DarwinCleanup.DropperAlone | routes_darwin.go:225-230 | alone, it does what RemoveDNSBypass does, failures included |
| DarwinVpn.InstallRoutes | vpn_darwin.go:97-144 | the manager ends in the state of the session that the options, the gateway and the system resolvers call for, in this order |
| DarwinEffects.InPlan | vpn_darwin.go:97-144 | exactly which calls the options lead to, the DNS branches included |
| DarwinEffects.KillSwitchIffAsked | vpn_darwin.go:98-101 | a kill switch is installed if and only if it is asked for together with a default route |
| DarwinEffects.EndpointsAreReached | vpn_darwin.go:98-118 | after the installation, and after the DNS bypasses are dropped, the lookup of an endpoint's address gives the old gateway |
| DarwinVpn.FullTunnel | vpn_darwin.go:98-118 | if addVariant reports success for both halves, then with any other failures and any table before, no address uses the default entry: it leaves through the tunnel, a specific entry of before, or a bypass or exclude that was asked for, also after the DNS bypasses are dropped |
| SocksServer.Conn.ReadFull | socks.go:90-99 | what it reads depends on the concatenated stream only, and it fails exactly when the stream is too short |
| SocksServer.Handshake | socks.go:85-153 | for every cut into segments the verdict, the bytes taken and the bytes sent are those of the concatenated stream, with every slice of the buffer in range |
| SocksHandshake.EncodedParses | socks.go:93-153 | whatever a client sends after it, a request for any target is understood as meant and exactly 2+nMethods+4+address+2 bytes are taken |
| SocksHandshake.ParsedIsEncoded | socks.go:93-153 | conversely, what is understood as a CONNECT starts with the encoding of that target and port |
| SocksHandshake.HeadDecides | socks.go:109-149 | after any greeting, a request version other than 5 gives reply 1, command 3 the association, commands other than 1 and 3 reply 7, unknown address types reply 8, each if and only if, taking greeting and head |
| SocksHandshake.VerdictHasHead | socks.go:90-124 | conversely, such a verdict comes from a greeting and a head; the greeting is answered if and only if it is complete and of version 5 |
| SocksHandshake.CutRequestHangsUp | socks.go:90-152 | any proper front part of a request leads to hanging up |
| SocksHandshake.KnownV4Request | socks.go:127-153 | the bytes of a request to 10.0.0.1 port 443 |
| SocksHandshake.KnownNameRequest | socks.go:132-153 | the bytes of a request to a name |
| SocksHandshake.KnownV6Request | socks.go:141-153 | the bytes of a request to ::1 port 8080 |
| SocksHandshake.ReplyReads | socks.go:260-265 | a reply has version, code and reserved byte, and reads as the address 0.0.0.0, port 0 |
| SocksHandshake.DialCodeMeans | socks.go:223-240 | which failures of a dial each reply code stands for |
| SocksServer.Prefer | socks.go:161-170 | the first IPv4 address, else the first address, else none |
| SocksServer.Respond | socks.go:154-246 | no address gives reply 4, a failed dial its reply code, otherwise a connection over the path that the policy chooses |
| SocksServer.AddressIsDialled | socks.go:176-191 | a target given as an address is dialled as it is, through the VPN if and only if there is no allow list |
| SocksServer.NameIsDialled | socks.go:158-188 | a name is dialled at its first IPv4 address, or else its first, over the path that the policy has for it |
| SocksServer.UnknownNameIsUnreachable | socks.go:171-174 | a name without an address gives reply 4 |
| SocksServer.Relay | socks.go:194-257 | for every turn-taking of the two goroutines, each direction passes on what arrives unaltered and in order, all of it if the receiving end accepts |
| SocksServer.HandleConn | socks.go:68-258 | for every cut into segments and every turn-taking, the remote end receives exactly what follows the request, the client the greeting, the reply and all the remote end sent; a refusal sends the remote end nothing |
| DomainPolicy.SuffixIsLabelSuffix | socks.go:275-277 | equal or ending in dot and pattern means that the pattern's labels are the last labels of the name |
| DomainPolicy.DomainMatches | socks.go:267-280 | true if and only if the labels of some non-empty normalised pattern are the last labels of the normalised host |
| DomainPolicy.CoversAsMeantIff | socks.go:271-277 | a pattern covers the hosts whose last labels it means, after trimming, one trailing dot and case, and no others, if and only if no space follows its trailing dot |
| DomainPolicy.MatchesAsMeant | socks.go:267-280 | so a list of such patterns matches a host if and only if the labels that some non-empty pattern means are its last labels |
| DomainPolicy.PatternFormNormalises | socks.go:271 | letter case and leading space of a pattern never matter, trailing space only after a dot |
| DomainPolicy.SpaceAfterDotExcludesNothing | socks.go:271 | an exclude list that lets through the domain it names, for a space after the dot |
| DomainPolicy.HostFormNormalises | socks.go:269 | letter case and one trailing dot are immaterial |
| DomainPolicy.Decide | socks.go:180-188 | VPN if and only if the allow list is empty or matches and the exclude list does not; destinations given as addresses fail a non-empty allow list |
| DomainPolicy.PolicyMeans | socks.go:180-188 | under a non-empty allow list an address goes past the VPN, and a name uses it if and only if its last labels are those of an allowed and of no excluded pattern |
| DomainPolicy.PolicyExamples | socks.go:180-188 | an address and a name under lists that name it and lists that do not |
| DomainPolicy.ExclusionCoversSubdomains | socks.go:186-188 | every subdomain of an excluded domain is excluded, whatever the allow list says |
| UdpDatagram.ReadDatagram | socks.go:345-388 | the cursor parser reads what the format says, in range for every datagram |
| UdpDatagram.WriteDatagram | socks.go:461-477 | the header built piece by piece is the format's |
| UdpDatagram.FramedReadsIff | socks.go:345-388 | a client's datagram for any target, port and payload reads back as these if and only if it has ten bytes, and only short names make fewer |
| UdpDatagram.AcceptedIsFramed | socks.go:345-388 | conversely, whatever is accepted is the encoding of what it reads as |
| UdpDatagram.ShortNameIsIgnored | socks.go:346-348 | a two-letter name with an empty payload is well-formed and ignored |
| UdpDatagram.KnownDatagrams | socks.go:350-388 | the bytes of a datagram to 8.8.8.8 port 53, and of one to a name |
| UdpDatagram.WrittenReads | socks.go:461-477 | what is written for any source address, port and payload reads back as these |
| UdpDatagram.ReadWritesBackIff | socks.go:359-388 | an accepted datagram with an address re-encodes to itself if and only if it is not an IPv4 address in IPv6 form |
| UdpForward.Forward | socks.go:390-432 | a datagram is sent to the resolved target over the socket that policy and availability leave, or not at all |
| UdpForward.AddressIsForwarded | socks.go:390-432 | a datagram to an address goes there as it is, through the VPN socket if and only if there is one and no allow list |
| UdpForward.NameIsForwarded | socks.go:390-432 | a datagram to a name goes to what its lower-case form resolves to, over the path that the policy has for it, or nowhere |
| UdpForward.PathsAgree | socks.go:407-416 | a connection and a datagram to the same target take the same path |
| UdpRelay.RepliesGoToObserved | socks.go:329-344 | over all interleavings, pointer, channel and replies name addresses that client datagrams came from; nothing is sent before the first one |
| UdpRelay.ContentsAreFaithful | socks.go:345-479 | over all interleavings, each sender answers in order a subsequence of what its socket received, unaltered and readable, and the reader sends exactly what the datagrams call for under resolver, policy and sockets |
| UdpRelay.DropsOnlyWithoutAddress | socks.go:448-460 | a packet is dropped if and only if a sender that found the pointer unset finds the channel empty |
| UdpRelay.SettledHandlesAll | socks.go:441-479 | from a settled state on nothing is dropped: all that arrives is answered or in hand, in order |
| UdpRelay.SettledAnswers | socks.go:461-478 | and the sender's next steps answer it, to the pointer's address, with the packet's source and content |
| UdpRelay.ReaderHandles | socks.go:335-432 | a client datagram sets the pointer to its source, fills the channel, and is sent on |
| UdpRelay.EveryRunIsSound | socks.go:329-482 | both of these for every run of an association from its start |
| UdpRelay.SettledFollowsReader | socks.go:448-460 | once the pointer is set and no fallback is under way, it stays so, and from the reader's next store on the pointer is the latest address |
| UdpRelay.LatestIsKeptIff | socks.go:340-460 | from a state whose pointer is the latest address, no continuation ever makes it another if and only if the pointer is set and no sender is between finding it unset and storing its own |
| UdpRelay.RepliesGoToLatest | socks.go:448 | in every continuation of such a settled state, a reply that is begun goes to the address that is the latest one then |
| UdpRelay.LatestCanBeLost | socks.go:449-456 | a reachable state in which the fallback has put back an older address and a reply went there |
| Inet.ContainsIsPrefix | vpn_core.go:56 | masking byte by byte compares exactly the quotients by 2^(width-n), in the address family in which both can be compared, IPv4-mapped sources included |
| Inet.To4Iff | vpn_core.go:54 | which addresses have an IPv4 form, and which it is |
| Inet.ShiftIsDivision | vpn_core.go:56 | shifting an address right by n bits is its quotient by 2^n |
| Inet.HostNetworkHoldsOne | vpn_core.go:293-302 | a host entry holds that one address, in either of its forms |
| InboundFilter.ShouldDropInboundIPv4 | vpn_core.go:37-68 | the IPv4 filter drops exactly what the policy drops |
| InboundFilter.ShouldDropInboundIPv6 | vpn_core.go:70-100 | the IPv6 filter drops exactly what the policy drops |
| InboundFilter.ShouldDropInbound | vpn_core.go:18-35 | for every byte string and allowlist, it drops if and only if the packet decodes as TCP, ACK is clear, and it is not a SYN from an allowed source |
| InboundFilter.DecodesV4 | vpn_core.go:37-50 | a packet assembled from IPv4 and TCP fields decodes to its source and flags if its protocol is TCP, and not at all otherwise |
| InboundFilter.DecodesV6 | vpn_core.go:73-84 | likewise for IPv6 fields |
| InboundFilter.DecodedHasFields | vpn_core.go:37-84 | conversely, only packets with such fields decode |
| InboundFilter.DropsV4 | vpn_core.go:45-67 | over the fields: dropped if and only if TCP, ACK clear, and SYN clear or the source in no allowed network |
| InboundFilter.DropsV6 | vpn_core.go:78-99 | likewise for IPv6 |
| InboundFilter.OnlyTcpIsDropped | vpn_core.go:22-84 | no other packet is dropped, however malformed |
| InboundFilter.MappedIsSame | vpn_core.go:54-57 | an IPv4 source is allowed in its 16-byte form exactly when in its 4-byte form |
| InboundFilter.MoreAllowedFewerDrops | vpn_core.go:18-21 | a longer allowlist drops no packet that a shorter one lets pass |
| InboundFilter.BuildAllowlist | vpn_core.go:124-151 | the switch is on if and only if a source list or local sources are given; the allowlist has, in order, the networks of all configured, local and tunnel entries that parse |
| InboundFilter.AllowlistHolds | vpn_core.go:127-151 | these networks and no others |
| InboundFilter.LocalSources | vpn_core.go:140-150 | local sources are these six networks and the tunnel's own |
| Dataplane.Receiver.Receive | vpn_core.go:157-206 | after every packet the device has exactly the packets that neither rule drops, in order; received = written + dropped by either branch, in packets and in bytes; the counters are the written packets' number and length modulo 2^64 |
| Dataplane.FateIs | vpn_core.go:161-199 | packets of version 6 are dropped without IPv6, any other if and only if the filter is on and drops it |
| Dataplane.EnlargingKeepsWritten | vpn_core.go:18-21 | with the filter on before or off after, a longer allowlist loses no packet that was written |
| Dataplane.EnlargingKeepsWrittenIff | vpn_core.go:125-151 | options that allow more sources lose no written packet, whatever arrives, if and only if the filter was on before or stays off |
| Dataplane.FirstEntryLosesResets | vpn_core.go:125 | the packet that the first allowed source loses: a bare RST |
| TokenFile.TokenFile.LoadJwt | jwt.go:23-32 | a given token, trimmed, or else the file's content, trimmed |
| TokenFile.TokenFile.SaveJwt | jwt.go:35-41 | what was saved loads as the trimmed token; a failed save leaves the file alone if it could not be opened, and a part of the text if it was cut off |
| TokenFile.LoadAfterSave | jwt.go:29-40 | loading what was saved gives the token up to surrounding white space |
| TokenFile.CutLoads | jwt.go:40 | what a cut-off write leaves loads as the token if no letter is missing, and as a proper prefix of it otherwise |
| QuickConnect.TokenSafety | cmd_quickconnect.go:75-194 | over all answers and interleavings only non-blank trimmed tokens are saved, and the VPN's token passed validation or was minted in this run, unless a valid --jwt left the file as it was or a write was torn |
| QuickConnect.TornTokenIsCut | cmd_quickconnect.go:146-188 | after a torn write the VPN's token is what the first n characters of a minted token load as; it is vouched for if and only if they reach the token's end, unless a proper prefix of it happens to be a token too |
| QuickConnect.MainKeeps | cmd_quickconnect.go:39-130 | every step of login, verification, validation, retry and minting keeps the token invariant |
| QuickConnect.RenewerKeeps | cmd_quickconnect.go:134-184 | every step of the renewer keeps it, at whatever point the main thread is |
| QuickConnect.BorrowedIsVouchedIff | cmd_quickconnect.go:82-84 | after a valid --jwt, unless the renewer was faster, the VPN's token is what the file was last given or held, and it is vouched for if and only if it is the --jwt token or was minted meanwhile |
| QuickConnect.BorrowedWithoutLogin | cmd_quickconnect.go:188 | without credentials, and nothing minted meanwhile, it is vouched for if and only if the file held the --jwt token before |
| QuickConnect.ValidJwtIsIgnored | cmd_quickconnect.go:188-193 | a run in which token a is found valid and the VPN starts with token b |
| QuickConnect.TornRenewalReachesVpn | cmd_quickconnect.go:146-149 | a run in which the VPN starts with the first letter of a renewed token |
| QuickConnect.VpnNeeds | cmd_quickconnect.go:39-130 | a run that gets to the VPN did not have one credential alone; with both it has saved a token of a login or verification; if minting was forced it has minted |
| QuickConnect.LoginSaves | cmd_quickconnect.go:44-64 | logging in saves the network's token, and a code has it verified |
| QuickConnect.VerificationNeedsCode | cmd_quickconnect.go:44-52 | if verification is required only a code leads on; a failed login ends the run |
| QuickConnect.VerifyingSaves | cmd_quickconnect.go:63-72 | verifying saves the token; a failure ends the run |
| QuickConnect.LoadedIsMintedOrValidated | cmd_quickconnect.go:77-83 | --jwt goes before the file; tokens without client id, or all if forced, are exchanged, the others validated |
| QuickConnect.MintingLeadsToVpn | cmd_quickconnect.go:117-194 | minting saves the client token and starts the VPN with it; a failure ends the run |
| QuickConnect.InvalidNeedsCredentials | cmd_quickconnect.go:83-93 | an invalid token is refreshed if there are credentials, and ends the run otherwise |
| QuickConnect.RetryLeadsToVpn | cmd_quickconnect.go:94-106 | login, minting, saving and validation lead to the VPN |
| QuickConnect.RetryGoesOn | cmd_quickconnect.go:90-113 | whatever fails of these, another attempt follows after a pause, until cancelled |
| QuickConnect.RenewsByMinting | cmd_quickconnect.go:140-155 | the renewer exchanges the token of the file |
| QuickConnect.RenewsByLogin | cmd_quickconnect.go:157-178 | if that fails it logs in, mints and saves, provided it has credentials |
| QuickConnect.RenewerGoesOn | cmd_quickconnect.go:142-171 | after any failure it waits for the next time |
| QuickConnect.BlankTokensAreErrors | auth.go:86-143 | a blank token from the backend counts as an error |
| QuickConnect.RunEnds | cmd_quickconnect.go:57-192 | failed saves, unreadable tokens and cancelling end the run |
| Csv.SplitCsv | util.go:12-26 | the loop computes the normalised list |
| Csv.OutputIsClean | util.go:12-26 | entries come out trimmed, non-empty and comma-free |
| Csv.PaddedListReads | util.go:19-24 | a list of clean entries written with space around its commas reads as that list |
| Csv.JoinThenSplit | config.go:219-221 | joining a list and splitting it again normalises it entry by entry, in order |
| Csv.SurvivesIffClean | config.go:219-221 | a list survives that path if and only if every entry is trimmed, non-empty and comma-free |
| Csv.NormalFormIsStable | util.go:12-26 | normalising twice is normalising once |
| ProviderSpecs.ParseKVInverts | specs.go:173-183 | key and value are the texts around the first colon, and there is none if and only if there is no colon |
| ProviderSpecs.FilterLocations | specs.go:107-171 | the matching entries in their order, and the first spec of each id |
| ProviderSpecs.KeepsMatchingGroups | specs.go:123-129 | the kept groups are the matching ones, all of them |
| ProviderSpecs.KeepsMatchingLocations | specs.go:130-147 | the kept locations are the matching ones, all of them |
| ProviderSpecs.KeepGroupsConcat | specs.go:123-129 | in their places, one by one |
| ProviderSpecs.KeepLocationsConcat | specs.go:130-147 | in their places, one by one |
| ProviderSpecs.FindSpecs | specs.go:47-105 | the second filter over the filtered listing yields the same spec sequence as the first |
| ProviderSpecs.FilteringTwiceIsOnce | specs.go:65-103 | filtering twice makes no difference |
| ProviderSpecs.SpecsOfAQuery | specs.go:149-169 | pairwise distinct ids, groups first, exactly the parseable ids of matching entries; an id shared by a group and a location stands for the group |
| ProviderSpecs.KeyedQuery | specs.go:114-120 | the key is read without regard to case and surrounding space |
| ProviderSpecs.PlainQuery | specs.go:115-118 | without a colon the query is for a name |
| ProviderSpecs.CountryFinds | specs.go:133-164 | country queries find locations by country or name and stand for the country's id |
| ProviderSpecs.RegionFinds | specs.go:137-164 | region queries find locations by region, and regions by name, and stand for the region's id |
| ProviderSpecs.NameFinds | specs.go:123-140 | name queries find groups and locations by name |
| ProviderSpecs.OtherKeysFind | specs.go:135-143 | country codes find by code; any other key by name, country or region, and group queries groups by name as well |
| ProviderSpecs.MatchValueFinds | specs.go:185-193 | matching means that the value occurs in the text, without regard to case and surrounding space; * matches what is not blank |
| ProviderSpecs.DistinctKeepsFirsts | specs.go:149-169 | each spec is the first with its id, and the specs keep the order of first occurrence |
| ProviderSpecs.BuildProviderSpecs | specs.go:10-45 | configured ids settle it without a request; else the backend's answer; else its listing, asked for only then; "best available" exactly when nothing matches; never empty |
| ProviderSpecs.ConfiguredIs | specs.go:17-26 | configured ids give the location, then the group, each if it is given and parses |
| ProviderSpecs.SpacedCountryCodeMatchesNothing | specs.go:80-81 | a country code with a space at either end matches no location |
| ProviderSpecs.CountryCodeIsTrimmedIff | specs.go:80-81 | a country code finds what the trimmed one finds, for every location, if and only if it has no space at either end |
| ProviderSpecs.SpacedQueryFindsNothing | specs.go:173-182 | the query texts country_code:de and country_code: de, of which only the first finds Germany |

## Left out

- Running commands: the syntax of `ip` arguments is an arbitrary function from text to prefixes, that of `route` one that reads netmasks and CIDR notation as they are spelled; failures come from the oracle.
- Route metrics and several defaults at once: the table has one entry per prefix.
- macOS scope: `-ifscope` is ignored, so a scoped split or extra route counts as an ordinary entry; scoped defaults and scoped excludes of SOCKS-only mode are not modelled.
- DarwinVpn.InstallRoutes: leaves out the scoped routes of SOCKS-only mode and SetDNS, because their effect is macOS's own.
- LinuxGuarantees.CleanupExact: assumes working deletes and no kill switch; CleanupUnderFaults has no such assumption, KillSwitchOutlivesCleanupIff is about the other case.
- DarwinRequests.RecordedIsAsked: one direction only, since macOS records what was taken and not what was asked for.
- DarwinGuarantees.CleanupExact: assumes that Cleanup's own deletes work, as do the other results about the table after Cleanup; EveryScheduleAccounts has no such assumption.
- DarwinGuarantees.CleanupRestoresUnlessAsked: assumes that deletes of drops work too; CleanupRestoresIff says what happens otherwise.
- DarwinCleanup.SameAsCleanupAlone: assumes that deletes work; reading or clearing the ledger is one step each.
- The kill switch is installed first, as cmdVpn does, or not at all; later installation is not covered by the session theorems.
- Flushing interface addresses, creating devices, and the system's own routes for the tunnel's network: comparisons leave out routes through the tunnel.
- SetDNS and networksetup, the polling that starts the DNS goroutine, and getSystemDNSResolvers, whose result is a parameter.
- extractHost and URL parsing: hosts, and the resolver's answers for them, are parameters.
- SocksServer.HandleConn: half-closing, deadlines and buffering by the system are not modelled.
- SocksServer.Respond: the resolver and the dialer are functions; socket binding and name decoding beyond bytes as characters are not part of it.
- The lifetime of a UDP association, failed sends, and the time that resolving takes: UdpRelay resolves and sends in one step.
- Unicode case folding: Lower is ASCII, and EqualFold compares in lower case.
- InboundFilter.BuildAllowlist: text forms of networks are parsed by a parameter.
- The TUN-to-provider direction and statistics: they have no filtering, and atomic counters are updated in one step here.
- QuickConnect.TokenSafety: a read or a write of the token file, whole or torn, is one step, and nobody else writes it; parsing a client id from a token is an uninterpreted function; environment variables and durations are settled before the run.
- Command line, configuration overlay, logging, HTTP and background spawning: input and output, or settled by one branch.
