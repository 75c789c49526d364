# FakeSIP in Dafny

FakeSIP sits on an NFQUEUE queue. It lets every queued UDP packet through unchanged and sends
SIP-shaped decoy packets beside it, with a TTL too small to reach the other end. This project models
the program's logic and proves what it keeps over whole runs. `dafny verify dfyconfig.toml` checks it.

## What is modelled

* **Firewall rules.** A table is a map from chains to rule lists; every iptables and nft command is a
  step on it. `IptablesRecovery` proves crash recovery of one mangle table: start from any table that
  the program has not touched, let any number of set-ups and clean-ups be cut off after any command,
  and let others edit their own rules in between. A clean-up that then finishes leaves exactly the
  rules of others in their order, and a set-up that finishes leaves what a first one leaves.
  `RulesRecovery` does this for all tables of both back ends and both families, where the program
  does not always recover, and states exactly when it does. `Backends` evaluates the installed rules
  with jump, return, drop and queue, proves each back end against one declarative predicate, and
  states exactly when the two agree. `ErrorFilter` covers the nft rule that drops errors about decoys.
* **Packets.** The builders write into a buffer and are proved against a datagram; the receiver's
  one's-complement checks accept every datagram. Both parsers are proved sound and complete against
  unambiguous grammars: of options (section 3.1 of RFC 791) and of extension headers (section 4 of
  RFC 8200).
* **The cache.** A ring of 500 slots refines a log of observations.
* **Payloads.** The circular list lives on an explicit heap; set-up, rotation and clean-up relink and
  free nodes. The INVITE is built line by line; its length is bounded, its framing is exact, and
  `SipContent` reads the finished text back. The IMS classifier decides a grammar of SIP URIs.
* **The packet handler and the queue loop.** `RawSend` and `NfQueue` handle one packet; `Trace` is
  about all packets of a run, and says from the messages alone which of them get decoys, whose payload
  and which TTL; `QueueLoop` is the receive loop with its two error counters, its end and its waits.
* **The program.** `Options` validates the command line and says exactly which ones it accepts,
  `Program` sets up, serves and cleans up, and `Guarantees` states the results for every accepted
  command line and every run.

## How it is modelled

* Octets, words and ports are numbers with their range as a type; the 32-bit error counter wraps.
* How many decoys a message gets is an exact function of what the kernel does with the sends, which
  comes with the message.
* A call whose outcome the program cannot choose (socket, bind, send, memory, file, the kernel taking
  a verdict, a command's fate) is a parameter. A firewall command may never run, or may run with its
  exit status lost; both read as failures.
* `inbound` (-0) governs the decoys beside outgoing packets and `outbound` (-1) those that answer
  incoming ones, as in the code.
* A put of an unknown address family clears the next cache slot before it gives up. On a full cache
  that loses the oldest entry, and the model says so; `Trace.CacheOverRun` shows that no run does it.
* The 32-bit count of transient errors wraps: `QueueLoop.BackoffFalls` gives the exact condition under
  which a wait is shorter than an earlier one.
* An interface name that ends in '+' is a pattern to iptables, one that ends in '*' is a pattern to
  nft. The verdict of each back end is proved for all names; they agree if and only if both read the
  list alike. `Backends.PrefixesCovered` is that condition on the list itself, exact for names in
  which some character does not occur. With -a no name is read.
* A run clears only the tables that it serves: those of the back end in use, for the families in use.
  After a fallback to iptables, or with other -4, -6 or -z options, rules of an earlier run that was
  cut off stay in the other tables. `RulesRecovery.FallbackLeavesATable` is an instance, and
  `RulesRecovery.RecoveryIsExact` says exactly which earlier settings a run recovers from.
* Where one file exists per IP family, one Dafny module takes the family as a parameter.

## Model

| member | source | states |
|---|---|---|
| IptablesRecovery.CleanupStep | src/ipv4ipt.c:229-255 | any single clean-up command, accepted or refused, keeps the invariant and the foreign rules with their order |
| IptablesRecovery.CleanupPrefix | src/ipv4ipt.c:229-255 | so does a clean-up cut off anywhere |
| IptablesRecovery.CleanupRestores | src/ipv4ipt.c:229-255 | from every table that satisfies the invariant, a finished clean-up leaves the foreign rules in their order and nothing else |
| IptablesRecovery.InstallPrefix | src/ipv4ipt.c:89-226 | set-up cut after any installing command leaves a table that satisfies the invariant, foreign rules untouched |
| IptablesRecovery.InstallFromClean | src/ipv4ipt.c:89-226 | on a clean table no installing command is refused, and together they give exactly the installed chains, for one, many or all interfaces |
| IptablesRecovery.CleanMeans | src/ipv4ipt.c:229-255 | a table is clean if and only if it has no chain of the program and no rule that jumps into one |
| IptablesRecovery.SetupPrefix | src/ipv4ipt.c:89-226 | set-up from any reachable table, its own clean-up included, cut after any command |
| IptablesRecovery.SetupInstalls | src/ipv6ipt.c:89-183 | set-up from any reachable table installs exactly what a first set-up installs |
| IptablesRecovery.EventKeeps | src/ipv4ipt.c:89-255 | one event of a history (cut-off set-up or clean-up, or an edit by others) keeps the invariant; only others change foreign rules |
| IptablesRecovery.HistoryKeeps | src/ipv4ipt.c:89-255 | the same over every history |
| IptablesRecovery.CrashRecovery | src/ipv4ipt.c:89-255 | after any history of cut-off set-ups and clean-ups and of edits by others: a finished clean-up leaves exactly the foreign rules, and a finished set-up leaves what a first set-up leaves, with no installing command refused |
| IptablesRecovery.ForeignTwice | src/ipv4ipt.c:229-255 | taking the program out of a table twice is the same as once |
| MangleTable.Mangle.Execute | src/process.c:34-198 | a command takes effect unless it never ran; success is reported exactly when it ran, was seen to end, and was accepted |
| MangleTable.Mangle.Cleanup | src/ipv4ipt.c:229-255 | the loop over the clean-up commands leaves what the program as a whole leaves, and from a sound table exactly the foreign rules |
| MangleTable.Mangle.Setup | src/ipv4ipt.c:89-226 | success exactly when no fault strikes any command; then the whole ruleset is installed, otherwise the table is what a prefix of the commands leaves |
| MangleTable.Mangle.RuleSetup | src/ipv4ipt.c:207-219 | the loop over the fixed commands stops at the first failure |
| MangleTable.Mangle.InterfaceSetup | src/ipv6ipt.c:31-86 | the two jump rules for each interface, or once for all of them, stopping at the first failure |
| MangleTable.CutOffKeeps | src/ipv4ipt.c:89-226 | every cut-off set-up can be recovered from: the invariant holds and the foreign rules are intact |
| Nftables.LoadFresh | src/ipv4nft.c:186-193 | loading the ruleset after the table was deleted gives exactly the ruleset |
| Nftables.TripleRuns | src/ipv4nft.c:38-93 | the insert and the two adds for one interface are accepted and put the drop first and the jumps last |
| Nftables.WithOneMore | src/ipv4nft.c:96-121 | one interface more changes the described table by exactly those three rules |
| Nftables.Ruletables.Execute | src/process.c:34-198 | what one nft command does to the tables and when it reports success |
| Nftables.Ruletables.Cleanup | src/ipv4nft.c:205-210 | only the program's table of this family goes |
| Nftables.SetupPrefix | src/ipv4nft.c:127-202 | a set-up cut off after any command has touched no table but its own |
| Nftables.SetupInstalls | src/ipv6nft.c:128-191 | from any tables, cut-off runs included, the whole program leaves exactly the described ruleset |
| Nftables.Ruletables.Setup | src/ipv4nft.c:127-202 | success exactly when no fault strikes; then the table is exactly the described ruleset whatever was there before; a failure leaves what a cut-off program leaves; no other table changes |
| Nftables.Ruletables.InterfacesSetup | src/ipv6nft.c:31-125 | the loop over the interfaces adds the rules of each, in order |
| Nftables.Ruletables.InterfaceSetup | src/ipv4nft.c:38-93 | the three commands for one interface |
| NfRules.InstalledThenCleared | src/nfrules.c:41-122 | clearing what set-up installed gives the same tables as clearing what was there before |
| NfRules.ClearedTwice | src/nfrules.c:99-122 | clearing is idempotent |
| NfRules.Firewall.Cleanup | src/nfrules.c:99-122 | exactly the served tables of the chosen back end are cleared; with -f nothing changes |
| NfRules.Firewall.Setup | src/nfrules.c:41-96 | falls back to iptables when nft does not work; succeeds exactly when no command of a served family fails; success installs both families, failure rolls both back to the foreign rules |
| NfRules.Firewall.SetupIptables | src/nfrules.c:56-73 | IPv4 first, IPv6 only if nothing went wrong; each family is installed or left as its cut-off program leaves it |
| NfRules.Firewall.SetupNft | src/nfrules.c:73-90 | the same with nft |
| NfRules.Firewall.Session | src/nfrules.c:41-122 | over one run the tables that it serves end up with the rules of others only, however set-up went; tables that it does not serve keep what earlier runs left; and which back end is in use at the end |
| RulesRecovery.ClearingIsComplete | src/nfrules.c:99-122 | a clean-up leaves no trace of the program in any table if and only if the tables it does not serve (other back end, unused family) held none |
| RulesRecovery.RunKeeps | src/nfrules.c:41-122 | a set-up or clean-up, cut off anywhere, keeps the invariant and all rules of others, and changes only the tables that it serves |
| RulesRecovery.HistoryKeeps | src/nfrules.c:41-122 | the same over every history of runs with any settings and of edits by others |
| RulesRecovery.FinishedSetup | src/nfrules.c:41-90 | a run of the history that is not cut off is what fs_nfrules_setup leaves on success |
| RulesRecovery.FinishedCleanup | src/nfrules.c:99-122 | and a clean-up that is not cut off is what fs_nfrules_cleanup leaves |
| RulesRecovery.FailedSetupIsACut | src/nfrules.c:92-95 | a set-up that fails leaves what a cut-off run of the history leaves |
| RulesRecovery.FailedNftSetupIsACut | src/nfrules.c:92-95 | the same for nft |
| RulesRecovery.RulesRecovery | src/nfrules.c:41-122 | recovery of all tables after any history: others keep their rules; if the unserved tables hold no trace (which is so whenever earlier runs served no other tables), a finished clean-up leaves exactly the rules of others and a finished set-up what a first one leaves |
| RulesRecovery.RecoveryIsExact | src/nfrules.c:56-88 | a clean-up undoes every run with some other settings, wherever that was cut off, if and only if it serves every table that the other one serves |
| RulesRecovery.FallbackLeavesATable | src/nfrules.c:50-54 | the input that shows it: an nft set-up cut off after the load, then a run that falls back to iptables, and the nft table stays |
| Netfilter.TraverseReturns | src/ipv4ipt.c:119-160 | a list of return rules ends the chain exactly when one of them applies |
| Netfilter.TraverseJumps | src/ipv4ipt.c:38-83 | several jumps to one chain decide like a single one |
| Netfilter.TraverseDrops | src/ipv4nft.c:38-66 | drop rules ahead of a chain |
| Netfilter.BlockIsRange | src/ipv4ipt.c:119-145 | an aligned prefix match is a range of addresses |
| Backends.LocalRanges | src/ipv4nft.c:131-165 | the eight IPv4 blocks cover exactly the listed local, private, multicast and reserved ranges |
| Backends.GlobalUnicastRange | src/ipv6ipt.c:115-130 | both files exclude exactly the IPv6 addresses outside 2000::/3 |
| Backends.SameBlocks | src/ipv4ipt.c:119-160 | the dotted prefixes of one file are the prefixes of the other |
| Backends.QueueRulesVerdict | src/ipv4ipt.c:165-192 | the last chain queues exactly unmarked UDP packets among the first five of their connection |
| Backends.ForeignUndisturbed | src/ipv4ipt.c:110-113 | foreign chains decide the same with the program's chains present |
| Backends.IptVerdict | src/ipv4ipt.c:89-226 | the installed iptables rules queue a packet exactly when it is selected, and leave any other packet to the foreign rules; for all interface names |
| Backends.NftVerdict | src/ipv4nft.c:127-202 | the installed nft rules drop exactly the tagged errors on a selected interface, queue exactly the selected packets, and let the rest pass; for all interface names |
| Backends.PlainNamesSelect | src/ipv4ipt.c:38-83 | for names that are not patterns both tools select the same interfaces |
| Backends.NamesReadAlike | src/ipv4nft.c:96-121 | a name means the same to both tools if and only if it ends in neither '+' nor '*' |
| Backends.CoveredReadsAlike | src/ipv4nft.c:80-122 | the checkable case: with -a, with plain names, or when every '+' prefix extends some '*' prefix and the reverse, both tools select the same interfaces |
| Backends.CoveredIsExact | src/mainfun.c:255-268 | when some character occurs in no name of the list, as '/' never does, that condition is exact |
| Backends.BackendsAgree | src/ipv6nft.c:128-191 | for every UDP packet, hook, family, mark, packet count and interface list that both tools read alike, iptables queues the packet exactly when nft does, and with plain names or -a that is the declarative selection |
| Backends.AgreementIsExact | src/ipv4ipt.c:31-86 | over rules of others that do not use the queue, both back ends queue the same UDP packets if and only if both tools read the list alike |
| Backends.AgreementIsCheckable | src/ipv4nft.c:80-122 | for such names, both back ends queue the same UDP packets if and only if -a is given or every '+' prefix extends some '*' prefix of the list and the reverse |
| Backends.DecoysAreNotQueued | src/ipv4ipt.c:165-170 | a UDP packet that carries the mark passes both rulesets untouched, at both hooks, on every interface, for all interface names |
| Backends.MarkTestIsExact | src/mainfun.c:372-378 | the option parser's test of mark against mask holds if and only if neither back end ever selects a packet with the mark |
| Wrappers.AndKeepsAll | src/mainfun.c:374 | the test of the mark against the mask holds if and only if every bit of the mark is a bit of the mask |
| Backends.DropRulesApply | src/ipv4nft.c:38-66 | a drop rule applies exactly to a tagged error on an interface in the list |
| ErrorFilter.PathKeeps | src/ipv4nft.c:38-66 | after any number of hops all bytes are the same except TTL or hop limit and the IPv4 header checksum |
| ErrorFilter.DropRuleMeans | src/ipv6nft.c:38-66 | the rule's byte offsets hit exactly the quoted identification or flow word |
| ErrorFilter.ErrorVerdict | src/ipv4nft.c:38-66 | a time-exceeded message is dropped if and only if it comes in on a selected interface and quotes the tag; messages about other packets never are |
| ErrorFilter.Tagged4 | src/ipv4pkt.c:123 | every built IPv4 datagram carries the tag |
| ErrorFilter.Tagged6 | src/ipv6pkt.c:147 | every built IPv6 datagram carries the tag |
| ErrorFilter.DecoysKeepTheTag | src/ipv4nft.c:38-66 | a tag is still in the quote after any number of hops |
| ErrorFilter.DecoyErrorDropped4 | src/ipv4pkt.c:118-147 | every error about a built IPv4 decoy that comes in on a selected interface is dropped |
| ErrorFilter.DecoyErrorDropped6 | src/ipv6pkt.c:146-169 | the same for IPv6 |
| Checksum.FoldIsResidue | src/ipv4pkt.c:138-147 | folding carries preserves the residue modulo 0xFFFF and is zero only for zero (RFC 1071) |
| Checksum.FoldByHalves | tests/test_packets.c:16-35 | folding all carries of a round at once gives the same as one at a time |
| Checksum.FieldMeans | src/ipv4pkt.c:141-147 | the running sum, folded and complemented at the end, is the complement of the sum of all words |
| Checksum.UdpComplementIsUnique | src/ipv4pkt.c:141-147 | the stored value, with computed zero sent as all ones, is the one and only non-zero value that a receiver accepts |
| Checksum.ComplementVerifies | src/ipv4pkt.c:138 | the header checksum makes the header verify |
| Checksum.WordSumConcat | tests/test_packets.c:16-35 | the receiver's sum splits at even offsets, also before a tail of odd length |
| Packets.UdpVerifies | src/ipv4pkt.c:141-147 | for either family the UDP field of a datagram is never zero and the only non-zero one that verifies with the pseudo-header |
| Ipv4Pkt.ReceiverTakesHeader | src/ipv4pkt.c:118-141 | the receiver accepts every built header: version, header length, total length, checksum; and it is the only fragment, not to be fragmented, with routine service |
| Ipv4Pkt.DerivationIsUnique | src/ipv4pkt.c:36-86 | a packet splits in at most one way into fixed header, options, UDP header and data |
| Ipv4Pkt.Parse | src/ipv4pkt.c:36-86 | accepts a packet if and only if it splits that way with protocol 17, whatever its options and other header bytes are, and returns the addresses, TTL, ports, UDP offset and data length of that split |
| Ipv4Pkt.ReceiverAccepts | src/ipv4pkt.c:131-147 | and every built UDP datagram: exact length, and a checksum that is not zero and verifies with the pseudo-header; payloads of either parity |
| Ipv4Pkt.MakeThenParse | src/ipv4pkt.c:36-150 | a built datagram splits in exactly one way, which reads back as addresses, TTL, ports, payload length and payload |
| Ipv4Pkt.Make | src/ipv4pkt.c:89-150 | in the buffer: exactly the datagram, with the rest untouched, or -1 and nothing written; -1 exactly for another family or too small a buffer; beyond 65535 bytes the length fields keep their low 16 bits |
| Ipv4Pkt.FillPacket | src/ipv4pkt.c:114-147 | fields, payload and then the two checksums, with the rest untouched |
| Ipv4Pkt.FillHeader | src/ipv4pkt.c:118-131 | writes the twenty header bytes and nothing else |
| Ipv4Pkt.FillUdp | src/ipv4pkt.c:132-137 | writes UDP header and payload and nothing else |
| Ipv4Pkt.SetHeaderCheck | src/ipv4pkt.c:138-140 | patches the two checksum bytes of the header, computed over the header as it stands |
| Packets.SetUdpCheck | src/ipv4pkt.c:141-147 | patches the two UDP checksum bytes of either family, zero replaced by all ones |
| Ipv6Pkt.DerivationIsUnique | src/ipv6pkt.c:50-113 | a packet has at most one reading under the grammar of section 4 of RFC 8200 |
| Ipv6Pkt.TrailingIsIgnored | src/ipv6pkt.c:60-70 | bytes captured after the declared length change nothing |
| Ipv6Pkt.TrailingAddsNothing | src/ipv6pkt.c:60-70 | nor can they make an unacceptable packet acceptable |
| Ipv6Pkt.Parse | src/ipv6pkt.c:36-114 | accepts a packet if and only if the grammar derives it (version 6, at most 16 options headers, Hop-by-Hop only first, exact UDP length), and returns that derivation's UDP offset, addresses and lengths |
| Ipv6Pkt.WalkHeaders | src/ipv6pkt.c:72-103 | the while loop stays within the declared length, stops at the UDP header of the derivation, and fails only if there is none |
| Packets.UdpAccepted | src/ipv6pkt.c:154-169 | for either family the receiver accepts the UDP part: exact length, checksum present and correct (section 8.1 of RFC 8200) |
| Ipv6Make.ReceiverAccepts | src/ipv6pkt.c:117-172 | every built IPv6 datagram passes the receiver, UDP checksum never zero |
| Ipv6Make.MakeThenParse | src/ipv6pkt.c:36-172 | the grammar reads a built datagram, with anything captured behind it, back as exactly the inputs |
| Ipv6Make.Make | src/ipv6pkt.c:117-172 | the datagram in the buffer and the rest untouched, or -1 and nothing written; beyond 65535 bytes the length field keeps its low 16 bits |
| Packets.SumWithField | src/ipv4pkt.c:138-147 | a checksum field adds exactly its value to the sum of a packet in which it is zero |
| Packets.Put | src/ipv4pkt.c:118-137 | a copy changes exactly the bytes it covers |
| SrcInfo.NewestMeans | src/srcinfo.c:150-165 | the backward search returns the newest match in the window, or -1 when there is none |
| SrcInfo.ReplayMeans | src/srcinfo.c:103-138 | the log holds the accepted observations in order; its oldest entry counts as cleared exactly when the cache is full and a put of an unknown family came after the last accepted one |
| SrcInfo.LookupAfter | src/srcinfo.c:103-169 | after any sequence of puts, get finds the newest match among the last 500 accepted observations; a rejected put of an unknown family can cost at most the very oldest of a full 500 |
| SrcInfo.PutHolds | src/srcinfo.c:114-137 | each put keeps the ring in step with the log, the hole included |
| SrcInfo.AppendHolds | src/srcinfo.c:126-137 | writing the next slot and moving on appends an entry and overwrites none of the last 499 |
| SrcInfo.BlankHolds | src/srcinfo.c:114-124 | clearing the next slot loses the oldest entry of a full ring, and nothing else |
| SrcInfo.LookBack | src/srcinfo.c:150-165 | slot i back from the write position holds the i-th newest entry, also across the wrap |
| SrcInfo.Cache.Setup | src/srcinfo.c:75-91 | an empty cache; fails exactly when it is set up already or memory is short |
| SrcInfo.Cache.Cleanup | src/srcinfo.c:94-100 | nothing is held afterwards |
| SrcInfo.Cache.Put | src/srcinfo.c:103-138 | the ring refines the log; success exactly for a well-formed put of a known family on a cache that is set up |
| SrcInfo.Cache.Get | src/srcinfo.c:141-169 | the ring search gives the log's answer |
| Numerals.PrintThenRead | src/payload.c:206-223 | a printed decimal or hexadecimal numeral reads back as its number |
| Numerals.ParseUllMeans | src/mainfun.c:101-122 | parse_ull returns v if and only if the text is digits, or 0x and hexadecimal digits, that denote v below 2^64: no sign, no space, no tail |
| Numerals.EveryNumberHasNumerals | src/mainfun.c:101-122 | every 64-bit number can be given in both bases |
| SipUri.ImsNameIsImsHost | src/payload.c:139-161 | the two names, or non-empty text before the suffix, without one trailing dot and in either case |
| SipUri.CutsIntoParts | src/payload.c:119-146 | the pointer walk cuts a well-formed URI exactly into user, host, port and tail |
| SipUri.OnlyTheHostMatters | src/payload.c:119-162 | on a well-formed URI the result depends on nothing but the host |
| SipUri.ClassifierIsTheGrammar | src/payload.c:119-162 | a URI is classified as IMS if and only if the grammar reads it with an IMS host |
| SipUri.AppendedTailIsIgnored | src/payload.c:125-130 | appending parameters or headers never changes the result |
| SipUri.UserIsIgnored | src/payload.c:131-136 | replacing the user by one free of '@', ';' and '?' never changes the result |
| SipMessage.SdpLength | src/payload.c:206-212 | for all draws the session description has at most 390 bytes, so its 640-byte buffer never truncates |
| SipMessage.MessageLength | src/payload.c:214-231 | at most 833 bytes besides the three copies of the URI |
| SipMessage.FailsOnlyOnRejectedUri | src/payload.c:165-234 | make_sip_invite fails if and only if its own test rejects the URI; otherwise the whole message, at most 1193 bytes, is in the 1200-byte buffer |
| SipFraming.FirstBlankLine | src/payload.c:80-92 | the first blank line is the one that ends the headers |
| SipFraming.ContentLengthIsExact | src/payload.c:214-231 | Content-Length is the number of bytes after the first blank line (section 20.14 of RFC 3261), for all draws |
| SipFraming.EveryDecoyIsFramed | src/payload.c:165-234 | the same for every message the function returns, from a given URI or its own |
| SipContent.LinesOfJoin | src/payload.c:47-92 | a reader that splits the text at CR LF gets back the lines it was made of |
| SipContent.RequestLineReads | src/payload.c:80 | the first line splits at its spaces into INVITE, the URI and SIP/2.0 |
| SipContent.HeadersRead | src/payload.c:75-92 | the header fields read back by name and value: the URI and its user in To, the one local address in Via, From, Call-ID and Contact, INVITE in CSeq, and the three IMS fields if and only if the URI is classified as IMS |
| SipContent.OfferReads | src/payload.c:47-73 | the body names the local address as origin and connection and makes the AMR offer for an IMS URI, the PCMU offer for any other |
| SipContent.MessageSays | src/payload.c:165-234 | the finished text, read back, says all this, with the IMS parts if and only if the grammar reads the URI with an IMS host |
| SipContent.DrawnAddress | src/payload.c:176-178 | the local address lies in 100.64.0.0/10, and neither of its last octets is 0 or 255 |
| SipContent.EveryInviteSays | src/payload.c:165-234 | every text that make_sip_invite returns says this for the URI that was given, or for an invented user at the local address, and its Content-Length is the number of bytes after the blank line |
| PayloadList.HeadAfter | src/payload.c:375-392 | after k steps of the rotation the head is element k mod n |
| PayloadList.InsertRing | src/payload.c:305-313 | linking a node behind the current one gives one closed ring, in option order |
| PayloadList.FreeHead | src/payload.c:362-370 | freeing the head of what is left leaves the rest of the chain intact |
| PayloadList.PayloadRing.Insert | src/payload.c:300-313 | one allocation and the relinking of two nodes |
| PayloadList.PayloadRing.Round | src/payload.c:299-342 | one round of the loop builds one payload more, or shows that set-up must fail |
| PayloadList.PayloadRing.Add | src/payload.c:300-341 | a node and its payload; on failure the ring is still closed |
| PayloadList.PayloadRing.Fill | src/payload.c:299-342 | the loop succeeds exactly when every entry up to the terminator gets memory and can be prepared |
| PayloadList.PayloadRing.Setup | src/payload.c:292-355 | success leaves the payloads in option order, starting at the first; failure at any entry frees every node exactly once and leaves the list empty |
| PayloadList.PayloadRing.Abandon | src/payload.c:351-354 | after a failure every node is freed exactly once |
| PayloadList.PayloadRing.Cleanup | src/payload.c:358-372 | from a complete or partial ring: terminates, frees every node exactly once, reads none after it was freed, and leaves nothing |
| PayloadList.PayloadRing.Get | src/payload.c:375-392 | returns the current payload and moves on by one; fails exactly when there is none |
| PayloadList.PayloadRing.TakeMany | src/payload.c:375-392 | the k-th of any number of gets returns payload k mod n |
| Payload.PreparedFits | src/payload.c:315-337 | every prepared payload has at most 1200 bytes |
| Payload.BytesCarryText | src/payload.c:214-231 | the payload bytes of a message are its characters |
| Options.OptionArray.Append | src/mainfun.c:192-217 | keeps the options in order with a zero behind them, and fails only if the array must double and cannot |
| Options.OptionArray.Grow | src/mainfun.c:199-210 | twice the capacity, old content kept, new half zeroed |
| Options.TakeOption | src/mainfun.c:160-350 | one option goes to the right array or setting as the fold says and is refused exactly when the fold refuses it; only -b, -u and -i can lack memory, exactly when their array must grow and cannot |
| Options.ParseOptions | src/mainfun.c:160-396 | the loop with its two growing arrays gives the outcome of the fold, with every -b, -u and -i value in order; only a lack of memory rejects more, and not for up to thirty options |
| Options.LoopKeeps | src/mainfun.c:160-360 | every number that was stored is in its range, and every interface name has 1 to 15 bytes |
| Options.FinishAccepts | src/mainfun.c:364-396 | the checks after the loop leave a complete and consistent configuration |
| Options.FlagsOfLoop | src/mainfun.c:163-181 | after the loop each flag is set if and only if its option occurs |
| Options.NumbersOfLoop | src/mainfun.c:274-340 | each number is the last one given, or its default |
| Options.ListsOfLoop | src/mainfun.c:183-268 | interfaces and payloads are all there, in command-line order |
| Options.FlagsMean | src/mainfun.c:364-370 | a direction or family given alone is the only one, none means both, and every other flag is set if and only if it is given |
| Options.CommandLineMeans | src/mainfun.c:160-396 | interfaces and payloads in order, the last of several numbers counts, the mask defaults to the mark, the payload to a generated INVITE |
| Options.AcceptedCommandLine | src/mainfun.c:160-396 | every accepted command line gives the ranges that the rest relies on: a direction, a family, an interface, mark within mask, 1 to 10 repeats, TTL at least 1, percentage below 100 and only with hop estimation, and at least one payload |
| Options.LoopAccepts | src/mainfun.c:160-350 | the option loop passes if and only if every option is known and its value is proper: not empty for -b and -u, 1 to 15 bytes for -i, and a numeral from 1 to the written-out limit for a number |
| Options.LastNumberMeans | src/mainfun.c:274-340 | the value of a number is what the last option of its kind denotes, or without any the written-out preset |
| Options.GivenIsPositive | src/mainfun.c:274-340 | a given number is at least 1, so that 0 stands for "not given" |
| Options.AcceptedExactly | src/mainfun.c:160-396 | a command line is accepted if and only if every option is proper, -a or some -i is given, a mask that is given has every bit of the mark, and -y and -g are not given together |
| Sockets.SocketSet.RawsockSetup | src/rawsend.c:241-290 | a marked open socket, or -1 and nothing left open |
| Sockets.SocketSet.Setup | src/rawsend.c:293-320 | success exactly when every needed socket opens; failure leaves none open |
| Sockets.SocketSet.Cleanup | src/rawsend.c:323-341 | every descriptor is closed and both bind caches are reset |
| Sockets.SocketSet.BindIface | src/rawsend.c:113-146 | by index while the kernel knows that option, by name ever after; success exactly when that works; failure leaves the binding |
| Sockets.SocketSet.Bind4 | src/rawsend.c:149-192 | binds unless the socket is bound to the interface already; success exactly then or when binding works; the cached interface stays equal to the real binding, also after a failure |
| Sockets.SocketSet.Bind6 | src/rawsend.c:149-192 | the same for IPv6 |
| Sockets.SocketSet.BindFor | src/rawsend.c:149-180 | the socket of the right family, bound to the packet's interface exactly when it was or can be |
| Sockets.SocketSet.SendtoSnat | src/rawsend.c:149-192 | a raw IP packet leaves exactly when its socket is or can be bound to the packet's own interface and the kernel takes it; it leaves marked, through that socket, and otherwise not at all |
| Sockets.SocketSet.SendtoLink | src/rawsend.c:224-233 | a link-layer packet leaves marked, to the given neighbour on the given interface |
| Decoys.HopEstimateIsLeast | src/rawsend.c:56-65 | the estimate is the shortest distance from an initial TTL of 64, 128 or 255 that explains the TTL seen |
| Decoys.EstimateIsDistance | src/rawsend.c:56-65 | the estimate is that distance, and it exceeds a reach exactly when every initial TTL that explains the one seen lies beyond it |
| Decoys.WhoGetsDecoys | src/rawsend.c:397-466 | a packet gets decoys if and only if its direction is in use, and -g is given or its other end lies beyond the configured TTL |
| Decoys.DecoyTtlBounds | src/rawsend.c:67-83 | with -g a decoy leaves with the configured TTL; otherwise with the larger of that and the percentage of the distance, which is always strictly below the distance and fits eight bits |
| Decoys.PlanFollowsTheFlow | src/rawsend.c:424-476 | decoys are planned from the local end to the remote end of the very flow that caused them, in its family, through the link for incoming packets and a raw socket for outgoing ones |
| Decoys.DatagramReads | src/rawsend.c:195-222 | a built decoy of either family reads back as its plan: ends, ports, TTL and payload |
| RawSend.CopiesSentMeans | src/rawsend.c:424-432 | of the sends for a packet none goes out if the first needs a binding that fails, and otherwise all before the first that the kernel does not take |
| RawSend.AllCopiesSent | src/rawsend.c:467-476 | all copies go out if and only if the kernel takes each and the first finds or gets its binding |
| RawSend.SmoothSendsGo | src/rawsend.c:113-192 | sends that meet no obstacle all go out, whatever was bound before |
| RawSend.Handler.Build | src/rawsend.c:195-222 | the planned datagram; a payload of up to 1200 bytes always fits the 1600-byte buffer |
| RawSend.Handler.SendPayload | src/rawsend.c:195-238 | one decoy, exactly the planned datagram, goes out exactly when its binding and the kernel let it, and nothing otherwise |
| RawSend.Handler.SendAll | src/rawsend.c:424-432 | exactly the copies before the first failing send, and success exactly when that is all `repeat` of them |
| RawSend.Handler.Remember | src/rawsend.c:384-446 | an incoming packet is remembered, an outgoing one looked up |
| RawSend.Handler.Respond | src/rawsend.c:418-432 | takes exactly one payload, also when sending fails, and sends that many copies of it |
| RawSend.Handler.Handle | src/rawsend.c:344-493 | the complete effect of one packet on cache, rotation, bindings and sent decoys as a function of what the kernel does with the sends; the verdict is not to accept exactly if the packet does not parse or does not get all its decoys |
| NfQueue.Queue.Callback | src/nfqueue.c:118-183 | every packet with a header gets exactly one verdict, accept with unmodified bytes, whatever fails inside; without a header nothing happens |
| NfQueue.Queue.FillLink | src/nfqueue.c:92-168 | no link exactly without a payload, without any device, or with an address over eight octets; otherwise the outgoing device wins, the interface is not 0, and the neighbour's address is the given octets with zeros behind |
| NfQueue.Queue.Setup | src/nfqueue.c:186-286 | both handles or, after any failure, none |
| NfQueue.Queue.Cleanup | src/nfqueue.c:289-301 | no handle is left |
| Trace.CacheOverRun | src/rawsend.c:384-395 | in every run the cache holds exactly the senders of the incoming messages so far, and never has the hole |
| Trace.NewestObservation | src/rawsend.c:442-447 | the estimate for an outgoing message comes from the newest of the last 500 observations of its destination on its interface, and only without one the lookup misses |
| Trace.LastIsNewest | src/srcinfo.c:150-165 | the newest remembered observation is of the last incoming message from that end on that interface |
| Trace.LastSeen | src/rawsend.c:442-447 | the TTL that an estimate starts from, in terms of the messages alone: that of the message itself if it is incoming, otherwise of the last message from the other end on that interface if it is among the last 500, otherwise 0 |
| Trace.PlansAreForThem | src/rawsend.c:344-476 | in every sequence of messages the ones that get decoys are exactly the readable ones of a direction in use whose other end was last seen beyond the configured TTL, or all with -g |
| Trace.TurnsAreCounted | src/rawsend.c:418-469 | the turns of the rotation before a message are the number of these messages before it |
| Trace.StepOfRun | src/rawsend.c:344-493 | a message without a plan sends nothing and keeps the rotation; one with a plan moves it by one and sends exactly the copies before the first failing send |
| Trace.RotationOverRun | src/rawsend.c:418-469 | the rotation advances exactly once per planned message; which these are is stated by PlansAreForThem and TurnsAreCounted |
| Trace.DecoysOverRun | src/rawsend.c:344-493 | every decoy of every run carries the mark, the planned TTL and the payload of option k mod n, goes to the remote end of its flow on the packet's own interface, through the neighbour that an incoming packet came from; their number is exactly that of the sends before the first that fails |
| Trace.AllDecoysOverRun | src/rawsend.c:424-476 | in every run a planned message gets all `repeat` decoys if and only if the kernel lets all its sends go |
| Trace.SmoothMessage | src/rawsend.c:424-476 | and it does whenever no send meets an obstacle, whatever failed before |
| Trace.TtlOverRun | src/rawsend.c:404-465 | in every run each decoy's TTL, as it is on the wire, is the configured one with -g, and otherwise the raised one, below the distance that the last TTL seen from the other end stands for |
| Trace.DecoyTotal | src/rawsend.c:344-493 | all decoys of a run number at most `repeat` times the turns of the rotation, and exactly that many if no send meets an obstacle |
| QueueLoop.Loop | src/nfqueue.c:304-404 | the loop with its two counters ends as the fold over its events says, gives each message before the end its verdict, and waits once, as long as due, for every error before the end and for nothing else |
| QueueLoop.WhenItEnds | src/nfqueue.c:374-395 | the loop ends by the packet-error path if and only if handling fails 20 times with no success between, before any other end |
| QueueLoop.OneMoreResult | src/nfqueue.c:382-395 | one more result completes a first row of 20 failures exactly when it extends a streak of 19 |
| QueueLoop.TransientErrorsNeverEnd | src/nfqueue.c:348-366 | inserting any number of transient receive errors anywhere does not change how the loop ends |
| QueueLoop.DelaysAreBounded | src/nfqueue.c:72-89 | every wait of every run lies between 10 and 1000 ms |
| QueueLoop.WaitsAreExact | src/nfqueue.c:304-395 | read off the events: one wait for each transient error and each failed datagram before the end, the twentieth failure in a row excluded, of 10 ms doubled min(7, k) times and at most a second, for the k-th of its kind; and every datagram up to the end is handled |
| QueueLoop.EndIsExact | src/nfqueue.c:322-404 | the loop ends normally for the exit flag, by packet errors for a datagram, and as a failure for any other event that ends it |
| QueueLoop.TheLoopHasAnEnd | src/nfqueue.c:322-404 | every sequence of events has a number of events that the loop takes before the one that ends it |
| QueueLoop.EndIsUnique | src/nfqueue.c:322-404 | and only one |
| QueueLoop.BackoffMeans | src/nfqueue.c:72-82 | the shifted delay is 10 ms times two to the power of the count, at most seven, and at most a second |
| QueueLoop.BackoffGrows | src/nfqueue.c:72-82 | a longer streak never waits less |
| QueueLoop.CountsUnanswered | src/nfqueue.c:358-380 | the transient counter is the number of transient errors since the last datagram, modulo 2^32 |
| QueueLoop.BackoffFalls | src/nfqueue.c:72-82 | below 2^32 errors the wait never falls as a streak grows; beyond, it falls exactly when the counter has wrapped to less than 7 and less than before |
| Program.PayloadsFit | src/payload.c:299-342 | the payloads built from the options are in command-line order and fit their buffers |
| Program.Program.SetupHandler | src/mainfun.c:433-449 | payloads, cache, sockets in order; success exactly when each succeeds; a failure releases what came before |
| Program.Program.Setup | src/mainfun.c:433-455 | and then the queue, with the same roll-back |
| Program.Program.Cleanup | src/mainfun.c:510-520 | queue, sockets, cache and payloads are released |
| Program.Program.ListenThenClear | src/mainfun.c:498-508 | the loop runs with the rules that were installed, and they are cleared however it ends |
| Program.Program.Serve | src/mainfun.c:457-508 | the rules are set up while the queue is open; the loop runs with the whole ruleset installed; the served tables end up with the rules of others only |
| Program.Program.Execute | src/mainfun.c:433-520 | reaches the loop exactly when nothing fails before it; then the handler makes a run from the fresh state under the whole ruleset and every message gets its verdict; whatever happens, nodes, cache, sockets and queue are released and the served tables hold none of the program's rules |
| Guarantees.EveryDecoy | src/mainfun.c:160-535 | for every accepted command line, every decoy of every run is for a due message and has the payload of option k mod n, where k messages were due before, the flow's destination, the mark, and the due TTL, with -g the last -t |
| Guarantees.HandlerReads | src/rawsend.c:360-378 | the handler reads a message if and only if it comes whole, with a device, in a served family, and that family's grammar reads its packet |
| Guarantees.DueMeans | src/rawsend.c:397-466 | a message gets decoys if and only if it is due, read off the options: readable, its direction given or the other one not, and with -g or with its other end more than the last -t away |
| Guarantees.PayloadsGoToTheDue | src/rawsend.c:418-469 | in every run of every accepted command line the rotation moves for a message if and only if it is due, so it has moved once per due message before |
| Guarantees.EveryFileDecoy | src/payload.c:237-288 | for every accepted command line, every decoy of a -b option ends in exactly the bytes of that option's file |
| Guarantees.EverySipDecoySays | src/payload.c:165-234 | for every accepted command line, every decoy of a -u option or of the default ends in the bytes of an INVITE that, read back, asks for that URI, names one local address throughout, makes the IMS offer exactly for an IMS host, and is framed by its Content-Length |
| Guarantees.StartsExactly | src/mainfun.c:433-455 | for every accepted command line the program opens its queue if and only if every file can be read and has at most 1200 bytes, every URI starts with sip:, has 5 to 120 bytes and no white space, and memory, the needed sockets and the queue are to be had |
| Guarantees.DecoysPerMessage | src/mainfun.c:292-299 | for every accepted command line: no decoy for a message that is not due, at most ten for any other, and all that the last -r asks for if and only if the kernel takes the sends |
| Guarantees.NoDecoyForADecoy | src/rawsend.c:258-262 | for every accepted command line, a packet with the mark that decoys leave with is queued by neither back end |

## Left out

- Backends.DecoysAreNotQueued: packets of protocols other than UDP are not covered; decoys are UDP.
- IptablesRecovery.CrashRecovery: assumes that others never touch the program's chains or the jumps into them, and that clean-up commands fail only because the kernel refuses them.
- RulesRecovery.RulesRecovery: the same assumption, for the tables of both back ends.
- The UDP checksum of packets over 65535 bytes, which no buffer of the program can hold.
- Ipv4Pkt.Parse: no case for a negative captured length, which the queue callback filters out before the call.
- PayloadList.PayloadRing.Setup: on a list that is not empty the new payloads go behind the old ones; the program calls it once.
- The firewall commands' text: formatting with snprintf, quoting of interface names inside nft rules, and the queue-bypass flag.
- The order in which the kernel visits the chains of several tables, and what hardware or other programs do to a mark.
- The checksum routines of libnetfilter_queue and strtoull: taken to follow RFC 1071 and the usual reading of numerals.
- Several queue messages in one datagram: the model takes one message per datagram.
- Sockets, netlink, poll, fork and exec, files and logging, other than through their outcomes.
- Random number quality, the time a sleep really takes, and signal delivery; exit is an event.
- The options -d, -k, -s and -w, scanning /proc, daemonizing, process priority and usage text.
- The null out-pointers of the cache lookup, and text encodings: a character stands for a byte.
- The LuCI view, the OpenWrt service and packaging.
