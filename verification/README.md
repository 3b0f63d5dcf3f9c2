# A verified model of the stormcoredns server logic

The project models, in Dafny, the parts of a DNS server whose correctness is a
matter of logic rather than of I/O, and proves what they promise over all inputs
and all runs:

- the authoritative zone engine: building a zone from records, referral, DNAME,
  exact match, wildcards, NODATA and NXDOMAIN, and NSEC/NSEC3 proofs
  (`Names`, `Records`, `Order`, `Bits`, `Base32`, `Zone`, `Denial`, `Lookup`,
  specified over the records in `Outcomes`, with results in `Answers`,
  `Sections`, `AnyAnswers`, `DenialProofs`, `DenialReplies`, `DenialRecords`,
  `WildcardReplies` with its failing case `TwoWildcards`, `AliasTargets` and `Server`);
- zone transfer, from the dump through the messages to the rebuilt zone
  (`Transfer`), and the refresh loop of a secondary (`Secondary`);
- the Kubernetes store, its watches and its answers (`KubeModel`, `KubeStore`,
  `KubeWatch`, `KubeAnswers`, `KubeNames`);
- the expression parser of views (`View`, `ViewPrint`,
  `ViewMinimal`, `ViewPrecedence`);
- the response cache over whole histories (`Cache`, `CacheRuns`), its
  single-flight refresh (`Refresh`), the forwarder (`Forward`) and its admission
  counter (`Admission`);
- names as text (`DnsText`), reverse names and zones (`Reverse`);
- the Corefile parser, imports and the plugins' token cursor (`Corefile`,
  `Directives`, `CorefileParser`, `Imports`, `Dispenser`).

Code that changes things step by step is modelled by methods with loops and by
classes, each proved against a specification function or relation; the properties
are then lemmas about the specification. Concurrent code is a state machine over
its atomic steps, and results hold after every interleaving.

Where the code does less than a reader would expect, the model keeps the code and
states exactly when the expectation holds:

- an empty non-terminal `*.ce` does not stop an NXDOMAIN (`zone.rs` 471-502),
  although section 2.2.3 of RFC 4592 makes the name exist;
- the comments at `forward.rs` 423 and 435 say that all upstreams are tried once
  when all are down; the loop makes one attempt, on the last of the list;
- a refused query still counts until it has left, so the admission gate can refuse
  while nobody is past it (`forward.rs` 384-391);
- the service, external and pod address indexes lose entries when two stored
  objects share an address (`store.rs` 166-168);
- a slice that changes its service label keeps its old entry, after a relist
  (`store.rs` 476-487) and after an event of the watch alike;
- a chain of aliases that expands two wildcards proves only the last of them,
  because each expansion replaces the one before (`zone.rs` 369);
- zone cuts are looked for on the path of the name asked and not on that of an alias
  target, so an alias can bring authoritative answers from below a cut
  (`zone.rs` 294-316);
- a service ignored for want of ready endpoints keeps its reverse name, which then
  does not resolve (`kubernetes/mod.rs` 283-286);
- a denial cached later than an answer for the same key does not answer while the
  success store holds the key (`cache.rs` 275);
- an AXFR of a zone with a second SOA record loses records (`secondary.rs` 62-87);
- reverse names with `+1` or `01` decode to the same address as the plain ones
  (`dnsutil/mod.rs` 156-171);
- the cursor reports more tokens for ever inside a block that never closes
  (`dispenser.rs` 97-105). It does not look at quoting, so the directive `foo "{"`,
  which the parser accepts as balanced, is such a block; directives with a block of
  their own never are.

`dafny verify dfyconfig.toml` checks the project.

## Model

| member | source | states |
|---|---|---|
| `Zones.FromRecords` | src/plugins/file/zone.rs:89-139 | fails exactly when the apex has no SOA; otherwise the zone is the grouping of the in-zone records (first of equal data wins), its existing names are the ancestor closure of the owners, its NSEC and NSEC3 chains are the strictly sorted owners and decoded hashes, and it is signed exactly when an in-zone RRSIG came |
| `Zones.Nodes` | src/plugins/file/zone.rs:124-130 | walking up from each owner and stopping at the first name already present still gives the whole ancestor closure up to the origin |
| `Records.BuildGroups` | src/plugins/file/zone.rs:94-114 | at every owner and type the built map holds exactly the records of that set, duplicates dropped, in order, and the signatures that cover it |
| `Records.SelectedIs` | src/plugins/file/zone.rs:94-114 | a set holds exactly the records that are the first with their owner, type and data: nothing else is lost and nothing added |
| `Records.SelectedSigsIs` | src/plugins/file/zone.rs:94-114 | and every signature that covers the set, as often as it came |
| `Denial.ClosestEncloser` | src/plugins/file/zone.rs:457-466 | the upward loop finds the longest existing proper ancestor, the origin if none |
| `Outcomes.NodesExist` | src/plugins/file/zone.rs:124-130 | a name is among the nodes exactly when some in-zone record is owned at or below it |
| `Outcomes.EncloserIsClosest` | src/plugins/file/zone.rs:457-466 | for a name that does not exist, the closest encloser is the longest existing proper ancestor, and the next closer name is one label longer, above the name, and does not exist |
| `Lookups.Delegation` | src/plugins/file/zone.rs:240-266 | for every name, in the zone or not, the downward loop finds the topmost cut on the path unless a DNAME above it, or a DS query at the cut itself, takes precedence |
| `Lookups.DnameFor` | src/plugins/file/zone.rs:270-290 | the downward loop finds the topmost DNAME owner strictly above the name |
| `Lookups.WildcardFor` | src/plugins/file/zone.rs:471-478 | a wildcard answers only for a name that does not exist, and only from its closest encloser |
| `Lookups.Chase` | src/plugins/file/zone.rs:325-434 | the loop that updates answers, current name and hop count walks exactly the chain of steps of the zone, at most eight |
| `Lookups.Lookup` | src/plugins/file/zone.rs:294-453 | the whole lookup returns the reply defined over the chain: referral, YXDOMAIN, negative, NODATA or positive with additional data |
| `Sections.ReferralIs` | src/plugins/file/zone.rs:299-321 | over the records, for a delegated name with or without DNSSEC: no answers, not authoritative, the whole NS set of the cut first in the authority section and alone without DNSSEC, and as additional data exactly the zone's addresses of the hosts the authority section names |
| `Sections.GlueGoesAlong` | src/plugins/file/zone.rs:221-236 | so every A and AAAA record the zone has of a server of the cut goes along |
| `Sections.AdditionalIs` | src/plugins/file/zone.rs:221-236 | additional data are exactly the A and AAAA sets, signed if wanted, of the name servers, service hosts and mail exchanges named that are in the zone |
| `Sections.NegativeIs` | src/plugins/file/zone.rs:184-202 | every negative answer has the zone's first SOA, its TTL cut to the minimum it states, alone without DNSSEC, else first with its signatures; and no answers or additional data |
| `Sections.EmptySetIsNegative` | src/plugins/file/zone.rs:390-416 | a name or wildcard with records but none of the type asked for, and no CNAME, is answered so |
| `Sections.PositiveIs` | src/plugins/file/zone.rs:325-453 | every other reply has the records of the steps one after another and those found outside the zone, exactly the addresses of the hosts these name as additional data, and no authority section without DNSSEC |
| `Sections.ChainGoesOn` | src/plugins/file/zone.rs:325-434 | a lookup goes on from an alias, and from a redirection unless the CNAME is asked for, if and only if the target is in the zone and fewer than eight names were visited |
| `Sections.AliasIs` | src/plugins/file/zone.rs:379-391 | a name or wildcard with a CNAME set, asked for another type, gives that set under the name asked, signed if wanted, and leads to the target of its first readable record |
| `Outcomes.OutcomeIsCalledFor` | src/plugins/file/zone.rs:240-453 | for every record set and in-zone query, the walks over the built zone arrive at an outcome that the records call for: topmost cut or DNAME, then exact match, then wildcard at the closest encloser of a non-existing name, then NODATA or NXDOMAIN (section 4.3.2 of RFC 1034, section 3.3.1 of RFC 4592, section 3.2 of RFC 6672) |
| `Outcomes.OutcomeIsUnique` | src/plugins/file/zone.rs:240-453 | the records call for one outcome only, so the outcome is the specified one |
| `Answers.FirstHop` | src/plugins/file/zone.rs:325-434 | the first step is the one the outcome names: redirection by that DNAME, data of the name, data of that wildcard, or nothing |
| `Answers.ReplyCode` | src/plugins/file/zone.rs:481-502 | the reply is NXDOMAIN exactly for a non-existing name without a wildcard, and unauthoritative exactly for a delegated one |
| `Answers.ExactAnswer` | src/plugins/file/zone.rs:361-416 | an exact match for one type answers with the record set that the records hold, plus its signatures if wanted |
| `Answers.WildcardAnswer` | src/plugins/file/zone.rs:361-416 | a wildcard match for one type answers with the wildcard's record set under the name asked |
| `Answers.AliasChain` | src/plugins/file/zone.rs:325-434 | on every zone, cyclic ones included, a lookup visits at most eight names, all inside the zone, and each DNAME step replaces exactly the owner's labels by the target's |
| `Answers.OverlongRedirection` | src/plugins/file/zone.rs:334-360 | the reply is YXDOMAIN exactly when the last substitution exceeds 255 octets, and that step gives the DNAME set and no CNAME |
| `Answers.NameErrorMatchesStandard` | src/plugins/file/zone.rs:471-502 | for a non-existing local name, NXDOMAIN agrees with section 2.2.3 of RFC 4592 if and only if the wildcard at the closest encloser is not an empty non-terminal |
| `Answers.NameErrorAtEmptyWildcard` | src/plugins/file/zone.rs:471-502 | the failing case: with only `a.*.org.` below `org.`, `x.org.` gets NXDOMAIN although `*.org.` exists |
| `DenialProofs.NxdomainProof` | src/plugins/file/zone.rs:509-518 | with a chain holding exactly the hashes of the signed names, the proof matches the closest encloser and strictly covers the next closer name; it strictly covers the wildcard if and only if that name does not exist (section 7.2.2 of RFC 5155) |
| `DenialProofs.NodataProof` | src/plugins/file/zone.rs:521-535 | NODATA at a signed name carries the NSEC3 matching it |
| `DenialProofs.OptOutProof` | src/plugins/file/zone.rs:521-535 | for a name without an NSEC3 of its own, the proof matches its longest provable ancestor and covers the name one label below that |
| `DenialProofs.ProvableEncloserIsLongest` | src/plugins/file/zone.rs:521-535 | the upward walk stops at the longest proper ancestor whose hash is in the chain |
| `DenialProofs.WildcardProofs` | src/plugins/file/zone.rs:538-556 | a wildcard answer covers the next closer name; wildcard NODATA also matches the encloser and the wildcard |
| `DenialProofs.NsecIsPredecessor` | src/plugins/file/zone.rs:205-218 | the NSEC chosen is owned by the name itself or its circular predecessor in canonical order (section 6.1 of RFC 4034), whose interval then strictly covers it |
| `DenialReplies.NxdomainReply` | src/plugins/file/zone.rs:481-518 | the authority section of every NXDOMAIN reply to a DNSSEC query matches the closest encloser, strictly covers the next closer name, and strictly covers the wildcard if and only if that name does not exist |
| `DenialReplies.NodataReply` | src/plugins/file/zone.rs:390-409 | the authority section of a NODATA reply for an existing signed name matches that name |
| `DenialReplies.WildcardNodataReply` | src/plugins/file/zone.rs:400-413 | a NODATA reply from a wildcard covers the next closer name and matches the encloser and the wildcard |
| `DenialReplies.ReferralReply` | src/plugins/file/zone.rs:299-316 | a referral for a DNSSEC query carries the NS set of the cut and its signed DS set; without a DS it matches the cut or, when the signer left it out, matches its longest provable ancestor and strictly covers the name just below that (section 7.2.7 of RFC 5155) |
| `DenialReplies.NsecNxdomainReply` | src/plugins/file/zone.rs:481-518 | in a zone with an NSEC chain, every NXDOMAIN reply to a DNSSEC query strictly covers both the name and the wildcard in canonical order (section 3.1.3.2 of RFC 4035) |
| `DenialReplies.NsecNodataReply` | src/plugins/file/zone.rs:390-415 | there a NODATA reply carries the NSEC of the name, or covers a name without one |
| `WildcardReplies.WildcardReply` | src/plugins/file/zone.rs:325-453 | whatever the aliases on the way, a reply that expanded wildcards covers the next closer name of the last expansion if and only if it is no YXDOMAIN |
| `WildcardReplies.OnlyLastIsProved` | src/plugins/file/zone.rs:361-453 | of all the expansions along a chain of aliases the authority section proves the last and no other |
| `WildcardReplies.AllExpansionsCoveredIff` | src/plugins/file/zone.rs:361-453 | every expansion along the chain is proved if and only if the next closer names of all of them hash into the one interval picked for the last |
| `TwoWildcards.FirstExpansionUnproved` | src/plugins/file/zone.rs:361-453 | the failing case: a completely signed zone where `*.w.org.` is an alias of `y.z.org.` and `*.z.org.` holds an address; asked for `x.w.org.`, it does not cover that name |
| `AliasTargets.HopIsCalledForIff` | src/plugins/file/zone.rs:294-434 | every hop of a lookup, also after an alias, takes what the records call for at its name if and only if they do not delegate that name |
| `AliasTargets.AliasCrossesCut` | src/plugins/file/zone.rs:294-434 | the failing case: `x.org.` is an alias of `y.sub.org.` and `sub.org.` is delegated; asked for `x.org.`, the zone gives the address of `y.sub.org.` with authority, asked for `y.sub.org.` it refers |
| `AnyAnswers.AnyAnswer` | src/plugins/file/zone.rs:390-416 | a query for every type answers with all the sets of the name or of the wildcard, each record as often as it is in its set, and signatures only if wanted and only for sets that are there, in any map order |
| `DenialProofs.MatchFinds` | src/plugins/file/zone.rs:584-594 | binary search over the chain finds the NSEC3 of every signed name |
| `DenialProofs.CoverFinds` | src/plugins/file/zone.rs:596-607 | for a hash outside the chain the entry picked strictly covers it, around the end of the chain too |
| `DenialRecords.MatchedIs` | src/plugins/file/zone.rs:577-594 | over the records: a name is matched if and only if the reply has the whole signed NSEC3 set of an owner whose label is the name's hash |
| `DenialRecords.CoveredIs` | src/plugins/file/zone.rs:577-607 | and covered if and only if it has that of an owner after whose hash, going round, the name's comes before any hash of the chain |
| `DenialRecords.ChainHashIff` | src/plugins/file/zone.rs:688-717 | where the hashes of the chain are those that the labels of NSEC3 owners encode |
| `DenialRecords.NsecCoveredIs` | src/plugins/file/zone.rs:205-218 | the same for NSEC owners in canonical order |
| `Order.CanonicalOrderIsTotal` | src/plugins/file/zone.rs:205-218 | canonical name order is a strict total order |
| `Order.CanonicalOrderIs` | src/plugins/file/zone.rs:205-218 | and it is that of section 6.1 of RFC 4034: below the longest common ancestor the name without a further label comes first, else the one whose next label does, octet by octet |
| `Order.PredecessorCovers` | src/plugins/file/zone.rs:596-607 | in a strictly sorted circular list the predecessor of a missing key strictly covers it, and a single entry covers everything else |
| `Base32.Base32Hex` | src/plugins/file/zone.rs:666-685 | the accumulator loop decodes to the octets of the digits' bit string, in either case, and fails on any other character |
| `Base32.DecodeUndoesEncode` | src/plugins/file/zone.rs:666-685 | decoding the base32hex label of a hash of any length gives back the hash |
| `Zones.Nsec3Chain` | src/plugins/file/zone.rs:688-717 | the chain is the set of decodable NSEC3 owners with their hashes, strictly sorted by hash and then by owner text |
| `Zones.OwnersCompareAsText` | src/plugins/file/zone.rs:715-715 | without escapes the order of owners with equal hashes is the order of their text |
| `Transfer.AllRecords` | src/plugins/file/zone.rs:146-163 | the dump is the apex SOA, then every other set and every signature exactly once, in any map order |
| `Server.NestingIsBounded` | src/server/mod.rs:466-481 | following aliases across zones that point at each other in any way ends: at most nine nested lookups of at most eight names each |
| `Server.ServeGoesOn` | src/server/mod.rs:466-481 | the reply to a query whose aliases leave the zone has the answers found in the zone followed by all answers of the lookup nested in it |
| `Server.ServeEnds` | src/server/mod.rs:466-481 | the reply to one whose aliases stay in the zone, or at the depth limit, has just the answers found in the zone |
| `Server.ServeIsNested` | src/server/mod.rs:466-481 | so the whole answer is the answers of each of the nested lookups that are counted, in order, and nothing else |
| `Server.ZonesMatch` | src/plugin/mod.rs:216-228 | the loop computes the matching zone |
| `Server.PickIsLongest` | src/plugin/mod.rs:216-228 | which is the first of the longest zones at or above the name, and none only if there is none |
| `DnsText.SubdomainText` | src/dnsutil/mod.rs:33-48 | the string test (suffix on a dot boundary, case folded) is the label test, for all names without escapes |
| `DnsText.TrimUndoesJoin` | src/dnsutil/mod.rs:424-437 | trimming the zone off labels joined to it gives back the labels, folded unless the zone is the root |
| `DnsText.Join` | src/dnsutil/mod.rs:440-460 | joining writes the name made of the non-empty labels and the zone |
| `Reverse.ReverseZones` | src/dnsutil/mod.rs:85-129 | expanding a range lists one zone per subnet on the label boundary, in order |
| `Reverse.InRangeIffBelowZone` | src/dnsutil/mod.rs:85-129 | for every IPv4 or IPv6 range, an address is in it if and only if its reverse name is at or below one of the generated zones |
| `Reverse.ZonesAreDisjoint` | src/dnsutil/mod.rs:85-129 | no name lies below two of the zones |
| `Reverse.ReverseNameOf` | src/dnsutil/mod.rs:132-148 | the loops write the octets, or half-octets low before high, backwards under the family's root (section 3.5 of RFC 1035, section 2.5 of RFC 3596) |
| `Reverse.ReverseNameLabels4` | src/dnsutil/mod.rs:132-148 | the four octets in decimal, last first, then `in-addr.arpa` |
| `Reverse.ReverseNameLabels6` | src/dnsutil/mod.rs:132-148 | the thirty-two half-octets in hexadecimal, low before high and last octet first, then `ip6.arpa` |
| `Reverse.DecodeUndoesEncode` | src/dnsutil/mod.rs:132-189 | decoding the reverse name of any address gives back that address |
| `Reverse.Extract` | src/dnsutil/mod.rs:156-189 | the label loops compute the decoding, failing on a wrong count or an unreadable label |
| `Reverse.DecodedName` | src/dnsutil/mod.rs:156-189 | whatever decodes is a valid address, and the name is that address's own reverse name if and only if no octet has a plus sign or a leading zero |
| `Reverse.PaddedNamesDecode` | src/dnsutil/mod.rs:156-171 | the failing case: `01.0.0.10` and `+1.0.0.10` under `in-addr.arpa.` decode to 10.0.0.1 and are not its reverse name |
| `Cache.MinimalTtl` | src/dnsutil/mod.rs:373-395 | the loop with its early return computes the scan of all three sections |
| `Cache.LifetimeIsLeast` | src/dnsutil/mod.rs:373-395 | the scan is: the first SOA of a negative answer settles it (smaller of TTL and minimum), else the smallest TTL, OPT aside, else five seconds |
| `DnsText.ParentIsParent` | src/plugins/file/zone.rs:621-626 | the parent of a name's text is the text of its parent, the root being its own parent |
| `DnsText.WildcardIsWildcard` | src/plugins/file/zone.rs:628-634 | the wildcard of a name's text is the text of its wildcard |
| `Transfer.BuildMessages` | src/plugins/transfer.rs:62-96 | without an SOA nothing is sent; otherwise the messages carry SOA, the other records in order and the SOA again, none is empty, any with more than one record stays within the size limit, and none was closed while the next record still fitted |
| `Transfer.Push` | src/plugins/transfer.rs:73-87 | adding a record keeps the running size equal to the estimate and opens a new message if and only if the current one has records and would pass the limit |
| `Transfer.MessagesFit` | src/plugins/transfer.rs:62-96 | in octets: 76 for the message and the records' sizes stay within 60000 where there is more than one record, and with the first record of the next message they would not |
| `Forward.MatchesIff` | src/plugin/request.rs:287-303 | a message is taken for the reply if and only if it is a response with the query's id that asks back the same question, name up to case, type and class, or none if there was none |
| `Transfer.Collect` | src/plugins/secondary.rs:62-87 | the collecting loop keeps everything up to the second SOA, over all messages |
| `Transfer.CollectIsScan` | src/plugins/secondary.rs:62-87 | message boundaries make no difference to what is collected |
| `Transfer.TransferDelivers` | src/plugins/secondary.rs:49-88 | for every dump order, size estimate and split, the collector gets the dump up to a second SOA record |
| `Transfer.AxfrRoundTrip` | src/plugins/secondary.rs:49-88 | splitting, collecting and rebuilding always succeeds, and gives back the owner map if and only if the zone has exactly one SOA record |
| `Transfer.SecondaryEqualsPrimary` | src/plugins/secondary.rs:145-166 | then the rebuilt zone equals the original: signatures, nodes, chains, serial |
| `Transfer.SecondSoaIsLost` | src/plugins/secondary.rs:62-87 | the failing case: a zone with two SOA records at its apex never comes back the same |
| `Secondary.SerialOrder` | src/plugins/secondary.rs:127-134 | a serial `n` versions on looks newer if and only if 0 < n < 2^31, or n = 2^31 with the held serial in the upper half (section 3.2 of RFC 1982 leaves that case open) |
| `Secondary.SecondaryZone.TransferIn` | src/plugins/secondary.rs:145-166 | the first primary that delivers decides; success installs its zone and clears the expired flag, failure changes nothing |
| `Secondary.SecondaryZone.ShouldTransfer` | src/plugins/secondary.rs:168-184 | the first primary that answers decides: a transfer is wanted if it is newer or the zone is expired |
| `Secondary.SecondaryZone.Run` | src/plugins/secondary.rs:218-250 | the refresh loop plays the rounds of the timed specification |
| `Secondary.WaitIs` | src/plugins/secondary.rs:186-240 | the loop waits the SOA's refresh seconds after a good check and its retry seconds after a failed one, at least one, and a random part of five or two seconds, unless a NOTIFY comes first |
| `Secondary.TimersFromRecords` | src/plugins/secondary.rs:186-250 | for a zone loaded from records these are the fields of their first apex SOA, and a failed check leaves it expired if and only if it was, or at least that SOA's expire seconds have passed since the last good check |
| `Secondary.LoadedSoa` | src/plugins/secondary.rs:186-194 | a zone loads if and only if its first apex SOA is readable, and takes serial and timers from it |
| `Secondary.GoodCheckIff` | src/plugins/secondary.rs:145-250 | a check is good if and only if a primary answers and, where the first that does is newer or the zone is expired, a transfer loads; only then the zone is replaced and the time noted |
| `Secondary.FirstAnswerIs` | src/plugins/secondary.rs:145-184 | the answer that counts is that of the first primary that gives one |
| `Secondary.RunKeepsSound` | src/plugins/secondary.rs:218-250 | in every timed run, expired implies the last check failed and at least `expire` passed since the last good one, and a failing unexpired zone is still within `expire` |
| `Secondary.NeverServedTooLong` | src/plugins/secondary.rs:218-286 | data is never served longer than max(refresh + 5 s, expire + retry + 2 s) plus one check after the last good check |
| `Secondary.GoodCheckUnexpires` | src/plugins/secondary.rs:218-250 | a good check always leaves the zone unexpired; expiry follows a failed check and keeps the data |
| `Secondary.SerialTracksVersion` | src/plugins/secondary.rs:145-250 | after every run of the loop against one primary the serial of the zone is that of the held version modulo 2^32 |
| `Secondary.AsksExactlyWhenBehind` | src/plugins/secondary.rs:168-184 | after any run, with a lag below 2^31, the next check asks for a transfer exactly when the primary is ahead or the zone is expired |
| `Secondary.HeldNeverDecreases` | src/plugins/secondary.rs:145-250 | over every run of the loop against a primary whose version only grows, whatever the lag, the held version never decreases |
| `Secondary.CaughtUp` | src/plugins/secondary.rs:145-250 | after any run, once a check is answered and its transfer arrives, the held version is at least what the primary had when asked, and the zone is unexpired |
| `Secondary.LoadIsBuild` | src/plugins/secondary.rs:145-166 | loading transferred records gives the owner map and serial of the built zone |
| `ViewParser.ParseTokens` | src/plugins/view.rs:256-266 | the parser object, advancing its position, returns what the grammar says; it terminates on every token list, and a list with its end marker only at the end is accepted only when used up to that marker |
| `ViewMinimal.PrintIsMinimal` | src/plugins/view.rs:176-266 | every token list that parses to a tree has at least as many grouping parentheses as the printed form: leaving any out gives another tree or an error |
| `ViewPrecedence.TwoOperators` | src/plugins/view.rs:146-188 | of two operators in a row the first takes both its neighbours if and only if it binds at least as tightly, where or, and, the eleven comparisons, plus and minus, and times, divide and modulo bind ever tighter |
| `ViewPrecedence.SignBindsTightest` | src/plugins/view.rs:190-199 | a not or minus before an operand belongs to that operand alone |
| `ViewPrecedence.GroupBindsFirst` | src/plugins/view.rs:201-209 | what stands in parentheses is one operand |
| `ViewPrecedence.ListInOrder` | src/plugins/view.rs:210-224 | a list has its items in the order written |
| `ViewPrecedence.CallInOrder` | src/plugins/view.rs:225-253 | and a call its arguments |
| `ViewPrecedence.WordIsAccepted` | src/plugins/view.rs:256-290 | a word alone is accepted if and only if it is a truth value or one of the fifteen functions |
| `ViewPrecedence.ValidIff` | src/plugins/view.rs:268-300 | an expression is valid if and only if every function called anywhere in it is one of these and every literal pattern in it compiles |
| `ViewPrecedence.PatternIsChecked` | src/plugins/view.rs:256-297 | a literal pattern of `matches` is accepted if and only if it compiles |
| `ViewPrecedence.NotIsNoInfix` | src/plugins/view.rs:176-188 | a not between two operands is not accepted |
| `ViewParser.Parser.Extend` | src/plugins/view.rs:176-188 | the operator loop is precedence climbing |
| `ViewParser.Parser.ParsePrimary` | src/plugins/view.rs:201-253 | literals, groups, lists, names and calls as the grammar says |
| `ViewPrinter.ParseUndoesPrint` | src/plugins/view.rs:146-266 | parsing undoes printing: every expression tree printed with only the parentheses precedence demands parses to that same tree, using up every token |
| `ViewPrinter.PrintNormalises` | src/plugins/view.rs:146-266 | whatever parses is a well-formed tree, and printing and parsing it again gives it back |
| `Cache.ResponseCache.Insert` | src/plugins/cache.rs:212-269 | a response is kept in the store its kind selects, with its clamped lifetime cut to whole 32-bit seconds, unless truncated, mismatched, disabled or meta; the shard keeps its capacity |
| `Cache.ResponseCache.Get` | src/plugins/cache.rs:273-318 | the success store answers if it holds the key, else the denial store; an entry past its stale limit is dropped and the lookup misses without asking the other store |
| `Cache.KeptWhere` | src/plugins/cache.rs:212-258 | over the message itself: answers and referrals are kept among the successes; name errors, empty answers and, with a failure TTL, failures among the denials; nothing truncated, unasked or disabled; lifetimes within the configured bounds |
| `Cache.KeptHowLong` | src/plugins/cache.rs:212-258 | a message is kept for its lifetime, raised to the least and cut to the most configured for its kind, the least if it has neither answers nor name servers, and a failure for the time set for failures |
| `Cache.DisabledIff` | src/plugins/cache.rs:224-243 | caching is off exactly for the names at or below a zone listed for the kind |
| `Cache.SharesEntryIff` | src/plugins/cache.rs:196-204 | two requests share an entry if and only if they agree on name, type, DO bit and CD bit |
| `Cache.CapacityIsShared` | src/plugins/cache.rs:151-158 | each of the 256 shards has its whole share of the capacity, and at least one entry |
| `Cache.PutKeeps` | src/plugins/cache.rs:259-268 | a put is found, keeps the shard within capacity with one entry per key, and changes no other entry except by evicting it |
| `CacheRuns.HitIsLastPut` | src/plugins/cache.rs:103-318 | after every history with a non-decreasing clock, a hit is the message last put under that key in the answering store (id, RD, CD, TTLs and OPT aside), at most TTL plus stale limit old in whole seconds; stale records carry TTL 0, and without keepttl none outlives its original lifetime by a full second |
| `CacheRuns.CapacityHolds` | src/plugins/cache.rs:147-165 | a store never holds more than 256 * max(cap / 256, 1) items |
| `CacheRuns.PutStays` | src/plugins/cache.rs:143-165 | an entry stays while it is young enough and fewer other keys of its shard than the shard holds were used since |
| `CacheRuns.FreshAnswerHits` | src/plugins/cache.rs:273-318 | such an entry of the success store is always hit, whatever was put in the denial store since |
| `CacheRuns.DenialHits` | src/plugins/cache.rs:273-318 | such an entry of the denial store answers if and only if the success store does not hold the key |
| `CacheRuns.LaterDenialIsHidden` | src/plugins/cache.rs:273-277 | the failing case: an answer is cached, the name is then denied, and a second later the answer is still given |
| `Refresh.InvHolds` | src/plugins/cache.rs:320-344 | the flag invariant holds after every interleaving of requests and refresh tasks |
| `Refresh.SingleFlight` | src/plugins/cache.rs:320-344 | at most one refresh runs per key |
| `Refresh.FinishRemovesOwnFlag` | src/plugins/cache.rs:320-344 | a finishing task removes the flag it raised itself and nothing else |
| `Refresh.SwapStartsIff` | src/plugins/cache.rs:320-344 | a waiting request starts a refresh if and only if its cloned flag is still registered and nobody is refreshing the key |
| `Refresh.LateRequestStartsIff` | src/plugins/cache.rs:320-344 | a request that registers and swaps at once starts a refresh if and only if none is running for its key |
| `Refresh.QuietIsUnblocked` | src/plugins/cache.rs:320-344 | once no refresh runs, no key is left blocked |
| `Forward.Send` | src/plugins/forward.rs:408-476 | whatever health, replies and the clock do: the result is the verdict over the attempts, which are genuine exchanges of a whole run: each is made with time left, on the upstream picked from the place after the one before (from the start again after the one made with all down), everything passed over being read down; a reply with a failover code is passed over exactly while the place is not past the list; the run ends at the first final reply, when time is up or when no upstream is picked |
| `Forward.RunsAreFair` | src/plugins/forward.rs:408-476 | so the attempts go up the list at most twice; each is on an upstream that looked up when last read just before, but for at most one, on the last of the list after all of them were read down; with all up they are the list in order; with all down throughout there is one, unless time was up at once; an always-up upstream is left untried only if a reply was found or time ran out |
| `Forward.RunIsUnique` | src/plugins/forward.rs:408-476 | that leaves one result and one log of attempts for every behaviour of the outside world |
| `Forward.FailoverOnlyAtEnd` | src/plugins/forward.rs:444-475 | a reply with a failover code is returned only at the end of the list, when time is up, or when all upstreams still to come were read down |
| `Forward.FailoverTriesAll` | src/plugins/forward.rs:444-475 | with every upstream up and time left, it is returned only after all of them were tried in order |
| `Forward.SkippedLookedDown` | src/plugins/forward.rs:424-441 | an upstream passed over between two attempts looked down between them |
| `Forward.PickNext` | src/plugins/forward.rs:424-441 | reading the upstreams one after another, the inner loop picks the first that looks up; or once, when all are down and again all are down on a second look, the last of the list, starting over; or none |
| `Forward.EachTriedOnceIff` | src/plugins/forward.rs:423-441 | with all upstreams down throughout and time left, each of them is tried if and only if there is at most one |
| `Forward.FirstOfTwoUntried` | src/plugins/forward.rs:423-441 | the failing case: of two upstreams that are down only the second is tried |
| `Forward.AttemptsBounded` | src/plugins/forward.rs:408-476 | at most twice the list length of attempts, and no upstream more than twice |
| `Forward.RepliesMatch` | src/plugins/forward.rs:444-475 | a returned reply came from one of the attempts and matches the query |
| `Forward.ReplyIsLatest` | src/plugins/forward.rs:444-475 | and it is the latest that matched |
| `Forward.AnsweredIff` | src/plugins/forward.rs:444-475 | the query is answered if and only if some attempt brought a matching reply, and "no upstream" is reported if and only if none was tried |
| `Forward.NothingBetter` | src/plugins/forward.rs:454-470 | of the attempts made, a reply with a failover code is returned if and only if none brought a matching reply without one |
| `Forward.RoundRobin` | src/plugins/forward.rs:302-314 | the loop builds the rotated list |
| `Forward.RotationIsComplete` | src/plugins/forward.rs:302-314 | the rotated list names every upstream exactly once |
| `Forward.RotationIsFair` | src/plugins/forward.rs:302-314 | over any n requests in a row each upstream is tried first exactly once |
| `Admission.GateHolds` | src/plugins/forward.rs:384-395 | in every interleaving at most `max_concurrent` requests are past the gate, and the counter counts exactly those who entered and have not left |
| `Admission.CounterReturnsToZero` | src/plugins/forward.rs:384-395 | the counter is zero if and only if every request has given its count back |
| `Admission.AdmittedIff` | src/plugins/forward.rs:384-391 | a request is admitted if and only if those past the gate and those on their way out together are below the limit |
| `Admission.RefusedWhileEmpty` | src/plugins/forward.rs:384-391 | so for every limit there is a run in which a request is refused while nobody is past the gate |
| `KubeModel.HistorySound` | src/plugins/kubernetes/store.rs:160-195 | in every history of updates and removals the one-owner address indexes point only to stored objects that hold the address |
| `KubeModel.HistoryComplete` | src/plugins/kubernetes/store.rs:160-195 | the index is complete throughout a history if and only if stored addresses are disjoint throughout |
| `KubeModel.ReindexComplete` | src/plugins/kubernetes/store.rs:160-181 | from a complete index an update leaves a complete one if and only if the addresses then held are disjoint; a removal always does |
| `KubeModel.SharedAddressIsLost` | src/plugins/kubernetes/store.rs:166-168 | the failing case: two services share an address, one goes, and the other is no longer found by it |
| `KubeModel.ExactIsUnique` | src/plugins/kubernetes/store.rs:197-230 | the endpoint index is a function of the slices |
| `KubeStore.ReplaceSlice` | src/plugins/kubernetes/store.rs:197-230 | replacing a slice keeps a service listed under an address exactly when one of its slices holds it, with no empty set, slice or service left |
| `KubeStore.Store.ApplyService` | src/plugins/kubernetes/store.rs:160-181 | stores a converted service and reindexes its cluster and external addresses; one that does not convert changes nothing |
| `KubeStore.Store.DeleteService` | src/plugins/kubernetes/store.rs:183-195 | removes the service and its index entries |
| `KubeStore.Store.SetSlice` | src/plugins/kubernetes/store.rs:197-230 | replaces one slice; the store stays consistent |
| `KubeStore.Store.ApplyPod` | src/plugins/kubernetes/store.rs:317-345 | stores and indexes a running pod with addresses, and removes one that has finished or has none |
| `KubeStore.Store.DeletePod` | src/plugins/kubernetes/store.rs:347-355 | removes the pod and its index entries |
| `KubeStore.Store.Retain` | src/plugins/kubernetes/store.rs:459-510 | after a relist exactly the items whose key was seen are kept |
| `KubeStore.Store.Apply` | src/plugins/kubernetes/store.rs:412-452 | one watched object has exactly its effect on the contents; indexes that were complete stay so if and only if stored addresses are then disjoint |
| `KubeStore.Store.HandleEvent` | src/plugins/kubernetes/store.rs:412-452 | one event does to contents and seen keys what the watch specification does, and to each field what the two rows below say; indexes that were complete stay so if and only if stored addresses are then disjoint |
| `KubeStore.DeletedIsRemoved` | src/plugins/kubernetes/store.rs:183-195 | field by field, a delete event takes the object out of its map under its own key, a slice out of its labelled service, and leaves everything else as it was |
| `KubeStore.AppliedIsTaken` | src/plugins/kubernetes/store.rs:160-355 | an object that comes, listed or as an event, is stored as it came under its own key; a finished pod or one without address is out; unconvertible services and unlabelled slices change nothing; everything else is as it was |
| `KubeStore.Store.WatchLoop` | src/plugins/kubernetes/store.rs:412-452 | the event loop, over every event sequence, does to the store what the watch specification does to its contents; every index stays consistent, and the one-owner indexes stay complete in every run that keeps stored addresses disjoint |
| `KubeStore.Store.WatchAll` | src/plugins/kubernetes/store.rs:536-640 | the same for the watches of all kinds side by side on one store, their events in any order, each with its own seen keys |
| `KubeStore.PerformedComplete` | src/plugins/kubernetes/store.rs:160-195 | from a complete index any update of services or pods leaves a complete one if and only if the addresses then held are disjoint; a removal always does |
| `KubeWatch.RelistConverges` | src/plugins/kubernetes/store.rs:412-510 | from any earlier state a relist leaves the watched items as a replay of the list from an empty store would, if and only if no stored item of a listed key goes untouched by the list |
| `KubeWatch.RelistSparesOthers` | src/plugins/kubernetes/store.rs:412-510 | a relist of one kind leaves the items of all other kinds alone |
| `KubeWatch.RelistStores` | src/plugins/kubernetes/store.rs:412-510 | after a relist every listed item is stored as it was last listed |
| `KubeWatch.RelistDrops` | src/plugins/kubernetes/store.rs:412-510 | and no item of the watched kind whose key was not listed |
| `KubeWatch.NothingStale` | src/plugins/kubernetes/store.rs:489-510 | pods, namespaces and core Endpoints always converge |
| `KubeWatch.ServicesConverge` | src/plugins/kubernetes/store.rs:459-474 | services converge when every listed service converts |
| `KubeWatch.SlicesConverge` | src/plugins/kubernetes/store.rs:476-487 | slices converge when every listed slice has the service label it was stored under |
| `KubeWatch.RelabelledSliceIsStale` | src/plugins/kubernetes/store.rs:476-487 | the failing case: a slice relabelled before a relist keeps its old entry |
| `KubeWatch.RelabellingEventLeavesEntry` | src/plugins/kubernetes/store.rs:412-452 | the same after an event: the slice is then stored under both services |
| `KubeWatch.RunEqualsReplay` | src/plugins/kubernetes/store.rs:412-510 | a run that ends in a relist and later events holds what replaying just those would |
| `KubeWatch.SameSlicesSameIndex` | src/plugins/kubernetes/store.rs:197-230 | consistent stores with the same slices have the same endpoint index |
| `KubeWatch.StoreFollowsHistory` | src/plugins/kubernetes/store.rs:160-195 | over every sequence of service and pod updates, each index of the store is the one the history of its own changes gives |
| `KubeWatch.IndexCompleteIffDisjoint` | src/plugins/kubernetes/store.rs:160-195 | so over every such sequence each index is complete throughout if and only if the addresses it holds are disjoint throughout |
| `KubeWatch.EachWatchAlone` | src/plugins/kubernetes/store.rs:412-510 | however the watches of several kinds interleave on one store, each has its items as if it ran alone |
| `KubeWatch.InterleavedEqualsReplay` | src/plugins/kubernetes/store.rs:412-510 | so a watch whose events end in a relist and later ones holds what replaying just those would, whatever the other watches do |
| `KubeAnswers.ServeForward` | src/plugins/kubernetes/mod.rs:370-403 | the loops answer exactly what the services the name is about give, and report the name as missing exactly when none knows it |
| `KubeNames.ServicePortIff` | src/plugins/kubernetes/mod.rs:77-316 | SRV for `_port._proto.service.namespace.svc` gives number n to the service's own name if and only if the service has a port of that name and protocol, in either case, and that number; `*` and `any` stand for every one |
| `KubeNames.EndpointPortIff` | src/plugins/kubernetes/mod.rs:77-316 | of a headless service it gives it to the name of each ready endpoint with such a port, an endpoint being called by hostname, else by pod name if so configured, else by its first address |
| `KubeNames.OwnPortIff` | src/plugins/kubernetes/mod.rs:77-316 | SRV for the service's own name gives all its ports |
| `KubeNames.OwnEndpointPortIff` | src/plugins/kubernetes/mod.rs:77-316 | or all those of its ready endpoints if it is headless |
| `KubeNames.PatternAddressIff` | src/plugins/kubernetes/mod.rs:77-403 | whatever labels and types are asked for, wildcards included, an address is given under a stored service's name if and only if family, name and namespace fit, the namespace exists and is shown, and the service has the address and is neither external nor ignored |
| `KubeNames.ServiceNameExistsIff` | src/plugins/kubernetes/mod.rs:215-403 | a service's name exists if and only if the service is external or not ignored for want of ready endpoints |
| `KubeNames.PortNameExistsIff` | src/plugins/kubernetes/mod.rs:274-316 | a port's name exists if and only if the service has the port; under a headless one for SRV if and only if a ready endpoint has it |
| `KubeNames.EndpointNameExistsIff` | src/plugins/kubernetes/mod.rs:243-276 | an endpoint's name exists if and only if a ready endpoint is called so |
| `KubeNames.EndpointAddressIff` | src/plugins/kubernetes/mod.rs:243-273 | it gives exactly the addresses, of the family asked for, of the ready endpoints called so |
| `KubeNames.EndpointOwnPortIff` | src/plugins/kubernetes/mod.rs:243-273 | and for SRV the ports of these |
| `KubeNames.ExternalNameIff` | src/plugins/kubernetes/mod.rs:220-235 | an external service gives exactly the alias it states, for addresses and CNAME only |
| `KubeNames.UnknownIsMissing` | src/plugins/kubernetes/mod.rs:370-385 | the name of a service that is not stored or not shown does not exist |
| `KubeAnswers.ServiceRecords` | src/plugins/kubernetes/mod.rs:215-316 | one service gives exactly its alias, its ready endpoints' records or its cluster addresses and ports, and whether the name exists for it |
| `KubeAnswers.ServeReverse` | src/plugins/kubernetes/mod.rs:433-468 | the names for an address are exactly the service with that cluster address or, without one, the ready endpoints with it |
| `KubeNames.ReverseIff` | src/plugins/kubernetes/mod.rs:433-468 | over the stored objects: with complete indexes the names for an address are that of the shown service with it or, without one, those of the ready endpoints with it of shown services |
| `KubeAnswers.ReadyEndpoints` | src/plugins/kubernetes/mod.rs:210-213 | slices merged, endpoints that are not ready left out unless published |
| `KubeAnswers.PtrResolvesBack` | src/plugins/kubernetes/mod.rs:215-316 | forward/reverse closure: every name given for an address answers an address query containing it, when the service or endpoints that give the names answer for them |
| `KubeAnswers.ClusterPtrResolvesIff` | src/plugins/kubernetes/mod.rs:215-316 | for an address found as a cluster address, if and only if its service is no ExternalName one, is not ignored as empty, and, if headless, has a ready endpoint with it |
| `KubeAnswers.IgnoredServiceHasPtr` | src/plugins/kubernetes/mod.rs:283-286 | the failing case: with empty services ignored, a service without endpoints has a reverse name that does not resolve |
| `KubeAnswers.ServiceNameResolvesIff` | src/plugins/kubernetes/mod.rs:215-316 | a service name resolves to an address under the same condition, whatever else the cluster holds |
| `KubeAnswers.EndpointHasPtr` | src/plugins/kubernetes/mod.rs:433-468 | the address of a ready endpoint of an exposed service always yields a name |
| `KubeAnswers.SrvTargetResolves` | src/plugins/kubernetes/mod.rs:215-316 | every SRV target is the name of the stored service, or of its ready endpoint, whose matching port gave the record, and that name answers with all addresses of that very service or endpoint, an endpoint's if and only if its label does not start with an underscore |
| `KubeAnswers.EndpointNameParses` | src/plugins/kubernetes/mod.rs:77-112 | an endpoint's name is read back as that endpoint unless its label starts with an underscore |
| `KubeAnswers.EndpointNameResolves` | src/plugins/kubernetes/mod.rs:77-112 | and it resolves to the endpoint's addresses if and only if its label does not start with an underscore; under an ExternalName service it never does |
| `KubeAnswers.ServiceNameParses` | src/plugins/kubernetes/mod.rs:77-112 | a service's name is read back as that service |
| `CorefileParser.Parser.CollectBody` | src/corefile/parser.rs:151-168 | returns the tokens before the brace that closes the block, moving past it, or fails at the end of the file when every closing brace had an opening one |
| `Corefile.BodyIsUnique` | src/corefile/parser.rs:151-168 | that body is the only one |
| `CorefileParser.Parser.ServerBlock` | src/corefile/parser.rs:170-220 | all the keys of the line, then either a braced body or, in the first block only, the rest of the file; fails if and only if the tokens begin with no such block |
| `Corefile.ServerBlockIsUnique` | src/corefile/parser.rs:170-220 | a server block can be read in one way only |
| `CorefileParser.Parser.ParseDirectives` | src/corefile/parser.rs:223-270 | the loop computes the split with imports expanded in place, and leaves the import depth as it was; it terminates on all inputs |
| `CorefileParser.Parser.DoImport` | src/corefile/parser.rs:272-318 | an import takes one argument, is refused at depth 20, and otherwise gives the directives of the snippet or files it names |
| `Imports.ImportResolves` | src/corefile/parser.rs:272-320 | an import stands for the snippet of that name or, without one, for the file; nested twenty deep, or of nothing, it is refused |
| `Imports.ImportTakesOneArgument` | src/corefile/parser.rs:272-275 | an import without exactly one argument is refused |
| `Imports.TwentyDeep` | src/corefile/parser.rs:276-278 | a chain of imports parses if and only if it is at most twenty deep |
| `Directives.SplitIff` | src/corefile/parser.rs:223-270 | a body splits into directives if and only if they are its directives in order, every token kept: name, arguments on its line, perhaps a balanced block opened on that line, none able to go on into the next |
| `Directives.DirectiveBalances` | src/corefile/parser.rs:223-270 | the unquoted braces of every directive balance |
| `Imports.BodyIsKept` | src/corefile/parser.rs:223-270 | without imports the directives' tokens, one after another, are the body |
| `Imports.OutputIsResolved` | src/corefile/parser.rs:223-318 | every directive that comes out, however deep its import, is whole and balanced, and no import is left |
| `Imports.ShallowerParses` | src/corefile/parser.rs:272-318 | what parses at one import depth parses the same nearer the top |
| `Imports.ImportIsSplice` | src/corefile/parser.rs:272-318 | an import means what writing its tokens in its place means, as long as no line of one text runs on into a line of the other |
| `Imports.CyclicImportsFail` | src/corefile/parser.rs:272-318 | imports that lead back to each other are refused at whatever depth they start |
| `Dispensers.Dispenser.Next` | src/corefile/dispenser.rs:47-59 | advances, or parks at the end |
| `Dispensers.Dispenser.NextArg` | src/corefile/dispenser.rs:62-76 | advances only along the line |
| `Dispensers.Dispenser.NextBlock` | src/corefile/dispenser.rs:97-119 | enters a block opened on the line, steps through it, and leaves at its closing brace, as the step function says; before the start it needs a first token that opens a block, since stepping back from any other underflows |
| `Dispensers.Dispenser.Args` | src/corefile/dispenser.rs:148-160 | gives n arguments if and only if the line (before the start: the first line) has that many, else the cursor is back where it was |
| `Dispensers.Dispenser.RemainingArgs` | src/corefile/dispenser.rs:163-169 | the rest of the line, or before the start the first line |
| `Dispensers.Dispenser.RemainingArgsUntilBrace` | src/corefile/dispenser.rs:172-182 | the rest of the line before an opening brace, which stays for the block; before the start it needs a first token that is no brace, since stepping back from one underflows |
| `Dispensers.Dispenser.SkipBlock` | src/corefile/dispenser.rs:186-188 | wherever stepping ends, skipping leaves the cursor at the first token after it that reads as a closing brace, or where it was if no block is entered |
| `Dispensers.StepsEndIff` | src/corefile/dispenser.rs:97-119 | stepping with next_block ends if and only if no block is entered or a token reading as a closing brace, quoted or not, comes after the cursor |
| `Dispensers.BlockDirectiveEnds` | src/corefile/dispenser.rs:97-119 | inside a directive with a block it always ends, whatever follows |
| `Dispensers.LineDirectiveEndsIff` | src/corefile/dispenser.rs:97-119 | on a directive of one line, whatever follows it in the cursor, it ends if and only if the next token of the line is no quoted opening brace or something reading as a closing one comes later |
| `Dispensers.QuotedBraceNeverEnds` | src/corefile/dispenser.rs:97-105 | the failing case: the parser hands over the directive `foo "{"`, whole and balanced, and stepping through it never ends |
| `Dispensers.Walk` | src/corefile/dispenser.rs:47-182 | the standard walk sees exactly the occurrences written, in order, each token once, and parks past the last token with nesting 0, for flat blocks whose properties and closing brace are on lines of their own |

## Left out

- Names are sequences of labels without escaped dots; `DnsText` ties the string operations to them for plain labels. Stored names are lower case, as the server folds them on entry.
- Sockets, transports, TLS, message encoding, zone-file text, the ANAME rewrite, signing, metrics and logging: I/O and foreign code. Time, health, replies, hash functions, map iteration order and size estimates are parameters.
- The NSEC3 hash is any function; results that need it require that the names at hand do not collide.
- The first transfer of a secondary and its back-off loop (`secondary.rs` 198-216): a plain retry loop; the refresh loop starts from a good transfer.
- Secondary.AsksExactlyWhenBehind: needs the lag below 2^31, as serial arithmetic does; the version results are for one primary.
- Zones.Nsec3Chain: does not model the choice of hash algorithm, salt and iterations (`zone.rs` 689-698, 714); the hash is a parameter of the lookup.
- View: the lexer, evaluation of expressions and their values; string and number literals are kept as tokens.
- Kubernetes names for pods, the zone apex, `dns-version` and name servers, the additional section and the weights of SRV answers, following an external name to its addresses, and an external name that is no domain name: easy branches beside the closure results. Endpoint and service labels are single labels.
- KubeAnswers.PtrResolvesBack: one forward zone; service and namespace names not empty and lower case; for endpoint addresses the condition (no ExternalName service, a label that is not empty and has no leading underscore) is sufficient only.
- KubeStore.Store.WatchAll: each event is one atomic step; in the code the removals at the end of a relist are separate ones. Slices and core Endpoints are never both watched.
- Object conversion from the API: a service converts or does not; slices and pods arrive with their addresses.
- Cache: the 64-bit key hash (the key is the tuple of name, type, DO and CD, its shard any function of it), the prefetch counters and percentage, the request handler around insert and get, and metrics. Each insert and each get is one atomic step; in the code the two stores of one get are locked one after the other.
- CacheRuns.HitIsLastPut: needs the minimum TTLs not above the maximum ones, on which the code's clamp would panic.
- Refresh: what the refreshing task fetches; a task that is dropped without finishing.
- Forward: connections, the TCP retry of a truncated reply, health probes and failure counts (an upstream may look up or down at any time), the `next` hand-over, the random policy, and wrap-around of the round-robin and admission counters.
- Server: the choice of server block, views and metadata before the plugin chain.
- Reverse: parsing of range and address text.
- Corefile: the lexer, environment variables, splitting keys at commas, the alternation of snippet definitions and server blocks at top level, and file globbing (a file import is a function from the argument to tokens, or an error). All errors are one error.
- Dispensers.Walk: quoting plays no part in the cursor, so the walk is stated for blocks without a brace where one would be read; nested blocks are left out. 
- Plugins with a single branch, cloud backends, and all option parsing.
