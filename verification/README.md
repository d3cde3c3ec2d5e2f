# shin, modelled in Dafny

`shin` is a sans-I/O TLS 1.3 stack in Rust: a client and a server handshake that consume
decoded messages and emit events, the record layer beneath them, the wire codec, and the
X.509 path validation behind server authentication. This project models its hard core and
proves what the design promises. `dafny verify dfyconfig.toml` checks all of it.

## How the model is organised

Certificate paths

- `Names`: distinguished-name comparison (greedy claiming over a bit mask) and the order-free
  name key that indexes trust anchors.
- `ChainPolicy`: name constraints, CA flags and path length, and the regrouped constraint table.
- `PolicyRules`: the same rules said of a profile's fields, a name's labels and an address's bits.
- `TrustStore`: the key-sorted anchor index and its partition-point lookup.
- `SearchMemo`: the search's bitset over reachable states and its signature cache.
- `PathSpec`, `PathRules`, `PathSearch`, `ChainValidation`: what an acceptable path is, step by
  step and said of the certificates directly, the memoised iterative depth-first search, and
  validation against a store.
- `Calendar`: the closed-form date conversion of validity times.

Wire

- `Bytes`, `Bits`: byte strings, big-endian integers, machine words as naturals.
- `Encoding`, `FlightBuffer`: nested length-prefixed encoding over a growable vector, a bounded
  buffer and a size counter; lending a transport's storage for one flight.
- `Fields`, `Programs`, `Extensions`, `Frames`: field-by-field codecs, the encoders as encoding
  programs, extension lists, and the ten handshake messages.
- `WireLayout`, `OfferLayout`: the messages, the offer and the client's hello byte by byte.
- `Psk`, `ClientOffer`: the `pre_shared_key` offer on both sides and the binder slot.
- `RetryBinding`, `ClientRetry`, `RetryAcceptance`: what a server pins across a HelloRetryRequest,
  and when it takes the client's own second hello.
- `Sizes`, `FlightPlan`, `InitialHello`: planned buffer sizes against real encodings.
- `Reassembler`, `Delivery`, `Records`, `KeyUpdate`: message reassembly, on its own and against the
  encoder, record protection, traffic secrets after the handshake.
- `KeyShares`: one-pass key-share negotiation.

Handshake

- `Symbols`: messages, transcripts and secrets as terms. Hashing, key derivation, MACs and key
  agreement are constructors, hence injective, and both sides of a key agreement compute the
  same term.
- `ClientMachine`, `ServerMachine`: one function per handler, on values.
- `ClientProofs`, `ServerProofs`: the invariant of each side, handler by handler.
- `ClientRuns`, `ServerRuns`: whole runs under arbitrary messages, epochs, clocks, random values
  and sink failures.
- `ClientReports`, `ServerReports`: what the events of a run mean, said of the messages read, the
  configuration and the tickets, without the handlers.
- `Agreement`: a client and a server over in-order channels, and what they agree on.
- `Conversation`: the transcript of each side is the conversation it had, and both had the same.
- `Exchange`, `Completion`: compatible peers complete, in full, resuming, and after a retry.
- `TranscriptHash`, `Sink`, `ClientSession`, `ServerSession`: the mutable objects of the source.
  Each session holds its transcript (and the server its early-data window) and hands events to a
  sink; driven through any list of calls it is the machine's run.
- `ServerExtensions`: the client's reading of EncryptedExtensions.

Code the model does not look into (ring, hash and signature primitives, Unicode preparation,
chain validation inside the handshake, ticket encryption, ALPN and certificate-type selection)
appears as function values or as values drawn per call; every theorem holds for all of them.
An event sink is a number of events it still accepts: any handler may be stopped at any event.

## Four properties that hold only under a condition

- A name that hashing accepts does not always match itself under comparison: an attribute of a
  type compared verbatim may carry an ill-formed string, which hashing takes as raw bytes and
  comparison rejects. Such a name is equivalent to its own encoding only (`Names.ComparableIff`,
  with a concrete name in `Names.SomeNameIsIncomparable`).
- A client that resumes and is asked to retry sends a second hello the server refuses as soon
  as its clock has moved, because the ticket age is recomputed by the client and pinned by the
  server; the transport parameters must be unchanged as well (`RetryAcceptance.TicketRetryAccepted`,
  with a concrete refusal in `RetryAcceptance.OneMillisecondIsTooLate`).
- Sending the hello and installing its early-data key are two events: a server that takes the early
  data installs the key the client installed only if the client's sink had room for both. A client
  whose sink takes the hello alone has failed, and the server cannot know
  (`Agreement.EarlyKeysAgree`, with a concrete run in `Completion.HelloWithoutKey`).
- A client with a usable ticket cannot answer a HelloRetryRequest that selects a SHA-384 suite:
  the binder needs the SHA-256 transcript, which was dropped (`ClientRuns.RetryAnsweredIff`, with a
  concrete run in `ClientRuns.RetryUnderSha384Fails`).

## Model

| member | source | states |
|---|---|---|
| `Names.ValidIsWellFormed` | src/identity/cert/dn/mod.rs:95-102 | an attribute is valid exactly when its UTF8String or PrintableString is well formed, character by character, and its directory string is accepted by the profile |
| `Names.EqualIsSame` | src/identity/cert/dn/mod.rs:281-324 | on validated attributes comparison holds exactly for equal types with, for domain components, contents equal up to ASCII case; for the listed X.520 types, equal folded strings; and otherwise equal tags and contents |
| `Names.RdnsEqual` | src/identity/cert/dn/mod.rs:246-279 | greedy claiming answers true exactly when both sides have 1 to 64 well-formed attributes and some one-to-one pairing matches equal ones |
| `Names.EquivalentIsSame` | src/identity/cert/dn/mod.rs:246-279 | the multiset comparison of canonical forms is the existence of such a pairing |
| `Names.AreEquivalent` | src/identity/cert/dn/mod.rs:64-66 | two names are equivalent exactly when identical or paired off attribute by attribute, position by position |
| `Names.InsertDigest` | src/identity/cert/dn/mod.rs:214-227 | the in-place carry loop leaves the old sum plus the digest modulo 2^256 |
| `Names.HashRdn` | src/identity/cert/dn/mod.rs:104-113 | the image of an RDN is its attribute count and the sum of its attribute digests |
| `Names.ImageInjective` | src/identity/cert/dn/mod.rs:115-146 | what is hashed of an attribute determines its type and its value as compared |
| `Names.TotalOrderFree` | src/identity/cert/dn/mod.rs:214-227 | equal multisets have equal digest sums whatever their order |
| `Names.EquivalentNamesShareKey` | src/identity/cert/dn/mod.rs:69-146 | equivalent names have equal keys, whatever the order inside each SET, and names that match by comparison both have one |
| `Names.KeyExistsIff` | src/identity/cert/dn/mod.rs:69-146 | a name has a key exactly when every relative name has 1 to 64 attributes and its directory strings are well formed and accepted |
| `Names.ComparableIff` | src/identity/cert/dn/mod.rs:51-66 | a hashable name matches itself by comparison exactly when no verbatim-typed attribute carries an ill-formed string; otherwise only its own encoding is equivalent to it |
| `Names.SomeNameIsIncomparable` | src/identity/cert/dn/mod.rs:51-66 | a concrete name, with an asterisk in a PrintableString, that is hashable and does not match itself |
| `ChainPolicy.CheckNamesIff` | src/identity/chain/extensions.rs:72-112 | a name list passes exactly when every name is permitted and none excluded |
| `ChainPolicy.CheckSubordinatesIff` | src/identity/chain/extensions.rs:72-112 | the subordinates pass exactly when each one's names do |
| `ChainPolicy.ConstraintsReadTheSet` | src/identity/chain/extensions.rs:72-112 | the verdict depends on the subordinates only as a set, not on order or repetition |
| `ChainPolicy.IssuerReadsTheSet` | src/identity/chain/extensions.rs:265-275 | `check_issuer` at equal positions gives equal verdicts on equal sets of subordinates |
| `ChainPolicy.AppendBases` | src/identity/chain/mod.rs:128-143 | appends exactly the bases of one kind, in order, to the table |
| `ChainPolicy.PrepareConstraints` | src/identity/chain/mod.rs:83-99 | the prepared table holds the four runs of bases of the constraint lists |
| `ChainPolicy.PreparedAgrees` | src/identity/chain/mod.rs:101-176 | looking a name up in the prepared table gives the verdict of the constraint lists |
| `PolicyRules.LabelsSpell` | src/identity/cert/ext/scope.rs:25-36 | the labels of a domain name hold no dot and spell the name when joined by dots |
| `PolicyRules.DnsSubtree` | src/identity/cert/ext/scope.rs:25-36 | a name is in a DNS subtree exactly when the constraint's labels are the last labels of the name, ignoring ASCII case, with at least one more in front when the constraint starts with a dot |
| `PolicyRules.IpSubtree` | src/identity/cert/ext/scope.rs:38-48 | an address is in an IP subtree exactly when network and mask each have its length and every bit set in the mask agrees |
| `PolicyRules.NameRule` | src/identity/chain/extensions.rs:72-112 | a name is allowed exactly when no excluded subtree holds it and, if any permitted subtree is of its kind, one holds it |
| `PolicyRules.ConstraintsRule` | src/identity/chain/extensions.rs:72-112 | constraints pass exactly when all their subtrees are of a supported kind and every name of every certificate below is permitted |
| `PolicyRules.IssuerRule` | src/identity/chain/extensions.rs:265-312 | an issuer passes exactly when it is a CA with basic constraints, may sign certificates and serve where it says what it is for, has path length left, and its constraints are met below it |
| `PolicyRules.LeafRule` | src/identity/chain/extensions.rs:258-366 | a leaf passes exactly when it is no CA, may sign and serve where it says what it is for, and some name of it matches the host |
| `TrustStore.Build` | src/client/config/truststore.rs:43-72 | a store is built exactly from 1 to 256 anchors that all prepare; it holds each once, ordered by key and then by encoding; the first anchor that does not prepare is reported |
| `TrustStore.UptoIsLexicographic` | src/client/config/truststore.rs:43-72 | encodings are ordered by their first differing byte, a prefix first |
| `TrustStore.PartitionPoint` | src/client/config/truststore.rs:89-89 | counts exactly the leading entries with a smaller key |
| `TrustStore.VerifySubject` | src/client/config/truststore.rs:82-108 | reading only the run of equal keys returns the first stored anchor whose name is the issuer's and whose key verifies, and none only if there is none |
| `TrustStore.ScanFindsIff` | src/client/config/truststore.rs:82-108 | a match is found if and only if some stored anchor has an equivalent subject and a verifying key |
| `SearchMemo.IndexInTable` | src/identity/chain/search.rs:6-8 | the index of a reachable state stays below 2305 |
| `SearchMemo.IndexInjective` | src/identity/chain/search.rs:110-132 | distinct reachable states never share an index |
| `SearchMemo.IndexOnto` | src/identity/chain/search.rs:6-8 | every table position belongs to a reachable state |
| `SearchMemo.Seen.constructor` | src/identity/chain/search.rs:103-105 | nothing has been admitted |
| `SearchMemo.Seen.Admit` | src/identity/chain/search.rs:110-132 | true exactly the first time a reachable state is offered, never an error on one, and all other states are untouched |
| `SearchMemo.SignatureCache.Get` | src/identity/chain/search.rs:150-157 | a cached answer is the verdict of direct verification |
| `SearchMemo.SignatureCache.Insert` | src/identity/chain/search.rs:159-170 | the answer is cached and each ordered pair is verified at most once |
| `PathSpec.StateDecides` | src/identity/chain/search.rs:255-320 | every verdict on the next step reads a path only through its last certificate and its used set |
| `PathSpec.MemoLosesNothing` | src/identity/chain/search.rs:205-253 | two paths in one state are completed by the same continuations |
| `PathSpec.ExhaustedIsDead` | src/identity/chain/search.rs:216-250 | a state whose issuers are all used up or refuted leads to no anchor |
| `PathSpec.AcceptableIff` | src/identity/chain/search.rs:205-253 | a chain is acceptable exactly when the leaf alone can be completed |
| `PathRules.IssuesRule` | src/identity/chain/search.rs:255-320 | a certificate may come next exactly when it is unused, in force, bears the issuer name, verifies the signature and meets the issuing rules for everything below it |
| `PathRules.PathRule` | src/identity/chain/search.rs:205-253 | the paths built step by step are exactly the lists of distinct certificates in force, leaf first, each issued by the next |
| `PathRules.LeafOfEnv` | src/identity/chain/search.rs:205-215 | the leaf is usable exactly under the leaf rule, and otherwise the first rule it breaks is the error |
| `PathRules.AcceptableRule` | src/identity/chain/search.rs:205-253 | what the search decides is: a usable leaf and a sound path to an anchor whose constraints are respected |
| `PathSearch.Search.PrepareCandidate` | src/identity/chain/search.rs:340-347 | a candidate is prepared exactly when its extensions parse and it is valid now |
| `PathSearch.Search.SignatureIsValid` | src/identity/chain/search.rs:349-379 | answers as direct verification does and keeps the cache sound |
| `PathSearch.Search.AnchorAccepts` | src/identity/chain/search.rs:322-338 | true exactly when a trust anchor issues the path's last certificate and its constraints hold below it |
| `PathSearch.Search.Qualifies` | src/identity/chain/search.rs:255-320 | true exactly when the candidate may issue the last certificate of the path |
| `PathSearch.Search.NextIssuer` | src/identity/chain/search.rs:255-320 | the first qualifying candidate from the cursor on, and everything skipped does not qualify |
| `PathSearch.Search.Arrive` | src/identity/chain/search.rs:205-253 | keeps the search invariant; finds an anchor, or notes the state, or meets a refuted one |
| `PathSearch.Search.Descend` | src/identity/chain/search.rs:205-253 | keeps the search invariant and decreases the explicit measure |
| `PathSearch.Search.Run` | src/identity/chain/search.rs:205-253 | terminates, and succeeds if and only if the leaf may serve the host and a list of distinct certificates in force, each issued by the next under every issuing rule, leads from it to an anchor whose constraints are respected; an unusable leaf is reported by the first rule it breaks |
| `ChainValidation.SoundIsTrusted` | src/identity/chain/mod.rs:429-440 | an anchored path in the search is one whose end the store's first certifying anchor certifies and allows |
| `ChainValidation.Validate` | src/identity/chain/mod.rs:389-427 | yields the leaf's key if and only if 1 to 10 certificates were presented, the leaf is in force, no CA, may sign and serve where it says what it is for and bears a name that matches the host, and a sound path leads to a certificate the store's first certifying anchor allows; each other outcome of length and leaf has its error |
| `ChainValidation.AnchorFor` | src/client/config/truststore.rs:82-108 | looking an anchor up through the index answers as the scan the search is judged by, for every certificate |
| `ChainValidation.ValidateAgainst` | src/client/session/authentication.rs:134-204 | with anchors that can be indexed: accepted only if the leaf serves the host, by its fields, and a sound path leads to a certificate some configured anchor certifies and allows; accepted whenever there is such a path that every certifying anchor allows |
| `Calendar.DayNumberCounts` | src/identity/mod.rs:114-161 | the closed form equals counting days one by one, before the epoch as well as after it |
| `Calendar.FromComponents` | src/identity/mod.rs:114-152 | refuses exactly the non-dates, otherwise the seconds since 1970 |
| `Calendar.SecondsIncrease` | src/identity/mod.rs:114-152 | strictly increasing in (year, month, day, hour, minute, second) |
| `Encoding.ExecAllKeeps` | src/wire/codec.rs:197-245 | nothing already encoded is lost or altered, and overflow is sticky |
| `Encoding.FrameRestores` | src/wire/codec.rs:221-245 | a frame that fails or is dropped leaves exactly the bytes that preceded it |
| `Encoding.ExecAllMeans` | src/wire/codec.rs:197-415 | on every back end a program appends exactly its bytes when it fits, and otherwise errs or is spoiled |
| `Encoding.BackEndsAgree` | src/wire/codec.rs:197-415 | the bounded buffer ends clean exactly when the growable one succeeds and the peak fits; then all three agree on bytes and length |
| `FlightBuffer.BoundedBuffer.Write` | src/wire/handshake/storage.rs:53-67 | appends all or nothing above the base and leaves earlier flights alone |
| `FlightBuffer.BoundedBuffer.RollbackTo` | src/wire/handshake/storage.rs:198-200 | cuts back to a length above the base |
| `FlightBuffer.BoundedBuffer.PatchLengthPrefix` | src/wire/handshake/storage.rs:202-206 | overwrites exactly the prefix bytes |
| `FlightBuffer.BoundedBuffer.Encode` | src/wire/handshake/storage.rs:160-213 | the in-place buffer does what the reference back end does |
| `FlightBuffer.BoundedBuffer.Lend` | src/wire/handshake/storage.rs:69-100 | works in the lent vector above its present length, with its own state saved |
| `FlightBuffer.BoundedBuffer.Return` | src/wire/handshake/storage.rs:131-143 | truncates unless committed and restores the connection's own buffer |
| `FlightBuffer.BoundedBuffer.LentFlight` | src/wire/handshake/storage.rs:69-143 | the lender ends with its old bytes, or with them and the encoding; the buffer is as before either way |
| `Fields.FieldsCanonical` | src/wire/codec.rs:63-144 | whatever decodes was the encoding of its value, followed by the rest |
| `Fields.FieldsComplete` | src/wire/codec.rs:63-144 | whatever encodes decodes back to its value, leaving the rest |
| `Fields.ListComplete` | src/wire/codec.rs:63-144 | a list of items reads back item by item |
| `Extensions.Search` | src/wire/extension.rs:98-98 | finds the type or the place where it belongs in the sorted array |
| `Extensions.DecodeExtensionList` | src/wire/extension.rs:92-107 | the one-pass decoder accepts exactly the well-formed lists of at most 64 distinct types |
| `Extensions.ExtensionsCanonical` | src/wire/extension.rs:92-137 | an accepted list re-encodes to its own bytes |
| `Extensions.ExtensionsComplete` | src/wire/extension.rs:53-63 | a valid list decodes back to itself |
| `Frames.EncodeIs` | src/wire/handshake/frame.rs:59-75 | the encoder's nested program writes exactly the framed fields, or fails when one does not fit |
| `Frames.FromThenTo` | src/wire/handshake/views.rs:63-330 | whatever a body decoder accepts, its encoder writes the same fields |
| `Frames.ToThenFrom` | src/wire/handshake/messages.rs:22-280 | every body within the limits reads back as itself |
| `Frames.WireIsCanonical` | src/wire/handshake/views.rs:346-382 | every accepted byte string is exactly what the encoder writes for its message |
| `Frames.FrameRoundTrip` | src/wire/handshake/frame.rs:59-75 | an encoded message decodes back to itself if and only if it keeps the limits (distinct extensions up to 64, up to 16 entries, non-empty vectors) |
| `WireLayout.BigEndian` | src/wire/codec.rs:296-415 | one- to four-byte integers are written most significant byte first |
| `WireLayout.EncodeLayout` | src/wire/handshake/frame.rs:59-75 | an encoded message is its type number, its length in three bytes and its fields in the order and with the length prefixes of RFC 8446; it is refused exactly when a part does not fit its prefix |
| `Psk.ScanIdentities` | src/wire/psk.rs:114-129 | the first identity and the number of them, or an error exactly when the list is malformed |
| `Psk.ScanBinders` | src/wire/psk.rs:134-148 | the first binder and the number of them, or an error exactly when one is malformed or short |
| `Psk.ReadOffer` | src/wire/psk.rs:111-166 | accepts exactly the offers with as many binders as identities, at least one, and summarises them; the minimum sizes exclude nothing more |
| `Psk.HelloEndsWithLastExtension` | src/wire/psk.rs:188-200 | a ClientHello ends with the body of its last extension |
| `Psk.TailBinds` | src/wire/psk.rs:188-200 | binding an offer that came last never fails; prefix and binder vector make up the hello |
| `ClientOffer.HelloIsItsMessage` | src/client/offer.rs:66-221 | the nested encoder writes exactly the ClientHello its settings describe |
| `OfferLayout.HelloLayout` | src/client/offer.rs:66-221 | the hello the client writes is legacy version 3.3, null compression and exactly its extensions, in order, by type number and bytes |
| `ClientOffer.HelloTypesDistinct` | src/client/offer.rs:100-218 | the client never repeats an extension type |
| `ClientOffer.HelloBytes` | src/client/offer.rs:186-217 | a resuming hello is a prefix independent of the binder, then the binder's vectors |
| `ClientOffer.SlotPositions` | src/client/offer.rs:203-217 | the positions noted while the frames are open are where the binder's bytes lie |
| `ClientOffer.OfferRead` | src/wire/psk.rs:111-166 | the server decodes the identity, the age and the binder the client wrote |
| `OfferLayout.DecodesIffLaidOut` | src/wire/psk.rs:111-166 | an offer decodes if and only if its bytes are the two vectors of identities with ages and of binders, as many of each, within their bounds |
| `ClientOffer.Splice` | src/client/offer.rs:329-352 | writes the binder over the prefix into the slot in place, or refuses and changes nothing |
| `ClientOffer.BinderAgreement` | src/server/session/negotiation.rs:66-88 | the server recovers identity, age and binder, and hashes byte for byte the prefix the binder was computed over, after any transcript |
| `RetryBinding.UpdateOffer` | src/server/session/retry.rs:104-119 | hashes identities, ages, binder count and lengths, or errs exactly on a malformed offer |
| `RetryBinding.ComputeFingerprint` | src/server/session/retry.rs:51-90 | the running hash is fed the fingerprint's bytes, or errs exactly on non-zero padding or a malformed offer |
| `RetryBinding.FingerprintInjective` | src/server/session/retry.rs:51-119 | equal fingerprints mean equal pinned content |
| `RetryBinding.FingerprintPins` | src/server/session/retry.rs:22-119 | two hellos off the wire have one fingerprint if and only if both are faultless and differ at most in extensions 21, 42, 44 and 51 and in binder bytes |
| `RetryBinding.Validate` | src/server/session/retry.rs:33-46 | accepted exactly without early data, with one share of the requested group, and with the same fingerprint |
| `ClientRetry.RetryKeepsFingerprint` | src/client/session/negotiation.rs:231-307 | the client's second hello keeps the fingerprint if and only if transport parameters and resumption offer are unchanged |
| `ClientRetry.ObfuscatedAge` | src/client/config/resumptions.rs:101-108 | there is an age exactly while the clock has not run back and the lifetime has not passed |
| `ClientRetry.OfferPinsTheClock` | src/client/config/resumptions.rs:101-115 | a ticket is offered identically only at the same instant |
| `RetryAcceptance.TakeSecond` | src/server/session/hello.rs:49-61 | a server takes a second hello exactly without early data, with one share of the requested group and the pinned fingerprint |
| `RetryAcceptance.WrittenDecodes` | src/client/offer.rs:66-221 | whatever the client's encoder writes, the server decodes to the same hello |
| `RetryAcceptance.ListsRead` | src/server/session/negotiation.rs:172-181 | the server reads back the client's groups and its one share |
| `RetryAcceptance.SecondHelloAccepted` | src/server/session/retry.rs:33-46 | the client's own second hello is taken if and only if transport parameters and resumption offer are unchanged |
| `RetryAcceptance.TicketRetryAccepted` | src/client/session/negotiation.rs:240-251 | with a ticket it is taken if and only if the transport parameters are unchanged and the clock has not moved |
| `RetryAcceptance.OneMillisecondIsTooLate` | src/client/config/resumptions.rs:101-108 | a concrete pair of hellos one millisecond apart whose second is refused |
| `Sizes.ClosesAllEncodes` | src/wire/codec.rs:296-415 | a program whose frames fit encodes, into its counted size, and never takes more room on the way |
| `Sizes.Measured` | src/wire/codec.rs:296-368 | what the size counter reports is the length of the encoding |
| `FlightPlan.FlightFits` | src/server/config.rs:95-241 | every EncryptedExtensions-to-Finished flight of an accepted configuration encodes and is at most `flight_len`, itself at most 256 KiB |
| `FlightPlan.PlanIsReached` | src/server/config.rs:95-241 | some flight of the configuration has exactly the planned length |
| `FlightPlan.PlanAccepts` | src/server/config.rs:95-241 | a configuration is accepted if and only if protocol names fit a length byte and the longest flight fits the list and message limits |
| `FlightPlan.FlightFillsPlannedBuffer` | src/server/session/hello.rs:278-433 | a buffer of the planned size takes the whole flight without overflow |
| `FlightPlan.PlaintextFits` | src/server/session/retry.rs:156-176 | a retry request and a server hello both fit the plaintext lane for every group, mode and resumption, and the longest fill it |
| `FlightPlan.TicketFits` | src/server/session/resumption.rs:196-216 | a session ticket fits the application lane for every negotiated protocol, and the longest fills it |
| `InitialHello.InitialHelloFits` | src/client/offer.rs:223-286 | every first hello encodes whenever the maximum hello does, and is no longer; the maximum is itself a first hello |
| `InitialHello.MeasuredHelloBounds` | src/client/offer.rs:223-286 | the measured maximum bounds the bytes of every first hello |
| `Reassembler.FramesConserve` | src/wire/handshake/mod.rs:80-91 | cutting a stream at announced lengths loses and invents nothing |
| `Reassembler.AnnouncedLength` | src/wire/handshake/mod.rs:80-91 | the announced length is four and the three bytes after the type, in network byte order |
| `Reassembler.FramesResume` | src/wire/handshake/reassemblers.rs:78-134 | framing may be resumed at any cut of the stream |
| `Reassembler.HsReassembler.Fill` | src/wire/handshake/reassemblers.rs:105-124 | the stored fragment takes the header first and then the body, conserving all bytes |
| `Reassembler.HsReassembler.Next` | src/wire/handshake/reassemblers.rs:78-134 | delivers exactly one length-delimited message or leaves a strict prefix of one; storage is exhausted only by a message longer than it |
| `Reassembler.HsReassembler.Read` | src/wire/handshake/reassemblers.rs:67-134 | terminates; deliveries and the fragment kept make up the old fragment and the input, at most eight KeyUpdates are delivered, and every error has its cause in the bytes |
| `Reassembler.ReadAll` | src/wire/handshake/reassemblers.rs:67-134 | reads over any list of records deliver, and leave behind, exactly the framing of all their bytes; before a failure, a prefix of it, and the record and bytes that caused it |
| `Reassembler.FragmentationInvisible` | src/wire/handshake/reassemblers.rs:67-134 | two readers of the same bytes in differently cut records, if both succeed, deliver the same messages and keep the same fragment; otherwise one delivered a prefix of the other |
| `Delivery.EncodedIsExact` | src/wire/handshake/mod.rs:80-91 | an encoded message announces exactly its own length |
| `Delivery.DeliverAll` | src/wire/handshake/reassemblers.rs:67-134 | a fresh reassembler with room for the longest message, given any cut of encoded messages, delivers exactly those messages and keeps nothing, if and only if no record completes more than eight KeyUpdates |
| `Records.NonceFor` | src/crypto/aead.rs:50-57 | the loop computes the IV with the sequence number xored into its last eight bytes |
| `Records.XorDigits` | src/crypto/aead.rs:50-57 | a digit of the exclusive or is set where exactly one operand has it set |
| `Records.NonceInjective` | src/crypto/aead.rs:50-57 | distinct 64-bit sequence numbers never share a nonce |
| `Records.Sealer.SealInto` | src/wire/record/mod.rs:177-202 | appends exactly one sealed record and advances, or appends nothing; only a failure of the AEAD itself uses up a sequence number |
| `Records.Opener.Open` | src/wire/record/mod.rs:356-412 | opens in place what the specification opens, advances by one record, and after the first error yields nothing more |
| `Records.OpenSealed` | src/wire/record/ciphertext.rs:10-51 | opening a sealed record, whatever follows it, returns what was sealed |
| `Records.RecordLayout` | src/wire/record/mod.rs:177-202 | a sealed record is the bytes 23, 3, 3 and its two-byte length, and the sealed content and type with those five bytes as additional data |
| `Records.OpensIff` | src/wire/record/mod.rs:356-412 | content is yielded if and only if the input starts with a whole record of admissible length under an unspent key that opens, with its header as additional data, to the content, its type and zeros |
| `Records.AcceptedWasSealed` | src/wire/record/ciphertext.rs:10-51 | under an authentic AEAD every accepted record is, header included, one that was sealed at this sequence number |
| `Records.StreamRoundTrip` | src/wire/record/mod.rs:177-412 | sealing a list and opening the concatenated records returns the list, both sequence numbers in step |
| `Records.NoncesDistinct` | src/wire/record/mod.rs:264-272 | no two records under one key share a nonce |
| `KeyUpdate.Budget.Consume` | src/wire/handshake/reassemblers.rs:17-25 | at most eight consumptions, with the packed response flag untouched |
| `KeyUpdate.Traffic.Advance` | src/crypto/material.rs:113-123 | advances exactly one side's secret by one generation |
| `KeyUpdate.Traffic.ReceiveUpdate` | src/connection.rs:508-531 | the read secret advances once per accepted update, and a request sets the response flag |
| `KeyUpdate.Traffic.Send` | src/connection.rs:533-564 | the write secret advances after the update is sent, and an unrequested one clears the flag |
| `KeyUpdate.Budget.ResponsePending` | src/server/session/updates.rs:33-36 | reads the packed response flag |
| `KeyUpdate.Traffic.NoteApplicationData` | src/server/session/updates.rs:28-31 | application data resets the update count and nothing else |
| `KeyUpdate.RunSecrets` | src/connection.rs:495-564 | each direction's secret is its first generation advanced once per update; the flag is set exactly when a request is unanswered |
| `KeyUpdate.AtMostEightBetweenNotes` | src/wire/handshake/reassemblers.rs:13-42 | any stretch of a successful run without a progress note holds at most eight accepted updates |
| `KeyUpdate.ReaderWriterAgree` | src/connection.rs:495-564 | from equal secrets, once all in-order updates are delivered, reader and writer agree in both directions |
| `KeyShares.GreedyIff` | src/server/session/negotiation.rs:189-205 | taking the first match each time decides the subsequence relation |
| `KeyShares.NoteSupported` | src/server/session/negotiation.rs:271-280 | errs exactly on a repeated local group |
| `KeyShares.MatchShares` | src/server/session/negotiation.rs:189-221 | matches every share in order and keeps the most preferred local one |
| `KeyShares.Parse` | src/server/session/negotiation.rs:172-237 | accepts exactly an in-order subsequence without local repeats and with a common local group; selects the most preferred share and retry group |
| `KeyShares.SharesCannotRepeat` | src/server/session/negotiation.rs:189-212 | shares drawn in order from groups without local repeats have none either |
| `KeyShares.RetryMeansOneShare` | src/server/session/negotiation.rs:247-252 | passes exactly with one share, of the requested group |
| `KeyShares.SelectionUnique` | src/server/session/negotiation.rs:172-237 | two accepted results on the same lists agree |
| `TranscriptHash.Running.constructor` | src/crypto/hash.rs:274-280 | both contexts run over nothing |
| `TranscriptHash.Running.Restart` | src/crypto/hash.rs:363-383 | only the chosen context runs on, over the first hello's hash |
| `TranscriptHash.Running.HashCut` | src/client/offer.rs:331-352 | the hash a binder covers, over a fork: this transcript stays as it is |
| `TranscriptHash.Running.SelectHash` | src/crypto/hash.rs:290-307 | repeating a choice changes nothing, another choice is refused |
| `TranscriptHash.Running.Update` | src/crypto/hash.rs:309-330 | every context still running sees the message |
| `TranscriptHash.Running.Finish` | src/crypto/hash.rs:332-354 | a digest of all items, or an error under a dropped algorithm |
| `TranscriptHash.ChoiceIsFinal` | src/crypto/hash.rs:290-354 | after a choice only that algorithm answers, however the transcript grows |
| `ServerExtensions.Decode` | src/client/session/mod.rs:119-207 | accepts exactly the solicited extensions with confirmed certificate types and, under QUIC, parameters; records exactly the answers given |
| `ClientProofs.StepKeeps` | src/client/session/mod.rs:323-414 | every call keeps the client's invariant: transcript shape, secrets derived from it, server authenticated before Finished is awaited |
| `ClientProofs.ServerHelloKeeps` | src/client/session/negotiation.rs:29-170 | after a ServerHello the secrets are those of the transcript, the shared secret and, when selected, the offered PSK |
| `ClientProofs.CertificateKeeps` | src/client/session/authentication.rs:134-204 | the key kept for CertificateVerify is the validated leaf's, pinned or in the flight buffer |
| `ClientProofs.VerifyKeeps` | src/client/session/authentication.rs:216-251 | the signature was checked over everything before it with the validated leaf's key |
| `ClientProofs.FinishedKeeps` | src/client/session/authentication.rs:253-371 | a finished client's secrets are determined by its transcript, which ends in its own Finished over all the rest |
| `ClientRuns.CompletionIsAuthenticated` | src/client/session/authentication.rs:134-371 | in every run application keys and Done come only from reading a verified server Finished, after a selected offered PSK or exactly one Certificate and CertificateVerify under the leaf validated at the clock of the call that read the Certificate |
| `ClientRuns.CompletedRunIsAuthenticated` | src/client/session/authentication.rs:253-371 | every run that completes holds a call that completed it in that way |
| `ClientRuns.RunClocked` | src/client/session/authentication.rs:134-204 | in every run the leaf kept, and the leaf that signed, is the one a call validated at its own clock |
| `ClientRuns.RunInstalls` | src/client/session/negotiation.rs:145-170 | in every run not failed, the keys installed are exactly those of the state: handshake secrets once at the ServerHello, application secrets once at the end |
| `ClientRuns.AtMostOneRetryAnswered` | src/client/session/negotiation.rs:175-307 | no run sends more than two hellos |
| `ClientRuns.ErrorEndsTheRun` | src/client/mod.rs:269-301 | whatever is called after a call that errs, the run emits only what it had emitted and that call's events as far as the sink took them, and ends failed without any secret |
| `ClientRuns.FailsIffSomeCallErrs` | src/client/mod.rs:269-301 | a run fails if and only if one of its calls errs or its sink refuses an event |
| `ClientRuns.FailedIsSilent` | src/client/mod.rs:269-301 | after a failure no call ever emits another event |
| `ClientRuns.RetryAnsweredIff` | src/client/session/negotiation.rs:175-307 | a well-formed retry request is answered if and only if no usable ticket is left or the suite hashes with SHA-256 |
| `ClientRuns.RetryUnderSha384Fails` | src/client/offer.rs:331-352 | a run from a fresh client with a ticket: start, then a retry request under SHA-384; it sends one hello and fails |
| `ClientReports.OpeningOf` | src/client/drive.rs:27-164 | a run says something only if its first call began: it opens with the configured hello, the ticket offered while it lasts under a binder over that hello, then early-data keys of that ticket and hello exactly when they are offered and the sink has room |
| `ClientReports.SecondHelloIs` | src/client/session/negotiation.rs:175-307 | in every run a later hello is the first one with the share and cookie a retry request asked for, no early data, and the ticket again while it lasts under a binder over the restarted transcript |
| `ClientReports.TakenInRun` | src/client/session/negotiation.rs:29-170 | in every run a client goes on only with a ServerHello that echoes its session, picks a known offered suite under TLS 1.3 without downgrade, answers its share and selects only an offered ticket, and installs exactly the handshake keys of those shares and that transcript |
| `ClientReports.VerdictIff` | src/client/session/negotiation.rs:329-372 | in every run early data is reported accepted exactly by a call that read extensions granting a standing offer, and rejected exactly by one that read extensions refusing it |
| `ClientReports.OneVerdictAtMost` | src/client/session/negotiation.rs:329-372 | no run reports more than one verdict on early data |
| `ClientReports.EveryOfferGetsItsVerdict` | src/client/session/negotiation.rs:329-372 | a run past the extensions, not failed, has reported one verdict if it sent early data and none if it did not |
| `ClientReports.ExtensionIff` | src/client/session/negotiation.rs:309-379 | in every run a transport extension is reported exactly by a call that read extensions holding it |
| `ClientReports.RequestSettlesResponse` | src/client/session/authentication.rs:38-70 | in every run what the client will answer is settled by the one certificate request it read, and is nothing if it read none |
| `ClientReports.DoneByFinishing` | src/client/session/authentication.rs:253-371 | in every run the call that makes a client done read the Finished it expected and says exactly: application keys, the end of accepted early data, the answer to a request, and its own Finished over everything before |
| `ClientReports.ReadsInTurn` | src/client/session/mod.rs:332-414 | in every run a client survives no message but the one it waited for, in that message's epoch |
| `ClientReports.PostHandshakeIff` | src/client/session/mod.rs:395-414 | in every run post-handshake messages are reported exactly by calls that read one in order when done |
| `ServerProofs.StepKeeps` | src/server/session/drive.rs:58-137 | every call keeps the server's invariant: secrets from the transcript, the expected Finished, the client known when required |
| `ServerProofs.ClientHelloKeeps` | src/server/session/hello.rs:28-482 | after the flight every secret is determined by the transcript up to the server's Finished |
| `ServerProofs.CertVerifyKeeps` | src/server/session/authentication.rs:125-166 | past CertificateVerify the stored identity was approved and its key signed the transcript |
| `ServerProofs.FinishedKeeps` | src/server/session/resumption.rs:79-106 | a finished server's transcript ends in the client Finished over all the rest, and its early-data window is closed |
| `ServerRuns.DoneIsVerified` | src/server/session/resumption.rs:79-106 | in every run Done comes only from reading the expected client Finished; with client auth required and no PSK, only after an approved identity signed |
| `ServerRuns.FinishedRunIsVerified` | src/server/session/resumption.rs:79-106 | every run that says it is done holds a call that verified the client |
| `ServerRuns.ErrorEndsTheRun` | src/server/session/mod.rs:274-280 | after a call that errs the run emits nothing more and ends failed, without secrets and with the window closed |
| `ServerRuns.RunInstalls` | src/server/session/hello.rs:246-268 | in every run not failed, the keys installed are exactly those of the state: handshake secrets once, then application secrets once |
| `ServerRuns.FailedIsSilent` | src/server/session/mod.rs:274-280 | after a failure no call ever emits another event |
| `ServerRuns.EarlyDataWithinLimit` | src/server/session/mod.rs:79-157 | in every run early data is charged only after a call that accepted an early-data hello, opened its ticket and verified its binder; TLS charges together stay within the limit sealed in that ticket; the window is closed at Done and after failure |
| `ServerRuns.HelloSeals` | src/server/session/mod.rs:79-119 | a hello that opens the window opens it to exactly the limit its ticket seals, under its suite and a verified binder |
| `ServerRuns.OverchargeFails` | src/server/mod.rs:292-305 | charging more than is left closes the window and fails the server |
| `ServerReports.PicksPreferred` | src/server/session/hello.rs:57-61 | the suite picked is 0x1301 if offered, else 0x1303, else 0x1302 |
| `ServerReports.TakesIff` | src/server/session/hello.rs:28-120 | a hello goes on to key agreement exactly when it parses, holds a known suite, passes version, compression, session and configuration checks and, after a retry, keeps everything pinned |
| `ServerReports.EarlyKeysIff` | src/server/session/hello.rs:150-179 | in every run early-data keys are announced exactly by calls that read a hello whose ticket opened, whose binder that ticket's key made and whose early data is granted; the secret is of that key and the transcript up to that hello |
| `ServerReports.EarlyKeysOnce` | src/server/session/hello.rs:150-179 | no run announces early-data keys twice |
| `ServerReports.ExtensionIff` | src/server/session/hello.rs:121-135 | in every run a transport extension is reported exactly by a call that read a settled hello holding it |
| `ServerReports.WelcomeInRun` | src/server/session/hello.rs:121-481 | in every run a settled hello that does not fail the server is answered by exactly: the ServerHello, handshake keys, the flight from EncryptedExtensions to Finished with the signature over its own transcript, and application keys; a usable ticket is resumed, never passed over |
| `ServerReports.AsksAgain` | src/server/session/retry.rs:134-206 | a hello without a usable share is asked again, once, for the preferred group, and pinned |
| `ServerReports.SecondHelloIsPinned` | src/server/session/retry.rs:22-46 | in every run a server that asked again holds the fingerprint, group and suite of a hello it took before |
| `ServerReports.TicketIff` | src/server/session/resumption.rs:79-229 | in every run tickets are sent exactly by calls that read the expected Finished under SHA-256 with ticket keys, and key updates reported exactly in order when done |
| `ServerReports.ReadsInTurn` | src/server/session/drive.rs:58-137 | in every run a server survives no message but the one it waited for, in that message's epoch |
| `Agreement.SharedFinishedMeansAgreement` | src/crypto/schedule.rs:42-128 | whatever each side was sent, the same two Finished messages mean equal transcripts, suites and handshake, traffic, exporter and resumption secrets |
| `Agreement.SameAnchor` | src/crypto/schedule.rs:74-90 | the same server Finished rests on the same ServerHello, suite, schedule and covered transcript |
| `Agreement.PlayIsRuns` | src/connection.rs:301-308 | each side of a played system is a run of its own, so what holds of every run holds of it |
| `Agreement.ChannelsConserve` | src/connection.rs:301-308 | what was sent is, in order, what was read and what is still on its way, in both directions |
| `Agreement.MirroredKeys` | src/client/session/negotiation.rs:159-167 | the handshake and application keys the two sides announced are each other's with reading and writing exchanged |
| `Agreement.AdvanceKeeps` | src/client/session/mod.rs:332-414 | each delivery keeps the invariant that only the peer's own Finished is ever in a channel or accepted |
| `Agreement.TwoPartyAgreement` | src/server/session/hello.rs:158-481 | in every run over in-order channels, if both sides are done their transcripts, cipher suite, traffic, exporter and resumption secrets are equal, the handshake and application keys each announced, once, mirror the other's, and an early-data key the server announced is the one the client announced, at most once |
| `Agreement.EarlyKeysAgree` | src/server/session/hello.rs:150-179 | in every run each side announces early-data keys at most once; the server's are of the client's first hello and the ticket it began with, and the client announced the same if and only if its sink took more than that hello |
| `Conversation.ClientTranscriptIsTheConversation` | src/client/session/mod.rs:332-414 | in every run not failed the client's transcript is exactly the messages it heard and said, restarted at a retry |
| `Conversation.ServerTranscriptIsTheConversation` | src/server/session/drive.rs:58-137 | in every run not failed the server's transcript is exactly the messages it heard and said, restarted at a retry |
| `Conversation.SameConversation` | src/server/session/hello.rs:28-481 | when both sides are done they heard and said the same handshake messages in the same order |
| `Exchange.ServerReadsHello` | src/server/session/hello.rs:28-482 | a hello the server can serve, first or second, is answered by exactly the ServerHello and the flight, and the server then waits for the right message |
| `Exchange.ClientReadsHello` | src/client/session/negotiation.rs:105-169 | the client arrives at the server's handshake secrets, with the PSK exactly when the server selected it |
| `Exchange.ClientReadsFinished` | src/client/session/authentication.rs:253-371 | a client that followed the flight accepts its Finished and sends EndOfEarlyData when due and its own flight over the whole transcript |
| `Exchange.ServerReadsFlight` | src/server/session/authentication.rs:64-166 | the server reads that flight to the end, with early data, no, an empty or a full client certificate |
| `Exchange.ExchangeCompletes` | src/server/session/hello.rs:28-482 | a hello on its way between agreeable peers ends with both done, PSK and early data used exactly as the server accepted them |
| `Completion.OfferedPskIsAccepted` | src/server/session/resumption.rs:27-76 | on equal transcripts the client's binder is never found wrong, and accepted exactly when the ticket opens while resumable, in a first or second hello |
| `Completion.ClaimedAgeIsElapsed` | src/server/session/mod.rs:106-107 | the age the server recovers from the masked one is the time the client has held its ticket |
| `Completion.RetryIsUnderstood` | src/client/session/negotiation.rs:188-216 | the server's retry request is understood exactly when it names a supported group not yet tried |
| `Completion.FullHandshakeCompletes` | src/client/session/authentication.rs:253-371 | compatible peers complete a full handshake, with or without a client certificate, and agree |
| `Completion.ResumedHandshakeCompletes` | src/server/session/hello.rs:136-179 | a ticket the server opens to the client's key completes under the PSK; early data is accepted if and only if both want it, the clocks agree on the ticket's age and the hello is new; the client then reports it accepted, and otherwise rejected if it was offered, and the server announces the client's early-data key exactly then |
| `Completion.RetriedHandshakeCompletes` | src/server/session/retry.rs:134-206 | a retried handshake completes, in full or under the PSK, whenever the server's pin holds on the second hello; no early data survives it |
| `Completion.SomePeersComplete` | src/client/mod.rs:269-301 | concrete peers for which a full, an early-data and a retried resumption all complete, so none of these theorems is empty |
| `Completion.HelloWithoutKey` | src/client/drive.rs:140-164 | a concrete run in which the client's sink takes the hello and refuses the key: the client fails and the server announces an early-data key the client did not |
| `ClientSession.Session.constructor` | src/client/session/mod.rs:54-64 | a fresh client that has emitted nothing |
| `Sink.Outbox.Emit` | src/connection.rs:301-308 | one event more, or a refusal that changes nothing |
| `ClientSession.Session.Poisoned` | src/client/session/mod.rs:323-330 | failed, with every secret and pending offer cleared |
| `ClientSession.Session.Begin` | src/client/drive.rs:27-164 | the machine's start, refused without failing unless the session is new |
| `ClientSession.Session.BuildHello` | src/client/offer.rs:66-221 | writes the machine's hello, its binder over the forked transcript |
| `ClientSession.Session.Judge` | src/client/session/negotiation.rs:76-123 | one pass over the extensions finds the share and the PSK choice the specification finds |
| `ClientSession.Session.Respond` | src/client/session/authentication.rs:75-132 | the client's certificate messages, hashed as they are written |
| `ClientSession.Session.Scan` | src/client/session/negotiation.rs:189-207 | the loop over a retry request's extensions finds what the specification finds |
| `ClientSession.Session.HandleRetry` | src/client/session/negotiation.rs:175-229 | does what the machine does on a retry request |
| `ClientSession.Session.Answer` | src/client/session/negotiation.rs:231-307 | does what the machine does to answer one |
| `ClientSession.Session.HandleServerHello` | src/client/session/negotiation.rs:29-170 | does what the machine does on a server hello |
| `ClientSession.Session.HandleEncryptedExtensions` | src/client/session/negotiation.rs:309-379 | does what the machine does on EncryptedExtensions: its events are the transport extension, if there is one, and accepted or rejected exactly as the negotiation grants or refuses a standing offer |
| `ClientSession.Session.HandleCertificateRequest` | src/client/session/authentication.rs:38-70 | does what the machine does on a request |
| `ClientSession.Session.HandleCertificate` | src/client/session/authentication.rs:134-204 | does what the machine does on a chain, with the leaf key in the reused flight buffer |
| `ClientSession.Session.HandleCertificateVerify` | src/client/session/authentication.rs:216-251 | does what the machine does on a signature, and clears the flight buffer |
| `ClientSession.Session.HandleServerFinished` | src/client/session/authentication.rs:253-371 | does what the machine does on the server's Finished, event by event |
| `ClientSession.Session.Route` | src/client/session/mod.rs:332-414 | phase and epoch decide the handler as in the machine |
| `ClientSession.Session.ReadMessage` | src/client/mod.rs:285-301 | one call is one machine step: the same events, the same state, or a failed session without secrets; a failed session stays as it is |
| `ClientSession.Drive` | src/client/mod.rs:269-301 | a session over any list of calls is the machine's run, event for event; if it completed, a call read the right Finished from an authenticated server; done, its secrets are those of its transcript; failed, it holds none; early data is reported accepted or rejected exactly when a call read extensions that say so, never both |
| `ServerSession.EarlyWindow.AdmitOffer` | src/server/session/mod.rs:79-119 | opens the window exactly under the conditions of the specification, with the ticket's limit |
| `ServerSession.EarlyWindow.ChargeBytes` | src/server/session/mod.rs:130-151 | takes exactly the bytes charged from what is left, or closes the window |
| `ServerSession.EarlyWindow.Shut` | src/server/session/mod.rs:153-156 | nothing is left and no limit is advertised |
| `ServerSession.Session.constructor` | src/server/session/mod.rs:255-262 | a fresh server that has emitted nothing |
| `ServerSession.Session.Poisoned` | src/server/session/mod.rs:274-280 | failed, with every secret and the stored identity cleared and the window closed |
| `ServerSession.Session.SendRetry` | src/server/session/retry.rs:134-206 | does what the machine does to ask for a retry |
| `ServerSession.Session.TryAccept` | src/server/session/resumption.rs:27-77 | a ticket that does not open or is too old is ignored, a wrong binder over the forked transcript is fatal, as in the machine |
| `ServerSession.Session.KeepsItsPin` | src/server/session/retry.rs:33-46 | passes exactly when the pin, if there is one, holds |
| `ServerSession.Session.ChooseSuite` | src/server/session/hello.rs:57-61 | the loop finds the most preferred common suite |
| `ServerSession.Session.Welcome` | src/server/session/hello.rs:150-179 | the window is set, the hello hashed, and exactly when the window opens the early-data secret of the ticket's key and the transcript up to the hello is announced |
| `ServerSession.Session.Present` | src/server/session/hello.rs:330-418 | the server's certificate messages, hashed as they are written |
| `ServerSession.Session.AcceptHello` | src/server/session/hello.rs:121-230 | does what the machine does with a usable share, event by event |
| `ServerSession.Session.SendHello` | src/server/session/hello.rs:180-268 | does what the machine does to send its hello |
| `ServerSession.Session.SendFlight` | src/server/session/hello.rs:270-443 | does what the machine does to send its flight |
| `ServerSession.Session.Finalise` | src/server/session/hello.rs:445-481 | does what the machine does to derive the application secrets and choose the next phase |
| `ServerSession.Session.HandleClientHello` | src/server/session/hello.rs:28-482 | does what the machine does on a client hello |
| `ServerSession.Session.HandleEndOfEarlyData` | src/server/session/authentication.rs:64-72 | closes the window and awaits the Finished over the grown transcript |
| `ServerSession.Session.HandleClientCertificate` | src/server/session/authentication.rs:90-120 | does what the machine does on a client chain, storing the message |
| `ServerSession.Session.HandleClientCertVerify` | src/server/session/authentication.rs:125-166 | does what the machine does on a client signature, with the stored identity |
| `ServerSession.Session.HandleClientFinished` | src/server/session/resumption.rs:79-229 | does what the machine does on the client's Finished, then issues a ticket |
| `ServerSession.Session.Route` | src/server/session/drive.rs:58-137 | phase and epoch decide the handler as in the machine |
| `ServerSession.Session.ReadMessage` | src/server/session/drive.rs:42-56 | one call is one machine step: the same events, the same state, or a failed session without secrets |
| `ServerSession.Session.Note` | src/server/mod.rs:292-305 | charging early data is one machine step |
| `ServerSession.Drive` | src/server/session/drive.rs:42-56 | a session over any list of calls is the machine's run, event for event; if it said it is done, a call verified the client; TLS early data charged stays within an opened ticket's limit; failed, it holds no secret; early-data keys are announced at most once, exactly when a call read a hello that earns them |

## Left out

- Foreign primitives (ring, ML-KEM, hash and signature internals, ticket encryption) are function values or free terms; an AEAD opens what it sealed, a hash is injective, both sides of a key agreement compute one value.
- X.509 field parsing, PSS parameters and Unicode preparation: parsed certificates and normalised strings are given.
- Error codes and alert mapping: a failure is a failure, except in the codec, the reassembler and the checks of a chain and its leaf, where the cause is stated.
- Zeroisation, thread binding, pools, bound and multiplexed wrappers: delegation, not functional behaviour.
- `ClientHelloOffers::parse` beyond key shares and the PSK tail, ALPN and certificate-type selection: any outcome is allowed in the handshake model.
- Messages in the handshake model are terms with parsed extensions, not bytes; `Frames`, `Psk` and `ClientOffer` treat the bytes.
- Key updates and tickets after the handshake are opaque events in the client and server machines; `KeyUpdate` treats them.
- Hostname matching is a predicate on names; that an anchor's key and constraints parse is a predicate on anchors.
- `usize` overflow in the size planner: sizes are unbounded, and every planned size is capped at 256 KiB.
- Names.HashRdn: the digest of one attribute is a function value, because SHA-256 is not modelled.
- ClientSession.Session.Poisoned: transcript, randoms and flags keep whatever the failed call had written to them, because nothing reads them after a failure.
