# VOR in Dafny

A model of the parts of the VOR repository that decide something, with proofs of what they
promise. It covers the offline licence authority (`core/vor-license`), the share-link and
subscription reader, endpoint metrics and scoring (`core/vor-engine`), the selection rule of
the Flutter client, the connect protocol of the preview store and the OpenWrt watchdog.

`dafny verify dfyconfig.toml` checks everything.

## How it is built

- **Text and bytes.** Rust's `str` is a sequence of Unicode scalar values with an explicit UTF-8
  codec (`Utf8`, RFC 3629). `Base64` is RFC 4648 with the four engines the program uses, `Json` is
  RFC 8259 as serde_json writes and reads it, restricted to integers that fit 64 bits.
  `JsonStrings` and `Compact` say which texts are read and that the written ones are the shortest,
  `Base64Numbers` what a base64 text is as a number.
- **Licence authority.** `Canonical`, `Structs`, `License`, `SignedForms`, `Envelope`, `Keys`,
  `Authority`, `Devices`. A history is any list of generate, rotate, issue and export; the main
  result is `Authority.OnlyIssuedAccepted`.
- **Audit log.** `Audit` is the chain, `AuditFile` the file, its sessions and the
  reader, `AuditTail` files whose last line is cut short.
- **Links.** `Links` holds the readers, `LinkRoundTrips` and `LinkForms` printers for all four schemes,
  the round trips and what is refused, `Forgiving` the four-engine decoder, `Subscriptions` export
  and import.
- **Endpoints.** `Health` is the sample window and its statistics, `Scoring` the score, the
  sort-based pick and the one-pass pick, `Rates` what each part of a score costs, `Collation` the two
  ways ids are compared.
- **Watchdog.** One tick as a state change on the UCI options and the streak file, then any
  number of ticks.
- **Connect protocol.** `Connect` is a timed transition system: sleeping runs carry token,
  program counter, attempt and deadline; a callback happens only when its deadline has passed and
  no earlier one waits; user actions and ticks come at any time; dice and scores are free choices.
  `ConnectSafety` proves the invariant, `ConnectRuns` what follows for whole runs, `ConnectLiveness`
  that runs end, `ConnectRungs` which rungs of the ladder are dialled and shown.

Code that changes things in place is imperative here too (`Canonical.TextBuffer`, `Keys.KeyStore`,
`AuditFile.Log`, `Health.EndpointHealth`, `Watchdog.Router`, `Connect.Store` and the loops), each
method proved equal to a specification function; the lemmas are about those functions.

SHA-256 and Ed25519 (section 5.1 of RFC 8032) are unknown functions of the right sizes in which a
made signature checks (`Crypto.Suite`). Nothing is assumed about collisions or forgeries: results
that depend on them exhibit the forged signature, the colliding key ids or the colliding digests as
the other alternative.

## Where code and comments differ

The model follows the code.

- `verify_chain` compares no sequence number with a position and cannot see a missing tail
  (`Audit.NumberingUnchecked`, `Audit.TruncationUnseen`). The log is append-only, but appending to a file
  whose last line lacks its line break makes it unreadable (`AuditTail.SessionExactly`).
- The audit module speaks of hashing the previous hash before the canonical entry; the previous hash
  is hashed as a member of the entry instead. `write_canonical` mentions a `BTreeMap` and sorts a vector.
- The schema rejects device ids with a `0x` mark that `normalize_hwid` accepts
  (`License.WellFormedExactly`).
- The steps listed above `verify_license` put the product after the signature; it is checked first,
  with the schema.
- An unmeasured endpoint is said to be heavily penalised; its missing jitter counts as perfect and can
  put it ahead of a slow measured one (`Scoring.UnmeasuredCanWin`; exactly when:
  `Scoring.MeasuredBeatsExactly`, `Scoring.MeasuredScoresExactly`).
- The Dart scoring is said to mirror the Rust one exactly; the picks compare ids by different encodings
  and differ exactly when an id tied with the pick is crossed with its id (`Scoring.PicksAgreeExactly`,
  `Collation.OrdersAgreeExactly`).
- The watchdog's five healthy probes need not be consecutive, an exhausted ladder is not retried at the
  next tick, entering blackout mode leaves the CDN transport at the first failed retry, and leaving it
  does not restore what was configured before (`Watchdog.ConsecutiveExactly`, `Watchdog.ExhaustedStays`,
  `Watchdog.BlackoutTransport`, `Watchdog.BlackoutRoundTrip`).
- In the store a failed re-verification does not stop a session, switching to blackout stops neither a
  dial nor a session waiting for recovery, and the transport reached by escalation is overwritten by the
  next scoring pass (`ConnectRuns.LicensedExactly`, `ConnectRuns.BlackoutExactly`,
  `ConnectRuns.MidDialNotStopped`, `ConnectRuns.RecoveryNotStopped`, `ConnectRungs.DialledExactly`,
  `ConnectRungs.EscalationOverwritten`).

## Model

| member | source | states |
|---|---|---|
| `Json.EscapeCharReads` | core/vor-license/src/canonical.rs:24-27 | one escaped character in front of any string body is read back as that character, the rest being read as before |
| `Json.ValueReads` | core/vor-license/src/canonical.rs:19-55 | the compact text of any value, followed by any text that does not continue a number, is read back as that value and leaves exactly the text that followed |
| `Json.ParsePrint` | core/vor-license/src/canonical.rs:19-61 | reading a written value gives the value |
| `Json.PrintInjective` | core/vor-license/src/canonical.rs:19-55 | different values never have the same text |
| `Json.PrintVisible` | core/vor-license/src/audit.rs:80-82 | written JSON holds no control character, hence no raw line break |
| `JsonStrings.StringsExactly` | core/vor-license/src/canonical.rs:24-27 | a string body is read as a text if and only if it is a spelling of each character in turn, as it stands, by a short escape or by the escapes of its UTF-16 units in either case, and the closing quote |
| `JsonStrings.NumbersExactly` | core/vor-license/src/canonical.rs:23 | an integer is read exactly where the one text written for it stands |
| `Compact.EscapeCharShortest` | core/vor-license/src/canonical.rs:24-27 | what is written for a character is the only shortest text without capital digits that reads as it; so a slash is written as it stands |
| `Compact.StrShort` | core/vor-license/src/canonical.rs:24-27 | no text that reads as a string is shorter than what is written for it |
| `Compact.PrintShortest` | core/vor-license/src/canonical.rs:19-55 | no text of a value is shorter than the written one |
| `Compact.CanonShortest` | core/vor-license/src/canonical.rs:13-55 | no text of a value that is the same mapping at every depth is shorter than its canonical text |
| `Compact.DigitsOfText` | core/vor-license/src/canonical.rs:23 | digits without a needless zero in front are the digits written for their number |
| `Canonical.WriteCanonical` | core/vor-license/src/canonical.rs:19-55 | the writer appends to the shared buffer exactly the canonical text of the value and touches nothing else |
| `Canonical.WriteArray` | core/vor-license/src/canonical.rs:28-37 | the item loop appends the canonical text of the array |
| `Canonical.WriteObject` | core/vor-license/src/canonical.rs:38-53 | sorting and the entry loop append the canonical text of the object |
| `Canonical.TextBuffer.Push` | core/vor-license/src/canonical.rs:19-27 | pushing text only lengthens the buffer by it |
| `Canonical.SortSorted` | core/vor-license/src/canonical.rs:40-41 | sorting distinct keys by their bytes gives a strictly increasing list |
| `Canonical.SortedUnique` | core/vor-license/src/canonical.rs:40-41 | a strictly sorted list is determined by its set of entries, so the order of a map cannot show |
| `SignedForms.KeyLeExactly` | core/vor-license/src/canonical.rs:40-41 | names in the order of their UTF-8 bytes are in the order of their code points |
| `SignedForms.SignedTextExactly` | core/vor-license/src/format.rs:101-126 | a signature covers the members of the payload in this order, the reference only when there is one |
| `SignedForms.PreimageExactly` | core/vor-license/src/audit.rs:104-111 | the hash of an entry covers action, detail, previous hash, number and time, in this order, and nothing else |
| `Canonical.SameValueSameNormal` | core/vor-license/src/canonical.rs:38-53 | two values normalise alike exactly when they are the same mapping at every depth, entries in any order |
| `Canonical.CanonDecidesEquality` | core/vor-license/src/canonical.rs:13-55 | canonical texts are equal if and only if the values are the same mapping at every depth: injective, and blind to entry order |
| `Canonical.ParseCanon` | core/vor-license/src/canonical.rs:13-61 | parsing a canonical text gives the value with its objects sorted |
| `Canonical.CanonicalizeIdempotent` | core/vor-license/src/canonical.rs:58-61 | canonicalising any readable text, whatever its spacing, order or repeated names, gives a fixpoint of canonicalisation |
| `Structs.FindInNormal` | core/vor-license/src/verify.rs:76-77 | what a struct reader finds under a name does not depend on the order in which canonical text lists the members |
| `Base64.DecodeEncode` | core/vor-license/src/lib.rs:30-61 | each of the four engines decodes what it encodes, for all bytes |
| `Base64.EncodeDecode` | core/vor-license/src/lib.rs:43-61 | a text an engine accepts is the encoding of the bytes it gives: padding and trailing bits leave no second spelling |
| `Base64.EnginesAgree` | core/vor-engine/src/subscription.rs:25-38 | whenever two of the four engines accept a text they give the same bytes |
| `Base64Numbers.EncodingExactly` | core/vor-license/src/lib.rs:30-61 | the characters are the digits in base 64, by the tables of RFC 4648, of the number whose digits in base 256 are the bytes; padding fills up to a multiple of four and holds equals signs only |
| `Utf8.DecodeEncode` | core/vor-license/src/lib.rs:30-61 | UTF-8 decoding inverts encoding for every text |
| `Utf8.EncodeDecode` | core/vor-license/src/lib.rs:43-61 | accepted bytes are the encoding of the text they give: overlong forms and surrogates are refused |
| `Utf8.LossyEncode` | core/vor-engine/src/subscription.rs:101-125 | lossy decoding is exact on encoded text |
| `Envelope.DecodeEncode` | core/vor-license/src/lib.rs:30-61 | decoding an encoded envelope gives back payload, signature and key, for all bytes |
| `Envelope.EncodeDecode` | core/vor-license/src/lib.rs:30-61 | re-encoding any accepted envelope gives back its trimmed text |
| `Envelope.SamePartsSameText` | core/vor-license/src/lib.rs:43-61 | two accepted envelopes mean the same parts exactly when they differ only in surrounding white space |
| `Envelope.ShapeOf` | core/vor-license/src/lib.rs:30-40 | an envelope is the mark, a dot and three pieces of unpadded URL-safe base64 with dots between |
| `License.NormalizeStable` | core/vor-license/src/hwid.rs:21-28 | normalising a device id twice is normalising it once |
| `Devices.SpellingNormal` | core/vor-license/src/hwid.rs:21-28 | a digest bare, marked or prefixed, in any mix of cases and with white space around it, normalises to the prefix and its small digits |
| `License.SpellingsAgree` | core/vor-license/src/hwid.rs:21-28 | a digest written bare, with a `0x` mark or with the prefix normalises to the same id |
| `License.WellFormedExactly` | core/vor-license/src/format.rs:161-171 | the schema admits exactly the ids that normalise to a full digest, except those with a `0x` mark |
| `License.SchemaExactly` | core/vor-license/src/format.rs:130-173 | the schema passes a payload if and only if version, product, ids, window, issue time, entitlements and every device id are as it asks |
| `License.SchemaNames` | core/vor-license/src/format.rs:130-173 | which problem is named when there are several |
| `License.UnknownIgnored` | core/vor-license/src/format.rs:101-126 | members with other names are passed over, wherever they stand and however often |
| `License.RepeatedRefused` | core/vor-license/src/format.rs:101-126 | a known member that is there twice is refused |
| `License.SignedTextReads` | core/vor-license/src/format.rs:101-126 | reading the canonical text of a payload gives back every field of it |
| `License.SignedTextInjective` | core/vor-license/src/format.rs:101-126 | different payloads have different signed texts |
| `Keys.KeyStore.Generate` | core/vor-license/src/keys.rs:72-91 | a generated store holds one Active record, files it under the id of its key, and signs with it |
| `Keys.KeyStore.Retire` | core/vor-license/src/keys.rs:100-107 | the retirement loop retires every Active record once, in whatever order it meets them, and leaves the others |
| `Keys.KeyStore.Rotate` | core/vor-license/src/keys.rs:99-124 | the whole store after a soft or hard rotation; the new key is the active one and coherence is kept |
| `Keys.RotatedCoherent` | core/vor-license/src/keys.rs:99-124 | any rotation keeps every record under the id of its own key and the signing key under the active id |
| `Keys.HistoryCoherent` | core/vor-license/src/keys.rs:72-134 | so does any history of rotations |
| `Keys.RecordAfterHistory` | core/vor-license/src/keys.rs:99-124 | with fresh keys, a record keeps id, key and date through any history; it is Active afterwards exactly when it was and no rotation was hard, and its note gains one remark, with the time of the first hard one |
| `Keys.ActiveAfterRotation` | core/vor-license/src/keys.rs:99-124 | one rotation with a fresh key leaves one Active key if hard and one more than before if soft |
| `Keys.ActiveCount` | core/vor-license/src/keys.rs:72-124 | the number of Active keys is one plus the soft rotations since the last hard one, or since generation |
| `Crypto.KeyIdExactly` | core/vor-license/src/keys.rs:11-14 | a key id is the mark and sixteen small digits, and two keys have one id exactly when their digests agree in the first eight bytes |
| `Authority.IssuedUnderActiveKey` | core/vor-license/src/issue.rs:12-41 | an issued payload passes the schema and names the id of the key that signed it |
| `Authority.IssueExactly` | core/vor-license/src/issue.rs:12-41 | a coherent store issues a payload if and only if the schema passes it and it names the active key; otherwise the error |
| `Authority.RunKeepsInv` | core/vor-license/src/keys.rs:56-134 | over every history: bundles file keys under their own ids, every signature made is over the text of an issued payload, every issued payload names its signing key |
| `Authority.OnlyIssuedAccepted` | core/vor-license/src/verify.rs:67-138 | for every history and every text, an accepted payload was issued, in the very text that was signed, under a key Active in the bundle; the only alternatives are a forged signature or two keys with one id |
| `Authority.AcceptsExactly` | core/vor-license/src/verify.rs:67-138 | a text is accepted as a payload if and only if it decodes, reads, passes the schema, has the sizes, is on the curve, carries the key it names, that key is Active in the bundle, the signature checks, and time, device and revocation allow it |
| `Authority.RefusedExactly` | core/vor-license/src/verify.rs:67-135 | which error is named: schema, then key, then trust, then signature, then time, device and revocation |
| `Authority.RotationDecides` | core/vor-license/src/verify.rs:94-135 | a licence issued at any point of a history verifies against any later bundle with exactly this outcome: untrusted key if a hard rotation lies between, else the refusal of time, device or revocation, else accepted |
| `Authority.IssuedIsAccepted` | core/vor-license/src/issue.rs:12-41 | at any point of a history of rotations every payload that passes the schema and names the active key is issued, and verifies against the bundle exported there exactly as time, device and revocation say |
| `Authority.WindowIsExact` | core/vor-license/src/verify.rs:103-109 | the saturating comparison decides exactly as unbounded arithmetic would, for every 64-bit time and skew |
| `Authority.PolicyMeaning` | core/vor-license/src/verify.rs:102-135 | each refusal after the signature, and acceptance, by the exact condition under which it comes |
| `Authority.SpellingIrrelevant` | core/vor-license/src/verify.rs:115-129 | how a device id is spelt makes no difference to the device check |
| `Devices.BoundExactly` | core/vor-license/src/verify.rs:115-129 | a timely licence bound to some digests, however spelt, is refused on a device for its device if and only if the digest of the device, however spelt, is none of them |
| `Devices.NoDevice` | core/vor-license/src/verify.rs:115-129 | without a device id a timely bound licence is refused, and an unbound one is never refused for the device |
| `Devices.EitherList` | core/vor-license/src/verify.rs:115-129 | two nonempty lists together admit exactly the devices that either admits |
| `Devices.VerifiedOnDevice` | core/vor-license/src/verify.rs:67-138 | at any point of a history of rotations, a licence issued there and verified on a device is refused, revoked or accepted by the digests alone |
| `Authority.AcceptedIsWellFormed` | core/vor-license/src/format.rs:130-173 | whatever is accepted is a version 2 payload of this product, inside its window, with entitlements, nonblank ids, digest device ids, and not revoked |
| `Audit.LineReads` | core/vor-license/src/audit.rs:41-45 | a written line reads back as the entry |
| `Audit.PreimageInjective` | core/vor-license/src/audit.rs:104-111 | entries that differ in any hashed member have different hashed bytes |
| `Audit.SameLastHashSameLog` | core/vor-license/src/audit.rs:92-111 | two logs that verify and end in the same hash are equal entry for entry, or contain two entries that collide under SHA-256 |
| `Audit.TamperingDetected` | core/vor-license/src/audit.rs:92-111 | any edit, deletion, insertion or reordering that leaves the last entry in place fails verification or exhibits a collision |
| `Audit.TruncationUnseen` | core/vor-license/src/audit.rs:92-101 | every front of a log that verifies also verifies |
| `Audit.NumberingUnchecked` | core/vor-license/src/audit.rs:92-101 | whatever numbers, times, actions and details are asked for, in any order, there is a log of exactly those that verifies |
| `AuditFile.Log.Open` | core/vor-license/src/audit.rs:32-53 | opening succeeds exactly when every nonblank line reads as an entry, and yields those entries in order |
| `AuditFile.Log.Append` | core/vor-license/src/audit.rs:55-85 | one entry, numbered by position and chained to the last hash, is added to the log and as one line to the file |
| `AuditFile.Log.VerifyChain` | core/vor-license/src/audit.rs:92-101 | the loop returns true exactly when every entry carries its own hash and the hash before it |
| `AuditFile.Session` | core/vor-license/src/audit.rs:32-85 | the file after opening and appending any requests, or failure when it cannot be read |
| `AuditFile.ReadWritten` | core/vor-license/src/audit.rs:32-53 | a file of written entries reads back as exactly those entries |
| `AuditFile.BlankLineIgnored` | core/vor-license/src/audit.rs:38-43 | a blank line anywhere changes nothing of what is read |
| `AuditFile.UnreadableLine` | core/vor-license/src/audit.rs:38-48 | one unreadable line makes the whole file unreadable |
| `AuditFile.SessionsCompose` | core/vor-license/src/audit.rs:32-85 | any sessions on a file of entries amount to one long session: reopening loses and changes nothing |
| `AuditTail.SessionExactly` | core/vor-license/src/audit.rs:32-85 | appending to any readable file, whole last line or not, leaves it readable if and only if nothing but JSON blanks follows its last line break, and then adds exactly the new entries |
| `AuditTail.JoinedEntriesAreLost` | core/vor-license/src/audit.rs:32-85 | a file of one entry without its line break is read, and not any more after an append |
| `JsonFront.ValueFront` | core/vor-license/src/audit.rs:44-45 | what was read from a text is read from it whatever follows, unless it continues a number |
| `AuditFile.AppendAllKeepsChain` | core/vor-license/src/audit.rs:55-101 | appending to a log that verifies gives a log that verifies |
| `AuditFile.AppendAllRecords` | core/vor-license/src/audit.rs:55-85 | the entry for a request stands at its position, with its number, time, action and detail |
| `AuditFile.ReopenedLog` | core/vor-license/src/audit.rs:32-101 | after any sessions on a new file, reopening yields one entry a request in order, numbered by position, and the chain verifies |
| `Forgiving.DecodeForgivingLoop` | core/vor-engine/src/subscription.rs:25-38 | the engine loop returns what the first accepting engine gives |
| `Forgiving.OrderIndependent` | core/vor-engine/src/subscription.rs:25-38 | trying the same engines in any other order, or repeatedly, gives the same result |
| `Forgiving.TrimThenDrop` | core/vor-engine/src/subscription.rs:25-26 | trimming first removes nothing that dropping spaces and line breaks would have kept |
| `Forgiving.ForgivingDecode` | core/vor-engine/src/subscription.rs:25-38 | any of the four encodings with spaces and line breaks put in anywhere decodes to the original bytes |
| `Links.UrlDecodeLoop` | core/vor-engine/src/subscription.rs:101-125 | the index loop computes percent decoding |
| `Links.SplitQueryLoop` | core/vor-engine/src/subscription.rs:81-99 | the parameter loop computes authority and parameters |
| `LinkRoundTrips.DecodePctEncode` | core/vor-engine/src/subscription.rs:101-125 | percent decoding undoes percent encoding for every text |
| `LinkRoundTrips.AnySpellingDecodes` | core/vor-engine/src/subscription.rs:101-125 | each character written literally, as a plus or as two digits of either case, stray percent signs included: decoding gives the text those bytes spell |
| `LinkRoundTrips.EveryTextIsSpelt` | core/vor-engine/src/subscription.rs:101-125 | every text whatsoever is such a spelling, and decodes to its bytes read as UTF-8 or replaced |
| `LinkRoundTrips.SplitQueryReads` | core/vor-engine/src/subscription.rs:81-99 | splitting a printed link gives its authority and all its parameters in order, the fragment gone |
| `LinkRoundTrips.HostPortReads` | core/vor-engine/src/subscription.rs:278-287 | a printed host, plain or bracketed IPv6, and any 16-bit port are read back |
| `LinkRoundTrips.VlessRoundTrip` | core/vor-engine/src/subscription.rs:131-154 | printing any vless endpoint, with further parameters and a name, and reading the link returns every field |
| `LinkRoundTrips.VlessSurvivesExactly` | core/vor-engine/src/subscription.rs:131-154 | a vless endpoint survives its link if and only if its host holds no `?` or `#` and no bracket at its ends |
| `LinkRoundTrips.TrojanRoundTrip` | core/vor-engine/src/subscription.rs:193-216 | the same for trojan |
| `LinkRoundTrips.TrojanSurvivesExactly` | core/vor-engine/src/subscription.rs:193-216 | a trojan endpoint survives its link under exactly the same condition |
| `LinkRoundTrips.SsRoundTrip` | core/vor-engine/src/subscription.rs:218-247 | printing a Shadowsocks endpoint with its credentials in any of the four encodings and reading the link returns every field |
| `LinkRoundTrips.SsSurvivesExactly` | core/vor-engine/src/subscription.rs:218-247 | it survives if and only if the method has no colon and the host no `#` and no bracket at its ends |
| `LinkForms.VmessRoundTrip` | core/vor-engine/src/subscription.rs:156-191 | a printed vmess endpoint is read back in every field, in any of the four encodings, its port written as a number or as text |
| `LinkForms.VmessPortReads` | core/vor-engine/src/subscription.rs:156-191 | any 64-bit number as port, written as a number or as text, is read cut to 16 bits |
| `LinkForms.VmessPortRefused` | core/vor-engine/src/subscription.rs:156-191 | a negative port, one that is neither number nor text, and text that is no number are refused |
| `LinkForms.SsWholeSurvivesExactly` | core/vor-engine/src/subscription.rs:218-276 | a Shadowsocks endpoint survives the form that is base64 throughout if and only if its method has no colon, neither method nor password an at sign, and its host no bracket at its ends |
| `LinkForms.PortTooLarge` | core/vor-engine/src/subscription.rs:278-287 | a port of more than 16 bits is refused |
| `LinkForms.RefusedLinks` | core/vor-engine/src/subscription.rs:41-58 | a blank link is empty; any scheme but the four is refused by its name, and text without a scheme by itself |
| `LinkForms.RefusedSubscriptions` | core/vor-engine/src/subscription.rs:61-79 | a blank payload, and one with neither a scheme nor base64, give one error each |
| `LinkRoundTrips.AcceptedHostFits` | core/vor-engine/src/subscription.rs:131-154 | the address read from any accepted vless or trojan link is one a link can carry |
| `LinkRoundTrips.RawReadsAgain` | core/vor-engine/src/subscription.rs:41-58 | the text a profile keeps is the trimmed link, and reading it again gives the same profile |
| `Subscriptions.ImportExactly` | core/vor-engine/src/subscription.rs:61-79 | importing the joined links of any parsed profiles gives exactly those profiles if and only if no link holds a line break |
| `Subscriptions.BrokenLinkParses` | core/vor-engine/src/subscription.rs:131-154 | a link with a line break in its host and no fragment is accepted |
| `Subscriptions.BrokenLinkIsLost` | core/vor-engine/src/subscription.rs:61-79 | so a parsed profile exists whose export is not read back |
| `Subscriptions.EncodedImport` | core/vor-engine/src/subscription.rs:61-79 | any of the four encodings of an exported list, broken into lines anyhow, imports as the list itself does |
| `Subscriptions.InkedSplits` | core/vor-engine/src/subscription.rs:67-72 | at a line break the number of parsed lines is the sum of both sides |
| `Health.EndpointHealth.PushLatency` | core/vor-engine/src/metrics.rs:44-49 | the window after one more sample |
| `Health.EndpointHealth.RecordSuccess` | core/vor-engine/src/metrics.rs:71-74 | a success ends the failure streak, saturates the other, and leaves the measurements |
| `Health.EndpointHealth.RecordFailure` | core/vor-engine/src/metrics.rs:76-80 | a failure saturates the failure streak, records its time, and leaves the measurements |
| `Health.WindowIsLatest` | core/vor-engine/src/metrics.rs:44-49 | after any samples the window is exactly the latest twenty in order |
| `Health.MeanWithin` | core/vor-engine/src/metrics.rs:51-56 | the mean lies between any bounds of the samples |
| `Health.JitterWithin` | core/vor-engine/src/metrics.rs:59-69 | jitter never exceeds the spread of the samples |
| `Health.JitterNothing` | core/vor-engine/src/metrics.rs:59-69 | jitter is zero exactly when all samples are equal |
| `Health.MeanSnoc` | core/vor-engine/src/metrics.rs:51-56 | one sample is its own mean, and a further one shifts the mean by its share |
| `Health.JitterSnoc` | core/vor-engine/src/metrics.rs:59-69 | one sample has no jitter, and a further one adds its distance from the one before to the average |
| `Scoring.ScoreEndpoint` | core/vor-engine/src/scoring.rs:60-107 | the stepwise score is the scoring formula of the measurements |
| `Scoring.Dominance` | core/vor-engine/src/scoring.rs:60-107 | an endpoint no worse in mean latency, jitter, loss, streak and CDN routing never scores lower, across the 200 ms step, the penalty and the bonus on negative values |
| `Rates.PerfectIsHundred` | core/vor-engine/src/scoring.rs:60-107 | an endpoint perfect in everything scores 100 |
| `Rates.ScoreIsRaw` | core/vor-engine/src/scoring.rs:100-105 | between 0 and 100 the clamp changes nothing, and beyond either end it gives that end |
| `Rates.LossCosts` | core/vor-engine/src/scoring.rs:67 | each percent of loss costs exactly a quarter of a point, times 0.9 from 200 ms on and times 1.05 behind a CDN, and nothing beyond 100 |
| `Rates.LatencyCosts` | core/vor-engine/src/scoring.rs:63-65 | under 200 ms a latency of x costs 40x/(200+x) points |
| `Rates.LateLatencyCosts` | core/vor-engine/src/scoring.rs:86-92 | from 200 ms on it costs nine tenths of that, and once a tenth of the score before the penalty |
| `Rates.JitterCosts` | core/vor-engine/src/scoring.rs:66 | a jitter of y costs 15y/(40+y) points, half of them at 40 ms |
| `Rates.FailureCosts` | core/vor-engine/src/scoring.rs:68-98 | the exact cost of each further failure in a row |
| `Rates.CdnWorth` | core/vor-engine/src/scoring.rs:93-99 | a CDN multiplies by 1.05, below zero too |
| `Scoring.SuccessHelps` | core/vor-engine/src/scoring.rs:60-107 | a recorded success never lowers a score and a recorded failure never raises it |
| `Scoring.HealthyBeatsFailing` | core/vor-engine/src/scoring.rs:71-98 | an endpoint under 200 ms without failures beats any endpoint with five failures in a row |
| `Scoring.FailureThreshold` | core/vor-engine/src/scoring.rs:71-98 | over all streaks k: every failure-free endpoint under 200 ms beats every endpoint with k failures in a row if and only if k is at least five |
| `Scoring.MeasuredBeatsExactly` | core/vor-engine/src/metrics.rs:51-69 | all else equal, a measured endpoint scores more before the clamp than an unmeasured one if and only if its mean is under 200 ms or its latency and jitter parts outweigh a perfect jitter, and less if and only if its mean is not and they weigh less |
| `Scoring.MeasuredScoresExactly` | core/vor-engine/src/scoring.rs:100-105 | after the clamp the same, except that two scores of nothing are equal; in both directions |
| `Scoring.UnmeasuredCanWin` | core/vor-engine/src/metrics.rs:51-69 | an endpoint without samples outscores one that measured 1620 and 1980 ms |
| `Scoring.PickBest` | core/vor-engine/src/scoring.rs:111-126 | the pick is the head of the stably sorted scored candidates |
| `Scoring.PickBySortIsBest` | core/vor-engine/src/scoring.rs:111-126 | the pick is the one candidate that no other precedes by score and id, the earliest of equals, and there is one unless there are no candidates |
| `Scoring.OrderIrrelevant` | core/vor-engine/src/scoring.rs:118-125 | reordering the candidates changes neither score nor id of the pick, and with distinct ids not the pick |
| `Scoring.PickBestOnePass` | apps/vor_client/lib/core/vpn_engine.dart:153-165 | the fold, with or without the CDN filter, returns the earliest best of the entrants in Dart order, and what sorting them returns when no two of one score have crossed ids |
| `Scoring.PicksAgreeExactly` | apps/vor_client/lib/core/vpn_engine.dart:153-165 | the fold returns what sorting the same entrants returns if and only if no entrant of the top score has an id crossed with the least id of that score |
| `Scoring.AsciiHasNoCrossedTies` | apps/vor_client/lib/core/vpn_engine.dart:159-160 | on ASCII ids there are no crossed ties, so the picks agree |
| `Scoring.OnePassAgrees` | apps/vor_client/lib/core/vpn_engine.dart:153-165 | without crossed ties the rule of the fold and the sort-based pick coincide, ids distinct or not |
| `Scoring.PicksDiffer` | apps/vor_client/lib/core/vpn_engine.dart:159-160 | any two candidates of one score with crossed ids make the two picks differ |
| `Scoring.CrossedIdsExist` | apps/vor_client/lib/core/vpn_engine.dart:159-160 | two crossed ids |
| `Collation.OrdersAgreeExactly` | apps/vor_client/lib/core/vpn_engine.dart:159-160 | comparing UTF-8 bytes and UTF-16 units decides alike if and only if the first characters that differ are not one beyond the basic plane and one between the surrogates and its end |
| `Collation.BasicNotCrossed` | apps/vor_client/lib/core/vpn_engine.dart:159-160 | ids without characters beyond the basic plane, ASCII among them, are never crossed |
| `Watchdog.Router.SetBlackout` | openwrt/luci-app-vor/root/usr/bin/vor-watchdog:33-45 | entering blackout mode sets all five options and restarts once, unless already there |
| `Watchdog.Router.ClearBlackout` | openwrt/luci-app-vor/root/usr/bin/vor-watchdog:47-59 | leaving it does the reverse, unless already out |
| `Watchdog.Router.TryConnect` | openwrt/luci-app-vor/root/usr/bin/vor-watchdog:61-84 | the retry loop: final transport, restarts and result |
| `Watchdog.Router.DoTick` | openwrt/luci-app-vor/root/usr/bin/vor-watchdog:86-113 | one tick on options and streak file |
| `Watchdog.WalkClimbs` | openwrt/luci-app-vor/root/usr/bin/vor-watchdog:61-84 | a walk climbs and restarts once for every failed retry up to the top rung, and succeeds exactly when a retry does before the ladder runs out |
| `Watchdog.RankFallsAtEdges` | openwrt/luci-app-vor/root/usr/bin/vor-watchdog:61-113 | without an edge the rank never falls and every ladder restart raises it by one; at most three a tick |
| `Watchdog.DownTickWalks` | openwrt/luci-app-vor/root/usr/bin/vor-watchdog:86-113 | every tick with the tunnel down, in blackout mode or not, climbs and restarts once for each failed retry up to the top, from the CDN rung if it enters blackout mode and from the present one otherwise |
| `Watchdog.UpTickExactly` | openwrt/luci-app-vor/root/usr/bin/vor-watchdog:91-102 | a tick with the tunnel up leaves the ladder alone; the streak, and all options after it, by the exact case |
| `Watchdog.DeadTicksExhaust` | openwrt/luci-app-vor/root/usr/bin/vor-watchdog:61-113 | from any state, in blackout mode or not, failing ticks with the tunnel down exhaust the ladder |
| `Watchdog.BlackoutTransport` | openwrt/luci-app-vor/root/usr/bin/vor-watchdog:105-107 | the tick that enters blackout mode keeps the CDN transport if and only if its first retry succeeds, and ends on some CDN transport after no or two failures |
| `Watchdog.BlackoutRoundTrip` | openwrt/luci-app-vor/root/usr/bin/vor-watchdog:33-59 | whatever ticks lie between, leaving blackout mode restores transport, DNS, split and MSS from before it if and only if they were the defaults |
| `Watchdog.AlwaysCoherent` | openwrt/luci-app-vor/root/usr/bin/vor-watchdog:33-113 | over any ticks, blackout mode, bootstrap DNS, split 5 and MSS 40 go together |
| `Watchdog.EpochRestarts` | openwrt/luci-app-vor/root/usr/bin/vor-watchdog:61-113 | from any state, over any ticks without an edge, the ladder restarts exactly once for every rung it climbs, so at most four times |
| `Watchdog.RestartsPerEpoch` | openwrt/luci-app-vor/root/usr/bin/vor-watchdog:61-113 | from the default configuration, over any ticks, all ladder restarts together are at most four for every epoch outside blackout mode and three for every one inside |
| `Watchdog.RestartsBounded` | openwrt/luci-app-vor/root/usr/bin/vor-watchdog:61-113 | over any ticks, however many, ladder restarts are bounded by the healthy ticks alone: seven for each five of them, and seven more |
| `Watchdog.ExhaustedStays` | openwrt/luci-app-vor/root/usr/bin/vor-watchdog:76-83 | from an exhausted ladder, over any ticks, it stays exhausted without restarts if and only if there was no edge |
| `Watchdog.ExhaustedSoon` | openwrt/luci-app-vor/root/usr/bin/vor-watchdog:61-84 | two ticks with the tunnel down exhaust the ladder from the default configuration, and the third changes nothing |
| `Watchdog.StreakCounts` | openwrt/luci-app-vor/root/usr/bin/vor-watchdog:94-101 | the streak is the number of healthy ticks since the tunnel was last up with the international probe down, modulo five |
| `Watchdog.LeavesBlackoutExactly` | openwrt/luci-app-vor/root/usr/bin/vor-watchdog:94-98 | blackout mode is left exactly at the tick that completes five of them |
| `Watchdog.NotConsecutive` | openwrt/luci-app-vor/root/usr/bin/vor-watchdog:97-98 | the five need not be consecutive |
| `Watchdog.ConsecutiveExactly` | openwrt/luci-app-vor/root/usr/bin/vor-watchdog:97-98 | over every run, when blackout mode is left the four ticks before were healthy if and only if the tunnel was up at all of them |
| `Connect.Store.Connect` | apps/preview/src/lib/vor/store.ts:359-363 | a new token, and a run asleep before its first step or a refusal without a licence |
| `Connect.Store.RunConnect` | apps/preview/src/lib/vor/store.ts:371-384 | the refusal or the first sleep |
| `Connect.Store.Disconnect` | apps/preview/src/lib/vor/store.ts:365-369 | a new token, an idle tunnel, no session |
| `Connect.Store.DeactivateLicense` | apps/preview/src/lib/vor/store.ts:345-357 | the same without activation |
| `Connect.Store.VerifyAndActivateLicense` | apps/preview/src/lib/vor/store.ts:296-341 | a verification sets or clears activation and nothing else of the tunnel |
| `Connect.Store.ChangeScenario` | apps/preview/src/lib/vor/store.ts:497-508 | scenario and countermeasures reset; blackout tears a connected tunnel down |
| `Connect.Store.OnTick` | apps/preview/src/lib/vor/store.ts:605-609 | an injected reset starts one recovery timer |
| `Connect.Store.OnRecovery` | apps/preview/src/lib/vor/store.ts:609-615 | the recovery looks at nothing but the tunnel state |
| `Connect.Store.Sleep` | apps/preview/src/lib/vor/store.ts:197-201 | the run sleeps with a new deadline |
| `Connect.Store.SelectAndDial` | apps/preview/src/lib/vor/store.ts:405-436 | scoring among the permitted endpoints, then dialling, or giving up without candidates |
| `Connect.Store.FinishHandshake` | apps/preview/src/lib/vor/store.ts:441-486 | failure bumps the streak and escalates or retries; success starts the session |
| `Connect.Store.NextAttempt` | apps/preview/src/lib/vor/store.ts:390-404 | the next of five attempts after its backoff, or the end |
| `Connect.Store.OnWake` | apps/preview/src/lib/vor/store.ts:371-495 | a run from one sleep to the next, nothing if superseded |
| `Connect.Store.Handle` | apps/preview/src/lib/vor/store.ts:359-616 | one event: a user action, the clock, a tick, or a callback if it is due, is exactly one step of the transition system |
| `Connect.Store.HandleAll` | apps/preview/src/lib/vor/store.ts:359-616 | any events in a row are exactly a run of it |
| `Connect.CandidatesExactly` | apps/preview/src/lib/vor/store.ts:408-416 | an endpoint is a candidate exactly when it is permitted, which in a blackout means behind a CDN; otherwise its position gives the transport |
| `ConnectSafety.BackoffDelays` | apps/preview/src/lib/vor/tunnel.ts:182-188 | the backoffs slept are 1000, 2000 and then 2200 ms |
| `ConnectSafety.StepInv` | apps/preview/src/lib/vor/store.ts:359-508 | every step keeps tokens, the books of every run, the shown state and the recovery timer in order |
| `ConnectSafety.RecoveryFirst` | apps/preview/src/lib/vor/store.ts:605-616 | while a recovery is pending a live run cannot get past its first dial |
| `ConnectSafety.AlwaysInv` | apps/preview/src/lib/vor/store.ts:359-508 | so does every interleaving |
| `ConnectRuns.LiveRunShown` | apps/preview/src/lib/vor/store.ts:195-201 | on every interleaving the reference equals the counter, at most one run is live and the tunnel shows where it sleeps, connected implies a session start, and at most one recovery is pending |
| `ConnectRuns.RecoveryRestores` | apps/preview/src/lib/vor/store.ts:605-616 | the recovery restores the very session it interrupted, same token and start, or does nothing |
| `ConnectRuns.ReconnectingIsLate` | apps/preview/src/lib/vor/store.ts:382-400 | a run reconnects no sooner than 2950 ms after its start, when no recovery is pending |
| `ConnectRuns.StaleRunsInvisible` | apps/preview/src/lib/vor/store.ts:195-201 | every interleaving looks as if superseded runs had been cancelled at once |
| `ConnectRuns.QuietAfterDisconnect` | apps/preview/src/lib/vor/store.ts:345-369 | after a disconnect, a deactivation or a switch to blackout while connected nothing of the tunnel moves until the next connect, whatever older runs, ticks and timers do |
| `ConnectRuns.SwitchExactly` | apps/preview/src/lib/vor/store.ts:497-508 | on every interleaving a switch to blackout that finds the tunnel connected ends the session whatever endpoint and transport it uses, with a new token and no live run; any other switch leaves tunnel, token, session, runs and timers alone |
| `ConnectRuns.ConnectExactly` | apps/preview/src/lib/vor/store.ts:359-384 | on every interleaving connecting takes a new token, starts a run exactly with a licence and shows the refusal without one, older runs staying as they are |
| `ConnectRuns.ResetExactly` | apps/preview/src/lib/vor/store.ts:605-615 | on every interleaving a tick resets exactly a connected tunnel under active inspection without a split hello, 1500 ms before its recovery, and changes nothing otherwise |
| `ConnectRuns.LicensedExactly` | apps/preview/src/lib/vor/store.ts:333-339 | a session stays licensed through a step if and only if the step is not a failed verification during it |
| `ConnectRuns.LicensedAlways` | apps/preview/src/lib/vor/store.ts:345-384 | where no verification fails, a session is always licensed |
| `ConnectRuns.LicensedThroughoutExactly` | apps/preview/src/lib/vor/store.ts:333-339 | over whole runs, sessions are licensed throughout if and only if no verification failed during one |
| `ConnectRuns.BlackoutExactly` | apps/preview/src/lib/vor/store.ts:497-508 | in a blackout only CDN endpoints are dialled or used, through a step, if and only if it is not a switch to blackout while another is being dialled or waits for recovery |
| `ConnectRuns.RoutedExactly` | apps/preview/src/lib/vor/store.ts:497-508 | the same for CDN endpoint and CDN transport together |
| `ConnectRuns.RoutedAlwaysExactly` | apps/preview/src/lib/vor/store.ts:497-508 | over whole runs, what is dialled or used in a blackout goes over the CDN throughout if and only if no switch to blackout met a dial or an interrupted session outside it |
| `ConnectRuns.MidDialNotStopped` | apps/preview/src/lib/vor/store.ts:333-339 | an interleaving that connects unlicensed, in a blackout, outside the CDN |
| `ConnectRuns.RecoveryNotStopped` | apps/preview/src/lib/vor/store.ts:497-508 | an interleaving in which a session outside the CDN waits for recovery at the switch to blackout and is restored during it |
| `ConnectRungs.DialledExactly` | apps/preview/src/lib/vor/store.ts:408-434 | some interleaving dials a rung if and only if its position is below the size of the fleet, or it is the CDN transport and the fleet has a CDN endpoint |
| `ConnectRungs.EscalatedExactly` | apps/preview/src/lib/vor/store.ts:462-466 | some interleaving shows an escalation to a rung if and only if the rung below it is dialled by some |
| `ConnectRungs.LastRungExactly` | apps/preview/src/lib/vor/store.ts:408-466 | some interleaving shows the last rung if and only if there are four endpoints or more, and dials it if and only if there are five or more |
| `ConnectRungs.EscalationOverwritten` | apps/preview/src/lib/vor/store.ts:424 | after an escalation from any rung of the fleet to the next, the following attempt can dial any endpoint on the rung of its own position |
| `ConnectRungs.RungsOk` | apps/preview/src/lib/vor/store.ts:408-466 | on every interleaving what is dialled, escalated to or shown is allowed by the fleet in this sense |
| `ConnectLiveness.WakeProgress` | apps/preview/src/lib/vor/store.ts:382-495 | waking, the live run is connected, has given up, or owes less waiting by what it slept and has fewer wakes to go |
| `ConnectLiveness.EndsExactly` | apps/preview/src/lib/vor/store.ts:418-495 | a wake connects exactly when a handshake succeeds, escalates by one rung exactly when one fails below the top, and gives up exactly without candidates or after the fifth failure |
| `ConnectLiveness.StreaksAfter` | apps/preview/src/lib/vor/store.ts:457-484 | only the dialled endpoint changes its streak: one more failure, or none |
| `ConnectLiveness.RunEnds` | apps/preview/src/lib/vor/store.ts:382-495 | under any events, a run that is not superseded has its outcome, or owes 500 ms less and has a wake less to go for every time it woke |
| `ConnectLiveness.EndsAfterTwentyOneWakes` | apps/preview/src/lib/vor/store.ts:382-495 | under any events, a run that has woken twenty-one times without being superseded is connected or has given up |
| `ConnectLiveness.RunInTime` | apps/preview/src/lib/vor/store.ts:382-495 | the sleeps of a run never add up to more than 19050 ms, so its deadline is at most that after its start, plus how late timers were |
| `ConnectLiveness.NoDeadlock` | apps/preview/src/lib/vor/store.ts:371-495 | while a run sleeps some callback becomes due |
| `ConnectLiveness.Completes` | apps/preview/src/lib/vor/store.ts:371-495 | from every state with a live run, letting time pass and timers fire brings that run to its outcome |

## Left out

- Ed25519, SHA-256 and the random source: unknown functions and parameters; key generation takes its key from outside.
- JSON numbers other than 64-bit integers (fractions, exponents, negative zero) are not read; serde_json reads them as floats. Payload and audit entries hold none.
- The recursion limit of serde_json (128 levels).
- AuditFile.SessionsCompose: speaks of files of written entries; `AuditTail.SessionExactly` covers every readable file, one session at a time.
- License.NormalizeStable: lower-casing is that of ASCII letters; beyond ASCII, Rust lower-cases by the Unicode tables.
- Lone surrogate escapes in members that are skipped: serde reads past an unknown member of a payload or an audit entry without looking at them, and here they make the whole text unreadable.
- File system errors, directories and permissions: a file is its text, and a missing file is an empty one.
- Messages inside errors; only the kind of error and the named field are kept.
- `verify_to_report`, `issue_json`, `new_license_id`, `machine_hwid` and the storage of keystores: formatting and plumbing.
- The command line, the C interface, Dart FFI, React and Flutter screens, LuCI pages, packaging.
- Float rounding: latencies, scores and losses are reals. Latency samples are non-negative.
- Human-readable reasons and event logs.
- The TypeScript and Dart scoring inputs differ from Rust's (jitter, unmeasured latency, clamping of loss); the Dart pick is compared on given scores.
- UCI options edited by hand during a run, a failing `logger`, reboots that clear the streak file.
- The Dart connect loop, which has no cancellation.
- The features, verdicts and plans of the DPI model, telemetry, latencies stored on success.
- `boot`, whose re-verification is the verification step of the model, and the timer of the activation animation.
- Connect.Store.SelectAndDial: the best candidate is any candidate, because scores depend on dice and measured latencies.
- Connect.Store.FinishHandshake: the outcome is free, because every failure chance lies strictly between 0 and 1.
- A host that never fires a due timer.
- Callbacks are ordered by deadline, as hosts order them; ties may go either way.
- Xray configuration and countermeasure plans.
