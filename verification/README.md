# Nula: verified models of the protocol core

Nula is a Nostr SDK. This project models the parts of it whose correctness is not visible from any one function, in
Dafny, and proves what they promise for every input, every history and every interleaving:

- **Content tokeniser** (`Utf8`, `TokenSpec`, `Tokens`, `TokenFacts`, `TokenMeaning`, `CharTables`, `Tokeniser`): the
  resumable iterator over UTF-8 text with its one-slot `pending` buffer yields exactly the one leftmost-first
  segmentation of the text; the stream is lossless and every slice is cut on a character boundary. The character classes
  are fixed by the characters themselves.
- **Filters and canonical forms** (`Json`, `Hex`, `CanonicalText`, `CanonicalEvent`, `Filters`, `FilterFacts`,
  `Fingerprint`, `Order`): the bytes an event id hashes are given by a grammar over literal bytes, and they and the
  order-independent cache key of a filter are shown injective by parsers that invert the printers. What a filter accepts
  is stated slot by slot.
- **Wire codecs** (`Wire`, `FilterCodec`, `EventCodec`, `Messages`, `RelayMessages`, `WireNames`, `WireLimits`): a value
  survives encoding and decoding if and only if it is well formed, and whatever decodes is well formed. Keys, labels and
  limits are stated as text and numbers.
- **Outbox routing** (`Routes`, `RouteFacts`, `RouteMeaning`, `Selection`, `SelectionFacts`, `BreakDown`, `BreakDownFacts`,
  `SendPath`, `Delivery`, `Freshness`): the state machine that folds events into per-user routes, the top-k selection, the filter break-down and
  what its parts mean, the send path and how it meets the break-down, staleness and the refresh debounce.
- **Request/response correlators** (`Oneshot`, `Wallet`, `WalletRuns`, `WalletPhases`, `WalletClient`, `Signer`, `SignerFacts`,
  `SignerRuns`, `SignerReplies`, `SignerPhases`, `SignerOrigin`, `SignerClient`): callers, dispatcher, timeouts and
  teardown as interleaved atomic steps; each one-shot sender is a linear resource, and what a call returns is told from
  the steps of the run. The client classes carry out every step on the pending map.
- **NIP-77 sync driver** (`Sync`, `SyncFacts`, `SyncMeaning`): the bounded round loop, upload and download, against an
  arbitrary world, whose answers determine every field of the summary.
- **Canonical result set** (`EventSet`): dedup and sort make a fetch independent of arrival order.

Conventions. Text is a byte sequence (`Bytes.Text`); keys, ids and signatures are their raw bytes. Integers are
unbounded in Dafny, so saturation (`u32` histogram counters, `u64` progress) and the ranges of decoded integers are
written out. Foreign code is a parameter: `Nip21::parse`, `Url::parse` and the bech32 alphabet (`TokenSpec.Env`), the
NIP-65 and NIP-17 list parsers, URL parsing and the relay policy (`Routes.Config`), decryption and payload parsing
(`Wallet.Config`, `Signer.Config`), curve membership (`Wire.Curve`), and everything around a sync (`Sync.World`).

Where the code and its documentation differ, the model follows the code:

- URLs are meant to lose trailing sentence punctuation. The trim runs before an unmatched `)` is dropped, so
  `http://a.)` keeps its dot (`TokenFacts.UrlMayEndInPunctuation`, exact condition in `UrlEndsInPunctuationIff`).
- `outdated` is documented to let callers refresh the stalest keys first. Its early exit follows the hash map's
  order, so the batch is the stalest one under every order if and only if all stale keys fit into it
  (`Freshness.StalestIff`, a map order that returns the fresher key in `FresherComesFirst`).
- Break-down rewrites `#p` values in lowercase hex, while keys parse in either case, so an uppercase value is routed
  but the parts miss events the filter matches (`BreakDownFacts.UppercaseValueIsLost`, exact condition in
  `PTagsUnionIff`); a gift wrap so tagged is sent where it is asked for, and not matched there
  (`Delivery.GiftWrapMeetsIff`).
- Arrival order can matter to the routing state: two newest lists with one timestamp but different contents leave
  whichever came first (`RouteFacts.TiedListsDisagree`, exact condition in `OrderIndependentIff`). The same holds for
  two events under one id in a result set (`EventSet.ClashingIds`, exact condition in `OrderIndependentIff`).
- A NIP-47 entry outlives its call when the pool refuses the request outright or the wait is abandoned
  (`Wallet.RefusedPublishLeaks`, `LeftBehindBy`); `EntryGoneIff` says from the steps alone when it is gone.
- In NIP-46 a timeout leaves the entry behind too (`SignerRuns.TimeoutLeaks`; `SenderGoneIff` says from the steps alone
  when a sender is gone). A publish that fails on every relay cancels every request in the map, and only the one the
  dispatcher holds for its auth handler survives (`SignerRuns.BystanderCancelled`, `SignerFacts.SurvivorsIff`).
- The NIP-46 dispatcher does not compare a response's author with the signer's key, so a success may come from anybody
  whose event opens to a pending id (`SignerOrigin.StrangerAnswers`, exact condition in `AuthenticIff`). The NIP-47
  dispatcher does compare.
- Sync progress is documented as counting the processed events up to the total. Uploads whose event cannot be loaded
  are not ticked, and downloads tick per fetched event, however many were asked for, so from an even
  start `current` reaches `total` if and only if the loaded and the fetched events are as many as the classified ids
  (`SyncFacts.CompletesIff`, a run that stalls in `WithheldEventStalls`). `send_failures` also takes download save
  errors (`SaveErrorAmongFailures`), so it stays the exact complement of `sent` only under a condition
  (`UploadPartition`).
- A `REQ` without filters can be built and written but is rejected on reading (`Messages.EmptyReqIsLost`).

## Model

| member | source | states |
|---|---|---|
| `Utf8.BoundaryIffValidSuffix` | crates/nula-core/src/parser.rs:536-541 | in valid UTF-8 the one-byte boundary test holds exactly where the suffix is itself valid, so no slice the scanner takes can fail |
| `TokenSpec.HashtagEnd` | crates/nula-core/src/parser.rs:300-307 | the hashtag scan stays within the text and ends on a character boundary |
| `TokenSpec.TrimEnd` | crates/nula-core/src/parser.rs:362-370 | the trim removes only trailing punctuation, all of it, and never reaches before the URL body |
| `TokenSpec.MatchProgress` | crates/nula-core/src/parser.rs:262-392 | every recogniser that fires consumes at least one byte, starts where it was tried and ends on a boundary |
| `TokenSpec.LexerSound` | crates/nula-core/src/parser.rs:262-286 | for every valid text and option set the scanner is a sound lexer |
| `Tokens.PiecesSegment` | crates/nula-core/src/parser.rs:228-286 | the character-by-character walk yields consecutive non-empty pieces cut on boundaries that cover the text, hits only where a recogniser fires, and gaps that hide no position where one would have |
| `Tokens.SegmentationUnique` | crates/nula-core/src/parser.rs:228-286 | there is only one such segmentation |
| `Tokens.Lossless` | crates/nula-core/src/parser.rs:394-405 | the sources of the tokens of a segmentation concatenate to the text |
| `Tokens.LineBreakCount` | crates/nula-core/src/parser.rs:264-267 | with isolated newlines there is one line-break token per newline byte |
| `TokenFacts.HashtagIff` | crates/nula-core/src/parser.rs:288-312 | a hashtag is recognised exactly where a `#` at the start or after ASCII whitespace is followed by a non-empty maximal run of permitted characters |
| `TokenFacts.NostrIff` | crates/nula-core/src/parser.rs:314-334 | a nostr URI is recognised exactly where the prefix is followed by a non-empty maximal run of lowercase letters, `1` and bech32 characters |
| `TokenFacts.UrlIff` | crates/nula-core/src/parser.rs:336-392 | a URL is recognised exactly where scheme, separator and a non-empty body exist, and where it ends |
| `TokenFacts.SegmentationIff` | crates/nula-core/src/parser.rs:228-286 | a list of pieces satisfies the leftmost-first specification if and only if it is what the scan produces |
| `TokenFacts.StreamFacts` | crates/nula-core/src/parser.rs:225-405 | the stream is lossless, no token is empty, line breaks count the newlines and no other token contains one |
| `TokenFacts.UrlMayEndInPunctuation` | crates/nula-core/src/parser.rs:362-391 | a URL match that still ends in punctuation |
| `TokenFacts.UrlEndsInPunctuationIff` | crates/nula-core/src/parser.rs:362-391 | a match ends in punctuation exactly when the trimmed body ends in a superfluous `)` that follows punctuation |
| `TokenMeaning.MatchAtIff` | crates/nula-core/src/parser.rs:262-286 | what is recognised at a position does not depend on the order of the tests: an enabled recogniser that fires there is the only one |
| `TokenMeaning.StreamMeaning` | crates/nula-core/src/parser.rs:394-405 | every token of the stream is made from the piece of text it covers: a tag name without its `#`, a parsed URI or URL, or the text itself where parsing fails |
| `CharTables.CharAtIff` | crates/nula-core/src/parser.rs:536-541 | a well-formed character is exactly the encoding the table of RFC 3629 gives to its scalar value |
| `CharTables.ForbiddenIff` | crates/nula-core/src/parser.rs:454-490 | a hashtag stops exactly at white space, control characters and the listed ASCII marks |
| `CharTables.UrlByteIff` | crates/nula-core/src/parser.rs:495-522 | the bytes of a URL body are the letters, digits and the listed marks |
| `CharTables.TrailingPunctIff` | crates/nula-core/src/parser.rs:526-528 | the trimmed punctuation is exactly the listed marks |
| `CharTables.SchemeByteIff` | crates/nula-core/src/parser.rs:340-347 | the bytes of a scheme are letters, digits, `+`, `-` and `.` |
| `Tokeniser.NostrParserIter.constructor` | crates/nula-core/src/parser.rs:214-222 | a fresh iterator stands at the start with nothing pending and satisfies its invariant |
| `Tokeniser.NostrParserIter.Next` | crates/nula-core/src/parser.rs:228-258 | each call yields exactly the next token of the specified stream and moves `pos` strictly forward; `None` only at the end, for good |
| `Tokeniser.NostrParserIter.EmitMatch` | crates/nula-core/src/parser.rs:229-251 | a parked or immediate match is the head of the remaining stream |
| `Tokeniser.NostrParserIter.EmitText` | crates/nula-core/src/parser.rs:241-256 | flushing a gap takes the head of the remaining stream, and both slice ends are boundaries |
| `Tokeniser.NostrParserIter.NextMatch` | crates/nula-core/src/parser.rs:262-286 | the search loop finds the first position where a recogniser fires, with nothing matching before it |
| `Tokeniser.NostrParserIter.MatchHere` | crates/nula-core/src/parser.rs:264-284 | line break, hashtag, nostr URI and URL are tried in that priority |
| `Tokeniser.NostrParserIter.TryHashtag` | crates/nula-core/src/parser.rs:288-312 | the loop computes the specified hashtag |
| `Tokeniser.NostrParserIter.TryNostrUri` | crates/nula-core/src/parser.rs:314-334 | the loop computes the specified URI match |
| `Tokeniser.NostrParserIter.TryUrl` | crates/nula-core/src/parser.rs:336-392 | scheme scan, body scan, trim and parenthesis balance compute the specified URL match |
| `Tokeniser.Collect` | crates/nula-core/src/parser.rs:196-198 | draining the iterator gives the specified stream, whose sources concatenate to the input |
| `Json.ParsePrint` | crates/nula-core/src/event/mod.rs:63-114 | reading back a printed JSON value gives the value and leaves what follows untouched |
| `Json.PrintVisible` | crates/nula-core/src/filter.rs:669-715 | printed JSON holds no control byte, so no separator newline, whatever its strings hold |
| `CanonicalEvent.CanonicalBytes` | crates/nula-core/src/event/mod.rs:63-114 | the buffer filled element by element satisfies the literal grammar: `[0,"`, the hex key, `",`, two decimals, the tag arrays and the content, with every delimiter, digit and escape as bytes |
| `CanonicalEvent.CanonicalTextIff` | crates/nula-core/src/event/mod.rs:63-114 | that grammar admits exactly one text for a tuple, the one that is written |
| `CanonicalEvent.ReadBack` | crates/nula-core/src/event/mod.rs:63-114 | a parser inverts the canonical serialisation through arrays, decimals, hex and escapes |
| `CanonicalEvent.CanonicalInjective` | crates/nula-core/src/event/mod.rs:63-114 | two tuples print to the same bytes if and only if they are equal |
| `CanonicalEvent.EventIdIff` | crates/nula-core/src/event/mod.rs:131-140 | two events share an id if and only if they are equal, as far as the hash is collision free on them |
| `Filters.TagsMatchIff` | crates/nula-core/src/filter.rs:790-800 | the tag constraints hold exactly when each letter's constraint does, whatever the order of the map |
| `Filters.SameVerdict` | crates/nula-core/src/filter.rs:726-780 | filters that constrain the same up to order match the same events |
| `FilterFacts.VerdictIff` | crates/nula-core/src/filter.rs:726-800 | an event matches exactly when its id, author and kind are listed, its time lies within both inclusive bounds, each letter has a listed value among its tags, and the empty filter accepts it at that clock |
| `FilterFacts.VerdictSplits` | crates/nula-core/src/filter.rs:726-800 | a filter's verdict is the conjunction of the verdicts of its one-slot filters and of the empty filter |
| `FilterFacts.ListSlots` | crates/nula-core/src/filter.rs:726-750 | an ids, authors or kinds filter accepts exactly the events whose value is listed |
| `FilterFacts.TimeSlots` | crates/nula-core/src/filter.rs:751-760 | `since` accepts exactly the times from its bound on, `until` exactly those up to its bound |
| `FilterFacts.TagSlot` | crates/nula-core/src/filter.rs:790-800 | a tag filter accepts exactly the events with a tag of that name and a listed second element |
| `FilterFacts.ClockEffect` | crates/nula-core/src/filter.rs:763-780 | without a clock the empty filter accepts everything; with one, an event from the future and one whose expiration is reached are refused, each unless allowed |
| `FilterFacts.LimitAndSearchIgnored` | crates/nula-core/src/filter.rs:726-780 | `limit` and `search` never change a verdict |
| `Fingerprint.ComputeFingerprint` | crates/nula-core/src/filter.rs:669-715 | the parts pushed, sorted and joined are the specified key |
| `Fingerprint.PartNames` | crates/nula-core/src/filter.rs:669-715 | the prefixes and separators of the key, as text |
| `Fingerprint.JoinInjective` | crates/nula-core/src/filter.rs:711-714 | joining visible parts with newlines loses nothing |
| `Fingerprint.FingerprintIff` | crates/nula-core/src/filter.rs:669-715 | equal fingerprints if and only if equal scalars, permuted id, author and kind lists, and the same tag letters with permuted values |
| `Fingerprint.EqualKeysSameVerdict` | crates/nula-core/src/filter.rs:669-780 | equal fingerprints imply equal verdicts on every event |
| `Wire.BytesRoundTrip` | crates/nula-core/src/event/id.rs:75-81 | hex bytes come back exactly when they have the right size and are accepted |
| `FilterCodec.DedupPreservingOrder` | crates/nula-core/src/filter.rs:868-876 | the result holds the same values, each once, in order of first occurrence |
| `FilterCodec.DeserializeFilterEntry` | crates/nula-core/src/filter.rs:996-1035 | fails exactly for a malformed tag key and for a value its key cannot take; otherwise the key's own slot holds the value as it is written back and every other slot is kept |
| `FilterCodec.VisitMap` | crates/nula-core/src/filter.rs:1045-1054 | the entry loop computes the specified filter, and what it returns is well formed |
| `FilterCodec.FilterRoundTripIff` | crates/nula-core/src/filter.rs:936-1055 | a filter survives the wire if and only if its values are in range, its tag lists duplicate free and its `#e`/`#p` values 64 lowercase hex digits |
| `FilterCodec.FilterReparse` | crates/nula-core/src/filter.rs:936-1055 | any filter that parses is well formed and is written to JSON text that parses back to it |
| `FilterCodec.LastEntryWins` | crates/nula-core/src/filter.rs:996-1055 | of a repeated key exactly the last value counts, for scalars, lists and tags |
| `WireNames.FilterObject` | crates/nula-core/src/filter.rs:936-990 | a filter is written as exactly one entry per set slot under its own name and one `#x` entry per letter |
| `WireLimits.FilterRanges` | crates/nula-core/src/filter.rs:936-1055 | a filter survives the wire exactly when its byte fields have 32 bytes, kinds 16 bits, times and limit 64 bits, letters are distinct and `#e`/`#p` values 64 lowercase hex digits |
| `WireLimits.OtherEntries` | crates/nula-core/src/filter.rs:996-1035 | unknown keys are skipped, and a `#` key that is not one letter is refused |
| `WireLimits.DedupedAre` | crates/nula-core/src/filter.rs:868-876 | a tag list is read as its first occurrences, in order |
| `WireLimits.BytesFieldIff` | crates/nula-core/src/event/id.rs:75-81 | a byte field is read exactly from a string of two hex digits per byte, in either case, of the right size |
| `EventCodec.DecodedWellFormed` | crates/nula-core/src/event/event.rs:42-58 | every event that decodes has fields within their types |
| `EventCodec.EventRoundTripIff` | crates/nula-core/src/event/event.rs:42-58 | an event survives the wire if and only if its fields are within their types |
| `WireNames.EventObject` | crates/nula-core/src/event/event.rs:42-58 | an event is written as its seven fields, in order, under their names |
| `WireNames.EventRanges` | crates/nula-core/src/event/event.rs:42-58 | it survives the wire exactly when ids and keys have 32 bytes, the signature 64, the kind 16 bits, the time 64 bits and no tag is empty |
| `Messages.DecodeReqLoop` | crates/nula-core/src/message/client.rs:316-341 | the loop accepts exactly a subscription id followed by one or more filters, all of them readable |
| `Messages.ClientRoundTripIff` | crates/nula-core/src/message/client.rs:184-458 | every client message survives the wire if and only if its values are within their types and a `REQ` has a filter |
| `Messages.ClientReparse` | crates/nula-core/src/message/client.rs:184-458 | any client message that parses is written to text that parses back to it |
| `Messages.EmptyReqIsLost` | crates/nula-core/src/message/client.rs:316-341 | a `REQ` with no filters is never read back |
| `WireNames.ClientWire` | crates/nula-core/src/message/client.rs:184-260 | every client message is an array with its label as text and its elements in order |
| `WireLimits.SubscriptionIff` | crates/nula-core/src/message/subscription_id.rs:79-91 | a subscription id is 1 to 64 characters, however many bytes they take |
| `RelayMessages.RelayRoundTripIff` | crates/nula-core/src/message/relay.rs:231-508 | every relay message survives the wire if and only if its values are within their types |
| `RelayMessages.RelayReparse` | crates/nula-core/src/message/relay.rs:231-508 | any relay message that parses, an omitted `CLOSED` reason included, is written to text that parses back to it |
| `WireNames.RelayWire` | crates/nula-core/src/message/relay.rs:231-322 | every relay message is an array with its label as text and its elements in order |
| `Routes.Gossip.ProcessEvent` | crates/nula-gossip/src/gossip.rs:74-95 | from any state, the entry of the author is updated by the event and its source relay, and no other |
| `Routes.Gossip.ApplyEvent` | crates/nula-gossip/src/gossip.rs:362-393 | a parseable strictly newer list replaces the stored one, other kinds only add hints |
| `Routes.Gossip.HarvestRelayHints` | crates/nula-gossip/src/gossip.rs:395-415 | every readable, allowed `r` tag is counted once |
| `Routes.Gossip.Refresh` | crates/nula-gossip/src/gossip.rs:217-268 | relays are contacted only past the debounce, the stamp is written, and what was pulled is folded in |
| `Routes.Carry` | crates/nula-gossip/src/gossip.rs:74-268 | any run of `process` and `refresh` calls leaves the graph in the specified state |
| `Routes.ListStep` | crates/nula-gossip/src/gossip.rs:362-393 | one item replaces a user's list exactly when it is a strictly newer parseable list of that user |
| `Routes.StoredList` | crates/nula-gossip/src/gossip.rs:74-95 | after any history of processed events the stored list is that of the earliest processed among the newest parseable list events, and none if there is none |
| `RouteFacts.HistogramsCount` | crates/nula-gossip/src/routes.rs:79-92 | after any history each histogram entry is the number of occurrences saturated at `u32::MAX` |
| `RouteFacts.RunIsReplay` | crates/nula-gossip/src/gossip.rs:217-268 | after any run of `process` and `refresh` calls the graph is, up to the debounce stamps, the fold of what was processed, pulled events included |
| `RouteMeaning.ProcessedAre` | crates/nula-gossip/src/gossip.rs:217-268 | what a run folds in is exactly what was fed and what due refreshes pulled, in order |
| `RouteFacts.HintUrlsCount` | crates/nula-gossip/src/gossip.rs:395-415 | the hints of an event are its `r` tags whose value parses to an allowed relay, each counted as often as it occurs |
| `RouteMeaning.AllowedAre` | crates/nula-gossip/src/gossip.rs:362-393 | stored DM relays are the allowed ones of the list, in list order |
| `RouteFacts.StoredListAfter` | crates/nula-gossip/src/gossip.rs:217-268 | after any such run the stored list is that of the earliest processed among the newest parseable list events |
| `RouteFacts.HistogramsAfter` | crates/nula-gossip/src/routes.rs:79-92 | after any such run each histogram entry is the saturated number of occurrences in what was processed |
| `RouteFacts.OrderIndependent` | crates/nula-gossip/src/gossip.rs:74-95 | permuting the history leaves the whole routing state unchanged when ties among newest lists agree |
| `RouteFacts.OrderIndependentIff` | crates/nula-gossip/src/gossip.rs:362-393 | every permutation gives the same state if and only if ties among an author's newest lists agree |
| `RouteFacts.TiedListsDisagree` | crates/nula-gossip/src/gossip.rs:362-393 | two lists of one author with one timestamp whose order decides the state |
| `RouteFacts.DistinctStampsAgree` | crates/nula-gossip/src/gossip.rs:362-393 | distinct same-author same-kind timestamps are enough for that |
| `RouteFacts.ListReplayIsNoop` | crates/nula-gossip/src/gossip.rs:362-393 | after any run of `process` and `refresh` calls, processing an already processed list event again, without a source relay, changes nothing |
| `Selection.ListChoiceIsTopK` | crates/nula-gossip/src/selection.rs:27-69 | the list bucket is the exact top-k of the correctly marked entries under URL order |
| `Selection.HistogramChoiceIsTopK` | crates/nula-gossip/src/selection.rs:107-123 | a histogram bucket is the exact top-k under higher count, then smaller URL |
| `Selection.ChoicesIff` | crates/nula-gossip/src/selection.rs:27-123 | both buckets are the only sets with those properties |
| `Selection.SelectBounded` | crates/nula-gossip/src/selection.rs:27-129 | every pick passes the policy and comes from a bucket, and there are at most as many as the caps add up to |
| `SelectionFacts.ListChoiceIff` | crates/nula-gossip/src/selection.rs:27-69 | a listed relay is chosen exactly when its marker serves the direction and fewer than k such relays have smaller URLs |
| `SelectionFacts.HistogramChoiceIff` | crates/nula-gossip/src/selection.rs:107-123 | a counted relay is chosen exactly when fewer than k relays have a higher count, or the same and a smaller URL |
| `SelectionFacts.SelectIff` | crates/nula-gossip/src/selection.rs:27-69 | a relay is picked exactly when it is allowed and makes it into the list, hint or delivery bucket under that bucket's cap |
| `SelectionFacts.SelectDmIff` | crates/nula-gossip/src/selection.rs:73-83 | a DM relay is picked exactly when it is allowed and among the first `dm` entries |
| `Selection.CollectMarked` | crates/nula-gossip/src/selection.rs:34-43 | the scan that stops when the bucket is full computes the first `limit` marked entries |
| `Selection.ExtendFromHistogram` | crates/nula-gossip/src/selection.rs:107-123 | rank and insert adds exactly the histogram's choice |
| `Selection.SelectRelays` | crates/nula-gossip/src/selection.rs:27-69 | `outbox` and `inbox` compute the specified selection |
| `Selection.SelectDmRelays` | crates/nula-gossip/src/selection.rs:73-83 | `dm_relays` takes the first entries of the stored list that the policy allows |
| `BreakDown.CollectDirectional` | crates/nula-gossip/src/filter.rs:140-171 | the loops group every key under exactly the relays selected for it |
| `BreakDown.CollectUnionRelays` | crates/nula-gossip/src/filter.rs:173-196 | the loop gathers both directions' relays of all keys |
| `BreakDown.BreakDownFilter` | crates/nula-gossip/src/filter.rs:49-97 | the case split computes the specified outcome |
| `BreakDown.OutcomeIff` | crates/nula-gossip/src/filter.rs:49-97 | `Generic` iff neither slot is set, `Orphan` iff no named key has a relay, otherwise exactly the relays serving some named key |
| `BreakDownFacts.BrokenDownIff` | crates/nula-gossip/src/filter.rs:49-97 | over the selection of the graph: a filter naming nobody is generic; otherwise exactly the outbox relays (authors) and inbox relays (`#p`) of the named keys get a part, and it is an orphan if there are none |
| `BreakDownFacts.BothSlotsMeaning` | crates/nula-gossip/src/filter.rs:49-97 | with both slots set every part is the original filter and matches what it matches |
| `BreakDownFacts.AuthorsPartKeepsRest` | crates/nula-gossip/src/filter.rs:198-210 | narrowing authors changes no other slot |
| `BreakDownFacts.PTagsPartKeepsRest` | crates/nula-gossip/src/filter.rs:212-227 | narrowing `#p` changes no other slot and no other letter |
| `BreakDownFacts.NeedsDmIff` | crates/nula-gossip/src/filter.rs:102-120 | DM relays are added exactly when kind 1059 is listed, or no kinds are and `#p` has a value |
| `BreakDown.AuthorsMeaning` | crates/nula-gossip/src/filter.rs:198-210 | relay u's filter matches an event iff the original does and u is selected for its author |
| `BreakDown.AuthorsUnion` | crates/nula-gossip/src/filter.rs:49-97 | the parts together are the original restricted to routed authors |
| `BreakDown.PTagsMeaning` | crates/nula-gossip/src/filter.rs:212-227 | relay u's filter matches an event iff the rest of the original does and a `p` tag names a key u is selected for |
| `BreakDown.AskedIff` | crates/nula-gossip/src/filter.rs:212-227 | the parts ask for exactly the routed `#p` values of the original if and only if those are spelled canonically |
| `BreakDown.PTagsUnion` | crates/nula-gossip/src/filter.rs:49-97 | for canonical values the parts together are the original restricted to events that tag a routed key |
| `BreakDownFacts.PTagsUnionIff` | crates/nula-gossip/src/filter.rs:49-97 | a split `#p` filter matches, on every event, exactly what the original matches among events that tag a routed key, if and only if the routed values are spelled canonically or nothing can match the rest of the filter |
| `BreakDownFacts.UppercaseValueIsLost` | crates/nula-gossip/src/filter.rs:212-227 | over a graph that one processed relay list builds, an uppercase `#p` filter is split into parts none of which matches an event the filter matches and whose key is routed |
| `SendPath.BreakDownEvent` | crates/nula-gossip/src/event.rs:54-108 | the case split computes the specified route; `SendPath.DecisionIff` says where that leads |
| `SendPath.DecisionIff` | crates/nula-gossip/src/event.rs:54-108 | a gift wrap goes to exactly the DM relays of the keys its `p` tags name, any other event to its author's outbox and, unless it is a contact list, the inboxes of those it mentions; without such a relay it is refused or broadcast |
| `SendPath.SendEvent` | crates/nula/src/gossip.rs:100-118 | the event is sent to exactly the relays where it belongs; if there is none a gift wrap is refused and anything else broadcast |
| `SendPath.GiftWrapNeverLeaks` | crates/nula/src/gossip.rs:100-118 | over every run of `process` and `refresh` calls a gift wrap goes only to allowed relays in the newest processed kind-10050 list of one of its recipients; if there are none it is refused; it is never broadcast |
| `SendPath.NoListNoSend` | crates/nula-gossip/src/event.rs:54-108 | recipients without a readable DM list make the send fail |
| `Delivery.AuthorsMeet` | crates/nula-gossip/src/event.rs:54-108 | every event that is not a gift wrap is sent to every outbox relay of its author, and there a filter for that author is asked in a part that matches it |
| `Delivery.MentionsMeet` | crates/nula-gossip/src/event.rs:54-108 | a mention is sent to every inbox relay of the mentioned user, each of which a canonical `#p` filter for that user asks in a part that matches it |
| `Delivery.WrapNeedsDm` | crates/nula-gossip/src/filter.rs:102-120 | a `#p` filter that matches a gift wrap always takes DM relays into account |
| `Delivery.GiftWrapMeetsIff` | crates/nula-gossip/src/event.rs:54-108 | a gift wrap for one recipient is sent to every DM relay of the recipient, each of which is asked by a filter for that recipient; the part matches the wrap if and only if its tag is spelled canonically |
| `Freshness.KeyOrder` | crates/nula-gossip/src/ttl.rs:82-95 | the order of outdated keys is total, transitive and consistent with equality |
| `Freshness.StatusMeans` | crates/nula-gossip/src/gossip.rs:153-171 | after any run a list is missing if none was processed, updated up to and including age `ttl` of the newest one, outdated beyond or without a clock |
| `Freshness.ScanStale` | crates/nula-gossip/src/gossip.rs:177-207 | the scan collects the stale keys it meets and stops at the end or when the batch is full |
| `Freshness.OutdatedKeys` | crates/nula-gossip/src/gossip.rs:177-207 | at most `limit` keys, each outdated by `status` at this instant, oldest first, and all of them when fewer come back, for any map order |
| `Freshness.StalestIff` | crates/nula-gossip/src/gossip.rs:177-207 | the batch is the stalest one under every map order if and only if all stale keys fit into it |
| `Freshness.FresherComesFirst` | crates/nula-gossip/src/gossip.rs:177-207 | two stale keys and a map order for which a batch of one holds the fresher |
| `Freshness.ContactsSpaced` | crates/nula-gossip/src/gossip.rs:217-268 | in every run two contacts for one list lie at least one interval apart on the clock, even if it steps back in between |
| `Freshness.ContactsIff` | crates/nula-gossip/src/gossip.rs:217-268 | in every run a refresh contacts relays exactly when it is due by the calls before it |
| `Wallet.PendingMap.Insert` | crates/nula-nwc/src/pending.rs:34-41 | a fresh channel is filed; a sender under the same id is dropped |
| `Wallet.PendingMap.Take` | crates/nula-nwc/src/pending.rs:43-46 | the entry is removed and handed over, the others stay |
| `Wallet.PendingMap.Resolve` | crates/nula-nwc/src/pending.rs:48-54 | only the request's own sender is used |
| `Wallet.PendingMap.Discard` | crates/nula-nwc/src/pending.rs:43-46 | the entry is removed and its sender dropped |
| `Wallet.PendingMap.CancelAll` | crates/nula-nwc/src/pending.rs:56-62 | every pending sender gets the reply and the map is empty |
| `Wallet.LinearStep` | crates/nula-nwc/src/client.rs:234-266 | every step keeps each channel open exactly while its sender sits in the map under its own id, and never alters a spent one |
| `Wallet.ResponsesCorrelate` | crates/nula-nwc/src/dispatcher.rs:49-99 | in every run a response returned for a request came from a response-kind event of the wallet whose first `e` tag is that request, read after the request was registered |
| `Wallet.FirstEventIdIff` | crates/nula-nwc/src/dispatcher.rs:73-90 | the request an event names is that of its first `e` tag whose value is an event id |
| `WalletRuns.OutcomeIff` | crates/nula-nwc/src/client.rs:234-266 | in every run with distinct ids a call that receives returns the body of the first event that carries one for its request since the registration, or the dispatcher's end if that came first, and nothing else |
| `WalletRuns.OutcomeStays` | crates/nula-nwc/src/client.rs:234-266 | and that is final in every longer run |
| `WalletRuns.ResponseReturned` | crates/nula-nwc/src/client.rs:234-266 | a run in which the wallet's response is returned |
| `WalletPhases.PhaseIsLastStep` | crates/nula-nwc/src/client.rs:234-266 | in every run a call stands where its last step left it, ends at most once, and nothing happens to it afterwards |
| `WalletPhases.NeverStuck` | crates/nula-nwc/src/client.rs:234-266 | from every reachable state a registered call can publish, a waiting one can either receive or time out, an expired one can clean up, and new calls can register |
| `WalletPhases.DispatcherRuns` | crates/nula-nwc/src/dispatcher.rs:37-99 | the dispatcher reads until the stream ends or it is aborted |
| `Wallet.RepliesAreFinal` | crates/nula-nwc/src/client.rs:234-266 | at most one reply per request, and a finished call stays as it is |
| `Wallet.EntryGoneIff` | crates/nula-nwc/src/client.rs:234-266 | in every run with distinct ids an entry is in the map if and only if its call neither timed out nor failed to publish, and since the registration no answer to it was read and the stream has not ended |
| `Wallet.LeftBehindBy` | crates/nula-nwc/src/client.rs:234-266 | a finished call whose entry is still there was refused by the pool or abandoned |
| `Wallet.OthersUndisturbed` | crates/nula-nwc/src/pending.rs:43-54 | clean-up after a reply, failure or timeout leaves other requests registered and open |
| `Wallet.RefusedPublishLeaks` | crates/nula-nwc/src/client.rs:234-266 | a run in which a refused request leaves its entry behind |
| `WalletClient.Client.RegisterRequest` | crates/nula-nwc/src/client.rs:234-247 | registering on the shared map is exactly the register step |
| `WalletClient.Client.PublishRequest` | crates/nula-nwc/src/client.rs:248-257 | the three ways `send_event_to` ends are exactly the publish steps |
| `WalletClient.Client.ReadEvent` | crates/nula-nwc/src/dispatcher.rs:73-90 | the loop body is exactly the read step |
| `WalletClient.Client.CleanUpRequest` | crates/nula-nwc/src/client.rs:258-265 | the timeout arm is exactly the clean-up step |
| `WalletClient.Client.EndStream` | crates/nula-nwc/src/dispatcher.rs:37-47 | the drain after `run` is exactly the end-of-stream step |
| `WalletClient.ExecuteAll` | crates/nula-nwc/src/client.rs:234-266 | any interleaving carried out by the client ends in the state of the run and keeps its invariant |
| `Signer.DecodeIff` | crates/nula-signer/src/dispatcher.rs:193-228 | success exactly for a result that parses against the method, is not `auth_url` and carries no error; a detour exactly for `auth_url` with a readable URL |
| `Signer.PendingMap.Insert` | crates/nula-signer/src/pending.rs:41-63 | the request is filed; an earlier waiter under the id is told of the collision |
| `Signer.PendingMap.Take` | crates/nula-signer/src/pending.rs:65-70 | the entry is removed and handed over, the others stay |
| `Signer.PendingMap.Reinsert` | crates/nula-signer/src/pending.rs:72-78 | the entry is back under its id; one that took its place is dropped |
| `Signer.PendingMap.CancelAll` | crates/nula-signer/src/pending.rs:80-86 | every pending sender gets the reply and the map is empty |
| `Signer.LinearStep` | crates/nula-signer/src/dispatcher.rs:62-130 | every step keeps each sender in exactly one place and never alters a spent one |
| `SignerFacts.OnePlace` | crates/nula-signer/src/dispatcher.rs:86-191 | in every run each sender is in the map, in the dispatcher's hand, or spent, and in one of them only |
| `SignerFacts.SuccessesAreOwn` | crates/nula-signer/src/dispatcher.rs:86-228 | a success a caller sees was decoded from a response with its own id against its own method, and is never `auth_url` |
| `SignerRuns.SuccessDelivered` | crates/nula-signer/src/dispatcher.rs:86-228 | in every run the success a caller returns was put into its channel by one event, read after the call registered, that carries its own id and decodes to that success against its own method |
| `SignerReplies.OutcomeOf` | crates/nula-signer/src/client.rs:266-311 | in every run with distinct ids a call that receives returns exactly what the first step that spent its sender had to say |
| `SignerReplies.SuccessIff` | crates/nula-signer/src/dispatcher.rs:86-228 | so it returns a success exactly when that step read a response with its id that decodes to it |
| `SignerPhases.PhaseIsLastStep` | crates/nula-signer/src/client.rs:266-311 | in every run a call stands where its last step left it, or is over at once without a signer; it ends at most once |
| `SignerPhases.NeverStuck` | crates/nula-signer/src/client.rs:266-311 | from every reachable state new calls can begin, registered ones publish, and unfinished ones be abandoned |
| `SignerPhases.WaitingGoesOn` | crates/nula-signer/src/client.rs:281-311 | a prepared call can register and a waiting one can either receive or time out |
| `SignerPhases.DispatcherRuns` | crates/nula-signer/src/dispatcher.rs:62-130 | the dispatcher works until the stream ends or it is aborted, reading unless it holds an entry for its auth handler |
| `SignerRuns.DetourParks` | crates/nula-signer/src/dispatcher.rs:149-181 | in every run, whatever happens while the handler is awaited, its approval puts the entry taken on the detour back with the same method and sender and an open channel; another request is displaced exactly if one was filed under the id meanwhile and the map not cancelled since, which distinct ids rule out |
| `SignerFacts.LatchStep` | crates/nula-signer/src/dispatcher.rs:230-246 | the key is written once, and only to the author of a response whose result is the URI secret |
| `SignerPhases.LatchIff` | crates/nula-signer/src/dispatcher.rs:230-246 | in every run the signer is the URI key, or else the author of the first kind-24133 response read whose result is the secret; none before that |
| `SignerFacts.LatchIsTrusted` | crates/nula-signer/src/client.rs:266-311 | in every run the key is the URI key or the author of an echo of the secret, and every published request is encrypted to it and tagged with it |
| `SignerFacts.TotalFailureCancelsAll` | crates/nula-signer/src/client.rs:281-304 | a publish that fails everywhere answers every pending request with the failing one's error |
| `SignerFacts.SurvivorsIff` | crates/nula-signer/src/client.rs:281-304 | exactly the request the dispatcher holds survives it |
| `SignerRuns.BystanderCancelled` | crates/nula-signer/src/client.rs:281-304 | a run in which one request's total failure cancels another that was waiting for its answer |
| `SignerRuns.TimeoutLeaks` | crates/nula-signer/src/client.rs:306-311 | a run in which a timed-out request leaves its entry in the map |
| `SignerRuns.TraceOf` | crates/nula-signer/src/dispatcher.rs:62-130 | every run passes through a trace of states that ends where the run does |
| `SignerRuns.SenderGoneIff` | crates/nula-signer/src/client.rs:266-311 | in every run with distinct ids a registered sender is still in the map or the hand if and only if no step since spent it: no answer, no failed return or abort while held, no total failure while not held, no end of the stream |
| `SignerRuns.LeftBehindBy` | crates/nula-signer/src/client.rs:281-311 | a finished call whose sender is still around timed out, was abandoned, was refused, or failed to publish, and every total failure since its registration found it held |
| `SignerOrigin.AuthenticIff` | crates/nula-signer/src/dispatcher.rs:86-128 | every delivered success, in every run, is authored by the latched key if and only if nobody but a possible signer can author an event that opens to a success |
| `SignerOrigin.StrangerAnswers` | crates/nula-signer/src/dispatcher.rs:86-128 | a run in which the event that delivers the success a caller returns is authored by a stranger while the latch holds the URI key |
| `SignerClient.Client.PublishRequest` | crates/nula-signer/src/client.rs:281-304 | the three ways `send_event_to` ends are exactly the publish steps |
| `SignerClient.Client.ReadEvent` | crates/nula-signer/src/dispatcher.rs:86-128 | the loop body up to the awaited handler is exactly the read step |
| `SignerClient.Client.ValidateSecretEcho` | crates/nula-signer/src/dispatcher.rs:230-246 | an empty latch is set by an echo of the URI secret and by nothing else |
| `SignerClient.Client.ResumeAfterHandler` | crates/nula-signer/src/dispatcher.rs:149-181 | the handler's return is exactly the return step |
| `SignerClient.ExecuteAll` | crates/nula-signer/src/client.rs:266-311 | any interleaving carried out by the client ends in the state of the run and keeps its invariants |
| `Sync.InsertAll` | crates/nula/src/sync.rs:496-504 | the target becomes the union, and the count is the number of ids that were new |
| `Sync.CollectEvents` | crates/nula/src/client.rs:930-940 | the fetched events without the failed ones, in canonical form with distinct ids |
| `Sync.Driver.FoldOutcome` | crates/nula/src/sync.rs:475-494 | only the active directions grow, and `total` by the number of new ids |
| `Sync.Driver.Round` | crates/nula/src/sync.rs:438-462 | one item is consumed, at most one reply sent, and how the round ends the loop |
| `Sync.Driver.ReconcileLoop` | crates/nula/src/sync.rs:424-465 | the bounded loop asks for exactly the items the specification gives, ends as it says, and sends and classifies exactly what those rounds determine |
| `Sync.OneReplyPerMessage` | crates/nula/src/sync.rs:437-455 | at every point at most one `NEG-MSG` was sent per one heard, and at most n of n items were such |
| `Sync.AllButLastAnswered` | crates/nula/src/sync.rs:437-455 | every message before the last is answered, and a converging run answers all but the last |
| `Sync.ConversedUnique` | crates/nula/src/sync.rs:437-464 | how many items are asked for is determined by the world |
| `Sync.SucceedsIff` | crates/nula/src/sync.rs:437-464 | reconciliation succeeds exactly when a round within the cap converges and none before it stops the loop |
| `Sync.ClassifiedAre` | crates/nula/src/sync.rs:475-494 | the summary holds exactly what the rounds reported for the active directions |
| `Sync.ClassifiedOnce` | crates/nula/src/sync.rs:475-504 | every classified id is counted exactly once, however often it is reported |
| `Sync.Driver.UploadPhase` | crates/nula/src/sync.rs:340-374 | in any order each local id is looked up once, published if found, and recorded as sent or with its failure |
| `Sync.Driver.DownloadPhase` | crates/nula/src/sync.rs:376-420 | the fetched events are judged in order up to the first undecided one, and each is recorded and counted as its verdict says |
| `Sync.Driver.Run` | crates/nula/src/sync.rs:277-338 | the phases in order, with `NEG-CLOSE` after every reconciliation, and what each leaves behind |
| `SyncFacts.WireOrder` | crates/nula/src/sync.rs:277-338 | at most 1024 items, one open, at most one `NEG-MSG` per one heard, exactly one `NEG-CLOSE` after them, then only distinct local events |
| `SyncMeaning.HeardAre` | crates/nula/src/sync.rs:437-462 | the session has heard every `NEG-MSG` so far, in order |
| `SyncMeaning.AskedIff` | crates/nula/src/sync.rs:437-464 | items are asked for until a round ends the loop, and at most 1024 |
| `SyncMeaning.EndingIff` | crates/nula/src/sync.rs:437-464 | how the loop ends, for each error and for success, by the last item, the session and the connection |
| `SyncMeaning.SaidAre` | crates/nula/src/sync.rs:437-455 | the answer to each message is what the session makes of the messages up to it |
| `SyncMeaning.ReportedIff` | crates/nula/src/sync.rs:475-494 | an id is reported local-only or remote-only exactly when some round classified it so and the direction is asked for; the total grows by as many, up to the `u64` maximum |
| `SyncMeaning.SentIff` | crates/nula/src/sync.rs:340-374 | an id is reported sent exactly when an upload took place and it is local-only, stored and accepted by the relay |
| `SyncMeaning.FailedIff` | crates/nula/src/sync.rs:340-420 | an id is reported failed for a reason exactly when a fetched event could not be saved for it, or else its upload failed for it, a missing event as "event not found in local database" |
| `SyncMeaning.ReceivedIff` | crates/nula/src/sync.rs:388-417 | an id is received exactly when a handled event of that id was admitted and saved, and rejected for a reason exactly when one was vetoed for it |
| `SyncMeaning.ArrivedAre` | crates/nula/src/client.rs:930-940 | what was fetched are the events of the stream, in order, a failed relay leaving only a gap |
| `SyncMeaning.ResultIff` | crates/nula/src/sync.rs:277-338 | a sync fails exactly when the session cannot open, the conversation fails, the fetch fails or the policy breaks, and with that error |
| `SyncFacts.TotalGrows` | crates/nula/src/sync.rs:467-494 | `total` grows by exactly the number of local and remote ids, up to saturation |
| `SyncFacts.UploadPartition` | crates/nula/src/sync.rs:340-374 | after upload, sent and failure keys partition `local`; at the end exactly if every event that failed to save is also a failed upload |
| `SyncFacts.SaveErrorAmongFailures` | crates/nula/src/sync.rs:376-420 | a world against which a sync in both directions ends well with a failure that was never an upload |
| `SyncFacts.CompletesIff` | crates/nula/src/sync.rs:346-420 | in any direction and from any state of the progress channel, after a sync that ended well `current` equals `total` if and only if the counts before, the events loaded for upload and the events fetched add up to the total before and the classified ids |
| `SyncFacts.WithheldEventStalls` | crates/nula/src/sync.rs:376-420 | a world against which a sync in both directions ends well, every local event loaded, short of its total |
| `SyncFacts.UploadCompletesIff` | crates/nula/src/sync.rs:346-373 | an upload-only sync ticks as much as it announces if and only if every local event could be loaded |
| `SyncFacts.AdmissionGate` | crates/nula/src/sync.rs:388-417 | exactly the admitted events reach `save_event`, and received and rejected ids are disjoint |
| `SyncFacts.DownloadPartition` | crates/nula/src/sync.rs:376-420 | in every direction that downloads, a sync that ends well splits the fetched ids into received, rejected and failed to save |
| `SyncFacts.NothingExchanged` | crates/nula/src/sync.rs:310-321 | a dry run or a failed reconciliation publishes, saves and records nothing beyond the classification |
| `SyncFacts.SyncWith` | crates/nula/src/sync.rs:248-275 | the first failing relay aborts; otherwise all four sets and the keys of both maps are the unions, and of several reasons for one id the last relay's counts |
| `SyncFacts.CoverageMerges` | crates/nula/src/sync.rs:133-140 | every local id stays accounted for in the merged summary when it is in each relay's |
| `SyncFacts.MergeDisjointIff` | crates/nula/src/sync.rs:133-140 | per-relay disjointness survives a merge if and only if neither relay's failures meet the other's deliveries |
| `EventSet.FromUnsorted` | crates/nula-storage/src/events.rs:59-73 | each id once, newest to oldest: of any two results the earlier has the later `created_at`, or the same and the id that is smaller at the first differing byte |
| `EventSet.FirstOwned` | crates/nula-storage/src/events.rs:95-102 | the newest event, none exactly for the empty set |
| `EventSet.HeadIsNewest` | crates/nula-storage/src/events.rs:95-102 | the head of a canonical set has a `created_at` no smaller than that of any event given, and the smallest id among the equally new |
| `EventSet.CanonicalIff` | crates/nula-storage/src/events.rs:59-73 | two coherent streams give the same result if and only if they hold the same set of events |
| `EventSet.CanonicalAgain` | crates/nula-storage/src/events.rs:59-73 | the canonical form is a fixed point |
| `EventSet.OrderIndependentIff` | crates/nula-storage/src/events.rs:59-73 | the result is the same under every arrival order if and only if equal ids mean equal events |
| `EventSet.ClashingIds` | crates/nula-storage/src/events.rs:59-73 | two events under one id whose order decides the result |

## Left out

- Cryptography (secp256k1, SHA-256, NIP-04, NIP-44): hashing, signing and decryption are parameters.
- `Nip21::parse`, `Url::parse`, the bech32 alphabet, the NIP-65 and NIP-17 list parsers and `AllowedRelays`: arbitrary
  predicates or functions; for the bech32 alphabet only that its characters are ASCII letters or digits.
- The negentropy session: an arbitrary function from the messages heard to an outcome.
- Relay actor, pool, transports, storage backends, Blossom, keyring, browser signer and CLI.
- JSON text beyond the compact form the writers produce: whitespace, `\/` and `\u` escapes outside control characters,
  negative and fractional numbers. The codecs are modelled on JSON values, where the borrowed-string restriction on
  ids, keys and signatures (no escapes inside the hex) is not visible.
- Decoder error texts: a decoder either returns a value or fails.
- Filter builders and removers, option builders, `Kind` ranges and the NIP-20 prefix parser: one-branch claims.
- `warm_up` and the refresher task: loops over `refresh` and the database.
- The connection handshakes of NIP-46 beyond the latch they rely on; polling in `client_uri_handshake` is ordinary calls.
- Clock scheduling, task abort timing and mutex poisoning: timeouts and dispatcher end are steps that may happen any time.
- Routes.Gossip.Refresh: models calls one after the other; the check and the stamp take the lock separately in the code, so concurrent calls may both pass.
- Sync.Driver.Run: does not model the overall timeout, which may cut the call off at any await and then returns no summary.
- Order.Sort: stands for `sort_by` and `sort_unstable`, whichever algorithm computes them.
