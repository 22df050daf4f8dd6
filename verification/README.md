# SantaClawz verification model

A Dafny model of the parts of the SantaClawz repository where money, files and tokens are handled, with proofs of what they keep.
`dafny verify dfyconfig.toml` checks everything with Dafny 4.11; there are no assumptions beyond the `requires` clauses named below.

## What is modelled

- **The x402 money path.** `Decimal` is the dollar-string codec the indexer, its fee module and the SDK each carry a copy of.
  `FeePolicy` previews the protocol fee as strings, `FeeCache` keeps the network fee fresh behind the callers' backs, `Pricing` turns
  gas and a Chainlink answer into micro-dollars, and `RailPlans` decides which rails are ready and splits the price. `FeeStack` adds a
  fork's deployer fee. `Payload` is the payment requirement and the check a payload passes before settlement; `BuyerPayload` holds the
  browser's and the Python job pack's builders and ends in `PriceIsPaid`, which follows one price through all of them
  (`RailPlans.ReadyPrices` and `BuyerPayload.PlannedBrowserDrafts` say when there is such a price and such a payload).
  `Settlement` is the retry loop against a facilitator that may fail after paying, behind that check; `LocalTimer` says what its own
  timer's message does to a run.
- **Stores.** `ControlPlane` is the workshop beta's sessions, challenges, bindings and missions in bounded lists; `ArtifactStore` and
  `Receipts` are encrypted artifacts under a quota and delivery receipts under an index. Each is a class whose ghost history outlives
  what the lists forget, and whose `Valid()` every method keeps.
- **Files.** `FileTree` and `ObjectStore` show that the privacy gateway's directory tree behaves as a map from keys to bodies.
  `ZipWalk` is the walk over an archive's local file headers, `ScanStream` the length-prefixed stream to the malware scanner.
- **Encodings.** `Json` and `StableJson` are the two canonical JSON printers; `Base64` and `SessionToken` the concierge's signed tokens.

Code that the source runs step by step is a class or a method with a loop here, proved against a specification function; code made of
expressions is functions with lemmas. `Wrappers`, `Text`, `Lists`, `Bytes`, `Values` and `Orders` are shared helpers.

## Where the code differs from the obvious reading

- A hosted rail can be ready with a price nobody can read, such as `$5`: the floor check returns silently when the price does not
  parse (`RailPlans.ReadyUnreadable`). A ready hosted rail can be paid exactly when its price is readable and its fee is not zero
  (`RailPlans.ReadyIsPayable`).
- Fee previews are built while the fee policy is switched off (`FeePolicy.PreviewsIgnoreSwitch`), so nothing about readiness is read
  from a preview.
- A hosted payload whose network, rail or payee matches no accept passes without any look at a split (`Payload.AcceptsMeans`,
  `Payload.UnmatchedAccepted`).
- With its default of 30 seconds the facilitator client's own timer ends a run; its message is retryable only where the timeout's
  digits happen to contain a status code, as in 50200 ms (`LocalTimer.TimeoutRetryable`, `LocalTimer.DefaultTimeout`).
- Both stable printers print an array of one `undefined` like the empty array (`StableJson.LoneHoleCollides`); the exact conditions
  under which two texts agree are `StableJson.StringifyDetermines` and `StableJson.StableTextDetermines`.
- `ceilDiv` is the least cover only above minus the divisor or where the numerator is one more than a multiple of it
  (`Pricing.CeilDivLeast`); every caller stays there.
- Formatting with more than six forced fraction digits, or of a negative amount, does not parse again (`Decimal.ParseFormat`).
- The Python builder strips what ECMAScript does not trim and the other way round, so it is accepted exactly when both agree on the
  copied fields (`BuyerPayload.PyAccepted`); it signs and is refused for a seller's amount behind a next-line character
  (`BuyerPayload.PaddedSellerRefused`).
- A late claim turns any admin challenge into an expired one, also a claimed one (`ControlPlane.LateClaimExpires`), and its binding
  stays as it was.
- A mission can be moved to having its agents claimed with no claim on record (`ControlPlane.ClaimedWithoutClaims`); what a completed
  mission is sure to have passed is its statuses, not its claims.
- Of the seven delivery states of a receipt three can occur (`Receipts.ReachableStates`).
- A session token whose payload holds no date that parses never expires (`SessionToken.NeverExpires`, `SessionToken.DatelessAccepted`);
  creating sessions never makes one (`SessionToken.CreatedSessionLives`). Anything behind a second dot of a token is ignored.
- A stored key may not start with two dots, even as part of a longer first segment such as `..a` (`ObjectStore.TwoDotsRefused`).
- An archive member that gives its sizes behind its data ends the walk over the archive, and later members go unreported
  (`ZipWalk.StreamedMemberEndsWalk`).
- An archive cut off inside a member's data is inspected as if that member were whole (`ZipWalk.CutArchive`).

## Model

| member | source | states |
|---|---|---|
| Decimal.ParseFormat | apps/indexer/src/x402-adapter.ts:477-501 | Parsing undoes formatting for exactly the non-negative amounts and at most six forced fraction digits; for everything else the text does not parse. |
| Decimal.FormatParse | apps/indexer/src/protocol-owner-fee.ts:48-71 | Re-formatting a readable price returns the same text exactly when the text was canonical. |
| Decimal.ParseReadsNumeral | packages/agent-sdk/src/fees.ts:40-54 | A numeral reads as the number it denotes, said without reference to how it is split or padded. |
| Decimal.AssetAmountBounds | apps/indexer/src/x402-adapter.ts:503-525 | Conversion to token units is exact from six decimals up, loses less than one unit below, and is refused exactly when it would charge nothing. |
| Text.TrimCuts | apps/indexer/src/x402-adapter.ts:286-288 | Trimming, in either language's sense of white space, takes only white space off, at the two ends, and all of it. |
| Text.OptionalTextMeans | apps/indexer/src/workshop-beta-control-plane.ts:228-231 | A text counts exactly when it is not blank, and is then the longest beginning of the trimmed text that fits. |
| FeePolicy.PreviewConserves | apps/indexer/src/protocol-owner-fee.ts:143-171 | Read back from its strings, a preview's fee is the larger of the two fees, its net is what the fee leaves of the price, and the network fee shown is the one used. |
| FeePolicy.BpsFeeFloors | apps/indexer/src/protocol-owner-fee.ts:149 | The basis-point fee is the exact share rounded down to the atom. |
| FeePolicy.RailPreviewIff | apps/indexer/src/protocol-owner-fee.ts:122-178 | A rail has a preview exactly when it has a recipient and a payout wallet; the preview names just these two, and the rate. |
| FeePolicy.PreviewPayees | apps/indexer/src/protocol-owner-fee.ts:122-178 | Every preview of a plan pays its rail's recipient and wallet, at the policy's rate. |
| FeePolicy.FindRailPreview | apps/indexer/src/protocol-owner-fee.ts:112-178 | Looking a rail up among the previews gives that rail's own preview, or none when it is unsupported. |
| FeePolicy.PreviewsIgnoreSwitch | apps/indexer/src/protocol-owner-fee.ts:112-178 | Whether the fee is switched on makes no difference to any preview. |
| FeePolicy.FloorParses | apps/indexer/src/x402-adapter.ts:775-782 | The canonical floor reads as the same amount as the setting it came from. |
| RailPlans.PushHostedFacilitatorFloor | apps/indexer/src/x402-adapter.ts:924-978 | Appends exactly the floor's gaps to the list handed in, in order. |
| RailPlans.FloorGapsIff | apps/indexer/src/x402-adapter.ts:940-977 | No gap is listed exactly when a readable hosted price exceeds the larger of both fees, reaches the minimum, and the fee applies. |
| RailPlans.PushPricingReadiness | apps/indexer/src/x402-adapter.ts:989-1017 | Appends the pricing gap, if any, and hands out the price only for a fixed price that is set. |
| RailPlans.BuildBaseRailPlan | apps/indexer/src/x402-adapter.ts:1019-1156 | The step-by-step builder yields the plan specified for the Base rail: every gap in order, model, payee and readiness. |
| RailPlans.BuildEthereumRailPlan | apps/indexer/src/x402-adapter.ts:1158-1285 | The second copy of the builder yields the same plan function for Ethereum. |
| RailPlans.PlanReadyIff | apps/indexer/src/x402-adapter.ts:1152-1155 | A plan is ready exactly when everything an EVM rail needs is there, listed independently of the order of the pushes. |
| RailPlans.PlanLists | apps/indexer/src/x402-adapter.ts:1043-1093 | Which items a plan lists as missing, each exactly under its own condition, independently of the order of the pushes. |
| RailPlans.FloorLists | apps/indexer/src/x402-adapter.ts:940-977 | Which gap of the floor is listed when, and the amount it quotes. |
| RailPlans.FacilitationMeans | apps/indexer/src/x402-adapter.ts:1030-1038 | When somebody facilitates a rail and when SantaClawz hosts it, in terms of the two addresses, the credentials, the proof setting and the fee policy. |
| RailPlans.OwnSettingsFirst | apps/indexer/src/x402-adapter.ts:1030-1032 | The agent's own address or escrow wins unless blank; then the operator's counts. |
| RailPlans.ExactSplitAddsUp | apps/indexer/src/x402-adapter.ts:1769-1804 | A split's three texts are positive whole amounts and the two parts add up to the gross. |
| RailPlans.SplitIff | apps/indexer/src/x402-adapter.ts:1769-1804 | A previewed rail has a split exactly when the fee is neither nothing nor everything. |
| RailPlans.ReadyIsPayable | apps/indexer/src/x402-adapter.ts:924-978 | Readiness and preview compute one fee through the strings: a ready hosted rail has a split exactly when its price is readable and that fee is not zero; the split takes exactly the fee, for the policy's recipient at its rate, and its gross is what the rail charges in token units. |
| RailPlans.ReadyUnreadable | apps/indexer/src/x402-adapter.ts:940-950 | A rail that is ready and hosted at the price `$5`, which does not parse, and has no split. |
| RailPlans.ReadyPrices | apps/indexer/src/x402-adapter.ts:924-978 | Some hosted rail is ready at a price exactly when the rate is set and the fee is something but less than the price. |
| RailPlans.BuildPlan | apps/indexer/src/x402-adapter.ts:1400-1436 | One fee map feeds previews and rails: a ready hosted rail of a plan is paid at its payout wallet, and is payable from that plan's own previews, to the policy's recipient, exactly when its price is readable and its fee not zero. |
| FeeStack.SharesFit | packages/agent-sdk/src/fees.ts:106-107 | Two floored basis-point fees within the joint cap take at most four percent. |
| FeeStack.Validate | packages/agent-sdk/src/fees.ts:67-87 | The report says of the floor, the deployer cap and the joint cap whether they are kept, and of the whole whether all are. |
| FeeStack.DeployerAppliesIff | packages/agent-sdk/src/fees.ts:89-110 | A deployer fee applies exactly when switched on, at a positive whole rate, with a recipient on the rail. |
| FeeStack.StackReports | packages/agent-sdk/src/fees.ts:89-130 | What a stacked preview reports besides its amounts, and what it shows when the price cannot be read. |
| FeeStack.StackConserves | packages/agent-sdk/src/fees.ts:89-130 | Seller net, protocol fee and deployer fee add up to the gross exactly when the fees fit; otherwise the net text does not parse. |
| FeeStack.SellerKeeps96Percent | packages/agent-sdk/src/fees.ts:89-130 | Under one policy and a compatible report the seller keeps at least 96 percent of a basis-point preview's price. |
| Pricing.DecimalScale | apps/indexer/src/x402-adapter.ts:698-704 | The loop computes the power of ten, and one for non-positive exponents. |
| Pricing.PriceBounds | apps/indexer/src/x402-adapter.ts:706-714 | The scaled price is the feed's answer rounded down to a micro-dollar, for any number of decimals. |
| Pricing.CeilDivLeast | apps/indexer/src/x402-adapter.ts:527-533 | Exactly when the quotient is the least amount covering the numerator, negative numerators included. |
| Pricing.GasChargeIsCeiling | apps/indexer/src/x402-adapter.ts:829-832 | The charge is the ceiling division's result, which never fails here. |
| Pricing.GasChargeBounds | apps/indexer/src/x402-adapter.ts:826-832 | Two-sided: less than a micro-dollar above the exact cost, and below it at most by the native amount's truncation loss. |
| Pricing.SignedWordIsTwosComplement | apps/indexer/src/x402-adapter.ts:716-720 | The reading is the one number of the signed 256-bit range congruent to the word. |
| Pricing.SignedRoundTrip | apps/indexer/src/x402-adapter.ts:716-720 | Every signed 256-bit number is read back from its word. |
| Pricing.FeedAnswerReadsRound | apps/indexer/src/x402-adapter.ts:744-752 | From a well-formed round exactly the encoded answer is read, and only a positive one. |
| Pricing.FeedAnswerPads | apps/indexer/src/x402-adapter.ts:744-752 | A short result is read as if it had zeroes in front. |
| FeeCache.HigherIsMax | apps/indexer/src/x402-adapter.ts:793-806 | The higher of two estimates is one of them and at least both. |
| FeeCache.SampleIsDearer | apps/indexer/src/x402-adapter.ts:808-857 | A sample reads as the larger of gas charge and floor, and as the floor when the chain did not answer. |
| FeeCache.CachedIsJustified | apps/indexer/src/x402-adapter.ts:903-910 | An entry within its retention, raised to the floor, was cached less than ten minutes ago or is the floor. |
| FeeCache.FeeMonitor.Store | apps/indexer/src/x402-adapter.ts:784-791 | Replaces one rail's entry with both deadlines, extends the history by it, and keeps every served fee justified. |
| FeeCache.FeeMonitor.Launch | apps/indexer/src/x402-adapter.ts:859-863 | Starts a refresh only when none is in flight for the rail. |
| FeeCache.FeeMonitor.Settle | apps/indexer/src/x402-adapter.ts:864-877 | A refresh caches its value; a failed one only fills a rail never cached; the history gains exactly what was cached. |
| FeeCache.FeeMonitor.Release | apps/indexer/src/x402-adapter.ts:878-880 | Clearing the mark later keeps marks and running refreshes in step. |
| FeeCache.FeeMonitor.Tick | apps/indexer/src/x402-adapter.ts:883-895 | The timer leaves both rails with a refresh in flight, one each. |
| FeeCache.FeeMonitor.Estimate | apps/indexer/src/x402-adapter.ts:897-914 | Under every interleaving the fee served is at least the floor, and the floor or a value cached less than ten minutes before. |
| Settlement.MaxAttempts | apps/indexer/src/x402-adapter.ts:2312-2315 | The setting rounded half up and kept between one and five, or two when it is no number. |
| Settlement.SettleWithRetry | apps/indexer/src/x402-adapter.ts:2347-2379 | One to five attempts with one payload, stopping at the first success or final error; the result is the last answer the facilitator gave in this run. Money moves for this payment at most once, also in attempts given up on. |
| Settlement.SettleToQuiet | apps/indexer/src/x402-adapter.ts:2347-2379 | After every abandoned request is handled too, there is at most one transfer, none if already paid, and the result is still that of the answers received. |
| Settlement.SettlePayment | apps/indexer/src/x402-adapter.ts:2527-2546 | Nothing is sent unless the hosted check passes; the payload that was checked is the one settled, at most once under its identifier. |
| Settlement.RetryableIff | apps/indexer/src/x402-adapter.ts:2327-2332 | An error is worth a retry exactly when it mentions, in any case of letters, one of four status codes or eight phrases. |
| LocalTimer.TimeoutRetryable | apps/indexer/src/x402-adapter.ts:2327-2332 | The timer's message counts as retryable exactly when the decimal text of the timeout contains 429, 502, 503 or 504. |
| LocalTimer.DefaultTimeout | apps/indexer/src/x402-adapter.ts:2322-2325 | The default timeout of 30000 ms is not retryable, 50200 ms is. |
| LocalTimer.TimeoutEndsRun | apps/indexer/src/x402-adapter.ts:2360-2372 | A run that meets a timer message which is not retryable ends there and reports it. |
| Payload.NormalizeIdempotent | apps/indexer/src/x402-adapter.ts:382-441 | Normalizing a requirement a second time changes nothing. |
| Payload.NormalizedOwn | apps/indexer/src/x402-adapter.ts:395-440 | An accept with a split of its own keeps it, and is charged its gross exactly when that is a whole number. |
| Values.IdentifierMeans | apps/indexer/src/x402-adapter.ts:290-292 | A payment is told apart by its idempotency key when that is a text and not blank, else by its payment id. |
| Values.SameAddressIff | apps/indexer/src/x402-adapter.ts:346-352 | Addresses are texts, alike up to white space around them and to what lower case makes one. |
| Payload.WrittenFields | apps/indexer/src/x402-adapter.ts:418-441 | Writing a split sets the amount, its unit and the split, and nothing else at any level. |
| Payload.AssertHostedFacilitatorPayloadShape | apps/indexer/src/x402-adapter.ts:2210-2306 | Passes exactly the well-shaped payloads that agree with the matching accept's terms; a refusal names exactly the fields that are missing or, on the terms, missing or different. |
| Payload.CheckTerms | apps/indexer/src/x402-adapter.ts:2241-2284 | Passes exactly when nothing of the split is missing on either side and all of it agrees, and otherwise names exactly what is missing. |
| Payload.CompareTerms | apps/indexer/src/x402-adapter.ts:2285-2305 | Passes exactly when amounts are identical and addresses equal up to case and blanks, and otherwise names exactly what differs. |
| Payload.AcceptsMeans | apps/indexer/src/x402-adapter.ts:2240-2250 | A hosted payload passes exactly when it is well shaped and no accept matches it, or the matching accept's split is met; an accept for the split model without a split lets nothing pass. |
| Payload.MatchedFirst | apps/indexer/src/x402-adapter.ts:354-369 | A payload is held against the first accept on its network and rail whose payee is its own, up to case and blanks. |
| Payload.LooksFor | apps/indexer/src/x402-adapter.ts:2156-2178 | Where the check finds the payload's copy of the split, both signed values and the fee authorization, and in which order it looks. |
| Payload.TermsMean | apps/indexer/src/x402-adapter.ts:2254-2258 | The terms are the split's texts, trimmed; only the seller's address may come from the accept instead. |
| Payload.UnmatchedAccepted | apps/indexer/src/x402-adapter.ts:2240-2245 | A well-shaped payload for a network no accept names passes whatever it signs. |
| Payload.AcceptedPaysGross | apps/indexer/src/x402-adapter.ts:2210-2306 | A payload accepted against a planned split signs exactly the advertised gross, so much to the seller and so much in fees. |
| BuyerPayload.RoutedMatches | apps/indexer/src/x402-adapter.ts:354-369 | The indexer finds the very accept a builder drew from. |
| BuyerPayload.AssembledIdentifier | apps/indexer/src/x402-adapter.ts:290-292 | An assembled payload is told apart by its payment id, whatever the digest function gives. |
| BuyerPayload.AssembledSigns | apps/web-console/src/BuyerWorkroom.tsx:280-304 | Both signed messages, at either place the payload carries them, transfer the draft's amounts from the payer to the draft's payees, under their own nonces and signatures and for the draft's token. |
| BuyerPayload.AssembledAlike | apps/web-console/src/BuyerWorkroom.tsx:304-376 | Whatever a payload says twice it says alike: payees, amounts, rate, network, payer and payment id. |
| BuyerPayload.AssembledCarriesOver | apps/web-console/src/BuyerWorkroom.tsx:321-376 | What else a payload takes over: versions, request, session, times, asset, scheme, timeout, token and unit, and what each authorization says of itself. |
| BuyerPayload.AssembledDigests | examples/agents/agent-job-pack-render-demo/santaclawz_real_worker_bridge.py:1174-1219 | The payload carries the digest of its own context fields, and of all of itself but that digest and the version. |
| BuyerPayload.PaymentIdDetermines | apps/web-console/src/BuyerWorkroom.tsx:305-311 | Two payment ids are equal exactly when request, payer, time and both nonces are. |
| BuyerPayload.BrowserDrafted | apps/web-console/src/BuyerWorkroom.tsx:265-276 | What the browser takes from the requirement: payees, amounts, token, chain, network and request as they are written. |
| BuyerPayload.PyDrafted | examples/agents/agent-job-pack-render-demo/santaclawz_real_worker_bridge.py:1066-1084 | What the job pack takes from it: the same, stripped. |
| BuyerPayload.BrowserDraftIff | apps/web-console/src/BuyerWorkroom.tsx:111-134 | The browser builds from the first accept for the split model, exactly when its plain fields are there. |
| BuyerPayload.BrowserTakes | apps/web-console/src/BuyerWorkroom.tsx:242-258 | Where the browser takes amount, asset, token, session, chain, timeout and facilitator from, and what stands in for each missing one. |
| BuyerPayload.PyDraftIff | examples/agents/agent-job-pack-render-demo/santaclawz_real_worker_bridge.py:970-1002 | The job pack builds from the first accept with the model and both records, exactly when its plain fields are there and the chain is positive. |
| BuyerPayload.PyTakes | examples/agents/agent-job-pack-render-demo/santaclawz_real_worker_bridge.py:1066-1135 | Where the job pack takes the same from, as Python prints it. |
| BuyerPayload.BrowserAccepted | apps/web-console/src/BuyerWorkroom.tsx:260-387 | The browser's payload passes exactly when the amounts it copied were trimmed and the accept's amount is the split's gross. |
| BuyerPayload.PyAccepted | examples/agents/agent-job-pack-render-demo/santaclawz_real_worker_bridge.py:1066-1219 | The Python payload passes exactly when the amount is the split's gross, stripping and trimming agree on both parts, and the payees are the advertised ones; for any amounts. |
| BuyerPayload.SampleAccepted | examples/agents/agent-job-pack-render-demo/santaclawz_real_worker_bridge.py:970-974 | A requirement from which the Python builder always drafts; its payload passes exactly when the seller's amount is trimmed like it is stripped. |
| BuyerPayload.PaddedSellerRefused | examples/agents/agent-job-pack-render-demo/santaclawz_real_worker_bridge.py:970-974 | The concrete case: an amount behind a next-line character is drafted, signed and refused. |
| BuyerPayload.PlannedAccept | apps/indexer/src/x402-adapter.ts:382-441 | Normalizing an accept without a split writes the plan's split, its gross as the amount, and leaves the route alone. |
| BuyerPayload.PlannedIff | apps/indexer/src/x402-adapter.ts:397-417 | Exactly which accepts are given a planned split. |
| BuyerPayload.PlannedBrowserAccepted | apps/web-console/src/BuyerWorkroom.tsx:260-387 | For a planned accept the browser's payload always passes and signs exactly the split's parts over to its two payees. |
| BuyerPayload.PlannedPyAccepted | examples/agents/agent-job-pack-render-demo/santaclawz_real_worker_bridge.py:977-1219 | For a planned accept the Python payload always pays exactly the split's parts, is checked against that accept exactly when stripping keeps network and payee, then passes exactly when the payees agree, and otherwise when no accept matches or another one's terms are met. |
| BuyerPayload.PlannedPyPasses | examples/agents/agent-job-pack-render-demo/santaclawz_real_worker_bridge.py:977-1219 | With an unpadded network and addresses both languages trim alike it passes. |
| BuyerPayload.ReadyIsPlanned | apps/indexer/src/x402-adapter.ts:397-417 | A ready rail's preview reaches the requirement as a split whose gross is the rail's price in token units, for the rail's wallet and the policy's recipient. |
| BuyerPayload.PlannedBrowserDrafts | apps/web-console/src/BuyerWorkroom.tsx:119-134 | From a requirement whose first exact-split accept is planned, the browser builds a payload exactly when the remaining plain fields are set. |
| BuyerPayload.PriceIsPaid | apps/indexer/src/x402-adapter.ts:2210-2306 | From the price string to the two signed messages: a ready rail's browser payload is accepted, pays the advertised price to the unit, the fee to the policy's recipient and the rest to the agent's payout wallet. |
| Json.FlatInjective | apps/web-console/src/BuyerWorkroom.tsx:174-184 | The printed text of a value determines it and where it ends, whatever follows. |
| Json.EscapeReads | apps/web-console/src/BuyerWorkroom.tsx:176-182 | Each escape of a character reads back as that character, in the short form wherever section 7 of RFC 8259 has one. |
| StableJson.StringifyDetermines | apps/web-console/src/BuyerWorkroom.tsx:174-184 | Two values print alike exactly when they are equal with objects as unordered maps and lone undefined elements as nothing. |
| StableJson.StringifyInjective | apps/web-console/src/BuyerWorkroom.tsx:174-184 | Without such elements the text is key-order independent and injective. |
| StableJson.LoneHoleCollides | apps/web-console/src/BuyerWorkroom.tsx:178-180 | The exception is real, in both printers. |
| StableJson.StableTextDetermines | packages/agent-sdk/src/artifact-delivery.ts:48-59 | Two values have the same text in the SDK exactly when, without undefined members and with lone undefined elements as nothing, they mean the same; for every value and any strict total order of keys. |
| StableJson.StableTextInjective | packages/agent-sdk/src/artifact-delivery.ts:48-59 | Without lone undefined elements the text determines the value up to member order and undefined members. |
| StableJson.DigestIgnoresOnlySignature | packages/agent-sdk/src/artifact-delivery.ts:113-121 | Two envelopes share a digest exactly when they differ in the seller's signature at most. |
| StableJson.AbsentLeftOut | packages/agent-sdk/src/artifact-delivery.ts:94-111 | Which members of the seller, the platform and the artifact reach the digested text: those the envelope has. |
| ControlPlane.TerminalIffNoNext | apps/indexer/src/workshop-beta-control-plane.ts:167-192 | The terminal states are exactly those without a transition. |
| ControlPlane.TableMeans | apps/indexer/src/workshop-beta-control-plane.ts:176-192 | The whole table in words: what may follow what, by stages, skips and failures. |
| ControlPlane.StatusRoundTrip | apps/indexer/src/workshop-beta-control-plane.ts:620-626 | A text names a status exactly when it is that status's own text. |
| ControlPlane.PathShort | apps/indexer/src/workshop-beta-control-plane.ts:176-192 | Every path in the table has at most nine changes and never leaves a terminal state. |
| ControlPlane.CompletedPassedMilestones | apps/indexer/src/workshop-beta-control-plane.ts:154-192 | A completed mission was issued and then passed every stage from agents claimed to verified, in order and without gaps. |
| ControlPlane.MissionHashDetermines | apps/indexer/src/workshop-beta-control-plane.ts:295-310 | Two missions share a hash exactly when all hashed fields are equal. |
| ControlPlane.VisibilityRoundTrip | apps/indexer/src/workshop-beta-control-plane.ts:241-248 | Every visibility is had by its name, and none but the private one in any other way. |
| ControlPlane.MissionFieldsMean | apps/indexer/src/workshop-beta-control-plane.ts:571-598 | What a mission is stored with: trimmed and cut texts, cleaned agents, defaults where nothing was given. |
| ControlPlane.CleanIdsMean | apps/indexer/src/workshop-beta-control-plane.ts:571-573 | Agent ids are trimmed, blanks dropped, and the first fifty kept in order. |
| ControlPlane.OneActiveMeans | apps/indexer/src/workshop-beta-control-plane.ts:543-545 | The invariant forbids two non-revoked bindings for one session and agent anywhere in the list. |
| ControlPlane.ControlPlane.CreateAuthSession | apps/indexer/src/workshop-beta-control-plane.ts:378-406 | Prepends a pending session and keeps all invariants although the oldest may be dropped. |
| ControlPlane.ControlPlane.VerifyAuthSession | apps/indexer/src/workshop-beta-control-plane.ts:408-443 | A session becomes verified exactly when it is the named one, pending, in time and its own token is presented; it expires exactly when named, pending and late; nothing else changes, and each answer is given exactly in its case. |
| ControlPlane.ControlPlane.IssueAdminChallenge | apps/indexer/src/workshop-beta-control-plane.ts:445-478 | A challenge goes only to a verified session, under the hash of its email. |
| ControlPlane.ControlPlane.ClaimAdminChallenge | apps/indexer/src/workshop-beta-control-plane.ts:480-552 | Exactly the open, timely challenges can be claimed, and only the named one changes; the binding copies the challenge and replaces only its own pair's active one. |
| ControlPlane.LateClaimExpires | apps/indexer/src/workshop-beta-control-plane.ts:495-502 | An attempt leaves a challenge expired exactly when it comes late or the challenge was expired already, whatever else it was. |
| ControlPlane.ClaimMeans | apps/indexer/src/workshop-beta-control-plane.ts:495-531 | What an attempt to claim leaves of a challenge, field by field, in each case. |
| ControlPlane.ClaimDigestDetermines | apps/indexer/src/workshop-beta-control-plane.ts:508-516 | A supplied digest is kept; any other one stands for the challenge, its nonce and the agent. |
| ControlPlane.ReboundMeans | apps/indexer/src/workshop-beta-control-plane.ts:543-545 | Besides the new binding exactly those of other pairs and revoked ones stay, in order, up to the cap. |
| ControlPlane.ControlPlane.CreateMission | apps/indexer/src/workshop-beta-control-plane.ts:554-618 | A mission starts as a draft under the hash of its stored fields, or nothing changes. |
| ControlPlane.ControlPlane.TransitionMission | apps/indexer/src/workshop-beta-control-plane.ts:620-647 | Exactly the table's transitions happen, each extending that mission's history by one. |
| ControlPlane.ControlPlane.ClaimMission | apps/indexer/src/workshop-beta-control-plane.ts:649-683 | A claim is recorded for any mission; one waiting for agents advances along the table. |
| ControlPlane.ClaimedWithoutClaims | apps/indexer/src/workshop-beta-control-plane.ts:620-647 | A run of the store after which a mission has its agents claimed and no claim was ever made. |
| ArtifactStore.UseShrinks | apps/indexer/src/artifact-store.ts:1394-1399 | Time only frees quota. |
| ArtifactStore.LiveMeans | apps/indexer/src/artifact-store.ts:1394-1399 | What counts against a quota is exactly what still opens and what a cleaning at that time keeps. |
| ArtifactStore.Store.RefusedFor | apps/indexer/src/artifact-store.ts:926-1005 | Each reason to turn an upload away, exactly when none before it holds. |
| ArtifactStore.OpenFaithful | apps/indexer/src/artifact-store.ts:1012-1025 | An unexpired artifact opens for exactly the tokens of its hash, its own among them, and to exactly its body. |
| ArtifactStore.OpenRefusedFor | apps/indexer/src/artifact-store.ts:1012-1025 | For any artifact each refusal comes exactly when nothing before it applies. |
| ArtifactStore.Store.AssertRequestQuota | apps/indexer/src/artifact-store.ts:1383-1409 | The scan counts exactly the unexpired artifacts of the request and their bytes. |
| ArtifactStore.Store.Create | apps/indexer/src/artifact-store.ts:926-1005 | Stores exactly what is not empty, not too large, within both quotas and safe, or refuses for the first failing check and changes nothing; no request ever exceeds its two quotas. |
| ArtifactStore.Store.Read | apps/indexer/src/artifact-store.ts:1012-1035 | Before expiry the creation token gets back exactly the stored bytes; expired or removed artifacts are never returned. |
| ArtifactStore.Store.CleanupExpired | apps/indexer/src/artifact-store.ts:1159-1179 | Removes exactly the expired artifacts, metadata and data, and counts them. |
| Receipts.NormalizeSha256 | apps/indexer/src/artifact-store.ts:597-603 | Takes exactly 64 hexadecimal digits in any case and gives them in lower case. |
| Receipts.DraftIff | apps/indexer/src/artifact-store.ts:1037-1085 | Options make a receipt exactly when there is something, to be found somewhere, under a digest; otherwise the first of these that fails is named; and what the receipt then says of each option. |
| Receipts.ReachableStates | apps/indexer/src/artifact-store.ts:614-634 | Of the delivery states only recorded, accepted and rejected occur in a store. |
| Receipts.SortsStably | apps/indexer/src/artifact-store.ts:1125 | The order is newest update first, a permutation, and stable. |
| Receipts.IndexedAdd | apps/indexer/src/artifact-store.ts:1369-1381 | Adding a receipt keeps every request's index equal to a full scan. |
| Receipts.ReceiptStore.CreateReceipt | apps/indexer/src/artifact-store.ts:1037-1099 | A new receipt that says what the options say, under its own token, or the first failed check and no change; identities and manifest digests stay as recorded. |
| Receipts.ReceiptStore.ReceiptsForRequest | apps/indexer/src/artifact-store.ts:1106-1126 | Every stored receipt of the request exactly once, newest update first, and none for a blank request. |
| Receipts.ReceiptStore.AcknowledgeReceipt | apps/indexer/src/artifact-store.ts:1128-1157 | Only the receipt's token records a verdict: the state is then the buyer's verdict, at this time, and each report is the newest given; identity and manifest digest never change. |
| ZipWalk.InspectZip | apps/indexer/src/artifact-store.ts:383-447 | Ends on every byte string, reads only in bounds, and reports what the parsed headers say. |
| ZipWalk.NoteEntry | apps/indexer/src/artifact-store.ts:414-431 | One member adds its name to each list it belongs to, and its findings in order. |
| ZipWalk.InspectsArchive | apps/indexer/src/artifact-store.ts:383-447 | On an archive of up to 1000 members the report is about exactly those; beyond, about the first 1001 and says so. |
| ZipWalk.CutArchive | apps/indexer/src/artifact-store.ts:389-437 | An archive cut off inside a member is reported as malformed exactly when the cut falls between the fixed part of that member's header and its data; cut earlier the member is missing, cut later it is reported as whole. |
| ZipWalk.StreamedMemberEndsWalk | apps/indexer/src/artifact-store.ts:394-437 | A member whose header leaves its sizes zero is reported as empty and ends the walk: no later member is reported, and nothing marks the report as incomplete. |
| ZipWalk.ParentSegmentsEscape | apps/indexer/src/artifact-store.ts:414-416 | A name with a parent segment is reported exactly when it is more than that segment. |
| ZipWalk.EscapesIff | apps/indexer/src/artifact-store.ts:414-416 | A name is reported exactly when it is absolute or has two dots next to a slash. |
| ZipWalk.ExtensionParts | apps/indexer/src/artifact-store.ts:313-319 | The extension is what follows the last dot, with it and in lower case, unless nothing precedes that dot. |
| ZipWalk.NamesWithExactly | apps/indexer/src/artifact-store.ts:417-425 | A name is listed exactly when some member has it and an extension of the set. |
| ZipWalk.NothingSuspicious | apps/indexer/src/artifact-store.ts:414-431 | The list is empty exactly when no member escapes, is encrypted or expands over a hundredfold. |
| ZipWalk.Reads16 | apps/indexer/src/artifact-store.ts:328-330 | The reader is the inverse of little-endian writing, both ways. |
| ZipWalk.Reads32 | apps/indexer/src/artifact-store.ts:332-339 | The same for four bytes. |
| ScanStream.WriteStream | apps/indexer/src/artifact-store.ts:827-833 | The frames of chunks that make up the body, each of 1 to 2^20 bytes, as few as possible, and one zero frame. |
| ScanStream.UInt32BEIsBigEndian | apps/indexer/src/artifact-store.ts:741-743 | The bytes denote the number exactly below 2^32. |
| ScanStream.DecodeInvertsFrames | apps/indexer/src/artifact-store.ts:827-833 | A stream decodes to these chunks and this rest exactly when it is their frames and the rest. |
| ScanStream.StreamRoundTrip | apps/indexer/src/artifact-store.ts:827-833 | What was written decodes to the body, with nothing after the zero frame. |
| FileTree.PutFails | apps/privacy-gateway/src/server.ts:276-280 | A write fails exactly below a file or at a directory, and then leaves the tree as it was. |
| FileTree.PutSees | apps/privacy-gateway/src/server.ts:276-280 | A successful write changes exactly what is seen at, above and below its path. |
| FileTree.RemoveSees | apps/privacy-gateway/src/server.ts:445-448 | Removal fails exactly at directories and below files, and otherwise clears only its file. |
| FileTree.WalkFinds | apps/privacy-gateway/src/server.ts:283-311 | The walk meets exactly the files. |
| FileTree.WalkOnce | apps/privacy-gateway/src/server.ts:283-311 | And each of them once. |
| Orders.SortSorts | apps/privacy-gateway/src/server.ts:314-315 | Distinct strings come out strictly ascending. |
| ObjectStore.Confines | apps/privacy-gateway/src/server.ts:266-274 | Whatever the key, the path given out is inside the base directory. |
| ObjectStore.RoutedIff | apps/privacy-gateway/src/server.ts:249-274 | The key a request names is its decoded text, exactly when that is relative, of plain segments and without two leading dots. |
| ObjectStore.ResolveNormalizes | apps/privacy-gateway/src/server.ts:266-267 | In a joined path empty and single-dot segments change nothing, and two dots take back the plain segment before them. |
| ObjectStore.KeyPath | apps/privacy-gateway/src/server.ts:249-274 | A sanitized key's path is its segments below the base, refused only for two leading dots. |
| ObjectStore.TwoDotsRefused | apps/privacy-gateway/src/server.ts:266-274 | The key `..a` is relative and stays inside the base directory, and is refused all the same. |
| ObjectStore.KeyPathInjective | apps/privacy-gateway/src/server.ts:249-274 | Different keys have different paths. |
| ObjectStore.LiveKeysApart | apps/privacy-gateway/src/server.ts:420-430 | No live key is a proper path prefix of another. |
| ObjectStore.PutRefines | apps/privacy-gateway/src/server.ts:420-430 | On the map of live keys a put sets its key and nothing else. |
| ObjectStore.RemoveRefines | apps/privacy-gateway/src/server.ts:445-455 | A delete drops its key and nothing else. |
| ObjectStore.Gateway.PutObject | apps/privacy-gateway/src/server.ts:420-430 | Refused exactly for a bad key, below a live key or at the directory of a key ever put; a refusal changes nothing. |
| ObjectStore.Gateway.GetObject | apps/privacy-gateway/src/server.ts:432-443 | The body last put; 404 and 400 told apart exactly. |
| ObjectStore.Gateway.DeleteObject | apps/privacy-gateway/src/server.ts:445-455 | Removes the key, missing or not; refused exactly at directories and below live keys. |
| ObjectStore.Gateway.ListObjects | apps/privacy-gateway/src/server.ts:282-316 | Exactly the live keys with the prefix, each once, in order. |
| Base64.DecodeEncode | apps/indexer/src/concierge.ts:83-91 | Decoding with recomputed padding undoes encoding for every number of bytes. |
| Base64.EncodeIsUrlSafe | apps/indexer/src/concierge.ts:83-85 | The text is over the URL-safe alphabet, of the exact length, without padding or dots. |
| Base64.SpareBitsZero | apps/indexer/src/concierge.ts:83-85 | The spare bits of a last short group are zero. |
| Base64.SextetIff | apps/indexer/src/concierge.ts:87-91 | A character reads as a sextet exactly when it is that sextet's in the URL-safe alphabet or in the standard one. |
| SessionToken.VerifySigned | apps/indexer/src/concierge.ts:244-277 | A signed token has exactly two parts, and a secret accepts it exactly when it gives the same hash; then the payload comes back. |
| SessionToken.AcceptedIsSigned | apps/indexer/src/concierge.ts:254-277 | Exactly which tokens are accepted: the HMAC of the payload part, the schema, and no readable date that has passed. |
| SessionToken.RefusedFor | apps/indexer/src/concierge.ts:254-277 | Every refusal names the first thing that is wrong. |
| SessionToken.NeverExpires | apps/indexer/src/concierge.ts:273-275 | A signed session is accepted at every time exactly when its date does not parse. |
| SessionToken.DatelessAccepted | apps/indexer/src/concierge.ts:273-275 | A signed session without a date is accepted however late. |
| SessionToken.LaterPartsIgnored | apps/indexer/src/concierge.ts:255-258 | Text behind a second dot makes no difference. |
| SessionToken.Lifetime | apps/indexer/src/concierge.ts:290 | A minute for less, an hour for more, a quarter of an hour by default, and the asked-for whole seconds in between. |
| SessionToken.SessionKeeps | apps/indexer/src/concierge.ts:279-313 | A session keeps the caller's fields but for its schema and two dates, the second its lifetime after the first. |
| SessionToken.CreatedSessionLives | apps/indexer/src/concierge.ts:279-313 | A created session verifies for at least a minute, at most an hour, and from its last instant on is expired. |

## Left out

- Hashes, HMAC and the cipher are parameters. Assumed where named: collision-freeness (`Injective`), decrypting undoes encrypting
  (`CipherWorks`), an HMAC of 64 hexadecimal digits, and that a platform reads back the JSON and dates it wrote.
- Random ids and tokens are parameters assumed fresh; the clock is a parameter that does not run backwards within a store.
- Where the source reads the clock twice in one operation, the model reads it once.
- HTTP, RPC, sockets, file modes, environment reading and authentication; their results are parameters or arbitrary choices.
- The Zeko rail's plan, payment verification and ledger: the modules they come from are not part of this model.
- Notes and message texts, except where a plan lists a gap with its amount or a report lists a finding.
- Strings are sequences of Unicode scalar values; UTF-16 units, UTF-8 decoding, lower-casing (outside hexadecimal digits) and the
  order of keys are parameters, the last one any strict total order.
- JSON numbers are integers; NaN, negative zero and exponents are left out, and a chain id or timeout counts only when it is a number.
- A field the Python builder writes as null because it is missing is left out of the payload here.
- `localeCompare` on equal-length ISO texts is the order of times, so receipts carry times as integers.
- Creating an artifact and acknowledging a receipt are single steps here; in the source other requests may run between their reads
  and writes, which can exceed a quota.
- Directory listings are taken in order of creation in the artifact store; nothing proved depends on it.
- File names the operating system refuses (too long, with a NUL) and a base directory removed while running.
- Safety reports beyond the ZIP walk: PDF and magic-byte checks, the scanner's verdict; their outcome is a parameter of `Create`.
- Files that do not parse, which the stores skip.
- The signing of EIP-3009 messages and the type list of their typed data.
- Integrator configuration and the fields of a session record other than schema and dates, which are carried as given.
- The admin dashboard, the agent summaries and the browser components.
- ReceiptsForRequest: does not fix the order of receipts updated at the same time.
- SettleWithRetry: does not model the pauses between attempts.
- Estimate: hands out the amount alone, without the gas details that travel with it.
