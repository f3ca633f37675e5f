# ironbark: a verified model of the secret broker

ironbark turns a verified CI identity into secrets: it derives policy names, mints a Vault token
for them, sweeps three tiers of a KV v2 mount under that token, and either delivers what it found
or revokes the token. This project models that path and proves what it promises.

| file | what it models |
|---|---|
| `text.dfy`, `json.dfy`, `results.dfy` | strings and sorting, what `encoding/json` accepts into each Go type, result types |
| `identity.dfy` | `internal/identity`: payload normalisation and the branch encoding |
| `policy.dfy` | `internal/policy`: policy names and when two identities share one |
| `warnings.dfy` | the mint-warning parser of `internal/broker` and its round trip through Vault's warnings |
| `vault.dfy` | requests, replies, mints, and the record of calls made |
| `session.dfy` | the mutex-guarded session state and its critical sections |
| `sweep_spec.dfy` | a sweep as a machine over tasks (list a tier, read an entry, follow a reference) |
| `sweep_laws.dfy` | the properties of every sweep |
| `vaultx.dfy` | the client class: login, renewal, canary, session loop, reads, and the sweep's loops, proved to run the machine |
| `broker.dfy`, `broker_laws.dfy` | `Handle` with its deferred revoke, and the properties of every `Handle` |
| `record_laws.dfy` | every call and every answer of every `Handle`, spelled out in paths, fields and replies |
| `protocol.dfy` | the lifecycle goroutine interleaved with any number of requests, with a token ledger |
| `httpapi.dfy` | `callHandler`'s select and `renderResult` |

Vault is an arbitrary function from a position in the record of calls and a request to a reply: a
200 with a JSON body, a 200 that does not decode, a denial (403 or 404), or any other failure.
Replies may change from call to call; only the laws that compare two sweeps of one store
or describe its contents
(`FindsWhatIsOffered`, `FindsWhatTiersHold`, `SweepSpecified`, `HidingIsFiltering`,
`VisibilityIsMonotone`) assume a store that holds still.
In the protocol a step is one critical section or one Vault call, timers and deadlines may fire at
any point, and the one assumption about Vault is that it never issues a token twice.

## Where the code and its documentation disagree

The model follows the code.

- `stringField` accepts a JSON `null` as the empty string (internal/vaultx/sweep.go:110-119); its
  comment says it does not. The same holds for `data` and `metadata` in a dereferenced reply
  (internal/vaultx/sweep.go:476-482). `SweepLaws.FormsExact` and `SweepLaws.Kv2Exact` state both.
- A KV v2-shaped dereference with a string `value` yields one secret whatever its siblings
  (internal/vaultx/sweep.go:541-544); the repository's own documentation still describes the
  strict one-key form.
- "Every non-200 response revokes" (internal/broker/broker.go:5-6) holds of `Handle`'s own result and
  not of the HTTP answer: the deadline can beat a handler that ends in 200.
  `BrokerLaws.AnyDeliveryCanBeAbandoned` shows it of every delivering `Handle`,
  `BrokerLaws.AbandonedReachable` of a concrete one, and `Protocol.AbandonedExactly` gives the exact
  condition on the schedule; without a deadline it cannot happen (`Protocol.NoDeadlineNoAbandonment`).
- A passed canary does not imply a live session: a failed renewal clears only `sessionOK`
  (internal/vaultx/client.go:206-212). `Protocol.StaleCanaryReachable` gives a run that mints in that
  state; `Protocol.StaleCanaryExactly` says exactly when a run is in it.
- Policy names collide if an event contains a slash, which `Parse` lets through
  (internal/identity/identity.go:71). `Policy.SlashInEventCollides` gives the pair and
  `Policy.SharedPolicies` the exact condition.
- Un-onboarded detection fails if the policy prefix has an upper-case letter, because Vault prints
  policy names in lower case. `Warnings.CapitalPrefixIsMissed` and `Warnings.CapitalPrefixExample` show
  it for the prefix "CI"; `Warnings.UnonboardedExact` carries the exact condition.

The documentation is silent on one more limit: first writer wins covers the sweep only, so an entry
called `vault_token` is delivered beside the minted token of that name
(internal/broker/broker.go:297-305). `BrokerLaws.ClashReachable` gives such a store and
`BrokerLaws.ResponseNamesDistinct` the exact condition.

## Model

| member | source | states |
|---|---|---|
| Text.LeqExact | internal/vaultx/sweep.go:301-318 | The order of keys and fields: equal, a proper prefix, or the smaller code point at the first difference |
| Text.SortExact | internal/vaultx/sweep.go:446-453 | Sorting keeps the strings and puts each before or equal to its successors in that order |
| Text.SpacesExactly | internal/vaultx/sweep.go:121-130 | The characters that trimming removes, one by one |
| Json.DecodeKeysExact | internal/vaultx/sweep.go:336-343 | A LIST body is accepted iff `data.keys` is an array of strings, null standing for an absent or empty part |
| Json.DecodeEntryExact | internal/vaultx/sweep.go:373-386 | An entry body is accepted iff `data.data` is an object and `data.metadata.custom_metadata` a map of strings; these are what is read |
| Json.DecodeDirectiveExact | internal/vaultx/sweep.go:201-210 | A directive body is accepted iff `data.data` is an object, which is what is read |
| Json.DecodeDerefExact | internal/vaultx/sweep.go:515-522 | A dereference is accepted iff `lease_id` is a string and `data` an object; these are what is read |
| Identity.FullNameHalves | internal/identity/identity.go:86-94 | A full name is accepted iff it is two non-empty slash-free halves around one slash; the halves come back lower-cased |
| Identity.ParseExact | internal/identity/identity.go:53-84 | A payload is accepted iff both objects are there, the full name is two non-empty halves and the event is non-empty; org, repo and event come back lower-cased, branch, forge id, commit and number as sent |
| Identity.ParsedIsWellNamed | internal/identity/identity.go:53-84 | A parsed identity has non-empty slash-free org and repo, a non-empty event, all three lower-case, and the branch bytes untouched |
| Identity.SlashInEventIsAccepted | internal/identity/identity.go:71-84 | An event with a slash passes validation |
| Identity.Esc | internal/identity/identity.go:101-125 | The loop writes exactly the escaped form of every byte |
| Identity.EscRoundTrip | internal/identity/identity.go:96-125 | A percent-decoder recovers every byte string from its encoding |
| Identity.EscInjective | internal/identity/identity.go:96-125 | Distinct branches have distinct encodings |
| Identity.EscShape | internal/identity/identity.go:96-139 | Output is lower-case, one slash-free segment, never dot-prefixed, non-empty for non-empty input, and two characters longer for each byte that does not stay |
| Identity.EscByteByByte | internal/identity/identity.go:101-139 | The encoding is one piece a byte: lower-case letters, digits, underscores, dashes and dots that are not first stay, every other byte is a percent sign and its two hex digits |
| Identity.EscFixed | internal/identity/identity.go:128-139 | The length is kept iff every byte is one that stays, and then the encoding is the name itself |
| Policy.DeriveExact | internal/policy/policy.go:9-39 | prefix/org/repo/event, and for a push, pull request, closed pull request, release or cron build with a branch also that with a slash and the encoded branch |
| Policy.EventPolicyInjective | internal/policy/policy.go:30-38 | Event policies agree iff org, repo and event agree |
| Policy.BranchPolicyInjective | internal/policy/policy.go:30-38 | Branch policies agree iff org, repo, event and the raw branch bytes agree |
| Policy.TierCollision | internal/policy/policy.go:30-38 | An event policy equals a branch policy iff org and repo agree and the event spells the other's event, a slash and its encoded branch |
| Policy.SharedPolicies | internal/policy/policy.go:30-38 | Exactly when two parsed identities share a derived policy, for all events |
| Policy.SlashFreeEventsNeverCollide | internal/policy/policy.go:30-38 | With slash-free events: sharing iff org, repo and event agree, and the two tiers never meet |
| Policy.SlashInEventCollides | internal/policy/policy.go:30-38 | A concrete pair of different identities that share a policy |
| Warnings.MatchWarningExact | internal/broker/broker.go:109-131 | The parser captures a name iff the warning matches the pattern with that name |
| Warnings.OddSpelling | internal/broker/broker.go:109-118 | All the white space, either case and the long s are accepted |
| Warnings.WarnedNonexistentPolicies | internal/broker/broker.go:123-131 | The loop collects the captured names in order |
| Warnings.AllWarned | internal/broker/broker.go:137-148 | True iff every policy is among the warned names |
| Warnings.WarnedInOrder | internal/broker/broker.go:123-131 | The names come in the order of the warnings, one for each that matches |
| Warnings.WarnedMember | internal/broker/broker.go:120-131 | A name is collected iff some warning names it |
| Warnings.WarningRoundTrip | internal/broker/broker.go:109-118 | Vault's printed warning reads back as the name iff every character is printable, its own lower case, and neither a quote nor a backslash; for all names, whatever the Unicode tables beyond ASCII |
| Warnings.PlainNamesRecovered | internal/broker/broker.go:120-148 | Mixed with unrelated warnings in any order, the missing plain policies are recovered exactly |
| Warnings.UnonboardedExact | internal/broker/broker.go:133-148 | The un-onboarded test fires iff every derived policy is missing and the event policy's name is plain |
| Warnings.CapitalPrefixIsMissed | internal/broker/broker.go:133-148 | Under the prefix "CI" every derived policy of any identity is missing and warned about, and the test does not fire |
| Warnings.CapitalPrefixExample | internal/broker/broker.go:109-131 | One such identity, with the policy asked for, the warning, and the other name read back |
| Warnings.DeriveNeverEmpty | internal/policy/policy.go:26-38 | Derive always asks for a policy, so the test is never vacuous |
| Vaultx.Accumulator.Add | internal/vaultx/sweep.go:86-95 | A candidate is kept iff its name is valid and new; the seen map stays the set of kept names |
| Vaultx.Client.Login | internal/vaultx/client.go:165-202 | Success sets both tokens, the lease, sessionOK, and clears canaryOK; failure clears only sessionOK; both are the lifecycle steps of module Protocol |
| Vaultx.Client.RenewSelf | internal/vaultx/client.go:206-225 | Success refreshes lease and sessionOK; failure clears only sessionOK; canaryOK is untouched; both are the lifecycle steps of module Protocol |
| Vaultx.Client.MintToken | internal/vaultx/mint.go:56-89 | One mint call under ironbark's own token; a reply without a token is a failure |
| Vaultx.Client.RevokeSelf | internal/vaultx/mint.go:98-109 | One revoke call as the given token |
| Vaultx.Client.RunCanary | internal/vaultx/canary.go:56-77 | One mint and, if it minted, exactly one revoke of that token; passes iff the mint is sound and the revoke succeeds |
| Vaultx.CanaryPassesExactly | internal/vaultx/canary.go:56-95 | The canary passes iff the self-test mint returned a token of type service, not renewable, not said to be a child, and its revoke succeeded |
| Vaultx.Client.Attempt | internal/vaultx/client.go:310-325 | After the attempt canaryOK is whether the canary passed, and the retry timer is armed iff not; calls and flag writes are the protocol's canary steps |
| Vaultx.Client.SessionLoop | internal/vaultx/client.go:287-341 | Its calls are those of the session trace, and session, timer and exit are where the trace's steps lead in module Protocol; every armed retry runs the canary, after a pass only renewals follow; left only by cancellation or a failed renewal |
| Vaultx.Client.Run | internal/vaultx/client.go:262-285 | Every run of the goroutine is a list of the protocol's lifecycle steps, its calls are the calls of those steps, and it ends cancelled or at a select or login |
| Vaultx.SessionCalls | internal/vaultx/client.go:287-341 | The calls of a session loop are exactly those of its steps: mints of the self-test policy and renewals under the session's token, and a revoke of each token minted |
| Vaultx.EveryRetryReruns | internal/vaultx/client.go:328-341 | While armed, the canary runs once for each retry among the wake-ups up to and including the first that ends the loop or whose canary passes, and never after; unarmed it never runs |
| Vaultx.CanaryFollows | internal/vaultx/client.go:310-325 | The canary's steps lead from its mint to the loop head, with the flag up iff it passed and the timer armed iff not |
| Vaultx.Client.VaultGet | internal/vaultx/sweep.go:158-174 | One read under the given token, recorded with its classified reply |
| Vaultx.Client.ReadIdentity | internal/vaultx/sweep.go:190-217 | One GET of mount/data/base/.identity under the token, classified as not enforced, bound, malformed or failed |
| Vaultx.Client.ReadConfig | internal/vaultx/sweep.go:230-259 | One GET of mount/data/base/.config under the token; the result does not depend on map iteration order |
| Vaultx.Client.SplitTrimCommaList | internal/vaultx/sweep.go:123-130 | The loop trims every piece of the split |
| Vaultx.Client.PinsOf | internal/vaultx/sweep.go:136-144 | The pins of an entry's custom metadata |
| Vaultx.Client.SortedFieldNames | internal/vaultx/sweep.go:446-453 | Whatever the map iteration order, the sorted key sequence |
| Vaultx.Client.AddFields | internal/vaultx/sweep.go:409-419 | The loop offers every string field in field order to the accumulator |
| Vaultx.Client.SweepDeref | internal/vaultx/sweep.go:503-556 | One step of the sweep machine for a reference, with the deref counter and the lease flag |
| Vaultx.Client.SweepForm | internal/vaultx/sweep.go:388-419 | The switch on pointer, shorthand and general form |
| Vaultx.Client.SweepEntry | internal/vaultx/sweep.go:359-420 | Runs the machine on one entry, on success and on failure, with both counters |
| Vaultx.Client.ListTierKeys | internal/vaultx/sweep.go:325-353 | One LIST; the plain keys in listed order |
| Vaultx.Client.SweepTier | internal/vaultx/sweep.go:305-318 | Runs the machine on one tier and stops at its first failure |
| Vaultx.Client.Sweep | internal/vaultx/sweep.go:282-299 | Runs the machine on all tiers: the same requests, result and counters; nothing is returned on failure |
| SweepLaws.FormsExact | internal/vaultx/sweep.go:105-119 | Pointer and shorthand are the two one-key maps; a string field is a JSON string, or null read as empty |
| SweepLaws.Kv2Exact | internal/vaultx/sweep.go:455-484 | A dereference is unwrapped iff data and metadata are both there and both objects or null |
| SweepLaws.GeneralForm | internal/vaultx/sweep.go:409-419 | Exactly one candidate per string field, named key_field, in strictly increasing order of the field names |
| SweepLaws.ValidNameExact | internal/vaultx/sweep.go:62-65 | A name is valid iff it is non-empty and made of lower-case letters, digits and underscores |
| SweepLaws.PlainKeyExact | internal/vaultx/sweep.go:345-351 | A key is read iff it is neither dot-prefixed nor a directory |
| SweepLaws.PlainKeysInOrder | internal/vaultx/sweep.go:345-352 | The plain keys of a listing are those, in its order |
| SweepLaws.NormalizedNames | internal/vaultx/sweep.go:97-103 | Normalising is idempotent and works character by character: dashes to underscores, capitals to lower case, the rest as it is |
| SweepLaws.CommaListPieces | internal/vaultx/sweep.go:121-130 | The list is the value's comma-free pieces in order, each without its surrounding white space |
| SweepLaws.Traffic | internal/vaultx/sweep.go:158-174 | Every request of a sweep is a read under the minted token, recorded with the server's reply |
| SweepLaws.FailsPromptly | internal/vaultx/sweep.go:278-298 | A sweep succeeds iff no reply is a hard failure or undecodable; such a reply is the last one, and nothing is returned; a denial is never one |
| SweepLaws.Accounting | internal/vaultx/sweep.go:305-420 | On success: one LIST a tier task, one read a plain listed key, one dereference a usable pointer |
| SweepLaws.SweepAccounting | internal/vaultx/sweep.go:282-298 | The number of requests of a whole successful sweep |
| SweepLaws.ListsTheTiers | internal/vaultx/sweep.go:291-296 | A sweep lists its tiers, each once, in their order, and stops early only on failure |
| SweepLaws.LeaseFlagExactly | internal/vaultx/sweep.go:515-526 | The lease flag iff some dereference came back with a non-empty lease id |
| SweepLaws.CountersExactly | internal/vaultx/sweep.go:368-370 | The counters count the reads that were neither denied nor broken |
| SweepLaws.NoPointerChains | internal/vaultx/sweep.go:493-556 | Every dereference follows the pointer the read just before returned, so none follows another |
| SweepLaws.Footprint | internal/vaultx/sweep.go:325-367 | Every LIST names one of the tiers, every entry read a plain key of one |
| SweepLaws.FootprintUnderBase | internal/vaultx/sweep.go:265-289 | Every LIST and entry read lies under the identity's own org and repo |
| SweepLaws.DirectivesNeverSwept | internal/vaultx/sweep.go:320-360 | A plain key of a tier never has the path of a directive |
| SweepLaws.SweepReadsNoDirective | internal/vaultx/sweep.go:282-360 | No LIST and no entry read in a sweep's record is the read of a directive; only a reference can lead to one |
| SweepLaws.DisjointFootprints | internal/vaultx/sweep.go:261-289 | Identities that differ in org or repo have disjoint footprints |
| SweepLaws.Locality | internal/vaultx/sweep.go:282-298 | A run depends only on the replies to the requests it makes |
| SweepLaws.Isolation | internal/vaultx/sweep.go:282-298 | Changes outside the own base and the followed references alter nothing |
| SweepLaws.OtherReposCannotAlter | internal/vaultx/sweep.go:282-298 | What another org or repo stores alters nothing, unless a reference leads there |
| SweepLaws.ListingOrderIrrelevant | internal/vaultx/sweep.go:301-318 | Permuting LIST replies changes neither requests, outcome nor candidates |
| SweepLaws.SweepIgnoresListingOrder | internal/vaultx/sweep.go:282-318 | For whole sweeps: same requests, same result, same lease flag |
| SweepLaws.FoundInOrder | internal/vaultx/sweep.go:67-72 | For every server: candidates come out by tier, most specific first, and by key within a tier, in the non-strict order |
| SweepLaws.FoundInStrictOrder | internal/vaultx/sweep.go:301-420 | If no listing repeats a key: candidates come out in strictly increasing order of tier, key and field |
| SweepLaws.KeepIsFirsts | internal/vaultx/sweep.go:67-95 | First writer wins is exactly the filter of the first valid candidate of each name |
| SweepLaws.NamesUnique | internal/vaultx/sweep.go:79-95 | Result names are valid and distinct |
| SweepLaws.MostSpecificWins | internal/vaultx/sweep.go:269-299 | For every server: valid distinct names, one for every valid name offered, each with value and pins of an offer that no other offer of the name precedes by tier and key |
| SweepLaws.StrictestWins | internal/vaultx/sweep.go:67-95 | Each secret is the one offer of its name that strictly precedes all others by tier, then key, then field, strings compared at their first difference; so every collision is decided, fields of one entry included |
| SweepLaws.FindsWhatIsOffered | internal/vaultx/sweep.go:282-298 | On a steady store the candidates are exactly those the store offers |
| SweepLaws.FindsWhatTiersHold | internal/vaultx/sweep.go:282-420 | On a steady store a candidate is found iff it is: of a plain key of a tier's listing, in a readable entry, a string field or one of the reference's target, under the specified name, with the entry's own pins |
| SweepLaws.SweepSpecified | internal/vaultx/sweep.go:282-420 | On a steady store the candidates are, in order and multiplicity, those of the tiers, of each tier's sorted plain keys, of each entry's sorted fields; the result is the first valid one of each name |
| SweepLaws.HidingIsFiltering | internal/vaultx/sweep.go:278-298 | Denying any set of requests gives exactly the sweep of the rest, and never a failure |
| SweepLaws.RevealingIsMonotone | internal/vaultx/sweep.go:67-95 | Revealing drops no name and changes a secret only in favour of a revealed, earlier candidate |
| SweepLaws.VisibilityIsMonotone | internal/vaultx/sweep.go:278-298 | Both, for the results of whole sweeps |
| SweepLaws.TiersMirrorPolicies | internal/vaultx/sweep.go:282-289 | With equal prefixes the tiers are the derived policies, most specific first, then the base |
| Protocol.AlwaysInv | internal/vaultx/client.go:268-341 | The session and ledger invariants hold in every state of every interleaving |
| Protocol.TokenLedger | internal/broker/broker.go:216-239 | In every run only minted tokens are revoked, none twice; a settled token was kept by a 200 and never revoked, or revoked exactly once |
| Protocol.DeliveredTokenLives | internal/httpapi/server.go:166-178 | A client answered 200 holds a token that is not revoked at any later point |
| Protocol.AbandonedExactly | internal/httpapi/server.go:160-178 | An answered, finished request got no 200 yet kept its token iff the schedule has both its Timeout and its Conclude with 200 |
| Protocol.NoDeadlineNoAbandonment | internal/httpapi/server.go:166-178 | In a run without the request's Timeout: one revoke iff the client was answered anything but 200 |
| BrokerLaws.AnyDeliveryCanBeAbandoned | internal/httpapi/server.go:172-177 | For every Handle that ends in 200 there is a run in which the request takes exactly that Handle's steps, the deadline fires before the last, and the token is never revoked |
| BrokerLaws.AbandonedReachable | internal/httpapi/server.go:172-177 | Such a run for a concrete store |
| Protocol.CanaryFreshness | internal/vaultx/client.go:181-199 | Whenever canaryOK reads true a canary passed since the latest login; the API token is always the recorded one |
| Protocol.PassesExactly | internal/vaultx/canary.go:56-95 | In every run a canary passes at a step iff that step is the successful revoke of an earlier mint of a service token, not renewable and not said to be a child |
| Protocol.SessionFlagExact | internal/vaultx/client.go:206-222 | While the goroutine runs, sessionOK iff it is inside a session loop |
| Protocol.StaleCanaryExactly | internal/vaultx/client.go:206-212 | canaryOK without a session iff some failed renewal, of a session whose canary had passed, has no later login |
| Protocol.StaleCanaryReachable | internal/vaultx/client.go:206-212 | A run that mints a request token in that state |
| Protocol.MintsAreGated | internal/broker/broker.go:190-211 | Every request-side mint comes after a gate read of that request at which a canary had passed in the then-current login |
| Protocol.ClosedGateIsSilent | internal/broker/broker.go:190-194 | A request whose gate reads false never calls Vault |
| Protocol.RetryInvariant | internal/vaultx/client.go:303-341 | At each loop head: retry armed iff the last canary failed iff canaryOK is false iff no canary passed since the login |
| Protocol.PassedCanaryNotRerun | internal/vaultx/client.go:310-341 | A passed canary is not run again before the next login |
| Protocol.LoopExits | internal/vaultx/client.go:328-341 | The session loop is left only by cancellation or a failed renewal |
| Broker.Broker.SplitTrimCommaList | internal/broker/broker.go:157-167 | Nothing for an empty value, else the trimmed pieces |
| Broker.Broker.SecretNames | internal/broker/broker.go:171-180 | The names, in order |
| Broker.Broker.DeliverAll | internal/broker/broker.go:288-295 | The swept secrets in order, with the request's event where no pin is set |
| Broker.Broker.SweepAndRespond | internal/broker/broker.go:281-331 | Sweep, then the response or its error, as the specified run |
| Broker.Broker.Proceed | internal/broker/broker.go:246-331 | Everything below the mint, as the specified run |
| Broker.Broker.Handle | internal/broker/broker.go:185-331 | A whole Handle: result and calls are those of the specified run, the deferred revoke included |
| BrokerLaws.StatusesAgree | internal/broker/broker.go:60-93 | 200 iff ok, 502 iff error, 204 iff unonboarded or identity mismatch; no secrets off 200 |
| RecordLaws.MintAsksExactly | internal/broker/broker.go:196-211 | The first call behind an open gate: a mint under ironbark's token for exactly the derived policies, the six metadata fields, the pipeline number in decimal, and the display name; made iff a token came back |
| RecordLaws.CallsInOrder | internal/broker/broker.go:185-331 | Every call of every Handle in order: the mint, the GET of base/.identity, the GET of base/.config, the sweep, the revoke, each only if what precedes lets it through |
| RecordLaws.HandleListsTheTiers | internal/broker/broker.go:281-282 | The LISTs of a Handle are, in order, the branch's tier, the event's and the base, all of them on a 200 |
| RecordLaws.OutcomeTable | internal/broker/broker.go:185-331 | Status and outcome of every Handle, case by case, from Vault's replies |
| RecordLaws.SteadyDelivery | internal/broker/broker.go:281-331 | A 200 from a steady store: the first valid candidate of each name over the tiers as the store holds them, the token with its stored image pins unless withheld, the address |
| RecordLaws.AuditExactly | internal/broker/broker.go:185-244 | The audit record: policies asked for, policies warned about, accessor, lifetime, names delivered |
| BrokerLaws.RevokesByOutcome | internal/broker/broker.go:190-239 | A closed gate makes no call; otherwise one mint, and nothing else if it fails; reads under its token, and exactly one revoke of it iff the status is not 200 |
| BrokerLaws.DeliversExactly | internal/broker/broker.go:190-331 | A 200 iff, in terms of Vault's replies: open gate, service token, some derived policy that no warning names, binding absent or the payload's, config absent or all strings, no fatal reply in the sweep, and a candidate with a valid name or a token that is not withheld |
| BrokerLaws.SweepFailureRevokes | internal/broker/broker.go:281-285 | A failed sweep ends in 502: the fatal read, then the one revoke |
| BrokerLaws.ResponseConservation | internal/broker/broker.go:287-331 | On 200: the swept secrets in order, the token with its stored image pins unless the stored config withholds it, the address if advertised; something besides the address; no empty events list |
| BrokerLaws.ResponseNamesDistinct | internal/broker/broker.go:297-325 | Response names are distinct iff no swept secret has a name the broker adds |
| BrokerLaws.ClashReachable | internal/broker/broker.go:297-305 | A concrete store for which a 200 carries `vault_token` twice |
| BrokerLaws.ConfigReadExactly | internal/vaultx/sweep.go:219-259 | A config is read iff absent or all strings, and is then exactly the stored map |
| BrokerLaws.SuppressionHonoured | internal/broker/broker.go:297-305 | With `vault_token` stored as "false" a 200 carries the swept secrets and the address only |
| BrokerLaws.DirectivesNeverDegrade | internal/broker/broker.go:260-279 | A 200 means the identity binding and the config were absent or sound |
| BrokerLaws.MismatchExactly | internal/broker/broker.go:260-270 | identity_mismatch iff the binding is readable and is not the payload's forge id as a non-empty string |
| BrokerLaws.UnonboardedDetection | internal/broker/broker.go:252-256 | Handle stops as un-onboarded before any read iff every derived policy is missing and prints unchanged |
| BrokerLaws.HandleFollowsProtocol | internal/broker/broker.go:185-331 | Every Handle is a run of the protocol's handler, reads and revoke under its own token, and ends it with its own status and token |
| BrokerLaws.CanaryFollowsProtocol | internal/vaultx/canary.go:56-77 | The client's canary, flag writes included, is a sequence of the whole system's steps and changes exactly the flag, the timer and the ledger entry of its token |
| Httpapi.CallHandler | internal/httpapi/server.go:166-178 | The handler's result or the synthesized 502, the latter only after the deadline; either when both are ready |
| Httpapi.SelectFollowsProtocol | internal/httpapi/server.go:160-178 | After any run that left the request unanswered, whatever the select may answer is a step, Deliver or Timeout, with which that run goes on, and the code written is that of the answer it records |
| Protocol.AnsweredOnce | internal/httpapi/server.go:160-178 | In every run a request is answered by at most one step, reads as answered iff there was one, and keeps that answer for ever |
| Httpapi.WhatTheClientKnows | internal/httpapi/server.go:149-178 | In every run: a body means that the minted token is not revoked then or later; no body and a finished handler mean that it was revoked once, unless the deadline beat a conclusion with 200 |
| Httpapi.RenderResult | internal/httpapi/server.go:249-278 | 200 with every secret in order, 204 and 502 empty, nothing else |
| Httpapi.RenderedHandle | internal/httpapi/server.go:149-156 | The client sees the handler's status, and a non-empty body on exactly the deliveries |

## Left out

- Signature verification (`internal/wpsign`): the cryptography and the header parsing are not part of this model.
- Configuration, wiring and process start-up (`internal/config`, `cmd/ironbark`): one-branch facts only.
- JSON lexing, Go's case-insensitive matching of struct field names, and duplicate object keys: bodies are decoded values.
- HTTP transport, Vault client retries and URL cleaning: a path is the raw string handed to `vaultGet`.
- Vault's ACL evaluation and the lease cascade of a revoked token: behaviour of the server, which is arbitrary here.
- Logging, audit rendering and Prometheus, apart from the two sweep counters, which are modelled as always wired.
- Real time: timers and deadlines fire at any point; no duration is stated. `Run` takes a list of the turns of its endless loop, and `SessionLoop` the list of its wake-ups.
- The detached context of the deferred revoke: a revoke attempt may succeed or fail here whatever the request's deadline.
- Unicode case folding beyond ASCII: `Lower` folds ASCII and the two other code points that fold into ASCII (U+0130 and U+212A), which decides the validity of secret names exactly; other capitals in org, repo and event names stay as they are. (Vault's own lower-casing and `%q` are left open beyond ASCII.)
- `sort.Strings` is the standard library's; it is represented by a sort whose result its contract determines.
- Meta: the branch in the mint's metadata is shown byte by byte as characters.
