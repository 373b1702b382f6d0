# Verification of the grabatus service core

A Dafny model of the request pipeline of `grabatus_service_core`, of the URI and reference
parsers its guarantees rest on, and of its storage stack, with proofs about every run, every input
and every behaviour of the ports. Verify it with `dafny verify dfyconfig.toml`.

## How the program is modelled

* **Runs.** `Ports.dfy` makes every port an adversary: a function of the whole history of port calls
  made before, which may answer, refuse with a typed error, or let any other exception through. A write
  may reach the store even when its call fails. `Pipeline.dfy` says what one run does as a function of
  that history: its result and the calls it adds, each recorded with its arguments and its reply.
  Results distinguish success, a typed `GrabatusServiceError` turned into an error result, and an
  exception that escapes. `Runner.dfy` holds the runners as objects that call their ports in the loops
  the program has, keep the log in a field, and are proved against those functions.
* **Contracts.** `Contracts.dfy` writes validation and dump out over JSON trees: required and unknown
  keys, bounds, patterns, literals, role uniqueness, credential references as text or as fields. The
  scalar readers of the validation library (UUID, date-time, URL, format hints) and the parameters model
  of a service are arbitrary functions; where a theorem needs it, it assumes that reading a dumped scalar
  gives it back. `parameters` is kept as its canonical JSON.
* **URIs.** `Urls.dfy` is `urllib.parse.urlparse` of Python 3.12 on ASCII text: stripping of leading
  control characters and spaces, removal of tab, CR and LF, scheme, authority, query, fragment and
  parameters. What the `ipaddress` module says of a bracketed host is a function parameter. `Base64.dfy`
  is the strict decoder of the same version.
* **Storage.** `Storage.dfy` has the three storage classes as heap objects that may share adapters and
  stores, with two arbitrary codecs whose decompression undoes their compression.

| file | contents |
|---|---|
| `Outcomes.dfy`, `Text.dfy`, `Dicts.dfy`, `Json.dfy` | outcomes, string operations, insertion-ordered dictionaries, JSON trees |
| `Duplicates.dfy`, `Registry.dfy`, `Base64.dfy`, `PubSub.dfy` | duplicate report, service registry, message envelope |
| `Urls.dfy`, `Security.dfy`, `Addressing.dfy`, `SecretRefs.dfy` | URI readings, tenant policy, secret references |
| `Contracts.dfy`, `Readouts.dfy` | contract codec, compute context, readout gate |
| `Ports.dfy`, `Pipeline.dfy`, `Runner.dfy`, `Storage.dfy` | ports, runs, runner objects, storage objects |
| `EffectOrder.dfy`, `Givens.dfy`, `Totality.dfy`, `Ownership.dfy` | order, arguments, receipts and targets of the effects of a run |
| `Verdicts.dfy`, `Progress.dfy` | how a run ends and why, and when it succeeds |
| `Deployment.dfy`, `Redelivery.dfy`, `Interleaving.dfy` | receiver and worker against monolith; repeated and interrupted runs; runs at the same time |
| `Stacked.dfy` | the storage stack as the storage port of a run |
| `Witnesses.dfy`, `Convergence.dfy` | a working deployment for every contract that can have one, and the contracts redelivery does not settle |

## What turned out to need a condition

* A `gs` URI with "?", "#", tab, CR or LF is judged by the policy and addressed by the Cloud Storage
  adapter under different names; without them the two readings agree (`Addressing.AuthorizedIsAddressed`).
  So an accepted URI can address an object outside its user's folder, such as `gs://p-t/user_1?x`
  (`Addressing.QueryIsAddressedNotJudged`). The addressed object is the tenant's and the user's exactly
  when no tab, CR or LF stands in the bucket as far as the tenant's prefix goes and, with the user check,
  none of the five in the first folder (`Addressing.AddressedObjectIsOwned`,
  `Ownership.TouchesOwnObjectsOnly`).
* The composite store routes some accepted URIs by another scheme than the judged one: those with a
  character outside the scheme alphabet before the first "://" (`Addressing.RoutedByJudgedScheme`), such as
  a leading space, or no "://" (`Addressing.SpaceIsRouted`, `Addressing.NoAuthority`).
* A credential reference given as an object may hold characters its text form cannot carry, so a receiver
  can dispatch a contract whose worker reads another secret. The worker admits the same contract exactly
  when every reference is printable (`Deployment.WorkerAdmitsTheSameExactly`,
  `Contracts.FieldsMayNotSurviveTheDump`).
* A backend that omits a declared output ends the run in an uncaught lookup failure after the outputs
  before it were written (`Totality.MissingOutputEscapes`); one that returns what it declares cannot.
* The readout's bound of ten artefacts is the number of service outputs except under protocol 1.0 with
  eleven service outputs (`Totality.ArtifactsFitExactly`).
* Strict base64 decoding accepts a text the encoder would not write exactly when unused bits of its last
  symbol are set or an "=" follows a complete group (`Base64.EncodeDecodeExactly`,
  `Base64.SurplusPadAccepted`).
* Of a contract that can be admitted and authorized at all, redelivery converges for every deployment
  exactly when it reads nothing it writes. A settled store stays settled, and runs at the same time settle
  it, exactly when, besides, no two of its outputs share a destination (`Convergence.ConvergesExactly`,
  `Convergence.StaysExactly`, `Convergence.TogetherExactly`). Validation admits contracts of both other
  kinds (`Convergence.BothKindsAreAdmitted`).
* `docs/integration_contract.md:118-120` says cross-tenant access is rejected. The policy compares prefixes
  of names, so a tenant reaches the buckets of every tenant whose name begins with its own, such as "t"
  those of "t2" (`Security.LongerTenantIsOpen`). Two identities share a bucket URI exactly when one tenant
  is a prefix of the other and, with the user check, the user is the same (`Security.SharedUriExists`).
* `docs/integration_contract.md:115-117` says the receiver de-duplicates on the request id, and
  `docs/integration_contract.md:236-238` that errors also notify the webhook. The code does neither, and
  the model follows the code: `Deployment.DispatchedAgain`, `EffectOrder.AcknowledgedExactlyOnSuccess`.

## Model

| member | source | states |
|---|---|---|
| `EffectOrder.RunOrder` | src/grabatus_service_core/runner/runner.py:98-150 | Over every run and every port behaviour: no call before a contract is admitted; then the calls are a prefix of the contract's plan (authorize all URIs, resolve all references, read all inputs, stamp, compute, write all outputs, notify), only the last may have failed, and a success made them all. |
| `EffectOrder.AuthorizedBeforeAnythingElse` | src/grabatus_service_core/runner/steps.py:105-122 | Whenever a run does anything but ask the authorizer, every URI of the contract has passed the allowlist and an earlier authorizer call allowed it. |
| `EffectOrder.WritesAreGated` | src/grabatus_service_core/runner/steps.py:181-235 | Every write comes after a compute call of this contract whose result passed the readout gate, targets a declared output, and stores what that result holds for its role. |
| `EffectOrder.NotifyComesLast` | src/grabatus_service_core/runner/runner.py:124-139 | A notification is the last call of its run, directly after one successful write per declared output, in contract order. |
| `EffectOrder.AcknowledgedExactlyOnSuccess` | src/grabatus_service_core/runner/runner.py:135-150 | The webhook acknowledges a notification of exactly the runs that end well; no error is reported to it. |
| `Verdicts.CallsDecide` | src/grabatus_service_core/runner/steps.py:105-235 | Processing fails with an error if and only if its calls show that error's reason: the last call failed with it, the next URI is refused by the allowlist with it, the gate refuses the backend's answer with it, or the next output is missing from that answer. |
| `Verdicts.RunVerdict` | src/grabatus_service_core/runner/runner.py:98-150 | The same for whole runs: a typed reason becomes the error result under the contract's request id, any other is let through. |
| `Verdicts.RepliesAreThePorts` | src/grabatus_service_core/runner/runner.py:98-150 | Every call of a run is about the run's contract (its URIs, identity, references, specifications, parameters, context, callback), and its recorded reply is the port's answer to that after exactly the calls before it. |
| `Verdicts.RaisedExactly` | src/grabatus_service_core/runner/runner.py:149-150 | An exception escapes an admitted run exactly when its last call crashed with it, the next output is missing from the backend's answer, or the next URI has a bracketed host the URL parser refuses; the readout gate lets none through. |
| `Progress.WillingRunsSucceed` | src/grabatus_service_core/runner/runner.py:98-148 | A validated contract is processed to success exactly when its authorization step goes well, if the other ports refuse nothing asked about it and the backend returns every output and a readout of the contract. |
| `Progress.PolicyDecidesSuccess` | src/grabatus_service_core/runner/steps.py:105-122 | With such ports and the tenant policy as authorizer, an admitted message ends in success exactly when the allowlist and the policy let every URI of its contract pass. |
| `Witnesses.ServedWhole` | src/grabatus_service_core/runner/runner.py:98-148 | Every validated contract with readable URIs, and `model_readout` declared under 1.1, has a deployment over an in-memory store that meets those hypotheses and redelivery's, and whose every run succeeds. |
| `Witnesses.ServableExactly` | src/grabatus_service_core/runner/runner.py:100-109 | Those are exactly the contracts that some deployment with the same scalar readers admits and authorizes. |
| `Witnesses.SomeRunSucceeds` | src/grabatus_service_core/runner/runner.py:98-148 | A concrete contract and deployment, under a concrete tenant policy, whose run succeeds. |
| `Givens.EveryCallIsRightlyGiven` | src/grabatus_service_core/runner/steps.py:125-178 | In every run the backend gets exactly the declared input roles, all it requires and none it does not accept; and each read and write uses the credentials resolved in that run for its own reference, or empty ones if it has none. |
| `Givens.BackendGetsWhatWasRead` | src/grabatus_service_core/runner/steps.py:137-178 | Every compute call is given exactly the bytes of the reads just before it, one per input in contract order, the contract's parameters, and the context stamped with the clock's answer. |
| `Givens.RoleCheckExactly` | src/grabatus_service_core/runner/runner.py:192-236 | The role check accepts exactly the contracts with all required roles, only accepted ones, and the output roles of the backend plus `model_readout` from protocol 1.1. |
| `Deployment.SplitRefinesMonolith` | src/grabatus_service_core/runner/runner.py:98-190 | When a receiver dispatched, the worker's run on the dispatched bytes has the whole result and exactly the calls of a monolith run on the original message, if every reference is printable and the ports answer by the effects so far. |
| `Deployment.WorkerAdmitsTheSameExactly` | src/grabatus_service_core/runner/runner.py:172-179 | The worker admits the receiver's contract if and only if every credential reference in it is printable. |
| `Deployment.FailuresAgree` | src/grabatus_service_core/runner/runner.py:152-190 | If admission or authorization fails, receiver and monolith return the same error under the same request id, having asked nothing but the authorizer. |
| `Deployment.SharedSplitIsMonolith` | src/grabatus_service_core/receiver/runner.py:65-107 | The shared receiver, which leaves parameters opaque and checks no roles, followed by the typed worker, gives the monolith's result and calls, errors included, if every reference is printable and the ports answer by the effects so far. |
| `Deployment.SharedWorkerAdmitsTheSameExactly` | src/grabatus_service_core/receiver/runner.py:69-95 | Of a message the monolith admits and the shared receiver took, the worker admits the monolith's contract if and only if every credential reference in it is printable. |
| `Deployment.SharedDispatchesOnce` | src/grabatus_service_core/receiver/runner.py:69-107 | A message is dispatched at most once, as the last call, to the job registered for its service, with the dumped contract; an earlier error dispatches nothing. |
| `Deployment.DispatchedAgain` | src/grabatus_service_core/receiver/runner.py:65-95 | A redelivered message is dispatched again with the same job and bytes: nothing de-duplicates. |
| `Redelivery.WritesOfRun` | src/grabatus_service_core/runner/steps.py:137-235 | Every write of a run, complete or not, stores what the backend makes of the sources as they were at its start, and a complete run leaves the store overwritten at the destinations, in order; if the backend and the clock answer alike each time, and storage reads back what it acknowledged. |
| `Redelivery.RedeliveryConverges` | src/grabatus_service_core/runner/steps.py:137-150 | After any number of failed or killed runs of a message, a run that ends well leaves exactly what one run on the initial store leaves, if no input is read where an output is written, the backend and the clock answer alike each time, and storage reads back what it acknowledged. |
| `Convergence.ConvergesExactly` | src/grabatus_service_core/runner/steps.py:220-235 | That holds for every deployment, history, backend and store exactly for the contracts that read nothing they write, among the contracts some deployment admits and authorizes; for every other of these a deployment is given for which it fails. |
| `Redelivery.RedeliveryIsSingleRun` | src/grabatus_service_core/runner/steps.py:220-235 | Two deployments, one after arbitrary failures and one in a single run with other port behaviour, leave the same store, under the same conditions. |
| `Redelivery.SettledStays` | src/grabatus_service_core/testing/storage.py:41-66 | After a complete run, no later delivery, whole or cut short, changes the store again, under the same conditions and if no two outputs share a destination. |
| `Convergence.StaysExactly` | src/grabatus_service_core/runner/steps.py:227-235 | That holds for every deployment and history exactly for the contracts that read nothing they write and write no place twice, among the contracts some deployment admits and authorizes. |
| `Convergence.BothKindsAreAdmitted` | src/grabatus_service_core/contract/base.py:46-71 | Concrete validated contracts: one that reads a URI it writes, one with two outputs at one URI. |
| `Redelivery.DeliveriesStayAt` | src/grabatus_service_core/runner/steps.py:227-235 | Any history of deliveries, whatever its ports do, leaves every URI other than the destinations as it was. |
| `Interleaving.InterleavingSettles` | src/grabatus_service_core/runner/steps.py:137-235 | Runs of one message at the same time, their calls in any order, each run failed, cut short or complete, leave what a single run leaves once one of them is complete; under the conditions of `Redelivery.SettledStays`. |
| `Interleaving.DeliveriesInterleave` | src/grabatus_service_core/runner/steps.py:137-235 | Deliveries one after the other are such runs. |
| `Convergence.TogetherExactly` | src/grabatus_service_core/runner/steps.py:227-235 | Runs at the same time settle the store, for every deployment and order of calls, exactly for the contracts that read nothing they write and write no place twice, among the contracts some deployment admits and authorizes. |
| `Stacked.StackIsFaithful` | src/grabatus_service_core/adapters/storage_compressed.py:42-85 | A storage port answering as the composite store reads back what it acknowledged, through the compression each specification names. |
| `Stacked.RunIsOperations` | src/grabatus_service_core/adapters/storage_composite.py:32-54 | Over such a port, the reads and writes of a run are answered as one sequence of operations on the composite store. |
| `Stacked.RedeliveryConvergesOnStack` | src/grabatus_service_core/adapters/storage_composite.py:29-54 | So redelivery converges over the composed stack, if no input is read where an output is written and the backend and the clock answer alike each time. |
| `Totality.NoDanglingLookup` | src/grabatus_service_core/runner/steps.py:220-258 | With a backend that returns bytes for each role it declares, no credential or output lookup of a run can miss, for any contract that passed the role check, whatever the ports do. |
| `Totality.MissingOutputEscapes` | src/grabatus_service_core/runner/steps.py:228-234 | Otherwise, with storage that refuses nothing, saving ends in an uncaught lookup failure at the first missing role, after a successful write of every output before it. |
| `Totality.ReceiptsLineUp` | src/grabatus_service_core/runner/runner.py:124-148 | On success the receipts, and the webhook's outputs, are one entry per declared output in contract order, each the reply to that output's write. |
| `Totality.ConservedInMemory` | src/grabatus_service_core/runner/steps.py:220-235 | With the in-memory store: each receipt names the role, the destination and the produced length, the destination is the one the backend's context gives for the role, and the final store is the initial one overwritten at the destinations, in order. |
| `Totality.WritesHaveTheirReadout` | src/grabatus_service_core/runner/steps.py:181-217 | A run that writes anything had a valid readout whose request and service blocks are the contract's. |
| `Totality.ArtifactsFitExactly` | src/grabatus_service_core/contract/readout/root.py:68-72 | The service artefacts of a contract that passed the role check number at most ten, except exactly for a 1.0 contract with eleven outputs and no `model_readout`. |
| `Ownership.TouchesOwnObjectsOnly` | src/grabatus_service_core/security/tenant_prefix_policy.py:39-109 | With the tenant policy as authorizer, a Cloud Storage object a run reads or writes is in a bucket of the contract's tenant and, when required, in its user's folder, if and only if no tab, CR or LF stands in the bucket as far as the tenant's prefix goes and, when the user is required, no "?", "#", tab, CR or LF in the blob's first folder. |
| `Ownership.TouchesOnlyAuthorized` | src/grabatus_service_core/runner/steps.py:105-150 | With the tenant policy as authorizer, every URI a run reads or writes is one the policy accepts for the contract's identity. |
| `Addressing.AuthorizedIsAddressed` | src/grabatus_service_core/adapters/storage_gcs.py:35-46 | Bucket and blob are the host and path the policy judged if and only if the URI has no "?", "#", tab, CR or LF. |
| `Addressing.QueryIsAddressedNotJudged` | src/grabatus_service_core/adapters/storage_gcs.py:36-46 | A concrete URI the policy accepts for a user whose query is part of the addressed object and not of the judged path, so that the object is outside the user's folder. |
| `Addressing.AddressedObjectIsOwned` | src/grabatus_service_core/adapters/storage_gcs.py:35-46 | For every accepted URI the adapter can parse, the addressed bucket has the tenant prefix and the blob's first segment is the user's, if and only if the bucket's prefix and the first folder hold none of the characters read differently. |
| `Addressing.RoutedByJudgedScheme` | src/grabatus_service_core/adapters/storage_composite.py:17-18 | The routing scheme is the judged scheme if and only if only scheme characters stand before the first "://". |
| `Addressing.SpaceIsRouted` | src/grabatus_service_core/adapters/storage_composite.py:17-18 | Accepted URIs on which they differ: any accepted one with a space put before it. |
| `Addressing.NoAuthority` | src/grabatus_service_core/adapters/storage_composite.py:17-18 | Another, with no "://" at all. |
| `Security.TenantSeparation` | src/grabatus_service_core/security/tenant_prefix_policy.py:39-109 | A bucket or BigQuery URI accepted for two identities has tenants of which one is a prefix of the other, and under the user check the same user. |
| `Security.SharedUriExists` | src/grabatus_service_core/security/tenant_prefix_policy.py:63-83 | Two identities with names a URI can carry share an accepted bucket URI if and only if one tenant is a prefix of the other and, under the user check, the user is the same. |
| `Security.LongerTenantIsOpen` | src/grabatus_service_core/security/tenant_prefix_policy.py:63-83 | A URI in the bucket of tenant "t2" that is accepted for tenant "t" too, user check or not. |
| `Security.DotSegmentsStayInside` | src/grabatus_service_core/security/uri_parser.py:38-47 | Removing dot segments by section 5.2.4 of RFC 3986 from an accepted path leaves its first segment the user's. |
| `Urls.AcceptedShape` | src/grabatus_service_core/security/uri_parser.py:27-52 | An accepted reading has a non-empty scheme of scheme characters, a host and path free of the delimiters and removed characters, an absolute path after a host, no "//" and no ".." segment, for any text. |
| `SecretRefs.RoundTripExactly` | src/grabatus_service_core/contract/secret_ref.py:41-67 | A reference's text reads back as the reference if and only if provider and name hold none of "/", "?", "#", version neither "?" nor "#", none a removed character, and the provider's brackets pass. |
| `SecretRefs.ParsedIsPrintable` | src/grabatus_service_core/contract/secret_ref.py:41-61 | Every parsed reference meets that condition, so parse-print-parse is stable. |
| `Contracts.FieldsMayNotSurviveTheDump` | src/grabatus_service_core/contract/secret_ref.py:34-39 | A concrete reference accepted by its fields whose dump reads back as another secret. |
| `Contracts.ContractBack` | src/grabatus_service_core/contract/base.py:31-71 | A validated contract dumps to JSON that validates to the same contract if and only if every credential reference is printable. |
| `Contracts.WireBack` | src/grabatus_service_core/contract/secret_ref.py:34-39 | Every validated contract is what some message validates to: the one with each reference written by its fields. |
| `Contracts.OpaqueThenTyped` | src/grabatus_service_core/contract/opaque.py:15-21 | Validating with opaque parameters, dumping, and validating with typed parameters equals typed validation of the original, refusals included, if every reference is printable and the scalar readers read back what they dump; and only then, of messages typed validation accepts. |
| `Contracts.ValidatedIsValid` | src/grabatus_service_core/contract/base.py:46-71 | Whatever validates has all sections within their bounds and patterns, 1 to 10 inputs, 1 to 11 outputs, distinct input roles and distinct output roles. |
| `Readouts.BlocksNeverRaise` | src/grabatus_service_core/ports/compute_context.py:90-106 | For a validated contract the readout's request and service blocks can always be built, and carry the contract's ids. |
| `Readouts.GateExactly` | src/grabatus_service_core/runner/steps.py:181-217 | For a validated contract the gate passes a result exactly when it holds a valid readout whose request and service blocks are the contract's. |
| `Readouts.ContextUris` | src/grabatus_service_core/ports/compute_context.py:49-88 | The context answers for every declared role with the destination its output is written to. |
| `Storage.CompositeStorage.Read` | src/grabatus_service_core/adapters/storage_composite.py:32-34 | Reading through routing, decompression and dictionary answers as the plain map the heap stands for. |
| `Storage.CompositeStorage.Write` | src/grabatus_service_core/adapters/storage_composite.py:36-54 | Writing answers as the plain map does, and the heap afterwards stands for the map with that one URI changed, adapters shared or not. |
| `Storage.CompositeStorage.Begins` | src/grabatus_service_core/adapters/storage_composite.py:29-30 | Any stack of adapters stands for some plain map to begin with. |
| `Storage.RunAll` | src/grabatus_service_core/adapters/storage_composite.py:29-54 | Any sequence of reads and writes is answered as the plain map answers it. |
| `Storage.ReadsLastWrite` | src/grabatus_service_core/adapters/storage_compressed.py:42-85 | A read with the compression of the last write to its URI gives that write's payload, whatever was done to other URIs between. |
| `Storage.KeepsEntry` | src/grabatus_service_core/testing/storage.py:51-66 | No sequence of operations changes a URI it does not successfully write. |
| `Storage.CompressedStorage.Read` | src/grabatus_service_core/adapters/storage_compressed.py:42-62 | The stored bytes, decompressed as the specification says, with each failure of the codec its own way. |
| `Storage.CompressedStorage.Write` | src/grabatus_service_core/adapters/storage_compressed.py:64-85 | The inner store gets the compressed payload, and nothing when the compression is unknown. |
| `Storage.InMemoryStorage.Read` | src/grabatus_service_core/testing/storage.py:41-49 | The object at the URI, or the typed refusal of an unsupported scheme or an absent object. |
| `Storage.InMemoryStorage.Write` | src/grabatus_service_core/testing/storage.py:51-66 | The dictionary changes at the URI only, and not at all on refusal. |
| `Runner.ServiceRunner.AuthorizeUris` | src/grabatus_service_core/runner/steps.py:113-121 | The loop's outcome and calls are those of the specification function. |
| `Runner.ServiceRunner.ResolveForSpecs` | src/grabatus_service_core/runner/steps.py:248-258 | The same for the credential loop. |
| `Runner.ServiceRunner.LoadInputs` | src/grabatus_service_core/runner/steps.py:137-150 | The same for the loading loop. |
| `Runner.ServiceRunner.SaveOutputs` | src/grabatus_service_core/runner/steps.py:220-235 | The same for the saving loop. |
| `Runner.ServiceRunner.ProcessContract` | src/grabatus_service_core/runner/runner.py:105-148 | The steps after admission, in order, stopping at the first failure. |
| `Runner.ServiceRunner.RunFullPipeline` | src/grabatus_service_core/runner/runner.py:98-150 | Result and log extension of a monolith or worker run. |
| `Runner.ServiceRunner.RunReceiver` | src/grabatus_service_core/runner/runner.py:152-190 | Result and log extension of a receiver run. |
| `Runner.ServiceRunner.Run` | src/grabatus_service_core/runner/runner.py:91-96 | Each mode runs its branch. |
| `Runner.BuildRunner` | src/grabatus_service_core/runner/runner.py:287-322 | A runner is refused exactly for receiver mode without a worker job. |
| `Runner.SharedReceiverRunner.Run` | src/grabatus_service_core/receiver/runner.py:65-107 | Result and log extension of a shared receiver run. |
| `Registry.FromEnvString` | src/grabatus_service_core/receiver/registry.py:40-67 | Accepts exactly the texts that are blank or whose items all split at the first colon into non-empty stripped halves with distinct names, and then returns exactly those entries. |
| `Registry.PrintedReadsBack` | src/grabatus_service_core/receiver/registry.py:40-67 | The comma-joined text of any well-formed registry is accepted and read as its entries. |
| `Registry.AcceptedIsPrintable` | src/grabatus_service_core/receiver/registry.py:52-66 | Every accepted text is read as well-formed entries. |
| `Registry.PrintParseStable` | src/grabatus_service_core/receiver/registry.py:40-67 | The printed form of an accepted text is accepted, and parses to the registry of the text. |
| `PubSub.DecodeEncode` | src/grabatus_service_core/adapters/message_pubsub.py:29-71 | Decoding the encoded envelope gives the payload back for every JSON object, and the typed refusal for any other JSON value. |
| `PubSub.Decode` | src/grabatus_service_core/adapters/message_pubsub.py:29-66 | Whatever the bytes, the result is a JSON object or the one typed error. |
| `Base64.DecodeEncode` | src/grabatus_service_core/adapters/message_pubsub.py:69-69 | Base 64 by section 4 of RFC 4648 round-trips every byte string. |
| `Base64.EncodeDecodeExactly` | src/grabatus_service_core/adapters/message_pubsub.py:51-51 | An accepted text is the encoder's own if and only if the unused bits of its last symbol are zero and no "=" follows a complete group. |
| `Base64.SurplusPadAccepted` | src/grabatus_service_core/adapters/message_pubsub.py:51-51 | "QUJD=" is accepted and reads as the bytes the encoder writes "QUJD" for. |
| `Duplicates.Duplicated` | src/grabatus_service_core/contract/duplicates.py:16-24 | Returns, strictly ascending, exactly the values occurring at least twice. |
| `Duplicates.EmptyReportIffDistinct` | src/grabatus_service_core/contract/base.py:55-71 | The report is empty, and so the validators accept, exactly when the values are pairwise distinct. |
| `Duplicates.ReportUnique` | src/grabatus_service_core/contract/duplicates.py:17-24 | The report is determined by the values. |
| `Dicts.DictOfDistinct` | src/grabatus_service_core/runner/steps.py:144-150 | A role-keyed dictionary is as long as the list it is built from exactly when the roles are distinct, and is then that list in order. |

## Left out

- HTTP, Cloud Storage, Secret Manager, Cloud Run, JWT and webhook clients, the web application and the command line: ports with arbitrary behaviour stand for them.
- Retries inside adapters and the bytes of gzip and zstd: a port call is one call, a codec is a pair of functions.
- `HostBlocklist`: the runner steps do not call it.
- Text of JSON and UTF-8: printing and parsing are a pair of functions assumed inverse where a theorem needs it.
- Non-ASCII text: case folding, white space, digits of patterns and the host check of `urlparse` are modelled on ASCII.
- URL, UUID, date-time and format-hint syntax: arbitrary readers that are stable on what they dump.
- Lower-casing in the constructor of the scheme allowlist: the allowlist is the set it keeps.
- Prose fields of the readout and the wording of errors and metadata of error results: single checks with no bearing on a run.
- `write_mode`: carried by the contract; no modelled adapter looks at it.
- Observability: spans and metrics take no part in a run's result.
