# Verification of the Kubernetes broker

A Dafny model of the broker that turns catalog templates into Kubernetes objects, tracks their provisioning,
and reads credentials back out, with proofs of what its text processing, its protocols and its registries keep.
`dafny verify dfyconfig.toml` checks everything; no file depends on anything outside this directory.

## What is modelled

**Placeholders** (`Text`, `Pieces`, `Scan`, `Stages`). A text is parsed into plain characters and placeholders. The
broker replaces placeholder after placeholder in the whole text; the reference meaning is one substitution of all of
them at once. `Pieces.ChainSubstitutesIffSafe` says exactly when the two agree for all `$`-free values: when at no step
the key to be replaced also begins some other live text. `Scan.Separated` (no `$` that could still grow into a
placeholder stands before another one) and `Scan.ShorterLast` (no placeholder is a proper prefix of one that is not
replaced before it) are the textual conditions that give it. Without the second, `Scan.KeysInOrder` says what the chain
computes instead. `Embedding` is about texts with placeholders of their own that are inserted for other placeholders.

**Templates of objects** (`Blueprint`, `Markers`, `Encodings`, `Base64`, `SecretTemplates`). `adjust_params` and
`encodeByte64ToString`, with base64 as in section 4 of RFC 4648. `Encodings.EncodingIff` says exactly when the encoding
replaces the marked spans and nothing else, however many markers and quotes a line has. Where each line has one marker
and no later quote, that is when no marked value is a proper prefix of a later one (`Encodings.ClosedIff`); with two
markers on a line nothing is coded (`Encodings.TwoOnALine`). The random keys are `$random0` to `$random8`, as in the
code; the repository's README speaks of `$random1` to `$random9`.

**Credentials** (`Decimal`, `Ports`, `PortOrder`, `Envs`, `Replacement`, `Credentials`, `ClusterTemplates`). `getPort`
answers for the first resolvable placeholder of the current text, not for the one being replaced; `Ports.PortsAreOwnIff`
says exactly when every placeholder still gets its own port. `Envs.ShorterFirstCorrupts` shows what goes wrong when a
name is a prefix of a later one; the MySQL cluster plan (`$env_MYSQL_USER` in its mapping, `$env_MYSQL_USERNAME` in its
URI template) is an instance (`Envs.MySqlUri`). `Credentials.ClusteredMeaningIff` says exactly when a clustered plan is
free of it. `ClusterTemplates` has conditions on the three templates alone under which all this applies, whatever the
services. `Replacement` is the expansion of `$` in what `ReplaceAllString` inserts, here the list of hosts.

**Provisioning and polling** (`Cluster`, `State`, `Fabricator`, `LastOperation`, `HandlerRuns`, `Health`). The cluster is
a map from kind and name to labelled objects; every call may be done, refused, or done with its reply lost. `LastOperation` is a state
machine of any number of handlers and pollers: each report, call, creation, and each of a poll's reads is a step of its
own. `Fabricator.FabricateService` and `LastOperation.ServiceInstancesPut` are the same code as methods;
`LastOperation.ProgramMeaning` and, for every outcome, `HandlerRuns.OutcomeIsRun` tie the two together. An answer "failed" for a provisioning that took too long is taken
back when the handler reports again; `LastOperation.TimeoutIsFinalIff` says exactly when it is final. `LastOperation.PollIsRun`
ties the code of a poll to the machine. The description in the answer is always empty, because the code assigns it to a
variable of an inner scope.

**Binding** (`Bindings`, `EndToEnd`). The environment of an instance is read back from its workloads and secrets, and
`EndToEnd.ProvisionThenBind` follows one generated credential the whole way: from the template through the replacements
and the encoding into the secret, and from there into the text that a binding returns, for simple and clustered plans.

**Teardown, quota, jobs** (`Teardown`, `Quota`, `Jobs`, `Sets`). State machines of concurrent removers and of concurrent
callers of `GetOrCreateCluster`, and passes over jobs beside an environment in which a job may take any status until it
has finished. Each has the method with the code's loop beside it; that one call of it is a run in the machine is part of
`Teardown.RemoveCluster`, and `Quota.CallIsRun` for the callers. Three things the code does not guarantee are stated with
their exact conditions: an object may be lost with its cluster when no managed service or deployment is there
(`Teardown.CanBeLostIff`), a job without active pods may be deleted after it became active (`Jobs.NeverActiveIff`), and
the registry's secret may be created by a call that did not make the cluster (`Quota.SecretWithoutCluster`).

**Registries and tags** (`DynamicCatalog`, `Templates`, `Consul`). The catalog in memory with its array, its handlers as
an interleaved machine whose look-ups and updates are separate steps, the file store of custom templates with its
name-sorted listings, and the agent's services.

Code that updates state is written as methods and classes. Each is proved against a function or predicate, and the
properties are lemmas about these.

## Model

| member | source | states |
|---|---|---|
| Pieces.ChainSubstitutesIffSafe | catalog/kubernetes_service_blueprint.go:291-308 | for every template and key list, replacing key by key equals replacing all at once for all `$`-free values iff no step can capture foreign text |
| Pieces.UnsafeIsVisible | app/tap/credential_parser.go:133-136 | an unsafe step shows: there are `$`-free values for which the chain and the simultaneous substitution differ |
| Scan.SeparatedIsSafe | app/tap/credential_parser.go:121-138 | separated placeholders, none a proper prefix of a later one, can be replaced one by one |
| Scan.KeysAreSafe | catalog/kubernetes_service_blueprint.go:291-308 | prefix-free keys can be replaced one by one in any order |
| Scan.KeysInOrder | app/tap/credential_parser.go:133-136 | keys that begin others, replaced one by one: one pass in which at every `$` the key that comes first in the order wins |
| Scan.FindAllRemaining | app/tap/credential_parser.go:180-183 | re-scanning a partly replaced text finds exactly the placeholders not yet replaced, in order |
| Stages.NextPass | app/tap/credential_parser.go:53-54 | a later pass over a partly expanded text replaces exactly its own kind of placeholder |
| Text.ReplaceFirst | catalog/kubernetes_service_blueprint.go:291-308 | replacing a key in a text: the leftmost occurrence, then those in the text behind it |
| Text.ReplaceNone | catalog/kubernetes_service_blueprint.go:291-308 | a text in which the key does not occur stays |
| Blueprint.AdjustParams | catalog/kubernetes_service_blueprint.go:291-311 | the code's seventeen replacements and the encoding, or the panic on a short id, against the chain of the key table |
| Blueprint.EncodeByte64ToString | catalog/kubernetes_service_blueprint.go:313-323 | the loop over the greedy matches, against its rounds |
| Blueprint.KeysArePrefixFree | catalog/kubernetes_service_blueprint.go:293-308 | none of the seventeen keys is a prefix of another |
| Blueprint.ParamsMeaning | catalog/kubernetes_service_blueprint.go:291-308 | the chain is one left-to-right substitution of all keys and leaves no key; it fails iff the service id has fewer than 15 bytes |
| Blueprint.ChainOfKeys | catalog/kubernetes_service_blueprint.go:291-308 | the result is the same for every order of the replacements, and no key survives |
| Blueprint.ParamsExpandIff | catalog/kubernetes_service_blueprint.go:291-308 | on any template: the chain substitutes simultaneously for all `$`-free values iff no step captures |
| Blueprint.ValuesInTurn | catalog/kubernetes_service_blueprint.go:291-308 | the order of the seventeen replacements, key by key: a value that is itself a later key is replaced in its turn |
| Blueprint.RandomValue | catalog/kubernetes_service_blueprint.go:306-308 | the k-th random key is `$random` with the digit k, and its value is the k-th string drawn |
| Blueprint.FixedValues | catalog/kubernetes_service_blueprint.go:291-331 | the values of the eight other keys, key by key: six are the request's own texts; the two short ids are the same, `x` and the first 15 characters of the service id without their dashes, in order |
| Base64.DecodeOfEncode | catalog/kubernetes_service_blueprint.go:319 | decoding inverts encoding on every byte string |
| Base64.Alphabet | catalog/kubernetes_service_blueprint.go:319 | the 64 symbols, by the table of section 4 of RFC 4648 |
| Base64.EncodeMeaning | catalog/kubernetes_service_blueprint.go:319 | the i-th four symbols are the bits of the i-th three bytes; of one or two bytes left over the bits are filled up with zeros and the symbols with `=` |
| Markers.MarksFound | catalog/kubernetes_service_blueprint.go:314-315 | where each marker is closed by the only later quote of its line, the greedy expression finds exactly the markers, also those without a value |
| Markers.MarksMeaning | catalog/kubernetes_service_blueprint.go:313-323 | for non-empty values besides: no marker is left, a second run changes nothing, and each code decodes to its value |
| Encodings.EncodingMeaning | catalog/kubernetes_service_blueprint.go:313-323 | with any number of markers and quotes on a line: each marker becomes the code of the first value that the expression takes and that begins the marker's own, followed by the rest of that |
| Encodings.EncodingIff | catalog/kubernetes_service_blueprint.go:313-323 | then exactly the marked spans are replaced by their codes iff of every marker that first value is the whole |
| Encodings.ClosedIff | catalog/kubernetes_service_blueprint.go:313-323 | with one marker per line and no later quote: iff no marked value, empty ones included, is a proper prefix of one not coded before it |
| Encodings.TwoOnALine | catalog/kubernetes_service_blueprint.go:314-315 | in a text whose two markers are on one line they are taken for one, and the text is left as it was |
| Encodings.OneMarker | catalog/kubernetes_service_blueprint.go:313-323 | one marker closed by the last quote of its line becomes the code of its value, whatever stands around it |
| SecretTemplates.SecretMeaning | catalog/kubernetes_service_blueprint.go:291-323 | a secret template, line by line: all keys filled in, every data value replaced by the base64 of its filled-in text, nothing else changed |
| Decimal.NumeralOf | app/tap/credential_parser.go:172 | a number's text: its digits, one digit more for every factor of ten |
| Decimal.AtoiOfNumeral | app/tap/credential_parser.go:163-173 | a number's text is read back as the number, also with leading zeros or a sign, iff it fits in 64 bits |
| Decimal.AtoiRejects | app/tap/credential_parser.go:163-173 | a text with another character, or without digits, is no number |
| Ports.GetPort | app/tap/credential_parser.go:155-178 | over the placeholders and ports by their places: the NodePort of the first port with the number of the first placeholder that is a target; "" iff none is; an error iff a placeholder or a target that is met before is no number |
| Ports.PortTokens | app/tap/credential_parser.go:180-183 | in a text `$port_` with digits is a placeholder, and the digits are its number |
| Ports.FirstPortMeaning | app/tap/credential_parser.go:155-178 | the same of any placeholders and ports |
| Ports.OwnPortAt | app/tap/credential_parser.go:155-178 | a placeholder's own port: the NodePort of the first port whose target is its number, "" when none is |
| Ports.ParsePorts | app/tap/credential_parser.go:140-153 | the loop that re-scans the text it rewrites, against its rounds |
| Ports.PortsMeaning | app/tap/credential_parser.go:140-183 | `parsePorts` is one simultaneous substitution, in which each placeholder gets the port of the first resolvable one not yet replaced; errors agree |
| PortOrder.PortsSubstitutedIff | app/tap/credential_parser.go:140-183 | placeholders whose numbers fit, also when one begins another: `parsePorts` is that substitution for all ports iff no placeholder is a proper prefix of one not replaced before it |
| Ports.PortsAreOwnIff | app/tap/credential_parser.go:140-178 | every placeholder gets the NodePort of the first service port with its own target iff none that resolves to nothing is replaced while one that resolves is left |
| Envs.AppendMaps | app/tap/credential_parser.go:185-190 | the second map wins |
| Envs.CollectEnvs | app/tap/credential_parser.go:126-131 | the environments of all containers of all pods, merged in order |
| Envs.MergedLastWins | app/tap/credential_parser.go:126-131 | a name is defined iff some container defines it, and the last container of the last pod wins |
| Envs.ParseEnvs | app/tap/credential_parser.go:121-138 | the code's loop over the placeholders, against the chain of replacements |
| Envs.EnvMeaning | app/tap/credential_parser.go:121-138 | what the merged environment has under a name: what the last container that defines it has, "" when none does |
| Envs.EnvInPlace | app/tap/credential_parser.go:121-138 | in the text, in the place of `$env_` and a name as far as its letters, dashes and underscores go, stands that value |
| Envs.EnvsExpandIff | app/tap/credential_parser.go:121-138 | every placeholder gets the value of its own variable, for all environments with `$`-free values, iff no step captures |
| Envs.SeparatedEnvs | app/tap/credential_parser.go:121-138 | in particular for separated placeholders without prefixes of later ones; missing names give the empty string |
| Envs.SeparatedEnvsIff | app/tap/credential_parser.go:121-138 | separated placeholders get their own values in all environments iff none is a proper prefix of one not replaced before it |
| Envs.EnvsInOrder | app/tap/credential_parser.go:121-138 | what the loop computes on any separated text: at each placeholder the first found one that begins it gives its value |
| Envs.ShorterFirstIsUnsafe | app/tap/credential_parser.go:133-136 | a placeholder replaced before a longer one that it begins makes the chain unsafe |
| Envs.ShorterFirstCorrupts | catalogData/mysql56/clustered/uri_cluster_template:1 | what becomes of a placeholder, in any text, when a shorter one that begins it was found first: the shorter one's value and its own last letters |
| Envs.MySqlUri | catalogData/mysql56/clustered/credentials-mappings.json:2-5 | the MySQL cluster plan: its URI names the user MYSQL_USER with NAME appended, whatever MYSQL_USERNAME is |
| Credentials.ParseSvcCredsForSimplePlan | app/tap/credential_parser.go:104-119 | only the first service is used; without services the template stays |
| Credentials.ParseUriClusteredPlan | app/tap/credential_parser.go:80-102 | the joined host list in the URI template, with the `$` of hosts expanded as `ReplaceAllString` does, inserted for `$uri`, or the first error |
| Replacement.ReplacedReference | app/tap/credential_parser.go:95 | in a text that replaces a match `$0` and `${0}` stand for the match, and every other reference for nothing |
| Replacement.ReplacedBehind | app/tap/credential_parser.go:95 | text without a dollar stays as it is, in front of what follows it |
| Replacement.ReplacedDollar | app/tap/credential_parser.go:95 | two dollars are one, and a dollar that begins no reference stays |
| Credentials.ParseSvcCredsForClusteredPlan | app/tap/credential_parser.go:59-78 | the joined node texts inserted for `$nodes`, or the first error |
| Credentials.ParseCredentialMappingAdvanced | app/tap/credential_parser.go:31-57 | the choice of the plan, then the service name, then the environment |
| Credentials.SimplePlanMeaning | app/tap/credential_parser.go:46-56 | host, ports, name and variables: four passes are one simultaneous expansion of the mapping as written, or its port error |
| Credentials.PassesInTurn | app/tap/credential_parser.go:31-57 | the order of the passes: host before ports, the URI before the nodes, both before name and variables; a later pass sees what an earlier one inserted |
| Credentials.NodeMeaning | app/tap/credential_parser.go:63-73 | a node is its template expanded at once with its own service's host, name and ports |
| Credentials.NodesMeaning | app/tap/credential_parser.go:59-78 | exactly one node per service, in service order, failing iff one of them fails |
| Credentials.HostsMeaning | app/tap/credential_parser.go:83-93 | one `host:port` per service in the same order, the port being that of the first placeholder of the template that resolves among its ports; it fails iff one of them fails |
| Credentials.OnePortHosts | app/tap/credential_parser.go:83-93 | a template that names one port: each host stands with its own service's NodePort for it |
| Text.SplitOfJoin | app/tap/credential_parser.go:76 | texts joined by a character that none of them has are got back by splitting |
| Text.JoinAt | app/tap/credential_parser.go:76 | the i-th of the joined texts stands where the lengths of those before it put it, with one separator between neighbours |
| Credentials.UriHosts | app/tap/credential_parser.go:83-96 | behind the text before it the URI has one list, whose parts at the commas are one `host:port` per service, in order, each with the NodePort of the first port with the template's number |
| Credentials.NodesInPlace | app/tap/credential_parser.go:62-76 | in the mapping the i-th node stands where the lengths of the earlier ones put it, one comma between neighbours |
| Credentials.UriMeaning | app/tap/credential_parser.go:95-96 | each `$hostname:$port_N` of the URI template becomes the list of all hosts, and the text around it stays |
| Credentials.UriReplaced | app/tap/credential_parser.go:95-96 | with any hosts: what stands there is the list with its `$` references expanded for the match |
| Credentials.AssemblyMeaning | app/tap/credential_parser.go:37-45 | inserting the URI for `$uri` and then the nodes for `$nodes` is one expansion of the two |
| Credentials.AssembledMeaning | app/tap/credential_parser.go:37-45 | the assembled text is separated, and its placeholders are those of the mapping with those of the URI and of the nodes in the inserts' places |
| Credentials.ClusteredMeaning | app/tap/credential_parser.go:37-56 | the whole clustered mapping: both inserts at once, then name and variables at once |
| Credentials.ClusteredMeaningIff | app/tap/credential_parser.go:37-56 | for three texts that fit together it has this meaning in all environments iff no placeholder of theirs is a proper prefix of one not replaced before it |
| Credentials.CommonMeaningIff | app/tap/credential_parser.go:53-56 | the last two passes expand name and variables at once in all environments iff no placeholder is a proper prefix of one not replaced before it |
| ClusterTemplates.TemplatesSuffice | app/tap/credential_parser.go:37-56 | conditions on the three templates, and hosts and names without `$`: the texts fit together whatever the services are, and their placeholders are read off the templates |
| ClusterTemplates.NumericAssembles | app/tap/credential_parser.go:59-93 | with numeric targets and placeholders whose numbers fit, every host and every node has its ports |
| Cluster.Api.Create | k8s/k8sfabricator.go:120 | creation adds the object or fails; it fails on a name that exists, and a lost reply may hide a success |
| Cluster.Api.Delete | k8s/k8sfabricator.go:389 | deletion removes the object or fails; it fails on a name that does not exist |
| Cluster.Api.List | k8s/k8sfabricator.go:360-362 | the objects of a kind with a label, each once |
| State.StateService.ReportProgress | state/state.go:53-58 | the record of the instance is the last report, of the others unchanged |
| State.StateService.HasProgressRecords | state/state.go:60-68 | there is a record iff something was reported |
| State.StateService.ReadProgress | state/state.go:70-75 | the last report by its place in the log, or the zero event |
| Fabricator.CreateStage | k8s/k8sfabricator.go:116-124 | one block: its header, then a report and a creation per object, stopping at the first error with FAILED |
| Fabricator.FabricateService | k8s/k8sfabricator.go:86-186 | on success the whole component in order: of each workload every container has its own variables, then TAP_K8S = "true", and then one more iff the parameter is a variable with a name; the other kinds as given; and the whole schedule of reports by name. On a failed creation a prefix of both and FAILED; nothing on bad parameters; when every call is done a creation fails only for a name that is taken or given twice |
| Fabricator.StagesMean | k8s/k8sfabricator.go:94-185 | the same of the objects and reports that the stages stand for |
| Fabricator.EscapeRules | k8s/k8sfabricator.go:107-108 | the escape of a name, character by character: `_` is doubled, `-` becomes `_`, others stay |
| Fabricator.FailureFollowsSchedule | k8s/k8sfabricator.go:116-185 | a failing run's reports before FAILED are a prefix of the schedule fixed by the sizes, one more for objects than were created |
| Fabricator.DeleteKind | k8s/k8sfabricator.go:378-394 | after success the instance has no object of the kind; other kinds and other instances are untouched either way |
| Fabricator.DeleteAllByServiceId | k8s/k8sfabricator.go:349-475 | on success exactly what is labelled with the instance's `service_id` is gone; on failure there is a kind, in the order accounts, services, stateful sets, deployments, secrets, claims, such that the kinds before it are gone and those behind it untouched; when every call is done it succeeds |
| Fabricator.DeletionUndoesCreation | k8s/k8sfabricator.go:349-475 | removing what carries the instance's label undoes the creation of any of its objects |
| Fabricator.FabricateThenDelete | k8s/k8sfabricator.go:116-185 | provisioning stopped anywhere, then any number of deletion attempts: a successful one restores the cluster, the others touch no other instance |
| Fabricator.EscapeReadsBackIff | k8s/k8sfabricator.go:104-109 | the escape of a name is read back iff no dash stands right before a separator |
| Fabricator.ShareEscapeIff | k8s/k8sfabricator.go:104-109 | two names share an escape iff they have the same normal form, as `--` and `_` have |
| Fabricator.EscapedByCharacter | k8s/k8sfabricator.go:107-108 | the two replacements act character by character and leave no dash |
| LastOperation.ServiceInstancesPut | app/tap/broker_api.go:115-154 | which reports each outcome files, with FAILED filed twice after a failed creation, and what was created |
| LastOperation.OutcomeReports | app/tap/broker_api.go:115-154 | the reports of each outcome, state by state |
| HandlerRuns.OutcomeIsRun | app/tap/broker_api.go:115-154 | whatever a request came to, a run of its handler in the machine files the same reports, makes the same objects before the failed one and ends as it did |
| LastOperation.ServiceInstancesGetLastOperation | app/tap/broker_api.go:343-388 | without a record "failed"; else "failed" iff the record is a failure, begins with FAIL or is older than 20 minutes; else "succeeded" iff the state is IN_PROGRESS_KUBERNETES_OK and the health good |
| LastOperation.PollIsRun | app/tap/broker_api.go:343-388 | in the machine the five steps of a poll that nothing comes between give that answer |
| LastOperation.ProgramMeaning | app/tap/broker_api.go:115-154 | the steps of an undisturbed handler create the whole component and file the whole schedule, KUBERNETES_OK last and only there |
| LastOperation.StepKeeps | app/tap/broker_api.go:343-388 | every step of every handler and poller keeps the invariant, among it that "failed" is answered iff there was no record, a failure, or one older than 20 minutes |
| LastOperation.ReportsAtOnce | state/state.go:53-58 | every step files at most one report, with the time at which it is filed; a request that cannot be read is reported as failed under the id 1 |
| LastOperation.SucceededMeansDone | app/tap/broker_api.go:363-380 | over every run "succeeded" is answered only after every object was created, within 20 minutes of the final report, with health true |
| LastOperation.FailedIsFinal | app/tap/broker_api.go:357-360 | once a failure is recorded every poll that begins later answers "failed" |
| LastOperation.TimeoutIsFinalIff | app/tap/broker_api.go:360-363 | 20 minutes after the last report all later answers are "failed" iff the handler has ended or is bound to fail |
| LastOperation.RunningAnswersAgain | app/tap/broker_api.go:360-363 | a handler that still runs can turn "failed" back into "in progress" |
| Health.Check | k8s/k8sfabricator.go:293-347 | healthy iff the calls succeed, all replicas are up and all containers are ready; else the first set that misses replicas, or the containers that are not ready |
| Health.PendingMeaning | k8s/k8sfabricator.go:320-340 | which are named: pod by pod and container by container those that are not ready |
| Bindings.ReadContainer | k8s/k8sfabricator.go:782-795 | under each name the value of the last variable that has it: its own, or if that is empty what the first secret of the name with the key holds, or nothing; an error iff some variable has neither a value nor a source |
| Bindings.GetAllPodsEnvsByServiceId | k8s/k8sfabricator.go:740-826 | the environments of the listed deployments, then of the stateful sets, with the listed secrets, pod by pod and container by container |
| Bindings.PodsMeaning | k8s/k8sfabricator.go:740-841 | pod by pod and container by container |
| EndToEnd.DataDecodes | catalog/kubernetes_service_blueprint.go:313-323 | the data of the coded text decode to the values before the coding |
| EndToEnd.ReadsCoded | catalog/kubernetes_service_blueprint.go:291-323 | what is read from the text that `adjust_params` returns are the template's lines filled in and coded |
| EndToEnd.SecretHoldsRandom | catalog/kubernetes_service_blueprint.go:291-323 | the secret holds in plain text the string drawn for the random key of its data line |
| EndToEnd.CreationHolds | k8s/k8sfabricator.go:116-185 | after a successful creation the instance has exactly the objects of its component |
| EndToEnd.SecretFound | k8s/k8sfabricator.go:828-841 | a reference to a listed secret is resolved to its value |
| EndToEnd.BindingReads | k8s/k8sfabricator.go:740-841 | the merged environment gives the variable the value that the secret holds |
| EndToEnd.PodsReadableIff | k8s/k8sfabricator.go:782-795 | the environment of workloads is read iff no variable lacks both a value and a source |
| EndToEnd.PlaceholderValue | app/tap/credential_parser.go:133-136 | in the meaning of a mapping `$env_NAME` stands for the value of NAME |
| EndToEnd.ReadEnvironment | k8s/k8sfabricator.go:740-841 | the same through the code's own listings and loops; when every call is done it succeeds iff no variable lacks both a value and a source |
| EndToEnd.PlanMeaning | app/tap/credential_parser.go:31-57 | the mapping of every plan, simple, without services or clustered, is one expansion of its text, or the error of its ports, its hosts or its nodes |
| EndToEnd.TemplatesFitPlan | app/tap/credential_parser.go:37-56 | for a clustered plan fitting templates and plain services are enough; with readable numbers there is no error |
| EndToEnd.ValueInText | app/tap/credential_parser.go:133-136 | wherever that text has a variable, the variable's value stands between what becomes of the text before and after it |
| EndToEnd.Bind | app/tap/broker_api.go:492-555 | for every plan: in what is returned the value that the secret holds stands wherever the plan's text has the variable; it is no error when the ports are numbers |
| EndToEnd.ProvisionThenBind | k8s/k8sfabricator.go:117-124 | end to end from the marked template on: in the returned credentials the very string drawn at provisioning stands wherever the plan's text has the variable; when every call is done, the names are free and the variables have sources, there is an answer, and credentials when the ports are numbers |
| Teardown.DeleteAllPersistentVolumeClaims | k8s/k8sfabricator.go:477-507 | on success no claim is left; other kinds are untouched; one failure does not stop the others; what it does is a run of a remover in the machine |
| Teardown.RemoveCluster | app/tap/broker_api.go:434-481 | one remover ends within one pass more than there are volumes and calls the deletion only on a clear cluster; when every call is done it removes the cluster iff no service or deployment is labelled `managed_by` TAP; what it does is a run of a remover in the machine |
| Teardown.TeardownIsSafe | app/tap/broker_api.go:434-481 | with any number of removers, any failures, and others who remove objects or create harmless ones, every deletion finds the cluster clear |
| Teardown.SafeBesideIff | app/tap/broker_api.go:434-481 | the deletion is safe beside the creation of an object iff the check does not look for such objects |
| Teardown.CanBeLostIff | app/tap/broker_api.go:438-450 | an object that is there from the start, such as a stateful set, can be lost with the cluster without anyone else's doing iff no managed service and no managed deployment is there |
| Quota.OnePut | k8s/k8screator_rest_api_impl.go:177-216 | a call sends at most one PUT, only after counting fewer clusters than the quota; it creates the secret iff it sent a PUT and then saw the cluster working |
| Quota.RunMeaning | k8s/k8screator_rest_api_impl.go:177-216 | the first turn that is not a wait decides: ready without a PUT, an error, or for a missing cluster the PUT iff the count is below the quota; QuotaExceeded iff it is not |
| Quota.AfterPut | k8s/k8screator_rest_api_impl.go:177-216 | after an accepted PUT the next turn that is not a wait ends the call: with the secret when the cluster works, else with the error |
| Quota.SecretWithoutCluster | k8s/k8screator_rest_api_impl.go:103-117 | the secret is created by a call that made no cluster iff its PUT was answered with a status that is neither success nor conflict and the cluster is then working |
| Quota.Creator.PostCluster | k8s/k8screator_rest_api_impl.go:103-117 | the PUT is sent iff the count succeeded and is below the quota |
| Quota.Creator.GetOrCreateCluster | k8s/k8screator_rest_api_impl.go:177-216 | the loop with its flag, against the function of the answers it gets |
| Quota.CallIsRun | k8s/k8screator_rest_api_impl.go:177-216 | a call is a run of a caller in the machine of callers: it makes the same cluster and ends on the same answers |
| Quota.QuotaBound | k8s/k8screator_rest_api_impl.go:103-162 | with at most n callers in flight, clusters and callers past the check are at most quota + n - 1 in every interleaving |
| Quota.SequentialKeepsQuota | k8s/k8screator_rest_api_impl.go:151-162 | used by one caller at a time the quota is kept |
| Quota.BoundIsReached | k8s/k8screator_rest_api_impl.go:151-162 | for every quota and every n new organizations there is a run that reaches the bound |
| Jobs.ProcessJobsResult | k8s/k8sfabricator.go:208-265 | one pass handles every managed job once, with exactly the events of its outcome, while jobs start, are retried and finish |
| Jobs.ProcessJob | k8s/k8sfabricator.go:229-263 | the calls for one job beside an environment that goes on: what is read, saved and deleted, call by call |
| Jobs.JobEventsMeaning | k8s/k8sfabricator.go:229-263 | the events of one job by its counters: nothing while it is active; the logs saved, or notified when that fails, iff it succeeded and asked for it; the deletion and its notification last |
| Jobs.PassesAreSafe | k8s/k8sfabricator.go:208-265 | over any passes and failures: no job listed as active is deleted, none before its service's logs were read, and wanted logs of a deleted job were saved or notified; the same of the jobs as they are found, if those not listed as active had finished |
| Jobs.NeverActiveIff | k8s/k8sfabricator.go:229-263 | the deletions are safe whatever the jobs do in the meantime iff each listed job was active, and so left alone, or had finished |
| Jobs.UnfinishedIsDeleted | k8s/k8sfabricator.go:232-235 | a job that was listed before it started, or between retries, is deleted although it has become active |
| Jobs.CollectResults | k8s/k8sfabricator.go:208-265 | the same of the loop of passes itself |
| Jobs.LogsLeaveIff | k8s/k8sfabricator.go:246-256 | the logs go somewhere iff the job succeeded and asked for it: those of a failed job are dropped |
| Consul.PrepareUpdatedService | consul/consul_service.go:125-146 | some service with the name and the port, iff there is one |
| Consul.UpdatedTags | consul/consul_service.go:103-112 | the other tags in order, and the public tag last iff visible |
| Consul.TagsOf | consul/consul_service.go:103-112 | the tag Public last iff visible, the other tags in their order, the rest of the service as it was and its override set |
| Consul.OthersConcat | consul/consul_service.go:103-112 | the other tags, tag by tag: all but Public |
| Consul.LastForMeaning | consul/consul_service.go:83-123 | the last parameter with a service's name and port decides |
| Consul.UpdateMeaning | consul/consul_service.go:83-123 | after a complete update each service is as the last parameter with its name and port says, or as it was |
| Consul.UpdateServiceTag | consul/consul_service.go:83-123 | one service with the name and port re-registered per parameter, up to the first parameter that names none, or an earlier one when a call fails; when no two share name and port, all at once with the visibility of the last parameter that names each |
| Consul.GrowingEffect | app/tap/broker_api.go:256-287 | an update for a list after one for its prefix has the effect of one update for the list |
| Consul.SetServiceVisibility | app/tap/broker_api.go:235-288 | the calls with a growing list leave the agent as one update with the full list does, also on errors; that list has for every port that is not UDP, in order, the service's name, with the port's name behind a dash iff the service has several ports and this one a name, its NodePort and the visibility |
| Consul.AllParamsMeaning | app/tap/broker_api.go:256-287 | that list, port by port |
| DynamicCatalog.Catalog.RegisterOfferingInCatalog | catalog/dynamic_catalog.go:78-86 | the service is appended and its blueprint stored under its id, in place while there is room |
| DynamicCatalog.Catalog.UnregisterOfferingFromCatalog | catalog/dynamic_catalog.go:88-103 | the first service of the name is removed in place, the blueprint of the id deleted, and what the array then holds |
| DynamicCatalog.Catalog.CheckIfServiceAlreadyExist | catalog/servicescatalog.go:88-95 | whether the name is listed |
| DynamicCatalog.Catalog.GetServiceByName | catalog/servicescatalog.go:97-104 | the first service of the name |
| DynamicCatalog.Catalog.GetServiceMetadataByServiceId | catalog/servicescatalog.go:79-86 | a service of the id, iff there is one |
| DynamicCatalog.Catalog.CreateAndRegisterDynamicService | app/tap/broker_api.go:618-652 | an existing name or a failed blueprint changes nothing |
| DynamicCatalog.Catalog.DeleteAndUnRegisterDynamicService | app/tap/broker_api.go:654-680 | the first service of the name goes, static or dynamic |
| DynamicCatalog.RequestsKeep | app/tap/broker_api.go:618-680 | any sequence of requests keeps names and ids distinct and each blueprint with a listed service, so with exactly one |
| DynamicCatalog.CreateThenDelete | catalog/dynamic_catalog.go:78-103 | register, then unregister: list order and blueprints are restored |
| DynamicCatalog.UpdateKeepsIff | catalog/dynamic_catalog.go:78-103 | an update keeps the invariant iff its look-up is still right |
| DynamicCatalog.SurvivesIff | app/tap/broker_api.go:618-680 | over every interleaving of look-ups and updates the invariant survives iff each update finds what its look-up found |
| DynamicCatalog.RequestsAreRuns | app/tap/broker_api.go:618-680 | a handler is its look-up and its update in the machine with nothing between them |
| DynamicCatalog.RacingCreatesIff | app/tap/broker_api.go:628-640 | two creations that both checked before either registered keep the invariant iff their names differ |
| DynamicCatalog.StaleDeletionIff | app/tap/broker_api.go:664-671 | a deletion whose service was deleted and registered anew in between keeps the invariant iff the new service has another name |
| DynamicCatalog.OnePerName | app/tap/broker_api.go:618-680 | with one request per name at a time every interleaving keeps the invariant |
| DynamicCatalog.OldReaderIff | catalog/dynamic_catalog.go:93-98 | a reader holding the list from before a removal sees it unchanged iff the last service was removed |
| DynamicCatalog.Catalog.Serve | app/tap/broker_api.go:618-680 | requests run one at a time on the array keep the invariant |
| Templates.WriteSorts | catalog/kubernetes_service_blueprint.go:370-390 | writing a file keeps the listing sorted by name |
| Templates.WriteMeaning | catalog/kubernetes_service_blueprint.go:370-390 | after writing the file is there, and of the others those that have another name |
| Templates.ReadMeaning | catalog/kubernetes_service_blueprint.go:349-368 | reading gives the texts of the files whose names begin and end so, in order |
| Templates.FilesMeaning | catalog/template.go:132-173 | the files of a template by name: kind, underscore, number, `.json`, kind by kind |
| Templates.ReadsKind | catalog/kubernetes_service_blueprint.go:349-368 | of each kind what was given and what was left over in the directory is read back, in the order given when nothing was left over and ten or fewer were given |
| Templates.KeepsOrderIff | catalog/template.go:132-173 | the order given is the order read, for all texts, iff there are at most ten |
| Templates.ReadsBackIff | catalog/template.go:128-177 | into any directory: a kind is read back as given iff every file that is read for it has the name of one that was written |
| Templates.RoundTrip | catalog/template.go:212-237 | a template is read back as given, and with it what an earlier attempt left, kind by kind and its hooks; secrets through the encoding, which leaves unmarked texts alone |
| Templates.EncodedPlain | catalog/template.go:212-237 | texts of secrets without markers are read as they are |
| Templates.AddThenRemove | catalog/template.go:57-188 | adding a new id adds exactly it to the registry, removing it restores the registry |
| Templates.LoadMeaning | catalog/template.go:57-110 | of the plan files with one id the last listed is registered, with its two directories |
| Templates.DropMeaning | catalog/template.go:179-188 | removing leaves the other plan files in order |
| Templates.PlaceSorts | catalog/template.go:57-110 | a plan file takes its place in the order in which the directories are listed |
| Templates.PlaceAgain | catalog/template.go:128-177 | a plan file that was there is overwritten in its place |
| Templates.TemplateStore.AddAndRegisterCustomTemplate | catalog/template.go:128-177 | all files and the plan file written and the registry reloaded, or the registry as it was |
| Templates.TemplateStore.RemoveAndUnregisterCustomTemplate | catalog/template.go:179-188 | the template's files gone and the registry reloaded; on an error the registry as it was, and of the files and the plan what could not be removed |
| Templates.TemplateStore.GetRawTemplate | catalog/template.go:212-237 | what is read are the texts that were written and those left over; an error iff there is no directory of objects |
| Templates.TemplateStore.AddReadRemove | catalog/template.go:128-237 | the whole round: what is read is what was given and what was left over, afterwards the directory is gone and the rest of the store and the registry are as before, and without write errors all three steps succeed |

## Left out

- Markers.MarksMeaning: values are not empty, because of the claim that nothing is left to code; `Encodings.ClosedIff` has them.
- Encodings.EncodingIff: marked values end with a quote on their line, and what the expression takes holds no other `$`, as in the catalog.
- Credentials.ParseUriClusteredPlan: the letters of a `$` reference in a host are those of ASCII; Go also takes letters of other alphabets.
- Credentials.ClusteredMeaningIff: assumes that the URI text cannot begin or complete `$nodes`; without this the second insert acts on the first.
- PortOrder.PortsSubstitutedIff: a number that does not fit is an error of its round, which a shorter placeholder replaced before it can hide.
- EndToEnd.ProvisionThenBind: the secret's data lines stand one per line with the value closed by the only later quote, as in the catalog; reading the text as JSON is a parameter that is taken to return the data of such lines.
- EndToEnd.Bind: service credentials are an input; finding them from the cluster's services is not modelled.
- Fabricator.FabricateService: the containers' environment is appended to on values, so what another holder of the component would see is not captured.
- LastOperation.TimeoutIsFinalIff: the id "1" is excluded, because unreadable requests are reported under it and the invariant then fails.
- LastOperation.SucceededMeansDone: deleting an instance and re-using its id are not part of the runs; one PUT per instance.
- Health.Check: the code's message about missing replicas prints the address of the wanted number; the model has the number.
- Teardown.RemoveCluster: a pause always reclaims a volume; otherwise the loop need not end.
- Quota.Creator.GetOrCreateCluster: runs end with the given answers; the code waits for ever.
- Consul.SetServiceVisibility: name and port are unique among the services; otherwise each of its calls may choose other services.
- Jobs.ProcessJobsResult: names of jobs are not used again while a pass runs; that a job has finished, as Kubernetes records it in the job's conditions, is a field that the code does not read.
- DynamicCatalog.SurvivesIff: the look-ups that only read, which do so without the lock, are not steps of the machine.
- Templates.RoundTrip: starts from the JSON texts and ends with them; marshalling is outside, and template ids are plain directory names.
- Templates.TemplateStore.GetRawTemplate: custom templates only; the dynamic blueprints that the look-up prefers exist only in the broker's own process, not in that of the template repository.
- Strings: a character stands for one byte; base64 is claimed for characters below 256.
- Randomness, UUIDs, the clock, the network and the file system are inputs, scripts of replies or steps of the environment.
- Deletion in Kubernetes takes effect at once; garbage collection of pods is not modelled.
- HTTP, JSON, authentication, TLS, logging, the static catalog's directory scan, and the thin pass-through operations (secrets, quotas, workers, pod states) would add only easy members.
- Building a dynamic blueprint from its template, and the choice of files for the node, URI and credential templates of static plans.
