# Spring XD: admin leadership supervision and the acceptance-test JMX checks

This project models three parts of Spring XD in Dafny and proves properties of them.

- **DeploymentSupervisor** is how an admin server does leader election over ZooKeeper.
  - It reacts to the application-context refresh and stop events and to connect and disconnect events.
  - It ensures the six namespace paths and runs a Curator LeaderSelector.
  - Once elected, it reconciles stale module assignments (cleanupDeployments). These are the assignment nodes under MODULE_DEPLOYMENTS whose container is no longer registered.
  - It then opens four PathChildrenCaches and publishes the containers cache in a slot until leadership ends. A finally block closes the caches again.
  - getContainerIterator reports the containers as ContainerConverter turns them out.
- **jmxresult.Module** is one channel MBean as a Jolokia read returns it.
  - setupModule fills thirteen string properties by calling the setter named after each JSON attribute.
  - generateModuleFromJackson then reads the module name and channel from the MBean's object-name key.
- **XdEc2Validation** holds the checks the acceptance tests run against a cluster:
  - the send-count checks over a module list, exact or at-least;
  - the Jolokia request strings;
  - assertReceived;
  - the container probe loop;
  - the admin reachability rule.

The modules, in dependency order:

- `Wrappers`: Option, Result and Outcome.
- `JavaText`: the string helpers the core relies on.
  - String.trim and Character.isWhitespace.
  - From Spring StringUtils: hasText, commaDelimitedListToStringArray and tokenizeToStringArray.
- `Coordination`: the ZooKeeper namespace as a parent-closed map from paths to data.
  - A `ZooKeeper` class offers the three client calls the supervisor makes: list the children, delete recursively, and ensure a path.
- `XdPaths`: the namespace constants, as placeholder one-segment paths.
- `Reconciliation`: cleanupDeployments.
  - The stale set and the namespace after deletion are specification functions, and lemmas about them state what survives.
  - Two methods, proved against those functions, run the listing and the deletion loop.
- `Supervisor`: the class `DeploymentSupervisor`. Its fields are the selector, the containers slot, the application context's id and the connection-listener count.
  - A `trace` field records every cache and slot action.
  - The blocking `Thread.sleep` of takeLeadership becomes a suspended frame, and the interrupt that ends it is the separate method `Revoke`.
  - Code the model cannot see that may raise during set-up (the listener constructors and the cache starts) is the parameter `fault`.
- `JmxResult`: the `Module` class.
  - Its setters are `Set`. `SetupModule` is the attribute loop, proved against the fold `Populate`.
  - `ParseModuleKey` is the key parsing, and `GenerateModuleFromJackson` builds a module from a key and an attribute map.
- `Ec2Validation`: the validation checks. HTTP results, JSON decoding and Integer.parseInt are function parameters.

The finally block of takeLeadership closes the containers cache first, then streams, streamDeployments and jobDeployments.

Other behaviours of the code are modelled as written:

- A containers cache whose `start()` raises is never closed, because the finally block sees only what the slot holds (`ContainersCacheLeaksIffItsStartRaises`).
- onDisconnect releases the selector but leaves the containers slot as it is. Only the leader's own finally block clears it.
- A context-stopped event closes the selector but keeps the reference. The next destroy then raises, and onDisconnect swallows it. So a stopped admin never creates a new selector (`StoppedAdminStaysOutOfElection`).

## Model

| member | source | states |
|---|---|---|
| Coordination.Children | spring-xd-dirt/src/main/java/org/springframework/xd/dirt/server/DeploymentSupervisor.java:383-384 | a name is a child of p exactly when p extended by that name is a node |
| Coordination.NoChildrenOfMissing | spring-xd-dirt/src/main/java/org/springframework/xd/dirt/server/DeploymentSupervisor.java:386-388 | in a well-formed namespace a missing node has no children, so NoNode and an empty listing agree |
| Coordination.RemoveSubtreeProperties | spring-xd-dirt/src/main/java/org/springframework/xd/dirt/server/DeploymentSupervisor.java:392 | a recursive delete keeps the namespace well-formed, and deleting a missing node changes nothing |
| Coordination.WithPathContents | spring-xd-dirt/src/main/java/org/springframework/xd/dirt/server/DeploymentSupervisor.java:212-217 | ensuring a path adds exactly the path and its missing ancestors with empty data, and keeps every existing node's data |
| Coordination.WithPathWellFormed | spring-xd-dirt/src/main/java/org/springframework/xd/dirt/server/DeploymentSupervisor.java:212-217 | ensuring a path keeps the namespace well-formed |
| Coordination.WithPathsProperties | spring-xd-dirt/src/main/java/org/springframework/xd/dirt/server/DeploymentSupervisor.java:212-217 | ensuring several paths in turn keeps existing data, makes every listed path exist, and adds only empty ancestors-or-selves of listed paths |
| Coordination.ZooKeeper.GetChildren | spring-xd-dirt/src/main/java/org/springframework/xd/dirt/server/DeploymentSupervisor.java:383-384 | the children of an existing node; NoNode for a missing one; ConnectionLoss when disconnected |
| Coordination.ZooKeeper.Delete | spring-xd-dirt/src/main/java/org/springframework/xd/dirt/server/DeploymentSupervisor.java:392 | removes the node and its whole subtree; NoNode when missing; nothing changes when disconnected |
| Coordination.ZooKeeper.EnsurePath | spring-xd-dirt/src/main/java/org/springframework/xd/dirt/server/DeploymentSupervisor.java:212-217 | creates the path and its missing ancestors; fails with ConnectionLoss and changes nothing when disconnected |
| Reconciliation.UnderAssignmentOf | spring-xd-dirt/src/main/java/org/springframework/xd/dirt/server/DeploymentSupervisor.java:392 | the subtree deleted for a container id is exactly the set of assignment nodes that id owns |
| Reconciliation.RemoveAssignmentsStep | spring-xd-dirt/src/main/java/org/springframework/xd/dirt/server/DeploymentSupervisor.java:390-397 | each recursive delete in the loop removes one more container's assignments |
| Reconciliation.RemoveAssignmentsWellFormed | spring-xd-dirt/src/main/java/org/springframework/xd/dirt/server/DeploymentSupervisor.java:390-397 | deleting assignment subtrees keeps the namespace well-formed |
| Reconciliation.StaleIsDifference | spring-xd-dirt/src/main/java/org/springframework/xd/dirt/server/DeploymentSupervisor.java:380-388 | the stale set is the assignment ids minus the registered container ids, including in both NoNode cases |
| Reconciliation.CleanupKeepsExactlyLive | spring-xd-dirt/src/main/java/org/springframework/xd/dirt/server/DeploymentSupervisor.java:379-398 | a node survives reconciliation exactly when it is not an assignment node or its owner is registered; survivors keep their data; the remaining assignment ids are those of live containers |
| Reconciliation.CleanupWithoutDeploymentsRoot | spring-xd-dirt/src/main/java/org/springframework/xd/dirt/server/DeploymentSupervisor.java:383-388 | without MODULE_DEPLOYMENTS nothing is stale and nothing is deleted |
| Reconciliation.CleanupWithoutContainersRoot | spring-xd-dirt/src/main/java/org/springframework/xd/dirt/server/DeploymentSupervisor.java:384-388 | without CONTAINERS every assignment is stale and none survives |
| Reconciliation.DeleteAssignments | spring-xd-dirt/src/main/java/org/springframework/xd/dirt/server/DeploymentSupervisor.java:390-397 | deletes the subtree of every given id, treating NoNode as success; when disconnected it fails with ConnectionLoss and deletes nothing |
| Reconciliation.CleanupDeployments | spring-xd-dirt/src/main/java/org/springframework/xd/dirt/server/DeploymentSupervisor.java:379-398 | the namespace afterwards has the stale assignments of the namespace before removed; ConnectionLoss propagates with nothing changed |
| Supervisor.CloseAtMostOnce | spring-xd-dirt/src/main/java/org/springframework/xd/dirt/server/DeploymentSupervisor.java:234-239 | only a started selector can be closed; closing keeps its id, and closing it again raises |
| Supervisor.TeardownOfPrefix | spring-xd-dirt/src/main/java/org/springframework/xd/dirt/server/DeploymentSupervisor.java:352-369 | after the first k set-up actions the finally block closes the slot cache iff the slot was set and each stream/job cache iff it was constructed |
| Supervisor.SetupLogIsPrefix | spring-xd-dirt/src/main/java/org/springframework/xd/dirt/server/DeploymentSupervisor.java:311-344 | the actions done before a raising step are a prefix of the full set-up, and the whole of it exactly when nothing raises |
| Supervisor.SlotSetOnlyAfterContainersStart | spring-xd-dirt/src/main/java/org/springframework/xd/dirt/server/DeploymentSupervisor.java:339-344 | the containers slot is set only when no set-up step raised, and only after the containers cache started |
| Supervisor.ClosingContents | spring-xd-dirt/src/main/java/org/springframework/xd/dirt/server/DeploymentSupervisor.java:352-369 | the finally block first clears the slot, then closes exactly the caches it holds references to |
| Supervisor.ClosingDistinct | spring-xd-dirt/src/main/java/org/springframework/xd/dirt/server/DeploymentSupervisor.java:352-369 | the finally block closes no cache twice |
| Supervisor.TeardownClosesWhatWasOpened | spring-xd-dirt/src/main/java/org/springframework/xd/dirt/server/DeploymentSupervisor.java:304-369 | after any set-up failure the finally block closes each stream/job cache iff it was constructed, the containers cache iff it was published in the slot, and nothing that was not opened |
| Supervisor.ContainersCacheLeaksIffItsStartRaises | spring-xd-dirt/src/main/java/org/springframework/xd/dirt/server/DeploymentSupervisor.java:339-356 | a constructed cache goes unclosed exactly when containersCache.start() raises |
| Supervisor.SelectorCreatedAtMostOnce | spring-xd-dirt/src/main/java/org/springframework/xd/dirt/server/DeploymentSupervisor.java:219-227 | an existing selector is kept and a repeated request changes nothing; a request returns normally iff connected and a selector exists after it, and an absent selector is then created, named after the context and started |
| Supervisor.EnsurePaths | spring-xd-dirt/src/main/java/org/springframework/xd/dirt/server/DeploymentSupervisor.java:212-217 | ensures the paths in order; afterwards every path exists, old data is kept and only empty ancestors are added; ConnectionLoss changes nothing |
| Supervisor.TrySetup | spring-xd-dirt/src/main/java/org/springframework/xd/dirt/server/DeploymentSupervisor.java:311-342 | the try block stops at the first raising step; the done actions are that prefix; each cache local is non-null iff its constructor ran |
| Supervisor.DeploymentSupervisor.constructor | spring-xd-dirt/src/main/java/org/springframework/xd/dirt/server/DeploymentSupervisor.java:150-162 | a new supervisor has no context, no selector, no listener, an empty slot and an empty trace |
| Supervisor.DeploymentSupervisor.Convert | spring-xd-dirt/src/main/java/org/springframework/xd/dirt/server/DeploymentSupervisor.java:276-281 | a container is named after the last segment of its node's path and carries the node's data decoded as attributes |
| Supervisor.DeploymentSupervisor.ConvertNamesChild | spring-xd-dirt/src/main/java/org/springframework/xd/dirt/server/DeploymentSupervisor.java:276-281 | a node directly below CONTAINERS becomes the container named by its last segment, with its data decoded as attributes |
| Supervisor.DeploymentSupervisor.ContainerIterator | spring-xd-dirt/src/main/java/org/springframework/xd/dirt/server/DeploymentSupervisor.java:187-192 | empty when the slot is empty; otherwise one converted container per cached node, in the cache's order |
| Supervisor.DeploymentSupervisor.NoContainersWithoutLeadership | spring-xd-dirt/src/main/java/org/springframework/xd/dirt/server/DeploymentSupervisor.java:187-192 | while no leader holds the slot, the supervisor reports no containers |
| Supervisor.DeploymentSupervisor.IteratorReportsLiveContainers | spring-xd-dirt/src/main/java/org/springframework/xd/dirt/server/DeploymentSupervisor.java:187-192 | when the cache mirrors CONTAINERS, the reported names are exactly the registered containers, each with its node's attributes |
| Supervisor.DeploymentSupervisor.EnsureSelector | spring-xd-dirt/src/main/java/org/springframework/xd/dirt/server/DeploymentSupervisor.java:219-223 | creates, names and starts a selector only when none exists; naming it without a context raises |
| Supervisor.DeploymentSupervisor.RequestLeadership | spring-xd-dirt/src/main/java/org/springframework/xd/dirt/server/DeploymentSupervisor.java:210-228 | ensures the six paths, then the selector; a failure of either is wrapped; nothing else changes |
| Supervisor.DeploymentSupervisor.Destroy | spring-xd-dirt/src/main/java/org/springframework/xd/dirt/server/DeploymentSupervisor.java:234-239 | closes a started selector and drops it; closing one that is not started raises and keeps it |
| Supervisor.DeploymentSupervisor.OnContextRefreshed | spring-xd-dirt/src/main/java/org/springframework/xd/dirt/server/DeploymentSupervisor.java:169-175 | records the context, requests leadership only when connected (which then cannot raise), and registers the connection listener once more |
| Supervisor.DeploymentSupervisor.OnContextStopped | spring-xd-dirt/src/main/java/org/springframework/xd/dirt/server/DeploymentSupervisor.java:176-180 | closes the selector without dropping it; closing one that is not started raises |
| Supervisor.DeploymentSupervisor.OnApplicationEvent | spring-xd-dirt/src/main/java/org/springframework/xd/dirt/server/DeploymentSupervisor.java:168-181 | a refresh event records the context id, registers the connection listener once more, ensures the namespace paths when connected and requests leadership; a stop event closes a running selector, keeps an absent one absent and raises IllegalState on one not running; any other event leaves the supervisor unchanged |
| Supervisor.DeploymentSupervisor.OnConnect | spring-xd-dirt/src/main/java/org/springframework/xd/dirt/server/DeploymentSupervisor.java:251-254 | logs the admin id, which raises without a context, then requests leadership |
| Supervisor.DeploymentSupervisor.OnDisconnect | spring-xd-dirt/src/main/java/org/springframework/xd/dirt/server/DeploymentSupervisor.java:260-267 | destroys the selector and swallows its exception, so a selector that cannot be closed stays; the slot is untouched |
| Supervisor.DeploymentSupervisor.ReleaseCaches | spring-xd-dirt/src/main/java/org/springframework/xd/dirt/server/DeploymentSupervisor.java:352-369 | swaps the slot to empty and closes, in order, the slot's cache and each non-null stream/job cache |
| Supervisor.DeploymentSupervisor.SetUpCaches | spring-xd-dirt/src/main/java/org/springframework/xd/dirt/server/DeploymentSupervisor.java:304-369 | either the full set-up leaves the containers cache published and the leader sleeping, or a raising step's prefix is followed by its teardown and an interrupt is not reported as an error |
| Supervisor.DeploymentSupervisor.TakeLeadership | spring-xd-dirt/src/main/java/org/springframework/xd/dirt/server/DeploymentSupervisor.java:299-370 | reconciles the namespace, then sets up as SetUpCaches says; a failing reconciliation or a missing context propagates before any cache exists |
| Supervisor.DeploymentSupervisor.Revoke | spring-xd-dirt/src/main/java/org/springframework/xd/dirt/server/DeploymentSupervisor.java:346-369 | the interrupt ends the sleep; the finally block closes all four caches and clears the slot |
| Supervisor.DeploymentSupervisor.StoppedAdminStaysOutOfElection | spring-xd-dirt/src/main/java/org/springframework/xd/dirt/server/DeploymentSupervisor.java:176-180 | after a stop, a disconnect and a reconnect, the selector is still the closed one rather than a new one |
| JavaText.TrimIsTrimmed | spring-xd-integration-test/src/main/java/org/springframework/xd/integration/util/jmxresult/Module.java:76-79 | String.trim leaves nothing trimmable at either end |
| JavaText.TrimKeepsTrimmed | spring-xd-integration-test/src/main/java/org/springframework/xd/integration/util/jmxresult/Module.java:76-79 | trimming a trimmed string leaves it unchanged |
| JavaText.TrimEmptyIffNoText | spring-xd-integration-test/src/main/java/org/springframework/xd/integration/util/jmxresult/Module.java:76-79 | trim yields the empty string exactly when every character is trimmable |
| JavaText.TrimAddsNothing | spring-xd-integration-test/src/main/java/org/springframework/xd/integration/util/jmxresult/Module.java:76-79 | trimming introduces no character that was not in the input |
| JavaText.JoinSplitOn | spring-xd-integration-test/src/main/java/org/springframework/xd/integration/util/jmxresult/Module.java:74-75 | joining the comma-split fields gives back the key |
| JavaText.SplitOnPiecesFree | spring-xd-integration-test/src/main/java/org/springframework/xd/integration/util/jmxresult/Module.java:74-75 | no split field contains the delimiter |
| JavaText.SplitOnCount | spring-xd-integration-test/src/main/java/org/springframework/xd/integration/util/jmxresult/Module.java:74-75 | a string splits into one more field than it has delimiters |
| JavaText.SplitOnNoDelimiter | spring-xd-integration-test/src/main/java/org/springframework/xd/integration/util/jmxresult/Module.java:74-75 | a string without the delimiter is a single field |
| JavaText.SplitOnPrefix | spring-xd-integration-test/src/main/java/org/springframework/xd/integration/util/jmxresult/Module.java:74-75 | splitting a delimiter-free prefix followed by the delimiter puts the prefix first |
| JavaText.SplitJoin | spring-xd-integration-test/src/main/java/org/springframework/xd/integration/util/jmxresult/Module.java:74-75 | splitting delimiter-free pieces joined by the delimiter gives back the pieces |
| JavaText.JoinHasDelimiter | spring-xd-integration-test/src/main/java/org/springframework/xd/integration/util/jmxresult/Module.java:74-75 | joining at least two pieces gives a string containing the delimiter |
| JavaText.TrimAndDropEmptyTokens | spring-xd-integration-test/src/main/java/org/springframework/xd/integration/util/jmxresult/Module.java:76-79 | after trimming and dropping empty pieces, every token is non-empty, trimmed and free of the delimiter |
| JavaText.TokenizeTokens | spring-xd-integration-test/src/main/java/org/springframework/xd/integration/util/jmxresult/Module.java:76-79 | every token of tokenizeToStringArray is non-empty, trimmed and free of the delimiter |
| JavaText.TokenizePair | spring-xd-integration-test/src/main/java/org/springframework/xd/integration/util/jmxresult/Module.java:76-79 | "name=value" with clean sides tokenizes to its two sides |
| JavaText.TokenizeWord | spring-xd-integration-test/src/main/java/org/springframework/xd/integration/util/jmxresult/Module.java:76-79 | a clean word without the delimiter is its own single token |
| JavaText.TokenizeKeyOnly | spring-xd-integration-test/src/main/java/org/springframework/xd/integration/util/jmxresult/Module.java:76-79 | a clean word followed by the delimiter and nothing else is a single token: the empty piece after the delimiter is dropped |
| JmxResult.PropertyNamesDistinct | spring-xd-integration-test/src/main/java/org/springframework/xd/integration/util/jmxresult/Module.java:84-187 | no two properties share a setter name |
| JmxResult.FieldNamedComplete | spring-xd-integration-test/src/main/java/org/springframework/xd/integration/util/jmxresult/Module.java:84-187 | each property is found under its own name |
| JmxResult.FieldNamedIsPropertyName | spring-xd-integration-test/src/main/java/org/springframework/xd/integration/util/jmxresult/Module.java:84-187 | a name selects a property exactly when it is that property's name |
| JmxResult.SetterOfKeyIsPropertyName | spring-xd-integration-test/src/main/java/org/springframework/xd/integration/util/jmxresult/Module.java:195-196 | an attribute key selects the setter "set"+key exactly when the key is a property name |
| JmxResult.SetterOfKeySelectsByName | spring-xd-integration-test/src/main/java/org/springframework/xd/integration/util/jmxresult/Module.java:195-196 | the Module's reflective setter lookup finds each property under its name and nothing else |
| JmxResult.PopulateFailsAtFirstRejected | spring-xd-integration-test/src/main/java/org/springframework/xd/integration/util/jmxresult/Module.java:189-204 | setupModule succeeds exactly when every key names a setter and every value is non-null; otherwise it fails at the first rejected attribute, with a missing setter reported before a null value |
| JmxResult.ValueOfDistinctKey | spring-xd-integration-test/src/main/java/org/springframework/xd/integration/util/jmxresult/Module.java:192-193 | with distinct keys, the value under a key is that of the one attribute carrying it |
| JmxResult.PopulateStoresLastValue | spring-xd-integration-test/src/main/java/org/springframework/xd/integration/util/jmxresult/Module.java:192-198 | after a successful setupModule a property is set exactly when some attribute names it, and holds the last such value |
| JmxResult.PopulateSetsNamedFields | spring-xd-integration-test/src/main/java/org/springframework/xd/integration/util/jmxresult/Module.java:189-204 | over a map's distinct keys, each property holds the value of the attribute named after it, and properties no attribute names stay null |
| JmxResult.ParseModuleKey | spring-xd-integration-test/src/main/java/org/springframework/xd/integration/util/jmxresult/Module.java:74-79 | a parsed key yields a module name and channel that are each non-empty, trimmed and free of '='; the lemmas below say which keys parse and which fail at which offset |
| JmxResult.ParseModuleKeyOfObjectName | spring-xd-integration-test/src/main/java/org/springframework/xd/integration/util/jmxresult/Module.java:73-79 | a key whose second and third fields are k1=name and k2=channel yields that name and channel, whatever follows |
| JmxResult.ParseModuleKeyTooFewFields | spring-xd-integration-test/src/main/java/org/springframework/xd/integration/util/jmxresult/Module.java:73-79 | a key with fewer than two commas fails with a missing field or value |
| JmxResult.ValuelessHasOneToken | spring-xd-integration-test/src/main/java/org/springframework/xd/integration/util/jmxresult/Module.java:76-79 | a field naming a key without a value, with or without a trailing '=', has no comma and tokenizes to the key alone |
| JmxResult.ParseModuleKeyNameUnset | spring-xd-integration-test/src/main/java/org/springframework/xd/integration/util/jmxresult/Module.java:74-77 | comma-free fields whose name field tokenizes to its key alone fail at offset 1, however many fields follow |
| JmxResult.ParseModuleKeyNoNameValue | spring-xd-integration-test/src/main/java/org/springframework/xd/integration/util/jmxresult/Module.java:76-77 | a name field with no value after its key (a bare key, or the key followed by '=') fails at offset 1, even with enough fields |
| JmxResult.ParseModuleKeyChannelUnset | spring-xd-integration-test/src/main/java/org/springframework/xd/integration/util/jmxresult/Module.java:74-79 | comma-free fields whose name field has a value but whose channel field tokenizes to its key alone fail at offset 2 |
| JmxResult.ParseModuleKeyNoChannelValue | spring-xd-integration-test/src/main/java/org/springframework/xd/integration/util/jmxresult/Module.java:78-79 | after a well-formed name field, a channel field with no value after its key (a bare key, or the key followed by '=') fails at offset 2 |
| JmxResult.ModuleFromJackson | spring-xd-integration-test/src/main/java/org/springframework/xd/integration/util/jmxresult/Module.java:71-82 | succeeds iff setupModule succeeds and the key parses; name and channel come from the key and every other property from the attributes; the setupModule error wins over the key error |
| JmxResult.Module.constructor | spring-xd-integration-test/src/main/java/org/springframework/xd/integration/util/jmxresult/Module.java:32-58 | a new Module has every property null |
| JmxResult.Module.Get | spring-xd-integration-test/src/main/java/org/springframework/xd/integration/util/jmxresult/Module.java:84-187 | the thirteen getters, one per property; ValuesOf and Set are stated through it |
| JmxResult.Module.ValuesOf | spring-xd-integration-test/src/main/java/org/springframework/xd/integration/util/jmxresult/Module.java:84-187 | the non-null properties are exactly those whose getter returns a value |
| JmxResult.Module.Set | spring-xd-integration-test/src/main/java/org/springframework/xd/integration/util/jmxresult/Module.java:84-187 | after a setter the property's getter returns the new value and every other getter is unchanged |
| JmxResult.ValuesAfterSet | spring-xd-integration-test/src/main/java/org/springframework/xd/integration/util/jmxresult/Module.java:84-187 | setting one property updates the non-null properties at that property only |
| JmxResult.SetupModule | spring-xd-integration-test/src/main/java/org/springframework/xd/integration/util/jmxresult/Module.java:189-204 | the loop fails with the fold's error, or returns a fresh module whose properties are the fold's result |
| JmxResult.PopulateFailureSticks | spring-xd-integration-test/src/main/java/org/springframework/xd/integration/util/jmxresult/Module.java:199-202 | an error in the loop aborts the whole call: once a prefix fails, the whole attribute list fails with the same error |
| JmxResult.GenerateModuleFromJackson | spring-xd-integration-test/src/main/java/org/springframework/xd/integration/util/jmxresult/Module.java:71-82 | returns a fresh module whose properties are ModuleFromJackson's, or that function's error |
| Ec2Validation.CheckModulePassIff | spring-xd-integration-test/src/main/java/org/springframework/xd/integration/util/XdEc2Validation.java:304-325 | a module passes exactly when its channel is set, and an output or input channel has a parsable send count meeting the expectation and a parsable error count of zero or less |
| Ec2Validation.SendCountsVerdictIsFirstFailure | spring-xd-integration-test/src/main/java/org/springframework/xd/integration/util/XdEc2Validation.java:300-326 | the check passes exactly when every module conforms; a failure is the first non-conforming module's failure |
| Ec2Validation.OtherChannelsAreSkipped | spring-xd-integration-test/src/main/java/org/springframework/xd/integration/util/XdEc2Validation.java:304-308 | a module on any channel other than output or input never changes the verdict |
| Ec2Validation.ExactPassImpliesAtLeastPass | spring-xd-integration-test/src/main/java/org/springframework/xd/integration/util/XdEc2Validation.java:309-319 | modules passing the exact check pass the at-least check |
| Ec2Validation.AtLeastIsMonotone | spring-xd-integration-test/src/main/java/org/springframework/xd/integration/util/XdEc2Validation.java:309-313 | an at-least pass holds for every smaller expectation |
| Ec2Validation.SendErrorsFail | spring-xd-integration-test/src/main/java/org/springframework/xd/integration/util/XdEc2Validation.java:320-324 | a checked module reporting send errors fails the check in both modes |
| Ec2Validation.VerifySendCounts | spring-xd-integration-test/src/main/java/org/springframework/xd/integration/util/XdEc2Validation.java:300-326 | the loop returns the verdict over the modules in list order |
| Ec2Validation.VerifySendCountsExact | spring-xd-integration-test/src/main/java/org/springframework/xd/integration/util/XdEc2Validation.java:288-290 | the two-argument overload is the exact check: it passes iff every module conforms exactly |
| Ec2Validation.BuildJmxRequest | spring-xd-integration-test/src/main/java/org/springframework/xd/integration/util/XdEc2Validation.java:253-258 | the Jolokia read request for one module's MessageChannel MBeans; FramedPairInjective and JmxRequestIdentifiesTarget show it determines its stream and module |
| Ec2Validation.BuildJmxList | spring-xd-integration-test/src/main/java/org/springframework/xd/integration/util/XdEc2Validation.java:260-263 | the Jolokia list request on a server; VerifyAtLeastOneContainerAvailable issues one per container |
| Ec2Validation.FramedPairInjective | spring-xd-integration-test/src/main/java/org/springframework/xd/integration/util/XdEc2Validation.java:253-258 | a request string determines the stream name and module name it was built from |
| Ec2Validation.JmxRequestIdentifiesTarget | spring-xd-integration-test/src/main/java/org/springframework/xd/integration/util/XdEc2Validation.java:253-258 | for stream names without ':', two read requests to one server agree only when stream and module agree |
| Ec2Validation.TwoPropertyKey | spring-xd-integration-test/src/main/java/org/springframework/xd/integration/util/jmxresult/Module.java:73-79 | a key "first,k1=v1,k2=v2" yields name v1 and channel v2 |
| Ec2Validation.ChannelKeyParses | spring-xd-integration-test/src/main/java/org/springframework/xd/integration/util/jmxresult/Module.java:73-79 | a stream channel's object name yields the module name and channel it names |
| Ec2Validation.AssertReceived | spring-xd-integration-test/src/main/java/org/springframework/xd/integration/util/XdEc2Validation.java:128-143 | empty stream or module names are rejected and a failed fetch is reported; otherwise the verdict is the exact send-count check over the fetched modules, so a pass means every one conforms |
| Ec2Validation.AssertReceivedStream | spring-xd-integration-test/src/main/java/org/springframework/xd/integration/util/XdEc2Validation.java:151-165 | an empty stream name is rejected and a failed fetch is reported; otherwise the verdict is the exact send-count check over every module of the stream |
| Ec2Validation.StreamCheckIsWildcardCheck | spring-xd-integration-test/src/main/java/org/springframework/xd/integration/util/XdEc2Validation.java:151-165 | the stream-wide check is the per-module check for module "*" |
| Ec2Validation.Availability | spring-xd-integration-test/src/main/java/org/springframework/xd/integration/util/XdEc2Validation.java:91-117 | an exception other than the caught resource-access, HTTP-client and IO ones makes the check raise; otherwise it passes iff some container answered or gave an HTTP client error, and else reports no container available |
| Ec2Validation.AvailabilityIgnoresOrder | spring-xd-integration-test/src/main/java/org/springframework/xd/integration/util/XdEc2Validation.java:91-117 | the verdict depends only on which probe outcomes occurred |
| Ec2Validation.OneReachedSuffices | spring-xd-integration-test/src/main/java/org/springframework/xd/integration/util/XdEc2Validation.java:99-110 | one container answering, even with an HTTP client error, suffices when no probe raised anything else |
| Ec2Validation.FailedProbesDoNotCount | spring-xd-integration-test/src/main/java/org/springframework/xd/integration/util/XdEc2Validation.java:103-114 | when every probe fails with a resource-access or IO error, no container is available |
| Ec2Validation.VerifyAtLeastOneContainerAvailable | spring-xd-integration-test/src/main/java/org/springframework/xd/integration/util/XdEc2Validation.java:91-117 | probes every container without stopping at the first reachable one; the verdict is Availability of the outcomes; an uncaught exception ends the loop after the requests issued so far |
| Ec2Validation.AdminConnection | spring-xd-integration-test/src/main/java/org/springframework/xd/integration/util/XdEc2Validation.java:328-340 | returns a value iff the GET returned or hit a resource-access failure, and the value is true iff it returned |
| Ec2Validation.AdminConnectionRule | spring-xd-integration-test/src/main/java/org/springframework/xd/integration/util/XdEc2Validation.java:328-340 | the admin is up iff the GET returned, down iff it hit a resource-access failure; any other failure propagates |
| Ec2Validation.VerifyXdAdminReady | spring-xd-integration-test/src/main/java/org/springframework/xd/integration/util/XdEc2Validation.java:78-83 | the readiness check passes iff the GET returned and reports the admin unavailable iff it hit a resource-access failure |

## Left out

- I/O is not modelled: the HTTP GETs, Jolokia, JSON decoding (getModuleList, Jackson's cast to a LinkedHashMap) and Integer.parseInt. Their outcomes are function parameters.
- Threads and synchronization are not modelled. Each call is one atomic step.
  - `synchronized` on requestLeadership, the AtomicReference's atomicity and Curator's own threads are therefore out of scope.
  - The leader's sleep is a suspended frame, and its interrupt is a separate call.
- Curator internals are left out: watches, sessions, ephemeral nodes, the cache listeners' reactions, and the contents of the stream and job caches. The containers cache's contents are a parameter of TakeLeadership.
- The deployment listeners (StreamDeploymentListener, JobDeploymentListener, ContainerListener) are not part of this model. Their constructors appear only as set-up steps that may raise.
- Paths is not part of this model. The namespace constants are placeholder one-segment paths, and Paths.stripPath is taken to return the last segment.
- MapBytesUtility is not part of this model. toMap is an uninterpreted function field of the supervisor.
- Logging is left out, except that reading the admin id for a log line raises without a context.
- Supervisor.DeploymentSupervisor.ReleaseCaches: a cache's close() is taken not to raise. In the source a raising close skips the closes after it in the finally block.
- Supervisor.TeardownClosesWhatWasOpened: stated under the same assumption that no close() raises. A raising close would leave the later caches open.
- Supervisor.DeploymentSupervisor.constructor: the null checks on its four arguments are not modelled (the references are non-null by type). Of those arguments, only the ZooKeeper connection is part of this model.
- JmxResult.SetupModule: the setter lookup is passed in. GenerateModuleFromJackson passes the Module's own lookup, SetterOfKey, which is modelled on the class's declared setters instead of on reflection.
- JmxResult.Module.Set: the thirteen named setters and getters are one Set and one Get indexed by property. toString is left out.
- Ec2Validation.VerifyAtLeastOneContainerAvailable: replacePort is a parameter, and the null check on the container list is not modelled (the list is non-null by type).
- Ec2Validation.AssertReceived: the null check on the URL is not modelled. A malformed request URL counts as a failed fetch.
- Integer widths need no modelling. The checks only compare 32-bit counts, and the model's unbounded integers compare the same.
- verifyTestContent, verifyContentContains and verifyContainerConnection's I/O, and getModuleList's decoding, are file or network I/O without logic of their own beyond what is modelled.
