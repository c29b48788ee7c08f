# Verified model of the ProxySQL Kubernetes operator

The operator keeps ProxySQL clusters and their runtime configuration in line with Kubernetes
resources. This project models its five deterministic engines in Dafny and proves what they
promise over every input and over whole runs of passes, crashes, failed pushes and clock jumps.

| engine | files |
|---|---|
| restart or runtime apply | `Restart.dfy`, `RestartEffects.dfy`, `RestartSafety.dfy`, `RestartStructure.dfy`, `RestartWitness.dfy`, `Digest.dfy` |
| cnf printer, scanner, normalizer | `Cnf.dfy`, `Render.dfy`, `Bootstrap.dfy`, `BootstrapContents.dfy` |
| union, sync, drift | `Desired.dfy`, `Union.dfy`, `UnionContents.dfy`, `Replication.dfy`, `ServerKeys.dfy`, `Drift.dfy`, `Runtime.dfy`, `AdminDb.dfy`, `Sync.dfy`, `Monitor.dfy`, `Resync.dfy`, `SyncContents.dfy`, `Sql.dfy` |
| TLS rotation, validate-and-hold, certificate lifetimes | `Timestamp.dfy`, `TlsRotation.dfy`, `TlsWindow.dfy`, `TlsTiming.dfy`, `TlsSecrets.dfy`, `Certificates.dfy` |
| convergence accounting | `Convergence.dfy`, `ConfigPass.dfy`, `Replicas.dfy`, `Skipping.dfy` |
| shared | `Text.dfy`, `Sorting.dfy` |

`dafny verify dfyconfig.toml` checks the whole project.

## How the system is modelled

- Strings are byte strings, one `char` per byte. 32-bit integers are the subset type `Int32`.
- SHA-256 is injective: a digest carries the bytes that were written to it (`Digest.Marker`), a
  fingerprint carries the values it hashes. That the byte streams themselves are uniquely decodable
  is proved. The TLS state machine uses the 64-digit hexadecimal text, which holds no `@`.
- Kubernetes calls, dials, clocks and SQL replies are inputs of a pass. A pass that dies before its
  StatefulSet or status write is an event of its own.
- Code that loops or updates objects is a method or a class (`Restart.Cluster`,
  `Replication.UnionFind`, `Sync.Connection`, `TlsSecrets.Builder`, `Certificates.Secrets`,
  `Convergence.Config`) proved equal to a specification function; the laws are lemmas about that
  function. `RestartEffects`, `BootstrapContents`, `UnionContents`, `SyncContents`, `TlsTiming` and
  `ConfigPass` tell its results once more from the fields of the inputs alone, with names, keys and
  constants written out, and prove the two tellings equal.
- A ProxySQL pod boots with `--reload`: values of the mounted cnf win over persisted ones
  (`operator/internal/controller/builders/statefulset.go:371-386`).
- `LOAD … TO RUNTIME` copies the section and omits `OFFLINE_HARD` servers from the runtime table, as
  `operator/internal/proxysqlclient/runtime.go:283-287` states. Whether rows with `active=0` show up
  at runtime is left open (`shows`). An `INSERT` with a repeated primary key is refused as a whole; any
  statement may also fail for other reasons, with or without having taken effect. `UPDATE
  global_variables` changes known variables only, and `LOAD … VARIABLES` moves those of its prefix that
  do not need a startup.
- Clocks of the TLS state machine show four-digit years, which its timestamp format needs.

## Where the code does not do what one would expect

Each has a lemma with a failing run or input, and where a law is at stake the exact condition under
which it holds.

1. **Variable changes can be lost.** With all replicas ready, fixed startup-only variables and every
   interrupted pass retried, a commit still leaves pods on other values exactly when it is a *dead
   restart*: the template checksum already is the new one, so the restart that a startup-only
   variable needs changes nothing (`RestartSafety.CommitSettlesExactly`). An edit and its revert
   during one rollout lead there (`RestartWitness.LostDuringRollout`). Runs whose pushes meet a pod of
   the current revision and in which no pod reads an uncommitted Secret are free of it
   (`RestartSafety.CalmRunsLoseNothing`). The other hypotheses are needed too
   (`LostWhenNotReady`, `LostWhenNotRetried`).
   The structural marker speaks of the template. A pod that booted on a Secret that was then reverted
   instead of retried keeps its other structure (`RestartWitness.PodLeftOnOtherStructure`). In every run
   a commit leaves all current pods on the Secret's structure exactly when it changes the template or
   each of them had booted on the structure last rolled out (`RestartStructure.CommitOnStructureExactly`);
   retrying interrupted passes alone is enough for that (`RestartStructure.PodsOnStructure`).
2. **A TLS fallback can restart nothing.** The restart annotation is the content hash, so a fallback
   advances the marker and changes no template exactly when the last fallback since TLS was off was to
   the same content (`TlsWindow.FallbackRestartsExactly`, `TlsWindow.ReturningContentNotRestarted`).
3. **A skipped config pass can be wrong.** The short-circuit compares a status that knows only counts
   and recorded passes. After a partly failed push to two replicas, a return to one replica and to the
   earlier content is skipped although that replica was last given other content
   (`Skipping.SkippedAfterScaleDown`); so is the earlier content after a push whose status write was
   lost (`Skipping.SkippedAfterLostStatus`). A skip is right exactly when: after a recorded pass, the
   number of endpoints is the same; after an unrecorded one, that pass had the same content, version and
   addresses and all its replicas ended well (`Skipping.SkipSoundExactly`). In both runs the content
   changes through a sibling config or a password Secret: an edit of the config itself changes the
   generation, which defeats the skip
   (`operator/internal/controller/proxysqlconfig_controller.go:254-257`).
4. **Some desired states never read back as converged.** Names with control characters are stored
   without them, and inactive rows may not show; such a state is re-pushed at every resync
   (`Resync.NoRepushLoop`).
5. **A DELETE without its INSERT is published**, because the LOAD step runs all the same: once it
   succeeds the replica runs the earlier content, the desired rows or nothing, according to which of
   the table's own statements took effect (`Sync.RunsWhatWasLeft`). Rows that share a key empty the
   table of a healthy replica (`Sync.SharedKeyEmpties`). For MySQL servers that is so exactly when two
   of them agree on hostgroup, quoted host and defaulted port (`Sync.ServersRefusedExactly`), such as
   one server at port 0 and at the default port (`Sync.DefaultPortTwiceEmpties`).
6. **Certificates hold whole seconds**, so reissues may be up to one second closer than duration
   minus renewal margin (`Certificates.FullGapExactly`). A pass keeps certificates within their CA's
   lifetime, whatever Secrets it finds, exactly when its clock readings are timely
   (`Certificates.StaysWithinExactly`); for a sound spec passes no slower than the renewal margin
   are, and passes two seconds slower than it are not (`Certificates.PromptIsTimely`).
7. **Redaction joins a value to the literal before it** when the prefix ends in a single quote; the
   value stays masked (`Sql.RedactQuotedExactly`).
8. **Reserved cnf keys are recognised only with their prefix.** A section repeats a key exactly when an
   accepted variable is the bare name of one of its own lines (`Render.RepeatsExactly`), and such a
   variable is accepted (`Render.BareKeyAccepted`). Two spellings of one variable with different
   values make the rendered value depend on map order (`Render.StripsUniqueExactly`). The CRD rule at
   `operator/api/v1alpha1/proxysqlcluster_types.go:271-283` demands the prefix and excludes both
   (`Render.AcceptedAvoidReserved`, `Render.PrefixedOneSpelling`).

## Model

| member | source | states |
|---|---|---|
| Cnf.MatchVarExact | operator/internal/controller/builders/cnf_variables.go:62-66 | the hand-written matcher accepts exactly the lines of the variable regular expression, with the same three groups |
| Cnf.ScanLines | operator/internal/controller/builders/cnf_variables.go:83-123 | the stateful line loop equals the recursive scan |
| Cnf.ScanAt | operator/internal/controller/builders/cnf_variables.go:83-123 | each scanned line is the classification of that text line in the section state reached there |
| Cnf.ParseCnfVariables | operator/internal/controller/builders/cnf_variables.go:137-149 | the map of the last value of each runtime variable line, restart-only keys excepted |
| Cnf.ParsedExactly | operator/internal/controller/builders/cnf_variables.go:137-149 | a variable is parsed if and only if a runtime line names it |
| Cnf.LastLineWins | operator/internal/controller/builders/cnf_variables.go:137-149 | and it has the value of the last such line |
| Cnf.UnquoteExactly | operator/internal/controller/builders/cnf_variables.go:125-131 | the text between a pair of double quotes, or the text as it is |
| Cnf.PatternChars | operator/internal/controller/builders/cnf_variables.go:62-66 | the white space and key letters of the pattern, by character code |
| Cnf.NormalizeCnf | operator/internal/controller/builders/cnf_variables.go:157-174 | the masked lines joined, equal to the specification text |
| Cnf.NormalizeExact | operator/internal/controller/builders/cnf_variables.go:151-174 | two texts normalize alike if and only if their scans agree line by line: same sections, same structural lines, same indentation and full name of runtime variables |
| Cnf.NormalizeIdempotent | operator/internal/controller/builders/cnf_variables.go:151-174 | normalizing twice is normalizing once |
| Cnf.DiffComplete | operator/internal/controller/restart_checksum.go:131-157 | under equal normal forms both texts declare the same keys, and the diff over the old variables gives exactly the new ones |
| Cnf.ParseWellFormed | operator/internal/controller/builders/cnf_variables.go:66-149 | every parsed name is a domain, a dash and a key, every value a single line |
| Digest.FramedUnique | operator/internal/controller/builders/loggingsidecar.go:265-272 | the length-prefixed stream determines the sequence of keys and values |
| Digest.ChecksumExact | operator/internal/controller/builders/loggingsidecar.go:265-272 | equal cnf checksums mean equal data maps |
| Digest.StructuralExact | operator/internal/controller/restart_checksum.go:180-196 | equal structural hashes mean the same keys, equal other values and cnf texts whose scans agree |
| Digest.WriteFramed | operator/internal/controller/builders/loggingsidecar.go:265-272 | the sorted writing loop produces the framed stream |
| Digest.StructuralDigest | operator/internal/controller/restart_checksum.go:180-196 | the loop that masks the cnf and writes the rest produces the structural hash |
| Digest.VarsHashExact | operator/internal/controller/restart_checksum.go:232-243 | on parsed variables the key=value line stream determines the map |
| Digest.VarsDigest | operator/internal/controller/restart_checksum.go:232-243 | the sorted writing loop produces that stream |
| Restart.DiffNonCnfKeys | operator/internal/controller/restart_checksum.go:203-226 | the ascending list of the keys other than the cnf whose presence or bytes differ |
| Restart.ClassifyCnfChange | operator/internal/controller/restart_checksum.go:99-171 | the verdict of the decision table, computed through the loops and digests |
| Restart.ChangedVars | operator/internal/controller/restart_checksum.go:151-157 | exactly the new or differing variables |
| Restart.PushTwice | operator/internal/controller/restart_checksum.go:338-419 | pushing the same values again changes nothing |
| Restart.Cluster.PushEndpoints | operator/internal/controller/restart_checksum.go:338-419 | every endpoint up to the fault is pushed, no other pod is touched, and the mismatch flag tells whether some read-back differs |
| Restart.Cluster.CarryOut | operator/internal/controller/restart_checksum.go:309-420 | pods and checksum after the verdict, with or without a fault |
| Restart.Cluster.WriteStatefulSet | operator/internal/controller/proxysqlcluster_controller.go:658-691 | checksum and both markers change in one write; the revision advances only with the checksum |
| Restart.Cluster.Reconcile | operator/internal/controller/proxysqlcluster_controller.go:188-282 | one pass, Secret first, then pushes, then the one StatefulSet write, is the step of the state machine |
| RestartEffects.RollsExactly | operator/internal/controller/restart_checksum.go:99-420 | with another checksum on the template, a pass rolls it if and only if structure differs, monitor credentials are due with too few ready replicas, or a dialed pod needs a startup for a due value; only in the last case, or without a roll, are pods pushed, and then exactly the dialed ones get the due values |
| RestartEffects.MonitorEditRolls | operator/internal/controller/restart_checksum.go:345-357 | an edit of one of the four monitor variables with fewer ready endpoints than replicas rolls the template and pushes nothing |
| RestartEffects.RuntimeEditKeeps | operator/internal/controller/restart_checksum.go:358-419 | any other edit of runtime variables keeps checksum and revision for every number of endpoints, and every dialed pod runs the new values |
| RestartEffects.UpToDateTemplate | operator/internal/controller/restart_checksum.go:107-120 | a template that carries the checksum stays; a stale marker has all values pushed, unless they hold monitor credentials and replicas are missing |
| RestartEffects.FirstPass | operator/internal/controller/restart_checksum.go:104-106 | without a StatefulSet the pass adopts checksum and both markers |
| RestartEffects.StructuralReport | operator/internal/controller/restart_checksum.go:124-149 | the reported keys are the other keys that differ, and a change counts as pending if and only if the Secret already has its structure |
| RestartEffects.BrokenOff | operator/internal/controller/restart_checksum.go:371-407 | a pass that breaks off moves no marker; endpoints before the fault are where a whole pass takes them, pods not dialed stay |
| RestartSafety.VerdictSound | operator/internal/controller/restart_checksum.go:99-171 | what each verdict guarantees about markers, old and new Secret |
| RestartSafety.KeptChecksum | operator/internal/controller/restart_checksum.go:107-170 | a pass that leaves the template alone has no structural change to deliver |
| RestartSafety.StructuralRestartsNeverLost | operator/internal/controller/restart_checksum.go:99-171 | in every run the structural marker is the hash of the content the template was last rolled for, and after every commit also of the current Secret |
| RestartSafety.VariablesNeverLost | operator/internal/controller/restart_checksum.go:107-170 | in every disciplined run without a dead restart each current pod runs exactly the Secret's values after a commit |
| RestartSafety.CommitSettlesExactly | operator/internal/controller/restart_checksum.go:353-417 | the next commit settles the pods if and only if it is not a dead restart |
| RestartSafety.DeadRestartLoses | operator/internal/controller/restart_checksum.go:353-417 | from any state, a dead restart leaves a current pod on another value |
| RestartSafety.CalmRunsLoseNothing | operator/internal/controller/restart_checksum.go:338-419 | calm runs contain no dead restart and lose nothing |
| RestartWitness.LostWhenNotReady | operator/internal/controller/restart_checksum.go:338-419 | a value edit pushed while the pod is not ready is lost |
| RestartWitness.LostWhenNotRetried | operator/internal/controller/restart_checksum.go:151-157 | a failed push followed by a reverted spec is lost |
| RestartWitness.LostDuringRollout | operator/internal/controller/restart_checksum.go:116-120 | edit and revert of a startup-only variable during a rollout, then the edit again, is lost in a disciplined run |
| RestartStructure.CommitOnStructureExactly | operator/internal/controller/restart_checksum.go:99-171 | in every run the next commit leaves all current pods on its Secret's structure if and only if it changes the template or each had booted on the structure last rolled out |
| RestartStructure.PodsOnStructure | operator/internal/controller/restart_checksum.go:99-171 | in every run that retries interrupted passes, whoever is ready, each commit leaves all current pods on the Secret's structure |
| RestartWitness.PodLeftOnOtherStructure | operator/internal/controller/proxysqlcluster_controller.go:188-282 | without the retry, a pod that booted on an uncommitted Secret keeps another structure after the revert commits |
| RestartWitness.ThreadsEdit | operator/internal/controller/builders/cnf_variables.go:137-174 | a concrete cnf edit meets the premises of those runs |
| Render.ValidateCnfVars | operator/internal/controller/builders/proxysql_cnf.go:129-144 | accepts exactly the maps without reserved names, odd names or unsafe values |
| Render.StripsExact | operator/internal/controller/builders/proxysql_cnf.go:253-268 | a bare name is overlaid exactly when its full name, or the bare name itself, was given |
| Render.StripsUniqueExactly | operator/internal/controller/builders/proxysql_cnf.go:253-268 | the overlay does not depend on map order if and only if no two spellings of one variable disagree |
| Render.PrefixedOneSpelling | operator/api/v1alpha1/proxysqlcluster_types.go:271-283 | under the admission rule no two spellings of a variable disagree, so the overlay is determined |
| Render.MergedCnfVars | operator/internal/controller/builders/proxysql_cnf.go:253-268 | the sorted entries of the defaults under some overlay of the user's variables, any map order allowed |
| Render.KeysOnceExactly | operator/internal/controller/builders/proxysql_cnf.go:159-217 | a section repeats no key if and only if no merged name is a literal line's |
| Render.ReservedExactly | operator/internal/controller/builders/proxysql_cnf.go:56-89 | of accepted variables, a reserved name is reached exactly by its bare spelling |
| Render.RepeatsExactly | operator/internal/controller/builders/proxysql_cnf.go:159-217 | a section whose literal lines are reserved names repeats a key if and only if an accepted variable is the bare name of one |
| Render.AcceptedAvoidReserved | operator/internal/controller/builders/proxysql_cnf.go:56-89 | accepted prefixed variables never bear a reserved name |
| Render.BareKeyAccepted | operator/internal/controller/builders/proxysql_cnf.go:129-144 | the bare name of the credentials line is accepted with every safe value |
| Render.SectionScanned | operator/internal/controller/builders/proxysql_cnf.go:159-217 | scanning a rendered section from outside returns to outside and yields exactly its qualified entries |
| Bootstrap.BootstrapCnf | operator/internal/controller/builders/proxysql_cnf.go:344-392 | renders the specified text, and nothing when the monitor user or a variable is rejected |
| Bootstrap.RoundTrip | operator/internal/controller/builders/proxysql_cnf.go:344-392 | for every accepted input with one-line credentials and names scanning the rendered text gives the defaults and the operator's lines overlaid by the user's values, parsing it the same without the restart-only lines |
| Bootstrap.KeysOnce | operator/internal/controller/builders/proxysql_cnf.go:159-217 | each section holds each key once if and only if no variable is a literal line's bare name; always under the admission rule |
| BootstrapContents.RenderedSettings | operator/internal/controller/builders/proxysql_cnf.go:159-392 | every setting of the file by name: operator-owned lines with the given passwords and ports, the user's values, the defaults of the enabled features, and nothing else |
| BootstrapContents.RenderedVariables | operator/internal/controller/builders/cnf_variables.go:36-58 | the parsed variables are these settings without credentials, listeners and backend TLS paths |
| BootstrapContents.RenderedFrame | operator/internal/controller/builders/proxysql_cnf.go:159-217 | the preamble, the AWS lines exactly when enabled, one line per peer with the admin port, and the final newline |
| BootstrapContents.VariableExactly | operator/internal/controller/builders/proxysql_cnf.go:117-144 | a prefixed variable is accepted if and only if its name and value use admitted characters and it is none of the operator's own |
| BootstrapContents.MonitorNameExactly | operator/internal/controller/builders/builders.go:99-102 | the monitor's name is accepted if and only if it consists of letters, digits, underscore, dot and dash |
| Sql.QuoteReadsBack | operator/internal/proxysqlclient/sync.go:476-495 | a quoted value reads back as the value without its control characters |
| Sql.ControlExactly | operator/internal/proxysqlclient/sync.go:493-495 | the stripped characters, by code |
| Sql.StripExactly | operator/internal/proxysqlclient/sync.go:480-491 | stripping drops these and keeps the rest in order |
| Sql.RedactQuotedLiterals | operator/internal/proxysqlclient/client.go:185-221 | the index loop equals the character automaton |
| Sql.RedactQuoted | operator/internal/proxysqlclient/client.go:185-221 | redacting prefix, quoted value and suffix does not depend on the value |
| Sql.RedactQuotedExactly | operator/internal/proxysqlclient/client.go:185-221 | the three parts are redacted separately if and only if the prefix does not end in a single quote |
| Sql.SnippetLeaksNothing | operator/internal/proxysqlclient/client.go:166-183 | error snippets for two values are equal |
| Sql.SnippetExactly | operator/internal/proxysqlclient/client.go:166-173 | the masked statement, cut after 80 bytes |
| Text.LessExactly | operator/internal/proxysqlclient/union.go:140-147 | the order of keys: the first different byte decides, a proper prefix comes first |
| Desired.HostKeyInjective | operator/internal/proxysqlclient/union.go:129-131 | the merge key text determines hostgroup, host and port, colons in host names included |
| Replication.UnionFind.Find | operator/internal/proxysqlclient/runtime.go:318-332 | returns the root, adds an unknown id as its own class, and path compression keeps every root and the strictly descending parents that make it terminate |
| Replication.UnionFind.Join | operator/internal/proxysqlclient/runtime.go:333-341 | links the larger root under the smaller one |
| Replication.ReplicationClasses | operator/internal/proxysqlclient/runtime.go:314-347 | two hostgroups share a representative if and only if pairs connect them, and it is the smallest id of the component |
| Replication.ExactUnique | operator/internal/proxysqlclient/runtime.go:314-347 | only one class map meets that, whatever the order of pairs |
| Replication.RowsConnect | operator/internal/proxysqlclient/runtime.go:333-341 | a row connects its writer and its reader; without rows a hostgroup is connected to itself only |
| Union.LastWriterWins | operator/internal/proxysqlclient/union.go:43-127 | each key maps to its entry in the last config holding it |
| Union.FlatUnique | operator/internal/proxysqlclient/union.go:129-156 | the strictly ascending slice of a keyed map is unique |
| Union.MergeSection | operator/internal/proxysqlclient/union.go:43-127 | one section of all configs merged through a map and flattened in key order |
| Union.UnionOf | operator/internal/proxysqlclient/union.go:43-127 | all nine sections, three variable maps and the statements of the non-nil configs |
| Union.UnionUnique | operator/internal/proxysqlclient/union.go:43-127 | the union is determined by the configs |
| Union.UnionAssociative | operator/internal/proxysqlclient/union.go:43-127 | merging two merged halves is merging the whole |
| Union.BuildUnionedDesired | operator/internal/controller/proxysqlconfig_controller.go:504-534 | the union of the selected configs in name order, peers filled in when none are given |
| Union.SiblingsAgree | operator/internal/controller/proxysqlconfig_controller.go:504-534 | any two listings of the same configs build one desired state |
| UnionContents.MySQLSectionsMerged | operator/internal/proxysqlclient/union.go:43-127 | each MySQL section holds, of every key given by the fields, the last entry of the counting config with the largest name, and nothing else |
| UnionContents.OtherSectionsMerged | operator/internal/proxysqlclient/union.go:43-127 | so do the PostgreSQL sections and the peers |
| UnionContents.VarsBuilt | operator/internal/proxysqlclient/union.go:89-91 | each variable has its value in the config with the largest name that sets it |
| UnionContents.StatementsInOrder | operator/internal/proxysqlclient/union.go:92 | the statements of a config come before those of every config with a larger name |
| UnionContents.PeersFilled | operator/internal/controller/proxysqlconfig_controller.go:504-534 | the given peers stand in exactly when no counting config lists any; deleted, excluded and foreign configs do not count |
| ServerKeys.TextCanonOfRow | operator/internal/proxysqlclient/runtime.go:401-422 | parsing a row's text back gives the row's canonical key |
| ServerKeys.CanonExact | operator/internal/proxysqlclient/runtime.go:353-358 | two rows have one canonical key if and only if host and port agree and pairs connect the hostgroups |
| Drift.MySQLServerKeys | operator/internal/proxysqlclient/runtime.go:368-379 | each canonical key is named by its smallest row |
| Drift.MySQLDesiredStatuses | operator/internal/proxysqlclient/runtime.go:444-465 | exactly the keys whose rows all set one OFFLINE status |
| Drift.RuntimeServerStatuses | operator/internal/proxysqlclient/runtime.go:401-422 | each key's smallest row and the sorted statuses of all its rows, with multiplicity |
| Drift.MySQLStatusDrift | operator/internal/proxysqlclient/runtime.go:478-495 | each message as often as contradicted keys make it, none if and only if no status is contradicted |
| Drift.DiffKeys | operator/internal/proxysqlclient/runtime.go:549-562 | one message per missing and per extra key, counted, none if and only if the sets agree |
| Drift.DiffServers | operator/internal/proxysqlclient/runtime.go:573-586 | one message per missing and per extra canonical key, counted, named by display key |
| Drift.MySQLServerDrift | operator/internal/proxysqlclient/runtime.go:277-295 | each server message exactly as often as it is due; none if and only if the servers agree on canonical keys |
| Drift.Drift | operator/internal/proxysqlclient/runtime.go:277-304 | the sorted list of messages, each exactly as often as it is due, empty if and only if all tables agree |
| Drift.UserReported | operator/internal/proxysqlclient/runtime.go:529-562 | a user only desired is reported missing, one only at runtime extra, under its table's name |
| Drift.RuleReported | operator/internal/proxysqlclient/runtime.go:537-562 | the same for rules by number |
| Drift.PgServerReported | operator/internal/proxysqlclient/runtime.go:381-391 | the same for PostgreSQL servers, the default port filled in |
| Drift.MissingReported | operator/internal/proxysqlclient/runtime.go:277-295 | a MySQL server with no running row in its class is reported missing by the first row of the class, unless all are OFFLINE_HARD |
| Drift.ExtraReported | operator/internal/proxysqlclient/runtime.go:573-586 | a running MySQL server whose class is not desired is reported extra by its first row |
| Drift.StatusSays | operator/internal/proxysqlclient/runtime.go:478-495 | the text of a status message |
| Runtime.ReadServers | operator/internal/proxysqlclient/runtime.go:199-210 | the rows of the table under their keys, in any order of the answer |
| Runtime.ReadRuntime | operator/internal/proxysqlclient/runtime.go:68-100 | a snapshot of the tables, or nothing if any query failed |
| Runtime.InSyncExactly | operator/internal/proxysqlclient/runtime.go:243-304 | agreement on keys is convergence: servers modulo replication class, all-OFFLINE_HARD absent, all-OFFLINE_SOFT shown on some row, disagreeing rows by membership only, everything else exactly |
| Runtime.ReadBack | operator/internal/proxysqlclient/runtime.go:62-304 | no differences if and only if the replica's tables have converged |
| AdminDb.ExecFrame | operator/internal/proxysqlclient/sync.go:118-407 | a statement leaves every table alone that it does not write or load |
| Sync.Connection.Execute | operator/internal/proxysqlclient/sync.go:29-31 | one statement against the replica and its reply |
| Sync.Connection.ExecuteAll | operator/internal/proxysqlclient/sync.go:109-151 | statements up to the first failure |
| Sync.StepStatements | operator/internal/proxysqlclient/sync.go:118-461 | delete, insert when there are rows, load, save, and variables in name order |
| Sync.Connection.Sync | operator/internal/proxysqlclient/sync.go:53-102 | every step runs, and the returned error names the first that failed |
| Sync.WriteLeaves | operator/internal/proxysqlclient/sync.go:118-151 | whatever the replies, a table step leaves the earlier content, the desired rows or nothing, by which statements took effect |
| Sync.TableApplied | operator/internal/proxysqlclient/sync.go:53-114 | a table written by one step and applied by a later one runs exactly what its write left, when nothing else touches it |
| Sync.SectionsIndependent | operator/internal/proxysqlclient/sync.go:33-102 | for every pattern of failures elsewhere, a section whose steps succeed is at runtime exactly as desired |
| Sync.PluginTablesUntouched | operator/internal/proxysqlclient/sync.go:51-69 | with the AWS plugin in charge MySQL server, hostgroup and user tables stay as they are |
| Sync.RunsWhatWasLeft | operator/internal/proxysqlclient/sync.go:53-151 | without raw statements and for every pattern of replies, a table whose apply step succeeds runs the earlier content, the desired rows or nothing, by which of its statements took effect |
| Sync.RejectedInsertEmpties | operator/internal/proxysqlclient/sync.go:53-151 | without raw statements, a delete that took effect without its insert leaves an empty runtime table once its apply step succeeds |
| Sync.SharedKeyEmpties | operator/internal/proxysqlclient/sync.go:118-151 | without raw statements and with every reply positive, rows that share a primary key leave an empty runtime table |
| Sync.ServersRefusedExactly | operator/internal/proxysqlclient/sync.go:118-151 | the INSERT of the servers repeats a primary key if and only if two servers agree on hostgroup, quoted host and defaulted port |
| Sync.DefaultPortTwiceEmpties | operator/internal/proxysqlclient/sync.go:118-151 | without raw statements and with every reply positive, one server at port 0 and at the default port leaves an empty runtime server table |
| SyncContents.TablesSynced | operator/internal/proxysqlclient/sync.go:118-407 | after an error-free sync all nine tables hold, at runtime and on disk, exactly the desired rows, default ports and status filled in |
| SyncContents.StepNames | operator/internal/proxysqlclient/sync.go:55-93 | the step names that errors carry |
| SyncContents.VariablesSynced | operator/internal/proxysqlclient/sync.go:411-436 | after an error-free sync every desired variable that the replica knows and can take at runtime runs its value |
| Monitor.MonitoredKeeps | operator/internal/proxysqlclient/runtime.go:258-270 | any monitor steps keep every server in its class and every administrative status |
| Resync.SyncPushes | operator/internal/proxysqlclient/sync.go:53-102 | an error-free sync leaves every table exactly as desired, with distinct keys |
| Resync.ServersStay | operator/internal/proxysqlclient/runtime.go:277-304 | whatever the monitor did, servers read back converged if and only if live host names have no control characters |
| Resync.NoRepushLoop | operator/internal/proxysqlclient/runtime.go:243-304 | after an error-free sync and any monitor steps the replica has converged if and only if the desired state is tidy |
| Resync.SwitchoverStays | operator/internal/proxysqlclient/runtime.go:258-295 | moving a server between reader and writer of a desired pair after an error-free sync is not drift, for tidy states |
| Resync.StrayIsDrift | operator/internal/proxysqlclient/runtime.go:277-295 | without pairs a server at another hostgroup, host or port than desired is drift |
| Resync.PushAndReadBack | operator/internal/controller/rds_reconcile.go:146-188 | push then read-back finds nothing exactly for tidy desired states |
| Timestamp.FormatParse | operator/internal/controller/tls_rotation.go:131-149 | a timestamp in the form of section 5.6 of RFC 3339 reads back as the same second |
| Timestamp.NextDay | operator/internal/controller/tls_rotation.go:131-133 | day numbers follow the Gregorian calendar, month lengths and leap years written out |
| Timestamp.FormatExample | operator/internal/controller/tls_rotation.go:131-133 | the order and separators of the six fields |
| TlsRotation.ContentStreamExact | operator/internal/controller/tls_rotation.go:119-127 | equal hash streams mean equal served keys, whatever else the Secret holds |
| TlsRotation.StateRoundTrip | operator/internal/controller/tls_rotation.go:131-149 | a persisted window reads back as its start second for its content |
| TlsRotation.StartOfExactly | operator/internal/controller/tls_rotation.go:139-149 | a start is read if and only if the state is this content, an at sign and a readable time |
| TlsRotation.ReloadAndVerify | operator/internal/controller/tls_rotation.go:310-351 | succeeds if and only if the leaf was seen before the reload or within three probes after it |
| TlsRotation.ResolveTLSRotation | operator/internal/controller/tls_rotation.go:201-303 | the pass through dials and window equals the decision function |
| TlsWindow.WindowNeverLater | operator/internal/controller/tls_rotation.go:131-149 | for one content the persisted start never moves later, across crashes, held passes, passes without endpoints and clock jumps |
| TlsWindow.FallbackOnTime | operator/internal/controller/tls_rotation.go:267-296 | after any such run a failing pass a window length after the start commits the fallback |
| TlsTiming.OpensWindow | operator/internal/controller/tls_rotation.go:267-303 | without an open window for the content a failing pass records its own second and keeps marker and restart value, unless its dials alone outlast the window |
| TlsTiming.KeepsWindow | operator/internal/controller/tls_rotation.go:267-303 | with one it keeps the start, and falls back exactly when two minutes or the configured window are over |
| TlsTiming.WindowProvenance | operator/internal/controller/tls_rotation.go:139-149 | in every run a recorded start is the clock of a failing pass on that content |
| TlsTiming.FallbackNeverEarly | operator/internal/controller/tls_rotation.go:284-296 | in every run a fallback comes a window length, less the rounding of a second, after the clock reading of a failing pass on the same content |
| TlsTiming.UndecidedKeeps | operator/internal/controller/tls_rotation.go:211-265 | a pass that cannot decide changes nothing and fails exactly when something could not be read |
| TlsTiming.Adopts | operator/internal/controller/tls_rotation.go:211-240 | TLS off clears all three values; the first and the current content are taken as they are |
| TlsWindow.ErrorsKeepPending | operator/internal/controller/tls_rotation.go:186-303 | an error leaves marker and restart value; a pass without error that reached replicas has settled the content |
| TlsWindow.ServedContentSettles | operator/internal/controller/tls_rotation.go:235-281 | content served by every endpoint settles at once and without a restart, from any earlier state |
| TlsWindow.RestartsPerChange | operator/internal/controller/tls_rotation.go:201-303 | in every run restart values are set at most once per content change and removed at most as often |
| TlsWindow.RemovedWhenOff | operator/internal/controller/tls_rotation.go:211-215 | a restart value is removed only by a pass with TLS off |
| TlsWindow.MarkerProvenance | operator/internal/controller/tls_rotation.go:235-303 | every marker value was adopted from an empty one, seen served by all endpoints, or committed with its restart |
| TlsWindow.RestartIsLastFallback | operator/internal/controller/tls_rotation.go:201-303 | in every run the restart value is the content of the last fallback since TLS was off |
| TlsWindow.FallbackRestartsExactly | operator/internal/controller/tls_rotation.go:283-296 | in every run a fallback changes the template if and only if the last fallback was to other content |
| TlsWindow.ReturningContentNotRestarted | operator/internal/controller/tls_rotation.go:283-296 | a reachable fallback that restarts nothing |
| TlsSecrets.RequireSecretKeys | operator/internal/controller/tls_secrets.go:173-187 | succeeds if and only if the Secret is readable and every key non-empty |
| TlsSecrets.Builder.EnsureTLSSecrets | operator/internal/controller/tls_secrets.go:92-137 | ready if and only if the selected tier resolves, and only then is a mount set |
| TlsSecrets.Builder.HoldTLSLastGood | operator/internal/controller/tls_secrets.go:204-234 | the wired name, or no TLS at all |
| TlsSecrets.Builder.ValidateBackend | operator/internal/controller/tls_secrets.go:154-168 | fails if and only if a referenced backend Secret lacks its keys |
| TlsSecrets.Builder.HoldBackend | operator/internal/controller/tls_secrets.go:243-289 | the backend becomes the live projection's, or none |
| TlsSecrets.ProjectionReadsBack | operator/internal/controller/tls_secrets.go:263-289 | a backend read from its rendered projection is the rendered backend |
| TlsSecrets.Reconcile | operator/internal/controller/proxysqlcluster_controller.go:160-186 | the four steps in order commit the resolved template |
| TlsSecrets.IntroducedValidated | operator/internal/controller/tls_secrets.go:92-289 | a name not mounted before is mounted only by a pass that validated or minted it |
| TlsSecrets.ResolvedIsWired | operator/internal/controller/tls_secrets.go:92-137 | what resolves is wired: the user's Secret before the managed one, a valid backend by its own names |
| TlsSecrets.FailureHolds | operator/internal/controller/tls_secrets.go:204-234 | while resolution fails the wired serving name stays and an unwired template gets none |
| TlsSecrets.ServingExactly | operator/internal/controller/tls_secrets.go:92-150 | which Secret serves, tier by tier, with the keys it must hold |
| TlsSecrets.BackendExactly | operator/internal/controller/tls_secrets.go:154-168 | a backend validates if and only if its CA Secret has a CA and a named client Secret its pair |
| TlsSecrets.WriteExactly | operator/internal/controller/proxysqlcluster_controller.go:160-186 | without TLS nothing is mounted; a pass ends without a write if and only if something fails to resolve and the template cannot be read |
| TlsSecrets.BackendHeld | operator/internal/controller/tls_secrets.go:243-289 | in every run a pass that mounts TLS and whose backend does not validate keeps the backend names the template mounts |
| TlsSecrets.MountedNamesValidated | operator/internal/controller/tls_secrets.go:65-91 | in every run each mounted name was validated by the pass that introduced it and has been mounted since |
| Certificates.Secrets.EnsureSelfSignedTLS | operator/internal/controller/tls_secrets.go:338-394 | CA kept or minted, certificate kept or issued; fails only on a bad CA key |
| Certificates.PassSettles | operator/internal/controller/tls_secrets.go:338-414 | after a timely pass with a usable CA key, from a certificate within its CA's lifetime, the certificate bundles the current CA, expires no later, covers the names and, given a second to spare, is not due |
| Certificates.CAExactly | operator/internal/controller/tls_secrets.go:342-367 | the CA stays if and only if it outlasts a certificate issued now by the margin, else one of five years replaces it |
| Certificates.ServingExactly | operator/internal/controller/tls_secrets.go:369-414 | the certificate stays if and only if it bundles the CA, covers the names and is not due, or the CA key is unusable; else one for exactly these names replaces it |
| Certificates.NeverOutlivesCA | operator/internal/tlsutil/tlsutil.go:110-116 | from Secrets that meet it, in every run of timely passes, deletions and crashes no certificate outlives its CA |
| Certificates.StaysWithinExactly | operator/internal/tlsutil/tlsutil.go:110-116 | a pass keeps certificates within their CA, whatever Secrets it finds, if and only if its clock readings are timely |
| Certificates.PromptIsTimely | operator/internal/controller/tls_secrets.go:338-394 | for a sound spec and ordered clock readings, passes within the renewal margin are timely, passes two seconds beyond it are not |
| Certificates.MintedCAKept | operator/internal/tlsutil/tlsutil.go:60-66 | a fresh CA passes its own check exactly when duration and margin fit its encoded lifetime |
| Certificates.FullGapExactly | operator/internal/tlsutil/tlsutil.go:136-142 | the full gap is kept exactly when the expiry is a whole second |
| Certificates.ConsecutiveReissues | operator/internal/controller/tls_secrets.go:401-414 | with unchanged spec and CA reissues are more than duration less margin less one second apart |
| Convergence.ObserveReplica | operator/internal/controller/rds_reconcile.go:90-144 | converged if and only if reachable, wholly read and holding the desired state |
| Convergence.RunApplyCycle | operator/internal/controller/rds_reconcile.go:195-202 | the reason of the first failing step |
| Convergence.ApplyReplica | operator/internal/controller/rds_reconcile.go:146-188 | converged if and only if pushed and read back converged |
| Convergence.SummarizeReplicas | operator/internal/controller/rds_reconcile.go:209-221 | every observation is listed and counted once |
| Convergence.Config.Inspect | operator/internal/controller/proxysqlconfig_controller.go:277-291 | observes every endpoint and selects exactly the drifted ones |
| Convergence.Config.PushSelected | operator/internal/controller/proxysqlconfig_controller.go:313-341 | one observation per endpoint, from the push or from a second read-back |
| Convergence.Config.ReconcileReadyReplicas | operator/internal/controller/proxysqlconfig_controller.go:231-370 | the pass computes the specified status |
| Convergence.Accounting | operator/internal/controller/proxysqlconfig_controller.go:253-370 | synced and drifted add up to the endpoints, and the fingerprint is recorded only when every recorded observation converged at the spec version |
| Convergence.DriftedArePushed | operator/internal/controller/proxysqlconfig_controller.go:276-341 | on a resync exactly the replicas not shown converged are recorded by their push, the others by a fresh read-back; after a change all by their push |
| Convergence.SyncedExactly | operator/internal/controller/proxysqlconfig_controller.go:276-341 | all replicas count as synced if and only if each is read back converged, after its push where it was pushed |
| ConfigPass.PassExactly | operator/internal/controller/proxysqlconfig_controller.go:231-370 | a pass rests if and only if the status is recent and for the same content, version, generation and addresses; any other records every replica's outcome with its reason, and time, fingerprint and version when all converged |
| ConfigPass.OverduePassReads | operator/internal/controller/proxysqlconfig_controller.go:895-905 | an interval after the last sync every replica is asked again, a drifted one is recorded by its push, and a clean resync restarts the clock |
| ConfigPass.SyncTimeProvenance | operator/internal/controller/proxysqlconfig_controller.go:285-341 | in every run the sync time is the clock of the last recorded pass in which every replica ended converged |
| ConfigPass.SkippedIsRecent | operator/internal/controller/proxysqlconfig_controller.go:246-264 | in every run a skipped pass lies less than one interval after that pass |
| Replicas.PushReplica | operator/internal/controller/rds_reconcile.go:146-188 | the sync and the observation composed: pushed if and only if every step succeeded, converged as its tables are |
| Replicas.SyncedMeansConverged | operator/internal/controller/proxysqlconfig_controller.go:276-341 | when all replicas count as synced, each whose answers show its tables completely holds the desired state |
| Replicas.RecordedMeansConverged | operator/internal/controller/proxysqlconfig_controller.go:253-370 | a newly recorded fingerprint means that every replica whose answers show its tables completely holds the desired state |
| Replicas.CleanPassRecordsExactly | operator/internal/controller/proxysqlconfig_controller.go:253-370 | a pass with new content, no raw statements and schema statuses, whose pushes meet no error, records its fingerprint if and only if the content is tidy |
| Skipping.SkipSoundExactly | operator/internal/controller/proxysqlconfig_controller.go:253-274 | in every run, lost status writes included, exactly when a skipped pass finds its fingerprint settled |
| Skipping.SkippedAfterScaleDown | operator/internal/controller/proxysqlconfig_controller.go:253-274 | a run in which a pass is skipped although the replica was last given other content |
| Skipping.SkippedAfterLostStatus | operator/internal/controller/proxysqlconfig_controller.go:253-274 | another one, with unchanged endpoints and a lost status write |

## Left out

- Restart.Cluster.Reconcile: a push error writes nothing here, where the source rewrites the StatefulSet with its previous checksum and markers; other template changes, pausing, legacy markers of older operators and edits of the Secret or StatefulSet by others are not events of the model.
- Restart.PushTwice: a replica takes a push as UPDATE then LOAD per domain; ProxySQL's own rewriting of values is not modelled.
- Union.BuildUnionedDesired: resolving user passwords from Secrets, and its errors, comes before the model.
- Union.UnionOf: merges section by section instead of filling twelve maps in one loop.
- Sync.StepStatements: statements are values, not SQL text; defaults, NULLs and stripped characters of columns that are not part of a key, and the order of rows in one INSERT, are not modelled. Only quoting is textual.
- Sync.Connection.Sync: a raw statement may leave any state, so the laws about whole syncs are for desired states without any; variables on disk are not modelled.
- Runtime.ReadRuntime: the default hostgroup of users is read only for the RDS path and is not kept.
- Timestamp.FormatParse: covers UTC without fraction and four-digit years, the only form the operator writes; offsets and fractions in a foreign annotation count as malformed here.
- TlsRotation.ResolveTLSRotation: certificate parsing, trust pools and handshakes are inputs; summaries and error texts are dropped.
- TlsSecrets.Builder.EnsureTLSSecrets: creation and deletion of the cert-manager Certificate is an input flag.
- Certificates.Secrets.EnsureSelfSignedTLS: keys, serial numbers and signatures are not modelled; a certificate is its expiry, names and bundled CA.
- Convergence.Config.ReconcileReadyReplicas: the native path only, without conditions; replica outcomes are inputs here and tied to sync and read-back in `Replicas.dfy`.
- Convergence.ApplyReplica: takes the outcome of the push; `Replicas.PushReplica` is the composition with the sync.
- Convergence.SummarizeReplicas: the count of shunned backends is dropped.
- The RDS and AWS plugin path (client, signing, plugin drift, `NativeRuntime*` filters): it talks to an API that is not part of the repository.
- Deletion of a ProxySQLConfig (finalizer) and the per-address helpers it shares.
- Kubernetes plumbing: owner references, watches, Services, PodDisruptionBudget, ServiceMonitor, pod spec builders, phases and conditions.
- Generated code, charts and the API defaulting: no logic of their own.
