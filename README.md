# kubectl-fzf cache and completion core, in Dafny

kubectl-fzf gives a shell fuzzy completion over Kubernetes resources. Its
core has two parts, and this project models both.

The first part is the cache engine. For each resource kind, a worker
keeps the objects it has seen, keyed by identity. Each incoming event is
classified as an add, an update, a delete or a no-op. The engine then
keeps a cache file in step with the map: an add appends one line, and an
update or a delete rewrites the header and every cached record. It has
five variants, each in its own module:

- three Python engines:
  - `ResourceWatchers` (resource_watcher.py);
  - `Watchers` (watcher.py);
  - `CacheBuilders` (kubectl_fzf_cache_builder.py);
- two Go stores:
  - `K8sStores`: the resource watcher's store;
  - `Stores`: the cache builder's store, with a "dump required" flag and
    a minimum interval between full dumps.

Beside them, the Python supervisor loop (`Supervisors`, the `wait_loop` of
cli.py and of the builder) restarts dead workers. It returns when the
exiting flag is seen or when the kube context changes.

The second part is the completion side. These are the pure helpers behind
the completion:

- `ResourceTypes`: printing and parsing resource kinds;
- `ParseFlag`, `ParseArgs`: classifying the flag being completed and
  extracting the namespace;
- `TagResource`: counting, ordering and rendering label occurrences;
- `Completion`: splitting the command line and the overall completion;
- `Results`: turning the picked fzf line back into shell text;
- `StringUtil`: the "None"/join/truncate helpers;
- `FetcherStates`: the fetcher's per-context state table.

Shared pieces sit in their own modules:

- `PyCaches`: the Python dict or set, seen as an insertion-ordered
  sequence of records with distinct identities, and the file, seen as its
  lines;
- `K8sObjects`: the objects the Go stores receive, their store key, and
  Go's saturating time difference;
- `GoStrings`: Go's `strings.Split`, `Fields` and `Join`, and string order;
- `Ordering`: sorting against a reference insertion sort.

Code that works by mutation is modelled as classes whose methods state
their new state. These are the dumpers, dicts and sets, the Go stores, the
fetcher state and the supervisor. Each such method is tied to a function
of the old state. Lemmas then prove the properties the code promises
about those functions. Loops are methods with invariants.

Rows whose third column starts with "example" are single concrete cases,
mostly from the repository's own tests, kept as regression checks of the
model; they are not general contracts.

Many things are inputs rather than modelled — see "## Left out" for each,
with the reason:

- the clock and its instants;
- liveness of processes;
- the file system's errors;
- the fetch of the cache;
- each kind's constructor, rendering, identity, deletion test and change
  test.

## Model

| member | source | states |
|---|---|---|
| PyCaches.IndexOf | kubectl_fzf_cache_builder/resource_watcher.py:67 | `resource in resource_dict`: the index of the record of that identity, or -1 exactly when the identity is not cached |
| PyCaches.RemoveProps | kubectl_fzf_cache_builder/resource_watcher.py:71 | `pop` drops exactly that identity, one record fewer when it was cached, keeps every other record and keeps identities distinct |
| PyCaches.PutProps | kubectl_fzf_cache_builder/resource_watcher.py:78 | `d[r] = r` leaves r as the record of its identity, the size grows only for a new identity, other records keep their place |
| PyCaches.RewriteSynced | kubectl_fzf_cache_builder/resource_watcher.py:24-31 | a full rewrite leaves the file as the header and then one line per cached record, open and without error |
| PyCaches.AppendKeepsSynced | kubectl_fzf_cache_builder/resource_watcher.py:37-40 | appending a record added at the end writes the header only into an empty file, then one line, and the file keeps showing the cache |
| ResourceWatchers.ResourceDumper.constructor | kubectl_fzf_cache_builder/resource_watcher.py:17-22 | opening the destination for writing leaves it empty and open |
| ResourceWatchers.ResourceDumper.WriteResourcesToFile | kubectl_fzf_cache_builder/resource_watcher.py:24-31 | the file becomes header plus one line per resource; a handle already closed raises |
| ResourceWatchers.ResourceDumper.WriteResourceToFile | kubectl_fzf_cache_builder/resource_watcher.py:33-40 | truncate rewrites the whole cache, otherwise header-if-empty and the one record's line |
| ResourceWatchers.ResourceDumper.Close | kubectl_fzf_cache_builder/resource_watcher.py:42-44 | the handle is closed and set to None, so any later call raises |
| ResourceWatchers.ResourceDict.constructor | kubectl_fzf_cache_builder/resource_watcher.py:111 | the worker's dict starts empty |
| ResourceWatchers.FoundAt | kubectl_fzf_cache_builder/resource_watcher.py:67 | with distinct identities the dict finds the record at its one position |
| ResourceWatchers.DeletePresent | kubectl_fzf_cache_builder/resource_watcher.py:68-74 | a deleted record that is cached is removed, one record fewer, and exactly one rewrite is asked for |
| ResourceWatchers.DeleteAbsent | kubectl_fzf_cache_builder/resource_watcher.py:68-74 | a deleted record that is not cached changes nothing and writes nothing |
| ResourceWatchers.AddAbsent | kubectl_fzf_cache_builder/resource_watcher.py:76-81 | a new record goes to the end of the dict and is appended, not rewritten |
| ResourceWatchers.UnchangedPresent | kubectl_fzf_cache_builder/resource_watcher.py:83-88 | a cached record that did not change causes no write and no change of the dict |
| ResourceWatchers.ChangedPresent | kubectl_fzf_cache_builder/resource_watcher.py:83-88 | a changed record replaces the cached one under the same identity, moved to the end, the size kept, with one rewrite |
| ResourceWatchers.ProcessCheckedSynced | kubectl_fzf_cache_builder/resource_watcher.py:66-88 | every event keeps identities distinct and, when its write does not raise, the file showing the dict (header plus one line per record) |
| ResourceWatchers.ProcessResource | kubectl_fzf_cache_builder/resource_watcher.py:66-88 | the in-place update of the dict and the dumper call agree with the event decision and its write |
| ResourceWatchers.RunAttemptsStep | kubectl_fzf_cache_builder/resource_watcher.py:116-132 | the retry loop is the fold of one stream after the other |
| ResourceWatchers.EventsAfterExit | kubectl_fzf_cache_builder/resource_watcher.py:118-122 | once an event raised and the worker returned, later events change nothing |
| ResourceWatchers.AttemptsAfterExit | kubectl_fzf_cache_builder/resource_watcher.py:116-132 | once the worker returned, later streams change nothing |
| ResourceWatchers.EventsVersion | kubectl_fzf_cache_builder/resource_watcher.py:118-122 | while nothing raised, the resource version is that of the last event (or the one before them) and every event is counted |
| ResourceWatchers.TransientRetries | kubectl_fzf_cache_builder/resource_watcher.py:126-128 | a read-timeout, connection or protocol error keeps the version reached and the next stream starts from it |
| ResourceWatchers.FailedEnds | kubectl_fzf_cache_builder/resource_watcher.py:129-132 | any other exception ends the worker |
| ResourceWatchers.ClosedWriteEnds | kubectl_fzf_cache_builder/resource_watcher.py:125 | after a stream completed the dumper is closed, so the next event that writes raises and the worker returns |
| ResourceWatchers.CompletedCloses | kubectl_fzf_cache_builder/resource_watcher.py:118-125 | a completed stream whose events raised nothing closes the dumper and the loop goes on |
| ResourceWatchers.EventsSynced | kubectl_fzf_cache_builder/resource_watcher.py:118-124 | over any events the dict keeps distinct identities and the file shows it |
| ResourceWatchers.AttemptsSynced | kubectl_fzf_cache_builder/resource_watcher.py:102-132 | over any run of watch_resource the dict never holds one identity twice and the file is the header and one line per cached record |
| ResourceWatchers.WatchResource | kubectl_fzf_cache_builder/resource_watcher.py:102-132 | the loop over streams ends in the state the specification fold gives from version 0 |
| ResourceWatchers.WatchStream | kubectl_fzf_cache_builder/resource_watcher.py:117-132 | one pass of the loop (stream, close, or the exception handlers) does what the step function says |
| ResourceWatchers.ProcessStream | kubectl_fzf_cache_builder/resource_watcher.py:118-124 | the inner loop over a stream's events, stopping at the first that raises, matches the event fold |
| ResourceWatchers.PollResource | kubectl_fzf_cache_builder/resource_watcher.py:134-149 | the polled file ends as the last listing written in full (header plus lines), or empty when there was none |
| Watchers.RenderedDeletePresent | kubectl_fzf_cache_builder/watcher.py:67-70 | a deleted record that is cached is popped, one record fewer, and truncate is set |
| Watchers.RenderedChanged | kubectl_fzf_cache_builder/watcher.py:71-77 | a cached record whose line changed is replaced at the end, the size kept, and truncate is set |
| Watchers.RenderedKeeps | kubectl_fzf_cache_builder/watcher.py:71-77 | a record that is not deleted is always in the dict afterwards, identities kept distinct |
| Watchers.RenderedWritesOnce | kubectl_fzf_cache_builder/watcher.py:65-78 | every event writes exactly once; it truncates exactly on a removal or a changed line, and appends the record otherwise |
| Watchers.ProcessResource | kubectl_fzf_cache_builder/watcher.py:65-78 | the in-place dict update and the dumper call agree with the decision and its write |
| Watchers.UnchangedTwiceDuplicates | kubectl_fzf_cache_builder/watcher.py:71-78 | the same record delivered twice leaves two lines for one cached record: the file no longer shows the dict |
| Watchers.DeletedTwiceAppends | kubectl_fzf_cache_builder/watcher.py:67-78 | a second delete of a record appends its line to a file that had been rewritten without it |
| Watchers.CorrectedKeepsSynced | kubectl_fzf_cache_builder/watcher.py:65-78 | a handler that writes nothing on no-op events keeps the same dict and keeps the file showing it after every event |
| CacheBuilders.DestFile.constructor | kubectl_fzf_cache_builder/kubectl_fzf_cache_builder.py:128 | `open(dest_file, 'w')` leaves the file empty |
| CacheBuilders.DestFile.WriteResourcesToFile | kubectl_fzf_cache_builder/kubectl_fzf_cache_builder.py:83-86 | writes the header and one line per resource where the handle stands |
| CacheBuilders.DestFile.WriteResourceToFile | kubectl_fzf_cache_builder/kubectl_fzf_cache_builder.py:88-98 | a truncating write empties the file and writes header plus all members; else header-if-empty and one line |
| CacheBuilders.ResourceSet.constructor | kubectl_fzf_cache_builder/kubectl_fzf_cache_builder.py:127 | the set starts empty |
| CacheBuilders.ReplaceAtEnd | kubectl_fzf_cache_builder/kubectl_fzf_cache_builder.py:107-111 | remove then add moves the new record to the end, with the same identities |
| CacheBuilders.SetDeletePresent | kubectl_fzf_cache_builder/kubectl_fzf_cache_builder.py:102-105 | a deleted cached member is removed and truncate is set |
| CacheBuilders.SetKeepsOtherwise | kubectl_fzf_cache_builder/kubectl_fzf_cache_builder.py:106-111 | in every other case the record is a member afterwards, a deleted record that was not cached included |
| CacheBuilders.SetPresentTruncates | kubectl_fzf_cache_builder/kubectl_fzf_cache_builder.py:107-111 | a cached identity always truncates, with no comparison of contents; a new one always appends |
| CacheBuilders.ProcessSetSynced | kubectl_fzf_cache_builder/kubectl_fzf_cache_builder.py:100-112 | every event keeps members distinct and the file showing the set |
| CacheBuilders.ProcessResource | kubectl_fzf_cache_builder/kubectl_fzf_cache_builder.py:100-112 | the in-place set update and the file write agree with the decision |
| CacheBuilders.EventsSnoc | kubectl_fzf_cache_builder/kubectl_fzf_cache_builder.py:131-134 | the set and the file after one more event are the handler applied to those before it |
| CacheBuilders.EventsSynced | kubectl_fzf_cache_builder/kubectl_fzf_cache_builder.py:131-134 | after any events the file is the header and one line per member, or empty when nothing was ever added |
| CacheBuilders.WatchResource | kubectl_fzf_cache_builder/kubectl_fzf_cache_builder.py:121-137 | the watch loop ends with the set and the file the event fold gives |
| CacheBuilders.PollResource | kubectl_fzf_cache_builder/kubectl_fzf_cache_builder.py:139-150 | each listing reopens and rewrites the file, which ends as the last listing in full, or untouched when there was none |
| CacheBuilders.DeletedTwiceReadds | kubectl_fzf_cache_builder/kubectl_fzf_cache_builder.py:102-111 | a record deleted twice is removed by the first delivery and added back, with its line, by the second |
| CacheBuilders.CorrectedDropsDeleted | kubectl_fzf_cache_builder/kubectl_fzf_cache_builder.py:100-112 | a handler that never keeps a deleted record keeps the file showing the set and agrees with the written one on every other event |
| Supervisors.WorkerCountAppend | kubectl_fzf_cache_builder/cli.py:80 | appending a process adds one to its worker's count |
| Supervisors.JoinInterrupted | kubectl_fzf_cache_builder/cli.py:65-69 | the join pass is interrupted exactly when the exiting flag is seen after some join |
| Supervisors.JoinDeadMembers | kubectl_fzf_cache_builder/cli.py:65-71 | otherwise the dead list holds exactly the processes seen not alive |
| Supervisors.JoinDeadSub | kubectl_fzf_cache_builder/cli.py:65-71 | the dead list names no process more often than the process list holds it |
| Supervisors.RemoveFirstProps | kubectl_fzf_cache_builder/cli.py:74 | `processes.remove` drops one process and one of its worker |
| Supervisors.RestartNext | kubectl_fzf_cache_builder/cli.py:77-80 | each restart takes the next fresh process identity |
| Supervisors.RestartActions | kubectl_fzf_cache_builder/cli.py:76 | each restart adds a credentials refresh followed by a start, so every start follows a refresh |
| Supervisors.FreshIdentities | kubectl_fzf_cache_builder/cli.py:77-80 | the started processes take consecutive identities from the next fresh one |
| Supervisors.FreshWorkers | kubectl_fzf_cache_builder/cli.py:77-80 | the started processes run the dead ones' workers, in order |
| Supervisors.RestartShape | kubectl_fzf_cache_builder/cli.py:72-80 | after the restarts the list is the old list without the dead processes, followed by their replacements in order |
| Supervisors.RemovedProcs | kubectl_fzf_cache_builder/cli.py:72-74 | removing the dead processes takes out exactly them |
| Supervisors.RemovedSize | kubectl_fzf_cache_builder/cli.py:72-74 | removing them takes out one process per dead process |
| Supervisors.RemovedWorkers | kubectl_fzf_cache_builder/cli.py:72-74 | and one process of each dead process's worker |
| Supervisors.RestartKeepsWorkers | kubectl_fzf_cache_builder/cli.py:72-80 | restarting keeps the number of processes and how many run each worker |
| Supervisors.RestartOneValid | kubectl_fzf_cache_builder/cli.py:74-80 | one restart keeps every identity below the next fresh one |
| Supervisors.RestartValid | kubectl_fzf_cache_builder/cli.py:72-80 | so a new process never shares an identity with one that ran before |
| Supervisors.RunPassesStep | kubectl_fzf_cache_builder/cli.py:63-87 | the loop is the fold of one pass after the other while none returned |
| Supervisors.PassExits | kubectl_fzf_cache_builder/cli.py:63-69 | the exiting flag at the loop head or after any join ends the loop at once, with nothing restarted |
| Supervisors.PassDead | kubectl_fzf_cache_builder/cli.py:65-71 | the processes found dead belong to the list, each as often as the list holds it |
| Supervisors.PassClusterChange | kubectl_fzf_cache_builder/cli.py:72-84 | a pass without the flag restarts exactly the dead processes; it returns when the cluster changed |
| Supervisors.NamespaceChange | kubectl_fzf_cache_builder/cli.py:85-87 | in cli.py a namespace change is ignored while watching 'all' and otherwise returns; the builder's loop (kubectl_fzf_cache_builder.py:251-253) returns on any namespace change |
| Supervisors.PassKeepsWorkers | kubectl_fzf_cache_builder/cli.py:64-80 | a pass keeps the process count and the processes per worker, and refreshes before every start |
| Supervisors.RunKeepsWorkers | kubectl_fzf_cache_builder/cli.py:62-87 | over the whole loop the worker counts never change and every start follows a refresh |
| Supervisors.Supervisor.JoinAll | kubectl_fzf_cache_builder/cli.py:65-71 | the join loop returns at the first flag seen, or the processes found dead |
| Supervisors.Supervisor.RestartDead | kubectl_fzf_cache_builder/cli.py:72-80 | the restart loop leaves the state the restart function gives |
| Supervisors.Supervisor.RunPass | kubectl_fzf_cache_builder/cli.py:63-87 | one pass of the loop (flag, joins, restarts, context check) matches the pass function |
| Supervisors.Supervisor.WaitLoop | kubectl_fzf_cache_builder/cli.py:62-87 | wait_loop over the passes given ends as the pass fold says and returns its reason; the builder's loop (kubectl_fzf_cache_builder.py:228-253) is the same one run with the builder flavour |
| Supervisors.InterruptedStays | kubectl_fzf_cache_builder/cli.py:67-69 | once a join saw the flag the pass is interrupted |
| Supervisors.PassesAfterStop | kubectl_fzf_cache_builder/cli.py:62-87 | once the loop returned, later passes change nothing |
| K8sObjects.ResourceKeyShape | pkg/resourcewatcher/k8s_store.go:70-86 | a key is namespace, '_', name; the namespace reads back from it, and "Unknown" is never a key |
| K8sObjects.ResourceKeyInjective | pkg/resourcewatcher/k8s_store.go:85 | for namespaces without '_', two objects share a key exactly when they share namespace and name |
| K8sObjects.DeleteUnknownKeeps | pkg/resourcewatcher/k8s_store.go:119 | deleting "Unknown" never touches a map of store keys |
| K8sObjects.ListDataKeys | pkg/resourcewatcher/k8s_store.go:90-96 | a listing's map holds exactly the keys of the listed objects |
| K8sObjects.ListDataLatest | pkg/resourcewatcher/k8s_store.go:92-96 | under each key sits the record of the last listed object with that key |
| K8sObjects.FourPodsKeys | pkg/k8s/store/storetest/store_test_common.go:58-66 | example, not a general property: the four test pods give four keys, "ns1_Test1" among them |
| K8sObjects.Sub | pkg/resourcewatcher/k8s_store.go:246 | `time.Sub` saturates to the int64 range |
| K8sObjects.SubCompares | pkg/resourcewatcher/k8s_store.go:246-247 | against any duration the saturated difference compares as the exact one |
| Ordering.SortInPlace | pkg/resourcewatcher/k8s_store.go:178 | `sort.Strings`: the array ends sorted and a permutation of its old contents |
| K8sStores.SortedKeysProps | pkg/resourcewatcher/k8s_store.go:172-178 | the sorted keys are the map's keys, each once, strictly increasing |
| K8sStores.DumpThrottle | pkg/resourcewatcher/k8s_store.go:244-251 | a dump within the interval of the last one is skipped with nothing changed; otherwise the last-dump time becomes now |
| K8sStores.FirstDumpRuns | pkg/resourcewatcher/k8s_store.go:59 | the zero last-dump time never throttles the first dump |
| K8sStores.DumpContents | pkg/resourcewatcher/k8s_store.go:253-274 | the destination is either untouched or exactly the output with an open handle; an error leaves it untouched but the dump time recorded |
| K8sStores.DumpTwiceSkips | pkg/resourcewatcher/k8s_store.go:244-251 | a second dump at the same instant is skipped |
| K8sStores.DumpThenAppend | pkg/resourcewatcher/k8s_store.go:264-273 | after a dump, appends extend the dumped text through the temp file's handle |
| K8sStores.AppendContents | pkg/resourcewatcher/k8s_store.go:153-167 | the first append creates and empties the file; an append adds exactly the record; a closed handle or failed create changes nothing |
| K8sStores.DeleteUnrecognisedKeeps | pkg/resourcewatcher/k8s_store.go:118-130 | a delete of an unrecognised object or an unstructured value leaves the map as it was |
| K8sStores.FourPodsDumpOrder | pkg/resourcewatcher/k8s_store_test.go:79-80 | example, not a general property: the four test pods are dumped in the key order aaa_Test4, ns1_Test1, ns2_Test2, ns2_Test3 |
| K8sStores.K8sStore.constructor | pkg/resourcewatcher/k8s_store.go:47-68 | the file name gets "_ns_<namespace>" for a namespaced watch; empty map, no handle, zero last-dump time |
| K8sStores.K8sStore.GenerateOutput | pkg/resourcewatcher/k8s_store.go:169-189 | the output is one record per key, in increasing key order |
| K8sStores.K8sStore.CollectKeys | pkg/resourcewatcher/k8s_store.go:172-177 | the key array holds each key of the map once |
| K8sStores.K8sStore.RenderInOrder | pkg/resourcewatcher/k8s_store.go:179-186 | the keys' records are rendered one after the other |
| K8sStores.K8sStore.AppendNewObject | pkg/resourcewatcher/k8s_store.go:153-167 | the append follows the file's answers and leaves the map alone |
| K8sStores.K8sStore.DumpFullState | pkg/resourcewatcher/k8s_store.go:244-275 | the dump writes the sorted output under the throttle and the file system's answers, leaving the map alone |
| K8sStores.K8sStore.DumpText | pkg/resourcewatcher/k8s_store.go:245-274 | the dump steps: throttle, time recorded, temp file, write, close, rename |
| K8sStores.K8sStore.AddResourceList | pkg/resourcewatcher/k8s_store.go:90-102 | the map is replaced by exactly the listed objects, then a dump follows |
| K8sStores.K8sStore.AddResource | pkg/resourcewatcher/k8s_store.go:105-115 | the object is filed under its key and its record appended |
| K8sStores.K8sStore.DeleteResource | pkg/resourcewatcher/k8s_store.go:118-136 | only the object's key (or "Unknown") is removed, then a dump follows |
| K8sStores.K8sStore.UpdateResource | pkg/resourcewatcher/k8s_store.go:139-150 | the map changes, and a dump happens, only when the change test holds |
| Stores.StoreDumpEffect | pkg/k8s/store/store.go:160-179 | a dump does nothing unless the flag is up and the interval passed; then it lowers the flag and records the time before encoding; an encode or create error leaves the file as it was, the file holds the map exactly when every encoder step went through, and otherwise it is left damaged, also when a failed close is not reported |
| Stores.StoreDumpSettles | pkg/k8s/store/store.go:160-172 | after a dump that went through, another does nothing until a change raises the flag |
| Stores.EncodeToFileEffect | pkg/util/encoding.go:17-39 | `util.EncodeToFile`: an error is returned exactly when the gob encode, the create or the copy fails; a failure before the create leaves the file alone; after it the file holds the map only when the copy and the deferred closes succeed, and is damaged otherwise |
| Stores.CountNamespaces | pkg/k8s/store/store.go:142-151 | the counting loop leaves one counter per namespace seen, holding its number of records |
| Stores.CountedAll | pkg/k8s/store/store.go:141-157 | exactly the records' namespaces are counted, each positive, and the counts sum to the number of entries |
| Stores.SumOfParts | pkg/k8s/store/store.go:142-151 | the counters of the visited keys add up to their number |
| Stores.Store.constructor | pkg/k8s/store/store.go:37-51 | a new store has an empty map, no pending dump and the zero last-dump time |
| Stores.Store.AddResourceList | pkg/k8s/store/store.go:85-93 | the map is replaced by exactly the listed keys and the dump flag is raised |
| Stores.Store.AddResource | pkg/k8s/store/store.go:96-104 | the object is filed under its key and the dump flag is raised |
| Stores.Store.DeleteResource | pkg/k8s/store/store.go:107-124 | an object of unknown type returns with no change; otherwise only its key is removed and the flag raised |
| Stores.Store.UpdateResource | pkg/k8s/store/store.go:127-139 | with no change the map and the flag are left alone; with a change the record is replaced and the flag raised |
| Stores.Store.GetStats | pkg/k8s/store/store.go:141-157 | the stats count the records per namespace and report the last dump time |
| Stores.Store.DumpFullState | pkg/k8s/store/store.go:160-179 | the dump follows the flag, the throttle and the answers of the encoder's steps, as StoreDumpEffect spells out, and leaves the map alone |
| Stores.FourPodsStore | pkg/k8s/store/storetest/store_test_common.go:58-66 | example, not a general property: four pods added to a new store give four keys, "ns1_Test1" among them, and a pending dump |
| ResourceTypes.TypeName | internal/k8s/resources/resource_type.go:46-88 | every kind prints as a non-empty plural name |
| ResourceTypes.ParseNamesA | internal/k8s/resources/resource_type.go:90-140 | example, not a general property: printed plurals parse back to their kind (first group) |
| ResourceTypes.ParseNamesB | internal/k8s/resources/resource_type.go:90-140 | example, not a general property: printed plurals parse back to their kind (second group) |
| ResourceTypes.ParseNamesC | internal/k8s/resources/resource_type.go:90-140 | example, not a general property: printed plurals parse back to their kind (third group) |
| ResourceTypes.ParseNamesD | internal/k8s/resources/resource_type.go:90-189 | example, not a general property: printed plurals parse back (fourth group); "ingresses" and "unknown" are Unknown |
| ResourceTypes.ParseTypeName | internal/k8s/resources/resource_type.go:46-189 | parsing a printed kind gives it back for every known kind except Ingress, whose plural is not an alias |
| ResourceTypes.TypeNameInjective | internal/k8s/resources/resource_type.go:46-88 | distinct kinds print differently |
| ResourceTypes.ParseShortAliases | internal/k8s/resources/resource_type.go:142-187 | "sts", "sa", "po", "p" and "pvc" parse to their kind |
| ResourceTypes.ParseOtherNames | internal/k8s/resources/resource_type.go:189 | other aliases parse; "" is Unknown |
| ResourceTypes.GetResourceSetFromSlice | internal/k8s/resources/resource_type.go:192-202 | an error exactly when some name is unknown, naming the first such; otherwise exactly the set of parsed kinds |
| ResourceTypes.FirstParsed | internal/k8s/resources/resource_type.go:218-224 | the first argument that parses to a kind, or Unknown exactly when none does |
| ResourceTypes.GetResourceType | internal/k8s/resources/resource_type.go:204-225 | Pod for logs and exec, ApiResource for at most one argument, else the first parsable argument or Unknown |
| ResourceTypes.FirstParsedAt | internal/k8s/resources/resource_type.go:218-224 | the scan returns at the first argument that parses |
| ResourceTypes.GetResourceTypeExamples | internal/k8s/resources/resource_type_test.go:33-35 | example, not a general property: the test table's cases |
| ParseFlag.ParsePreviousFlag | internal/parse/parse_flag.go:27-42 | a flag before the completed word is never Unmanaged; unknown flags give None |
| ParseFlag.ParseLastFlag | internal/parse/parse_flag.go:44-63 | a flag being completed is never None; unknown flags give Unmanaged |
| ParseFlag.CheckFlagManaged | internal/parse/parse_flag.go:65-86 | no words give None; any ">" gives Unmanaged; Unmanaged and None each hold exactly in the cases the code lists |
| ParseFlag.PenultimateDecides | internal/parse/parse_flag.go:79-84 | while a plain word is being typed after a flag, that flag alone decides |
| ParseFlag.UnmanagedExamples | internal/parse/parse_flag_test.go:9-20 | example, not a general property: the unmanaged cases of the test table |
| ParseFlag.SelectorExamples | internal/parse/parse_flag_test.go:29-31 | example, not a general property: the label and field-selector cases |
| ParseFlag.NoFlagExamples | internal/parse/parse_flag_test.go:32-36 | example, not a general property: the cases where no flag is completed |
| ParseFlag.NamespaceExamples | internal/parse/parse_flag_test.go:37-40 | example, not a general property: the namespace cases |
| ParseArgs.ParseFlagAndResources | pkg/parse/parse_args.go:16-36 | an unmanaged flag errs with Unknown; a namespace flag gives Namespace without error; otherwise the command's kind, with an error exactly when it is Unknown |
| ParseArgs.ParseKindWord | pkg/parse/parse_args.go:29-35 | a kind word followed by the word being typed gives that kind and no flag |
| ParseArgs.AssignedValue | pkg/parse/parse_args.go:43-44 | "--namespace=..." gives the text after '=' up to the next '=' |
| ParseArgs.NamespaceFrom | pkg/parse/parse_args.go:39-47 | the scan finds the first word that names a namespace, or none |
| ParseArgs.ParseNamespaceFromArgs | pkg/parse/parse_args.go:38-48 | the namespace after the first "-n"/"--namespace" that has a next word, or of the first "--namespace=x"; nil when there is none |
| ParseArgs.AssignedPlainValue | pkg/parse/parse_args.go:43-44 | "--namespace=x" gives x when x holds no '=' |
| ParseArgs.TrailingFlagNamesNothing | pkg/parse/parse_args.go:40-41 | a trailing "-n" with nothing after it names no namespace |
| ParseArgs.NamespaceExamples | pkg/parse/parse_args.go:38-48 | example, not a general property: "-n kube-system" names kube-system; a trailing "-n" names nothing |
| TagResource.LessIsStrictTotalOrder | internal/completion/tag_resource.go:34-42 | more occurrences first, then namespace, then value: a strict total order |
| TagResource.ToStringFields | internal/completion/tag_resource.go:45-51 | a rendered pair splits at tabs into three fields when namespaced and two otherwise, the count last |
| TagResource.TagHeaderFields | internal/completion/tag_resource.go:99-108 | the header is [Namespace], Label or FieldSelector, Occurrences, tab-separated |
| TagResource.RenderKey | internal/completion/tag_resource.go:72 | the key of a "k=v" tag reads back from it |
| TagResource.CountOneTag | internal/completion/tag_resource.go:71-75 | counting a tag adds one to its rendering's count and nothing else |
| TagResource.AddTag | internal/completion/tag_resource.go:73-74 | the increment keeps the counts right and positive |
| TagResource.CountTags | internal/completion/tag_resource.go:71-75 | one resource adds one per tag to the count of its rendering |
| TagResource.GetTagResourceOccurrences | internal/completion/tag_resource.go:53-79 | API resources err; a failed fetch is passed on; otherwise the map holds exactly the occurring keys with their counts over the resources in the filter |
| TagResource.CountOutsideFilter | internal/completion/tag_resource.go:64 | with a namespace filter, keys of other namespaces count zero |
| TagResource.RenderingAtMostOne | internal/completion/tag_resource.go:72 | when no tag key holds '=', at most one key renders as a given value |
| TagResource.CountIsCarriers | internal/completion/tag_resource.go:71-75 | a key's count is the number of resources in the filter carrying it |
| TagResource.Rendered | internal/completion/tag_resource.go:94-97 | one line per pair |
| TagResource.PairList | internal/completion/tag_resource.go:87-90 | the pair list holds each entry of the map once |
| TagResource.SortedPairs | internal/completion/tag_resource.go:87-91 | the pairs in increasing order |
| TagResource.GetTagResourceCompletion | internal/completion/tag_resource.go:81-110 | as written: API resources err, a failed count is passed on, otherwise the header and the sorted rendered pairs of the occurrence counts, with the namespace column for every kind, since `IsNamespaced` is always true |
| TagResource.CompleteTags | internal/completion/tag_resource.go:81-110 | for either choice of the namespace column: the header and the occurrence counts' pairs in increasing order, one rendered line each, or the errors of the count |
| TagResource.GetTagResourceCompletionCorrected | internal/completion/tag_resource.go:81-110 | the same completion with the namespace column shown exactly for kinds whose objects live in a namespace |
| TagResource.NodeHeaderAsWritten | internal/completion/tag_resource.go:93 | as written the node label header has a Namespace column |
| TagResource.NodeHeaderCorrected | internal/completion/tag_resource_test.go:52 | with cluster-scoped kinds told apart, the node header is "Label\tOccurrences" |
| TagResource.PodHeaderCorrected | internal/completion/tag_resource_test.go:40 | pods keep the Namespace column |
| TagResource.NodeLabelsAsWritten | internal/completion/tag_resource.go:93-108 | as written, the label completion of nodes has the header "Namespace\tLabel\tOccurrences", whatever the nodes |
| TagResource.NodeLabelsCorrected | internal/completion/tag_resource_test.go:45-52 | the corrected label completion of nodes has the header "Label\tOccurrences" the node test expects, whatever the nodes |
| StringUtil.NoneForEmpty | pkg/util/string.go:34-38 | every empty field becomes "None", others are kept |
| StringUtil.DumpLine | pkg/util/string.go:33-41 | the slice is rewritten in place with "None" for empty fields, and one space-joined line is returned |
| StringUtil.DumpLineSplits | pkg/util/string.go:39 | a dumped line splits at spaces back into its fields when none holds a space |
| StringUtil.StringSlicesEqual | pkg/util/string.go:44-54 | true exactly when the slices are equal |
| StringUtil.StringMapsEqual | pkg/util/string.go:57-67 | as written: same size and every key of a reads the same in b, a missing key reading as "" |
| StringUtil.MissingKeyReadsAsEmpty | pkg/util/string.go:61-65 | two different maps that the comparison as written calls equal |
| StringUtil.MapsEqual | pkg/util/string.go:57-67 | with the missing-key check: true exactly when the maps are equal |
| StringUtil.JoinSlicesOrNone | pkg/util/string.go:83-88 | "None" for no field |
| StringUtil.JoinSlicesOrNoneSplits | pkg/util/string.go:87 | a non-empty join splits back into its fields |
| StringUtil.JoinWithMaxSplits | pkg/util/string.go:70-80 | the whole list when shorter than max, else its first max fields then "..." |
| StringUtil.JoinSlicesWithMaxOrNone | pkg/util/string.go:70-80 | as written: the bounded join, and the caller's element at index max overwritten by "..." |
| StringUtil.CapOverwritesCallerSlice | pkg/util/string.go:77-78 | three addresses capped at one: the join shows one and "...", and the caller's second address now reads "..." |
| StringUtil.TruncateString | pkg/util/string.go:91-96 | a prefix of length min(len, max) |
| StringUtil.StringSliceToSet | pkg/util/string.go:99-105 | the keys are exactly the elements, each mapped to true |
| StringUtil.EntriesSound | pkg/util/string.go:108-117 | every entry renders a kept key |
| StringUtil.EntriesCover | pkg/util/string.go:108-117 | every kept key is rendered |
| StringUtil.EntriesCount | pkg/util/string.go:108-117 | one entry per kept key |
| StringUtil.EntriesOfEnumeration | pkg/util/string.go:108-117 | over the map's keys, exactly the non-excluded keys are rendered, once each |
| StringUtil.JoinStringMap | pkg/util/string.go:108-117 | one "k<sep>v" per key not excluded, and nothing else |
| StringUtil.LastURLPart | pkg/util/string.go:120-123 | the suffix after the last '/', holding no '/', or the whole url without '/' |
| FetcherStates.WithContext | internal/fetcher/fetcher_state.go:33-43 | a lookup keeps every entry as it was and adds only the context looked up, with an empty entry when it was unknown |
| FetcherStates.WithContextKeeps | internal/fetcher/fetcher_state.go:33-43 | a second lookup of a context changes nothing, and lookups of two contexts give the same table in either order |
| FetcherStates.FetcherState.constructor | internal/fetcher/fetcher_state.go:26-31 | a new state has an empty table and nothing changed |
| FetcherStates.FetcherState.GetContextState | internal/fetcher/fetcher_state.go:33-43 | the entry of a context, inserted empty when missing, with the flag left alone |
| FetcherStates.FetcherState.LoadStateFromDisk | internal/fetcher/fetcher_state.go:45-55 | nothing without a file; a read or decode error is returned; otherwise the decoded table is merged in |
| FetcherStates.FetcherState.WriteToDisk | internal/fetcher/fetcher_state.go:57-67 | nothing when nothing changed; a marshal error or a failed open is returned with the file as it was; a write or close error is returned with the file truncated and damaged; otherwise the file holds the table |
| FetcherStates.FetcherState.GetLastModifiedTime | internal/fetcher/fetcher_state.go:69-76 | nil exactly when there is no time for that kind |
| FetcherStates.FetcherState.GetFzfNamespace | internal/fetcher/fetcher_state.go:78-81 | the context's namespace, "" for a new context |
| FetcherStates.FetcherState.UpdateLastModifiedTimes | internal/fetcher/fetcher_state.go:83-88 | the time is set and the table marked changed |
| FetcherStates.FetcherState.UpdateNamespace | internal/fetcher/fetcher_state.go:90-98 | the namespace is set; the table is marked changed only when it differed |
| FetcherStates.UpdateThenWrite | internal/fetcher/fetcher_state.go:57-67 | after an update a write that does not fail saves the new time |
| FetcherStates.SameNamespaceNoOp | internal/fetcher/fetcher_state.go:90-94 | the same namespace again on a known context changes nothing |
| Completion.PrepareCmdArgs | internal/completion/completion.go:17-28 | nil unless there is exactly one argument |
| Completion.PrepareCmdArgsMarker | internal/completion/completion.go:23-27 | the trailing " " marker is there exactly when the line ends with a space |
| Completion.PrepareCmdArgsWords | internal/completion/completion.go:22 | the words are non-empty and free of white space |
| Completion.TwoWords | internal/completion/completion_test.go:36 | example, not a general property: "get pods" gives ["get", "pods"] |
| Completion.TwoWordsAndSpace | internal/completion/completion_test.go:37 | example, not a general property: "get pods " gives ["get", "pods", " "] |
| Completion.PrepareCmdArgsExamples | internal/completion/completion_test.go:36-37 | example, not a general property: the test table's two rows |
| Completion.QueryOfLine | internal/completion/completion.go:46-55 | `ExtractQueryFromArgs` on a prepared line: the query is empty exactly when the line ends with a space or holds no word, and it never holds white space |
| Completion.CompsMembers | internal/completion/completion.go:38-42 | a line is a completion exactly when a resource in the namespace filter renders it |
| Completion.GetResourceCompletion | internal/completion/completion.go:30-44 | the lines of the resources in the filter, in listing order; a fetch error is passed on |
| Completion.SortStrings | internal/completion/completion.go:81 | the completions sorted, the same lines |
| Completion.ProcessCommandArgs | internal/completion/completion.go:57-83 | a parse error is returned; tag flags give the tag completion as written, with its namespace column for every kind, or its error; otherwise the kind's header and its sorted completions, or an empty list and the wrapped fetch error |
| Results.ProcessResultWithNamespace | internal/results/results.go:38-93 | fewer than two fields err; a parse error is passed on; API resources give field 0 |
| Results.NamespaceSuffix | internal/results/results.go:84-92 | the value, glued to a trailing flag, with " -n <field 0>" exactly when field 0 differs from the command's and the current namespace and no namespace is completed |
| Results.NamespaceCompletion | internal/results/results.go:64-92 | completing a namespace gives field 0, glued to the flag, never with " -n" |
| Results.ProcessResultCorrected | internal/results/results.go:56-66 | fewer than two fields err, with cluster-scoped kinds told apart |
| Results.CorrectedAgrees | internal/results/results.go:56-92 | the corrected result agrees on namespaced kinds and gives field 0, never with " -n", for cluster-scoped kinds |
| Results.PodPick | internal/results/results_test.go:40-42 | example, not a general property: a pod in another namespace gets " -n <ns>"; in the current one it is returned as is |
| Results.LabelPick | internal/results/results_test.go:53 | example, not a general property: "-l" gives "-ltier=control-plane -n kube-system" |
| Results.NamespacePick | internal/results/results_test.go:48 | example, not a general property: a namespace picked after "-n" is glued to the flag |
| Results.ApiResourcePick | internal/results/results_test.go:60 | example, not a general property: an API resource pick is its first column |
| Results.NodeLabelAsWritten | internal/results/results_test.go:55 | as written the node label row gives "-l1 -n beta.kubernetes.io/arch=amd64" |
| Results.NodeLabelCorrected | internal/results/results_test.go:55 | with cluster-scoped kinds told apart it gives "-lbeta.kubernetes.io/arch=amd64", as the test expects |

## Left out

- Python I/O and processes: the Kubernetes client, `watch.Watch`, the `watches` list and `stop_watches` are left out. So are signal handlers, logging, `time.sleep`, process start and join, `KubeConfiguration`, and `get_current_context` (cli.py:90-94). Each stream's events and end, each pass's liveness and flag, and the context are inputs.
- The Python `while True` and `while exiting is False` loops run over a finite list of inputs given up front. The source loops for ever.
- Python 2 dicts and sets have no defined order. The model uses insertion order, so the exact file contents hold for that order.
- `str(resource)`, the identity, `is_deleted` and `has_changed` of each resource class are parameters. The resource classes are not part of this model.
- `main` in cli.py (cli.py:97-121) and in the builder, `start_watches` and `get_process` are left out: they are process wiring.
- watcher.py's `watch_resource` (watcher.py:87-112) and `poll_resource` (watcher.py:114-127) are left out. Their loops are those of resource_watcher.py without the sleeps, which `ResourceWatchers.WatchResource` and `ResourceWatchers.PollResource` model. Only watcher.py's event handler and dumper use differ, and `Watchers.ProcessResource` models that handler.
- The builder's `watch_resource` stream is one finite list of events: the source has no retry there.
- Process objects are identified by a process id. Comparing the `(p, cls)` tuples is comparing those ids.
- Go files: paths and `util.GetDestFileName` are left out. The cache directory and file names are parameters. So are `util.WriteHeaderFile` (k8s_store.go:65), the `WatchRequest` channel loop (k8s_store.go:216-241) and the `fullDumpTicker` goroutine (store.go:53-62).
- Go file-system answers are inputs: temp file creation, write, flush, sync and rename. Temp file names are not modelled, and an error is its message. The `strings.Builder` write in `generateOutput` cannot fail, so its error branch is left out.
- `util.EncodeToFile` (store.go:176) is modelled by the answers of its steps and the file they leave: as it was, holding the map, or damaged. The gob and gzip encodings themselves are left out, so a damaged file carries no contents.
- FetcherStates.FetcherState.LoadStateFromDisk: what a damaged state file decodes to is an input, like the decoding of any file.
- `resourceKey` on an `*unstructured.Unstructured` whose metadata map lacks a name or namespace panics. The model assumes both are present.
- In `DeleteResource`, a value of type `unstructured.Unstructured` hits the empty case of k8s_store.go:123 and store.go:112, so the key "Unknown" is deleted. The model does the same. Whether such a value would also match `ObjectMetaAccessor` is not modelled: the first case wins.
- `HasChanged` against `k.data[key]` for a missing key receives the nil interface. The model passes None.
- The `dataMutex` locking and the races between the ticker and the handlers are left out: concurrency.
- Go map iteration order is an input. For `JoinStringMap` it is an enumeration of the keys; for `GetStats` and `CollectKeys` it is any order. Results that do not depend on it are proved for every order.
- The fetch of resources, `fetcher.GetNamespace`, the `ResourceToHeader` of each kind, `parseNamespaceFlag` (pflag) and JSON encoding of the fetcher state are parameters. `errors.Wrapf` is modelled as string concatenation.
- `path.Join` in `newFetcherState` is left out: the state path is given.
- FetcherStates.FetcherState.LoadStateFromDisk: a decode that fails part-way may already have changed the table in Go. The model leaves the table as it was.
- StringUtil.JoinSlicesWithMaxOrNone: the overwrite is modelled for a slice whose capacity equals its length, and a negative max, which panics in Go, is not modelled.
- StringUtil.TruncateString: Go truncates a byte string. The model truncates a sequence of characters, and does not model cutting inside a multi-byte character. Its `max` is a natural number: `s[:max]` with a negative max panics in Go, which the only caller (internal/k8s/resources/pod.go:131, with 300) never does.
- ParseArgs.ParseFlagAndResources: pkg/parse/parse_args.go imports pkg/k8s/resources, which is not part of this model; the kinds and the parser of internal/k8s/resources stand in for it. The completion code that calls the parser imports internal/parse.
- GoStrings.Less compares code points. Go compares UTF-8 bytes, which gives the same order on valid UTF-8.
- Resource age rendering, regex filtering, the per-kind data mappers, the HTTP server, port forwarding and the daemon are not part of this model.

## Findings

| source | as written | input that shows it | evidently intended | confidence | as-written member | corrected member |
|---|---|---|---|---|---|---|
| pkg/util/string.go:57-67 | `StringMapsEqual` reads `b[k]` without checking that k is in b, so a missing key reads as "" | `{"x": ""}` and `{"y": ""}` are called equal | equal exactly when both maps have the same keys and values | not executed | StringUtil.MissingKeyReadsAsEmpty | StringUtil.MapsEqual |
| pkg/util/string.go:77-78 | `append(sl[:max], "...")` writes "..." into the caller's slice at index max when it has room | three IPs capped at one: the caller's second IP becomes "..." | leave the caller's slice alone | not executed | StringUtil.CapOverwritesCallerSlice | StringUtil.JoinWithMaxSplits |
| internal/k8s/resources/resource_type.go:42-44 | `IsNamespaced` is true for every kind, so nodes get a Namespace column | the node label header is "Namespace\tLabel\tOccurrences"; tag_resource_test.go:52 expects "Label\tOccurrences" | cluster-scoped kinds (nodes, namespaces, persistent volumes) are not namespaced | not executed | TagResource.GetTagResourceCompletion | TagResource.GetTagResourceCompletionCorrected |
| internal/results/results.go:61-66 | every kind other than API resources and namespaces reads column 0 as a namespace | "beta.kubernetes.io/arch=amd64 1" with `get nodes -l` gives "-l1 -n beta.kubernetes.io/arch=amd64"; results_test.go:55 expects "-lbeta.kubernetes.io/arch=amd64" | column 0 is the value for cluster-scoped kinds, with no " -n" | not executed | Results.NodeLabelAsWritten | Results.NodeLabelCorrected |
| kubectl_fzf_cache_builder/watcher.py:65-78 | an event that removes nothing and changes no line still appends the record's line | the same record delivered twice leaves two lines (`Watchers.UnchangedTwiceDuplicates`); a record deleted twice gets its line back | no-op events write nothing, so the file keeps showing the dict | not executed | Watchers.DeletedTwiceAppends | Watchers.CorrectedKeepsSynced |
| kubectl_fzf_cache_builder/kubectl_fzf_cache_builder.py:100-111 | a deleted record that is not cached falls into the else branch and is added | a record deleted twice (deletion timestamp, then the DELETED event) ends up cached and in the file | a deleted record is never kept | not executed | CacheBuilders.DeletedTwiceReadds | CacheBuilders.CorrectedDropsDeleted |
