# namespace2chart: the decision logic of `Main`, in Dafny

namespace2chart is a command-line tool that turns the resources of a
Kubernetes/OpenShift namespace into a Helm chart. In the code as written,
only the front of that pipeline exists. The rest is two stubs. This project
models that front:

- **Kube configuration.** The current context is split on `/`. Segment 1 is
  the cluster master and segment 0 is the namespace. A cluster and a user are
  picked by a name that ends with the master.
- **API description.** The parsed OpenAPI document goes through a sanity
  check. Two maps are built from it: the export paths and the type map.
- **Verbosity.** The number of `-v` flags is mapped to a log level.
- **`call`.** The stages run in order, and the first failing stage decides
  the exit code.

Files and modules:

- `wrappers.dfy` (`Wrappers`): `Option` stands for Java's null, and `Result`
  stands for "returned or threw".
- `exceptions.dfy` (`Exceptions`): the exceptions `call` catches or lets
  escape.
- `javastring.dfy` (`JavaString`): `endsWith`, `contains`, and `split("/")`
  with Java's exact rules. With limit 0, trailing empty pieces are dropped,
  and a string without the delimiter gives `[s]`. Split is characterised
  against `Join`.
- `streams.dfy` (`Streams`): the entry-set stream of a map, in any iteration
  order, plus `filter` and `Collectors.toMap`. `toMap` throws on a duplicate
  key, and the model proves when that can and cannot happen.
- `openapi.dfy` (`OpenApi`): the parse-result records,
  `retrieveSwaggerSpecification`'s null checks, `buildExportPathList` and
  `buildTypeMap`.
- `kubeconfig.dfy` (`KubeConfig`): the kubeconfig record and `exctractKubeToken`.
- `verbosity.dfy` (`Verbosity`): `setVerbosity`'s mapping from count to level.
- `main.dfy` (`Namespace2Chart`): class `Main`. Its fields are
  `kubeClusterUrl`, `namespace` and `kubeMaster`. Its methods are
  `extractClusterDetails` and `call`.

Outside effects become parameters:

- What loading the kubeconfig gave is the `read` parameter of `Call`.
- What the OpenAPI parser gave is the `fetched` parameter of `Call`.
- A hash map's iteration order is the `order` parameter of the map builders.
  The method `KeyOrder` chooses one nondeterministically. No result depends
  on it.

Java exceptions that `call` does not catch are modelled too. They end `Call`
as `Escaped(e)`, where picocli would report a failure:

- `ArrayIndexOutOfBoundsException` from `cfg[1]`.
- `NullPointerException` for a matching user without a token.
- `NullPointerException` for an API document without a paths map.

These points follow the code:

- The export-path filter applies only two substring tests (contains
  `{namespace}`, does not contain `/watch`), so single-instance paths such as
  `.../configmaps/{name}` are kept.
- The code never uses the list of ignored kinds.
- `buildResourceMap` is a stub that never throws, so `call` can never return
  exit code 5 (`Main.Call` ensures `o != Exit(5)`).

## Model

| member | source | states |
|---|---|---|
| `JavaString.SplitSpec` | src/main/java/com/zanclus/kubernetes/helm/namespace2chart/Main.java:189 | `split("/")` is characterised: joining its pieces with `/` gives the context less its trailing slashes; no piece contains `/`; and the last piece is empty only for `"".split("/") == [""]` |
| `JavaString.SplitHasTwoPieces` | src/main/java/com/zanclus/kubernetes/helm/namespace2chart/Main.java:189-190 | `cfg[1]` exists (at least two pieces) exactly when some `/` in the context is followed later by a character other than `/` |
| `JavaString.SplitFirstTwoPieces` | src/main/java/com/zanclus/kubernetes/helm/namespace2chart/Main.java:189-190 | with two pieces or more, piece 0 (the namespace) is the text before the first `/`, and piece 1 (the master) is the text from there to the next `/` or the end |
| `Streams.KeyOrder` | src/main/java/com/zanclus/kubernetes/helm/namespace2chart/Main.java:145 | the entry set is streamed in some order that lists every key of the map exactly once |
| `Streams.Entries` | src/main/java/com/zanclus/kubernetes/helm/namespace2chart/Main.java:145 | the streamed entries are exactly the map's (key, value) pairs, with distinct keys |
| `Streams.Filter` | src/main/java/com/zanclus/kubernetes/helm/namespace2chart/Main.java:146-147 | `filter` keeps exactly the entries that satisfy the predicate, and keeps their keys distinct |
| `Streams.AccumulateSucceeds` | src/main/java/com/zanclus/kubernetes/helm/namespace2chart/Main.java:148 | folding entries into a map fails exactly when a key repeats or is already present |
| `Streams.ToMapSpec` | src/main/java/com/zanclus/kubernetes/helm/namespace2chart/Main.java:148 | `Collectors.toMap` succeeds if and only if the keys are distinct; its map then has exactly the entries' keys, each with its entry's value |
| `OpenApi.RetrieveSwaggerSpecification` | src/main/java/com/zanclus/kubernetes/helm/namespace2chart/Main.java:165-175 | "not logged in", with the expired-credentials message, exactly when the parser threw a NullPointerException or the result, its document, its components or its schemas is absent; otherwise the parse result unchanged |
| `OpenApi.BuildExportPathList` | src/main/java/com/zanclus/kubernetes/helm/namespace2chart/Main.java:144-149 | a key is in the result if and only if it is a path key containing `{namespace}` and not `/watch`; its value is unchanged (so the result is a sub-map); any iteration order gives this result; with no document or paths map, a NullPointerException |
| `OpenApi.WatchPathsAreDropped` | src/main/java/com/zanclus/kubernetes/helm/namespace2chart/Main.java:147 | any path containing `/watch` is dropped, even a namespaced one |
| `OpenApi.DefinitionRefInjective` | src/main/java/com/zanclus/kubernetes/helm/namespace2chart/Main.java:155 | re-keying to `#/definitions/<name>` never maps two names to one key |
| `OpenApi.TypeEntries` | src/main/java/com/zanclus/kubernetes/helm/namespace2chart/Main.java:152-155 | the filtered, re-keyed stream has distinct keys; `#/definitions/n` occurs exactly for the schemas `n` with present, non-empty extensions, paired with that schema; every key carries the prefix |
| `OpenApi.BuildTypeMap` | src/main/java/com/zanclus/kubernetes/helm/namespace2chart/Main.java:151-156 | `#/definitions/n` is a key if and only if schema `n` has present, non-empty extensions; it maps to that schema; there are no other keys; `toMap` never meets a duplicate key in any order; with no document, components or schemas, a NullPointerException |
| `OpenApi.SpecCheckGuardsTypeMap` | src/main/java/com/zanclus/kubernetes/helm/namespace2chart/Main.java:172-174 | a result that passes the sanity check always lets `buildTypeMap` succeed |
| `OpenApi.SpecCheckIgnoresPaths` | src/main/java/com/zanclus/kubernetes/helm/namespace2chart/Main.java:172-174 | the sanity check does not look at the paths map: every document with schemas and no paths passes it, and then `buildExportPathList` throws a NullPointerException in any order |
| `KubeConfig.FindFirstUser` | src/main/java/com/zanclus/kubernetes/helm/namespace2chart/Main.java:179-181 | the ordered, sequential `findFirst` returns the first user in list order whose name ends with the master, or nothing when no user's name does |
| `KubeConfig.ExtractKubeToken` | src/main/java/com/zanclus/kubernetes/helm/namespace2chart/Main.java:178-186 | "not logged in" (no cached token for the master) exactly when no user's name ends with the master; otherwise the first such user decides: its token, or a NullPointerException when it has none |
| `KubeConfig.FirstUserWins` | src/main/java/com/zanclus/kubernetes/helm/namespace2chart/Main.java:181 | a matching user placed before all others decides the result, whatever follows |
| `KubeConfig.NonMatchingUserIgnored` | src/main/java/com/zanclus/kubernetes/helm/namespace2chart/Main.java:181 | a non-matching user placed before the others changes nothing |
| `Verbosity.AbsentFlagsAreZero` | src/main/java/com/zanclus/kubernetes/helm/namespace2chart/Main.java:224 | no `-v` option at all (a null array) behaves like zero flags, and gives FATAL |
| `Verbosity.LevelForRoundTrip` | src/main/java/com/zanclus/kubernetes/helm/namespace2chart/Main.java:224-242 | the mapping is 0→FATAL, 1→ERROR, 2→WARN, 3→INFO, 4→DEBUG and 5 or more→ALL: every level is reached, and FlagsFor inverts the mapping below five |
| `Verbosity.LevelForMonotone` | src/main/java/com/zanclus/kubernetes/helm/namespace2chart/Main.java:224-242 | more `-v` flags never select a less verbose level (by log4j's intLevel) |
| `Verbosity.LevelForInjectiveBelowFive` | src/main/java/com/zanclus/kubernetes/helm/namespace2chart/Main.java:225-239 | counts 0 to 4 each select a different level |
| `Namespace2Chart.Main.constructor` | src/main/java/com/zanclus/kubernetes/helm/namespace2chart/Main.java:38-58 | a new command object has the given `-c` URL (or none) and no namespace or master yet |
| `Namespace2Chart.Main.ExtractClusterDetails` | src/main/java/com/zanclus/kubernetes/helm/namespace2chart/Main.java:188-206 | fewer than two context segments: an index error, and nothing changes. Otherwise `kubeMaster` becomes segment 1, even when the method then throws. A URL already set stays. Without one: "not logged in" for the master when no cluster name ends with the master, else the server of some matching cluster. On success the namespace becomes segment 0 only if it was unset. It succeeds exactly when those conditions hold |
| `Namespace2Chart.Main.BuildApiMaps` | src/main/java/com/zanclus/kubernetes/helm/namespace2chart/Main.java:114-116 | after a passing sanity check, building the two maps throws only when the paths map is absent, and then a NullPointerException |
| `Namespace2Chart.Main.Call` | src/main/java/com/zanclus/kubernetes/helm/namespace2chart/Main.java:65-130 | stages run in order and the first failure ends the run, with no later stage started (`Pipeline[..started]` ran). Unreadable config gives 1. An unresolvable cluster gives 2, an index error escapes. No token gives 3, a missing token field escapes as a NullPointerException. A failed sanity check gives 4. Missing paths escape as a NullPointerException. Otherwise 0, which happens exactly when every stage ran. Never 5. The new master, namespace and URL are as `ExtractClusterDetails` states |

## Left out

- Reading and YAML-decoding the kubeconfig file (`loadKubeConfig`, `configYamlParser`): this is file I/O. Its outcome is the `read` parameter of `Main.Call`.
- Fetching and parsing the API description over the network (`OpenAPIParser.readLocation`, including its unexpanded `${kubeCluster}` URL and the bearer-token header). Only its outcome is modelled: a result, a null result, or a NullPointerException (`Fetched`). Other exceptions from the parser are not modelled.
- `setVerbosity`'s call to `Configurator.setRootLevel`, which changes log4j's global state. Only the mapping from count to level (`Verbosity.RootLevel`) is modelled. `call` runs it first, and it cannot fail.
- All logging and console output (`LOG.*`, `out.println`). The messages are kept only inside the exceptions.
- `buildResourceMap`: a stub that always returns an empty map and never throws. So exit code 5 cannot occur, and the model states that rather than modelling an access failure that the code cannot produce.
- `extractValuesForChart`: a stub that returns null, and its result is unused.
- Command-line parsing (picocli), `main`, `exit`, and the options that the modelled logic never reads (`kubeConfigFile`, `ignoredResourceKinds`, `chartName`, `userSelectedNamespace`).
- How picocli turns an escaping exception into an exit code: `Call` reports it as `Escaped(e)`.
- Missing JSON fields other than a user's `token`: no `current-context`, `clusters`, `users`, `name`, `cluster` or `server`. Java would throw a NullPointerException for these. The `Config` record always has them.
- Null values inside the paths or schemas maps.
- `KubeConfig.ExtractKubeToken` takes the master as a string. In Java it reads the `kubeMaster` field, which `call` has always set by then.
- `Namespace2Chart.Main.ExtractClusterDetails` promises the server of some matching cluster, not the first one. The search is a parallel stream whose source is not ordered, so Java makes no promise about which match it finds.
- `LogFormatter.java` and `CustomLoggingConfigurator.java` (log formatting and log4j setup), and the bodies of the exception classes. Only their kind and message are modelled.
