/**
 * The command object of namespace2chart: its state (the cluster URL given on
 * the command line, and the namespace and cluster master it works out from
 * the Kube configuration) and the control flow of one run, which stops at the
 * first stage that fails and reports it by exit code.
 */
module Namespace2Chart {
  import opened Wrappers
  import opened Exceptions
  import opened JavaString
  import opened Streams
  import opened OpenApi
  import opened KubeConfig

  /** The stages of one run, in the order `call` starts them. */
  datatype Stage =
    | ReadConfig | ClusterDetails | KubeToken | SwaggerSpec
    | TypeMap | ExportPaths | ResourceMap | ChartValues

  const Pipeline: seq<Stage> :=
    [ReadConfig, ClusterDetails, KubeToken, SwaggerSpec, TypeMap, ExportPaths, ResourceMap, ChartValues]

  /** How `call` ends: it returns an exit code, or an exception escapes it. */
  datatype CallOutcome = Exit(code: int) | Escaped(e: Exn)

  /** `current-context` split on "/". */
  function Segments(cfg: Config): seq<string> {
    Split(cfg.currentContext, ContextDelimiter)
  }

  /** The context names a master (segment 1), so `cfg[1]` is in range. */
  predicate NamesMaster(cfg: Config) {
    |Segments(cfg)| >= 2
  }

  function Master(cfg: Config): string
    requires NamesMaster(cfg)
  {
    Segments(cfg)[1]
  }

  /** Cluster details succeed: a master is named and a URL was given or a cluster matches it. */
  predicate ClusterResolves(cfg: Config, givenUrl: Option<string>) {
    NamesMaster(cfg) && (givenUrl.Some? || HasMatchingCluster(cfg.clusters, Master(cfg)))
  }

  class Main {
    /** `-c`: the cluster URL; None until given or worked out. */
    var kubeClusterUrl: Option<string>
    var namespace: Option<string>
    var kubeMaster: Option<string>

    constructor (kubeClusterUrl: Option<string>)
      ensures this.kubeClusterUrl == kubeClusterUrl
      ensures namespace == None && kubeMaster == None
    {
      this.kubeClusterUrl := kubeClusterUrl;
      namespace := None;
      kubeMaster := None;
    }

    /**
     * `extractClusterDetails`: the master is segment 1 of the context and the
     * namespace, when not yet known, segment 0. Without a given URL, the URL
     * is the server of some cluster whose name ends with the master (the
     * stream that finds it is parallel and unordered, so which one is not
     * fixed); with none, "not logged in". Returns the exception thrown, if any.
     */
    method ExtractClusterDetails(cfg: Config) returns (thrown: Option<Exn>)
      modifies this`kubeMaster, this`kubeClusterUrl, this`namespace
      ensures thrown.None? <==> ClusterResolves(cfg, old(kubeClusterUrl))
      ensures !NamesMaster(cfg) ==>
        && thrown == Some(ArrayIndexOutOfBounds(1))
        && kubeMaster == old(kubeMaster) && kubeClusterUrl == old(kubeClusterUrl) && namespace == old(namespace)
      ensures NamesMaster(cfg) ==> kubeMaster == Some(Master(cfg))
      ensures NamesMaster(cfg) && !ClusterResolves(cfg, old(kubeClusterUrl)) ==>
        && thrown == Some(NotCurrentlyLoggedIn(NoClusterMessage(Master(cfg))))
        && kubeClusterUrl == old(kubeClusterUrl) && namespace == old(namespace)
      ensures ClusterResolves(cfg, old(kubeClusterUrl)) ==>
        && (old(kubeClusterUrl).Some? ==> kubeClusterUrl == old(kubeClusterUrl))
        && (old(kubeClusterUrl).None? ==>
              exists i | 0 <= i < |cfg.clusters| ::
                EndsWith(cfg.clusters[i].name, Master(cfg)) && kubeClusterUrl == Some(cfg.clusters[i].server))
        && namespace == (if old(namespace).None? then Some(Segments(cfg)[0]) else old(namespace))
    {
      var segments := Split(cfg.currentContext, ContextDelimiter);
      if |segments| < 2 {
        return Some(ArrayIndexOutOfBounds(1));
      }
      var master := segments[1];
      kubeMaster := Some(master);

      if kubeClusterUrl.None? {
        if !HasMatchingCluster(cfg.clusters, master) {
          return Some(NotCurrentlyLoggedIn(NoClusterMessage(master)));
        }
        var i :| 0 <= i < |cfg.clusters| && EndsWith(cfg.clusters[i].name, master);
        kubeClusterUrl := Some(cfg.clusters[i].server);
      }

      if namespace.None? {
        namespace := Some(segments[0]);
      }
      return None;
    }

    /**
     * The two map-building statements of `call` after the sanity check:
     * `buildTypeMap`, which the sanity check in `retrieveSwaggerSpecification`
     * guarantees to succeed, then
     * `buildExportPathList`, which throws a NullPointerException when the
     * document has no paths map. Each map is enumerated in whatever order it
     * hands out its entries.
     */
    method BuildApiMaps(apiSpec: ParseResult) returns (thrown: Option<Exn>)
      requires HasSchemas(apiSpec)
      ensures thrown.None? <==> HasPaths(apiSpec)
      ensures thrown.Some? ==> thrown.value == NullPointer
    {
      var schemaOrder := KeyOrder(Schemas(apiSpec));
      var typeMap := BuildTypeMap(apiSpec, schemaOrder);
      var pathOrder: seq<string> := [];
      if HasPaths(apiSpec) {
        pathOrder := KeyOrder(Paths(apiSpec));
      }
      var exportPaths := BuildExportPathList(apiSpec, pathOrder);
      thrown := if exportPaths.Failure? then Some(exportPaths.error) else None;
    }

    /**
     * `call`: runs the stages in order and returns at the first that fails,
     * with 1 when the Kube configuration cannot be read, 2 when the cluster
     * details cannot be worked out, 3 when there is no token, 4 when the API
     * description is unusable and 0 when every stage completes. `read` is what
     * loading the configuration gave and `fetched` what the OpenAPI parser
     * gave; the ghost `started` counts the stages begun, so
     * `Pipeline[..started]` are the stages that ran.
     */
    method Call(read: Result<Config, string>, fetched: Fetched) returns (o: CallOutcome, ghost started: nat)
      modifies this`kubeMaster, this`kubeClusterUrl, this`namespace
      ensures started <= |Pipeline|
      ensures o == Exit(0) <==> started == |Pipeline|
      ensures o != Exit(5)
      ensures read.Failure? ==>
        && o == Exit(1) && started == 1
        && kubeMaster == old(kubeMaster) && kubeClusterUrl == old(kubeClusterUrl) && namespace == old(namespace)
      ensures read.Success? && !NamesMaster(read.value) ==>
        && o == Escaped(ArrayIndexOutOfBounds(1)) && started == 2
        && kubeMaster == old(kubeMaster) && kubeClusterUrl == old(kubeClusterUrl) && namespace == old(namespace)
      ensures read.Success? && NamesMaster(read.value) ==> kubeMaster == Some(Master(read.value))
      ensures read.Success? && NamesMaster(read.value) && !ClusterResolves(read.value, old(kubeClusterUrl)) ==>
        && o == Exit(2) && started == 2
        && kubeClusterUrl == old(kubeClusterUrl) && namespace == old(namespace)
      ensures read.Success? && ClusterResolves(read.value, old(kubeClusterUrl)) ==>
        var cfg := read.value;
        var token := ExtractKubeToken(cfg, Master(cfg));
        var spec := RetrieveSwaggerSpecification(fetched);
        && namespace == (if old(namespace).None? then Some(Segments(cfg)[0]) else old(namespace))
        && (old(kubeClusterUrl).Some? ==> kubeClusterUrl == old(kubeClusterUrl))
        && (old(kubeClusterUrl).None? ==>
              exists i | 0 <= i < |cfg.clusters| ::
                EndsWith(cfg.clusters[i].name, Master(cfg)) && kubeClusterUrl == Some(cfg.clusters[i].server))
        && (token.Failure? && token.error.NotCurrentlyLoggedIn? ==> o == Exit(3) && started == 3)
        && (token.Failure? && token.error.NullPointer? ==> o == Escaped(NullPointer) && started == 3)
        && (token.Success? && spec.Failure? ==> o == Exit(4) && started == 4)
        && (token.Success? && spec.Success? && !HasPaths(spec.value) ==>
              o == Escaped(NullPointer) && started == 6)
        && (token.Success? && spec.Success? && HasPaths(spec.value) ==> o == Exit(0))
    {
      started := 1;  // ReadConfig
      if read.Failure? {
        o := Exit(1);
        return;
      }
      var kubeConfig := read.value;

      started := started + 1;  // ClusterDetails
      var thrown := ExtractClusterDetails(kubeConfig);
      if thrown.Some? {
        o := if thrown.value.NotCurrentlyLoggedIn? then Exit(2) else Escaped(thrown.value);
        return;
      }

      started := started + 1;  // KubeToken
      var kubeToken := ExtractKubeToken(kubeConfig, kubeMaster.value);
      if kubeToken.Failure? {
        o := if kubeToken.error.NotCurrentlyLoggedIn? then Exit(3) else Escaped(kubeToken.error);
        return;
      }

      started := started + 1;  // SwaggerSpec
      var apiSpec := RetrieveSwaggerSpecification(fetched);
      if apiSpec.Failure? {
        o := Exit(4);
        return;
      }

      started := started + 2;  // TypeMap, ExportPaths
      var thrownByMaps := BuildApiMaps(apiSpec.value);
      if thrownByMaps.Some? {
        o := Escaped(thrownByMaps.value);
        return;
      }

      // buildResourceMap is a stub: it returns an empty map and never throws,
      // so its catch clause (exit code 5) is never reached.
      started := started + 1;  // ResourceMap
      // extractValuesForChart is a stub whose result is not used.
      started := started + 1;  // ChartValues
      o := Exit(0);
    }
  }
}
