/**
 * The API description as the OpenAPI parser hands it over, and the three
 * things `Main` does with it: the sanity check after parsing, the export-path
 * filter and the type map.
 */
module OpenApi {
  import opened Wrappers
  import opened Exceptions
  import opened JavaString
  import opened Streams

  /** One path's operations (HTTP method to operation id); the filter never looks inside. */
  datatype PathItem = PathItem(operations: map<string, string>)

  /** A schema's vendor extensions (`x-kubernetes-...` name to its JSON text); null is None. */
  datatype Schema = Schema(extensions: Option<map<string, string>>)

  datatype Components = Components(schemas: Option<map<string, Schema>>)

  datatype OpenApiDoc = OpenApiDoc(paths: Option<map<string, PathItem>>, components: Option<Components>)

  /** What the parser returns; a missing document is None. */
  datatype ParseResult = ParseResult(openApi: Option<OpenApiDoc>)

  /** How the parser call ended: a (possibly null) result, or a NullPointerException. */
  datatype Fetched = Parsed(result: Option<ParseResult>) | ThrewNullPointer

  const ExpiredCredentialsMessage :=
    "Your cached credentials appears to be expired or invalid. Please log in with kubectl or oc and try again."

  const NamespacePlaceholder := "{namespace}"
  const WatchMarker := "/watch"
  const DefinitionsPrefix := "#/definitions/"

  /** Document, components and schemas are all present. */
  predicate HasSchemas(spec: ParseResult) {
    && spec.openApi.Some?
    && spec.openApi.value.components.Some?
    && spec.openApi.value.components.value.schemas.Some?
  }

  function Schemas(spec: ParseResult): map<string, Schema>
    requires HasSchemas(spec)
  {
    spec.openApi.value.components.value.schemas.value
  }

  predicate HasPaths(spec: ParseResult) {
    spec.openApi.Some? && spec.openApi.value.paths.Some?
  }

  function Paths(spec: ParseResult): map<string, PathItem>
    requires HasPaths(spec)
  {
    spec.openApi.value.paths.value
  }

  /**
   * The outcome of `retrieveSwaggerSpecification` once the parser has
   * answered: a NullPointerException from the parser, or a result without a
   * document, components or schemas, all become "not logged in".
   */
  function RetrieveSwaggerSpecification(fetched: Fetched): (r: Result<ParseResult, Exn>)
    ensures r.Success? <==> fetched.Parsed? && fetched.result.Some? && HasSchemas(fetched.result.value)
    ensures r.Success? ==> r.value == fetched.result.value
    ensures r.Failure? ==> r.error == NotCurrentlyLoggedIn(ExpiredCredentialsMessage)
  {
    match fetched
    case ThrewNullPointer => Failure(NotCurrentlyLoggedIn(ExpiredCredentialsMessage))
    case Parsed(apiSpec) =>
      if apiSpec.None? || apiSpec.value.openApi.None? || apiSpec.value.openApi.value.components.None?
         || apiSpec.value.openApi.value.components.value.schemas.None?
      then Failure(NotCurrentlyLoggedIn(ExpiredCredentialsMessage))
      else Success(apiSpec.value)
  }

  /** A path is exported when it is namespaced and is not a watch endpoint. */
  predicate IsExportPath(key: string) {
    Contains(key, NamespacePlaceholder) && !Contains(key, WatchMarker)
  }

  /**
   * `buildExportPathList`: the entries of `paths` whose key contains
   * "{namespace}" and not "/watch", collected into a new map. `order` is the
   * order in which the paths map hands out its entries; the result does not
   * depend on it. An absent document or paths map is a NullPointerException.
   */
  function BuildExportPathList(spec: ParseResult, order: seq<string>): (r: Result<map<string, PathItem>, Exn>)
    requires HasPaths(spec) ==> IsOrderOf(order, Paths(spec))
    ensures r.Failure? <==> !HasPaths(spec)
    ensures r.Failure? ==> r.error == NullPointer
    ensures r.Success? ==> forall k :: k in r.value <==> k in Paths(spec) && IsExportPath(k)
    ensures r.Success? ==> forall k | k in r.value :: r.value[k] == Paths(spec)[k]
  {
    if !HasPaths(spec) then Failure(NullPointer)
    else
      var paths := Paths(spec);
      var es := Entries(paths, order);
      var namespaced := Filter(es, (k, v) => Contains(k, NamespacePlaceholder));
      var kept := Filter(namespaced, (k, v) => !Contains(k, WatchMarker));
      ToMapSpec(kept);
      assert forall k | k in paths && IsExportPath(k) :: k in KeysOf(kept) by {
        forall k | k in paths && IsExportPath(k) ensures k in KeysOf(kept) {
          assert (k, paths[k]) in kept;
        }
      }
      Success(ToMap(kept).value)
  }

  /** The reference under which `buildTypeMap` files the schema called `name`. */
  function DefinitionRef(name: string): (ref: string)
    ensures DefinitionsPrefix <= ref
  {
    DefinitionsPrefix + name
  }

  /** Re-keying by DefinitionRef never merges two names. */
  lemma DefinitionRefInjective(a: string, b: string)
    ensures DefinitionRef(a) == DefinitionRef(b) ==> a == b
  {
    if DefinitionRef(a) == DefinitionRef(b) {
      assert a == DefinitionRef(a)[|DefinitionsPrefix|..];
      assert b == DefinitionRef(b)[|DefinitionsPrefix|..];
    }
  }

  /** The extensions are present and not empty. */
  predicate HasExtensions(s: Schema) {
    s.extensions.Some? && |s.extensions.value| > 0
  }

  /** `.collect(toMap(k -> "#/definitions/" + k.getKey(), ...))`: the key mapping. */
  function Requalify(es: seq<(string, Schema)>): (r: seq<(string, Schema)>)
    ensures |r| == |es|
    ensures forall i | 0 <= i < |es| :: r[i] == (DefinitionRef(es[i].0), es[i].1)
  {
    seq(|es|, i requires 0 <= i < |es| => (DefinitionRef(es[i].0), es[i].1))
  }

  lemma RequalifyDistinct(es: seq<(string, Schema)>)
    requires DistinctKeys(es)
    ensures DistinctKeys(Requalify(es))
  {
    var r := Requalify(es);
    forall i, j | 0 <= i < j < |r| ensures r[i].0 != r[j].0 {
      DefinitionRefInjective(es[i].0, es[j].0);
    }
  }

  /**
   * `buildTypeMap`: every schema whose extensions are present and non-empty,
   * filed under "#/definitions/<name>" with its value unchanged, and nothing
   * else. Since the re-keying is injective, `Collectors.toMap` never meets a
   * duplicate key, whatever the iteration `order`. An absent document,
   * components or schemas map is a NullPointerException.
   */
  function BuildTypeMap(spec: ParseResult, order: seq<string>): (r: Result<map<string, Schema>, Exn>)
    requires HasSchemas(spec) ==> IsOrderOf(order, Schemas(spec))
    ensures r.Failure? <==> !HasSchemas(spec)
    ensures r.Failure? ==> r.error == NullPointer
    ensures r.Success? ==>
      forall n :: DefinitionRef(n) in r.value <==> n in Schemas(spec) && HasExtensions(Schemas(spec)[n])
    ensures r.Success? ==>
      forall n | DefinitionRef(n) in r.value :: r.value[DefinitionRef(n)] == Schemas(spec)[n]
    ensures r.Success? ==> forall k | k in r.value :: DefinitionsPrefix <= k
  {
    if !HasSchemas(spec) then Failure(NullPointer)
    else
      var keyed := TypeEntries(Schemas(spec), order);
      ToMapSpec(keyed);
      Success(ToMap(keyed).value)
  }

  /**
   * The stream `buildTypeMap` collects: the entries whose extensions are
   * present, then those whose extensions are not empty, re-keyed by DefinitionRef.
   */
  function TypeEntries(schemas: map<string, Schema>, order: seq<string>): (keyed: seq<(string, Schema)>)
    requires IsOrderOf(order, schemas)
    ensures DistinctKeys(keyed)
    ensures forall n :: DefinitionRef(n) in KeysOf(keyed) <==> n in schemas && HasExtensions(schemas[n])
    ensures forall n | DefinitionRef(n) in KeysOf(keyed) :: (DefinitionRef(n), schemas[n]) in keyed
    ensures forall k | k in KeysOf(keyed) :: DefinitionsPrefix <= k
  {
    var es := Entries(schemas, order);
    var extended := Filter(es, (k, v: Schema) => v.extensions.Some?);
    var nonEmpty := Filter(extended, (k, v: Schema) => v.extensions.Some? && |v.extensions.value| > 0);
    RequalifyDistinct(nonEmpty);
    TypeMapKeys(schemas, nonEmpty, Requalify(nonEmpty));
    Requalify(nonEmpty)
  }

  lemma TypeMapKeys(schemas: map<string, Schema>, selected: seq<(string, Schema)>, keyed: seq<(string, Schema)>)
    requires forall x | x in selected :: x.0 in schemas && x.1 == schemas[x.0] && HasExtensions(x.1)
    requires forall n | n in schemas && HasExtensions(schemas[n]) :: (n, schemas[n]) in selected
    requires keyed == Requalify(selected)
    ensures forall n :: DefinitionRef(n) in KeysOf(keyed) <==> n in schemas && HasExtensions(schemas[n])
    ensures forall n | DefinitionRef(n) in KeysOf(keyed) :: (DefinitionRef(n), schemas[n]) in keyed
    ensures forall k | k in KeysOf(keyed) :: DefinitionsPrefix <= k
  {
    forall n | DefinitionRef(n) in KeysOf(keyed)
      ensures n in schemas && HasExtensions(schemas[n]) && (DefinitionRef(n), schemas[n]) in keyed
    {
      RequalifiedKey(schemas, selected, keyed, n);
    }
    forall n | n in schemas && HasExtensions(schemas[n]) ensures DefinitionRef(n) in KeysOf(keyed) {
      var i :| 0 <= i < |selected| && selected[i] == (n, schemas[n]);
      assert keyed[i] in keyed;
    }
    forall k | k in KeysOf(keyed) ensures DefinitionsPrefix <= k {
      var x :| x in keyed && x.0 == k;
      var i :| 0 <= i < |keyed| && keyed[i] == x;
    }
  }

  lemma RequalifiedKey(schemas: map<string, Schema>, selected: seq<(string, Schema)>, keyed: seq<(string, Schema)>, n: string)
    requires forall x | x in selected :: x.0 in schemas && x.1 == schemas[x.0] && HasExtensions(x.1)
    requires keyed == Requalify(selected)
    requires DefinitionRef(n) in KeysOf(keyed)
    ensures n in schemas && HasExtensions(schemas[n]) && (DefinitionRef(n), schemas[n]) in keyed
  {
    var x :| x in keyed && x.0 == DefinitionRef(n);
    var i :| 0 <= i < |keyed| && keyed[i] == x;
    DefinitionRefInjective(selected[i].0, n);
    assert selected[i] in selected;
  }

  /** Passing the sanity check is exactly what `buildTypeMap` needs to succeed. */
  lemma SpecCheckGuardsTypeMap(fetched: Fetched, order: seq<string>)
    requires RetrieveSwaggerSpecification(fetched).Success?
    requires IsOrderOf(order, Schemas(RetrieveSwaggerSpecification(fetched).value))
    ensures BuildTypeMap(RetrieveSwaggerSpecification(fetched).value, order).Success?
  {
  }

  /**
   * The sanity check does not look at the paths map: a document with schemas
   * but no paths passes it, and `buildExportPathList` then fails with a
   * NullPointerException.
   */
  lemma SpecCheckIgnoresPaths(spec: ParseResult, order: seq<string>)
    requires HasSchemas(spec) && !HasPaths(spec)
    ensures RetrieveSwaggerSpecification(Parsed(Some(spec))) == Success(spec)
    ensures BuildExportPathList(spec, order) == Failure(NullPointer)
  {
  }

  /** A path with "/watch" in it is dropped, namespaced or not. */
  lemma WatchPathsAreDropped(prefix: string, rest: string)
    ensures !IsExportPath(prefix + WatchMarker + rest)
  {
    ContainsInfix(prefix, WatchMarker, rest);
  }
}
