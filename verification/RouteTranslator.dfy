/**
 * Translation of a CF API route into a Kubernetes Route
 * (src/cf-api-controllers/cf/kubernetes/route_translator.go).
 *
 * The Go loop takes the address of its range variable's Port field. Under the module's Go version the range
 * variable is one variable for the whole loop, so every destination points into the same cell.
 */
module RouteTranslator {
  import opened Common

  const MANAGED_BY_LABEL := "app.kubernetes.io/managed-by"
  const APP_GUID_LABEL := "cloudfoundry.org/app_guid"
  const PROCESS_TYPE_LABEL := "cloudfoundry.org/process_type"

  type Labels = map<string, string>

  // ---- CF API side -------------------------------------------------------------------------------------------

  datatype CfDestination =
    CfDestination(guid: string, appGuid: string, processType: string, weight: Option<int>, port: int)

  datatype CfRoute = CfRoute(
    guid: string, host: string, path: string, url: string,
    destinations: seq<CfDestination>, relationships: map<string, string>)

  datatype CfSpace = CfSpace(guid: string, name: string, relationships: map<string, string>)

  datatype CfDomain = CfDomain(guid: string, name: string, internal: bool)

  /** Reading an absent key of a Go map of structs yields the zero struct, whose GUID is the empty string. */
  function RelationshipGuid(relationships: map<string, string>, kind: string): string {
    if kind in relationships then relationships[kind] else ""
  }

  // ---- Kubernetes side ---------------------------------------------------------------------------------------

  /** `Port` is how the port is held: an optional number once stored, a pointer while TranslateRoute builds it. */
  datatype RouteDestination<Port> = RouteDestination(
    guid: string, port: Port, weight: Option<int>, appGuid: string, processType: string, matchLabels: Labels)

  /** `destinations == None` is Go's nil slice, which reflect.DeepEqual tells apart from an empty one. */
  datatype RouteSpec<Port> = RouteSpec(
    host: string, path: string, url: string, domainName: string, domainInternal: bool,
    destinations: Option<seq<RouteDestination<Port>>>)

  datatype ObjectKey = ObjectKey(namespace: string, name: string)

  datatype Route<Port> =
    Route(namespace: string, name: string, labels: Labels, annotations: Labels, spec: RouteSpec<Port>)
  {
    function Key(): ObjectKey { ObjectKey(namespace, name) }
  }

  type StoredSpec = RouteSpec<Option<int>>
  type StoredRoute = Route<Option<int>>

  predicate IsManaged(route: StoredRoute) {
    MANAGED_BY_LABEL in route.labels && route.labels[MANAGED_BY_LABEL] == "cloudfoundry"
  }

  // ---- What a translation reads as ---------------------------------------------------------------------------

  function TranslateDestination(d: CfDestination, port: int): RouteDestination<Option<int>> {
    RouteDestination(d.guid, Some(port), d.weight, d.appGuid, d.processType,
                     map[APP_GUID_LABEL := d.appGuid, PROCESS_TYPE_LABEL := d.processType])
  }

  function SpecWith(route: CfRoute, domain: CfDomain, ds: seq<RouteDestination<Option<int>>>): StoredSpec {
    RouteSpec(route.host, route.path, route.url, domain.name, domain.internal, Some(ds))
  }

  /** The translation one would expect: each destination keeps its own port. */
  function PointwiseSpec(route: CfRoute, domain: CfDomain): StoredSpec {
    var ds := route.destinations;
    SpecWith(route, domain, seq(|ds|, i requires 0 <= i < |ds| => TranslateDestination(ds[i], ds[i].port)))
  }

  /** The translation the code delivers: every destination reads the last destination's port. */
  function TranslateSpec(route: CfRoute, domain: CfDomain): StoredSpec {
    var ds := route.destinations;
    SpecWith(route, domain, seq(|ds|, i requires 0 <= i < |ds| => TranslateDestination(ds[i], ds[|ds| - 1].port)))
  }

  function TranslateLabels(route: CfRoute, space: CfSpace, domain: CfDomain): Labels {
    map["app.kubernetes.io/name" := route.guid,
        "app.kubernetes.io/version" := "0.0.0",
        MANAGED_BY_LABEL := "cloudfoundry",
        "app.kubernetes.io/component" := "cf-networking",
        "app.kubernetes.io/part-of" := "cloudfoundry",
        "cloudfoundry.org/org_guid" := RelationshipGuid(space.relationships, "organization"),
        "cloudfoundry.org/space_guid" := space.guid,
        "cloudfoundry.org/domain_guid" := domain.guid,
        "cloudfoundry.org/route_guid" := route.guid]
  }

  function Translate(route: CfRoute, space: CfSpace, domain: CfDomain, namespace: string): StoredRoute {
    Route(namespace, route.guid, TranslateLabels(route, space, domain), map[], TranslateSpec(route, domain))
  }

  /**
   * What the stored route must hold, field by field: every field and label from its own source, and each
   * destination's own fields except the port, which is the last destination's.
   */
  ghost predicate Represents(r: StoredRoute, route: CfRoute, space: CfSpace, domain: CfDomain, namespace: string) {
    && r.namespace == namespace && r.name == route.guid && r.annotations == map[]
    && r.labels == map[
         "app.kubernetes.io/name" := route.guid,
         "app.kubernetes.io/version" := "0.0.0",
         "app.kubernetes.io/managed-by" := "cloudfoundry",
         "app.kubernetes.io/component" := "cf-networking",
         "app.kubernetes.io/part-of" := "cloudfoundry",
         "cloudfoundry.org/org_guid" :=
           if "organization" in space.relationships then space.relationships["organization"] else "",
         "cloudfoundry.org/space_guid" := space.guid,
         "cloudfoundry.org/domain_guid" := domain.guid,
         "cloudfoundry.org/route_guid" := route.guid]
    && r.spec.host == route.host && r.spec.path == route.path && r.spec.url == route.url
    && r.spec.domainName == domain.name && r.spec.domainInternal == domain.internal
    && r.spec.destinations.Some? && |r.spec.destinations.value| == |route.destinations|
    && forall i :: 0 <= i < |route.destinations| ==>
         var built, d, last :=
           r.spec.destinations.value[i], route.destinations[i], route.destinations[|route.destinations| - 1];
         && built.guid == d.guid && built.weight == d.weight
         && built.appGuid == d.appGuid && built.processType == d.processType
         && built.matchLabels ==
            map["cloudfoundry.org/app_guid" := d.appGuid, "cloudfoundry.org/process_type" := d.processType]
         && built.port == Some(last.port)
  }

  lemma TranslateRepresents(route: CfRoute, space: CfSpace, domain: CfDomain, namespace: string)
    ensures Represents(Translate(route, space, domain, namespace), route, space, domain, namespace)
  {}

  predicate SamePorts(ds: seq<CfDestination>) {
    forall i, j :: 0 <= i < |ds| && 0 <= j < |ds| ==> ds[i].port == ds[j].port
  }

  /** The delivered translation is the pointwise one exactly when the route uses a single port. */
  lemma SharedPortIsPointwiseIff(route: CfRoute, domain: CfDomain)
    ensures TranslateSpec(route, domain) == PointwiseSpec(route, domain) <==> SamePorts(route.destinations)
  {
    var ds := route.destinations;
    var shared, own := TranslateSpec(route, domain).destinations.value, PointwiseSpec(route, domain).destinations.value;
    if shared == own {
      forall i | 0 <= i < |ds| ensures ds[i].port == ds[|ds| - 1].port {
        assert shared[i] == own[i];
      }
    }
    if SamePorts(ds) {
      forall i | 0 <= i < |ds| ensures shared[i] == own[i] {
        assert ds[i].port == ds[|ds| - 1].port;
      }
      assert shared == own;
    }
  }

  /** A route with two ports loses the first one. */
  lemma TwoPortsCollapse(domain: CfDomain)
    ensures exists route: CfRoute ::
              && |route.destinations| == 2
              && route.destinations[0].port == 8080
              && TranslateSpec(route, domain).destinations.value[0].port == Some(9090)
  {
    var route := CfRoute("r", "h", "/", "h.d/",
                         [CfDestination("a", "app", "web", None, 8080), CfDestination("b", "app", "web", None, 9090)],
                         map[]);
    assert TranslateSpec(route, domain).destinations.value[0].port == Some(9090);
  }

  // ---- The loop itself ---------------------------------------------------------------------------------------

  /** The range variable of the Go loop: one object, assigned afresh by every iteration. */
  class RangeVar {
    var dest: CfDestination
  }

  type BuiltSpec = RouteSpec<RangeVar>
  type BuiltRoute = Route<RangeVar>

  function Cells(spec: BuiltSpec): set<RangeVar> {
    if spec.destinations.None? then {} else set d | d in spec.destinations.value :: d.port
  }

  function RenderDestination(d: RouteDestination<RangeVar>): RouteDestination<Option<int>>
    reads d.port
  {
    RouteDestination(d.guid, Some(d.port.dest.port), d.weight, d.appGuid, d.processType, d.matchLabels)
  }

  /** What DeepEqual and the JSON encoder see: the pointers followed. */
  function Render(spec: BuiltSpec): StoredSpec
    reads Cells(spec)
  {
    RouteSpec(
      spec.host, spec.path, spec.url, spec.domainName, spec.domainInternal,
      match spec.destinations
      case None => None
      case Some(ds) =>
        Some(seq(|ds|, i requires 0 <= i < |ds| reads (if 0 <= i < |ds| then {ds[i].port} else {}) =>
          RenderDestination(ds[i]))))
  }

  function RenderRoute(route: BuiltRoute): StoredRoute
    reads Cells(route.spec)
  {
    Route(route.namespace, route.name, route.labels, route.annotations, Render(route.spec))
  }

  /** `route_translator.go:24-78`: an append loop that stores a pointer into the range variable. */
  method TranslateRoute(route: CfRoute, space: CfSpace, domain: CfDomain, namespace: string)
    returns (built: BuiltRoute)
    ensures fresh(Cells(built.spec))
    ensures RenderRoute(built) == Translate(route, space, domain, namespace)
    ensures Represents(RenderRoute(built), route, space, domain, namespace)
  {
    var ds := route.destinations;
    var destinations: seq<RouteDestination<RangeVar>> := [];
    var cell := new RangeVar;
    for i := 0 to |ds|
      invariant |destinations| == i
      invariant i > 0 ==> cell.dest == ds[i - 1]
      invariant forall k :: 0 <= k < i ==>
                  destinations[k] == RouteDestination(ds[k].guid, cell, ds[k].weight, ds[k].appGuid, ds[k].processType,
                                                      TranslateDestination(ds[k], 0).matchLabels)
    {
      cell.dest := ds[i];
      destinations := destinations + [
        RouteDestination(cell.dest.guid, cell, cell.dest.weight, cell.dest.appGuid, cell.dest.processType,
                         map[APP_GUID_LABEL := cell.dest.appGuid, PROCESS_TYPE_LABEL := cell.dest.processType])];
    }
    var labels := map[
      "app.kubernetes.io/name" := route.guid,
      "app.kubernetes.io/version" := "0.0.0",
      MANAGED_BY_LABEL := "cloudfoundry",
      "app.kubernetes.io/component" := "cf-networking",
      "app.kubernetes.io/part-of" := "cloudfoundry",
      "cloudfoundry.org/org_guid" := RelationshipGuid(space.relationships, "organization"),
      "cloudfoundry.org/space_guid" := space.guid,
      "cloudfoundry.org/domain_guid" := domain.guid,
      "cloudfoundry.org/route_guid" := route.guid];
    built := Route(
      namespace, route.guid, labels, map[],
      RouteSpec(route.host, route.path, route.url, domain.name, domain.internal, Some(destinations)));
    assert Cells(built.spec) <= {cell};
    assert Render(built.spec).destinations.value == TranslateSpec(route, domain).destinations.value;
    TranslateRepresents(route, space, domain, namespace);
  }

  /** `route_translator.go:80-82`: only the specs are compared. */
  predicate CompareRoutes(desired: BuiltRoute, actual: StoredRoute)
    reads Cells(desired.spec)
  {
    Render(desired.spec) == actual.spec
  }
}
