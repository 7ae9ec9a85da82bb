/** The routing configuration and its validator (internal/config/config.go). */
module ConfigModel {
  import opened Wrappers

  datatype HealthCheckConfig = HealthCheckConfig(path: string, interval: string, timeout: string)

  datatype CircuitBreakerConfig = CircuitBreakerConfig(failureThreshold: int, timeout: string)

  datatype PlacementConfig = PlacementConfig(
    url: string,
    fallback: string,
    healthCheck: Option<HealthCheckConfig>,
    circuitBreaker: Option<CircuitBreakerConfig>,
    concurrencyLimit: int,
    maxRequestBodyBytes: int)

  /** A nil map and an empty map behave alike in every operation of the source, so both are `map[]`. */
  datatype Config = Config(
    version: string,
    routingTable: map<string, string>,
    cellEndpoints: map<string, string>,
    placements: map<string, PlacementConfig>,
    defaultPlacement: string)

  /** The library parsers, as acceptance predicates: which URLs and which durations parse. */
  datatype Parsers = Parsers(url: string -> bool, duration: string -> bool)

  datatype ValidationError =
    | EmptyVersion
    | UnknownDefault
    | UnknownPlacement(routingKey: string)
    | InvalidURL(placement: string)
    | UnknownFallback(placement: string)
    | InvalidHealthCheck(placement: string)
    | InvalidCircuitBreaker(placement: string)

  // ---- endpoints -----------------------------------------------------------------------------

  /** The endpoint of every placement: the legacy map when it has entries, else the placements' URLs. */
  function Endpoints(c: Config): (e: map<string, string>)
    ensures c.cellEndpoints != map[] ==> e == c.cellEndpoints
    ensures c.cellEndpoints == map[] ==> e.Keys == c.placements.Keys
  {
    if c.cellEndpoints != map[] then c.cellEndpoints
    else map p | p in c.placements :: c.placements[p].url
  }

  /** `GetCellEndpoints` fills a fresh map in a loop; every iteration order gives the same map. */
  method GetCellEndpoints(c: Config) returns (endpoints: map<string, string>)
    ensures endpoints == Endpoints(c)
    ensures c.cellEndpoints != map[] ==> endpoints == c.cellEndpoints
    ensures c.cellEndpoints == map[] ==>
              && endpoints.Keys == c.placements.Keys
              && forall p :: p in c.placements ==> endpoints[p] == c.placements[p].url
  {
    if |c.cellEndpoints| > 0 {
      return c.cellEndpoints;
    }
    endpoints := map[];
    var todo := c.placements.Keys;
    while todo != {}
      invariant todo <= c.placements.Keys
      invariant endpoints == map p | p in c.placements && p !in todo :: c.placements[p].url
      decreases todo
    {
      var p :| p in todo;
      endpoints := endpoints[p := c.placements[p].url];
      todo := todo - {p};
    }
  }

  function GetPlacementConfig(c: Config, placement: string): Option<PlacementConfig> {
    if placement in c.placements then Some(c.placements[placement]) else None
  }

  /** The configured fallback of a placement; the empty string means none, as in the source. */
  function FallbackOf(c: Config, placement: string): string {
    match GetPlacementConfig(c, placement)
    case Some(p) => p.fallback
    case None => ""
  }

  // ---- well-formedness -----------------------------------------------------------------------

  predicate HealthCheckParses(ps: Parsers, h: Option<HealthCheckConfig>) {
    h.Some? ==> ps.duration(h.value.interval) && ps.duration(h.value.timeout)
  }

  predicate CircuitBreakerParses(ps: Parsers, b: Option<CircuitBreakerConfig>) {
    b.Some? ==> ps.duration(b.value.timeout)
  }

  ghost predicate TableResolves(c: Config) {
    forall k :: k in c.routingTable ==> c.routingTable[k] in Endpoints(c)
  }

  ghost predicate URLsParse(ps: Parsers, c: Config) {
    forall p :: p in Endpoints(c) ==> ps.url(Endpoints(c)[p])
  }

  ghost predicate PlacementOk(ps: Parsers, c: Config, p: PlacementConfig) {
    && (p.fallback != "" ==> p.fallback in Endpoints(c))
    && HealthCheckParses(ps, p.healthCheck)
    && CircuitBreakerParses(ps, p.circuitBreaker)
  }

  ghost predicate WellFormed(ps: Parsers, c: Config) {
    && c.version != ""
    && c.defaultPlacement in Endpoints(c)
    && TableResolves(c)
    && URLsParse(ps, c)
    && (forall p :: p in c.placements ==> PlacementOk(ps, c, c.placements[p]))
  }

  /** What an error returned by the validator says is wrong, with everything the validator has
      already ruled out by then: its stages run in a fixed order. */
  ghost predicate Explains(ps: Parsers, c: Config, e: ValidationError) {
    match e
    case EmptyVersion => c.version == ""
    case UnknownDefault => c.version != "" && c.defaultPlacement !in Endpoints(c)
    case UnknownPlacement(k) =>
      && c.version != "" && c.defaultPlacement in Endpoints(c)
      && k in c.routingTable && c.routingTable[k] !in Endpoints(c)
    case InvalidURL(p) =>
      && c.version != "" && c.defaultPlacement in Endpoints(c) && TableResolves(c)
      && p in Endpoints(c) && !ps.url(Endpoints(c)[p])
    case UnknownFallback(p) =>
      && c.version != "" && c.defaultPlacement in Endpoints(c) && TableResolves(c) && URLsParse(ps, c)
      && p in c.placements && c.placements[p].fallback != "" && c.placements[p].fallback !in Endpoints(c)
    case InvalidHealthCheck(p) =>
      && c.version != "" && c.defaultPlacement in Endpoints(c) && TableResolves(c) && URLsParse(ps, c)
      && p in c.placements && !HealthCheckParses(ps, c.placements[p].healthCheck)
    case InvalidCircuitBreaker(p) =>
      && c.version != "" && c.defaultPlacement in Endpoints(c) && TableResolves(c) && URLsParse(ps, c)
      && p in c.placements && !CircuitBreakerParses(ps, c.placements[p].circuitBreaker)
  }

  /** The validator: map loops with early returns. It accepts exactly the well-formed configs, and
      an error names a real defect of the first stage that has one. */
  method Validate(ps: Parsers, c: Config) returns (err: Option<ValidationError>)
    ensures err.None? <==> WellFormed(ps, c)
    ensures err.Some? ==> Explains(ps, c, err.value)
  {
    if c.version == "" {
      return Some(EmptyVersion);
    }
    var endpoints := GetCellEndpoints(c);
    if c.defaultPlacement !in endpoints {
      return Some(UnknownDefault);
    }
    var keys := c.routingTable.Keys;
    while keys != {}
      invariant keys <= c.routingTable.Keys
      invariant forall k :: k in c.routingTable && k !in keys ==> c.routingTable[k] in endpoints
      decreases keys
    {
      var k :| k in keys;
      if c.routingTable[k] !in endpoints {
        return Some(UnknownPlacement(k));
      }
      keys := keys - {k};
    }
    keys := endpoints.Keys;
    while keys != {}
      invariant keys <= endpoints.Keys
      invariant forall p :: p in endpoints && p !in keys ==> ps.url(endpoints[p])
      decreases keys
    {
      var p :| p in keys;
      if !ps.url(endpoints[p]) {
        return Some(InvalidURL(p));
      }
      keys := keys - {p};
    }
    keys := c.placements.Keys;
    while keys != {}
      invariant keys <= c.placements.Keys
      invariant forall p :: p in c.placements && p !in keys ==> PlacementOk(ps, c, c.placements[p])
      decreases keys
    {
      var p :| p in keys;
      var placement := c.placements[p];
      if placement.fallback != "" && placement.fallback !in endpoints {
        return Some(UnknownFallback(p));
      }
      if placement.healthCheck.Some? &&
         !(ps.duration(placement.healthCheck.value.interval) && ps.duration(placement.healthCheck.value.timeout)) {
        return Some(InvalidHealthCheck(p));
      }
      if placement.circuitBreaker.Some? && !ps.duration(placement.circuitBreaker.value.timeout) {
        return Some(InvalidCircuitBreaker(p));
      }
      keys := keys - {p};
    }
    return None;
  }

  /** Well-formedness in terms of the fields alone: in the legacy format placements are referred to by
      the keys of the legacy map, else by those of the placements. */
  lemma {:induction false} WellFormedMeans(ps: Parsers, c: Config)
    ensures var known := if c.cellEndpoints != map[] then c.cellEndpoints.Keys else c.placements.Keys;
            WellFormed(ps, c) <==>
              && c.version != ""
              && c.defaultPlacement in known
              && (forall k :: k in c.routingTable ==> c.routingTable[k] in known)
              && (c.cellEndpoints != map[] ==> forall p :: p in c.cellEndpoints ==> ps.url(c.cellEndpoints[p]))
              && (c.cellEndpoints == map[] ==> forall p :: p in c.placements ==> ps.url(c.placements[p].url))
              && (forall p :: p in c.placements ==>
                    && (c.placements[p].fallback == "" || c.placements[p].fallback in known)
                    && (c.placements[p].healthCheck.Some? ==>
                          && ps.duration(c.placements[p].healthCheck.value.interval)
                          && ps.duration(c.placements[p].healthCheck.value.timeout))
                    && (c.placements[p].circuitBreaker.Some? ==>
                          ps.duration(c.placements[p].circuitBreaker.value.timeout)))
  {
    if c.cellEndpoints != map[] {
      assert Endpoints(c) == c.cellEndpoints;
    } else {
      assert forall p :: p in c.placements ==> Endpoints(c)[p] == c.placements[p].url;
    }
  }

  // ---- the wire snapshot ---------------------------------------------------------------------

  /** The message the control plane sends: it carries no `placements`. */
  datatype Snapshot = Snapshot(
    version: string,
    routingTable: map<string, string>,
    cellEndpoints: map<string, string>,
    defaultPlacement: string)

  function SnapshotOf(c: Config): Snapshot {
    Snapshot(c.version, c.routingTable, c.cellEndpoints, c.defaultPlacement)
  }

  /** The config a data plane builds from a snapshot. */
  function ConfigOf(m: Snapshot): Config {
    Config(m.version, m.routingTable, m.cellEndpoints, map[], m.defaultPlacement)
  }

  /** A valid config survives the trip over the wire exactly when it is in the legacy format. */
  lemma ProjectionValidIff(ps: Parsers, c: Config)
    requires WellFormed(ps, c)
    ensures WellFormed(ps, ConfigOf(SnapshotOf(c))) <==> c.cellEndpoints != map[]
  {
    var d := ConfigOf(SnapshotOf(c));
    if c.cellEndpoints == map[] {
      assert Endpoints(d).Keys == {};
    } else {
      assert Endpoints(d) == Endpoints(c);
    }
  }
}
