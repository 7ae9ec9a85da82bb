/** Routing decisions (internal/routing/router.go). */
module Routing {
  import opened Wrappers
  import opened ConfigModel

  datatype RouteReason = Dedicated | Tier | Default

  datatype RoutingDecision = RoutingDecision(placementKey: string, reason: RouteReason, endpointURL: string)

  datatype RouteError = NoEndpoint(placementKey: string)

  /** What one call of `Route` read from its provider: three getters, called one after the other. */
  datatype Reads = Reads(
    routingTable: map<string, string>,
    cellEndpoints: map<string, string>,
    defaultPlacement: string)

  predicate IsTier(placement: string) {
    placement == "tier1" || placement == "tier2" || placement == "tier3"
  }

  function DetermineReason(routingKey: string, placement: string, found: bool): RouteReason {
    if !found || routingKey == "" then Default
    else if IsTier(placement) then Tier
    else Dedicated
  }

  function Route(r: Reads, routingKey: string): Result<RoutingDecision, RouteError> {
    var found := routingKey in r.routingTable;
    var placement := if !found || routingKey == "" then r.defaultPlacement else r.routingTable[routingKey];
    var reason := DetermineReason(routingKey, placement, found);
    if placement !in r.cellEndpoints then Failure(NoEndpoint(placement))
    else Success(RoutingDecision(placement, reason, r.cellEndpoints[placement]))
  }

  /** `*Config` as provider. */
  function ConfigReads(c: Config): Reads {
    Reads(c.routingTable, Endpoints(c), c.defaultPlacement)
  }

  /** The loader as provider: each getter loads whatever config is active at that moment, and the
      endpoint getter looks only at the legacy map. */
  function LoaderReads(first: Config, second: Config, third: Config): Reads {
    Reads(first.routingTable, second.cellEndpoints, third.defaultPlacement)
  }

  /** The key names an entry of the routing table; the empty key never does. */
  predicate Mapped(table: map<string, string>, key: string) {
    key != "" && key in table
  }

  /** A validated config routes every key, in either format: to the placement its table names, or
      to the default; with that placement's own endpoint; and the reason tells which case it was. */
  lemma RouteTotal(ps: Parsers, c: Config, key: string)
    requires WellFormed(ps, c)
    ensures Route(ConfigReads(c), key).Success?
    ensures var d := Route(ConfigReads(c), key).value;
            && d.placementKey in Endpoints(c)
            && d.endpointURL == Endpoints(c)[d.placementKey]
            && d.endpointURL == (if c.cellEndpoints != map[] then c.cellEndpoints[d.placementKey]
                                 else c.placements[d.placementKey].url)
            && ps.url(d.endpointURL)
            && (d.reason == Default <==> !Mapped(c.routingTable, key))
            && (d.reason == Default ==> d.placementKey == c.defaultPlacement)
            && (d.reason != Default ==> c.routingTable[key] == d.placementKey)
            && (d.reason == Tier <==> Mapped(c.routingTable, key) && d.placementKey in {"tier1", "tier2", "tier3"})
  {
    assert Mapped(c.routingTable, key) ==> c.routingTable[key] in Endpoints(c);
  }

  /** Read through the loader, a validated config routes every key if it has legacy endpoints and
      no key at all if it has only placements. */
  lemma LoaderRouteIff(ps: Parsers, c: Config, key: string)
    requires WellFormed(ps, c)
    ensures Route(LoaderReads(c, c, c), key).Success? <==> c.cellEndpoints != map[]
    ensures c.cellEndpoints != map[] ==> Route(LoaderReads(c, c, c), key) == Route(ConfigReads(c), key)
  {
    RouteTotal(ps, c, key);
    if c.cellEndpoints == map[] {
      assert c.cellEndpoints.Keys == {};
    }
  }

  /** What the router answers while `c` stays active. */
  function RouteUnder(c: Config, key: string): Result<RoutingDecision, RouteError> {
    Route(LoaderReads(c, c, c), key)
  }

  /** The snapshot carries everything that routing needs: a data plane that runs it sends every key
      where the control plane's config sends it, with the same endpoint and reason, or fails alike. */
  lemma {:induction false} SnapshotRoutes(c: Config, key: string)
    ensures RouteUnder(ConfigOf(SnapshotOf(c)), key) == RouteUnder(c, key)
    ensures ConfigOf(SnapshotOf(c)).version == c.version
  {
  }

  // ---- reads torn by a config swap -----------------------------------------------------------

  /** With the three reads taken from three configs, every key still routes exactly when the first
      config's table and the third one's default resolve in the second one's endpoints. */
  lemma TornRouteIff(first: Config, second: Config, third: Config)
    ensures (forall key :: Route(LoaderReads(first, second, third), key).Success?) <==>
            && third.defaultPlacement in second.cellEndpoints
            && (forall key :: Mapped(first.routingTable, key) ==> first.routingTable[key] in second.cellEndpoints)
  {
    var r := LoaderReads(first, second, third);
    if forall key :: Route(r, key).Success? {
      assert Route(r, "").Success?;
      forall key | Mapped(first.routingTable, key)
        ensures first.routingTable[key] in second.cellEndpoints
      {
        assert Route(r, key).Success?;
      }
    }
  }

  /** The configs a loader has had active, oldest first: every one valid and in the legacy format,
      endpoints only added, the default placement never changed. */
  ghost predicate Growing(ps: Parsers, history: seq<Config>) {
    && (forall i :: 0 <= i < |history| ==> WellFormed(ps, history[i]) && history[i].cellEndpoints != map[])
    && (forall i, j :: 0 <= i <= j < |history| ==> history[i].cellEndpoints.Keys <= history[j].cellEndpoints.Keys)
    && (forall i, j :: 0 <= i <= j < |history| ==> history[i].defaultPlacement == history[j].defaultPlacement)
  }

  /** Under growth a route torn over the history never fails, and the URL it returns is the one
      bound to the chosen placement by the config active at the second read. */
  lemma TornRouteUnderGrowth(ps: Parsers, history: seq<Config>, i: nat, j: nat, k: nat, key: string)
    requires Growing(ps, history)
    requires i <= j <= k < |history|
    ensures var r := Route(LoaderReads(history[i], history[j], history[k]), key);
            && r.Success?
            && r.value.placementKey in history[j].cellEndpoints
            && r.value.endpointURL == history[j].cellEndpoints[r.value.placementKey]
            && (Mapped(history[i].routingTable, key) ==> r.value.placementKey == history[i].routingTable[key])
  {
    assert WellFormed(ps, history[i]) && WellFormed(ps, history[j]);
    assert history[j].defaultPlacement == history[k].defaultPlacement;
    assert history[i].cellEndpoints.Keys <= history[j].cellEndpoints.Keys;
    if Mapped(history[i].routingTable, key) {
      assert history[i].routingTable[key] in Endpoints(history[i]);
    }
  }

  /** Without growth the torn read can fail although both configs route every key on their own:
      one swap that renames a placement, between the first read and the second. */
  lemma TornRouteCanFail(ps: Parsers)
    requires ps.url("u")
    ensures exists c1: Config, c2: Config, key: string ::
              && WellFormed(ps, c1) && WellFormed(ps, c2)
              && Route(LoaderReads(c1, c1, c1), key).Success?
              && Route(LoaderReads(c2, c2, c2), key).Success?
              && Route(LoaderReads(c1, c2, c2), key).Failure?
  {
    var c1 := Config("1", map["acme" := "a"], map["a" := "u", "d" := "u"], map[], "d");
    var c2 := Config("2", map["acme" := "b"], map["b" := "u", "d" := "u"], map[], "d");
    assert "a" in c1.cellEndpoints && "b" in c2.cellEndpoints;
    assert WellFormed(ps, c1) && WellFormed(ps, c2);
    assert Route(LoaderReads(c1, c2, c2), "acme").Failure?;
    assert Route(LoaderReads(c1, c1, c1), "acme").Success? && Route(LoaderReads(c2, c2, c2), "acme").Success?;
  }

  // ---- old or new, never partial -------------------------------------------------------------

  /** The placement `c` sends `key` to. */
  function Choice(c: Config, key: string): string {
    if Mapped(c.routingTable, key) then c.routingTable[key] else c.defaultPlacement
  }

  /** Both configs give `p` the same endpoint, or both none. */
  predicate SameEndpoint(a: Config, b: Config, p: string) {
    if p in a.cellEndpoints then p in b.cellEndpoints && a.cellEndpoints[p] == b.cellEndpoints[p]
    else p !in b.cellEndpoints
  }

  /** With the three reads taken from any three configs, the router answers as it would under `c`
      alone exactly when `c` chooses the same placement, gives it the endpoint that the second read
      gave it, and, unless there is none, found the key in its table just when the first read did. */
  lemma TornRouteMatchesIff(first: Config, second: Config, third: Config, c: Config, key: string)
    ensures var p := if Mapped(first.routingTable, key) then first.routingTable[key] else third.defaultPlacement;
            Route(LoaderReads(first, second, third), key) == RouteUnder(c, key) <==>
              && Choice(c, key) == p
              && SameEndpoint(second, c, p)
              && (p in second.cellEndpoints ==> (Mapped(c.routingTable, key) <==> Mapped(first.routingTable, key)))
  {
  }

  /** Accepted by the validator, and in the format that the loader routes by. */
  ghost predicate Routes(ps: Parsers, c: Config) {
    WellFormed(ps, c) && c.cellEndpoints != map[]
  }

  lemma RoutesChoice(ps: Parsers, c: Config, key: string)
    requires Routes(ps, c)
    ensures Choice(c, key) in c.cellEndpoints && c.defaultPlacement in c.cellEndpoints
  {
    assert Mapped(c.routingTable, key) ==> c.routingTable[key] in Endpoints(c);
  }

  /** However often the config is swapped between the reads, the decision is one that a config read
      from would have made alone exactly when: for a key of the first table, its entry has the same
      endpoint there as at the second read, or the second table has the same entry, or the third
      config has both; and for any other key, the same of the third config's default. */
  lemma NeverPartialIff(ps: Parsers, first: Config, second: Config, third: Config, key: string)
    requires Routes(ps, first) && Routes(ps, second) && Routes(ps, third)
    ensures Route(LoaderReads(first, second, third), key)
              in {RouteUnder(first, key), RouteUnder(second, key), RouteUnder(third, key)} <==>
              if Mapped(first.routingTable, key)
              then var p := first.routingTable[key];
                   || SameEndpoint(first, second, p)
                   || (Mapped(second.routingTable, key) && second.routingTable[key] == p)
                   || (Mapped(third.routingTable, key) && third.routingTable[key] == p
                       && SameEndpoint(second, third, p))
              else var d := third.defaultPlacement;
                   || (first.defaultPlacement == d && SameEndpoint(first, second, d))
                   || (!Mapped(second.routingTable, key) && second.defaultPlacement == d)
                   || (!Mapped(third.routingTable, key) && SameEndpoint(second, third, d))
  {
    TornRouteMatchesIff(first, second, third, first, key);
    TornRouteMatchesIff(first, second, third, second, key);
    TornRouteMatchesIff(first, second, third, third, key);
    RoutesChoice(ps, first, key);
    RoutesChoice(ps, second, key);
    RoutesChoice(ps, third, key);
  }

  /** A swap from `a` to `b` between the first read and the second: the decision is the old config's or
      the new one's exactly when the old table's entry for the key keeps its endpoint or its
      placement, or, if there is no such entry, when the new table has none either or the default
      placement and its endpoint are unchanged. */
  lemma OldOrNewAfterFirstRead(ps: Parsers, a: Config, b: Config, key: string)
    requires Routes(ps, a) && Routes(ps, b)
    ensures Route(LoaderReads(a, b, b), key) in {RouteUnder(a, key), RouteUnder(b, key)} <==>
              if Mapped(a.routingTable, key)
              then var p := a.routingTable[key];
                   SameEndpoint(a, b, p) || (Mapped(b.routingTable, key) && b.routingTable[key] == p)
              else || !Mapped(b.routingTable, key)
                   || (a.defaultPlacement == b.defaultPlacement && SameEndpoint(a, b, a.defaultPlacement))
  {
    NeverPartialIff(ps, a, b, b, key);
  }

  /** A swap between the second read and the third: only a key the old table lacks can be affected. It
      gets the old or the new decision exactly when the default placement is unchanged, or when the
      new table lacks the key too and the new default had the same endpoint before. */
  lemma OldOrNewAfterSecondRead(ps: Parsers, a: Config, b: Config, key: string)
    requires Routes(ps, a) && Routes(ps, b)
    ensures Route(LoaderReads(a, a, b), key) in {RouteUnder(a, key), RouteUnder(b, key)} <==>
              || Mapped(a.routingTable, key)
              || a.defaultPlacement == b.defaultPlacement
              || (!Mapped(b.routingTable, key) && SameEndpoint(a, b, b.defaultPlacement))
  {
    NeverPartialIff(ps, a, a, b, key);
    RoutesChoice(ps, a, key);
  }

  /** Growth is not enough for that: one swap that moves a key and renews the endpoints, and the key
      goes to its old placement at an endpoint that neither config would have sent it to. */
  lemma TornRouteCanMix(ps: Parsers)
    requires ps.url("u1") && ps.url("u2")
    ensures exists c1: Config, c2: Config, key: string ::
              && Growing(ps, [c1, c2])
              && Route(LoaderReads(c1, c2, c2), key).Success?
              && Route(LoaderReads(c1, c2, c2), key) !in {RouteUnder(c1, key), RouteUnder(c2, key)}
  {
    var c1 := Config("1", map["acme" := "a"], map["a" := "u1", "b" := "u1"], map[], "b");
    var c2 := Config("2", map["acme" := "b"], map["a" := "u2", "b" := "u2"], map[], "b");
    assert "a" in c1.cellEndpoints && "b" in c2.cellEndpoints;
    assert c1.cellEndpoints.Keys == {"a", "b"} == c2.cellEndpoints.Keys;
    assert WellFormed(ps, c1) && WellFormed(ps, c2);
    assert Route(LoaderReads(c1, c2, c2), "acme") == Success(RoutingDecision("a", Dedicated, "u2"));
    assert RouteUnder(c1, "acme") == Success(RoutingDecision("a", Dedicated, "u1"));
    assert RouteUnder(c2, "acme") == Success(RoutingDecision("b", Dedicated, "u2"));
  }
}
