/**
 * The routing engine: the direct strategy first, then the strategy named by the
 * bundle's routing blocks, and failing that the direct strategy's forward-later.
 */
module RoutingEngines {
  import opened Wrappers

  /** RoutingStrategyResult. */
  datatype RoutingResult = Forwarded | CustodyAccepted | CustodyRefused

  /** Why a route() fails. StrategyFailure stands for any error a strategy raises. */
  datatype RoutingError = IllegalRoutingResult | NoAlternateStrategyFound | StrategyFailure

  /** The outcome of a strategy's route(bundle). */
  type RouteOutcome = Result<RoutingResult, RoutingError>

  datatype Strategy = Strategy(id: int, name: string)

  datatype EngineError = RoutingStrategyAlreadyRegistered

  const ROUTING_ENGINE_STRATEGY_ID: int := 0

  /** The position of the first id that names a registered strategy, if any. */
  function FirstRegistered(ids: seq<int>, registered: set<int>): (r: Option<nat>)
    ensures r.Some? ==> r.value < |ids| && ids[r.value] in registered
    ensures r.Some? ==> forall j :: 0 <= j < r.value ==> ids[j] !in registered
    ensures r.None? <==> forall j :: 0 <= j < |ids| ==> ids[j] !in registered
  {
    if ids == [] then None
    else if ids[0] in registered then Some(0)
    else match FirstRegistered(ids[1..], registered)
      case None => None
      case Some(i) => Some(i + 1)
  }

  class RoutingEngine {
    var strategies: map<int, Strategy>

    constructor()
      ensures strategies == map[]
    {
      strategies := map[];
    }

    /** A strategy id is valid for the map when the strategy stored under it has that id. */
    predicate Valid()
      reads this
    {
      forall id :: id in strategies ==> strategies[id].id == id
    }

    /** addRoutingStrategy: an id already taken is refused and nothing changes. */
    method AddRoutingStrategy(s: Strategy) returns (r: Result<(), EngineError>)
      requires Valid()
      modifies this
      ensures Valid()
      ensures r.Err? <==> s.id in old(strategies)
      ensures r.Err? ==> strategies == old(strategies)
      ensures r.Ok? ==> strategies == old(strategies)[s.id := s]
    {
      if s.id in strategies {
        return Err(RoutingStrategyAlreadyRegistered);
      }
      strategies := strategies[s.id := s];
      return Ok(());
    }

    /**
     * findAlternateStrategy: the strategy of the first routing block (given by the
     * strategy ids of the bundle's routing blocks, in order) that names a
     * registered strategy.
     */
    method FindAlternateStrategy(routingBlockIds: seq<int>) returns (r: Result<Strategy, RoutingError>)
      ensures r.Err? <==> FirstRegistered(routingBlockIds, strategies.Keys).None?
      ensures r.Err? ==> r.error == NoAlternateStrategyFound
      ensures r.Ok? ==> r.value == strategies[routingBlockIds[FirstRegistered(routingBlockIds, strategies.Keys).value]]
    {
      var i := 0;
      while i < |routingBlockIds|
        invariant 0 <= i <= |routingBlockIds|
        invariant forall j :: 0 <= j < i ==> routingBlockIds[j] !in strategies
      {
        if routingBlockIds[i] in strategies {
          return Ok(strategies[routingBlockIds[i]]);
        }
        i := i + 1;
      }
      return Err(NoAlternateStrategyFound);
    }

    /**
     * route(bundle): `direct` is what the direct strategy answers, `alternate(s)`
     * what strategy s answers and `later` what the direct strategy's forwardLater
     * answers for this bundle.
     */
    method Route(direct: RouteOutcome, routingBlockIds: seq<int>, alternate: Strategy -> RouteOutcome, later: RouteOutcome)
      returns (r: RouteOutcome)
      ensures direct.Err? || direct == Ok(Forwarded) ==> r == direct
      ensures direct == Ok(CustodyAccepted) ==> r == Err(IllegalRoutingResult)
      ensures direct == Ok(CustodyRefused) && FirstRegistered(routingBlockIds, strategies.Keys).None? ==> r == later
      ensures direct == Ok(CustodyRefused) && FirstRegistered(routingBlockIds, strategies.Keys).Some? ==>
        var s := strategies[routingBlockIds[FirstRegistered(routingBlockIds, strategies.Keys).value]];
        r == if alternate(s).Ok? then alternate(s) else later
    {
      if direct.Err? {
        return direct;
      }
      match direct.value
      case Forwarded =>
        return direct;
      case CustodyAccepted =>
        return Err(IllegalRoutingResult);
      case CustodyRefused =>
        r := DirectForwardingContraindicated(routingBlockIds, alternate, later);
    }

    /** directForwardingContraindicated: any failure of the alternate path falls back on forwardLater. */
    method DirectForwardingContraindicated(routingBlockIds: seq<int>, alternate: Strategy -> RouteOutcome, later: RouteOutcome)
      returns (r: RouteOutcome)
      ensures FirstRegistered(routingBlockIds, strategies.Keys).None? ==> r == later
      ensures FirstRegistered(routingBlockIds, strategies.Keys).Some? ==>
        var s := strategies[routingBlockIds[FirstRegistered(routingBlockIds, strategies.Keys).value]];
        r == if alternate(s).Ok? then alternate(s) else later
    {
      var found := FindAlternateStrategy(routingBlockIds);
      if found.Err? {
        return later;
      }
      var routed := alternate(found.value);
      if routed.Err? {
        return later;
      }
      return routed;
    }
  }

  /**
   * Registering more strategies never makes the search skip a routing block it
   * used to stop at: the first match can only move earlier.
   */
  lemma FirstRegisteredMonotone(ids: seq<int>, registered: set<int>, more: set<int>)
    requires registered <= more
    ensures FirstRegistered(ids, registered).Some? ==>
      FirstRegistered(ids, more).Some? && FirstRegistered(ids, more).value <= FirstRegistered(ids, registered).value
  {
  }
}
