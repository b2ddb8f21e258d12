/**
 * The registrar: the table of application-agent registrations, keyed by endpoint,
 * each guarded by a cookie and either active (a callback receives its bundles) or
 * passive (bundles wait), and the delivery lookup that uses it.
 */
module Registrars {
  import opened Wrappers
  import opened Eids
  import Tags
  import opened Bundles

  /**
   * An application agent's callback. Passive stands for the shared
   * passiveRegistration callback; Active(agent) for any other one.
   */
  datatype Callback = Passive | Active(agent: nat)

  datatype Registration = Registration(registration: Uri, cookie: string, cb: Callback)
  {
    /** isActive: the callback is not the passive one. */
    predicate IsActive() { cb != Passive }
  }

  /** The exceptions of RegistrarApi. */
  datatype RegistrarError =
    | RegistrarDisabled
    | NullArgument
    | EidNotRegistered
    | BadCookie
    | EidAlreadyRegistered

  /** The reasons of DeliveryApi.DeliveryFailure, and an exception thrown while looking up. */
  datatype DeliveryFailure =
    | DeliveryDisabled
    | PassiveRegistration
    | UnregisteredEid
    | Thrown(cause: EidError)

  /** checkRegisteredSink(eid): enabled, a non-null eid, and an entry for it. */
  function CheckSink(enabled: bool, table: map<Uri, Registration>, eid: Option<Uri>): (r: Result<Registration, RegistrarError>)
    ensures r.Ok? <==> enabled && eid.Some? && eid.value in table
    ensures r.Ok? ==> r.value == table[eid.value]
    ensures !enabled ==> r == Err(RegistrarDisabled)
    ensures enabled && eid.None? ==> r == Err(NullArgument)
    ensures enabled && eid.Some? && eid.value !in table ==> r == Err(EidNotRegistered)
  {
    if !enabled then Err(RegistrarDisabled)
    else if eid.None? then Err(NullArgument)
    else if eid.value !in table then Err(EidNotRegistered)
    else Ok(table[eid.value])
  }

  /** checkRegisteredSink(eid, cookie): as above, and the cookie must be the registration's. */
  function CheckSinkCookie(enabled: bool, table: map<Uri, Registration>, eid: Option<Uri>, cookie: Option<string>): (r: Result<Registration, RegistrarError>)
    ensures r.Ok? <==> enabled && eid.Some? && cookie.Some? && eid.value in table && table[eid.value].cookie == cookie.value
    ensures r.Ok? ==> r.value == table[eid.value]
    ensures !enabled ==> r == Err(RegistrarDisabled)
    ensures enabled && (eid.None? || cookie.None?) ==> r == Err(NullArgument)
    ensures enabled && eid.Some? && cookie.Some? && eid.value !in table ==> r == Err(EidNotRegistered)
    ensures enabled && eid.Some? && cookie.Some? && eid.value in table && table[eid.value].cookie != cookie.value ==> r == Err(BadCookie)
  {
    if !enabled then Err(RegistrarDisabled)
    else if eid.None? || cookie.None? then Err(NullArgument)
    else if eid.value !in table then Err(EidNotRegistered)
    else if table[eid.value].cookie != cookie.value then Err(BadCookie)
    else Ok(table[eid.value])
  }

  /** deliverToRegistration: an active registration hands the bundle to its callback. */
  function DeliverTo(reg: Registration): (r: Result<Callback, DeliveryFailure>)
    ensures r.Ok? <==> reg.IsActive()
    ensures r.Ok? ==> r.value == reg.cb
    ensures r.Err? ==> r.error == PassiveRegistration
  {
    if !reg.IsActive() then Err(PassiveRegistration) else Ok(reg.cb)
  }

  /**
   * deliver(localMatch, bundle): the registration of the destination's endpoint;
   * failing that, and unless the local table matched an AA registration, the
   * registration of the destination moved under api:me. `endpoint` stands for
   * Eid.getEndpoint.
   */
  function Deliver(enabled: bool, table: map<Uri, Registration>, endpoint: Uri -> Uri,
                   localMatch: LookUpResult, destination: Uri): (r: Result<Callback, DeliveryFailure>)
    requires WellFormed(destination)
    ensures !enabled ==> r == Err(DeliveryDisabled)
    ensures enabled && endpoint(destination) in table ==> r == DeliverTo(table[endpoint(destination)])
    ensures enabled && endpoint(destination) !in table && (localMatch == EidMatchAARegistration || !IsDtnEid(destination)) ==>
              r == Err(UnregisteredEid)
    ensures r.Ok? ==> r.value.Active? && exists k :: k in table && table[k].cb == r.value
  {
    if !enabled then Err(DeliveryDisabled)
    else if endpoint(destination) in table then DeliverTo(table[endpoint(destination)])
    else if localMatch == EidMatchAARegistration then Err(UnregisteredEid)
    else if !IsDtnEid(destination) then Err(UnregisteredEid)
    else
      match SwapApiMeUnsafe(destination, Me())
      case Err(e) => Err(Thrown(e))
      case Ok(moved) =>
        if endpoint(moved) in table then DeliverTo(table[endpoint(moved)]) else Err(UnregisteredEid)
  }

  /**
   * The api:me fallback: a dtn destination with a path that is neither registered
   * under its own endpoint nor an exact AA match is delivered through the
   * registration of the same path, query and fragment under the node api:me, and
   * is unregistered when there is none; the only dtn eid without a path, dtn:none,
   * makes the swap throw.
   */
  lemma DeliverApiMeFallback(table: map<Uri, Registration>, endpoint: Uri -> Uri,
                             localMatch: LookUpResult, destination: Uri)
    requires WellFormed(destination) && IsDtnEid(destination)
    requires endpoint(destination) !in table && localMatch != EidMatchAARegistration
    ensures destination.Hier? ==>
              var moved := Hier("dtn", Some(API_ME), destination.path, destination.query, destination.fragment);
              Deliver(true, table, endpoint, localMatch, destination) ==
                (if endpoint(moved) in table then DeliverTo(table[endpoint(moved)]) else Err(UnregisteredEid))
    ensures destination.Opaque? ==> Deliver(true, table, endpoint, localMatch, destination) == Err(Thrown(IllegalArgument))
  {
    if destination.Hier? {
      SwapApiMeSucceeds(destination, Me());
    }
  }

  /**
   * Every stored registration sits under the endpoint of the eid it was made for.
   */
  predicate KeyedByEndpoint(table: map<Uri, Registration>, endpoint: Uri -> Uri)
  {
    forall k :: k in table ==> endpoint(table[k].registration) == k
  }

  class Registrar {
    var enabled: bool
    var registrations: map<Uri, Registration>
    /** Eid.getEndpoint, which is not part of this model. */
    const endpoint: Uri -> Uri

    predicate Valid()
      reads this
    {
      KeyedByEndpoint(registrations, endpoint)
    }

    constructor(enabled: bool, endpoint: Uri -> Uri)
      ensures Valid() && this.enabled == enabled && registrations == map[] && this.endpoint == endpoint
    {
      this.enabled := enabled;
      this.endpoint := endpoint;
      registrations := map[];
    }

    /** isRegistered(eid): an entry under that very eid. */
    function IsRegistered(eid: Option<Uri>): (r: Result<bool, RegistrarError>)
      reads this
      ensures r.Ok? <==> enabled && eid.Some?
      ensures r.Ok? ==> (r.value <==> eid.value in registrations)
      ensures r.Err? ==> r.error == if !enabled then RegistrarDisabled else NullArgument
    {
      if !enabled then Err(RegistrarDisabled)
      else if eid.None? then Err(NullArgument)
      else Ok(eid.value in registrations)
    }

    /**
     * register(eid, cb): a new registration under the eid's endpoint, with the
     * given cookie (the random UUID of the source is a parameter here); refused
     * when the endpoint already has one.
     */
    method Register(eid: Option<Uri>, cb: Option<Callback>, cookie: string) returns (r: Result<string, RegistrarError>)
      requires Valid()
      modifies this
      ensures Valid() && enabled == old(enabled)
      ensures r.Ok? <==> enabled && eid.Some? && cb.Some? && endpoint(eid.value) !in old(registrations)
      ensures r.Ok? ==> (r.value == cookie &&
                         registrations == old(registrations)[endpoint(eid.value) := Registration(eid.value, cookie, cb.value)])
      ensures r.Err? ==> registrations == old(registrations)
      ensures r.Err? ==> r.error == (if !enabled then RegistrarDisabled
                                     else if eid.None? || cb.None? then NullArgument
                                     else EidAlreadyRegistered)
    {
      if !enabled {
        return Err(RegistrarDisabled);
      }
      if eid.None? || cb.None? {
        return Err(NullArgument);
      }
      var registration := Registration(eid.value, cookie, cb.value);
      var key := endpoint(eid.value);
      if key in registrations {
        return Err(EidAlreadyRegistered);
      }
      registrations := Tags.PutIfAbsent(registrations, key, registration);
      return Ok(registration.cookie);
    }

    /** register(eid): a passive registration. */
    method RegisterPassive(eid: Option<Uri>, cookie: string) returns (r: Result<string, RegistrarError>)
      requires Valid()
      modifies this
      ensures Valid() && enabled == old(enabled)
      ensures r.Ok? <==> enabled && eid.Some? && endpoint(eid.value) !in old(registrations)
      ensures r.Ok? ==> (r.value == cookie &&
                         registrations == old(registrations)[endpoint(eid.value) := Registration(eid.value, cookie, Passive)])
      ensures r.Err? ==> registrations == old(registrations)
    {
      r := Register(eid, Some(Passive), cookie);
    }

    /** unregister(eid, cookie): removes exactly that entry once the cookie checks. */
    method Unregister(eid: Option<Uri>, cookie: Option<string>) returns (r: Result<bool, RegistrarError>)
      requires Valid()
      modifies this
      ensures Valid() && enabled == old(enabled)
      ensures r.Ok? <==> CheckSinkCookie(enabled, old(registrations), eid, cookie).Ok?
      ensures r.Ok? ==> r.value && registrations == old(registrations) - {eid.value}
      ensures r.Err? ==> (r.error == CheckSinkCookie(enabled, old(registrations), eid, cookie).error &&
                          registrations == old(registrations))
    {
      var check := CheckSinkCookie(enabled, registrations, eid, cookie);
      if check.Err? {
        return Err(check.error);
      }
      registrations := registrations - {eid.value};
      return Ok(true);
    }

    /** setActive(eid, cookie, cb): a null callback is refused before anything else. */
    method SetActive(eid: Option<Uri>, cookie: Option<string>, cb: Option<Callback>) returns (r: Result<bool, RegistrarError>)
      requires Valid()
      modifies this
      ensures Valid() && enabled == old(enabled)
      ensures cb.None? ==> r == Err(NullArgument) && registrations == old(registrations)
      ensures cb.Some? ==> (r.Ok? <==> CheckSinkCookie(enabled, old(registrations), eid, cookie).Ok?)
      ensures r.Ok? ==> r.value && registrations == old(registrations)[eid.value := old(registrations)[eid.value].(cb := cb.value)]
      ensures cb.Some? && r.Err? ==> r.error == CheckSinkCookie(enabled, old(registrations), eid, cookie).error
      ensures r.Err? ==> registrations == old(registrations)
    {
      if cb.None? {
        return Err(NullArgument);
      }
      var check := CheckSinkCookie(enabled, registrations, eid, cookie);
      if check.Err? {
        return Err(check.error);
      }
      registrations := registrations[eid.value := check.value.(cb := cb.value)];
      return Ok(true);
    }

    /** setPassive(eid): no cookie asked. */
    method SetPassive(eid: Option<Uri>) returns (r: Result<bool, RegistrarError>)
      requires Valid()
      modifies this
      ensures Valid() && enabled == old(enabled)
      ensures r.Ok? <==> CheckSink(enabled, old(registrations), eid).Ok?
      ensures r.Ok? ==> r.value && registrations == old(registrations)[eid.value := old(registrations)[eid.value].(cb := Passive)]
      ensures r.Err? ==> r.error == CheckSink(enabled, old(registrations), eid).error && registrations == old(registrations)
    {
      var check := CheckSink(enabled, registrations, eid);
      if check.Err? {
        return Err(check.error);
      }
      registrations := registrations[eid.value := check.value.(cb := Passive)];
      return Ok(true);
    }

    /** setPassive(eid, cookie). */
    method SetPassiveWithCookie(eid: Option<Uri>, cookie: Option<string>) returns (r: Result<bool, RegistrarError>)
      requires Valid()
      modifies this
      ensures Valid() && enabled == old(enabled)
      ensures r.Ok? <==> CheckSinkCookie(enabled, old(registrations), eid, cookie).Ok?
      ensures r.Ok? ==> r.value && registrations == old(registrations)[eid.value := old(registrations)[eid.value].(cb := Passive)]
      ensures r.Err? ==> r.error == CheckSinkCookie(enabled, old(registrations), eid, cookie).error && registrations == old(registrations)
    {
      var check := CheckSinkCookie(enabled, registrations, eid, cookie);
      if check.Err? {
        return Err(check.error);
      }
      registrations := registrations[eid.value := check.value.(cb := Passive)];
      return Ok(true);
    }

    /** deliver(localMatch, bundle) on the current table. */
    function DeliverBundle(localMatch: LookUpResult, destination: Uri): (r: Result<Callback, DeliveryFailure>)
      requires WellFormed(destination)
      reads this
      ensures !enabled ==> r == Err(DeliveryDisabled)
      ensures enabled && endpoint(destination) in registrations ==> r == DeliverTo(registrations[endpoint(destination)])
      ensures enabled && endpoint(destination) !in registrations && (localMatch == EidMatchAARegistration || !IsDtnEid(destination)) ==>
                r == Err(UnregisteredEid)
      ensures enabled && endpoint(destination) !in registrations && localMatch != EidMatchAARegistration && IsDtnEid(destination) ==>
                if destination.Opaque? then r == Err(Thrown(IllegalArgument))
                else
                  var moved := Hier("dtn", Some(API_ME), destination.path, destination.query, destination.fragment);
                  r == if endpoint(moved) in registrations then DeliverTo(registrations[endpoint(moved)]) else Err(UnregisteredEid)
      ensures r.Ok? ==> r.value.Active? && exists k :: k in registrations && registrations[k].cb == r.value
    {
      if enabled && endpoint(destination) !in registrations && localMatch != EidMatchAARegistration && IsDtnEid(destination) then
        DeliverApiMeFallback(registrations, endpoint, localMatch, destination);
        Deliver(enabled, registrations, endpoint, localMatch, destination)
      else
        Deliver(enabled, registrations, endpoint, localMatch, destination)
    }
  }

  /**
   * The cookie handed out by a successful registration opens the cookie-checked
   * operations for that endpoint, and any other cookie is refused with BadCookie.
   */
  lemma CookieOpensRegistration(table: map<Uri, Registration>, key: Uri, reg: Registration, other: string)
    requires key !in table && other != reg.cookie
    ensures CheckSinkCookie(true, Tags.PutIfAbsent(table, key, reg), Some(key), Some(reg.cookie)) == Ok(reg)
    ensures CheckSinkCookie(true, Tags.PutIfAbsent(table, key, reg), Some(key), Some(other)) == Err(BadCookie)
  {
  }

  /** After unregistering, the eid is no longer registered and every other entry answers as before. */
  lemma UnregisterRemovesOnly(table: map<Uri, Registration>, eid: Uri, other: Uri, cookie: Option<string>)
    requires other != eid
    ensures CheckSink(true, table - {eid}, Some(eid)) == Err(EidNotRegistered)
    ensures CheckSinkCookie(true, table - {eid}, Some(other), cookie) == CheckSinkCookie(true, table, Some(other), cookie)
  {
  }

  /**
   * A bundle for an endpoint that has an active registration goes to its callback;
   * one for a passive registration fails with PassiveRegistration.
   */
  lemma DeliverToRegistered(table: map<Uri, Registration>, endpoint: Uri -> Uri, localMatch: LookUpResult, destination: Uri)
    requires WellFormed(destination) && endpoint(destination) in table
    ensures table[endpoint(destination)].IsActive() ==>
      Deliver(true, table, endpoint, localMatch, destination) == Ok(table[endpoint(destination)].cb)
    ensures !table[endpoint(destination)].IsActive() ==>
      Deliver(true, table, endpoint, localMatch, destination) == Err(PassiveRegistration)
  {
  }

  /**
   * Switching a registration to active and back to passive: delivery follows the
   * registration's current callback.
   */
  lemma SetActiveThenDeliver(table: map<Uri, Registration>, endpoint: Uri -> Uri, destination: Uri, agent: nat)
    requires WellFormed(destination) && endpoint(destination) in table
    ensures var key := endpoint(destination);
      Deliver(true, table[key := table[key].(cb := Active(agent))], endpoint, EidMatchOther, destination) == Ok(Active(agent)) &&
      Deliver(true, table[key := table[key].(cb := Passive)], endpoint, EidMatchOther, destination) == Err(PassiveRegistration)
  {
  }
}
