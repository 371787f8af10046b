/** The registry of per-source authorization adapters and its default-deny fallback. */
module Adapters {
  import opened Wrappers
  import opened Policy
  import opened PolicyTheorems

  /** An adapter builds the context of one resource from its id, its organization and the caller's collections. */
  datatype Adapter =
    | SourceAdapter(sourceType: string, build: (string, string, seq<string>) -> Resource)
    | DefaultDenyAdapter(sourceType: string)
  {
    function BuildContext(resourceId: string, organizationId: string, accessible: seq<string>): Resource {
      match this
      case SourceAdapter(_, build) => build(resourceId, organizationId, accessible)
      case DefaultDenyAdapter(_) => DefaultDenyContext(resourceId, organizationId)
    }
  }

  function DefaultDenyContext(resourceId: string, organizationId: string): Resource {
    Resource(Unknown, Some(resourceId), Some(organizationId), None, [], None, [], [], [], [], false, None, [])
  }

  function Resolve(adapters: map<string, Adapter>, sourceType: string): Adapter {
    if sourceType in adapters then adapters[sourceType] else DefaultDenyAdapter(sourceType)
  }

  class Registry {
    var adapters: map<string, Adapter>
    ghost var registrations: seq<Adapter>

    ghost predicate Valid() reads this { adapters == AfterRegistrations(registrations) }

    constructor ()
      ensures Valid() && registrations == []
    {
      adapters, registrations := map[], [];
    }

    method Register(adapter: Adapter)
      requires Valid()
      modifies this
      ensures Valid() && registrations == old(registrations) + [adapter]
      ensures adapters == old(adapters)[adapter.sourceType := adapter]
    {
      adapters := adapters[adapter.sourceType := adapter];
      registrations := registrations + [adapter];
      assert registrations[..|registrations| - 1] == old(registrations);
    }

    /** The latest adapter registered for the type; without one, an adapter whose contexts are always denied. */
    method GetOrDefaultDeny(sourceType: string) returns (adapter: Adapter)
      requires Valid()
      ensures forall i | LatestOf(registrations, sourceType, i) :: adapter == registrations[i]
      ensures (forall a <- registrations :: a.sourceType != sourceType) ==>
                adapter == DefaultDenyAdapter(sourceType) && AlwaysDenies(adapter)
    {
      LatestRegistrationWins(registrations, sourceType);
      LatestExists(registrations, sourceType);
      if sourceType in adapters {
        return adapters[sourceType];
      }
      UnregisteredAlwaysDenied(registrations, sourceType);
      return DefaultDenyAdapter(sourceType);
    }
  }

  /** Position i holds the last registration of the source type. */
  ghost predicate LatestOf(registrations: seq<Adapter>, sourceType: string, i: int) {
    && 0 <= i < |registrations|
    && registrations[i].sourceType == sourceType
    && (forall j | i < j < |registrations| :: registrations[j].sourceType != sourceType)
  }

  /** Every context the adapter builds is denied: to every subject, under every role table, for every action. */
  ghost predicate AlwaysDenies(adapter: Adapter) {
    forall rolePermissions: map<string, set<Permission>>, subject: Subject, action: Action,
           resourceId: string, organizationId: string, accessible: seq<string> ::
      !Decide(Query(rolePermissions, subject, action, adapter.BuildContext(resourceId, organizationId, accessible)), "").allowed
  }

  function AfterRegistrations(registrations: seq<Adapter>): map<string, Adapter> {
    if registrations == [] then map[]
    else
      var last := |registrations| - 1;
      AfterRegistrations(registrations[..last])[registrations[last].sourceType := registrations[last]]
  }

  /** The dict holds the latest adapter registered for a source type, and none for a type never registered. */
  lemma {:induction false} LatestRegistrationWins(registrations: seq<Adapter>, sourceType: string)
    ensures sourceType in AfterRegistrations(registrations) <==> exists i :: LatestOf(registrations, sourceType, i)
    ensures forall i | LatestOf(registrations, sourceType, i) ::
              AfterRegistrations(registrations)[sourceType] == registrations[i]
  {
    if registrations == [] {
    } else {
      var last := |registrations| - 1;
      LatestRegistrationWins(registrations[..last], sourceType);
      if registrations[last].sourceType == sourceType {
        assert LatestOf(registrations, sourceType, last);
      } else {
        LatestIsEarlier(registrations, sourceType);
      }
    }
  }

  /** A type has a latest registration exactly when it has one. */
  lemma {:induction false} LatestExists(registrations: seq<Adapter>, sourceType: string)
    ensures (exists a <- registrations :: a.sourceType == sourceType) <==> exists i :: LatestOf(registrations, sourceType, i)
  {
    if registrations == [] {
    } else {
      var last := |registrations| - 1;
      LatestExists(registrations[..last], sourceType);
      assert registrations == registrations[..last] + [registrations[last]];
      if registrations[last].sourceType == sourceType {
        assert LatestOf(registrations, sourceType, last);
      } else {
        LatestIsEarlier(registrations, sourceType);
      }
    }
  }

  lemma LatestIsEarlier(registrations: seq<Adapter>, sourceType: string)
    requires registrations != [] && registrations[|registrations| - 1].sourceType != sourceType
    ensures var before := registrations[..|registrations| - 1];
            forall i :: LatestOf(registrations, sourceType, i) <==> LatestOf(before, sourceType, i)
  {
    var before := registrations[..|registrations| - 1];
    assert forall j | 0 <= j < |before| :: before[j] == registrations[j];
  }

  /** Whatever has been registered, a source type that has not been is denied to every subject for every action. */
  lemma UnregisteredAlwaysDenied(registrations: seq<Adapter>, sourceType: string)
    requires forall a <- registrations :: a.sourceType != sourceType
    ensures AlwaysDenies(Resolve(AfterRegistrations(registrations), sourceType))
  {
    LatestRegistrationWins(registrations, sourceType);
    LatestExists(registrations, sourceType);
    var adapter := Resolve(AfterRegistrations(registrations), sourceType);
    forall rolePermissions: map<string, set<Permission>>, subject: Subject, action: Action,
           resourceId: string, organizationId: string, accessible: seq<string>
      ensures !Decide(Query(rolePermissions, subject, action, adapter.BuildContext(resourceId, organizationId, accessible)), "").allowed
    {
      var q := Query(rolePermissions, subject, action, adapter.BuildContext(resourceId, organizationId, accessible));
      AllowedMeansMayAccess(q);
      DecideAgreesWithIsAllowed(q, "");
    }
  }
}
