/** The staff boost: a fixed increment on one staff member's current ability. */
module StaffBoosts {
  import opened Wrappers
  import opened Requests
  import opened ScanModel
  import opened ProcessMemory
  import opened PersonLayout
  import opened ValueMutations
  import opened Boosts
  import opened MutationIndexes
  import P = PlayerBoosts

  const INCREMENT: int := 10

  datatype StaffExecution = StaffExecution(succeeded: bool, failure: BoostFailure, report: Option<AbilityBoost>)

  function Refuse(failure: BoostFailure): StaffExecution { StaffExecution(false, failure, None) }

  predicate Executable(r: BridgeRequest) {
    && r.operation == Some(BOOST_STAFF_CURRENT_ABILITY) && !IsBlank(r.sourceRequestId) && NamesPerson(r.staffUid)
    && r.playerUid.None? && r.currentAbilityIncrement.None? && r.expectedAmbition.None?
    && r.expectedProfessionalism.None? && r.expectedDetermination.None?
    && IsAbility(r.expectedCurrentAbility) && IsAbility(r.expectedPotentialAbility)
    && r.expectedCurrentAbility.value <= r.expectedPotentialAbility.value
  }

  /** A staff boost is accepted by shape exactly when the service finds it executable and its envelope is right. */
  lemma ShapeAgreesWithService(r: BridgeRequest)
    requires r.operation == Some(BOOST_STAFF_CURRENT_ABILITY)
    ensures WellFormed(r) <==>
              && Executable(r) && r.protocolVersion == PROTOCOL_VERSION && !IsBlank(r.requestId)
              && r.playerDatabaseScope == Some(MEN)
  {
  }

  /** A boost has nothing to raise exactly when the potential is reached. */
  lemma LimitIsPotential(r: BridgeRequest, c: PersonCandidate)
    requires Executable(r) && r.expectedCurrentAbility == Some(c.ca) && r.expectedPotentialAbility == Some(c.pa)
    ensures Boosted(c.ca, c.pa, INCREMENT) <= c.ca <==> r.expectedCurrentAbility == r.expectedPotentialAbility
  {
  }

  class StaffBoostOperationService {
    const layouts: LayoutRegistry
    const index: MutationIndex

    constructor (layouts: LayoutRegistry, index: MutationIndex)
      requires !index.players
      ensures this.layouts == layouts && this.index == index
    {
      this.layouts, this.index := layouts, index;
    }

    predicate SupportsExactGameBuild(version: string) {
      layouts.resolve(version).Some? && layouts.supportsStaffBoosts(version)
    }

    predicate HasSupportedLiveIndex(version: string)
      reads index
    {
      SupportsExactGameBuild(version) && index.HasCandidatesFor(version)
    }

    ghost predicate Ready()
      reads index
    {
      !index.players && index.Valid()
    }

    ghost predicate Located(request: BridgeRequest, version: string, image: Image, c: PersonCandidate,
                            layout: MutationLayout)
      reads index
    {
      && Executable(request) && SupportsExactGameBuild(version) && layouts.resolve(version) == Some(layout)
      && index.sourceRequestId == request.sourceRequestId && index.gameVersion == Some(version)
      && request.staffUid.value in index.people && c == index.people[request.staffUid.value] && !c.facet.Player?
      && c.uid == request.staffUid.value
      && request.expectedCurrentAbility == Some(c.ca) && request.expectedPotentialAbility == Some(c.pa)
      && LiveMatches(image, layout, c, c.ca, c.pa)
    }

    /** Request, build, index and live memory agree on some person. */
    ghost predicate Locatable(request: BridgeRequest, version: string, image: Image)
      reads index
    {
      exists c, layout :: Located(request, version, image, c, layout)
    }

    /** The index, filled by the named dump of the running build, has the named member of the staff. */
    ghost predicate HasNamed(request: BridgeRequest, version: string)
      reads index
    {
      && Executable(request) && SupportsExactGameBuild(version)
      && index.sourceRequestId == request.sourceRequestId && index.gameVersion == Some(version)
      && request.staffUid.value in index.people
    }

    /** The cached abilities are other ones than the request expects. */
    ghost predicate IsOutdated(request: BridgeRequest, version: string)
      reads index
    {
      && HasNamed(request, version)
      && var c := index.people[request.staffUid.value];
         request.expectedCurrentAbility != Some(c.ca) || request.expectedPotentialAbility != Some(c.pa)
    }

    method Locate(request: BridgeRequest, version: string, memory: Memory)
      returns (failure: BoostFailure, c: PersonCandidate, layout: MutationLayout)
      requires Ready()
      ensures failure.NoBoostFailure? ==> Located(request, version, memory.image, c, layout)
      ensures failure.InvalidRequest? <==> !Executable(request)
      ensures failure.UnsupportedGameBuild? <==> Executable(request) && !SupportsExactGameBuild(version)
      ensures Executable(request) && SupportsExactGameBuild(version) ==>
                && (failure.NoLiveScan? <==> index.sourceRequestId.None?)
                && (failure.OtherSourceRequest? <==>
                      index.sourceRequestId.Some?
                      && (index.sourceRequestId != request.sourceRequestId
                          || (request.staffUid.value in index.people && index.gameVersion != Some(version))))
                && (failure.PersonNotFound? <==>
                      index.sourceRequestId == request.sourceRequestId && request.staffUid.value !in index.people)
      ensures !failure.CurrentAbilityAtLimit? && !failure.PartialRollbackUnverified?
      ensures !HasNamed(request, version) ==> !failure.NoBoostFailure? && !PreservesLiveIndex(failure)
      ensures IsOutdated(request, version) ==> failure.ExpectedValuesMismatch?
      ensures memory.reliable && Locatable(request, version, memory.image) ==>
                failure.NoBoostFailure?
    {
      c := PersonCandidate(0, 0, 0, 0, 0, 0, Staff);
      layout := MutationLayout(0, 0, 0, 0, 0, 0, [], []);
      if !Executable(request) {
        return InvalidRequest, c, layout;
      }
      if layouts.resolve(version).None? || !SupportsExactGameBuild(version) {
        return UnsupportedGameBuild, c, layout;
      }
      layout := layouts.resolve(version).value;
      match index.TryGet(request.sourceRequestId.value, request.staffUid.value) {
        case MissingIndex => return NoLiveScan, c, layout;
        case SourceRequestMismatch => return OtherSourceRequest, c, layout;
        case NotFound => return PersonNotFound, c, layout;
        case Found(indexedVersion, candidate) =>
          if indexedVersion != version {
            return OtherSourceRequest, c, layout;
          }
          c := candidate;
      }
      if c.ca != request.expectedCurrentAbility.value || c.pa != request.expectedPotentialAbility.value {
        return ExpectedValuesMismatch, c, layout;
      }
      failure := TryReadLiveState(memory, layout, c, false, c.ca, c.pa);
    }

    /**
     Executes one accepted staff boost: current ability rises by the fixed increment under the same cap as a
     player's, in memory and index alike, or both are as before, or the rollback is reported as unverified.
     */
    method Execute(request: BridgeRequest, version: string, memory: Memory)
      returns (r: StaffExecution, c: PersonCandidate, layout: MutationLayout)
      requires Ready()
      modifies memory`image, index`people
      ensures index.Valid()
      ensures r.succeeded ==>
                && r.failure.NoBoostFailure? && old(Located(request, version, memory.image, c, layout))
                && c.ca < Boosted(c.ca, c.pa, INCREMENT)
                && P.AbilityRaised(old(memory.image), memory.image, old(index.people), index.people, layout, c,
                                   Boosted(c.ca, c.pa, INCREMENT))
                && r.report == Some(AbilityBoost(Verified, NotNeeded,
                     AbilityReport(Some(c.ca), Some(Boosted(c.ca, c.pa, INCREMENT)), Some(c.pa))))
      ensures !r.succeeded ==> index.people == old(index.people) && !r.failure.NoBoostFailure?
      ensures !r.succeeded && r.report.Some? ==>
                && r.report.value.report.current.None? && r.report.value.report.potential == Some(c.pa)
                && (r.report.value.report.previous.Some? ==> r.report.value.report.previous == Some(c.ca))
                && (r.failure.PartialRollbackUnverified? <==> r.report.value.rollback.Unverified?)
                && r.report.value.outcome ==
                    (if r.report.value.rollback.Unverified? then PartialUnverified else NotDone)
      ensures !r.succeeded && !r.failure.PartialRollbackUnverified? ==> memory.image == old(memory.image)
      ensures memory.image != old(memory.image) ==>
                old(Located(request, version, memory.image, c, layout))
                && P.OnlyAbilityDiffers(old(memory.image), memory.image, layout, c)
      ensures r.failure.InvalidRequest? <==> !Executable(request)
      ensures r.failure.CurrentAbilityAtLimit? ==>
                old(Located(request, version, memory.image, c, layout)) && Boosted(c.ca, c.pa, INCREMENT) <= c.ca
      ensures !old(HasNamed(request, version)) ==> !r.succeeded && !PreservesLiveIndex(r.failure)
      ensures old(IsOutdated(request, version)) ==> r.failure.ExpectedValuesMismatch?
      ensures memory.reliable && old(Locatable(request, version, memory.image)) ==>
                && old(Located(request, version, memory.image, c, layout))
                && if request.expectedCurrentAbility == request.expectedPotentialAbility
                   then r.failure.CurrentAbilityAtLimit? else r.succeeded
    {
      hide LiveMatches, SameExcept, Executable;
      var failure;
      failure, c, layout := Locate(request, version, memory);
      if !failure.NoBoostFailure? {
        return Refuse(failure), c, layout;
      }
      var target := Boosted(c.ca, c.pa, INCREMENT);
      LimitIsPotential(request, c);
      if target <= c.ca {
        return Refuse(CurrentAbilityAtLimit), c, layout;
      }
      LiveIsSettable(memory.image, layout, c, target);
      var mutations := new StaffValueMutationService(memory, layout);
      var mutation := mutations.SetCurrentAbility(c, c.ca, c.pa, target);
      if !mutation.succeeded {
        var unverified := mutation.rollback.Unverified?;
        r := StaffExecution(
          false,
          if unverified then PartialRollbackUnverified
          else if mutation.failure.ExpectedValueMismatch? then ExpectedValuesMismatch else MutationFailed,
          Some(AbilityBoost(if unverified then PartialUnverified else NotDone, mutation.rollback,
                            AbilityReport(mutation.previousValue, None, Some(c.pa)))));
        return;
      }
      var updated := index.TryUpdateCurrentAbility(request.sourceRequestId.value, c.uid, c.ca, c.pa,
                                                   mutation.verifiedValue.value);
      // The source reports a partial rollback when the update is refused; it never is.
      assert updated;
      r := StaffExecution(true, NoBoostFailure,
                          Some(AbilityBoost(Verified, NotNeeded,
                                            AbilityReport(mutation.previousValue, mutation.verifiedValue, Some(c.pa)))));
    }
  }

  /** A located person can be raised to any valid target within its potential. */
  lemma LiveIsSettable(image: Image, layout: MutationLayout, c: PersonCandidate, target: int)
    requires LiveMatches(image, layout, c, c.ca, c.pa) && c.ca < target <= c.pa
    ensures AbilitySettable(image, layout, c, c.ca, Some(c.pa), target)
  {
  }
}
