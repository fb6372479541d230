/**
 The request file: what shapes of request are accepted, how long a request stays fresh, how it is consumed
 and how a waiting request is kept fresh.
 */
module Requests {
  import opened Wrappers

  const PROTOCOL_VERSION: int := 1
  const REQUEST_TTL_SECONDS: int := 30

  const FULL_DUMP := "full-dump"
  const BOOST_CURRENT_ABILITY := "boost-current-ability"
  const BOOST_STAFF_CURRENT_ABILITY := "boost-staff-current-ability"
  const WONDERKID_MENTALITY := "wonderkid-mentality"

  const MEN := "men"
  const WOMEN := "women"
  const BOTH := "both"

  /** A request as parsed; every member that JSON may leave null is optional. Instants are plain numbers. */
  datatype BridgeRequest = BridgeRequest(
    protocolVersion: int,
    requestId: Option<string>,
    createdAtUtc: int,
    operation: Option<string>,
    playerDatabaseScope: Option<string>,
    sourceRequestId: Option<string>,
    playerUid: Option<Word32>,
    staffUid: Option<Word32>,
    expectedCurrentAbility: Option<int>,
    expectedPotentialAbility: Option<int>,
    currentAbilityIncrement: Option<int>,
    expectedAmbition: Option<int>,
    expectedProfessionalism: Option<int>,
    expectedDetermination: Option<int>)

  predicate IsWhiteSpace(c: char) {
    var code := c as int;
    || 0x09 <= code <= 0x0D || code == 0x20 || code == 0x85 || code == 0xA0 || code == 0x1680
    || 0x2000 <= code <= 0x200A || code == 0x2028 || code == 0x2029 || code == 0x202F || code == 0x205F
    || code == 0x3000
  }

  predicate IsBlank(s: Option<string>) {
    s.None? || forall i :: 0 <= i < |s.value| ==> IsWhiteSpace(s.value[i])
  }

  predicate Between(value: Option<int>, low: int, high: int) { value.Some? && low <= value.value <= high }

  predicate IsAbility(value: Option<int>) { Between(value, 1, 200) }

  predicate IsMentality(value: Option<int>) { value.None? || Between(value, 1, 20) }

  predicate IsEligibleMentality(value: Option<int>) { Between(value, 1, 10) }

  predicate NamesPerson(uid: Option<Word32>) { uid.Some? && uid.value != 0 }

  predicate IsScope(value: Option<string>) {
    value == Some(MEN) || value == Some(WOMEN) || value == Some(BOTH)
  }

  datatype Rejection =
    | Missing | Unreadable | Malformed | Empty | Stale
    | UnsupportedProtocol | NoRequestId | UnsupportedOperation
    | BadScope | ForeignFields | ScopeNotAllowed | NoSourceRequest | NoPlayer | NoStaff | StaffNotAllowed
    | BadAbilities | AbilitiesOutOfOrder | BadIncrement | IncrementNotAllowed | BadMentality | NothingEligible

  // ---------------------------------------------------------------- shapes

  /** Why a request is malformed, checked in the order in which the first reason is reported; None is well-formed. */
  function ValidateShape(r: BridgeRequest): Option<Rejection> {
    if r.protocolVersion != PROTOCOL_VERSION then Some(UnsupportedProtocol)
    else if IsBlank(r.requestId) then Some(NoRequestId)
    else if r.operation == Some(FULL_DUMP) then ValidateFullDump(r)
    else if r.operation == Some(BOOST_CURRENT_ABILITY) then ValidateBoostCurrentAbility(r)
    else if r.operation == Some(BOOST_STAFF_CURRENT_ABILITY) then ValidateBoostStaff(r)
    else if r.operation == Some(WONDERKID_MENTALITY) then ValidateWonderkid(r)
    else Some(UnsupportedOperation)
  }

  function ValidateFullDump(r: BridgeRequest): Option<Rejection> {
    if !IsScope(r.playerDatabaseScope) then Some(BadScope)
    else if r.sourceRequestId.Some? || r.playerUid.Some? || r.staffUid.Some? || r.expectedCurrentAbility.Some?
            || r.expectedPotentialAbility.Some? || r.currentAbilityIncrement.Some? || r.expectedAmbition.Some?
            || r.expectedProfessionalism.Some? || r.expectedDetermination.Some? then Some(ForeignFields)
    else None
  }

  function ValidateBoostStaff(r: BridgeRequest): Option<Rejection> {
    if r.playerDatabaseScope != Some(MEN) then Some(ScopeNotAllowed)
    else if IsBlank(r.sourceRequestId) then Some(NoSourceRequest)
    else if !NamesPerson(r.staffUid) then Some(NoStaff)
    else if r.playerUid.Some? || r.currentAbilityIncrement.Some? || r.expectedAmbition.Some?
            || r.expectedProfessionalism.Some? || r.expectedDetermination.Some? then Some(ForeignFields)
    else if !IsAbility(r.expectedCurrentAbility) || !IsAbility(r.expectedPotentialAbility)
            || r.expectedCurrentAbility.value > r.expectedPotentialAbility.value then Some(BadAbilities)
    else None
  }

  function ValidateBoostPreconditions(r: BridgeRequest): Option<Rejection> {
    if r.staffUid.Some? then Some(StaffNotAllowed)
    else if r.playerDatabaseScope != Some(MEN) then Some(ScopeNotAllowed)
    else if IsBlank(r.sourceRequestId) then Some(NoSourceRequest)
    else if !NamesPerson(r.playerUid) then Some(NoPlayer)
    else if !IsAbility(r.expectedCurrentAbility) || !IsAbility(r.expectedPotentialAbility) then Some(BadAbilities)
    else if r.expectedCurrentAbility.value > r.expectedPotentialAbility.value then Some(AbilitiesOutOfOrder)
    else None
  }

  function ValidateBoostCurrentAbility(r: BridgeRequest): Option<Rejection> {
    var preconditions := ValidateBoostPreconditions(r);
    if preconditions.Some? then preconditions
    else if r.currentAbilityIncrement != Some(5) && r.currentAbilityIncrement != Some(10) then Some(BadIncrement)
    else if r.expectedAmbition.Some? || r.expectedProfessionalism.Some? || r.expectedDetermination.Some? then
      Some(ForeignFields)
    else None
  }

  function ValidateWonderkid(r: BridgeRequest): Option<Rejection> {
    var preconditions := ValidateBoostPreconditions(r);
    if preconditions.Some? then preconditions
    else if r.currentAbilityIncrement.Some? then Some(IncrementNotAllowed)
    else if !IsMentality(r.expectedAmbition) || !IsMentality(r.expectedProfessionalism)
            || !IsMentality(r.expectedDetermination) then Some(BadMentality)
    else if !IsEligibleMentality(r.expectedAmbition) && !IsEligibleMentality(r.expectedProfessionalism)
            && !IsEligibleMentality(r.expectedDetermination) then Some(NothingEligible)
    else None
  }

  predicate WellFormed(r: BridgeRequest) { ValidateShape(r).None? }

  // ---------------------------------------------------------------- the shapes in plain words

  /** What counts as white space: tabs, line ends and blanks of every width. */
  const WHITE_SPACE: set<int> := {
    0x09, 0x0A, 0x0B, 0x0C, 0x0D, 0x20, 0x85, 0xA0, 0x1680, 0x2000, 0x2001, 0x2002, 0x2003, 0x2004, 0x2005, 0x2006,
    0x2007, 0x2008, 0x2009, 0x200A, 0x2028, 0x2029, 0x202F, 0x205F, 0x3000}

  /** Some character is not white space. */
  ghost predicate HasText(s: Option<string>) {
    s.Some? && exists i :: 0 <= i < |s.value| && s.value[i] as int !in WHITE_SPACE
  }

  predicate HasAbilities(r: BridgeRequest) {
    && r.expectedCurrentAbility.Some? && r.expectedPotentialAbility.Some?
    && 1 <= r.expectedCurrentAbility.value <= r.expectedPotentialAbility.value <= 200
  }

  predicate HasNoMentality(r: BridgeRequest) {
    r.expectedAmbition == None && r.expectedProfessionalism == None && r.expectedDetermination == None
  }

  predicate HasFullDumpFields(r: BridgeRequest) {
    && r.playerDatabaseScope in {Some("men"), Some("women"), Some("both")}
    && r.sourceRequestId == None && r.playerUid == None && r.staffUid == None
    && r.expectedCurrentAbility == None && r.expectedPotentialAbility == None && r.currentAbilityIncrement == None
    && HasNoMentality(r)
  }

  ghost predicate HasPlayerBoostFields(r: BridgeRequest) {
    && r.playerDatabaseScope == Some("men") && HasText(r.sourceRequestId) && HasAbilities(r)
    && r.playerUid.Some? && r.playerUid.value > 0 && r.staffUid == None
  }

  ghost predicate HasStaffBoostFields(r: BridgeRequest) {
    && r.playerDatabaseScope == Some("men") && HasText(r.sourceRequestId) && HasAbilities(r)
    && r.staffUid.Some? && r.staffUid.value > 0 && r.playerUid == None
    && r.currentAbilityIncrement == None && HasNoMentality(r)
  }

  /** Every value that is given is from 1 to 20, and at least one is from 1 to 10. */
  predicate HasLowMentality(r: BridgeRequest) {
    var values := {r.expectedAmbition, r.expectedProfessionalism, r.expectedDetermination};
    && (forall v :: v in values && v.Some? ==> 1 <= v.value <= 20)
    && exists v :: v in values && v.Some? && 1 <= v.value <= 10
  }

  lemma BlankHasNoText(s: Option<string>)
    ensures IsBlank(s) <==> !HasText(s)
  {
    assert forall c: char :: IsWhiteSpace(c) <==> c as int in WHITE_SPACE;
  }

  /** Exactly these requests are well-formed: four operations, each with its own fields and no others. */
  lemma WellFormedIff(r: BridgeRequest)
    ensures WellFormed(r) <==>
            && r.protocolVersion == 1 && HasText(r.requestId)
            && (|| (r.operation == Some("full-dump") && HasFullDumpFields(r))
                || (r.operation == Some("boost-current-ability") && HasPlayerBoostFields(r)
                    && r.currentAbilityIncrement in {Some(5), Some(10)} && HasNoMentality(r))
                || (r.operation == Some("wonderkid-mentality") && HasPlayerBoostFields(r)
                    && r.currentAbilityIncrement == None && HasLowMentality(r))
                || (r.operation == Some("boost-staff-current-ability") && HasStaffBoostFields(r)))
  {
    hide IsBlank, HasText;
    BlankHasNoText(r.requestId);
    BlankHasNoText(r.sourceRequestId);
  }

  /** One check of a request and the reason that is reported when it fails. */
  datatype Check = Check(passes: bool, reason: Rejection)

  ghost function PlayerChecks(r: BridgeRequest): seq<Check> {
    var ability, potential := r.expectedCurrentAbility, r.expectedPotentialAbility;
    var inRange := ability.Some? && 1 <= ability.value <= 200 && potential.Some? && 1 <= potential.value <= 200;
    [Check(r.staffUid == None, StaffNotAllowed), Check(r.playerDatabaseScope == Some("men"), ScopeNotAllowed),
     Check(HasText(r.sourceRequestId), NoSourceRequest),
     Check(r.playerUid.Some? && r.playerUid.value > 0, NoPlayer), Check(inRange, BadAbilities),
     Check(inRange ==> ability.value <= potential.value, AbilitiesOutOfOrder)]
  }

  ghost function StaffChecks(r: BridgeRequest): seq<Check> {
    [Check(r.playerDatabaseScope == Some("men"), ScopeNotAllowed), Check(HasText(r.sourceRequestId), NoSourceRequest),
     Check(r.staffUid.Some? && r.staffUid.value > 0, NoStaff),
     Check(r.playerUid == None && r.currentAbilityIncrement == None && HasNoMentality(r), ForeignFields),
     Check(HasAbilities(r), BadAbilities)]
  }

  ghost function OperationChecks(r: BridgeRequest): seq<Check> {
    var values := {r.expectedAmbition, r.expectedProfessionalism, r.expectedDetermination};
    if r.operation == Some("full-dump") then
      [Check(r.playerDatabaseScope in {Some("men"), Some("women"), Some("both")}, BadScope),
       Check(HasFullDumpFields(r.(playerDatabaseScope := Some("men"))), ForeignFields)]
    else if r.operation == Some("boost-current-ability") then
      PlayerChecks(r) + [Check(r.currentAbilityIncrement in {Some(5), Some(10)}, BadIncrement),
                         Check(HasNoMentality(r), ForeignFields)]
    else if r.operation == Some("wonderkid-mentality") then
      PlayerChecks(r) + [Check(r.currentAbilityIncrement == None, IncrementNotAllowed),
                         Check(forall v :: v in values && v.Some? ==> 1 <= v.value <= 20, BadMentality),
                         Check(exists v :: v in values && v.Some? && 1 <= v.value <= 10, NothingEligible)]
    else if r.operation == Some("boost-staff-current-ability") then StaffChecks(r)
    else [Check(false, UnsupportedOperation)]
  }

  /** All checks of a request, in the order in which they are made. */
  ghost function Checks(r: BridgeRequest): seq<Check> {
    [Check(r.protocolVersion == 1, UnsupportedProtocol), Check(HasText(r.requestId), NoRequestId)] + OperationChecks(r)
  }

  /** The first check that fails is the one that is reported. */
  lemma FirstFailureIsReported(r: BridgeRequest, i: nat)
    requires i < |Checks(r)| && !Checks(r)[i].passes && forall j :: 0 <= j < i ==> Checks(r)[j].passes
    ensures ValidateShape(r) == Some(Checks(r)[i].reason)
  {
    hide IsBlank, HasText;
    BlankHasNoText(r.requestId);
    BlankHasNoText(r.sourceRequestId);
    var checks := Checks(r);
    assert |checks| <= 11;
    assert (i > 0 ==> checks[0].passes) && (i > 1 ==> checks[1].passes) && (i > 2 ==> checks[2].passes);
    assert (i > 3 ==> checks[3].passes) && (i > 4 ==> checks[4].passes) && (i > 5 ==> checks[5].passes);
    assert (i > 6 ==> checks[6].passes) && (i > 7 ==> checks[7].passes) && (i > 8 ==> checks[8].passes);
    assert i > 9 ==> checks[9].passes;
  }

  // ---------------------------------------------------------------- freshness

  /** A request is fresh from the instant it was created until its time to live has passed, both ends included. */
  predicate IsFresh(createdAtUtc: int, now: int, ttl: int) {
    createdAtUtc <= now && now - createdAtUtc <= ttl
  }

  /** A stale request stays stale for as long as its time stamp is not touched. */
  lemma StaleForever(createdAtUtc: int, seen: int, later: int, ttl: int)
    requires seen <= later && createdAtUtc <= seen && !IsFresh(createdAtUtc, seen, ttl)
    ensures !IsFresh(createdAtUtc, later, ttl)
  {
  }

  /** The same request with another time stamp. */
  function CopyRequest(r: BridgeRequest, createdAtUtc: int): (copy: BridgeRequest)
    ensures copy.createdAtUtc == createdAtUtc
    ensures copy.(createdAtUtc := r.createdAtUtc) == r
    ensures ValidateShape(copy) == ValidateShape(r)
  {
    BridgeRequest(r.protocolVersion, r.requestId, createdAtUtc, r.operation, r.playerDatabaseScope, r.sourceRequestId,
                  r.playerUid, r.staffUid, r.expectedCurrentAbility, r.expectedPotentialAbility,
                  r.currentAbilityIncrement, r.expectedAmbition, r.expectedProfessionalism, r.expectedDetermination)
  }

  // ---------------------------------------------------------------- the file

  datatype Content = Absent | Locked | NotJson | JsonNull | Present(request: BridgeRequest)

  datatype Acceptance = Accepted(request: BridgeRequest) | Rejected(reason: Rejection, observedRequestId: Option<string>)

  class RequestFile {
    var content: Content

    constructor ()
      ensures content == Absent
    {
      content := Absent;
    }

    /** Parses the file; whatever cannot be used is deleted. */
    method TryRead() returns (request: Option<BridgeRequest>, reason: Rejection)
      modifies this
      ensures request.Some? <==> old(content).Present?
      ensures request.Some? ==> content == old(content) == Present(request.value)
      ensures request.None? ==> content == Absent
      ensures reason == match old(content)
                        case Absent => Missing case Locked => Unreadable case NotJson => Malformed
                        case JsonNull => Empty case Present(_) => reason
    {
      reason := Missing;
      request := None;
      match content {
        case Absent =>
        case Locked => reason, content := Unreadable, Absent;
        case NotJson => reason, content := Malformed, Absent;
        case JsonNull => reason, content := Empty, Absent;
        case Present(r) => request := Some(r);
      }
    }

    /**
     Consumes the request. Exactly the well-formed and fresh requests are accepted, unchanged; whatever the
     verdict, nothing is left in the file to be accepted again.
     */
    method TryAccept(now: int, ttl: int) returns (r: Acceptance)
      modifies this
      ensures content == Absent
      ensures r.Accepted? <==>
                old(content).Present? && WellFormed(old(content).request)
                && 0 <= now - old(content).request.createdAtUtc <= ttl
      ensures r.Accepted? ==> r.request == old(content).request
      ensures r.Rejected? && old(content).Present? ==>
                && r.observedRequestId ==
                     (if IsBlank(old(content).request.requestId) then None else old(content).request.requestId)
                && (r.reason == Stale || ValidateShape(old(content).request) == Some(r.reason))
                && (r.reason == Stale <==> WellFormed(old(content).request))
    {
      var parsed, reason := TryRead();
      if parsed.None? {
        return Rejected(reason, None);
      }
      var observed := if IsBlank(parsed.value.requestId) then None else parsed.value.requestId;
      var shape := ValidateShape(parsed.value);
      if shape.Some? {
        ShapeIsNeverStale(parsed.value);
        content := Absent;
        return Rejected(shape.value, observed);
      }
      if !IsFresh(parsed.value.createdAtUtc, now, ttl) {
        content := Absent;
        return Rejected(Stale, observed);
      }
      content := Absent;
      r := Accepted(CopyRequest(parsed.value, parsed.value.createdAtUtc));
    }

    /**
     Moves a waiting request's time stamp to now, exactly if the request is well-formed and still fresh and the
     file can be replaced. A stale or malformed request keeps the file as it is, so it can only be rejected.
     */
    method TryRefreshCreatedAtUtc(now: int, ttl: int, canReplace: bool) returns (rewritten: bool)
      modifies this
      ensures rewritten <==>
                && old(content).Present? && WellFormed(old(content).request)
                && 0 <= now - old(content).request.createdAtUtc <= ttl && canReplace
      ensures content == if rewritten then Present(old(content).request.(createdAtUtc := now))
                         else if old(content).Present? then old(content) else Absent
    {
      var parsed, _ := TryRead();
      if parsed.None? || !WellFormed(parsed.value) {
        return false;
      }
      if !IsFresh(parsed.value.createdAtUtc, now, ttl) {
        return false;
      }
      if canReplace {
        content := Present(CopyRequest(parsed.value, now));
      }
      rewritten := canReplace;
    }
  }

  lemma ShapeIsNeverStale(r: BridgeRequest)
    ensures ValidateShape(r) != Some(Stale)
  {
  }
}
