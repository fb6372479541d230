/**
 What building the index comes across, said of memory alone: who is seen in which squad, which managers are seen
 with which team, and which dates the teams vote for.
 */
module SquadFacts {
  import opened Wrappers
  import opened ScanModel
  import opened SquadIndex

  // ---------------------------------------------------------------- reading memory

  ghost predicate HasPointer(reader: SquadReader, owner: Word64, offset: int, value: Word64) {
    && 0 <= offset && owner + offset < 0x1_0000_0000_0000_0000
    && var field: Word64 := owner + offset;
       reader.readUInt64(field) == Some(value)
  }

  ghost predicate HasWord(reader: SquadReader, owner: Word64, offset: int, value: Word32) {
    && 0 <= offset && owner + offset < 0x1_0000_0000_0000_0000
    && var field: Word64 := owner + offset;
       reader.readUInt32(field) == Some(value)
  }

  ghost predicate HasHalfWord(reader: SquadReader, owner: Word64, offset: int, value: nat) {
    && 0 <= offset && owner + offset < 0x1_0000_0000_0000_0000
    && var field: Word64 := owner + offset;
       reader.readUInt16(field) == Some(value)
  }

  ghost predicate HasByte(reader: SquadReader, owner: Word64, offset: int, value: Byte) {
    && 0 <= offset && owner + offset < 0x1_0000_0000_0000_0000
    && var field: Word64 := owner + offset;
       reader.readByte(field) == Some(value)
  }

  /** The bounds of a list of at most so many pointers. */
  ghost predicate HasList(reader: SquadReader, owner: Word64, beginOffset: int, endOffset: int, maximum: nat,
                          begin: Word64, end: Word64)
  {
    && HasPointer(reader, owner, beginOffset, begin) && HasPointer(reader, owner, endOffset, end)
    && 0 < begin < end <= begin + 8 * maximum && begin % 8 == 0 && end % 8 == 0
  }

  /** A place of the list holds this pointer, which is not null. */
  ghost predicate IsListed(reader: SquadReader, begin: Word64, end: Word64, i: nat, entry: Word64) {
    begin + 8 * i < end && HasPointer(reader, begin, 8 * i, entry) && entry != 0
  }

  // ---------------------------------------------------------------- clubs, teams and squads

  /** The first plausible mention of a discovered club, or a fallback club that was not discovered. */
  ghost predicate IsWalked(setting: Setting, clubs: seq<ClubCandidate>, fallback: seq<Word64>, club: Word64,
                           name: string)
  {
    && club != 0
    && ((exists i :: 0 <= i < |clubs| && clubs[i] == ClubCandidate(club, name)
                     && setting.reader.isPlausibleName(name)
                     && forall j :: 0 <= j < i && clubs[j].address == club ==>
                          !setting.reader.isPlausibleName(clubs[j].name))
        || (&& club in fallback && setting.reader.clubName(club) == Some(name)
            && forall c :: c in clubs && c.address == club ==> !setting.reader.isPlausibleName(c.name)))
  }

  ghost predicate IsTeamOf(setting: Setting, club: Word64, team: Word64) {
    exists begin, end, i ::
      && HasList(setting.reader, club, setting.layout.clubTeamsBeginOffset, setting.layout.clubTeamsEndOffset, 24,
                 begin, end)
      && IsListed(setting.reader, begin, end, i, team)
  }

  ghost predicate IsInSquad(setting: Setting, team: Word64, entry: Word64) {
    exists begin, end, i ::
      && HasList(setting.reader, team, setting.layout.teamSquadBeginOffset, setting.layout.teamSquadEndOffset, 60,
                 begin, end)
      && IsListed(setting.reader, begin, end, i, entry)
  }

  /** The word at this place of the entry points to a known person. */
  ghost predicate PointsToPerson(setting: Setting, entry: Word64, k: nat, person: Word64) {
    HasPointer(setting.reader, entry, 8 * k, person) && person != 0 && person in setting.personToUid
  }

  /** The entry is the person, or the first of its seventeen words that points to one does. */
  ghost predicate IsBehind(setting: Setting, entry: Word64, uid: Word32) {
    if entry in setting.personToUid then setting.personToUid[entry] == uid
    else
      exists k, person ::
        && 0 <= k <= 16 && PointsToPerson(setting, entry, k, person) && setting.personToUid[person] == uid
        && forall j, other :: 0 <= j < k ==> !PointsToPerson(setting, entry, j, other)
  }

  ghost predicate IsTypeOf(setting: Setting, team: Word64, teamType: Option<int>) {
    match teamType
    case Some(raw) => 0 <= raw < 256 && HasByte(setting.reader, team, setting.layout.teamTypeOffset, raw)
    case None => forall raw :: !HasByte(setting.reader, team, setting.layout.teamTypeOffset, raw)
  }

  ghost predicate IsReputationOf(setting: Setting, team: Word64, reputation: Option<int>) {
    match reputation
    case Some(raw) =>
      0 <= raw <= 12000 && HasHalfWord(setting.reader, team, setting.layout.teamReputationOffset, raw)
    case None =>
      forall raw :: HasHalfWord(setting.reader, team, setting.layout.teamReputationOffset, raw) ==> raw > 12000
  }

  ghost predicate IsUidOf(setting: Setting, club: Word64, uid: Option<Word32>) {
    match uid
    case Some(raw) => raw != 0 && HasWord(setting.reader, club, setting.layout.objectUidOffset, raw)
    case None => forall raw :: HasWord(setting.reader, club, setting.layout.objectUidOffset, raw) ==> raw == 0
  }

  /** What is noted of a squad. A team whose type cannot be read counts as type 0. */
  ghost predicate IsSquadOf(setting: Setting, club: Word64, name: string, team: Word64, hit: SquadHit) {
    && hit.clubName == name && IsUidOf(setting, club, hit.clubUid)
    && hit.division == setting.reader.division(team) && IsReputationOf(setting, team, hit.teamReputation)
    && (IsTypeOf(setting, team, Some(hit.teamType)) || (IsTypeOf(setting, team, None) && hit.teamType == 0))
  }

  ghost predicate IsManagerOf(setting: Setting, club: Word64, name: string, team: Word64, person: Word64,
                              hit: HumanManagerHit)
  {
    && HasPointer(setting.reader, team, setting.layout.teamManagerPtrOffset, person) && person in setting.managers
    && hit.clubName == name && IsUidOf(setting, club, hit.clubUid) && hit.teamAddress == team
    && IsTypeOf(setting, team, hit.teamType) && IsReputationOf(setting, team, hit.teamReputation)
  }

  /** A year from 2020 to 2060 in the upper half, a day from 1 to 366 in the lower nine bits. */
  ghost predicate IsDateAt(setting: Setting, schedule: Word64, offset: int, date: Word32) {
    exists raw: Word32 ::
      && HasWord(setting.reader, schedule, offset, raw)
      && 2020 <= raw / 65536 <= 2060 && 1 <= raw % 512 <= 366 && date == raw / 65536 * 65536 + raw % 512
  }

  /** The team's next match, or the alternative one when the former has no plausible date. */
  ghost predicate IsVoteOf(setting: Setting, team: Word64, date: Word32) {
    exists schedule ::
      && HasPointer(setting.reader, team, setting.layout.teamSchedulePtrOffset, schedule) && schedule != 0
      && (|| IsDateAt(setting, schedule, setting.layout.scheduleNextMatchOffset, date)
          || (&& IsDateAt(setting, schedule, setting.layout.scheduleNextMatchAltOffset, date)
              && forall d :: !IsDateAt(setting, schedule, setting.layout.scheduleNextMatchOffset, d)))
  }

  // ---------------------------------------------------------------- single reads

  lemma PointerIsRead(reader: SquadReader, owner: Word64, offset: int, value: Word64)
    ensures HasPointer(reader, owner, offset, value) <==> PointerAt(reader, owner, offset) == Some(value)
  {
  }

  lemma ListIsRead(reader: SquadReader, owner: Word64, beginOffset: int, endOffset: int, maximum: nat, begin: Word64,
                   end: Word64)
    ensures HasList(reader, owner, beginOffset, endOffset, maximum, begin, end) ==>
              VectorAt(reader, owner, beginOffset, endOffset, maximum) == Some((begin, (end - begin) / 8))
  {
    hide HasPointer, PointerAt;
    PointerIsRead(reader, owner, beginOffset, begin);
    PointerIsRead(reader, owner, endOffset, end);
  }

  lemma ReadIsList(reader: SquadReader, owner: Word64, beginOffset: int, endOffset: int, maximum: nat)
    returns (end: Word64)
    requires VectorAt(reader, owner, beginOffset, endOffset, maximum).Some?
    ensures var (begin, count) := VectorAt(reader, owner, beginOffset, endOffset, maximum).value;
            HasList(reader, owner, beginOffset, endOffset, maximum, begin, end) && count == (end - begin) / 8
  {
    hide HasPointer, PointerAt;
    end := PointerAt(reader, owner, endOffset).value;
    PointerIsRead(reader, owner, beginOffset, PointerAt(reader, owner, beginOffset).value);
    PointerIsRead(reader, owner, endOffset, end);
  }

  lemma EntryIsListed(reader: SquadReader, begin: Word64, end: Word64, i: nat, entry: Word64)
    requires begin % 8 == 0 && end % 8 == 0 && begin < end
    ensures IsListed(reader, begin, end, i, entry) <==>
            i < (end - begin) / 8 && EntryAt(reader, begin, i) == Some(entry)
  {
    hide HasPointer, PointerAt;
    PointerIsRead(reader, begin, 8 * i, entry);
  }

  lemma TypeIsRead(setting: Setting, team: Word64, teamType: Option<int>)
    ensures IsTypeOf(setting, team, teamType) <==> TeamTypeAt(setting, team) == teamType
  {
    var field := TryAdd(team, setting.layout.teamTypeOffset);
    if field.Some? && setting.reader.readByte(field.value).Some? {
      assert HasByte(setting.reader, team, setting.layout.teamTypeOffset, setting.reader.readByte(field.value).value);
    }
  }

  lemma ReputationIsRead(setting: Setting, team: Word64, reputation: Option<int>)
    ensures IsReputationOf(setting, team, reputation) <==> ReputationAt(setting, team) == reputation
  {
    var field := TryAdd(team, setting.layout.teamReputationOffset);
    if field.Some? && setting.reader.readUInt16(field.value).Some? {
      assert HasHalfWord(setting.reader, team, setting.layout.teamReputationOffset,
                         setting.reader.readUInt16(field.value).value);
    }
  }

  lemma UidIsRead(setting: Setting, club: Word64, uid: Option<Word32>)
    ensures IsUidOf(setting, club, uid) <==> PositiveUidAt(setting, club) == uid
  {
    var field := TryAdd(club, setting.layout.objectUidOffset);
    if field.Some? && setting.reader.readUInt32(field.value).Some? {
      assert HasWord(setting.reader, club, setting.layout.objectUidOffset,
                     setting.reader.readUInt32(field.value).value);
    }
  }

  lemma SquadIsRead(setting: Setting, club: Word64, name: string, team: Word64, hit: SquadHit)
    ensures IsSquadOf(setting, club, name, team, hit) <==> hit == SquadOf(setting, club, name, team)
  {
    hide IsTypeOf, IsReputationOf, IsUidOf, TeamTypeAt, ReputationAt, PositiveUidAt;
    TypeIsRead(setting, team, Some(hit.teamType));
    TypeIsRead(setting, team, None);
    ReputationIsRead(setting, team, hit.teamReputation);
    UidIsRead(setting, club, hit.clubUid);
  }

  lemma DateIsRead(setting: Setting, schedule: Word64, offset: int, date: Word32)
    ensures IsDateAt(setting, schedule, offset, date) <==> VoteAt(setting, schedule, offset) == Some(date)
  {
    var field := TryAdd(schedule, offset);
    if field.Some? && setting.reader.readUInt32(field.value).Some? {
      assert HasWord(setting.reader, schedule, offset, setting.reader.readUInt32(field.value).value);
    }
  }

  lemma VoteIsRead(setting: Setting, team: Word64, date: Word32)
    ensures IsVoteOf(setting, team, date) <==> DateVoted(date) in DateEvents(setting, team)
    ensures forall e :: e in DateEvents(setting, team) ==> e.DateVoted?
  {
    hide HasPointer, PointerAt, IsDateAt, VoteAt;
    var schedule := PointerAt(setting.reader, team, setting.layout.teamSchedulePtrOffset);
    forall value: Word64
      ensures HasPointer(setting.reader, team, setting.layout.teamSchedulePtrOffset, value) <==> schedule == Some(value)
    {
      PointerIsRead(setting.reader, team, setting.layout.teamSchedulePtrOffset, value);
    }
    forall at: Word64, offset, d: Word32
      ensures IsDateAt(setting, at, offset, d) <==> VoteAt(setting, at, offset) == Some(d)
    {
      DateIsRead(setting, at, offset, d);
    }
    if schedule.Some? && VoteAt(setting, schedule.value, setting.layout.scheduleNextMatchOffset).Some? {
      assert IsDateAt(setting, schedule.value, setting.layout.scheduleNextMatchOffset,
                      VoteAt(setting, schedule.value, setting.layout.scheduleNextMatchOffset).value);
    }
  }

  lemma ManagerIsRead(setting: Setting, club: Word64, name: string, team: Word64, person: Word64,
                      hit: HumanManagerHit)
    ensures IsManagerOf(setting, club, name, team, person, hit) <==>
            ManagerSeen(person, hit) in ManagerEvents(setting, club, name, team)
    ensures forall e :: e in ManagerEvents(setting, club, name, team) ==> e.ManagerSeen?
  {
    hide HasPointer, PointerAt, IsTypeOf, IsReputationOf, IsUidOf, TeamTypeAt, ReputationAt, PositiveUidAt;
    PointerIsRead(setting.reader, team, setting.layout.teamManagerPtrOffset, person);
    TypeIsRead(setting, team, hit.teamType);
    ReputationIsRead(setting, team, hit.teamReputation);
    UidIsRead(setting, club, hit.clubUid);
  }

  // ---------------------------------------------------------------- the person behind an entry

  /** Nobody is pointed to by the first words of the entry. */
  ghost predicate NobodyBefore(setting: Setting, entry: Word64, k: nat) {
    forall j, other :: 0 <= j < k ==> !PointsToPerson(setting, entry, j, other)
  }

  lemma PersonIsPointedTo(setting: Setting, entry: Word64, k: nat, person: Word64)
    ensures PointsToPerson(setting, entry, k, person) <==>
            && PointerAt(setting.reader, entry, 8 * k) == Some(person) && person != 0
            && person in setting.personToUid
  {
    hide HasPointer, PointerAt;
    PointerIsRead(setting.reader, entry, 8 * k, person);
  }

  lemma {:induction false} ProbingFinds(setting: Setting, entry: Word64, k: nat, uid: Word32)
    requires k <= 17 && NobodyBefore(setting, entry, k)
    ensures PlayerBehind(setting, entry, 8 * k) == Some(uid) <==>
            exists i, person ::
              && 0 <= i <= 16 && PointsToPerson(setting, entry, i, person) && setting.personToUid[person] == uid
              && NobodyBefore(setting, entry, i)
    decreases 17 - k
  {
    hide PointsToPerson, PointerAt;
    if k <= 16 {
      var q := PointerAt(setting.reader, entry, 8 * k);
      forall person ensures PointsToPerson(setting, entry, k, person) <==>
                            q == Some(person) && person != 0 && person in setting.personToUid
      {
        PersonIsPointedTo(setting, entry, k, person);
      }
      if q.Some? && q.value != 0 && q.value in setting.personToUid {
        assert PointsToPerson(setting, entry, k, q.value);
        forall i, person | 0 <= i <= 16 && PointsToPerson(setting, entry, i, person) && NobodyBefore(setting, entry, i)
          ensures i == k && person == q.value
        {
        }
      } else {
        ProbingFinds(setting, entry, k + 1, uid);
      }
    } else {
      assert forall i, person :: 0 <= i <= 16 ==> !PointsToPerson(setting, entry, i, person);
    }
  }

  lemma PersonIsFound(setting: Setting, entry: Word64, uid: Word32)
    ensures IsBehind(setting, entry, uid) <==> PersonOfEntry(setting, entry) == Some(uid)
  {
    hide PointsToPerson, PlayerBehind;
    if entry !in setting.personToUid {
      ProbingFinds(setting, entry, 0, uid);
    }
  }

  // ---------------------------------------------------------------- the lists of events

  lemma {:induction false} InSquadEvents(setting: Setting, squad: SquadHit, begin: Word64, count: nat, e: Event)
    ensures e in SquadEvents(setting, squad, begin, count) <==>
            exists i :: 0 <= i < count && e in EntryEvents(setting, squad, begin, i)
  {
    hide EntryEvents;
    if count > 0 {
      InSquadEvents(setting, squad, begin, count - 1, e);
    }
  }

  lemma {:induction false} InTeamsEvents(setting: Setting, club: Word64, name: string, begin: Word64, count: nat,
                                         e: Event)
    ensures e in TeamsEvents(setting, club, name, begin, count) <==>
            exists i :: 0 <= i < count && e in TeamEvents(setting, club, name, begin, i)
  {
    hide TeamEvents;
    if count > 0 {
      InTeamsEvents(setting, club, name, begin, count - 1, e);
    }
  }

  lemma EntryShows(setting: Setting, squad: SquadHit, begin: Word64, i: nat, uid: Word32, hit: SquadHit)
    ensures PlayerSeen(uid, hit) in EntryEvents(setting, squad, begin, i) <==>
            && hit == squad && EntryAt(setting.reader, begin, i).Some?
            && IsBehind(setting, EntryAt(setting.reader, begin, i).value, uid)
    ensures forall e :: e in EntryEvents(setting, squad, begin, i) ==> e.PlayerSeen?
  {
    hide EntryAt, PersonOfEntry, IsBehind;
    if EntryAt(setting.reader, begin, i).Some? {
      PersonIsFound(setting, EntryAt(setting.reader, begin, i).value, uid);
    }
  }

  /** The events of a team's squad. */
  ghost function SquadEventsOf(setting: Setting, club: Word64, name: string, team: Word64): seq<Event> {
    match VectorAt(setting.reader, team, setting.layout.teamSquadBeginOffset, setting.layout.teamSquadEndOffset,
                   MAX_PLAYERS_PER_SQUAD)
    case None => []
    case Some((begin, count)) => SquadEvents(setting, SquadOf(setting, club, name, team), begin, count)
  }

  /** Place `i` of the vector holds the entry. */
  predicate VectorHas(reader: SquadReader, owner: Word64, beginOffset: int, endOffset: int, maximum: nat, i: nat,
                      entry: Word64)
  {
    var vector := VectorAt(reader, owner, beginOffset, endOffset, maximum);
    vector.Some? && i < vector.value.1 && EntryAt(reader, vector.value.0, i) == Some(entry)
  }

  ghost predicate ListHas(reader: SquadReader, owner: Word64, beginOffset: int, endOffset: int, maximum: nat, i: nat,
                          entry: Word64)
  {
    exists begin, end ::
      HasList(reader, owner, beginOffset, endOffset, maximum, begin, end) && IsListed(reader, begin, end, i, entry)
  }

  lemma ListIsVector(reader: SquadReader, owner: Word64, beginOffset: int, endOffset: int, maximum: nat, i: nat,
                     entry: Word64)
    ensures ListHas(reader, owner, beginOffset, endOffset, maximum, i, entry) <==>
            VectorHas(reader, owner, beginOffset, endOffset, maximum, i, entry)
  {
    hide VectorAt, EntryAt, HasList, IsListed;
    forall begin: Word64, end: Word64 | HasList(reader, owner, beginOffset, endOffset, maximum, begin, end)
      ensures VectorAt(reader, owner, beginOffset, endOffset, maximum) == Some((begin, (end - begin) / 8))
      ensures IsListed(reader, begin, end, i, entry) <==>
              i < (end - begin) / 8 && EntryAt(reader, begin, i) == Some(entry)
    {
      ListIsRead(reader, owner, beginOffset, endOffset, maximum, begin, end);
      BoundsAreAligned(reader, owner, beginOffset, endOffset, maximum, begin, end);
      EntryIsListed(reader, begin, end, i, entry);
    }
    if VectorHas(reader, owner, beginOffset, endOffset, maximum, i, entry) {
      var end := ReadIsList(reader, owner, beginOffset, endOffset, maximum);
    }
  }

  lemma BoundsAreAligned(reader: SquadReader, owner: Word64, beginOffset: int, endOffset: int, maximum: nat,
                         begin: Word64, end: Word64)
    requires HasList(reader, owner, beginOffset, endOffset, maximum, begin, end)
    ensures begin % 8 == 0 && end % 8 == 0 && begin < end
  {
  }

  predicate SquadHas(setting: Setting, team: Word64, i: nat, entry: Word64) {
    VectorHas(setting.reader, team, setting.layout.teamSquadBeginOffset, setting.layout.teamSquadEndOffset, 60, i, entry)
  }

  predicate ClubHas(setting: Setting, club: Word64, i: nat, team: Word64) {
    VectorHas(setting.reader, club, setting.layout.clubTeamsBeginOffset, setting.layout.clubTeamsEndOffset, 24, i, team)
  }

  lemma SquadIsVector(setting: Setting, team: Word64, entry: Word64)
    ensures IsInSquad(setting, team, entry) <==> exists i :: SquadHas(setting, team, i, entry)
  {
    hide VectorHas, HasList, IsListed;
    var beginOffset, endOffset := setting.layout.teamSquadBeginOffset, setting.layout.teamSquadEndOffset;
    forall i: nat ensures ListHas(setting.reader, team, beginOffset, endOffset, 60, i, entry) <==>
                          SquadHas(setting, team, i, entry)
    {
      ListIsVector(setting.reader, team, beginOffset, endOffset, 60, i, entry);
    }
    if IsInSquad(setting, team, entry) {
      var begin, end, i :| HasList(setting.reader, team, beginOffset, endOffset, 60, begin, end)
                           && IsListed(setting.reader, begin, end, i, entry);
      assert ListHas(setting.reader, team, beginOffset, endOffset, 60, i, entry);
    }
  }

  lemma TeamsAreVector(setting: Setting, club: Word64, team: Word64)
    ensures IsTeamOf(setting, club, team) <==> exists i :: ClubHas(setting, club, i, team)
  {
    hide VectorHas, HasList, IsListed;
    var beginOffset, endOffset := setting.layout.clubTeamsBeginOffset, setting.layout.clubTeamsEndOffset;
    forall i: nat ensures ListHas(setting.reader, club, beginOffset, endOffset, 24, i, team) <==>
                          ClubHas(setting, club, i, team)
    {
      ListIsVector(setting.reader, club, beginOffset, endOffset, 24, i, team);
    }
    if IsTeamOf(setting, club, team) {
      var begin, end, i :| HasList(setting.reader, club, beginOffset, endOffset, 24, begin, end)
                           && IsListed(setting.reader, begin, end, i, team);
      assert ListHas(setting.reader, club, beginOffset, endOffset, 24, i, team);
    }
  }

  lemma SquadShows(setting: Setting, club: Word64, name: string, team: Word64, uid: Word32, hit: SquadHit)
    ensures PlayerSeen(uid, hit) in SquadEventsOf(setting, club, name, team) <==>
            && IsSquadOf(setting, club, name, team, hit)
            && exists entry :: IsInSquad(setting, team, entry) && IsBehind(setting, entry, uid)
    ensures forall e :: e in SquadEventsOf(setting, club, name, team) ==> e.PlayerSeen?
  {
    hide VectorAt, EntryAt, SquadOf, IsBehind, SquadEvents, EntryEvents, IsInSquad, IsSquadOf;
    SquadIsRead(setting, club, name, team, hit);
    forall entry ensures IsInSquad(setting, team, entry) <==> exists i :: SquadHas(setting, team, i, entry) {
      SquadIsVector(setting, team, entry);
    }
    var vector := VectorAt(setting.reader, team, setting.layout.teamSquadBeginOffset,
                           setting.layout.teamSquadEndOffset, MAX_PLAYERS_PER_SQUAD);
    if vector.Some? {
      var squad := SquadOf(setting, club, name, team);
      VectorShows(setting, squad, vector.value.0, vector.value.1, uid, hit);
      if i :| 0 <= i < vector.value.1 && EntryAt(setting.reader, vector.value.0, i).Some?
              && IsBehind(setting, EntryAt(setting.reader, vector.value.0, i).value, uid) {
        assert SquadHas(setting, team, i, EntryAt(setting.reader, vector.value.0, i).value);
      }
    }
  }

  lemma VectorShows(setting: Setting, squad: SquadHit, begin: Word64, count: nat, uid: Word32, hit: SquadHit)
    ensures PlayerSeen(uid, hit) in SquadEvents(setting, squad, begin, count) <==>
            && hit == squad
            && exists i :: 0 <= i < count && EntryAt(setting.reader, begin, i).Some?
                           && IsBehind(setting, EntryAt(setting.reader, begin, i).value, uid)
    ensures forall e :: e in SquadEvents(setting, squad, begin, count) ==> e.PlayerSeen?
  {
    hide EntryAt, IsBehind, SquadEvents, EntryEvents;
    InSquadEvents(setting, squad, begin, count, PlayerSeen(uid, hit));
    forall i: nat
      ensures PlayerSeen(uid, hit) in EntryEvents(setting, squad, begin, i) <==>
              && hit == squad && EntryAt(setting.reader, begin, i).Some?
              && IsBehind(setting, EntryAt(setting.reader, begin, i).value, uid)
      ensures forall e :: e in EntryEvents(setting, squad, begin, i) ==> e.PlayerSeen?
    {
      EntryShows(setting, squad, begin, i, uid, hit);
    }
    forall e | e in SquadEvents(setting, squad, begin, count) ensures e.PlayerSeen? {
      InSquadEvents(setting, squad, begin, count, e);
    }
  }

  // ---------------------------------------------------------------- teams and clubs

  /** The events of a team, without the place it was found at. */
  ghost function EventsOfTeam(setting: Setting, club: Word64, name: string, team: Word64): seq<Event> {
    ManagerEvents(setting, club, name, team) + DateEvents(setting, team) + SquadEventsOf(setting, club, name, team)
  }

  /** The event is one that this team of this club gives. */
  ghost predicate Shows(setting: Setting, club: Word64, name: string, team: Word64, e: Event) {
    match e
    case ClubWalked => false
    case ManagerSeen(person, hit) => IsManagerOf(setting, club, name, team, person, hit)
    case DateVoted(date) => IsVoteOf(setting, team, date)
    case PlayerSeen(uid, hit) =>
      && IsSquadOf(setting, club, name, team, hit)
      && exists entry :: IsInSquad(setting, team, entry) && IsBehind(setting, entry, uid)
  }

  lemma TeamShows(setting: Setting, club: Word64, name: string, team: Word64, e: Event)
    ensures e in EventsOfTeam(setting, club, name, team) <==> Shows(setting, club, name, team, e)
  {
    hide ManagerEvents, DateEvents, SquadEventsOf, IsManagerOf, IsVoteOf, IsSquadOf, IsInSquad, IsBehind;
    var manager := HumanManagerHit(name, None, None, None, team);
    ManagerIsRead(setting, club, name, team, if e.ManagerSeen? then e.person else 0,
                  if e.ManagerSeen? then e.manager else manager);
    VoteIsRead(setting, team, if e.DateVoted? then e.date else 0);
    SquadShows(setting, club, name, team, if e.PlayerSeen? then e.uid else 0,
               if e.PlayerSeen? then e.squad else SquadHit(name, 0, None, None, None));
  }

  lemma TeamEventsAre(setting: Setting, club: Word64, name: string, begin: Word64, i: nat)
    ensures TeamEvents(setting, club, name, begin, i) ==
              if EntryAt(setting.reader, begin, i).None? then []
              else EventsOfTeam(setting, club, name, EntryAt(setting.reader, begin, i).value)
  {
    hide EntryAt, ManagerEvents, DateEvents, SquadEvents, VectorAt, SquadOf;
  }

  /** A club gives, besides itself, what its teams give. */
  lemma ClubShows(setting: Setting, club: Word64, name: string, e: Event)
    requires !e.ClubWalked?
    ensures e in ClubEvents(setting, club, name) <==>
            exists team :: IsTeamOf(setting, club, team) && Shows(setting, club, name, team, e)
  {
    hide VectorAt, EntryAt, TeamsEvents, TeamEvents, IsTeamOf, Shows, EventsOfTeam;
    forall team ensures IsTeamOf(setting, club, team) <==> exists i :: ClubHas(setting, club, i, team) {
      TeamsAreVector(setting, club, team);
    }
    forall team: Word64
      ensures e in EventsOfTeam(setting, club, name, team) <==> Shows(setting, club, name, team, e)
    {
      TeamShows(setting, club, name, team, e);
    }
    var vector := VectorAt(setting.reader, club, setting.layout.clubTeamsBeginOffset,
                           setting.layout.clubTeamsEndOffset, MAX_TEAMS_PER_CLUB);
    if vector.Some? {
      var (begin, count) := vector.value;
      InTeamsEvents(setting, club, name, begin, count, e);
      forall i: nat
        ensures e in TeamEvents(setting, club, name, begin, i) <==>
                EntryAt(setting.reader, begin, i).Some?
                && Shows(setting, club, name, EntryAt(setting.reader, begin, i).value, e)
      {
        TeamEventsAre(setting, club, name, begin, i);
      }
      if i :| 0 <= i < count && e in TeamEvents(setting, club, name, begin, i) {
        assert ClubHas(setting, club, i, EntryAt(setting.reader, begin, i).value);
      }
    }
  }

  // ---------------------------------------------------------------- all events

  /** Entry `i` of the discovered clubs is walked. */
  ghost predicate Discovers(setting: Setting, clubs: seq<ClubCandidate>, i: int) {
    0 <= i < |clubs| && IsWalkable(setting, clubs[i]) && clubs[i].address !in WalkedAddresses(setting, clubs[..i])
  }

  lemma {:induction false} InDiscovered(setting: Setting, clubs: seq<ClubCandidate>, e: Event)
    ensures e in DiscoveredEvents(setting, clubs) <==>
            exists i :: Discovers(setting, clubs, i) && e in ClubEvents(setting, clubs[i].address, clubs[i].name)
  {
    hide ClubEvents, IsWalkable, WalkedAddresses;
    if clubs != [] {
      var n := |clubs| - 1;
      var front := clubs[..n];
      InDiscovered(setting, front, e);
      forall i | 0 <= i < n ensures Discovers(setting, front, i) <==> Discovers(setting, clubs, i) {
        assert front[..i] == clubs[..i];
      }
      assert Discovers(setting, clubs, n) <==>
             IsWalkable(setting, clubs[n]) && clubs[n].address !in WalkedAddresses(setting, front);
    }
  }

  /** Entry `i` of the fallback clubs is walked. */
  ghost predicate FallsBack(setting: Setting, addresses: seq<Word64>, walked: set<Word64>, i: int) {
    && 0 <= i < |addresses| && addresses[i] != 0 && addresses[i] !in walked && addresses[i] !in addresses[..i]
    && setting.reader.clubName(addresses[i]).Some?
  }

  lemma {:induction false} InFallback(setting: Setting, addresses: seq<Word64>, walked: set<Word64>, e: Event)
    ensures e in FallbackEvents(setting, addresses, walked) <==>
            exists i :: FallsBack(setting, addresses, walked, i)
                        && e in ClubEvents(setting, addresses[i], setting.reader.clubName(addresses[i]).value)
  {
    hide ClubEvents;
    if addresses != [] {
      var n := |addresses| - 1;
      var front := addresses[..n];
      InFallback(setting, front, walked, e);
      forall i | 0 <= i < n ensures FallsBack(setting, front, walked, i) <==> FallsBack(setting, addresses, walked, i) {
        assert front[..i] == addresses[..i];
      }
      assert FallsBack(setting, addresses, walked, n) <==>
             addresses[n] != 0 && addresses[n] !in walked && addresses[n] !in front
             && setting.reader.clubName(addresses[n]).Some?;
    }
  }

  lemma WalkedBefore(setting: Setting, clubs: seq<ClubCandidate>, i: nat, address: Word64)
    requires i <= |clubs| && address != 0
    ensures address in WalkedAddresses(setting, clubs[..i]) <==>
            exists j :: 0 <= j < i && clubs[j].address == address && setting.reader.isPlausibleName(clubs[j].name)
  {
    if c :| c in clubs[..i] && IsWalkable(setting, c) && c.address == address {
      var j :| 0 <= j < i && clubs[j] == c;
    }
    if j :| 0 <= j < i && clubs[j].address == address && setting.reader.isPlausibleName(clubs[j].name) {
      assert clubs[j] in clubs[..i];
    }
  }

  lemma FirstOccurrence(addresses: seq<Word64>, address: Word64) returns (i: nat)
    requires address in addresses
    ensures i < |addresses| && addresses[i] == address && address !in addresses[..i]
  {
    i := 0;
    while addresses[i] != address
      invariant i < |addresses| && address !in addresses[..i] && address in addresses[i..]
      decreases |addresses| - i
    {
      assert addresses[..i + 1] == addresses[..i] + [addresses[i]];
      assert addresses[i..] == [addresses[i]] + addresses[i + 1..];
      i := i + 1;
    }
  }

  /** The walked clubs are those that the two lists give. */
  lemma WalkedIsListed(setting: Setting, clubs: seq<ClubCandidate>, fallback: seq<Word64>, club: Word64, name: string)
    ensures IsWalked(setting, clubs, fallback, club, name) <==>
            || (exists i :: Discovers(setting, clubs, i) && clubs[i] == ClubCandidate(club, name))
            || (exists i :: FallsBack(setting, fallback, WalkedAddresses(setting, clubs), i) && fallback[i] == club
                            && setting.reader.clubName(club).value == name)
  {
    hide WalkedAddresses;
    if club != 0 {
      forall i: nat | i <= |clubs|
        ensures club in WalkedAddresses(setting, clubs[..i]) <==>
                exists j :: 0 <= j < i && clubs[j].address == club && setting.reader.isPlausibleName(clubs[j].name)
      {
        WalkedBefore(setting, clubs, i, club);
      }
      assert clubs[..|clubs|] == clubs;
      if club in fallback {
        var i := FirstOccurrence(fallback, club);
      }
    }
  }

  /**
   Besides the clubs themselves, the walk comes across exactly what the teams of the walked clubs give: a player
   for every entry of a squad behind which a known person is, the managers, and the dates of the next matches.
   */
  lemma EventsAreShown(setting: Setting, clubs: seq<ClubCandidate>, fallback: seq<Word64>, e: Event)
    requires !e.ClubWalked?
    ensures e in AllEvents(setting, clubs, fallback) <==>
            exists club, name, team ::
              && IsWalked(setting, clubs, fallback, club, name) && IsTeamOf(setting, club, team)
              && Shows(setting, club, name, team, e)
  {
    hide ClubEvents, IsWalked, IsTeamOf, Shows, IsWalkable, WalkedAddresses, DiscoveredEvents, FallbackEvents;
    InDiscovered(setting, clubs, e);
    InFallback(setting, fallback, WalkedAddresses(setting, clubs), e);
    forall club: Word64, name
      ensures e in ClubEvents(setting, club, name) <==>
              exists team :: IsTeamOf(setting, club, team) && Shows(setting, club, name, team, e)
    {
      ClubShows(setting, club, name, e);
    }
    forall club, name
      ensures IsWalked(setting, clubs, fallback, club, name) <==>
              || (exists i :: Discovers(setting, clubs, i) && clubs[i] == ClubCandidate(club, name))
              || (exists i :: FallsBack(setting, fallback, WalkedAddresses(setting, clubs), i) && fallback[i] == club
                              && setting.reader.clubName(club).value == name)
    {
      WalkedIsListed(setting, clubs, fallback, club, name);
    }
    var walked := WalkedAddresses(setting, clubs);
    if i :| Discovers(setting, clubs, i) && e in ClubEvents(setting, clubs[i].address, clubs[i].name) {
      assert clubs[i] == ClubCandidate(clubs[i].address, clubs[i].name);
      assert IsWalked(setting, clubs, fallback, clubs[i].address, clubs[i].name);
    }
    if i :| FallsBack(setting, fallback, walked, i)
            && e in ClubEvents(setting, fallback[i], setting.reader.clubName(fallback[i]).value) {
      assert IsWalked(setting, clubs, fallback, fallback[i], setting.reader.clubName(fallback[i]).value);
    }
  }

  // ---------------------------------------------------------------- what is built from them

  /** The first mention of this address under a plausible name is under this name. */
  ghost predicate IsFirstNamed(setting: Setting, clubs: seq<ClubCandidate>, club: Word64, name: string) {
    exists i :: 0 <= i < |clubs| && clubs[i] == ClubCandidate(club, name) && setting.reader.isPlausibleName(name)
                && forall j :: 0 <= j < i && clubs[j].address == club ==>
                     !setting.reader.isPlausibleName(clubs[j].name)
  }

  lemma OneMoreMention(setting: Setting, clubs: seq<ClubCandidate>, c: ClubCandidate, club: Word64, name: string)
    ensures IsFirstNamed(setting, clubs + [c], club, name) <==>
            || IsFirstNamed(setting, clubs, club, name)
            || (&& c == ClubCandidate(club, name) && setting.reader.isPlausibleName(name)
                && forall d :: d in clubs && d.address == club ==> !setting.reader.isPlausibleName(d.name))
  {
    var all := clubs + [c];
    forall i | 0 <= i < |clubs| ensures all[i] == clubs[i] && clubs[i] in clubs {
    }
    assert all[|clubs|] == c;
  }

  /** It can be told from the mentions of this address alone. */
  lemma {:induction false} FirstOfItsAddress(setting: Setting, clubs: seq<ClubCandidate>, club: Word64, name: string)
    ensures IsFirstNamed(setting, clubs, club, name) <==>
            IsFirstNamed(setting, WithKey(clubs, AddressOf, club), club, name)
  {
    hide IsFirstNamed;
    if clubs == [] {
      assert WithKey(clubs, AddressOf, club) == clubs;
    } else {
      var n := |clubs| - 1;
      var front, c := clubs[..n], clubs[n];
      FirstOfItsAddress(setting, front, club, name);
      assert clubs == front + [c];
      OneMoreMention(setting, front, c, club, name);
      OneMoreMention(setting, WithKey(front, AddressOf, club), c, club, name);
    }
  }

  lemma {:induction false} OrderKeepsItems<T(!new)>(items: seq<T>, key: T -> nat)
    ensures forall x :: x in OrderBy(items, key) <==> x in items
    ensures IsOrdered(OrderBy(items, key), key)
  {
    if items != [] {
      var n := |items| - 1;
      OrderKeepsItems(items[..n], key);
      InsertedInOrder(OrderBy(items[..n], key), items[n], key);
      OneMoreItem(items[..n], items[n]);
      assert items == items[..n] + [items[n]];
    }
  }

  /** Both lists are walked by ascending address. Which clubs are walked, and under which names, is as given. */
  lemma OrderKeepsWalked(setting: Setting, discovered: seq<ClubCandidate>, fallback: seq<Word64>, club: Word64,
                         name: string)
    ensures var clubs, addresses := OrderBy(discovered, AddressOf), OrderBy(fallback, Itself);
            && (forall i, j :: 0 <= i < j < |clubs| ==> clubs[i].address <= clubs[j].address)
            && (forall i, j :: 0 <= i < j < |addresses| ==> addresses[i] <= addresses[j])
            && (IsWalked(setting, clubs, addresses, club, name) <==>
                IsWalked(setting, discovered, fallback, club, name))
  {
    hide OrderBy, WithKey;
    var clubs := OrderBy(discovered, AddressOf);
    OrderKeepsItems(discovered, AddressOf);
    OrderKeepsItems(fallback, Itself);
    OrderIsStable(discovered, AddressOf, club);
    FirstOfItsAddress(setting, discovered, club, name);
    FirstOfItsAddress(setting, clubs, club, name);
    WalkedByName(setting, clubs, OrderBy(fallback, Itself), club, name);
    WalkedByName(setting, discovered, fallback, club, name);
  }

  lemma WalkedByName(setting: Setting, clubs: seq<ClubCandidate>, fallback: seq<Word64>, club: Word64, name: string)
    ensures IsWalked(setting, clubs, fallback, club, name) <==>
            && club != 0
            && (|| IsFirstNamed(setting, clubs, club, name)
                || (&& club in fallback && setting.reader.clubName(club) == Some(name)
                    && forall c :: c in clubs && c.address == club ==> !setting.reader.isPlausibleName(c.name)))
  {
  }

  /** A walked club has a team that gives the event. */
  ghost predicate IsCrossed(setting: Setting, discovered: seq<ClubCandidate>, fallback: seq<Word64>, e: Event) {
    exists club, name, team ::
      && IsWalked(setting, discovered, fallback, club, name) && IsTeamOf(setting, club, team)
      && Shows(setting, club, name, team, e)
  }

  /** What building the index comes across, in whichever order the clubs are given. */
  ghost function Walk(setting: Setting, discovered: seq<ClubCandidate>, fallback: seq<Word64>): seq<Event> {
    AllEvents(setting, OrderBy(discovered, AddressOf), OrderBy(fallback, Itself))
  }

  lemma WalkIsCrossed(setting: Setting, discovered: seq<ClubCandidate>, fallback: seq<Word64>, e: Event)
    requires !e.ClubWalked?
    ensures e in Walk(setting, discovered, fallback) <==> IsCrossed(setting, discovered, fallback, e)
  {
    hide AllEvents, IsWalked, IsTeamOf, Shows, OrderBy;
    EventsAreShown(setting, OrderBy(discovered, AddressOf), OrderBy(fallback, Itself), e);
    forall club, name
      ensures IsWalked(setting, OrderBy(discovered, AddressOf), OrderBy(fallback, Itself), club, name) <==>
              IsWalked(setting, discovered, fallback, club, name)
    {
      OrderKeepsWalked(setting, discovered, fallback, club, name);
    }
  }

  /** The player's parent club is known and has this name. */
  predicate IsParentOf(setting: Setting, uid: Word32, name: string) {
    uid in setting.parents && setting.parents[uid] == Some(name)
  }

  /**
   Exactly those are assigned who are in the squad of a walked club, to a squad that they are in. It is not one of
   the parent club if they are in another one, and of the lowest team type among those that are left.
   */
  lemma AssignedSquads(setting: Setting, discovered: seq<ClubCandidate>, fallback: seq<Word64>, uid: Word32)
    ensures var assignments := TallyOf(Walk(setting, discovered, fallback), setting.parents).assignments;
            && (uid in assignments <==> exists hit :: IsCrossed(setting, discovered, fallback, PlayerSeen(uid, hit)))
            && (uid in assignments ==>
                  var chosen := assignments[uid];
                  && IsCrossed(setting, discovered, fallback, PlayerSeen(uid, chosen))
                  && forall hit :: IsCrossed(setting, discovered, fallback, PlayerSeen(uid, hit)) ==>
                       if IsParentOf(setting, uid, chosen.clubName)
                       then IsParentOf(setting, uid, hit.clubName) && chosen.teamType <= hit.teamType
                       else IsParentOf(setting, uid, hit.clubName) || chosen.teamType <= hit.teamType)
  {
    hide Walk, IsCrossed, TallyOf;
    var events := Walk(setting, discovered, fallback);
    forall hit
      ensures PlayerSeen(uid, hit) in events <==> IsCrossed(setting, discovered, fallback, PlayerSeen(uid, hit))
    {
      WalkIsCrossed(setting, discovered, fallback, PlayerSeen(uid, hit));
    }
    AssignedAreSeen(events, setting.parents, uid);
    if i :| 0 <= i < |events| && Sees(events[i], uid) {
      assert events[i] == PlayerSeen(uid, events[i].squad) && events[i] in events;
    }
    forall hit | PlayerSeen(uid, hit) in events ensures exists i :: 0 <= i < |events| && Sees(events[i], uid) {
      var i :| 0 <= i < |events| && events[i] == PlayerSeen(uid, hit);
      assert Sees(events[i], uid);
    }
    if uid in TallyOf(events, setting.parents).assignments {
      var k := AssignmentIsFirstBest(events, setting.parents, uid);
      var chosen := events[k].squad;
      assert events[k] == PlayerSeen(uid, chosen) && events[k] in events;
      forall hit | PlayerSeen(uid, hit) in events ensures !Better(hit, chosen, ParentOf(setting.parents, uid)) {
        var j :| 0 <= j < |events| && events[j] == PlayerSeen(uid, hit);
        assert Sees(events[j], uid);
      }
    }
  }

  /** The first text that differs from the other, by ending or by its code units, comes first. */
  ghost predicate IsBefore(a: string, b: string) {
    exists n :: 0 <= n <= |a| && n <= |b| && a[..n] == b[..n] && n < |b| && (n == |a| || a[n] < b[n])
  }

  lemma {:induction false} OrdinalIsBefore(a: string, b: string)
    ensures OrdinalBefore(a, b) <==> IsBefore(a, b)
  {
    if a == "" {
      assert b != "" ==> a[..0] == b[..0];
    } else if b != "" {
      OrdinalIsBefore(a[1..], b[1..]);
      if n :| 0 <= n <= |a| && n <= |b| && a[..n] == b[..n] && n < |b| && (n == |a| || a[n] < b[n]) {
        if n > 0 {
          assert a[0] == a[..n][0] == b[..n][0] == b[0];
          assert a[1..][..n - 1] == a[..n][1..] && b[1..][..n - 1] == b[..n][1..];
        }
      }
      if OrdinalBefore(a, b) {
        if a[0] < b[0] {
          assert a[..0] == b[..0];
        } else {
          var n :| 0 <= n <= |a[1..]| && n <= |b[1..]| && a[1..][..n] == b[1..][..n] && n < |b[1..]|
                   && (n == |a[1..]| || a[1..][n] < b[1..][n]);
          assert a[..n + 1] == [a[0]] + a[1..][..n] && b[..n + 1] == [b[0]] + b[1..][..n];
        }
      }
    }
  }

  /** An unknown team type counts as the greatest one. */
  function TypeRank(hit: HumanManagerHit): int {
    if hit.teamType.Some? then hit.teamType.value else 2147483647
  }

  /**
   Exactly the managers of teams of walked clubs are assigned, each to a team that it manages: of the lowest type;
   among those, of the club whose name comes first; and among those, the one at the lowest address.
   */
  lemma AssignedManagers(setting: Setting, discovered: seq<ClubCandidate>, fallback: seq<Word64>, person: Word64)
    ensures var managers := TallyOf(Walk(setting, discovered, fallback), setting.parents).managers;
            && (person in managers <==>
                exists hit :: IsCrossed(setting, discovered, fallback, ManagerSeen(person, hit)))
            && (person in managers ==>
                  var chosen := managers[person];
                  && IsCrossed(setting, discovered, fallback, ManagerSeen(person, chosen))
                  && forall hit :: IsCrossed(setting, discovered, fallback, ManagerSeen(person, hit)) ==>
                       || TypeRank(chosen) < TypeRank(hit)
                       || (TypeRank(chosen) == TypeRank(hit)
                           && (|| IsBefore(chosen.clubName, hit.clubName)
                               || (chosen.clubName == hit.clubName && chosen.teamAddress <= hit.teamAddress))))
  {
    hide Walk, IsCrossed, TallyOf, IsBefore, OrdinalBefore;
    var events := Walk(setting, discovered, fallback);
    forall hit
      ensures ManagerSeen(person, hit) in events <==> IsCrossed(setting, discovered, fallback, ManagerSeen(person, hit))
    {
      WalkIsCrossed(setting, discovered, fallback, ManagerSeen(person, hit));
    }
    ManagersAreSeen(events, setting.parents, person);
    if i :| 0 <= i < |events| && SeesManager(events[i], person) {
      assert events[i] == ManagerSeen(person, events[i].manager) && events[i] in events;
    }
    forall hit | ManagerSeen(person, hit) in events
      ensures exists i :: 0 <= i < |events| && SeesManager(events[i], person)
    {
      var i :| 0 <= i < |events| && events[i] == ManagerSeen(person, hit);
      assert SeesManager(events[i], person);
    }
    if person in TallyOf(events, setting.parents).managers {
      var k := ManagerIsFirstInOrder(events, setting.parents, person);
      var chosen := events[k].manager;
      assert events[k] == ManagerSeen(person, chosen) && events[k] in events;
      forall hit | ManagerSeen(person, hit) in events
        ensures !Precedes(hit, chosen) && (OrdinalBefore(chosen.clubName, hit.clubName) <==>
                                           IsBefore(chosen.clubName, hit.clubName))
        ensures chosen.clubName == hit.clubName || OrdinalBefore(chosen.clubName, hit.clubName)
                || OrdinalBefore(hit.clubName, chosen.clubName)
      {
        var j :| 0 <= j < |events| && events[j] == ManagerSeen(person, hit);
        assert SeesManager(events[j], person);
        OrdinalIsBefore(chosen.clubName, hit.clubName);
        OrdinalIsTotal(chosen.clubName, hit.clubName);
      }
    }
  }
}
