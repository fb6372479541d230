/**
 Which squad a player currently plays for: the walk over clubs, teams and squads keeps one assignment per
 player as it goes. The outcome is the first best of all squads the player was seen in.
 */
module SquadIndex {
  import opened Wrappers
  import opened ScanModel

  const MAX_MULTI_CLUB_SAMPLES: nat := 25
  const MAX_PLAYERS_PER_SQUAD: nat := 60
  const MAX_TEAM_REPUTATION: nat := 12000
  const SQUAD_WRAPPER_BYTES: nat := 0x80

  datatype SquadHit = SquadHit(
    clubName: string, teamType: int, division: Option<string>, teamReputation: Option<int>, clubUid: Option<Word32>)

  datatype HumanManagerHit = HumanManagerHit(
    clubName: string, clubUid: Option<Word32>, teamType: Option<int>, teamReputation: Option<int>, teamAddress: Word64)

  datatype Sample = Sample(uid: Word32, plays: string, alsoIn: string, parent: Option<string>)

  /** What the walk comes across, in order. */
  datatype Event =
    | ClubWalked
    | ManagerSeen(person: Word64, manager: HumanManagerHit)
    | DateVoted(date: Word32)
    | PlayerSeen(uid: Word32, squad: SquadHit)

  type Parents = map<Word32, Option<string>>

  function ParentOf(parents: Parents, uid: Word32): Option<string> {
    if uid in parents then parents[uid] else None
  }

  // ---------------------------------------------------------------- choosing between two squads

  /** Same club: the lower team type. Different clubs: the one that is not the parent club, else the lower type. */
  function Choose(current: SquadHit, candidate: SquadHit, parent: Option<string>): SquadHit {
    if current.clubName == candidate.clubName then
      if candidate.teamType < current.teamType then candidate else current
    else
      var currentIsParent, candidateIsParent := IsParent(current, parent), IsParent(candidate, parent);
      if currentIsParent == candidateIsParent then
        if candidate.teamType < current.teamType then candidate else current
      else if currentIsParent then candidate
      else current
  }

  predicate IsParent(hit: SquadHit, parent: Option<string>) { parent == Some(hit.clubName) }

  /** The order behind the choice: away from the parent club first, then by team type. */
  predicate Better(a: SquadHit, b: SquadHit, parent: Option<string>) {
    if IsParent(a, parent) == IsParent(b, parent) then a.teamType < b.teamType else IsParent(b, parent)
  }

  /** The pairwise rule is the strict order: the candidate wins exactly when it is better. */
  lemma ChoiceFollowsOrder(current: SquadHit, candidate: SquadHit, parent: Option<string>)
    ensures Choose(current, candidate, parent) == if Better(candidate, current, parent) then candidate else current
  {
  }

  /** Team type first, an unknown one last; then club name by code unit; then the team's address. */
  predicate Precedes(a: HumanManagerHit, b: HumanManagerHit) {
    var aType := if a.teamType.Some? then a.teamType.value else INT32_MAX;
    var bType := if b.teamType.Some? then b.teamType.value else INT32_MAX;
    if aType != bType then aType < bType
    else OrdinalBefore(a.clubName, b.clubName) || (a.clubName == b.clubName && a.teamAddress < b.teamAddress)
  }

  predicate OrdinalBefore(a: string, b: string) {
    if a == "" then b != ""
    else if b == "" then false
    else a[0] < b[0] || (a[0] == b[0] && OrdinalBefore(a[1..], b[1..]))
  }

  lemma {:induction false} OrdinalIsTotal(a: string, b: string)
    ensures a == b || OrdinalBefore(a, b) || OrdinalBefore(b, a)
    ensures !(OrdinalBefore(a, b) && OrdinalBefore(b, a))
    ensures a == b ==> !OrdinalBefore(a, b)
  {
    if a != "" && b != "" && a[0] == b[0] {
      OrdinalIsTotal(a[1..], b[1..]);
      assert a == [a[0]] + a[1..] && b == [b[0]] + b[1..];
    }
  }

  lemma {:induction false} OrdinalIsTransitive(a: string, b: string, c: string)
    requires OrdinalBefore(a, b) && OrdinalBefore(b, c)
    ensures OrdinalBefore(a, c)
  {
    if a != "" && a[0] == b[0] == c[0] {
      OrdinalIsTransitive(a[1..], b[1..], c[1..]);
    }
  }

  /** What neither of two managers' hits precedes, the chosen one does not follow either. */
  lemma PrecedesIsAnOrder(a: HumanManagerHit, b: HumanManagerHit, c: HumanManagerHit)
    ensures Precedes(a, b) && !Precedes(c, b) ==> !Precedes(c, a)
    ensures Precedes(a, b) && Precedes(b, c) ==> Precedes(a, c)
    ensures !Precedes(a, a)
  {
    OrdinalIsTotal(a.clubName, a.clubName);
    OrdinalIsTotal(a.clubName, b.clubName);
    OrdinalIsTotal(b.clubName, c.clubName);
    OrdinalIsTotal(a.clubName, c.clubName);
    if OrdinalBefore(a.clubName, b.clubName) && OrdinalBefore(b.clubName, c.clubName) {
      OrdinalIsTransitive(a.clubName, b.clubName, c.clubName);
    }
    if OrdinalBefore(c.clubName, a.clubName) && OrdinalBefore(a.clubName, b.clubName) {
      OrdinalIsTransitive(c.clubName, a.clubName, b.clubName);
    }
  }

  // ---------------------------------------------------------------- what a list of events amounts to

  datatype Tally = Tally(
    assignments: map<Word32, SquadHit>,
    multiClubUids: set<Word32>,
    samples: seq<Sample>,
    managers: map<Word64, HumanManagerHit>,
    dateVotes: Histogram,
    clubsWalked: nat)

  ghost function Post(t: Tally, e: Event, parents: Parents): Tally {
    match e
    case ClubWalked => t.(clubsWalked := t.clubsWalked + 1)
    case ManagerSeen(person, hit) =>
      if person in t.managers && !Precedes(hit, t.managers[person]) then t
      else t.(managers := t.managers[person := hit])
    case DateVoted(date) => t.(dateVotes := t.dateVotes[date := CountOf(t.dateVotes, date) + 1])
    case PlayerSeen(uid, hit) =>
      if uid !in t.assignments then t.(assignments := t.assignments[uid := hit])
      else
        var current, parent := t.assignments[uid], ParentOf(parents, uid);
        var chosen := Choose(current, hit, parent);
        var noted := if current.clubName != hit.clubName && uid !in t.multiClubUids
                     then NoteMultiClub(t, uid, current, hit, chosen, parent) else t;
        noted.(assignments := t.assignments[uid := chosen])
  }

  ghost function NoteMultiClub(t: Tally, uid: Word32, current: SquadHit, hit: SquadHit, chosen: SquadHit,
                               parent: Option<string>): Tally
  {
    var lost := if chosen.clubName == hit.clubName then current.clubName else hit.clubName;
    t.(multiClubUids := t.multiClubUids + {uid},
       samples := if |t.samples| < MAX_MULTI_CLUB_SAMPLES
                  then t.samples + [Sample(uid, chosen.clubName, lost, parent)] else t.samples)
  }

  const NOTHING_SEEN: Tally := Tally(map[], {}, [], map[], map[], 0)

  ghost function TallyOf(events: seq<Event>, parents: Parents): Tally {
    if events == [] then NOTHING_SEEN
    else Post(TallyOf(events[..|events| - 1], parents), events[|events| - 1], parents)
  }

  predicate Sees(e: Event, uid: Word32) { e.PlayerSeen? && e.uid == uid }

  /** Event `i` shows a player in a squad that no other is better than, and that every earlier one is worse than. */
  ghost predicate IsFirstBest(events: seq<Event>, parents: Parents, i: int) {
    && 0 <= i < |events| && events[i].PlayerSeen?
    && forall j :: 0 <= j < |events| && Sees(events[j], events[i].uid) ==>
         var parent := ParentOf(parents, events[i].uid);
         !Better(events[j].squad, events[i].squad, parent) && (j < i ==> Better(events[i].squad, events[j].squad, parent))
  }

  lemma AssignmentAfter(t: Tally, e: Event, parents: Parents)
    ensures Post(t, e, parents).assignments ==
              if !e.PlayerSeen? then t.assignments
              else if e.uid !in t.assignments then t.assignments[e.uid := e.squad]
              else t.assignments[e.uid := Choose(t.assignments[e.uid], e.squad, ParentOf(parents, e.uid))]
  {
    hide Choose, Precedes;
  }

  /** Every player seen is assigned, and nobody else. */
  lemma {:induction false} AssignedAreSeen(events: seq<Event>, parents: Parents, uid: Word32)
    ensures uid in TallyOf(events, parents).assignments <==> exists i :: 0 <= i < |events| && Sees(events[i], uid)
  {
    hide Post;
    if events != [] {
      var n := |events| - 1;
      AssignedAreSeen(events[..n], parents, uid);
      AssignmentAfter(TallyOf(events[..n], parents), events[n], parents);
      assert Sees(events[n], uid) <==> events[n].PlayerSeen? && events[n].uid == uid;
      assert forall i :: 0 <= i < n ==> events[..n][i] == events[i];
      if i :| 0 <= i < |events| && Sees(events[i], uid) {
        assert i < n ==> events[..n][i] == events[i];
      }
    }
  }

  /** A player's assignment is the first best squad that the player was seen in. */
  lemma {:induction false} AssignmentIsFirstBest(events: seq<Event>, parents: Parents, uid: Word32) returns (i: int)
    requires uid in TallyOf(events, parents).assignments
    ensures IsFirstBest(events, parents, i) && events[i].uid == uid
    ensures TallyOf(events, parents).assignments[uid] == events[i].squad
  {
    hide Post, Choose;
    var n := |events| - 1;
    var before, last := events[..n], events[n];
    AssignedAreSeen(before, parents, uid);
    AssignmentAfter(TallyOf(before, parents), last, parents);
    assert forall j :: 0 <= j < n ==> before[j] == events[j];
    if uid in TallyOf(before, parents).assignments {
      i := AssignmentIsFirstBest(before, parents, uid);
      if Sees(last, uid) {
        ChoiceFollowsOrder(events[i].squad, last.squad, ParentOf(parents, uid));
        if Better(last.squad, events[i].squad, ParentOf(parents, uid)) {
          i := n;
        }
      }
    } else {
      i := n;
    }
  }

  /** There is only one first best squad, so the assignment is determined by it. */
  lemma FirstBestIsUnique(events: seq<Event>, parents: Parents, i: int)
    requires IsFirstBest(events, parents, i)
    ensures events[i].uid in TallyOf(events, parents).assignments
    ensures TallyOf(events, parents).assignments[events[i].uid] == events[i].squad
  {
    AssignedAreSeen(events, parents, events[i].uid);
    assert Sees(events[i], events[i].uid);
    var k := AssignmentIsFirstBest(events, parents, events[i].uid);
    assert Sees(events[k], events[i].uid);
  }

  // ---------------------------------------------------------------- players of more than one club

  /** The event shows an assigned player at a club other than the assigned one. */
  predicate IsElsewhere(t: Tally, e: Event) {
    e.PlayerSeen? && e.uid in t.assignments && t.assignments[e.uid].clubName != e.squad.clubName
  }

  lemma MultiClubAfter(t: Tally, e: Event, parents: Parents)
    ensures var after := Post(t, e, parents);
            if IsElsewhere(t, e) && e.uid !in t.multiClubUids then
              var current := t.assignments[e.uid];
              var noted := NoteMultiClub(t, e.uid, current, e.squad, Choose(current, e.squad, ParentOf(parents, e.uid)),
                                         ParentOf(parents, e.uid));
              after.multiClubUids == noted.multiClubUids && after.samples == noted.samples
            else after.multiClubUids == t.multiClubUids && after.samples == t.samples
  {
    hide Choose, Precedes;
  }

  /** The player was seen in squads of two differently named clubs. */
  ghost predicate SeenInTwoClubs(events: seq<Event>, uid: Word32) {
    exists i, j :: 0 <= i < j < |events| && Sees(events[i], uid) && Sees(events[j], uid)
                   && events[i].squad.clubName != events[j].squad.clubName
  }

  /** A player never noted was always seen at the club of the assignment. */
  lemma {:induction false} NotNotedMeansOneClub(events: seq<Event>, parents: Parents, uid: Word32, i: nat)
    requires uid !in TallyOf(events, parents).multiClubUids && i < |events| && Sees(events[i], uid)
    ensures uid in TallyOf(events, parents).assignments
    ensures events[i].squad.clubName == TallyOf(events, parents).assignments[uid].clubName
  {
    hide Post;
    var n := |events| - 1;
    var before, last := events[..n], events[n];
    var t := TallyOf(before, parents);
    MultiClubAfter(t, last, parents);
    AssignmentAfter(t, last, parents);
    if i < n {
      NotNotedMeansOneClub(before, parents, uid, i);
    }
  }

  lemma {:induction false} NotedMeansTwoClubs(events: seq<Event>, parents: Parents, uid: Word32)
    returns (i: nat, j: nat)
    requires uid in TallyOf(events, parents).multiClubUids
    ensures i < j < |events| && Sees(events[i], uid) && Sees(events[j], uid)
    ensures events[i].squad.clubName != events[j].squad.clubName
  {
    hide Post, Choose;
    var n := |events| - 1;
    var before, last := events[..n], events[n];
    var t := TallyOf(before, parents);
    MultiClubAfter(t, last, parents);
    if uid in t.multiClubUids {
      i, j := NotedMeansTwoClubs(before, parents, uid);
    } else {
      i := AssignmentIsFirstBest(before, parents, uid);
      j := n;
    }
  }

  /** A player is noted as playing for several clubs exactly when seen at two of them. */
  lemma MultiClubMeansTwoClubs(events: seq<Event>, parents: Parents, uid: Word32)
    ensures uid in TallyOf(events, parents).multiClubUids <==> SeenInTwoClubs(events, uid)
  {
    if uid in TallyOf(events, parents).multiClubUids {
      var i, j := NotedMeansTwoClubs(events, parents, uid);
    } else if SeenInTwoClubs(events, uid) {
      var i, j :| 0 <= i < j < |events| && Sees(events[i], uid) && Sees(events[j], uid)
                  && events[i].squad.clubName != events[j].squad.clubName;
      NotNotedMeansOneClub(events, parents, uid, i);
      NotNotedMeansOneClub(events, parents, uid, j);
    }
  }

  /** One sample per player of several clubs, in the order in which that became known, up to the limit. */
  lemma {:induction false} SamplesAreDistinct(events: seq<Event>, parents: Parents)
    ensures var t := TallyOf(events, parents);
            && |t.samples| == (if |t.multiClubUids| < 25 then |t.multiClubUids| else 25)
            && (forall i :: 0 <= i < |t.samples| ==> t.samples[i].uid in t.multiClubUids)
            && (forall i, j :: 0 <= i < j < |t.samples| ==> t.samples[i].uid != t.samples[j].uid)
  {
    hide Post, Choose;
    if events != [] {
      var n := |events| - 1;
      SamplesAreDistinct(events[..n], parents);
      MultiClubAfter(TallyOf(events[..n], parents), events[n], parents);
    }
  }

  ghost predicate SeenAt(events: seq<Event>, uid: Word32, clubName: string) {
    exists i :: 0 <= i < |events| && Sees(events[i], uid) && events[i].squad.clubName == clubName
  }

  /** A sample names two different clubs at which its player was seen. */
  lemma {:induction false} SamplesAreTrue(events: seq<Event>, parents: Parents, k: nat)
    requires k < |TallyOf(events, parents).samples|
    ensures var sample := TallyOf(events, parents).samples[k];
            && sample.plays != sample.alsoIn && sample.parent == ParentOf(parents, sample.uid)
            && SeenAt(events, sample.uid, sample.plays) && SeenAt(events, sample.uid, sample.alsoIn)
  {
    var n := |events| - 1;
    var before, last := events[..n], events[n];
    var t := TallyOf(before, parents);
    hide Post;
    MultiClubAfter(t, last, parents);
    var sample := TallyOf(events, parents).samples[k];
    assert forall j :: 0 <= j < n ==> before[j] == events[j];
    if k < |t.samples| {
      SamplesAreTrue(before, parents, k);
      SeenStaysSeen(events, sample.uid, sample.plays);
      SeenStaysSeen(events, sample.uid, sample.alsoIn);
    } else {
      var i := AssignmentIsFirstBest(before, parents, last.uid);
      assert Sees(events[i], last.uid) && Sees(events[n], last.uid);
      assert SeenAt(events, last.uid, last.squad.clubName);
      assert SeenAt(events, last.uid, t.assignments[last.uid].clubName);
    }
  }

  lemma SeenStaysSeen(events: seq<Event>, uid: Word32, clubName: string)
    requires events != [] && SeenAt(events[..|events| - 1], uid, clubName)
    ensures SeenAt(events, uid, clubName)
  {
    var before := events[..|events| - 1];
    var i :| 0 <= i < |before| && Sees(before[i], uid) && before[i].squad.clubName == clubName;
    assert events[i] == before[i];
  }

  // ---------------------------------------------------------------- human managers

  predicate SeesManager(e: Event, person: Word64) { e.ManagerSeen? && e.person == person }

  lemma ManagersAfter(t: Tally, e: Event, parents: Parents)
    ensures Post(t, e, parents).managers ==
              if e.ManagerSeen? && (e.person in t.managers ==> Precedes(e.manager, t.managers[e.person]))
              then t.managers[e.person := e.manager] else t.managers
  {
  }

  lemma {:induction false} ManagersAreSeen(events: seq<Event>, parents: Parents, person: Word64)
    ensures person in TallyOf(events, parents).managers <==>
              exists i :: 0 <= i < |events| && SeesManager(events[i], person)
  {
    hide Post, Precedes;
    if events != [] {
      var n := |events| - 1;
      ManagersAreSeen(events[..n], parents, person);
      ManagersAfter(TallyOf(events[..n], parents), events[n], parents);
      if i :| 0 <= i < |events| && SeesManager(events[i], person) {
        assert i < n ==> events[..n][i] == events[i];
      }
    }
  }

  /** A manager is assigned a hit that no other hit of the same person precedes. */
  lemma {:induction false} ManagerIsFirstInOrder(events: seq<Event>, parents: Parents, person: Word64) returns (i: int)
    requires person in TallyOf(events, parents).managers
    ensures 0 <= i < |events| && SeesManager(events[i], person)
    ensures TallyOf(events, parents).managers[person] == events[i].manager
    ensures forall j :: 0 <= j < |events| && SeesManager(events[j], person) ==>
              !Precedes(events[j].manager, events[i].manager)
  {
    hide Post, Precedes;
    var n := |events| - 1;
    var before, last := events[..n], events[n];
    ManagersAfter(TallyOf(before, parents), last, parents);
    ManagersAreSeen(before, parents, person);
    assert forall j :: 0 <= j < n ==> before[j] == events[j];
    i := n;
    if SeesManager(last, person) {
      PrecedesIsAnOrder(last.manager, last.manager, last.manager);
    }
    if person in TallyOf(before, parents).managers {
      i := ManagerIsFirstInOrder(before, parents, person);
      if SeesManager(last, person) && Precedes(last.manager, events[i].manager) {
        forall j | 0 <= j < n && SeesManager(events[j], person) ensures !Precedes(events[j].manager, last.manager) {
          PrecedesIsAnOrder(last.manager, events[i].manager, events[j].manager);
        }
        i := n;
      }
    }
  }

  // ---------------------------------------------------------------- date votes

  lemma VotesAfter(t: Tally, e: Event, parents: Parents)
    ensures Post(t, e, parents).dateVotes ==
              if e.DateVoted? then t.dateVotes[e.date := CountOf(t.dateVotes, e.date) + 1] else t.dateVotes
  {
    hide Choose, Precedes;
  }

  /** Every date has as many votes as teams voted for it. */
  lemma {:induction false} VotesAreCounted(events: seq<Event>, parents: Parents, date: Word32)
    ensures CountOf(TallyOf(events, parents).dateVotes, date) == multiset(events)[DateVoted(date)]
    ensures date in TallyOf(events, parents).dateVotes <==> DateVoted(date) in events
  {
    hide Post;
    if events != [] {
      var n := |events| - 1;
      VotesAreCounted(events[..n], parents, date);
      VotesAfter(TallyOf(events[..n], parents), events[n], parents);
      assert events == events[..n] + [events[n]];
    }
  }

  // ---------------------------------------------------------------- what the walk comes across

  /** A memory image that does not change during the walk, and the names that other readers make of it. */
  datatype SquadReader = SquadReader(
    readByte: Word64 -> Option<Byte>,
    readUInt16: Word64 -> Option<nat>,
    readUInt32: Word64 -> Option<Word32>,
    readUInt64: Word64 -> Option<Word64>,
    clubName: Word64 -> Option<string>,
    division: Word64 -> Option<string>,
    isPlausibleName: string -> bool)

  datatype SquadLayout = SquadLayout(
    clubTeamsBeginOffset: int, clubTeamsEndOffset: int, teamSquadBeginOffset: int, teamSquadEndOffset: int,
    teamTypeOffset: int, teamReputationOffset: int, teamManagerPtrOffset: int, objectUidOffset: int,
    teamSchedulePtrOffset: int, scheduleNextMatchOffset: int, scheduleNextMatchAltOffset: int)

  /** Everything the walk looks up but never changes. */
  datatype Setting = Setting(
    reader: SquadReader, layout: SquadLayout, personToUid: map<Word64, Word32>, parents: Parents, managers: set<Word64>)

  function PointerAt(reader: SquadReader, address: Word64, offset: int): Option<Word64> {
    match TryAdd(address, offset)
    case None => None
    case Some(field) => reader.readUInt64(field)
  }

  /** A vector of pointers, if its bounds make sense and it is neither empty nor oversized. */
  function VectorAt(reader: SquadReader, owner: Word64, beginOffset: int, endOffset: int,
                    maximum: nat): Option<(Word64, nat)>
  {
    var begin, end := PointerAt(reader, owner, beginOffset), PointerAt(reader, owner, endOffset);
    if begin.None? || end.None? || begin.value == 0 || end.value <= begin.value || begin.value % 8 != 0
       || end.value % 8 != 0 then None
    else
      var count := (end.value - begin.value) / 8;
      if count == 0 || count > maximum then None else Some((begin.value, count))
  }

  /** The entry of a vector, unless it cannot be read or is null. */
  function EntryAt(reader: SquadReader, begin: Word64, i: nat): Option<Word64> {
    var entry := PointerAt(reader, begin, 8 * i);
    if entry == Some(0) then None else entry
  }

  function PositiveUidAt(setting: Setting, address: Word64): Option<Word32> {
    match TryAdd(address, setting.layout.objectUidOffset)
    case None => None
    case Some(field) =>
      var uid := setting.reader.readUInt32(field);
      if uid == Some(0) then None else uid
  }

  function TeamTypeAt(setting: Setting, team: Word64): Option<int> {
    match TryAdd(team, setting.layout.teamTypeOffset)
    case None => None
    case Some(field) =>
      match setting.reader.readByte(field)
      case None => None
      case Some(raw) => Some(raw)
  }

  function ReputationAt(setting: Setting, team: Word64): Option<int> {
    match TryAdd(team, setting.layout.teamReputationOffset)
    case None => None
    case Some(field) =>
      match setting.reader.readUInt16(field)
      case None => None
      case Some(raw) => if raw <= MAX_TEAM_REPUTATION then Some(raw) else None
  }

  /** The date of a team's next match, as a year and a day of that year, if it is plausible for a running game. */
  function VoteOf(raw: Word32): Option<Word32> {
    var year, day := raw / 0x1_0000, raw % 0x200;
    if 2020 <= year <= 2060 && 1 <= day <= 366 then Some(0x1_0000 * year + day) else None
  }

  function VoteAt(setting: Setting, schedule: Word64, offset: int): Option<Word32> {
    match TryAdd(schedule, offset)
    case None => None
    case Some(field) =>
      match setting.reader.readUInt32(field)
      case None => None
      case Some(raw) => VoteOf(raw)
  }

  /** A team votes with the first plausible of the two dates in its schedule. */
  ghost function DateEvents(setting: Setting, team: Word64): seq<Event> {
    var schedule := PointerAt(setting.reader, team, setting.layout.teamSchedulePtrOffset);
    if schedule.None? || schedule.value == 0 then []
    else
      var next := VoteAt(setting, schedule.value, setting.layout.scheduleNextMatchOffset);
      var alternative := VoteAt(setting, schedule.value, setting.layout.scheduleNextMatchAltOffset);
      if next.Some? then [DateVoted(next.value)]
      else if alternative.Some? then [DateVoted(alternative.value)]
      else []
  }

  /** The player behind a squad entry: the entry itself, or the first pointer within it that is a known person. */
  function PlayerBehind(setting: Setting, entry: Word64, offset: nat): Option<Word32>
    decreases SQUAD_WRAPPER_BYTES + 8 - offset
  {
    if offset > SQUAD_WRAPPER_BYTES then None
    else
      var q := PointerAt(setting.reader, entry, offset);
      if q.Some? && q.value != 0 && q.value in setting.personToUid then Some(setting.personToUid[q.value])
      else PlayerBehind(setting, entry, offset + 8)
  }

  function PersonOfEntry(setting: Setting, entry: Word64): Option<Word32> {
    if entry in setting.personToUid then Some(setting.personToUid[entry]) else PlayerBehind(setting, entry, 0)
  }

  function SquadOf(setting: Setting, club: Word64, clubName: string, team: Word64): SquadHit {
    SquadHit(clubName, if TeamTypeAt(setting, team).Some? then TeamTypeAt(setting, team).value else 0,
             setting.reader.division(team), ReputationAt(setting, team), PositiveUidAt(setting, club))
  }

  ghost function EntryEvents(setting: Setting, squad: SquadHit, begin: Word64, i: nat): seq<Event> {
    match EntryAt(setting.reader, begin, i)
    case None => []
    case Some(entry) =>
      match PersonOfEntry(setting, entry)
      case None => []
      case Some(uid) => [PlayerSeen(uid, squad)]
  }

  ghost function SquadEvents(setting: Setting, squad: SquadHit, begin: Word64, count: nat): seq<Event> {
    if count == 0 then []
    else SquadEvents(setting, squad, begin, count - 1) + EntryEvents(setting, squad, begin, count - 1)
  }

  ghost function ManagerEvents(setting: Setting, club: Word64, clubName: string, team: Word64): seq<Event> {
    var manager := PointerAt(setting.reader, team, setting.layout.teamManagerPtrOffset);
    if manager.Some? && manager.value in setting.managers then
      [ManagerSeen(manager.value, HumanManagerHit(clubName, PositiveUidAt(setting, club), TeamTypeAt(setting, team),
                                                  ReputationAt(setting, team), team))]
    else []
  }

  ghost function TeamEvents(setting: Setting, club: Word64, clubName: string, begin: Word64, i: nat): seq<Event> {
    match EntryAt(setting.reader, begin, i)
    case None => []
    case Some(team) =>
      ManagerEvents(setting, club, clubName, team) + DateEvents(setting, team) +
      (match VectorAt(setting.reader, team, setting.layout.teamSquadBeginOffset, setting.layout.teamSquadEndOffset,
                      MAX_PLAYERS_PER_SQUAD)
       case None => []
       case Some((squadBegin, count)) => SquadEvents(setting, SquadOf(setting, club, clubName, team), squadBegin, count))
  }

  ghost function TeamsEvents(setting: Setting, club: Word64, clubName: string, begin: Word64, count: nat): seq<Event> {
    if count == 0 then []
    else TeamsEvents(setting, club, clubName, begin, count - 1) + TeamEvents(setting, club, clubName, begin, count - 1)
  }

  ghost function ClubEvents(setting: Setting, club: Word64, clubName: string): seq<Event> {
    match VectorAt(setting.reader, club, setting.layout.clubTeamsBeginOffset, setting.layout.clubTeamsEndOffset,
                   MAX_TEAMS_PER_CLUB)
    case None => []
    case Some((begin, count)) => [ClubWalked] + TeamsEvents(setting, club, clubName, begin, count)
  }

  /** The discovered clubs that are walked, in the given order; addresses already walked are skipped. */
  ghost function DiscoveredEvents(setting: Setting, clubs: seq<ClubCandidate>): seq<Event> {
    if clubs == [] then []
    else
      var n := |clubs| - 1;
      DiscoveredEvents(setting, clubs[..n]) +
      (if IsWalkable(setting, clubs[n]) && clubs[n].address !in WalkedAddresses(setting, clubs[..n])
       then ClubEvents(setting, clubs[n].address, clubs[n].name) else [])
  }

  predicate IsWalkable(setting: Setting, club: ClubCandidate) {
    club.address != 0 && setting.reader.isPlausibleName(club.name)
  }

  ghost function WalkedAddresses(setting: Setting, clubs: seq<ClubCandidate>): set<Word64> {
    set c | c in clubs && IsWalkable(setting, c) :: c.address
  }

  /** The fallback clubs that were not discovered and have a readable name. */
  ghost function FallbackEvents(setting: Setting, addresses: seq<Word64>, walked: set<Word64>): seq<Event> {
    if addresses == [] then []
    else
      var n := |addresses| - 1;
      var club := addresses[n];
      FallbackEvents(setting, addresses[..n], walked) +
      (if club == 0 || club in walked || club in addresses[..n] || setting.reader.clubName(club).None? then []
       else ClubEvents(setting, club, setting.reader.clubName(club).value))
  }

  /** Everything that building the index comes across. */
  ghost function AllEvents(setting: Setting, clubs: seq<ClubCandidate>, fallback: seq<Word64>): seq<Event> {
    DiscoveredEvents(setting, clubs) + FallbackEvents(setting, fallback, WalkedAddresses(setting, clubs))
  }

  // ---------------------------------------------------------------- the index

  lemma TallyStep(events: seq<Event>, e: Event, parents: Parents)
    ensures TallyOf(events + [e], parents) == Post(TallyOf(events, parents), e, parents)
  {
    assert (events + [e])[..|events|] == events;
  }

  lemma FallbackStart(setting: Setting, fallback: seq<Word64>, walked: set<Word64>, events: seq<Event>)
    ensures events + FallbackEvents(setting, fallback[..0], walked) == events
  {
  }

  lemma FallbackStep(setting: Setting, fallback: seq<Word64>, walked: set<Word64>, events: seq<Event>, i: nat)
    requires i < |fallback|
    ensures var club, before := fallback[i], events + FallbackEvents(setting, fallback[..i], walked);
            events + FallbackEvents(setting, fallback[..i + 1], walked) ==
              if club == 0 || club in walked || club in fallback[..i] || setting.reader.clubName(club).None? then before
              else before + ClubEvents(setting, club, setting.reader.clubName(club).value)
  {
    hide ClubEvents;
    assert fallback[..i + 1][..i] == fallback[..i];
    var earlier := FallbackEvents(setting, fallback[..i], walked);
    assert earlier + [] == earlier;
    if setting.reader.clubName(fallback[i]).Some? {
      var more := ClubEvents(setting, fallback[i], setting.reader.clubName(fallback[i]).value);
      assert events + (earlier + more) == (events + earlier) + more;
    }
  }

  lemma DiscoveredStart(setting: Setting, clubs: seq<ClubCandidate>)
    ensures WalkedAddresses(setting, clubs[..0]) == {} && DiscoveredEvents(setting, clubs[..0]) == []
    ensures TallyOf([], setting.parents) == NOTHING_SEEN
  {
  }

  lemma DiscoveredStep(setting: Setting, clubs: seq<ClubCandidate>, i: nat)
    requires i < |clubs|
    ensures var club, walked := clubs[i], WalkedAddresses(setting, clubs[..i]);
            && WalkedAddresses(setting, clubs[..i + 1]) ==
                 (if IsWalkable(setting, club) then walked + {club.address} else walked)
            && DiscoveredEvents(setting, clubs[..i + 1]) ==
                 if IsWalkable(setting, club) && club.address !in walked
                 then DiscoveredEvents(setting, clubs[..i]) + ClubEvents(setting, club.address, club.name)
                 else DiscoveredEvents(setting, clubs[..i])
  {
    hide ClubEvents, IsWalkable;
    assert clubs[..i + 1] == clubs[..i] + [clubs[i]] && clubs[..i + 1][..i] == clubs[..i];
    var seen := DiscoveredEvents(setting, clubs[..i]);
    assert seen + [] == seen;
  }

  class SquadClubIndex {
    var assignments: map<Word32, SquadHit>
    var multiClubUids: set<Word32>
    var multiClubSamples: seq<Sample>
    var humanManagers: map<Word64, HumanManagerHit>
    var dateVotes: Histogram
    var clubsWalked: nat
    var playersLinked: nat

    constructor ()
      ensures Holds(NOTHING_SEEN)
    {
      assignments, multiClubUids, multiClubSamples, humanManagers := map[], {}, [], map[];
      dateVotes, clubsWalked, playersLinked := map[], 0, 0;
    }

    ghost predicate Holds(t: Tally)
      reads this
    {
      && assignments == t.assignments && multiClubUids == t.multiClubUids && multiClubSamples == t.samples
      && humanManagers == t.managers && dateVotes == t.dateVotes && clubsWalked == t.clubsWalked
    }

    method RecordHumanManager(person: Word64, candidate: HumanManagerHit, ghost events: seq<Event>,
                              ghost parents: Parents)
      requires Holds(TallyOf(events, parents))
      modifies this`humanManagers
      ensures Holds(TallyOf(events + [ManagerSeen(person, candidate)], parents))
    {
      hide TallyOf;
      TallyStep(events, ManagerSeen(person, candidate), parents);
      if person in humanManagers && !Precedes(candidate, humanManagers[person]) {
        return;
      }
      humanManagers := humanManagers[person := candidate];
    }

    method RecordDateVote(setting: Setting, team: Word64, ghost events: seq<Event>)
      requires Holds(TallyOf(events, setting.parents))
      modifies this`dateVotes
      ensures Holds(TallyOf(events + DateEvents(setting, team), setting.parents))
    {
      hide TallyOf, PointerAt, VoteAt;
      assert events + [] == events;
      var schedule := PointerAt(setting.reader, team, setting.layout.teamSchedulePtrOffset);
      if schedule.None? || schedule.value == 0 {
        return;
      }
      var vote := VoteAt(setting, schedule.value, setting.layout.scheduleNextMatchOffset);
      if vote.None? {
        vote := VoteAt(setting, schedule.value, setting.layout.scheduleNextMatchAltOffset);
      }
      if vote.Some? {
        TallyStep(events, DateVoted(vote.value), setting.parents);
        dateVotes := dateVotes[vote.value := CountOf(dateVotes, vote.value) + 1];
      }
    }

    method RecordPlayer(uid: Word32, candidate: SquadHit, parents: Parents, ghost events: seq<Event>)
      requires Holds(TallyOf(events, parents))
      modifies this`assignments, this`multiClubUids, this`multiClubSamples
      ensures Holds(TallyOf(events + [PlayerSeen(uid, candidate)], parents))
    {
      hide TallyOf;
      TallyStep(events, PlayerSeen(uid, candidate), parents);
      var parent := ParentOf(parents, uid);
      if uid !in assignments {
        assignments := assignments[uid := candidate];
        return;
      }
      var current := assignments[uid];
      var chosen := Choose(current, candidate, parent);
      if current.clubName != candidate.clubName && uid !in multiClubUids {
        multiClubUids := multiClubUids + {uid};
        if |multiClubSamples| < MAX_MULTI_CLUB_SAMPLES {
          var lost := if chosen.clubName == candidate.clubName then current.clubName else candidate.clubName;
          multiClubSamples := multiClubSamples + [Sample(uid, chosen.clubName, lost, parent)];
        }
      }
      assignments := assignments[uid := chosen];
    }

    method WalkSquad(setting: Setting, team: Word64, squad: SquadHit, ghost events: seq<Event>)
      requires Holds(TallyOf(events, setting.parents))
      modifies this`assignments, this`multiClubUids, this`multiClubSamples
      ensures var vector := VectorAt(setting.reader, team, setting.layout.teamSquadBeginOffset,
                                     setting.layout.teamSquadEndOffset, MAX_PLAYERS_PER_SQUAD);
              Holds(TallyOf(events + (if vector.None? then []
                                      else SquadEvents(setting, squad, vector.value.0, vector.value.1)),
                            setting.parents))
    {
      hide Holds, TallyOf, PersonOfEntry, VectorAt, EntryAt;
      var vector := VectorAt(setting.reader, team, setting.layout.teamSquadBeginOffset,
                             setting.layout.teamSquadEndOffset, MAX_PLAYERS_PER_SQUAD);
      assert events + [] == events;
      if vector.None? {
        return;
      }
      var (begin, count) := vector.value;
      for i := 0 to count
        invariant Holds(TallyOf(events + SquadEvents(setting, squad, begin, i), setting.parents))
      {
        ghost var seen := events + SquadEvents(setting, squad, begin, i);
        assert events + SquadEvents(setting, squad, begin, i + 1) == seen + EntryEvents(setting, squad, begin, i);
        assert seen + [] == seen;
        var entry := EntryAt(setting.reader, begin, i);
        if entry.None? {
          continue;
        }
        var uid := PersonOfEntry(setting, entry.value);
        if uid.None? {
          continue;
        }
        RecordPlayer(uid.value, squad, setting.parents, seen);
      }
    }

    method WalkTeam(setting: Setting, club: Word64, clubName: string, begin: Word64, i: nat, ghost events: seq<Event>)
      requires Holds(TallyOf(events, setting.parents))
      modifies this`assignments, this`multiClubUids, this`multiClubSamples, this`humanManagers, this`dateVotes
      ensures Holds(TallyOf(events + TeamEvents(setting, club, clubName, begin, i), setting.parents))
    {
      hide Holds, TallyOf, VectorAt, EntryAt, SquadEvents, SquadOf, DateEvents;
      assert events + [] == events;
      var entry := EntryAt(setting.reader, begin, i);
      if entry.None? {
        return;
      }
      var team := entry.value;
      ghost var seen := events + ManagerEvents(setting, club, clubName, team);
      var manager := PointerAt(setting.reader, team, setting.layout.teamManagerPtrOffset);
      if manager.Some? && manager.value in setting.managers {
        RecordHumanManager(manager.value,
                           HumanManagerHit(clubName, PositiveUidAt(setting, club), TeamTypeAt(setting, team),
                                           ReputationAt(setting, team), team), events, setting.parents);
      }
      ghost var voted := seen + DateEvents(setting, team);
      RecordDateVote(setting, team, seen);
      ghost var squadVector := VectorAt(setting.reader, team, setting.layout.teamSquadBeginOffset,
                                        setting.layout.teamSquadEndOffset, MAX_PLAYERS_PER_SQUAD);
      ghost var squadEvents := if squadVector.None? then []
                               else SquadEvents(setting, SquadOf(setting, club, clubName, team), squadVector.value.0,
                                                squadVector.value.1);
      WalkSquad(setting, team, SquadOf(setting, club, clubName, team), voted);
      assert events + (ManagerEvents(setting, club, clubName, team) + DateEvents(setting, team) + squadEvents) ==
             voted + squadEvents;
    }

    method WalkClub(setting: Setting, club: Word64, clubName: string, ghost events: seq<Event>)
      requires Holds(TallyOf(events, setting.parents))
      modifies this
      ensures Holds(TallyOf(events + ClubEvents(setting, club, clubName), setting.parents))
    {
      hide TallyOf, VectorAt, TeamEvents;
      assert events + [] == events;
      var vector := VectorAt(setting.reader, club, setting.layout.clubTeamsBeginOffset,
                             setting.layout.clubTeamsEndOffset, MAX_TEAMS_PER_CLUB);
      if vector.None? {
        return;
      }
      var (begin, count) := vector.value;
      TallyStep(events, ClubWalked, setting.parents);
      clubsWalked := clubsWalked + 1;
      ghost var counted := events + [ClubWalked];
      assert counted + [] == counted;
      hide Holds;
      for i := 0 to count
        invariant Holds(TallyOf(counted + TeamsEvents(setting, club, clubName, begin, i), setting.parents))
      {
        ghost var seen := counted + TeamsEvents(setting, club, clubName, begin, i);
        assert counted + TeamsEvents(setting, club, clubName, begin, i + 1) ==
               seen + TeamEvents(setting, club, clubName, begin, i);
        WalkTeam(setting, club, clubName, begin, i, seen);
      }
      assert events + ([ClubWalked] + TeamsEvents(setting, club, clubName, begin, count)) ==
             counted + TeamsEvents(setting, club, clubName, begin, count);
    }

    method WalkDiscovered(setting: Setting, clubs: seq<ClubCandidate>) returns (seenClubs: set<Word64>)
      requires Holds(NOTHING_SEEN)
      modifies this
      ensures Holds(TallyOf(DiscoveredEvents(setting, clubs), setting.parents))
      ensures seenClubs == WalkedAddresses(setting, clubs)
    {
      hide Holds, ClubEvents, IsWalkable, DiscoveredEvents, WalkedAddresses, TallyOf;
      DiscoveredStart(setting, clubs);
      seenClubs := {};
      for i := 0 to |clubs|
        invariant seenClubs == WalkedAddresses(setting, clubs[..i])
        invariant Holds(TallyOf(DiscoveredEvents(setting, clubs[..i]), setting.parents))
      {
        DiscoveredStep(setting, clubs, i);
        var club := clubs[i];
        if !IsWalkable(setting, club) || club.address in seenClubs {
          continue;
        }
        seenClubs := seenClubs + {club.address};
        WalkClub(setting, club.address, club.name, DiscoveredEvents(setting, clubs[..i]));
      }
      assert clubs[..|clubs|] == clubs;
    }

    method WalkFallback(setting: Setting, fallback: seq<Word64>, discovered: set<Word64>, ghost events: seq<Event>)
      requires Holds(TallyOf(events, setting.parents))
      modifies this
      ensures Holds(TallyOf(events + FallbackEvents(setting, fallback, discovered), setting.parents))
    {
      hide Holds, TallyOf, ClubEvents, FallbackEvents;
      var seenClubs := discovered;
      FallbackStart(setting, fallback, discovered, events);
      for i := 0 to |fallback|
        invariant forall a :: a in seenClubs <==> a in discovered || (a != 0 && a in fallback[..i])
        invariant Holds(TallyOf(events + FallbackEvents(setting, fallback[..i], discovered), setting.parents))
      {
        FallbackStep(setting, fallback, discovered, events, i);
        assert fallback[..i + 1] == fallback[..i] + [fallback[i]];
        var club := fallback[i];
        if club == 0 || club in seenClubs {
          continue;
        }
        seenClubs := seenClubs + {club};
        var name := setting.reader.clubName(club);
        if name.None? {
          continue;
        }
        WalkClub(setting, club, name.value, events + FallbackEvents(setting, fallback[..i], discovered));
      }
      assert fallback[..|fallback|] == fallback;
    }

    /**
     Walks the discovered clubs and then the fallback ones, both in the stable order by address and each
     address at most once. The index holds the tally of everything come across.
     */
    method Build(setting: Setting, discovered: seq<ClubCandidate>, fallback: seq<Word64>)
      requires Holds(NOTHING_SEEN)
      modifies this
      ensures Holds(TallyOf(AllEvents(setting, OrderBy(discovered, AddressOf), OrderBy(fallback, Itself)), setting.parents))
      ensures playersLinked == |assignments|
    {
      var clubs := OrderBy(discovered, AddressOf);
      var seenClubs := WalkDiscovered(setting, clubs);
      WalkFallback(setting, OrderBy(fallback, Itself), seenClubs, DiscoveredEvents(setting, clubs));
      playersLinked := |assignments|;
    }
  }

  // ---------------------------------------------------------------- stable order

  function AddressOf(club: ClubCandidate): nat { club.address }

  function Itself(address: Word64): nat { address }

  /** Inserts an item behind all that do not come after it. */
  function InsertBy<T>(sorted: seq<T>, item: T, key: T -> nat): seq<T> {
    if sorted == [] || key(sorted[|sorted| - 1]) <= key(item) then sorted + [item]
    else InsertBy(sorted[..|sorted| - 1], item, key) + [sorted[|sorted| - 1]]
  }

  function OrderBy<T>(items: seq<T>, key: T -> nat): seq<T> {
    if items == [] then [] else InsertBy(OrderBy(items[..|items| - 1], key), items[|items| - 1], key)
  }

  ghost predicate IsOrdered<T(!new)>(items: seq<T>, key: T -> nat) {
    forall i, j :: 0 <= i < j < |items| ==> key(items[i]) <= key(items[j])
  }

  /** The items of one key, in their order. */
  ghost function WithKey<T(!new)>(items: seq<T>, key: T -> nat, k: nat): (chosen: seq<T>)
    ensures forall x :: x in chosen <==> x in items && key(x) == k
  {
    if items == [] then []
    else
      var n := |items| - 1;
      var before := WithKey(items[..n], key, k);
      assert forall x :: x in items <==> x in items[..n] || x == items[n];
      if key(items[n]) == k then before + [items[n]] else before
  }

  /** The items of the longer list are those of the shorter one and one more. */
  lemma OneMoreItem<T(!new)>(items: seq<T>, item: T)
    ensures forall x :: x in items + [item] <==> x in items || x == item
  {
  }

  lemma {:induction false} InsertedInOrder<T(!new)>(sorted: seq<T>, item: T, key: T -> nat)
    requires IsOrdered(sorted, key)
    ensures IsOrdered(InsertBy(sorted, item, key), key)
    ensures forall x :: x in InsertBy(sorted, item, key) <==> x in sorted || x == item
  {
    if sorted != [] && key(sorted[|sorted| - 1]) > key(item) {
      var before, last := sorted[..|sorted| - 1], sorted[|sorted| - 1];
      InsertedInOrder(before, item, key);
      OneMoreItem(before, last);
      assert sorted == before + [last];
      AppendedInOrder(InsertBy(before, item, key), last, key);
    } else {
      AppendedInOrder(sorted, item, key);
    }
  }

  lemma AppendedInOrder<T(!new)>(items: seq<T>, item: T, key: T -> nat)
    requires IsOrdered(items, key) && forall x :: x in items ==> key(x) <= key(item)
    ensures IsOrdered(items + [item], key)
  {
  }

  lemma {:induction false} InsertedBehindItsKey<T(!new)>(sorted: seq<T>, item: T, key: T -> nat, k: nat)
    ensures WithKey(InsertBy(sorted, item, key), key, k) ==
              if key(item) == k then WithKey(sorted, key, k) + [item] else WithKey(sorted, key, k)
  {
    hide WithKey;
    if sorted != [] && key(sorted[|sorted| - 1]) > key(item) {
      var before, last := sorted[..|sorted| - 1], sorted[|sorted| - 1];
      InsertedBehindItsKey(before, item, key, k);
      OneMoreWithKey(InsertBy(before, item, key), last, key, k);
      OneMoreWithKey(before, last, key, k);
      assert sorted == before + [last];
    } else {
      OneMoreWithKey(sorted, item, key, k);
    }
  }

  lemma OneMoreWithKey<T(!new)>(items: seq<T>, item: T, key: T -> nat, k: nat)
    ensures WithKey(items + [item], key, k) ==
              if key(item) == k then WithKey(items, key, k) + [item] else WithKey(items, key, k)
  {
    assert (items + [item])[..|items|] == items;
  }

  /** Ordering sorts by key, and keeps items of the same key as they were: none is lost, added or overtaken. */
  lemma {:induction false} OrderIsStable<T(!new)>(items: seq<T>, key: T -> nat, k: nat)
    ensures IsOrdered(OrderBy(items, key), key)
    ensures WithKey(OrderBy(items, key), key, k) == WithKey(items, key, k)
  {
    if items != [] {
      var n := |items| - 1;
      OrderIsStable(items[..n], key, k);
      InsertedInOrder(OrderBy(items[..n], key), items[n], key);
      InsertedBehindItsKey(OrderBy(items[..n], key), items[n], key, k);
    }
  }

  lemma LastHasKey<T(!new)>(items: seq<T>, key: T -> nat)
    ensures items != [] ==>
              var n := |items| - 1;
              WithKey(items, key, key(items[n])) == WithKey(items[..n], key, key(items[n])) + [items[n]]
  {
  }

  lemma LastIsGreatest<T(!new)>(items: seq<T>, key: T -> nat, x: T)
    requires IsOrdered(items, key) && x in items
    ensures key(x) <= key(items[|items| - 1])
  {
  }

  lemma LastIsShared<T(!new)>(a: seq<T>, b: seq<T>, key: T -> nat)
    requires a != [] && forall k :: WithKey(a, key, k) == WithKey(b, key, k)
    ensures a[|a| - 1] in b
  {
    var x := a[|a| - 1];
    LastHasKey(a, key);
    hide WithKey;
    assert x in WithKey(a, key, key(x));
  }

  /** The last of two orders with the same items for every key is the same. */
  lemma {:induction false} SameLast<T(!new)>(a: seq<T>, b: seq<T>, key: T -> nat)
    requires IsOrdered(a, key) && IsOrdered(b, key) && a != [] && b != []
    requires forall k :: WithKey(a, key, k) == WithKey(b, key, k)
    ensures a[|a| - 1] == b[|b| - 1]
  {
    hide WithKey, IsOrdered;
    var x, y := a[|a| - 1], b[|b| - 1];
    LastIsShared(a, b, key);
    LastIsShared(b, a, key);
    LastIsGreatest(a, key, y);
    LastIsGreatest(b, key, x);
    LastHasKey(a, key);
    LastHasKey(b, key);
    var s := WithKey(a, key, key(x));
    assert s == WithKey(b, key, key(y));
    assert s[|s| - 1] == x && s[|s| - 1] == y;
  }

  lemma BothEmpty<T(!new)>(a: seq<T>, b: seq<T>, key: T -> nat)
    requires forall k :: WithKey(a, key, k) == WithKey(b, key, k)
    ensures a == [] <==> b == []
  {
    LastHasKey(a, key);
    LastHasKey(b, key);
  }

  /** There is only one such order. */
  lemma {:induction false} StableOrderIsUnique<T(!new)>(a: seq<T>, b: seq<T>, key: T -> nat)
    requires IsOrdered(a, key) && IsOrdered(b, key)
    requires forall k :: WithKey(a, key, k) == WithKey(b, key, k)
    ensures a == b
  {
    hide WithKey;
    BothEmpty(a, b, key);
    if a != [] {
      SameLast(a, b, key);
      var x, before, beforeToo := a[|a| - 1], a[..|a| - 1], b[..|b| - 1];
      forall k ensures WithKey(before, key, k) == WithKey(beforeToo, key, k) {
        OneLess(a, b, key, k);
      }
      StableOrderIsUnique(before, beforeToo, key);
      assert a == before + [x] && b == beforeToo + [x];
    }
  }

  lemma OneLess<T(!new)>(a: seq<T>, b: seq<T>, key: T -> nat, k: nat)
    requires a != [] && b != [] && a[|a| - 1] == b[|b| - 1] && WithKey(a, key, k) == WithKey(b, key, k)
    ensures WithKey(a[..|a| - 1], key, k) == WithKey(b[..|b| - 1], key, k)
  {
    var x, before, beforeToo := a[|a| - 1], WithKey(a[..|a| - 1], key, k), WithKey(b[..|b| - 1], key, k);
    if key(x) == k {
      assert before == (before + [x])[..|before|] && beforeToo == (beforeToo + [x])[..|beforeToo|];
    }
  }
}
