/**
 The control flow of one dump: scan live memory; if too much of it could not be read, capture a snapshot and
 scan that once instead; then keep the players that can be identified. Candidates are handed on for later
 writes only when they were found in live memory.
 */
module DumpPipeline {
  import opened Wrappers
  import opened ScanModel
  import opened ScanLedger

  /** What a reader of the running process calls its source, and what a reader of a snapshot does. */
  const LIVE := "live"
  const SNAPSHOT := "snapshot-va-clone"

  /** One scan as the pipeline sees it; the scan itself is the subject of the scanner modules. */
  datatype Attempt = Attempt(
    cancelled: bool, quality: ReadQuality, players: seq<PersonCandidate>, staff: seq<PersonCandidate>)

  /** Everything the run depends on that lies outside it; `snapshot` is the scan of a snapshot, if one was captured. */
  datatype Setting = Setting(
    layoutKnown: bool,
    source: string,
    first: Attempt,
    commitKnown: bool,
    commitSufficient: bool,
    snapshot: Option<Attempt>,
    hasIdentity: PersonCandidate -> bool,
    cancelledAfterScan: bool,
    dumpReplaced: bool)

  datatype Outcome =
    | Failed
    | Succeeded(players: seq<PersonCandidate>, livePlayers: seq<PersonCandidate>, liveStaff: seq<PersonCandidate>)

  function Identified(players: seq<PersonCandidate>, hasIdentity: PersonCandidate -> bool): seq<PersonCandidate> {
    if players == [] then []
    else
      var n := |players| - 1;
      var before := Identified(players[..n], hasIdentity);
      if hasIdentity(players[n]) then before + [players[n]] else before
  }

  function Uids(players: seq<PersonCandidate>): set<Word32> { set c | c in players :: c.uid }

  function NotPlayers(staff: seq<PersonCandidate>, playerUids: set<Word32>): seq<PersonCandidate> {
    if staff == [] then []
    else
      var n := |staff| - 1;
      var before := NotPlayers(staff[..n], playerUids);
      if staff[n].uid in playerUids then before else before + [staff[n]]
  }

  lemma {:induction false} NotPlayersAre(staff: seq<PersonCandidate>, playerUids: set<Word32>, c: PersonCandidate)
    ensures c in NotPlayers(staff, playerUids) <==> c in staff && c.uid !in playerUids
  {
    if staff != [] {
      var n := |staff| - 1;
      NotPlayersAre(staff[..n], playerUids, c);
      assert c in staff <==> c in staff[..n] || c == staff[n];
    }
  }

  lemma {:induction false} IdentifiedAre(players: seq<PersonCandidate>, hasIdentity: PersonCandidate -> bool,
                                         c: PersonCandidate)
    ensures c in Identified(players, hasIdentity) <==> c in players && hasIdentity(c)
  {
    if players != [] {
      var n := |players| - 1;
      IdentifiedAre(players[..n], hasIdentity, c);
      assert c in players <==> c in players[..n] || c == players[n];
    }
  }

  /** The first scan fell short, and a retry on a snapshot was possible. */
  predicate Retries(s: Setting) {
    && s.layoutKnown && !s.first.cancelled && s.first.quality.IsMateriallyIncomplete()
    && s.commitKnown && s.commitSufficient && s.snapshot.Some?
  }

  /** The one scan a successful dump is made of, and where it was taken. */
  function Used(s: Setting): Attempt { if Retries(s) then s.snapshot.value else s.first }

  function SourceOf(s: Setting): string { if Retries(s) then SNAPSHOT else s.source }

  /** What a run comes to: when it succeeds, what the dump holds and which candidates are offered to later writes. */
  predicate IsOutcome(s: Setting, r: Outcome) {
    && (r.Succeeded? <==>
          && s.layoutKnown && !Used(s).cancelled && !Used(s).quality.IsMateriallyIncomplete()
          && !s.cancelledAfterScan && s.dumpReplaced && Identified(Used(s).players, s.hasIdentity) != [])
    && (r.Succeeded? ==>
          && r.players == Identified(Used(s).players, s.hasIdentity)
          && (if SourceOf(s) == LIVE then
                r.livePlayers == r.players && r.liveStaff == NotPlayers(Used(s).staff, Uids(Used(s).players))
              else r.livePlayers == [] && r.liveStaff == []))
  }

  method Run(s: Setting) returns (r: Outcome, scans: nat)
    ensures scans <= 2 && (scans == 2 <==> Retries(s))
    ensures IsOutcome(s, r)
  {
    scans := 0;
    if !s.layoutKnown {
      return Failed, scans;
    }
    var scan, source := s.first, s.source;
    scans := 1;
    if scan.cancelled {
      return Failed, scans;
    }
    if scan.quality.IsMateriallyIncomplete() {
      if !s.commitKnown || !s.commitSufficient || s.snapshot.None? {
        return Failed, scans;
      }
      scan, source := s.snapshot.value, SNAPSHOT;
      scans := 2;
      if scan.cancelled || scan.quality.IsMateriallyIncomplete() {
        return Failed, scans;
      }
    }
    if s.cancelledAfterScan || |scan.players| == 0 {
      return Failed, scans;
    }
    var drafts: seq<PersonCandidate> := [];
    for i := 0 to |scan.players|
      invariant drafts == Identified(scan.players[..i], s.hasIdentity)
    {
      assert scan.players[..i + 1][..i] == scan.players[..i];
      if !s.hasIdentity(scan.players[i]) {
        continue;
      }
      drafts := drafts + [scan.players[i]];
    }
    assert scan.players[..|scan.players|] == scan.players;
    var playerUids := Uids(scan.players);
    var staffDrafts: seq<PersonCandidate> := [];
    for i := 0 to |scan.staff|
      invariant staffDrafts == NotPlayers(scan.staff[..i], playerUids)
    {
      assert scan.staff[..i + 1][..i] == scan.staff[..i];
      if scan.staff[i].uid in playerUids {
        continue;
      }
      staffDrafts := staffDrafts + [scan.staff[i]];
    }
    assert scan.staff[..|scan.staff|] == scan.staff;
    if |drafts| == 0 || !s.dumpReplaced {
      return Failed, scans;
    }
    r := if source == LIVE then Succeeded(drafts, drafts, staffDrafts) else Succeeded(drafts, [], []);
  }

  /**
   Live candidates come from live memory and from nowhere else: they are exactly what the first scan of live
   memory kept, it was complete up to the tolerated gaps, and no snapshot was scanned. Every player among
   them was identified, and nobody is offered both as a player and as staff.
   */
  lemma LiveCandidatesAreLive(s: Setting, r: Outcome, c: PersonCandidate)
    requires IsOutcome(s, r) && r.Succeeded?
    ensures c in r.livePlayers <==> s.source == LIVE && !Retries(s) && c in s.first.players && s.hasIdentity(c)
    ensures c in r.liveStaff <==>
              s.source == LIVE && !Retries(s) && c in s.first.staff && c.uid !in Uids(s.first.players)
    ensures c in r.livePlayers || c in r.liveStaff ==>
              !s.first.cancelled && !s.first.quality.IsMateriallyIncomplete()
    ensures c in r.livePlayers ==> forall d :: d in r.liveStaff ==> d.uid != c.uid
  {
    IdentifiedAre(Used(s).players, s.hasIdentity, c);
    NotPlayersAre(Used(s).staff, Uids(Used(s).players), c);
    if c in r.livePlayers {
      forall d | d in r.liveStaff ensures d.uid != c.uid {
        NotPlayersAre(Used(s).staff, Uids(Used(s).players), d);
        assert c.uid in Uids(Used(s).players);
      }
    }
  }

  /** At most every tenth of the requested bytes is unread. */
  predicate IsCompleteEnough(a: Attempt) { a.quality.requested == 0 || 10 * a.quality.unread <= a.quality.requested }

  /** A dump can be made of this scan. */
  ghost predicate IsUsable(s: Setting, a: Attempt) {
    && !a.cancelled && IsCompleteEnough(a) && !s.cancelledAfterScan && s.dumpReplaced
    && exists c :: c in a.players && s.hasIdentity(c)
  }

  /** The first scan is usable, or it is too incomplete and that of a snapshot, for which there is room, is usable. */
  ghost predicate Succeeds(s: Setting) {
    && s.layoutKnown && !s.first.cancelled
    && if IsCompleteEnough(s.first) then IsUsable(s, s.first)
       else s.commitKnown && s.commitSufficient && s.snapshot.Some? && IsUsable(s, s.snapshot.value)
  }

  /** The identified players of a scan, in its order, and the staff who are not among its players, in theirs. */
  ghost predicate IsDumpOf(s: Setting, a: Attempt, players: seq<PersonCandidate>) {
    players == Identified(a.players, s.hasIdentity) && forall c :: c in players <==> c in a.players && s.hasIdentity(c)
  }

  /**
   A run succeeds exactly when a dump can be made of its first scan or of that of a snapshot. Candidates are handed
   on only from the first scan, and only if it was one of live memory.
   */
  lemma OutcomeInFull(s: Setting, r: Outcome)
    requires IsOutcome(s, r)
    ensures r.Succeeded? <==> Succeeds(s)
    ensures r.Succeeded? ==>
              && IsDumpOf(s, if IsCompleteEnough(s.first) then s.first else s.snapshot.value, r.players)
              && (if IsCompleteEnough(s.first) && s.source == "live" then
                    && r.livePlayers == r.players
                    && forall c :: c in r.liveStaff <==>
                         c in s.first.staff && forall p :: p in s.first.players ==> p.uid != c.uid
                  else r.livePlayers == [] && r.liveStaff == [])
  {
    var used := Used(s);
    forall c ensures c in Identified(used.players, s.hasIdentity) <==> c in used.players && s.hasIdentity(c) {
      IdentifiedAre(used.players, s.hasIdentity, c);
    }
    assert Identified(used.players, s.hasIdentity) != [] ==>
             Identified(used.players, s.hasIdentity)[0] in Identified(used.players, s.hasIdentity);
    forall c ensures c in NotPlayers(used.staff, Uids(used.players)) <==>
                     c in used.staff && forall p :: p in used.players ==> p.uid != c.uid
    {
      NotPlayersAre(used.staff, Uids(used.players), c);
    }
  }
}
