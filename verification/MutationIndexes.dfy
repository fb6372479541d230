/**
 The live index: the persons of the last successful dump of live memory, at the addresses where that dump
 found them. Players and staff each have one; the two differ only in which facets they admit.
 */
module MutationIndexes {
  import opened Wrappers
  import opened Requests
  import opened ScanModel

  datatype Lookup = Found(gameVersion: string, candidate: PersonCandidate) | MissingIndex | SourceRequestMismatch | NotFound

  /** The candidates an index admits, by uid; a later candidate displaces an earlier one of the same uid. */
  ghost function Indexed(candidates: seq<PersonCandidate>, players: bool): People {
    if candidates == [] then map[]
    else
      var n := |candidates| - 1;
      var before, c := Indexed(candidates[..n], players), candidates[n];
      if c.facet.Player? == players then before[c.uid := c] else before
  }

  /** The index holds exactly the uids admitted, each with its last candidate. */
  lemma {:induction false} IndexedHoldsLast(candidates: seq<PersonCandidate>, players: bool, i: nat)
    requires i < |candidates| && candidates[i].facet.Player? == players
    requires forall j :: i < j < |candidates| && candidates[j].facet.Player? == players ==>
                 candidates[j].uid != candidates[i].uid
    ensures candidates[i].uid in Indexed(candidates, players)
    ensures Indexed(candidates, players)[candidates[i].uid] == candidates[i]
  {
    var n := |candidates| - 1;
    if i < n {
      IndexedHoldsLast(candidates[..n], players, i);
    }
  }

  lemma {:induction false} IndexedComesFrom(candidates: seq<PersonCandidate>, players: bool, u: Word32)
    requires u in Indexed(candidates, players)
    ensures Indexed(candidates, players)[u] in candidates
    ensures Indexed(candidates, players)[u].uid == u && Indexed(candidates, players)[u].facet.Player? == players
  {
    var n := |candidates| - 1;
    if candidates[n].uid != u || candidates[n].facet.Player? != players {
      IndexedComesFrom(candidates[..n], players, u);
    }
  }

  class MutationIndex {
    /** Whether this is the index of players or that of staff and managers. */
    const players: bool
    var sourceRequestId: Option<string>
    var gameVersion: Option<string>
    var people: People

    constructor (players: bool)
      ensures this.players == players && IsClear() && Valid()
    {
      this.players, sourceRequestId, gameVersion, people := players, None, None, map[];
    }

    predicate IsClear()
      reads this
    {
      sourceRequestId.None? && gameVersion.None? && people == map[]
    }

    ghost predicate Valid()
      reads this
    {
      && (sourceRequestId.Some? <==> gameVersion.Some?)
      && (sourceRequestId.None? ==> people == map[])
      && forall u :: u in people ==> people[u].uid == u && people[u].facet.Player? == players
    }

    method Replace(requestId: string, version: string, candidates: seq<PersonCandidate>)
      requires !IsBlank(Some(requestId)) && !IsBlank(Some(version))
      modifies this
      ensures Valid()
      ensures sourceRequestId == Some(requestId) && gameVersion == Some(version)
      ensures people == Indexed(candidates, players)
    {
      var next: People := map[];
      for i := 0 to |candidates|
        invariant next == Indexed(candidates[..i], players)
      {
        assert candidates[..i + 1][..i] == candidates[..i];
        if candidates[i].facet.Player? == players {
          next := next[candidates[i].uid := candidates[i]];
        }
      }
      assert candidates[..|candidates|] == candidates;
      forall u | u in next ensures next[u].uid == u && next[u].facet.Player? == players {
        IndexedComesFrom(candidates, players, u);
      }
      sourceRequestId, gameVersion, people := Some(requestId), Some(version), next;
    }

    method Clear()
      modifies this
      ensures IsClear() && Valid()
    {
      sourceRequestId, gameVersion, people := None, None, map[];
    }

    /** Moves a person's cached current ability on, if the caller knows the cached abilities. */
    method TryUpdateCurrentAbility(requestId: string, uid: Word32, expectedCa: int, expectedPa: int, ca: int)
      returns (updated: bool)
      requires Valid()
      modifies this`people
      ensures Valid()
      ensures updated <==>
                && sourceRequestId == Some(requestId) && uid in old(people)
                && old(people)[uid].ca == expectedCa && old(people)[uid].pa == expectedPa
                && IsValidAbility(ca) && ca <= expectedPa
      ensures people == if updated then old(people)[uid := old(people)[uid].(ca := ca)] else old(people)
    {
      if sourceRequestId != Some(requestId) || uid !in people || people[uid].ca != expectedCa
         || people[uid].pa != expectedPa || !IsValidAbility(ca) || ca > expectedPa {
        return false;
      }
      people := people[uid := people[uid].(ca := ca)];
      updated := true;
    }

    predicate HasCandidatesFor(version: string)
      reads this
    {
      sourceRequestId.Some? && people != map[] && gameVersion == Some(version)
    }

    function TryGet(requestId: string, uid: Word32): (r: Lookup)
      requires Valid()
      reads this
      ensures r.Found? <==> sourceRequestId == Some(requestId) && uid in people
      ensures r.Found? ==> r.candidate == people[uid] && r.candidate.uid == uid && gameVersion == Some(r.gameVersion)
    {
      if sourceRequestId.None? || gameVersion.None? then MissingIndex
      else if sourceRequestId != Some(requestId) then SourceRequestMismatch
      else if uid !in people then NotFound
      else Found(gameVersion.value, people[uid])
    }
  }
}
