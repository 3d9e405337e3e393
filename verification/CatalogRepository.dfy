/** The catalog tables as the store mutates them, and the indexer's Refresh on top. */
module CatalogRepository {
  import opened Wrappers
  import opened Clocks
  import opened Ordering
  import opened Catalog

  const RETIRED_BATCH: nat := 16

  class Repository {
    var generations: map<string, Generation>
    var current: map<string, string>
    var retirements: map<string, int>
    var sets: map<string, ResultSet>

    ghost function Now(): Tables
      reads this
    {
      Tables(generations, current, retirements, sets)
    }

    constructor ()
      ensures Now() == Tables(map[], map[], map[], map[]) && Inv(Now())
    {
      generations, current, retirements, sets := map[], map[], map[], map[];
    }

    /** initializeCatalogRetention: recover the column, then observe what is still unknown. */
    method Initialize(column: map<string, int>, now: int)
      modifies this`retirements
      ensures Now() == Initialized(old(Now()), column, now)
    {
      var t := Tables(generations, current, retirements, sets);
      retirements := Recovered(t, column) + retirements;
      retirements := Unobserved(t, now) + retirements;
    }

    /** INSERT ... ON CONFLICT DO UPDATE on current_catalog, its triggers, and the explicit replacement time. */
    method Activate(workspace: string, id: string, created: int, clock: int)
      modifies this`current, this`retirements
      ensures Now() == Activated(old(Now()), workspace, id, created, clock)
    {
      var previous := if workspace in current then current[workspace] else "";
      if workspace !in current {
        current := current[workspace := id];
        retirements := retirements - {id};
      } else if previous != id {
        current := current[workspace := id];
        retirements := retirements[previous := clock];
        retirements := retirements - {id};
      }
      if previous != "" && previous != id && previous in retirements {
        retirements := retirements[previous := created];
      }
    }

    method Publish(id: string, g: Generation, clock: int) returns (r: Result<(), Refusal>)
      modifies this
      ensures r.Ok? <==> Published(old(Now()), id, g, clock).Ok?
      ensures r.Ok? ==> Now() == Published(old(Now()), id, g, clock).value
      ensures r.Err? ==> Now() == old(Now()) && r.error == Published(old(Now()), id, g, clock).error
    {
      if !Publishable(id, g) {
        return Err(Invalid);
      }
      if id in generations {
        if generations[id].workspace != g.workspace || generations[id].fingerprint != g.fingerprint {
          return Err(IdentityMismatch);
        }
      } else {
        generations := generations[id := g];
      }
      Activate(g.workspace, id, g.created, clock);
      return Ok(());
    }

    method Prune(workspace: string, before: int, now: int, limit: nat) returns (count: nat)
      modifies this`generations, this`retirements
      ensures Now() == Pruned(old(Now()), workspace, before, now, limit)
      ensures count == |old(generations).Keys - generations.Keys|
    {
      var t := Tables(generations, current, retirements, sets);
      var ids := Prunable(t, workspace, before, now);
      var gone := PickBatch(retirements, ids, limit);
      generations := generations - gone;
      retirements := retirements - gone;
      assert t.generations.Keys - generations.Keys == gone;
      return |gone|;
    }

    method CurrentGeneration(workspace: string) returns (r: Option<string>)
      ensures r == if workspace in current && current[workspace] in generations then Some(current[workspace]) else None
    {
      if workspace in current && current[workspace] in generations {
        return Some(current[workspace]);
      }
      return None;
    }

    /** CreateResultSet: one transaction, so a refused insert leaves the expired sets too. */
    method CreateSet(id: string, s: ResultSet) returns (ok: bool)
      modifies this`sets
      ensures ok <==> Created(old(Now()), id, s).Some?
      ensures ok ==> Now() == Created(old(Now()), id, s).value
      ensures !ok ==> Now() == old(Now())
    {
      if !ValidSet(id, s) {
        return false;
      }
      var gone := PickBatch(Expiries(sets), ExpiredSets(sets, s.created), EXPIRED_BATCH);
      var left := sets - gone;
      if id in left {
        return false;
      }
      sets := left[id := s];
      return true;
    }

    /** FindResultSet: among the matching sets, one that lives longest. */
    method FindSet(workspace: string, generation: string, query: string, minimum: int) returns (r: Option<string>)
      ensures r.Some? ==> Finds(Now(), workspace, generation, query, minimum, r.value)
      ensures r.None? ==> forall id :: Matches(Now(), id, workspace, generation, query) ==> sets[id].expires <= minimum
    {
      r := None;
      var rest := sets.Keys;
      while rest != {}
        invariant rest <= sets.Keys
        invariant r.Some? ==> Matches(Now(), r.value, workspace, generation, query) && sets[r.value].expires > minimum
        invariant forall id :: id !in rest && Matches(Now(), id, workspace, generation, query) ==>
                    sets[id].expires <= (if r.Some? then sets[r.value].expires else minimum)
        decreases rest
      {
        var id :| id in rest;
        rest := rest - {id};
        var s := sets[id];
        if s.workspace == workspace && s.generation == generation && s.query == query && s.expires > minimum
            && (r.None? || s.expires > sets[r.value].expires) {
          r := Some(id);
        }
      }
    }

    /**
     Compare with the current generation, publish if it differs, and re-read on conflict. Between the
     comparison and the publication another refresher may publish a generation of its own.
     */
    method Supersede(workspace: string, id: string, g: Generation, clock: int, rival: Option<Rival>)
      returns (r: Option<string>)
      requires g.workspace == workspace && Inv(Now())
      modifies this
      ensures Inv(Now()) && Extends(old(Now()), Now())
      ensures r.Some? ==> Serves(Now(), workspace, r.value, g.fingerprint)
      ensures r.None? ==> (Now() == old(Now()) || (rival.Some? && Now() == After(old(Now()), rival.value)))
                            && !Matched(Now(), workspace, g.fingerprint)
      ensures Publishable(id, g) && id !in old(generations) && (rival.Some? ==> rival.value.id != id) ==> r.Some?
    {
      var found := CurrentGeneration(workspace);
      if found.Some? && generations[found.value].fingerprint == g.fingerprint {
        return found;
      }
      ghost var t := Now();
      if rival.Some? {
        RivalExtends(Now(), rival.value);
        var won := Publish(rival.value.id, rival.value.g, rival.value.clock);
      }
      ghost var u := Now();
      var published := Publish(id, g, clock);
      if published.Err? {
        found := CurrentGeneration(workspace);
        if found.Some? && generations[found.value].fingerprint == g.fingerprint {
          return found;
        }
        return None;
      }
      PublishKeeps(u, id, g, clock);
      PublishServes(u, id, g, clock);
      ExtendsTransitive(t, u, Now());
      return Some(id);
    }

    /**
     Refresh with the generation that Build produced: prune, then supersede. On success the workspace's
     current generation is the one returned and has the built fingerprint; no surviving generation changed.
     */
    method Refresh(workspace: string, id: string, g: Generation, clock: int, rival: Option<Rival>)
      returns (r: Option<string>)
      requires g.workspace == workspace && Inv(Now())
      modifies this
      ensures Inv(Now()) && Extends(Pruned(old(Now()), workspace, g.created - HOUR, g.created, RETIRED_BATCH), Now())
      ensures r.Some? ==> Serves(Now(), workspace, r.value, g.fingerprint)
      ensures r.None? ==> !Matched(Now(), workspace, g.fingerprint)
      ensures r.None? && rival.None? ==>
          Now() == Pruned(old(Now()), workspace, g.created - HOUR, g.created, RETIRED_BATCH)
      ensures Publishable(id, g) && id !in old(generations) && (rival.Some? ==> rival.value.id != id) ==> r.Some?
    {
      PruneKeeps(Now(), workspace, g.created - HOUR, g.created, RETIRED_BATCH);
      var count := Prune(workspace, g.created - HOUR, g.created, RETIRED_BATCH);
      r := Supersede(workspace, id, g, clock, rival);
    }
  }

  /** Another refresher's publication. */
  datatype Rival = Rival(id: string, g: Generation, clock: int)

  function After(t: Tables, rival: Rival): Tables {
    match Published(t, rival.id, rival.g, rival.clock)
    case Ok(z) => z
    case Err(_) => t
  }

  /** The workspace's current generation has the fingerprint. */
  predicate Matched(t: Tables, workspace: string, fingerprint: string) {
    workspace in t.current && t.current[workspace] in t.generations
        && t.generations[t.current[workspace]].fingerprint == fingerprint
  }

  lemma RivalExtends(t: Tables, rival: Rival)
    requires Inv(t)
    ensures Inv(After(t, rival)) && Extends(t, After(t, rival))
  {
    if Published(t, rival.id, rival.g, rival.clock).Ok? {
      PublishKeeps(t, rival.id, rival.g, rival.clock);
      PublishServes(t, rival.id, rival.g, rival.clock);
    }
  }

  lemma ExtendsTransitive(a: Tables, b: Tables, c: Tables)
    requires Extends(a, b) && Extends(b, c)
    ensures Extends(a, c)
  {
  }

  /** A refresher whose own generation is refused still succeeds when a rival made the same fingerprint current. */
  lemma RivalMatches(t: Tables, rival: Rival, workspace: string, fingerprint: string)
    requires Inv(t) && rival.g.workspace == workspace && rival.g.fingerprint == fingerprint
    requires Published(t, rival.id, rival.g, rival.clock).Ok?
    ensures Matched(After(t, rival), workspace, fingerprint)
  {
    PublishServes(t, rival.id, rival.g, rival.clock);
  }

  /** Every generation is kept as it was; result sets are untouched. */
  ghost predicate Extends(t: Tables, z: Tables) {
    && z.sets == t.sets
    && forall id :: id in t.generations ==> id in z.generations && z.generations[id] == t.generations[id]
  }

  ghost predicate Serves(t: Tables, workspace: string, id: string, fingerprint: string) {
    workspace in t.current && t.current[workspace] == id && id in t.generations
        && t.generations[id].fingerprint == fingerprint
  }

  lemma PublishServes(t: Tables, id: string, g: Generation, clock: int)
    requires Inv(t) && Published(t, id, g, clock).Ok?
    ensures Extends(t, Published(t, id, g, clock).value)
    ensures Serves(Published(t, id, g, clock).value, g.workspace, id, g.fingerprint)
  {
    PublishKeeps(t, id, g, clock);
    forall other | other in t.generations
      ensures other in Published(t, id, g, clock).value.generations
      ensures Published(t, id, g, clock).value.generations[other] == t.generations[other]
    {
      PublishImmutable(t, id, g, clock, other);
    }
  }
}
