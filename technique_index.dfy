/** The technique index: build_technique_tactic_map, which turns the bundle's
    objects into a map from technique id to the technique's name and tactics. */
module TechniqueIndex {
  import opened Options
  import opened Strings
  import opened AttackData

  datatype TechniqueInfo = TechniqueInfo(name: string, tactics: seq<string>)

  type Index = map<string, TechniqueInfo>

  const AttackPattern := "attack-pattern"

  /** "Unknown" has three roles: the tactic of a technique without an ATT&CK
      kill-chain phase, the bucket of a layer entry whose technique is not in
      the index, and the technique name shown in that entry's row. */
  const UnknownTactic := "Unknown"

  /** Reference `i` is the last ATT&CK reference in `refs` with the prefix. */
  predicate LastAttackRef(refs: seq<ExternalReference>, prefix: char, i: int)
  {
    0 <= i < |refs| && IsAttackId(refs[i], prefix)
    && forall j :: i < j < |refs| ==> !IsAttackId(refs[j], prefix)
  }

  /** The id of the LAST reference in `refs` that is an ATT&CK id with the
      given prefix: the scan overwrites its candidate on every match. */
  function LastAttackId(refs: seq<ExternalReference>, prefix: char): (r: Option<string>)
    ensures r.None? <==> forall i :: 0 <= i < |refs| ==> !IsAttackId(refs[i], prefix)
    ensures r.Some? ==> exists i :: 0 <= i < |refs| && LastAttackRef(refs, prefix, i) && refs[i].externalId == r.value
  {
    if refs == [] then None
    else if IsAttackId(refs[|refs| - 1], prefix) then
      assert LastAttackRef(refs, prefix, |refs| - 1);
      Some(refs[|refs| - 1].externalId)
    else
      var init := refs[..|refs| - 1];
      var r := LastAttackId(init, prefix);
      assert forall i :: 0 <= i < |init| ==> init[i] == refs[i];
      assert r.Some? ==> exists i :: 0 <= i < |refs| && LastAttackRef(refs, prefix, i) && refs[i].externalId == r.value by {
        if r.Some? {
          var i :| 0 <= i < |init| && LastAttackRef(init, prefix, i) && init[i].externalId == r.value;
          assert LastAttackRef(refs, prefix, i);
        }
      }
      r
  }

  /** The index key an object contributes, if any. */
  function TechniqueIdOf(obj: StixObject): (r: Option<string>)
    ensures r.Some? ==> obj.objectType == AttackPattern && StartsWith(r.value, 'T')
  {
    if obj.objectType == AttackPattern then LastAttackId(obj.externalReferences, 'T') else None
  }

  /** The title-cased names of the ATT&CK kill-chain phases, in phase order. */
  function MitreTactics(phases: seq<KillChainPhase>): seq<string>
  {
    if phases == [] then []
    else
      var last := phases[|phases| - 1];
      MitreTactics(phases[..|phases| - 1])
        + (if last.killChainName == MitreAttack then [Title(last.phaseName)] else [])
  }

  /** A tactic is in MitreTactics exactly when some ATT&CK phase title-cases to it. */
  lemma {:induction false} MitreTacticsMembers(phases: seq<KillChainPhase>, t: string)
    ensures t in MitreTactics(phases) <==>
      exists i :: 0 <= i < |phases| && phases[i].killChainName == MitreAttack && Title(phases[i].phaseName) == t
  {
    if phases != [] {
      var init := phases[..|phases| - 1];
      MitreTacticsMembers(init, t);
      assert forall i :: 0 <= i < |init| ==> init[i] == phases[i];
    }
  }

  /** The phase list is read in order: MitreTactics distributes over concatenation. */
  lemma {:induction false} MitreTacticsConcat(ps: seq<KillChainPhase>, qs: seq<KillChainPhase>)
    ensures MitreTactics(ps + qs) == MitreTactics(ps) + MitreTactics(qs)
  {
    if qs == [] {
      assert ps + qs == ps;
    } else {
      var qs' := qs[..|qs| - 1];
      assert (ps + qs)[..|ps + qs| - 1] == ps + qs';
      MitreTacticsConcat(ps, qs');
    }
  }

  function TacticsOf(phases: seq<KillChainPhase>): (r: seq<string>)
    ensures |r| > 0
    ensures forall t :: t in r ==> Title(t) == t
    ensures MitreTactics(phases) == [] ==> r == [UnknownTactic]
    ensures MitreTactics(phases) != [] ==> r == MitreTactics(phases)
  {
    var ts := MitreTactics(phases);
    forall t | t in ts ensures Title(t) == t {
      MitreTacticsMembers(phases, t);
      var i :| 0 <= i < |phases| && phases[i].killChainName == MitreAttack && Title(phases[i].phaseName) == t;
      TitleIdempotent(phases[i].phaseName);
    }
    UnknownIsTitled();
    if ts == [] then [UnknownTactic] else ts
  }

  lemma UnknownIsTitled()
    ensures Title(UnknownTactic) == UnknownTactic
  {
    var u := UnknownTactic;
    forall i | 0 <= i < |u| ensures Title(u)[i] == u[i] {
      TitleAt(u, i);
    }
  }

  function InfoOf(obj: StixObject): TechniqueInfo
  {
    TechniqueInfo(obj.name, TacticsOf(obj.killChainPhases))
  }

  /** The index built from `objs`: each qualifying object, in order, writes
      its entry over whatever an earlier object wrote under the same id. */
  function IndexOf(objs: seq<StixObject>): Index
  {
    if objs == [] then map[]
    else
      var m := IndexOf(objs[..|objs| - 1]);
      var obj := objs[|objs| - 1];
      match TechniqueIdOf(obj)
      case Some(id) => m[id := InfoOf(obj)]
      case None => m
  }

  /** Every key is a technique id, and every technique has at least one
      tactic, each one title-cased. */
  lemma {:induction false} IndexWellFormed(objs: seq<StixObject>)
    ensures forall k :: k in IndexOf(objs) ==> StartsWith(k, 'T')
    ensures forall k :: k in IndexOf(objs) ==>
      |IndexOf(objs)[k].tactics| > 0 && forall t :: t in IndexOf(objs)[k].tactics ==> Title(t) == t
  {
    if objs != [] {
      IndexWellFormed(objs[..|objs| - 1]);
    }
  }

  /** The keys of the index are exactly the ids of the qualifying objects. */
  lemma {:induction false} IndexKeys(objs: seq<StixObject>, k: string)
    ensures k in IndexOf(objs) <==> exists i :: 0 <= i < |objs| && TechniqueIdOf(objs[i]) == Some(k)
  {
    if objs != [] {
      var n := |objs| - 1;
      var init := objs[..n];
      assert k in IndexOf(objs) <==> k in IndexOf(init) || TechniqueIdOf(objs[n]) == Some(k);
      assert (exists i :: 0 <= i < |init| && TechniqueIdOf(init[i]) == Some(k)) <==> k in IndexOf(init) by {
        IndexKeys(init, k);
      }
      assert forall i :: 0 <= i < n ==> init[i] == objs[i];
    }
  }

  /** Object `i` is the last one in `objs` whose id is `k`. */
  predicate LastWithId(objs: seq<StixObject>, k: string, i: int)
  {
    0 <= i < |objs| && TechniqueIdOf(objs[i]) == Some(k)
    && forall j :: i < j < |objs| ==> TechniqueIdOf(objs[j]) != Some(k)
  }

  /** An object that is last with its id stays last when an object with
      another id is appended. */
  lemma LastWithIdExtend(objs: seq<StixObject>, k: string, i: int)
    requires objs != [] && LastWithId(objs[..|objs| - 1], k, i)
    requires TechniqueIdOf(objs[|objs| - 1]) != Some(k)
    ensures LastWithId(objs, k, i) && objs[i] == objs[..|objs| - 1][i]
  {
    var init := objs[..|objs| - 1];
    forall j | i < j < |objs| ensures TechniqueIdOf(objs[j]) != Some(k) {
      if j < |init| {
        assert objs[j] == init[j];
      }
    }
  }

  /** Each key holds the entry of the LAST object with that id: a later
      object with the same id overwrites an earlier one. */
  lemma {:induction false} IndexLastWins(objs: seq<StixObject>, k: string)
    requires k in IndexOf(objs)
    ensures exists i :: LastWithId(objs, k, i) && IndexOf(objs)[k] == InfoOf(objs[i])
  {
    var n := |objs| - 1;
    var init := objs[..n];
    if TechniqueIdOf(objs[n]) == Some(k) {
      assert LastWithId(objs, k, n) && IndexOf(objs)[k] == InfoOf(objs[n]);
    } else {
      assert k in IndexOf(init) && IndexOf(objs)[k] == IndexOf(init)[k];
      IndexLastWins(init, k);
      var i :| LastWithId(init, k, i) && IndexOf(init)[k] == InfoOf(init[i]);
      LastWithIdExtend(objs, k, i);
    }
  }

  /** build_technique_tactic_map: fills `mapping` object by object; for each
      attack-pattern the inner scan overwrites `techId` on every qualifying
      reference, so the last one wins. */
  method BuildTechniqueTacticMap(objects: seq<StixObject>) returns (mapping: Index)
    ensures mapping == IndexOf(objects)
  {
    mapping := map[];
    for n := 0 to |objects|
      invariant mapping == IndexOf(objects[..n])
    {
      var obj := objects[n];
      ghost var next := IndexOf(objects[..n + 1]);
      assert next == if TechniqueIdOf(obj).Some? then mapping[TechniqueIdOf(obj).value := InfoOf(obj)] else mapping by {
        assert objects[..n + 1][..n] == objects[..n];
      }
      if obj.objectType == AttackPattern {
        var refs := obj.externalReferences;
        var techId: Option<string> := None;
        for r := 0 to |refs|
          invariant techId == LastAttackId(refs[..r], 'T')
        {
          assert refs[..r + 1][..r] == refs[..r];
          if IsAttackId(refs[r], 'T') {
            techId := Some(refs[r].externalId);
          }
        }
        assert techId == TechniqueIdOf(obj) by {
          assert refs[..|refs|] == refs;
        }
        if techId.None? {
          continue;
        }
        var tactics := MitreTactics(obj.killChainPhases);
        mapping := mapping[techId.value := TechniqueInfo(obj.name, if tactics == [] then [UnknownTactic] else tactics)];
      }
    }
    assert objects[..|objects|] == objects;
  }
}
