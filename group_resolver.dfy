/** Alias resolution: get_group_id, which finds the ATT&CK group id of a
    threat-actor name among the bundle's intrusion sets. */
module GroupResolver {
  import opened Options
  import opened Strings
  import opened AttackData

  const IntrusionSet := "intrusion-set"

  /** Reference `i` is the first ATT&CK reference in `refs` with the prefix. */
  predicate FirstAttackRef(refs: seq<ExternalReference>, prefix: char, i: int)
  {
    0 <= i < |refs| && IsAttackId(refs[i], prefix)
    && forall j :: 0 <= j < i ==> !IsAttackId(refs[j], prefix)
  }

  /** The id of the FIRST reference in `refs` that is an ATT&CK id with the
      given prefix: the scan returns as soon as it finds one. */
  function FirstAttackId(refs: seq<ExternalReference>, prefix: char): (r: Option<string>)
    ensures r.None? <==> forall i :: 0 <= i < |refs| ==> !IsAttackId(refs[i], prefix)
    ensures r.Some? ==> exists i :: 0 <= i < |refs| && FirstAttackRef(refs, prefix, i) && refs[i].externalId == r.value
  {
    if refs == [] then None
    else if IsAttackId(refs[0], prefix) then
      assert FirstAttackRef(refs, prefix, 0);
      Some(refs[0].externalId)
    else
      var rest := refs[1..];
      var r := FirstAttackId(rest, prefix);
      assert forall i :: 0 < i < |refs| ==> refs[i] == rest[i - 1];
      assert r.Some? ==> exists i :: 0 <= i < |refs| && FirstAttackRef(refs, prefix, i) && refs[i].externalId == r.value by {
        if r.Some? {
          var i :| 0 <= i < |rest| && FirstAttackRef(rest, prefix, i) && rest[i].externalId == r.value;
          assert FirstAttackRef(refs, prefix, i + 1);
        }
      }
      r
  }

  /** Some alias, lowered, equals the already lowered name. */
  predicate HasAlias(loweredName: string, aliases: seq<string>)
  {
    exists a :: a in aliases && Lower(a) == loweredName
  }

  /** The group id an object yields for the lowered name: the first "G"
      reference of an intrusion set with a matching alias. */
  function GroupRefOf(loweredName: string, obj: StixObject): Option<string>
  {
    if obj.objectType == IntrusionSet && HasAlias(loweredName, obj.aliases)
    then FirstAttackId(obj.externalReferences, 'G')
    else None
  }

  /** The search over the objects, in bundle order. An intrusion set whose
      alias matches but that has no "G" reference does not stop it. */
  function FindGroup(loweredName: string, objs: seq<StixObject>): (r: Option<string>)
    ensures r.Some? ==> StartsWith(r.value, 'G')
  {
    if objs == [] then None
    else match GroupRefOf(loweredName, objs[0])
      case Some(g) => Some(g)
      case None => FindGroup(loweredName, objs[1..])
  }

  /** get_group_id. */
  function GetGroupId(threatName: string, objs: seq<StixObject>): Option<string>
  {
    FindGroup(Lower(threatName), objs)
  }

  /** Object `i` is the first one that yields a group id for the name. */
  predicate FirstYielding(loweredName: string, objs: seq<StixObject>, i: int)
  {
    0 <= i < |objs| && GroupRefOf(loweredName, objs[i]).Some?
    && forall j :: 0 <= j < i ==> GroupRefOf(loweredName, objs[j]).None?
  }

  /** get_group_id answers None exactly when no object yields an id, and
      otherwise the id of the first object that does. */
  lemma {:induction false} GroupIdFirstWins(threatName: string, objs: seq<StixObject>)
    ensures GetGroupId(threatName, objs).None? <==>
      forall i :: 0 <= i < |objs| ==> GroupRefOf(Lower(threatName), objs[i]).None?
    ensures GetGroupId(threatName, objs).Some? ==>
      exists i :: FirstYielding(Lower(threatName), objs, i)
        && GroupRefOf(Lower(threatName), objs[i]) == GetGroupId(threatName, objs)
  {
    FindGroupFirstWins(Lower(threatName), objs);
  }

  lemma {:induction false} FindGroupFirstWins(name: string, objs: seq<StixObject>)
    ensures FindGroup(name, objs).None? <==> forall i :: 0 <= i < |objs| ==> GroupRefOf(name, objs[i]).None?
    ensures FindGroup(name, objs).Some? ==>
      exists i :: FirstYielding(name, objs, i) && GroupRefOf(name, objs[i]) == FindGroup(name, objs)
  {
    if objs != [] {
      var rest := objs[1..];
      if GroupRefOf(name, objs[0]).Some? {
        assert FirstYielding(name, objs, 0);
      } else {
        FindGroupFirstWins(name, rest);
        assert forall i :: 0 < i < |objs| ==> objs[i] == rest[i - 1];
        if FindGroup(name, rest).Some? {
          var i :| FirstYielding(name, rest, i) && GroupRefOf(name, rest[i]) == FindGroup(name, rest);
          assert FirstYielding(name, objs, i + 1);
        }
      }
    }
  }

  /** Names that differ only in letter case resolve to the same group. */
  lemma GroupIdCaseInsensitive(a: string, b: string, objs: seq<StixObject>)
    requires Lower(a) == Lower(b)
    ensures GetGroupId(a, objs) == GetGroupId(b, objs)
  {
  }

  /** In particular, lowering or upper-casing the name changes nothing. */
  lemma GroupIdIgnoresCase(name: string, objs: seq<StixObject>)
    ensures GetGroupId(Lower(name), objs) == GetGroupId(name, objs)
    ensures GetGroupId(Upper(name), objs) == GetGroupId(name, objs)
  {
    LowerForgetsCase(name);
  }
}
