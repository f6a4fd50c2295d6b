/** main: resolve the actor, show the Navigator link, fetch the layer and
    report its techniques by tactic. Console input arrives as the raw strings
    `rawActor` and `rawFilter`; the two HTTP fetches are the already fetched
    bundle objects and `fetchLayer`, which answers None for a non-200 reply. */
module Navigator {
  import opened Options
  import opened Strings
  import opened AttackData
  import opened TechniqueIndex
  import opened GroupResolver
  import opened LayerUrls
  import opened TacticReport

  datatype Outcome =
    | GroupNotFound
    | LayerNotFound(groupId: string, link: string)
    | Reported(groupId: string, link: string, report: Report)

  method Run(rawActor: string, objects: seq<StixObject>, fetchLayer: string -> Option<Layer>, rawFilter: string)
    returns (out: Outcome)
    ensures out.GroupNotFound? <==> GetGroupId(Strip(rawActor), objects).None?
    ensures !out.GroupNotFound? ==>
      out.groupId == GetGroupId(Strip(rawActor), objects).value
      && StartsWith(out.groupId, 'G')
      && out.link == NavigatorPrefix + LayerUrl(out.groupId)
    ensures out.LayerNotFound? <==>
      GetGroupId(Strip(rawActor), objects).Some?
      && fetchLayer(LayerUrl(GetGroupId(Strip(rawActor), objects).value)).None?
    ensures out.Reported? ==>
      fetchLayer(LayerUrl(out.groupId)).Some?
      && out.report == ReportOf(fetchLayer(LayerUrl(out.groupId)).value, IndexOf(objects), Strip(rawFilter))
  {
    var threatActor := Strip(rawActor);
    var techniqueMap := BuildTechniqueTacticMap(objects);
    var groupId := GetGroupId(threatActor, objects);
    if groupId.None? {
      return GroupNotFound;
    }
    var link := NavigatorLink(groupId.value);
    var layer := fetchLayer(LayerUrl(groupId.value));
    if layer.None? {
      return LayerNotFound(groupId.value, link);
    }
    var filter := Strip(rawFilter);
    var report := TechniquesByTactic(layer.value, techniqueMap, filter);
    return Reported(groupId.value, link, report);
  }
}
