/** Worked examples on small concrete bundles and layers. */
module Examples {
  import opened Options
  import opened Strings
  import opened AttackData
  import opened TechniqueIndex
  import opened GroupResolver
  import opened TacticReport

  const Fin10 := StixObject("intrusion-set", "FIN10", [ExternalReference(MitreAttack, "G0051")], [], ["FIN10"])

  /** "fin10" and "FIN10" both resolve to G0051. */
  lemma Fin10Resolves()
    ensures GetGroupId("fin10", [Fin10]) == Some("G0051")
    ensures GetGroupId("FIN10", [Fin10]) == Some("G0051")
  {
    assert Lower("FIN10") == "fin10";
    assert Lower("fin10") == "fin10";
    assert HasAlias("fin10", Fin10.aliases) by {
      assert Fin10.aliases[0] == "FIN10";
    }
  }

  const Execution := "Execution"
  const Persistence := "Persistence"

  const SampleIndex: Index := map["T1059" := TechniqueInfo("Command and Scripting Interpreter", [Execution, Persistence])]

  /** One known technique with two tactics, one technique absent from the index. */
  const SampleLayer := Layer("FIN10", [LayerEntry("T1059", " uses cmd "), LayerEntry("T0000", "")])

  const KnownRow := Row("T1059", "Command and Scripting Interpreter", "uses cmd")
  const UnknownRow := Row("T0000", UnknownTactic, "")

  lemma SampleStrips()
    ensures Strip(" uses cmd ") == "uses cmd"
    ensures Strip("") == ""
  {
  }

  /** Under any filter, the known entry contributes its passing tactics and
      the unknown one a single Unknown row. */
  lemma SampleLayerPlacements(filter: string)
    ensures Placements(SampleLayer.techniques, SampleIndex, filter)
         == TacticPlacements([Execution, Persistence], KnownRow, filter) + [Placement(UnknownTactic, UnknownRow)]
  {
    var es := SampleLayer.techniques;
    SampleStrips();
    assert EntryPlacements(es[0], SampleIndex, filter) == TacticPlacements([Execution, Persistence], KnownRow, filter);
    assert EntryPlacements(es[1], SampleIndex, filter) == [Placement(UnknownTactic, UnknownRow)];
    assert es[..1] == [es[0]] && [es[0]][..0] == [];
    assert Placements(es[..1], SampleIndex, filter) == [] + EntryPlacements(es[0], SampleIndex, filter);
  }

  lemma SampleTactics()
    ensures TacticPlacements([Execution, Persistence], KnownRow, "")
         == [Placement(Execution, KnownRow), Placement(Persistence, KnownRow)]
    ensures TacticPlacements([Execution, Persistence], KnownRow, "execution") == [Placement(Execution, KnownRow)]
  {
    var ts := [Execution, Persistence];
    assert ts[..1] == [Execution] && [Execution][..0] == [];
    assert Lower("execution") == Lower(Execution) == "execution";
    assert Lower(Persistence) == "persistence";
    assert TacticPlacements([Execution], KnownRow, "") == [] + [Placement(Execution, KnownRow)];
    assert TacticPlacements([Execution], KnownRow, "execution") == [] + [Placement(Execution, KnownRow)];
    assert TacticPlacements(ts, KnownRow, "execution") == TacticPlacements([Execution], KnownRow, "execution") + [];
  }

  lemma SamplePlacements()
    ensures Placements(SampleLayer.techniques, SampleIndex, "")
         == [Placement(Execution, KnownRow), Placement(Persistence, KnownRow), Placement(UnknownTactic, UnknownRow)]
  {
    SampleLayerPlacements("");
    SampleTactics();
  }

  /** With the filter "execution" the Persistence row is dropped, but the
      entry whose technique is not in the index still goes to Unknown. */
  lemma SampleFilteredPlacements()
    ensures Placements(SampleLayer.techniques, SampleIndex, "execution")
         == [Placement(Execution, KnownRow), Placement(UnknownTactic, UnknownRow)]
  {
    SampleLayerPlacements("execution");
    SampleTactics();
  }

  const SampleRows := [Placement(Execution, KnownRow), Placement(Persistence, KnownRow), Placement(UnknownTactic, UnknownRow)]
  const FilteredRows := [Placement(Execution, KnownRow), Placement(UnknownTactic, UnknownRow)]

  lemma SampleGroups()
    ensures Group(SampleRows) == SampleGrouping
    ensures Group(FilteredRows) == FilteredGrouping
  {
    var ps := SampleRows;
    AppendGroup([], ps[0]);
    AppendGroup([ps[0]], ps[1]);
    AppendGroup([ps[0], ps[1]], ps[2]);
    assert [ps[0], ps[1]] + [ps[2]] == ps;
    AppendGroup([ps[0]], ps[2]);
    assert [ps[0]] + [ps[2]] == FilteredRows;
  }

  const KnownShown := ShownRow("T1059", "Command and Scripting Interpreter", Some("uses cmd"))
  const UnknownShown := ShownRow("T0000", UnknownTactic, None)

  const SampleGrouping := Grouping([Execution, Persistence, UnknownTactic],
    map[Execution := [KnownRow], Persistence := [KnownRow], UnknownTactic := [UnknownRow]])
  const FilteredGrouping := Grouping([Execution, UnknownTactic], map[Execution := [KnownRow], UnknownTactic := [UnknownRow]])

  lemma SampleShown()
    ensures ShowAll([KnownRow]) == [KnownShown]
    ensures ShowAll([UnknownRow]) == [UnknownShown]
  {
    assert Show(KnownRow) == KnownShown;
    assert Show(UnknownRow) == UnknownShown;
  }

  // General helpers for the sample reports below. They hold for any tactics
  // and rows, and exist only to keep the two sample proofs small.

  lemma SectionsOfThree(a: string, b: string, c: string, ra: seq<Row>, rb: seq<Row>, rc: seq<Row>)
    requires a != b && b != c && a != c
    ensures SectionsOf([a, b, c], map[a := ra, b := rb, c := rc])
         == [Section(a, ShowAll(ra)), Section(b, ShowAll(rb)), Section(c, ShowAll(rc))]
  {
  }

  lemma SectionsOfTwo(a: string, b: string, ra: seq<Row>, rb: seq<Row>)
    requires a != b
    ensures SectionsOf([a, b], map[a := ra, b := rb]) == [Section(a, ShowAll(ra)), Section(b, ShowAll(rb))]
  {
  }

  lemma ThreeValid(a: string, b: string, c: string, ra: seq<Row>, rb: seq<Row>, rc: seq<Row>)
    requires Less(a, b) && Less(b, c)
    ensures a != b && b != c && a != c
    ensures Grouping([a, b, c], map[a := ra, b := rb, c := rc]).Valid()
    ensures StrictlySorted([a, b, c])
  {
    LessTransitive(a, b, c);
    LessIrreflexive(a);
    LessIrreflexive(b);
  }

  /** Three buckets first seen in sorted order give three sections in that order. */
  lemma ThreeSections(name: string, a: string, b: string, c: string, ra: seq<Row>, rb: seq<Row>, rc: seq<Row>)
    requires Less(a, b) && Less(b, c)
    ensures Grouping([a, b, c], map[a := ra, b := rb, c := rc]).Valid()
    ensures MakeReport(name, Grouping([a, b, c], map[a := ra, b := rb, c := rc]))
         == Sections(name, [Section(a, ShowAll(ra)), Section(b, ShowAll(rb)), Section(c, ShowAll(rc))])
  {
    var g := Grouping([a, b, c], map[a := ra, b := rb, c := rc]);
    ThreeValid(a, b, c, ra, rb, rc);
    assert a in g.buckets;
    SortedOrderReport(name, g);
    SectionsOfThree(a, b, c, ra, rb, rc);
  }

  /** Two buckets first seen in sorted order give two sections in that order. */
  lemma TwoSections(name: string, a: string, b: string, ra: seq<Row>, rb: seq<Row>)
    requires Less(a, b)
    ensures Grouping([a, b], map[a := ra, b := rb]).Valid()
    ensures MakeReport(name, Grouping([a, b], map[a := ra, b := rb]))
         == Sections(name, [Section(a, ShowAll(ra)), Section(b, ShowAll(rb))])
  {
    LessIrreflexive(a);
    var g := Grouping([a, b], map[a := ra, b := rb]);
    assert g.Valid() && a in g.buckets;
    SortedOrderReport(name, g);
    SectionsOfTwo(a, b, ra, rb);
  }

  lemma SampleMakeReport()
    ensures MakeReport("FIN10", SampleGrouping) == Sections("FIN10", [
      Section(Execution, [KnownShown]), Section(Persistence, [KnownShown]), Section(UnknownTactic, [UnknownShown])])
  {
    assert Less(Execution, Persistence) && Less(Persistence, UnknownTactic);
    ThreeSections("FIN10", Execution, Persistence, UnknownTactic, [KnownRow], [KnownRow], [UnknownRow]);
    SampleShown();
  }

  lemma FilteredMakeReport()
    ensures MakeReport("FIN10", FilteredGrouping) == Sections("FIN10", [
      Section(Execution, [KnownShown]), Section(UnknownTactic, [UnknownShown])])
  {
    assert Less(Execution, UnknownTactic);
    TwoSections("FIN10", Execution, UnknownTactic, [KnownRow], [UnknownRow]);
    SampleShown();
  }

  /** Without a filter: three rows, under Execution, Persistence and Unknown. */
  lemma SampleReport()
    ensures ReportOf(SampleLayer, SampleIndex, "") == Sections("FIN10", [
      Section(Execution, [KnownShown]), Section(Persistence, [KnownShown]), Section(UnknownTactic, [UnknownShown])])
  {
    SamplePlacements();
    SampleGroups();
    SampleMakeReport();
  }

  /** With the filter "execution": two sections, Execution and Unknown. */
  lemma SampleFilteredReport()
    ensures ReportOf(SampleLayer, SampleIndex, "execution") == Sections("FIN10", [
      Section(Execution, [KnownShown]), Section(UnknownTactic, [UnknownShown])])
  {
    SampleFilteredPlacements();
    SampleGroups();
    FilteredMakeReport();
  }
}
