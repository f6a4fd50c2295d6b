/** The data part of print_techniques_by_tactic: layer entries are placed in
    per-tactic buckets (a defaultdict(list)), optionally filtered by tactic,
    and the buckets are reported in sorted tactic order. */
module TacticReport {
  import opened Options
  import opened Strings
  import opened AttackData
  import opened TechniqueIndex

  /** A bucket row: technique id, technique name, stripped comment. */
  datatype Row = Row(techniqueId: string, name: string, comment: string)

  /** One `tactic_buckets[tactic].append(row)` of the bucketing loop. */
  datatype Placement = Placement(tactic: string, row: Row)

  /** A tactic survives the filter when there is no filter (the empty
      string) or when it equals the filter up to letter case. */
  predicate PassesFilter(filter: string, tactic: string)
  {
    filter == "" || Lower(filter) == Lower(tactic)
  }

  // ---------------------------------------------------------------------
  // What the bucketing loop appends, in order

  /** The appends of the inner loop for one known technique. */
  function TacticPlacements(tactics: seq<string>, row: Row, filter: string): seq<Placement>
  {
    if tactics == [] then []
    else
      var t := tactics[|tactics| - 1];
      TacticPlacements(tactics[..|tactics| - 1], row, filter)
        + (if PassesFilter(filter, t) then [Placement(t, row)] else [])
  }

  /** The appends for one layer entry. An entry whose technique is not in the
      index goes to the Unknown bucket before the filter is ever consulted. */
  function EntryPlacements(e: LayerEntry, index: Index, filter: string): seq<Placement>
  {
    var comment := Strip(e.comment);
    if e.techniqueId !in index then
      [Placement(UnknownTactic, Row(e.techniqueId, UnknownTactic, comment))]
    else
      var info := index[e.techniqueId];
      TacticPlacements(info.tactics, Row(e.techniqueId, info.name, comment), filter)
  }

  /** All appends for the layer's entries, in layer order. */
  function Placements(entries: seq<LayerEntry>, index: Index, filter: string): seq<Placement>
  {
    if entries == [] then []
    else Placements(entries[..|entries| - 1], index, filter)
         + EntryPlacements(entries[|entries| - 1], index, filter)
  }

  /** The reference description of one entry's effect: entry `e` puts `row`
      into the bucket of `tactic`. */
  predicate Contributes(e: LayerEntry, index: Index, filter: string, tactic: string, row: Row)
  {
    if e.techniqueId !in index then
      tactic == UnknownTactic && row == Row(e.techniqueId, UnknownTactic, Strip(e.comment))
    else
      tactic in index[e.techniqueId].tactics && PassesFilter(filter, tactic)
      && row == Row(e.techniqueId, index[e.techniqueId].name, Strip(e.comment))
  }

  lemma {:induction false} TacticPlacementsMembers(tactics: seq<string>, row: Row, filter: string, p: Placement)
    ensures p in TacticPlacements(tactics, row, filter) <==>
      p.tactic in tactics && PassesFilter(filter, p.tactic) && p.row == row
  {
    if tactics != [] {
      var init := tactics[..|tactics| - 1];
      TacticPlacementsMembers(init, row, filter, p);
      assert tactics == init + [tactics[|tactics| - 1]];
    }
  }

  lemma EntryPlacementsMembers(e: LayerEntry, index: Index, filter: string, p: Placement)
    ensures p in EntryPlacements(e, index, filter) <==> Contributes(e, index, filter, p.tactic, p.row)
  {
    if e.techniqueId in index {
      var info := index[e.techniqueId];
      TacticPlacementsMembers(info.tactics, Row(e.techniqueId, info.name, Strip(e.comment)), filter, p);
    }
  }

  /** The appends made are exactly the contributions of the layer's entries. */
  lemma {:induction false} PlacementsMembers(entries: seq<LayerEntry>, index: Index, filter: string, p: Placement)
    ensures p in Placements(entries, index, filter) <==>
      exists i :: 0 <= i < |entries| && Contributes(entries[i], index, filter, p.tactic, p.row)
  {
    if entries != [] {
      var n := |entries| - 1;
      var init := entries[..n];
      assert Placements(entries, index, filter)
          == Placements(init, index, filter) + EntryPlacements(entries[n], index, filter);
      PlacementsMembers(init, index, filter, p);
      EntryPlacementsMembers(entries[n], index, filter, p);
      assert forall i :: 0 <= i < n ==> init[i] == entries[i];
      if exists i :: 0 <= i < |entries| && Contributes(entries[i], index, filter, p.tactic, p.row) {
        var i :| 0 <= i < |entries| && Contributes(entries[i], index, filter, p.tactic, p.row);
        if i < n {
          assert Contributes(init[i], index, filter, p.tactic, p.row);
        }
      }
    }
  }

  /** Entries are processed in layer order. */
  lemma {:induction false} PlacementsConcat(es: seq<LayerEntry>, fs: seq<LayerEntry>, index: Index, filter: string)
    ensures Placements(es + fs, index, filter) == Placements(es, index, filter) + Placements(fs, index, filter)
  {
    if fs == [] {
      assert es + fs == es;
    } else {
      var fs' := fs[..|fs| - 1];
      var last := fs[|fs| - 1];
      assert (es + fs)[..|es + fs| - 1] == es + fs' && (es + fs)[|es + fs| - 1] == last;
      assert Placements(es + fs, index, filter)
          == Placements(es + fs', index, filter) + EntryPlacements(last, index, filter);
      PlacementsConcat(es, fs', index, filter);
      assert Placements(fs, index, filter) == Placements(fs', index, filter) + EntryPlacements(last, index, filter);
    }
  }

  // ---------------------------------------------------------------------
  // Row counts

  /** The number of tactics in `tactics` that survive the filter. */
  function CountPassing(tactics: seq<string>, filter: string): nat
  {
    if tactics == [] then 0
    else (if PassesFilter(filter, tactics[0]) then 1 else 0) + CountPassing(tactics[1..], filter)
  }

  /** One row for an unknown technique; one per surviving tactic otherwise. */
  function EntryRowCount(e: LayerEntry, index: Index, filter: string): nat
  {
    if e.techniqueId !in index then 1 else CountPassing(index[e.techniqueId].tactics, filter)
  }

  function RowCount(entries: seq<LayerEntry>, index: Index, filter: string): nat
  {
    if entries == [] then 0
    else RowCount(entries[..|entries| - 1], index, filter) + EntryRowCount(entries[|entries| - 1], index, filter)
  }

  lemma {:induction false} CountPassingSnoc(tactics: seq<string>, t: string, filter: string)
    ensures CountPassing(tactics + [t], filter) == CountPassing(tactics, filter) + (if PassesFilter(filter, t) then 1 else 0)
  {
    if tactics != [] {
      assert (tactics + [t])[1..] == tactics[1..] + [t];
      CountPassingSnoc(tactics[1..], t, filter);
    }
  }

  lemma {:induction false} TacticPlacementsCount(tactics: seq<string>, row: Row, filter: string)
    ensures |TacticPlacements(tactics, row, filter)| == CountPassing(tactics, filter)
  {
    if tactics != [] {
      var init := tactics[..|tactics| - 1];
      TacticPlacementsCount(init, row, filter);
      assert tactics == init + [tactics[|tactics| - 1]];
      CountPassingSnoc(init, tactics[|tactics| - 1], filter);
    }
  }

  /** The loop appends exactly RowCount rows. */
  lemma {:induction false} PlacementsCount(entries: seq<LayerEntry>, index: Index, filter: string)
    ensures |Placements(entries, index, filter)| == RowCount(entries, index, filter)
  {
    if entries != [] {
      var e := entries[|entries| - 1];
      PlacementsCount(entries[..|entries| - 1], index, filter);
      if e.techniqueId in index {
        var info := index[e.techniqueId];
        TacticPlacementsCount(info.tactics, Row(e.techniqueId, info.name, Strip(e.comment)), filter);
      }
    }
  }

  // ---------------------------------------------------------------------
  // The defaultdict(list) of buckets

  /** The buckets, with the order in which they were created (a dict keeps
      insertion order; the report sorts it away). */
  datatype Grouping = Grouping(order: seq<string>, buckets: map<string, seq<Row>>)
  {
    /** `order` names every bucket exactly once. */
    ghost predicate Valid()
    {
      Distinct(order) && forall t :: t in buckets <==> t in order
    }
  }

  const NoBuckets := Grouping([], map[])

  /** `tactic_buckets[p.tactic].append(p.row)`: creates the bucket on first use. */
  function Append(g: Grouping, p: Placement): Grouping
  {
    if p.tactic in g.buckets then Grouping(g.order, g.buckets[p.tactic := g.buckets[p.tactic] + [p.row]])
    else Grouping(g.order + [p.tactic], g.buckets[p.tactic := [p.row]])
  }

  /** The buckets after the appends `ps`, in order. */
  function Group(ps: seq<Placement>): Grouping
  {
    if ps == [] then NoBuckets else Append(Group(ps[..|ps| - 1]), ps[|ps| - 1])
  }

  lemma AppendGroup(ps: seq<Placement>, p: Placement)
    ensures Group(ps + [p]) == Append(Group(ps), p)
  {
    assert (ps + [p])[..|ps|] == ps;
  }

  /** The reference description of a bucket: the rows of the appends to
      `tactic`, in the order they were made. */
  function RowsFor(ps: seq<Placement>, tactic: string): seq<Row>
  {
    if ps == [] then []
    else RowsFor(ps[..|ps| - 1], tactic) + (if ps[|ps| - 1].tactic == tactic then [ps[|ps| - 1].row] else [])
  }

  /** A bucket exists exactly for the tactics that received a row and holds
      exactly those rows, in order. */
  lemma {:induction false} GroupMeaning(ps: seq<Placement>)
    ensures Group(ps).Valid()
    ensures forall t :: t in Group(ps).buckets <==> RowsFor(ps, t) != []
    ensures forall t :: t in Group(ps).buckets ==> Group(ps).buckets[t] == RowsFor(ps, t)
  {
    if ps != [] {
      var init := ps[..|ps| - 1];
      var p := ps[|ps| - 1];
      GroupMeaning(init);
      var g := Group(init);
      assert Group(ps) == Append(g, p);
      if p.tactic !in g.buckets {
        assert p.tactic !in g.order;
        assert Distinct(g.order + [p.tactic]);
      }
    }
  }

  lemma {:induction false} RowsForMembers(ps: seq<Placement>, tactic: string, row: Row)
    ensures row in RowsFor(ps, tactic) <==> Placement(tactic, row) in ps
  {
    if ps != [] {
      var init := ps[..|ps| - 1];
      RowsForMembers(init, tactic, row);
      assert ps == init + [ps[|ps| - 1]];
    }
  }

  lemma {:induction false} RowsForConcat(ps: seq<Placement>, qs: seq<Placement>, tactic: string)
    ensures RowsFor(ps + qs, tactic) == RowsFor(ps, tactic) + RowsFor(qs, tactic)
  {
    if qs == [] {
      assert ps + qs == ps;
    } else {
      var qs' := qs[..|qs| - 1];
      assert (ps + qs)[..|ps + qs| - 1] == ps + qs';
      RowsForConcat(ps, qs', tactic);
    }
  }

  /** Rows within a bucket keep layer order: the rows contributed by earlier
      entries come before those of later entries. */
  lemma BucketOrder(es: seq<LayerEntry>, fs: seq<LayerEntry>, index: Index, filter: string, tactic: string)
    ensures RowsFor(Placements(es + fs, index, filter), tactic)
         == RowsFor(Placements(es, index, filter), tactic) + RowsFor(Placements(fs, index, filter), tactic)
  {
    PlacementsConcat(es, fs, index, filter);
    RowsForConcat(Placements(es, index, filter), Placements(fs, index, filter), tactic);
  }

  /** One more entry of the layer: its appends follow those of the earlier entries. */
  lemma EntryStep(entries: seq<LayerEntry>, i: nat, index: Index, filter: string)
    requires i < |entries|
    ensures Placements(entries[..i + 1], index, filter)
         == Placements(entries[..i], index, filter) + EntryPlacements(entries[i], index, filter)
  {
    assert entries[..i + 1][..i] == entries[..i];
  }

  /** One more tactic of a known entry: appended when it passes the filter. */
  lemma TacticStep(before: seq<Placement>, tactics: seq<string>, j: nat, row: Row, filter: string)
    requires j < |tactics|
    ensures PassesFilter(filter, tactics[j]) ==>
      Group(before + TacticPlacements(tactics[..j + 1], row, filter))
      == Append(Group(before + TacticPlacements(tactics[..j], row, filter)), Placement(tactics[j], row))
    ensures !PassesFilter(filter, tactics[j]) ==>
      Group(before + TacticPlacements(tactics[..j + 1], row, filter))
      == Group(before + TacticPlacements(tactics[..j], row, filter))
  {
    var done := TacticPlacements(tactics[..j], row, filter);
    assert tactics[..j + 1][..j] == tactics[..j];
    var p := Placement(tactics[j], row);
    if PassesFilter(filter, tactics[j]) {
      assert before + (done + [p]) == (before + done) + [p];
      AppendGroup(before + done, p);
    } else {
      assert done + [] == done;
    }
  }

  /** The bucketing loop of print_techniques_by_tactic. */
  method BucketTechniques(layer: Layer, index: Index, filter: string) returns (g: Grouping)
    ensures g == Group(Placements(layer.techniques, index, filter))
  {
    var entries := layer.techniques;
    g := NoBuckets;
    for i := 0 to |entries|
      invariant g == Group(Placements(entries[..i], index, filter))
    {
      var entry := entries[i];
      var tid := entry.techniqueId;
      var comment := Strip(entry.comment);
      ghost var before := Placements(entries[..i], index, filter);
      ghost var after := Placements(entries[..i + 1], index, filter);
      assert after == before + EntryPlacements(entry, index, filter) by {
        EntryStep(entries, i, index, filter);
      }
      if tid !in index {
        var p := Placement(UnknownTactic, Row(tid, UnknownTactic, comment));
        assert Group(after) == Append(g, p) by {
          AppendGroup(before, p);
        }
        g := Append(g, p);
        continue;
      }
      var info := index[tid];
      var row := Row(tid, info.name, comment);
      assert g == Group(before + TacticPlacements(info.tactics[..0], row, filter)) by {
        assert info.tactics[..0] == [] && before + [] == before;
      }
      for j := 0 to |info.tactics|
        invariant g == Group(before + TacticPlacements(info.tactics[..j], row, filter))
      {
        var tactic := info.tactics[j];
        ghost var next := Group(before + TacticPlacements(info.tactics[..j + 1], row, filter));
        if filter != "" && Lower(filter) != Lower(tactic) {
          assert next == g by {
            TacticStep(before, info.tactics, j, row, filter);
          }
          continue;
        }
        assert next == Append(g, Placement(tactic, row)) by {
          TacticStep(before, info.tactics, j, row, filter);
        }
        g := Append(g, Placement(tactic, row));
      }
      assert Group(after) == g by {
        assert info.tactics[..|info.tactics|] == info.tactics;
      }
    }
    assert entries[..|entries|] == entries;
  }

  // ---------------------------------------------------------------------
  // The report

  /** A row as displayed: its comment is shown only when it is non-empty. */
  datatype ShownRow = ShownRow(techniqueId: string, name: string, note: Option<string>)

  datatype Section = Section(tactic: string, rows: seq<ShownRow>)

  /** "No techniques matched", or the layer's name and one section per bucket. */
  datatype Report = NoMatch | Sections(layerName: string, sections: seq<Section>)

  function Show(r: Row): (s: ShownRow)
    ensures s.techniqueId == r.techniqueId && s.name == r.name
    ensures s.note.Some? <==> r.comment != ""
    ensures s.note.Some? ==> s.note.value == r.comment
  {
    ShownRow(r.techniqueId, r.name, if r.comment == "" then None else Some(r.comment))
  }

  function ShowAll(rows: seq<Row>): seq<ShownRow>
  {
    seq(|rows|, k requires 0 <= k < |rows| => Show(rows[k]))
  }

  /** Nothing is lost in display: a row is shown exactly when it is in the bucket. */
  lemma ShowAllMembers(rows: seq<Row>, row: Row)
    ensures Show(row) in ShowAll(rows) <==> row in rows
  {
    if Show(row) in ShowAll(rows) {
      var k :| 0 <= k < |rows| && ShowAll(rows)[k] == Show(row);
      assert rows[k] == row;
    }
    if row in rows {
      var k :| 0 <= k < |rows| && rows[k] == row;
      assert ShowAll(rows)[k] == Show(row);
    }
  }

  /** One section per tactic, in the given order; what the sections mean is
      `SectionsMeaning`. */
  function SectionsOf(tactics: seq<string>, buckets: map<string, seq<Row>>): seq<Section>
    requires forall t :: t in tactics ==> t in buckets
  {
    seq(|tactics|, i requires 0 <= i < |tactics| => Section(tactics[i], ShowAll(buckets[tactics[i]])))
  }

  /** The sections list the buckets in the order of `tactics`, each once. */
  lemma SectionsMeaning(tactics: seq<string>, buckets: map<string, seq<Row>>)
    requires StrictlySorted(tactics) && forall t :: t in tactics <==> t in buckets
    ensures forall i, j :: 0 <= i < j < |SectionsOf(tactics, buckets)| ==>
      Less(SectionsOf(tactics, buckets)[i].tactic, SectionsOf(tactics, buckets)[j].tactic)
    ensures forall t :: t in buckets <==>
      exists i :: 0 <= i < |SectionsOf(tactics, buckets)| && SectionsOf(tactics, buckets)[i].tactic == t
    ensures forall i :: 0 <= i < |SectionsOf(tactics, buckets)| ==>
      SectionsOf(tactics, buckets)[i].tactic in buckets
      && SectionsOf(tactics, buckets)[i].rows == ShowAll(buckets[SectionsOf(tactics, buckets)[i].tactic])
  {
    var r := SectionsOf(tactics, buckets);
    forall t | t in buckets ensures exists i :: 0 <= i < |r| && r[i].tactic == t {
      var i :| 0 <= i < |tactics| && tactics[i] == t;
      assert r[i].tactic == t;
    }
  }

  /** The output step: no match when no bucket was created, else the buckets
      in sorted tactic order. */
  function MakeReport(layerName: string, g: Grouping): (r: Report)
    requires g.Valid()
    ensures r.NoMatch? <==> g.buckets == map[]
    ensures r.Sections? ==> r.layerName == layerName
    ensures r.Sections? ==>
      forall i, j :: 0 <= i < j < |r.sections| ==> Less(r.sections[i].tactic, r.sections[j].tactic)
    ensures r.Sections? ==>
      forall t :: t in g.buckets <==> exists i :: 0 <= i < |r.sections| && r.sections[i].tactic == t
    ensures r.Sections? ==>
      forall i :: 0 <= i < |r.sections| ==>
        r.sections[i].tactic in g.buckets && r.sections[i].rows == ShowAll(g.buckets[r.sections[i].tactic])
  {
    if g.buckets == map[] then NoMatch
    else
      var tactics := Sort(g.order);
      SortKeepsElements(g.order);
      var sections := SectionsOf(tactics, g.buckets);
      SectionsMeaning(tactics, g.buckets);
      Sections(layerName, sections)
  }

  /** When the buckets were first seen in sorted order, the report lists
      them in that order. */
  lemma SortedOrderReport(name: string, g: Grouping)
    requires g.Valid() && g.buckets != map[] && StrictlySorted(g.order)
    ensures MakeReport(name, g)
         == Sections(name, SectionsOf(g.order, g.buckets))
  {
    SortedUnique(Sort(g.order), g.order);
  }

  /** The report print_techniques_by_tactic renders for a layer. */
  function ReportOf(layer: Layer, index: Index, filter: string): Report
  {
    var ps := Placements(layer.techniques, index, filter);
    GroupMeaning(ps);
    MakeReport(layer.name, Group(ps))
  }

  /** print_techniques_by_tactic without the printing. */
  method TechniquesByTactic(layer: Layer, index: Index, filter: string) returns (report: Report)
    ensures report == ReportOf(layer, index, filter)
  {
    var g := BucketTechniques(layer, index, filter);
    GroupMeaning(Placements(layer.techniques, index, filter));
    report := MakeReport(layer.name, g);
  }

  // ---------------------------------------------------------------------
  // Properties of the report

  lemma GroupEmpty(ps: seq<Placement>)
    ensures Group(ps).buckets == map[] <==> ps == []
  {
    if ps != [] {
      var p := ps[|ps| - 1];
      GroupMeaning(ps);
      assert RowsFor(ps, p.tactic) != [];
      assert p.tactic in Group(ps).buckets;
    }
  }

  /** The report is "no match" exactly when every entry is a known technique
      none of whose tactics survives the filter. */
  lemma {:induction false} NoMatchExactly(layer: Layer, index: Index, filter: string)
    ensures ReportOf(layer, index, filter).NoMatch? <==>
      forall i :: 0 <= i < |layer.techniques| ==>
        layer.techniques[i].techniqueId in index
        && forall t :: t in index[layer.techniques[i].techniqueId].tactics ==> !PassesFilter(filter, t)
  {
    var es := layer.techniques;
    var ps := Placements(es, index, filter);
    GroupEmpty(ps);
    GroupMeaning(ps);
    if ps != [] {
      var p := ps[0];
      PlacementsMembers(es, index, filter, p);
      var i :| 0 <= i < |es| && Contributes(es[i], index, filter, p.tactic, p.row);
      assert !(es[i].techniqueId in index && forall t :: t in index[es[i].techniqueId].tactics ==> !PassesFilter(filter, t));
    } else {
      forall i | 0 <= i < |es|
        ensures es[i].techniqueId in index
        ensures forall t :: t in index[es[i].techniqueId].tactics ==> !PassesFilter(filter, t)
      {
        var e := es[i];
        if e.techniqueId !in index {
          PlacementsMembers(es, index, filter, Placement(UnknownTactic, Row(e.techniqueId, UnknownTactic, Strip(e.comment))));
        } else {
          forall t | t in index[e.techniqueId].tactics ensures !PassesFilter(filter, t) {
            PlacementsMembers(es, index, filter, Placement(t, Row(e.techniqueId, index[e.techniqueId].name, Strip(e.comment))));
          }
        }
      }
    }
  }

  /** An empty layer yields "no match", whatever the filter. */
  lemma EmptyLayerNoMatch(name: string, index: Index, filter: string)
    ensures ReportOf(Layer(name, []), index, filter) == NoMatch
  {
  }

  /** A row is displayed under `tactic` exactly when some layer entry
      contributes it to that tactic. */
  lemma ReportRows(layer: Layer, index: Index, filter: string, tactic: string, row: Row)
    ensures (exists i :: 0 <= i < |layer.techniques| && Contributes(layer.techniques[i], index, filter, tactic, row))
        <==> (ReportOf(layer, index, filter).Sections?
              && exists k :: 0 <= k < |ReportOf(layer, index, filter).sections|
                   && ReportOf(layer, index, filter).sections[k].tactic == tactic
                   && Show(row) in ReportOf(layer, index, filter).sections[k].rows)
  {
    var ps := Placements(layer.techniques, index, filter);
    var g := Group(ps);
    var r := ReportOf(layer, index, filter);
    GroupMeaning(ps);
    GroupEmpty(ps);
    PlacementsMembers(layer.techniques, index, filter, Placement(tactic, row));
    RowsForMembers(ps, tactic, row);
    if tactic in g.buckets {
      ShowAllMembers(g.buckets[tactic], row);
    }
    if r.Sections? {
      forall k | 0 <= k < |r.sections| && r.sections[k].tactic == tactic
        ensures Show(row) in r.sections[k].rows <==> row in g.buckets[tactic]
      {
      }
    }
  }

  /** An entry whose technique is not in the index is always listed in the
      Unknown section, even when a filter is active. */
  lemma UnknownEntryListed(layer: Layer, index: Index, filter: string, i: nat)
    requires i < |layer.techniques| && layer.techniques[i].techniqueId !in index
    ensures ReportOf(layer, index, filter).Sections?
    ensures exists k :: (0 <= k < |ReportOf(layer, index, filter).sections|
      && ReportOf(layer, index, filter).sections[k].tactic == UnknownTactic
      && Show(Row(layer.techniques[i].techniqueId, UnknownTactic, Strip(layer.techniques[i].comment)))
         in ReportOf(layer, index, filter).sections[k].rows)
  {
    var e := layer.techniques[i];
    var row := Row(e.techniqueId, UnknownTactic, Strip(e.comment));
    assert Contributes(e, index, filter, UnknownTactic, row);
    ReportRows(layer, index, filter, UnknownTactic, row);
  }

  /** Filters that differ only in letter case select the same tactics. */
  lemma {:induction false} TacticPlacementsFilterCase(tactics: seq<string>, row: Row, f1: string, f2: string)
    requires Lower(f1) == Lower(f2)
    ensures TacticPlacements(tactics, row, f1) == TacticPlacements(tactics, row, f2)
  {
    if tactics != [] {
      assert |f1| == |Lower(f1)| == |Lower(f2)| == |f2|;
      TacticPlacementsFilterCase(tactics[..|tactics| - 1], row, f1, f2);
    }
  }

  lemma {:induction false} PlacementsFilterCase(entries: seq<LayerEntry>, index: Index, f1: string, f2: string)
    requires Lower(f1) == Lower(f2)
    ensures Placements(entries, index, f1) == Placements(entries, index, f2)
  {
    if entries != [] {
      var e := entries[|entries| - 1];
      PlacementsFilterCase(entries[..|entries| - 1], index, f1, f2);
      if e.techniqueId in index {
        var info := index[e.techniqueId];
        TacticPlacementsFilterCase(info.tactics, Row(e.techniqueId, info.name, Strip(e.comment)), f1, f2);
      }
    }
  }

  /** The filter is case-insensitive: "execution", "EXECUTION" and
      "Execution" produce the same report. */
  lemma FilterIgnoresCase(layer: Layer, index: Index, f1: string, f2: string)
    requires Lower(f1) == Lower(f2)
    ensures ReportOf(layer, index, f1) == ReportOf(layer, index, f2)
  {
    PlacementsFilterCase(layer.techniques, index, f1, f2);
  }

  // ---------------------------------------------------------------------
  // Row totals

  function SectionRowTotal(sections: seq<Section>): nat
  {
    if sections == [] then 0 else |sections[0].rows| + SectionRowTotal(sections[1..])
  }

  /** The number of rows the buckets named in `tactics` hold. */
  function BucketRowTotal(ps: seq<Placement>, tactics: seq<string>): nat
  {
    if tactics == [] then 0 else |RowsFor(ps, tactics[0])| + BucketRowTotal(ps, tactics[1..])
  }

  function Occurrences(tactics: seq<string>, t: string): nat
  {
    if tactics == [] then 0 else (if tactics[0] == t then 1 else 0) + Occurrences(tactics[1..], t)
  }

  lemma {:induction false} BucketRowTotalEmpty(tactics: seq<string>)
    ensures BucketRowTotal([], tactics) == 0
  {
    if tactics != [] {
      BucketRowTotalEmpty(tactics[1..]);
    }
  }

  lemma {:induction false} BucketRowTotalSnoc(ps: seq<Placement>, p: Placement, tactics: seq<string>)
    ensures BucketRowTotal(ps + [p], tactics) == BucketRowTotal(ps, tactics) + Occurrences(tactics, p.tactic)
  {
    if tactics != [] {
      assert (ps + [p])[..|ps|] == ps;
      BucketRowTotalSnoc(ps, p, tactics[1..]);
    }
  }

  lemma {:induction false} OccursOnce(tactics: seq<string>, t: string)
    requires Distinct(tactics) && t in tactics
    ensures Occurrences(tactics, t) == 1
  {
    if tactics[0] == t {
      OccursNot(tactics[1..], t);
    } else {
      OccursOnce(tactics[1..], t);
    }
  }

  lemma {:induction false} OccursNot(tactics: seq<string>, t: string)
    requires t !in tactics
    ensures Occurrences(tactics, t) == 0
  {
    if tactics != [] {
      OccursNot(tactics[1..], t);
    }
  }

  /** Buckets named once each, covering every tactic appended to, hold every
      appended row exactly once. */
  lemma {:induction false} BucketRowTotalCovers(ps: seq<Placement>, tactics: seq<string>)
    requires Distinct(tactics)
    requires forall i :: 0 <= i < |ps| ==> ps[i].tactic in tactics
    ensures BucketRowTotal(ps, tactics) == |ps|
  {
    if ps == [] {
      BucketRowTotalEmpty(tactics);
    } else {
      var init := ps[..|ps| - 1];
      var p := ps[|ps| - 1];
      assert ps == init + [p];
      BucketRowTotalCovers(init, tactics);
      BucketRowTotalSnoc(init, p, tactics);
      OccursOnce(tactics, p.tactic);
    }
  }

  lemma {:induction false} SectionRowTotalIs(sections: seq<Section>, ps: seq<Placement>, tactics: seq<string>)
    requires |sections| == |tactics|
    requires forall k :: 0 <= k < |sections| ==> |sections[k].rows| == |RowsFor(ps, tactics[k])|
    ensures SectionRowTotal(sections) == BucketRowTotal(ps, tactics)
  {
    if sections != [] {
      SectionRowTotalIs(sections[1..], ps, tactics[1..]);
    }
  }

  /** The sections hold one row per surviving (entry, tactic) pair, plus one
      per unknown entry: RowCount in all. */
  lemma ReportRowTotal(layer: Layer, index: Index, filter: string)
    requires ReportOf(layer, index, filter).Sections?
    ensures SectionRowTotal(ReportOf(layer, index, filter).sections) == RowCount(layer.techniques, index, filter)
  {
    var ps := Placements(layer.techniques, index, filter);
    var g := Group(ps);
    var sections := ReportOf(layer, index, filter).sections;
    GroupMeaning(ps);
    var tactics := seq(|sections|, k requires 0 <= k < |sections| => sections[k].tactic);
    assert Distinct(tactics) by {
      forall i, j | 0 <= i < j < |tactics| ensures tactics[i] != tactics[j] {
        LessIrreflexive(tactics[i]);
      }
    }
    forall i | 0 <= i < |ps| ensures ps[i].tactic in tactics {
      RowsForMembers(ps, ps[i].tactic, ps[i].row);
      var k :| 0 <= k < |sections| && sections[k].tactic == ps[i].tactic;
      assert tactics[k] == ps[i].tactic;
    }
    BucketRowTotalCovers(ps, tactics);
    SectionRowTotalIs(sections, ps, tactics);
    PlacementsCount(layer.techniques, index, filter);
  }
}
