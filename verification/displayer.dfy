/**
 * The linkage-group displayer of a report page: it collects the linkage
 * groups of the page's subject, and for each group its genetic markers and
 * QTLs, and lays them out as a flat list of render tracks, three per group
 * (group box, marker triangles, QTL boxes), together with the number of
 * groups and the longest group length.
 */
module LinkageGroupDisplayer {
  import opened Wrappers
  import opened OrderedMap
  import opened Queries
  import opened Tracks

  /** What the displayer hands to the page: tracks, tracksCount, maxLGLength. */
  datatype Output = Output(tracks: seq<Track>, tracksCount: nat, maxLGLength: real)

  /**
   * The running maximum over all linkage-group rows, starting from 0.0; a row
   * whose id repeats still takes part.
   */
  function MaxLength(rows: seq<LinkageGroupRow>): (r: real)
    ensures r >= 0.0
    ensures forall i :: 0 <= i < |rows| ==> rows[i].length <= r
    ensures r > 0.0 ==> exists i :: 0 <= i < |rows| && rows[i].length == r
    ensures r == 0.0 <==> forall i :: 0 <= i < |rows| ==> rows[i].length <= 0.0
  {
    if |rows| == 0 then 0.0
    else
      var n := |rows| - 1;
      var m := MaxLength(rows[..n]);
      assert forall i :: 0 <= i < n ==> rows[..n][i] == rows[i];
      if rows[n].length > m then rows[n].length else m
  }

  /**
   * The flat track list: for each group in the groups' order, its box, its
   * marker triangles and its QTL boxes. `markerMap(g)` and `qtlMap(g)` are the
   * markers and QTLs collected for group id `g`.
   */
  function TracksFor(groups: OMap<LinkageGroupRow>, markerMap: int -> OMap<MarkerRow>,
                     qtlMap: int -> OMap<QtlRow>): (ts: seq<Track>)
    ensures |ts| == 3 * |groups|
  {
    if |groups| == 0 then []
    else
      var g := groups[0];
      [GroupTrack(g), MarkerTrack(markerMap(g.key)), QtlTrack(qtlMap(g.key))]
      + TracksFor(groups[1..], markerMap, qtlMap)
  }

  /** The i-th triple of the track list is the i-th group's box, markers and QTLs. */
  lemma {:induction false} TracksForTriples(groups: OMap<LinkageGroupRow>, markerMap: int -> OMap<MarkerRow>,
                                            qtlMap: int -> OMap<QtlRow>)
    ensures var ts := TracksFor(groups, markerMap, qtlMap);
      forall i :: 0 <= i < |groups| ==>
        && ts[3 * i] == GroupTrack(groups[i])
        && ts[3 * i + 1] == MarkerTrack(markerMap(groups[i].key))
        && ts[3 * i + 2] == QtlTrack(qtlMap(groups[i].key))
  {
    if |groups| > 0 {
      var ts, rest := TracksFor(groups, markerMap, qtlMap), TracksFor(groups[1..], markerMap, qtlMap);
      TracksForTriples(groups[1..], markerMap, qtlMap);
      assert ts[3..] == rest;
      forall i | 0 <= i < |groups|
        ensures ts[3 * i] == GroupTrack(groups[i])
        ensures ts[3 * i + 1] == MarkerTrack(markerMap(groups[i].key))
        ensures ts[3 * i + 2] == QtlTrack(qtlMap(groups[i].key))
      {
        if i > 0 {
          var j := i - 1;
          assert groups[i] == groups[1..][j];
          assert ts[3 * i] == rest[3 * j];
          assert ts[3 * i + 1] == rest[3 * j + 1];
          assert ts[3 * i + 2] == rest[3 * j + 2];
        }
      }
    }
  }

  /** The shape of the t-th track: the middle track of each triple is the triangle one. */
  function ShapeAt(t: int): Shape
  {
    if t % 3 == 1 then Triangle else Box
  }

  /** Track shapes run box, triangle, box, box, triangle, box, ... */
  lemma TracksForShapes(groups: OMap<LinkageGroupRow>, markerMap: int -> OMap<MarkerRow>,
                        qtlMap: int -> OMap<QtlRow>)
    ensures var ts := TracksFor(groups, markerMap, qtlMap);
      forall t :: 0 <= t < |ts| ==> ts[t].shape == ShapeAt(t)
  {
    var ts := TracksFor(groups, markerMap, qtlMap);
    TracksForTriples(groups, markerMap, qtlMap);
    forall t | 0 <= t < |ts| ensures ts[t].shape == ShapeAt(t) {
      var i := t / 3;
      assert t == 3 * i + t % 3;
    }
  }

  /** The markers collected per linkage group id (the displayer's markerMap). */
  function MarkerMap(markersOf: int -> seq<MarkerRow>): int -> OMap<MarkerRow>
  {
    lgId => Collect(markersOf(lgId), MarkerId)
  }

  /** The QTLs collected per linkage group id (the displayer's qtlMap). */
  function QtlMap(qtlsOf: int -> seq<QtlRow>): int -> OMap<QtlRow>
  {
    lgId => Collect(qtlsOf(lgId), QtlId)
  }

  /**
   * The displayer's aggregation over the query results: `lgRows` are the
   * linkage-group rows, `markersOf(g)` and `qtlsOf(g)` the marker and QTL rows
   * fetched for group id `g`. No linkage-group rows means no output at all;
   * otherwise three tracks per distinct group, the group count, and the
   * maximum length.
   */
  function Aggregate(lgRows: seq<LinkageGroupRow>, markersOf: int -> seq<MarkerRow>,
                     qtlsOf: int -> seq<QtlRow>): (r: Option<Output>)
    ensures r.None? <==> |lgRows| == 0
    ensures r.Some? ==> r.value.tracksCount == |Elements(Ids(lgRows, GroupId))|
    ensures r.Some? ==> |r.value.tracks| == 3 * r.value.tracksCount
  {
    var groups := Collect(lgRows, GroupId);
    CollectEmpty(lgRows, GroupId);
    CollectSize(lgRows, GroupId);
    if |groups| == 0 then None
    else Some(Output(TracksFor(groups, MarkerMap(markersOf), QtlMap(qtlsOf)), |groups|, MaxLength(lgRows)))
  }

  /** The output's tracks run box, triangle, box for each group in turn. */
  lemma AggregateShapes(lgRows: seq<LinkageGroupRow>, markersOf: int -> seq<MarkerRow>,
                        qtlsOf: int -> seq<QtlRow>)
    requires |lgRows| > 0
    ensures var ts := Aggregate(lgRows, markersOf, qtlsOf).value.tracks;
      forall t :: 0 <= t < |ts| ==> ts[t].shape == ShapeAt(t)
  {
    var groups, mm, qm := Collect(lgRows, GroupId), MarkerMap(markersOf), QtlMap(qtlsOf);
    var ts := TracksFor(groups, mm, qm);
    TracksForShapes(groups, mm, qm);
    assert Aggregate(lgRows, markersOf, qtlsOf).value.tracks == ts;
  }

  /**
   * maxLGLength is at least 0.0 and every row's length, repeated ids
   * included, and equals one of the lengths when it is positive.
   */
  lemma AggregateMaxLength(lgRows: seq<LinkageGroupRow>, markersOf: int -> seq<MarkerRow>,
                           qtlsOf: int -> seq<QtlRow>)
    requires |lgRows| > 0
    ensures var mx := Aggregate(lgRows, markersOf, qtlsOf).value.maxLGLength;
      && mx >= 0.0
      && (forall i :: 0 <= i < |lgRows| ==> lgRows[i].length <= mx)
      && (mx > 0.0 ==> exists i :: 0 <= i < |lgRows| && lgRows[i].length == mx)
  {
    assert Aggregate(lgRows, markersOf, qtlsOf).value.maxLGLength == MaxLength(lgRows);
  }

  /**
   * The tracks group by group: the i-th triple belongs to the i-th distinct
   * group id in first-seen order. Its box is one purple item from 0.0 to the
   * group's length, taken from the last row with that id; its marker and QTL
   * tracks are built from the rows fetched for that group.
   */
  lemma AggregateTracks(lgRows: seq<LinkageGroupRow>, markersOf: int -> seq<MarkerRow>,
                        qtlsOf: int -> seq<QtlRow>)
    requires |lgRows| > 0
    ensures var out, keys, ids := Aggregate(lgRows, markersOf, qtlsOf).value, Keys(Collect(lgRows, GroupId)), Ids(lgRows, GroupId);
      && FirstSeenOrder(keys, lgRows, GroupId)
      && |out.tracks| == 3 * |keys|
      && (forall i :: 0 <= i < |keys| ==>
            (keys[i] in ids &&
               var g := lgRows[LastIndex(ids, keys[i])];
             && out.tracks[3 * i] == Track(Box, [BoxItem(g.identifier, keys[i], "purple", "black", [Span(0.0, g.length)])])
             && out.tracks[3 * i + 1] == MarkerTrack(Collect(markersOf(keys[i]), MarkerId))
             && out.tracks[3 * i + 2] == QtlTrack(Collect(qtlsOf(keys[i]), QtlId))))
  {
    var groups, ids := Collect(lgRows, GroupId), Ids(lgRows, GroupId);
    var keys := Keys(groups);
    var out := Aggregate(lgRows, markersOf, qtlsOf).value;
    CollectKeysOrder(lgRows, GroupId);
    CollectSpec(lgRows, GroupId);
    assert out.tracks == TracksFor(groups, MarkerMap(markersOf), QtlMap(qtlsOf));
    TracksForTriples(groups, MarkerMap(markersOf), QtlMap(qtlsOf));
    forall i | 0 <= i < |keys|
      ensures keys[i] in ids
      ensures out.tracks[3 * i] == Track(Box, [BoxItem(lgRows[LastIndex(ids, keys[i])].identifier, keys[i],
                                                       "purple", "black", [Span(0.0, lgRows[LastIndex(ids, keys[i])].length)])])
      ensures out.tracks[3 * i + 1] == MarkerTrack(Collect(markersOf(keys[i]), MarkerId))
      ensures out.tracks[3 * i + 2] == QtlTrack(Collect(qtlsOf(keys[i]), QtlId))
    {
      assert keys[i] == groups[i].key;
      assert keys[i] in keys;
      assert out.tracks[3 * i] == GroupTrack(groups[i]);
    }
  }

  /**
   * The whole displayer: build the linkage-group query for the report page,
   * then a marker query and a QTL query per collected group, and aggregate
   * what the query engine (`runGroups`, `runMarkers`, `runQtls`) returns.
   */
  function Display(reportId: int, objectName: string,
                   runGroups: Query -> seq<LinkageGroupRow>,
                   runMarkers: Query -> seq<MarkerRow>,
                   runQtls: Query -> seq<QtlRow>): (r: Option<Output>)
    ensures r.None? <==> |runGroups(LinkageGroupQuery(reportId, objectName))| == 0
  {
    Aggregate(runGroups(LinkageGroupQuery(reportId, objectName)), FetchMarkers(runMarkers), FetchQtls(runQtls))
  }

  /** The marker rows of a group: run the marker query filtered on its id. */
  function FetchMarkers(runMarkers: Query -> seq<MarkerRow>): int -> seq<MarkerRow>
  {
    lgId => runMarkers(GeneticMarkerQuery(lgId))
  }

  /** The QTL rows of a group: run the QTL query filtered on its id. */
  function FetchQtls(runQtls: Query -> seq<QtlRow>): int -> seq<QtlRow>
  {
    lgId => runQtls(QtlQuery(lgId))
  }

  /**
   * Each group's marker and QTL tracks come from the queries filtered on that
   * group's own id.
   */
  lemma DisplayQueriesPerGroup(reportId: int, objectName: string,
                               runGroups: Query -> seq<LinkageGroupRow>,
                               runMarkers: Query -> seq<MarkerRow>,
                               runQtls: Query -> seq<QtlRow>)
    requires |runGroups(LinkageGroupQuery(reportId, objectName))| > 0
    ensures var lgRows := runGroups(LinkageGroupQuery(reportId, objectName));
      var out, keys := Display(reportId, objectName, runGroups, runMarkers, runQtls).value, Keys(Collect(lgRows, GroupId));
      && |out.tracks| == 3 * |keys|
      && forall i :: 0 <= i < |keys| ==>
           && out.tracks[3 * i + 1] == MarkerTrack(Collect(runMarkers(GeneticMarkerQuery(keys[i])), MarkerId))
           && out.tracks[3 * i + 2] == QtlTrack(Collect(runQtls(QtlQuery(keys[i])), QtlId))
  {
    var lgRows := runGroups(LinkageGroupQuery(reportId, objectName));
    AggregateTracks(lgRows, FetchMarkers(runMarkers), FetchQtls(runQtls));
  }

  /** The query engine of a worked example: genetic map 5 holds LG1 and LG2. */
  function ExampleGroups(q: Query): seq<LinkageGroupRow>
  {
    if q == LinkageGroupQuery(5, "GeneticMap") then
      [LinkageGroupRow(1, "LG1", 120.5, 1), LinkageGroupRow(2, "LG2", 95.0, 2)]
    else []
  }

  /** LG1 carries one marker at 10.0; LG2 none. */
  function ExampleMarkers(q: Query): seq<MarkerRow>
  {
    if q == GeneticMarkerQuery(1) then [MarkerRow(10, "M1", 10.0)] else []
  }

  /** LG1 carries one QTL spanning 5.0 to 15.0; LG2 none. */
  function ExampleQtls(q: Query): seq<QtlRow>
  {
    if q == QtlQuery(1) then [QtlRow(20, "Q1", 5.0, 15.0)] else []
  }

  /**
   * The genetic-map page of the example: six tracks, two groups, longest
   * length 120.5; the second group's marker and QTL tracks are present but
   * empty.
   */
  lemma ExampleGeneticMap()
    ensures Display(5, "GeneticMap", ExampleGroups, ExampleMarkers, ExampleQtls) ==
      Some(Output([
        Track(Box, [BoxItem("LG1", 1, "purple", "black", [Span(0.0, 120.5)])]),
        Track(Triangle, [TriangleItem("M1", 10, "darkred", "black", 10.0)]),
        Track(Box, [BoxItem("Q1", 20, "yellow", "black", [Span(5.0, 15.0)])]),
        Track(Box, [BoxItem("LG2", 2, "purple", "black", [Span(0.0, 95.0)])]),
        Track(Triangle, []),
        Track(Box, [])], 2, 120.5))
  {
    var lgRows := [LinkageGroupRow(1, "LG1", 120.5, 1), LinkageGroupRow(2, "LG2", 95.0, 2)];
    var markersOf, qtlsOf := FetchMarkers(ExampleMarkers), FetchQtls(ExampleQtls);
    assert Display(5, "GeneticMap", ExampleGroups, ExampleMarkers, ExampleQtls) == Aggregate(lgRows, markersOf, qtlsOf);
    var groups := [Entry(1, lgRows[0]), Entry(2, lgRows[1])];
    ExampleGroupsCollected();
    var mm, qm := MarkerMap(markersOf), QtlMap(qtlsOf);
    ExampleTrackMaps();
    assert mm(1) == [Entry(10, MarkerRow(10, "M1", 10.0))];
    assert mm(2) == [];
    assert qm(1) == [Entry(20, QtlRow(20, "Q1", 5.0, 15.0))];
    assert qm(2) == [];
    ExampleMaxLength();
    ExampleTracks(groups, mm, qm);
  }

  lemma ExampleMaxLength()
    ensures MaxLength([LinkageGroupRow(1, "LG1", 120.5, 1), LinkageGroupRow(2, "LG2", 95.0, 2)]) == 120.5
  {
    var lgRows := [LinkageGroupRow(1, "LG1", 120.5, 1), LinkageGroupRow(2, "LG2", 95.0, 2)];
    assert lgRows[..1] == [lgRows[0]];
    assert MaxLength(lgRows[..1]) == 120.5;
  }

  lemma ExampleTracks(groups: OMap<LinkageGroupRow>, mm: int -> OMap<MarkerRow>, qm: int -> OMap<QtlRow>)
    requires groups == [Entry(1, LinkageGroupRow(1, "LG1", 120.5, 1)), Entry(2, LinkageGroupRow(2, "LG2", 95.0, 2))]
    requires mm(1) == [Entry(10, MarkerRow(10, "M1", 10.0))] && mm(2) == []
    requires qm(1) == [Entry(20, QtlRow(20, "Q1", 5.0, 15.0))] && qm(2) == []
    ensures TracksFor(groups, mm, qm) == [
        Track(Box, [BoxItem("LG1", 1, "purple", "black", [Span(0.0, 120.5)])]),
        Track(Triangle, [TriangleItem("M1", 10, "darkred", "black", 10.0)]),
        Track(Box, [BoxItem("Q1", 20, "yellow", "black", [Span(5.0, 15.0)])]),
        Track(Box, [BoxItem("LG2", 2, "purple", "black", [Span(0.0, 95.0)])]),
        Track(Triangle, []),
        Track(Box, [])]
  {
    assert groups[1..][1..] == [];
    var tail := TracksFor(groups[1..], mm, qm);
    assert tail == [GroupTrack(groups[1]), MarkerTrack(mm(2)), QtlTrack(qm(2))];
    assert MarkerTrack(mm(2)) == Track(Triangle, []);
    assert QtlTrack(qm(2)) == Track(Box, []);
    assert MarkerTrack(mm(1)).data == [TriangleItem("M1", 10, "darkred", "black", 10.0)];
    assert QtlTrack(qm(1)).data == [BoxItem("Q1", 20, "yellow", "black", [Span(5.0, 15.0)])];
  }

  lemma ExampleGroupsCollected()
    ensures Collect([LinkageGroupRow(1, "LG1", 120.5, 1), LinkageGroupRow(2, "LG2", 95.0, 2)], GroupId)
         == [Entry(1, LinkageGroupRow(1, "LG1", 120.5, 1)), Entry(2, LinkageGroupRow(2, "LG2", 95.0, 2))]
  {
    CollectPair(LinkageGroupRow(1, "LG1", 120.5, 1), LinkageGroupRow(2, "LG2", 95.0, 2), GroupId);
  }

  lemma ExampleTrackMaps()
    ensures MarkerMap(FetchMarkers(ExampleMarkers))(1) == [Entry(10, MarkerRow(10, "M1", 10.0))]
    ensures MarkerMap(FetchMarkers(ExampleMarkers))(2) == []
    ensures QtlMap(FetchQtls(ExampleQtls))(1) == [Entry(20, QtlRow(20, "Q1", 5.0, 15.0))]
    ensures QtlMap(FetchQtls(ExampleQtls))(2) == []
  {
    GroupRoundTrip(1, 1);
    GroupRoundTrip(2, 2);
    assert GeneticMarkerQuery(2) != GeneticMarkerQuery(1);
    assert QtlQuery(2) != QtlQuery(1);
    assert ExampleMarkers(GeneticMarkerQuery(1)) == [MarkerRow(10, "M1", 10.0)];
    assert ExampleMarkers(GeneticMarkerQuery(2)) == [];
    assert ExampleQtls(QtlQuery(1)) == [QtlRow(20, "Q1", 5.0, 15.0)];
    assert ExampleQtls(QtlQuery(2)) == [];
    assert [MarkerRow(10, "M1", 10.0)][..0] == [];
    assert [QtlRow(20, "Q1", 5.0, 15.0)][..0] == [];
  }

  /** A linkage-group page whose group does not exist shows nothing. */
  lemma ExampleMissingGroup()
    ensures Display(7, "LinkageGroup", ExampleGroups, ExampleMarkers, ExampleQtls) == None
  {
    assert LinkageGroupQuery(7, "LinkageGroup") != LinkageGroupQuery(5, "GeneticMap");
  }

  /**
   * A marker id returned twice keeps its first place but shows the later
   * row's name and position: rows (10, "a", 1.0), (11, "b", 2.0),
   * (10, "c", 3.0) draw "c" at 3.0, then "b" at 2.0.
   */
  lemma ExampleRepeatedMarker()
    ensures MarkerTrack(Collect([MarkerRow(10, "a", 1.0), MarkerRow(11, "b", 2.0), MarkerRow(10, "c", 3.0)], MarkerId))
         == Track(Triangle, [TriangleItem("c", 10, "darkred", "black", 3.0), TriangleItem("b", 11, "darkred", "black", 2.0)])
  {
    CollectRepeated(MarkerRow(10, "a", 1.0), MarkerRow(11, "b", 2.0), MarkerRow(10, "c", 3.0), MarkerId);
    var m := [Entry(10, MarkerRow(10, "c", 3.0)), Entry(11, MarkerRow(11, "b", 2.0))];
    assert MarkerTrack(m).data == [MarkerItem(m[0]), MarkerItem(m[1])];
  }

}
