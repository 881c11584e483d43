/**
 * The three path queries the linkage-group displayer builds, as plain data:
 * the selected columns (views), equality constraints and sort order. The
 * query engine that runs them is outside this model; its answers reach the
 * displayer as row sequences.
 */
module Queries {
  import opened Wrappers

  datatype Direction = Asc | Desc

  /** An equality constraint on a path (Constraints.eq). */
  datatype Constraint = Eq(path: string, value: int)

  datatype OrderBy = OrderBy(path: string, direction: Direction)

  datatype Query = Query(views: seq<string>, constraints: seq<Constraint>, orderBy: seq<OrderBy>)

  /** The report-page types whose linkage groups the displayer knows how to find. */
  datatype SubjectKind = GeneticMapPage | QtlPage | LinkageGroupPage

  /** The report object's simple class name, read as a subject kind. */
  function KindOf(objectName: string): Option<SubjectKind>
  {
    if objectName == "GeneticMap" then Some(GeneticMapPage)
    else if objectName == "QTL" then Some(QtlPage)
    else if objectName == "LinkageGroup" then Some(LinkageGroupPage)
    else None
  }

  /** The linkage-group path that is compared with the report id for each kind. */
  function FilterPath(kind: SubjectKind): string
  {
    match kind
    case GeneticMapPage => "LinkageGroup.geneticMap.id"
    case QtlPage => "LinkageGroup.qtls.id"
    case LinkageGroupPage => "LinkageGroup.id"
  }

  const LinkageGroupViews: seq<string> :=
    ["LinkageGroup.id", "LinkageGroup.identifier", "LinkageGroup.length", "LinkageGroup.number"]
  const MarkerViews: seq<string> :=
    ["GeneticMarker.id", "GeneticMarker.secondaryIdentifier", "GeneticMarker.linkageGroupPositions.position"]
  const QtlViews: seq<string> :=
    ["QTL.id", "QTL.identifier", "QTL.start", "QTL.end"]

  /**
   * Linkage groups of the report subject: those of a genetic map, those
   * linked to a QTL, or the one linkage group itself; any other page type adds
   * no constraint. Always sorted by linkage-group number, ascending.
   */
  function LinkageGroupQuery(reportId: int, objectName: string): (q: Query)
    ensures q.views == ["LinkageGroup.id", "LinkageGroup.identifier", "LinkageGroup.length", "LinkageGroup.number"]
    ensures q.orderBy == [OrderBy("LinkageGroup.number", Asc)]
    ensures objectName == "GeneticMap" <==> q.constraints == [Eq("LinkageGroup.geneticMap.id", reportId)]
    ensures objectName == "QTL" <==> q.constraints == [Eq("LinkageGroup.qtls.id", reportId)]
    ensures objectName == "LinkageGroup" <==> q.constraints == [Eq("LinkageGroup.id", reportId)]
    ensures q.constraints == [] <==> objectName !in {"GeneticMap", "QTL", "LinkageGroup"}
  {
    var constraints :=
      match KindOf(objectName)
      case Some(kind) => [Eq(FilterPath(kind), reportId)]
      case None => [];
    Query(LinkageGroupViews, constraints, [OrderBy("LinkageGroup.number", Asc)])
  }

  /** Genetic markers placed on one linkage group, sorted by position. */
  function GeneticMarkerQuery(lgId: int): (q: Query)
    ensures q.views == ["GeneticMarker.id", "GeneticMarker.secondaryIdentifier", "GeneticMarker.linkageGroupPositions.position"]
    ensures q.constraints == [Eq("GeneticMarker.linkageGroupPositions.linkageGroup.id", lgId)]
    ensures q.orderBy == [OrderBy("GeneticMarker.linkageGroupPositions.position", Asc)]
  {
    Query(MarkerViews,
          [Eq("GeneticMarker.linkageGroupPositions.linkageGroup.id", lgId)],
          [OrderBy("GeneticMarker.linkageGroupPositions.position", Asc)])
  }

  /** QTLs on one linkage group, sorted by start. */
  function QtlQuery(lgId: int): (q: Query)
    ensures q.views == ["QTL.id", "QTL.identifier", "QTL.start", "QTL.end"]
    ensures q.constraints == [Eq("QTL.linkageGroup.id", lgId)]
    ensures q.orderBy == [OrderBy("QTL.start", Asc)]
  {
    Query(QtlViews, [Eq("QTL.linkageGroup.id", lgId)], [OrderBy("QTL.start", Asc)])
  }

  /** Reads the report subject back from a linkage-group query's constraint. */
  function SubjectOf(q: Query): Option<(SubjectKind, int)>
  {
    if |q.constraints| != 1 then None
    else
      var c := q.constraints[0];
      if c.path == "LinkageGroup.geneticMap.id" then Some((GeneticMapPage, c.value))
      else if c.path == "LinkageGroup.qtls.id" then Some((QtlPage, c.value))
      else if c.path == "LinkageGroup.id" then Some((LinkageGroupPage, c.value))
      else None
  }

  /**
   * A linkage-group query determines the page it was built for: a known kind
   * and its id are recovered exactly, and an unknown kind leaves no filter.
   */
  lemma SubjectRoundTrip(reportId: int, objectName: string)
    ensures SubjectOf(LinkageGroupQuery(reportId, objectName)) ==
      match KindOf(objectName)
      case Some(kind) => Some((kind, reportId))
      case None => None
  {
  }

  /** Distinct page kinds filter on distinct paths, so no two kinds share a query. */
  lemma {:induction false} LinkageGroupQueryInjective(id1: int, name1: string, id2: int, name2: string)
    requires KindOf(name1).Some? && KindOf(name2).Some?
    requires LinkageGroupQuery(id1, name1) == LinkageGroupQuery(id2, name2)
    ensures KindOf(name1) == KindOf(name2) && id1 == id2
  {
    SubjectRoundTrip(id1, name1);
    SubjectRoundTrip(id2, name2);
  }

  /** Reads the linkage group back from a marker or QTL query. */
  function GroupOf(q: Query): Option<int>
  {
    if |q.constraints| == 1
       && q.constraints[0].path in {"GeneticMarker.linkageGroupPositions.linkageGroup.id", "QTL.linkageGroup.id"}
    then Some(q.constraints[0].value)
    else None
  }

  /**
   * The marker and QTL queries of a group name that group and no other, and a
   * marker query is never a QTL query.
   */
  lemma GroupRoundTrip(lgId: int, other: int)
    ensures GroupOf(GeneticMarkerQuery(lgId)) == Some(lgId)
    ensures GroupOf(QtlQuery(lgId)) == Some(lgId)
    ensures GeneticMarkerQuery(lgId) != QtlQuery(other)
  {
  }
}
