/**
 * Result rows of the three queries and the render tracks built from them:
 * a track is a shape ("box" or "triangle") and a list of items, each item
 * carrying a display id, a linking key, colours, and either box spans or a
 * triangle offset.
 */
module Tracks {
  import opened OrderedMap

  /** A row of the linkage-group query: id, identifier, length, number. */
  datatype LinkageGroupRow = LinkageGroupRow(id: int, identifier: string, length: real, number: int)

  /** A row of the marker query: id, secondary identifier, position. */
  datatype MarkerRow = MarkerRow(id: int, identifier: string, position: real)

  /** A row of the QTL query: id, identifier, start, end. */
  datatype QtlRow = QtlRow(id: int, identifier: string, start: real, end: real)

  function GroupId(g: LinkageGroupRow): int { g.id }
  function MarkerId(m: MarkerRow): int { m.id }
  function QtlId(q: QtlRow): int { q.id }

  /** A two-element position array, [lo, hi]. */
  datatype Span = Span(lo: real, hi: real)

  /** The track's "type". */
  datatype Shape = Box | Triangle

  datatype Item =
    | BoxItem(id: string, key: int, fill: string, outline: string, data: seq<Span>)
    | TriangleItem(id: string, key: int, fill: string, outline: string, offset: real)

  datatype Track = Track(shape: Shape, data: seq<Item>)

  /** The linking keys of a track's items, in order. */
  function ItemKeys(items: seq<Item>): seq<int>
  {
    seq(|items|, i requires 0 <= i < |items| => items[i].key)
  }

  /** The linkage group itself: one purple box from 0 to its length. */
  function GroupTrack(g: Entry<LinkageGroupRow>): Track
  {
    Track(Box, [BoxItem(g.value.identifier, g.key, "purple", "black", [Span(0.0, g.value.length)])])
  }

  function MarkerItem(m: Entry<MarkerRow>): Item
  {
    TriangleItem(m.value.identifier, m.key, "darkred", "black", m.value.position)
  }

  /** One dark-red triangle per collected marker, in map order. */
  function MarkerTrack(markers: OMap<MarkerRow>): Track
  {
    Track(Triangle, seq(|markers|, i requires 0 <= i < |markers| => MarkerItem(markers[i])))
  }

  function QtlItem(q: Entry<QtlRow>): Item
  {
    BoxItem(q.value.identifier, q.key, "yellow", "black", [Span(q.value.start, q.value.end)])
  }

  /** One yellow box per collected QTL, in map order. */
  function QtlTrack(qtls: OMap<QtlRow>): Track
  {
    Track(Box, seq(|qtls|, i requires 0 <= i < |qtls| => QtlItem(qtls[i])))
  }

  /**
   * The marker track of a group's marker rows: one triangle per distinct
   * marker id, in first-seen order; no rows give a track with no items.
   */
  lemma MarkerTrackOrder(rows: seq<MarkerRow>)
    ensures MarkerTrack(Collect(rows, MarkerId)).shape == Triangle
    ensures FirstSeenOrder(ItemKeys(MarkerTrack(Collect(rows, MarkerId)).data), rows, MarkerId)
    ensures |MarkerTrack(Collect(rows, MarkerId)).data| == 0 <==> |rows| == 0
  {
    var m := Collect(rows, MarkerId);
    var keys := ItemKeys(MarkerTrack(m).data);
    assert keys == Keys(m);
    CollectKeysOrder(rows, MarkerId);
    CollectEmpty(rows, MarkerId);
  }

  /**
   * Each marker triangle is drawn from the LAST row with its id: a repeated
   * id keeps its first place but takes the later row's name and position.
   */
  lemma MarkerTrackItems(rows: seq<MarkerRow>)
    ensures var t, ids := MarkerTrack(Collect(rows, MarkerId)), Ids(rows, MarkerId);
      forall i :: 0 <= i < |t.data| ==>
        (t.data[i].key in ids &&
         var r := rows[LastIndex(ids, t.data[i].key)];
         t.data[i] == TriangleItem(r.identifier, r.id, "darkred", "black", r.position))
  {
    var m, ids := Collect(rows, MarkerId), Ids(rows, MarkerId);
    var t := MarkerTrack(m);
    CollectSpec(rows, MarkerId);
    CollectKeyIsId(rows, MarkerId);
    forall i | 0 <= i < |t.data|
      ensures t.data[i].key in ids
      ensures t.data[i] == TriangleItem(rows[LastIndex(ids, t.data[i].key)].identifier,
                                        rows[LastIndex(ids, t.data[i].key)].id, "darkred", "black",
                                        rows[LastIndex(ids, t.data[i].key)].position)
    {
      assert t.data[i] == MarkerItem(m[i]);
      assert Keys(m)[i] == m[i].key;
      assert m[i].key in Keys(m);
    }
  }

  /**
   * The QTL track of a group's QTL rows: one box per distinct QTL id, in
   * first-seen order; no rows give a track with no items.
   */
  lemma QtlTrackOrder(rows: seq<QtlRow>)
    ensures QtlTrack(Collect(rows, QtlId)).shape == Box
    ensures FirstSeenOrder(ItemKeys(QtlTrack(Collect(rows, QtlId)).data), rows, QtlId)
    ensures |QtlTrack(Collect(rows, QtlId)).data| == 0 <==> |rows| == 0
  {
    var m := Collect(rows, QtlId);
    var keys := ItemKeys(QtlTrack(m).data);
    assert keys == Keys(m);
    CollectKeysOrder(rows, QtlId);
    CollectEmpty(rows, QtlId);
  }

  /**
   * Each QTL box is drawn from the last row with its id, and its single span
   * is [start, end] exactly as given, never reordered even when start > end.
   */
  lemma QtlTrackItems(rows: seq<QtlRow>)
    ensures var t, ids := QtlTrack(Collect(rows, QtlId)), Ids(rows, QtlId);
      forall i :: 0 <= i < |t.data| ==>
        (t.data[i].key in ids &&
         var r := rows[LastIndex(ids, t.data[i].key)];
         t.data[i] == BoxItem(r.identifier, r.id, "yellow", "black", [Span(r.start, r.end)]))
  {
    var m, ids := Collect(rows, QtlId), Ids(rows, QtlId);
    var t := QtlTrack(m);
    CollectSpec(rows, QtlId);
    CollectKeyIsId(rows, QtlId);
    forall i | 0 <= i < |t.data|
      ensures t.data[i].key in ids
      ensures t.data[i] == BoxItem(rows[LastIndex(ids, t.data[i].key)].identifier,
                                   rows[LastIndex(ids, t.data[i].key)].id, "yellow", "black",
                                   [Span(rows[LastIndex(ids, t.data[i].key)].start,
                                         rows[LastIndex(ids, t.data[i].key)].end)])
    {
      assert t.data[i] == QtlItem(m[i]);
      assert Keys(m)[i] == m[i].key;
      assert m[i].key in Keys(m);
    }
  }
}
