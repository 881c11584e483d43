# Linkage-group displayer, modelled in Dafny

This project models the linkage-group displayer of an InterMine report page.
The page's subject is a genetic map, a QTL or a single linkage group. The
displayer:

- queries the linkage groups of that subject;
- queries, for each group, the genetic markers placed on it and the QTLs on it;
- reshapes the results into a flat list of render tracks, three per group:
  - the group as one purple box from 0 to its length;
  - its markers as dark-red triangles at their positions;
  - its QTLs as yellow boxes from start to end.

With the tracks it reports the number of groups (`tracksCount`) and the
longest group length (`maxLGLength`). If no linkage group is found, it emits
nothing at all.

Query results are collected into insertion-ordered maps keyed by row id
(`java.util.LinkedHashMap`). A repeated id keeps the place where it was first
seen but takes the value of its last row. The model makes this explicit and
proves it.

Files:

- `wrappers.dfy`: `Option`.
- `ordered_map.dfy`: module `OrderedMap`.
  - The map is a sequence of `Entry(key, value)` bindings in insertion order, with `Get` and `Put` following LinkedHashMap semantics.
  - `Collect` is the displayer's `while (hasNext()) map.put(id, row)` loop.
  - `Represents` is its declarative description.
  - The lemmas prove that `Collect` meets `Represents` and that `Represents` fixes the map uniquely.
- `queries.dfy`: module `Queries`. The three path queries as data: views, equality constraints and sort order.
- `tracks.dfy`: module `Tracks`. The result rows, the track and item shapes, and the per-group track builders.
- `displayer.dfy`: module `LinkageGroupDisplayer`.
  - `Aggregate` is the body of `display` after the queries.
  - `Display` builds the queries and aggregates what a query engine returns for them.
  - A worked example: genetic map 5 with groups LG1 and LG2.

The query engine is a parameter: three total functions from `Query` to row
sequences. A row sequence is what `getResults` iterates over, in the order the
engine returns it.

## Model

All source paths are under `org/ncgr/intermine/bio/web/displayer/`.

| member | source | states |
|---|---|---|
| OrderedMap.Get | org/ncgr/intermine/bio/web/displayer/LinkageGroupDisplayer.java:117 | lookup finds a value exactly when the key is in the map, and the value it finds is bound to that key |
| OrderedMap.GetAt | org/ncgr/intermine/bio/web/displayer/LinkageGroupDisplayer.java:147-150 | in a map with no repeated keys, looking up the key at any position returns the value at that position |
| OrderedMap.Put | org/ncgr/intermine/bio/web/displayer/LinkageGroupDisplayer.java:73 | LinkedHashMap.put: a new key is appended to the key order; an existing key keeps its place; afterwards the key maps to the new value |
| OrderedMap.PutOthers | org/ncgr/intermine/bio/web/displayer/LinkageGroupDisplayer.java:92 | put leaves every other key's binding unchanged |
| OrderedMap.PutDistinct | org/ncgr/intermine/bio/web/displayer/LinkageGroupDisplayer.java:106 | put never creates a repeated key |
| OrderedMap.Collect | org/ncgr/intermine/bio/web/displayer/LinkageGroupDisplayer.java:88-93 | collecting rows by id yields a map without repeated keys and with no more bindings than rows |
| OrderedMap.PutStep | org/ncgr/intermine/bio/web/displayer/LinkageGroupDisplayer.java:89-93 | one iteration of the collection loop keeps the map a faithful description of the rows read so far |
| OrderedMap.CollectSpec | org/ncgr/intermine/bio/web/displayer/LinkageGroupDisplayer.java:63-75 | the collected map holds every id seen and nothing else, each once, in first-seen order, each bound to the last row with that id |
| OrderedMap.RepresentsUnique | org/ncgr/intermine/bio/web/displayer/LinkageGroupDisplayer.java:102-108 | that description determines the map: two maps that both meet it are equal |
| OrderedMap.CollectSnoc | org/ncgr/intermine/bio/web/displayer/LinkageGroupDisplayer.java:103-106 | reading one more row is one more put of that row under its id |
| OrderedMap.CollectSize | org/ncgr/intermine/bio/web/displayer/LinkageGroupDisplayer.java:78 | the map's size is the number of distinct ids among the rows |
| OrderedMap.CollectKeysOrder | org/ncgr/intermine/bio/web/displayer/LinkageGroupDisplayer.java:85 | the map's key set lists the distinct ids in the order they first appear |
| OrderedMap.CollectKeyIsId | org/ncgr/intermine/bio/web/displayer/LinkageGroupDisplayer.java:91-92 | every row is stored under its own id |
| OrderedMap.CollectEmpty | org/ncgr/intermine/bio/web/displayer/LinkageGroupDisplayer.java:78 | the map is empty exactly when there are no rows |
| OrderedMap.CollectRepeated | org/ncgr/intermine/bio/web/displayer/LinkageGroupDisplayer.java:73 | when an id comes back after another id, it keeps first place but carries its later row |
| Queries.LinkageGroupQuery | org/ncgr/intermine/bio/web/displayer/LinkageGroupDisplayer.java:215-231 | the four linkage-group views, sorted ascending by number. The only constraint compares the report id with `geneticMap.id`, `qtls.id` or `id`, exactly when the page is a GeneticMap, QTL or LinkageGroup page. Any other page gets no constraint |
| Queries.SubjectRoundTrip | org/ncgr/intermine/bio/web/displayer/LinkageGroupDisplayer.java:222-228 | the page kind and report id can be read back from the query, and an unknown kind leaves no filter |
| Queries.LinkageGroupQueryInjective | org/ncgr/intermine/bio/web/displayer/LinkageGroupDisplayer.java:222-228 | two known pages produce the same query only if they have the same kind and the same id |
| Queries.GeneticMarkerQuery | org/ncgr/intermine/bio/web/displayer/LinkageGroupDisplayer.java:241-250 | marker id, secondary identifier and position, filtered on the group id and sorted ascending by position |
| Queries.QtlQuery | org/ncgr/intermine/bio/web/displayer/LinkageGroupDisplayer.java:259-269 | QTL id, identifier, start and end, filtered on the group id and sorted ascending by start |
| Queries.GroupRoundTrip | org/ncgr/intermine/bio/web/displayer/LinkageGroupDisplayer.java:241-269 | a group's marker and QTL queries name that group, and no marker query equals a QTL query |
| Tracks.MarkerTrackOrder | org/ncgr/intermine/bio/web/displayer/LinkageGroupDisplayer.java:142-164 | a marker track is a triangle track with one item per distinct marker id, in first-seen order, and it is empty exactly when there are no marker rows |
| Tracks.MarkerTrackItems | org/ncgr/intermine/bio/web/displayer/LinkageGroupDisplayer.java:148-161 | each triangle carries the identifier, id and position of the last row with its id, filled dark red and outlined black |
| Tracks.QtlTrackOrder | org/ncgr/intermine/bio/web/displayer/LinkageGroupDisplayer.java:166-193 | a QTL track is a box track with one item per distinct QTL id, in first-seen order, and it is empty exactly when there are no QTL rows |
| Tracks.QtlTrackItems | org/ncgr/intermine/bio/web/displayer/LinkageGroupDisplayer.java:172-190 | each QTL box carries the identifier and id of the last row with its id and the single span [start, end] as given, filled yellow and outlined black |
| LinkageGroupDisplayer.MaxLength | org/ncgr/intermine/bio/web/displayer/LinkageGroupDisplayer.java:64-74 | maxLGLength is at least 0.0 and at least every row's length, rows with repeated ids included. It equals some row's length when positive, and it is 0.0 exactly when no length is positive |
| LinkageGroupDisplayer.TracksFor | org/ncgr/intermine/bio/web/displayer/LinkageGroupDisplayer.java:112-194 | exactly three tracks per group |
| LinkageGroupDisplayer.TracksForTriples | org/ncgr/intermine/bio/web/displayer/LinkageGroupDisplayer.java:113-194 | track 3i is group i's box, track 3i+1 its marker track and track 3i+2 its QTL track |
| LinkageGroupDisplayer.TracksForShapes | org/ncgr/intermine/bio/web/displayer/LinkageGroupDisplayer.java:124-168 | track shapes repeat box, triangle, box |
| LinkageGroupDisplayer.Aggregate | org/ncgr/intermine/bio/web/displayer/LinkageGroupDisplayer.java:54-205 | no output exactly when the linkage-group query returns no rows. Otherwise tracksCount is the number of distinct group ids and there are three tracks per group |
| LinkageGroupDisplayer.AggregateShapes | org/ncgr/intermine/bio/web/displayer/LinkageGroupDisplayer.java:124-168 | the output's track shapes repeat box, triangle, box |
| LinkageGroupDisplayer.AggregateMaxLength | org/ncgr/intermine/bio/web/displayer/LinkageGroupDisplayer.java:64-74 | the reported maxLGLength bounds every row's length, is non-negative, and when positive is one of the lengths |
| LinkageGroupDisplayer.AggregateTracks | org/ncgr/intermine/bio/web/displayer/LinkageGroupDisplayer.java:113-194 | groups appear in first-seen id order. The i-th group's box is purple, outlined black and spans 0.0 to the length of the last row with its id. Its marker and QTL tracks come from the rows fetched for that group |
| LinkageGroupDisplayer.Display | org/ncgr/intermine/bio/web/displayer/LinkageGroupDisplayer.java:59-81 | nothing is displayed exactly when the query for the page's subject returns no rows |
| LinkageGroupDisplayer.DisplayQueriesPerGroup | org/ncgr/intermine/bio/web/displayer/LinkageGroupDisplayer.java:85-109 | each group's marker and QTL tracks are built from the marker and QTL queries filtered on that group's own id |
| LinkageGroupDisplayer.ExampleGeneticMap | org/ncgr/intermine/bio/web/displayer/LinkageGroupDisplayer.java:54-205 | genetic map 5 with LG1 (one marker, one QTL) and LG2 (neither) gives six tracks, tracksCount 2 and maxLGLength 120.5; LG2's marker and QTL tracks are present but empty |
| LinkageGroupDisplayer.ExampleMissingGroup | org/ncgr/intermine/bio/web/displayer/LinkageGroupDisplayer.java:77-81 | a linkage-group page whose group does not exist displays nothing |
| LinkageGroupDisplayer.ExampleRepeatedMarker | org/ncgr/intermine/bio/web/displayer/LinkageGroupDisplayer.java:89-93 | marker rows (10,"a",1.0), (11,"b",2.0), (10,"c",3.0) draw "c" at 3.0 and then "b" at 2.0 |

## Left out

- Query execution (`PathQueryExecutor`, `getResults`, and wrapping its failure in a `RuntimeException`) is left out. Rows reach the model as the values of the three query-engine parameters, so a failing query is not modelled.
- The ORDER BY clauses are kept in the query values. Whether the engine honours them is a property of the engine, not of the displayer, so no sortedness of rows is assumed or proved.
- JSON serialisation (`JSONObject`, the `"tracks"` wrapper object and its key names) is left out. The model produces the structured value the JSON is made from.
- `HttpServletRequest` attributes are modelled as the `Output` fields `tracks`, `tracksCount` and `maxLGLength`.
- Logging and the `System.out` message on early exit are left out, since they are side effects only.
- Java `double` is modelled as `real`. NaN, infinities and rounding are not modelled, so `length > maxLGLength` is an exact comparison.
- `Queries.LinkageGroupQuery`: the constraint value is `String.valueOf(reportId)` in the source. The model stores the integer itself, which identifies the same value.
- Null fields and the unboxing casts on row columns are not modelled. Rows are typed records whose fields are always present.
- Unused locals are not modelled: the LinkageGroup `number` read at line 72, and the row ids read back at lines 118, 151 and 175 (the key is used instead).
- The model is pure, so it does not fix the order in which queries are issued. The source runs all marker queries first and then all QTL queries.
- Which records the store returns for an unfiltered linkage-group query (a page type other than the three known ones) depends on the engine. The model only states that such a query carries no constraint.
- `SequenceBlastForm.java` is a form bean with no logic that feeds the displayer, so it is not part of this model.
