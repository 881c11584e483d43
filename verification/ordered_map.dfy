/**
 * An insertion-ordered map keyed by integer ids, with the semantics of
 * java.util.LinkedHashMap as the displayer uses it: `put` of a new key
 * appends a binding at the end; `put` of a key already present replaces the
 * value in place and keeps the key's original position.
 *
 * Query result rows are collected into such a map keyed by each row's id
 * (`Collect`), and `Represents` states declaratively what that collection
 * holds: every id seen, in first-seen order, each with its last row.
 */
module OrderedMap {
  import opened Wrappers

  /** One key/value binding. */
  datatype Entry<V> = Entry(key: int, value: V)

  /** A map is its bindings in insertion order. */
  type OMap<V> = seq<Entry<V>>

  /** The map's key set, in iteration order (LinkedHashMap.keySet()). */
  function Keys<V>(m: OMap<V>): seq<int>
  {
    seq(|m|, i requires 0 <= i < |m| => m[i].key)
  }

  predicate Distinct(ks: seq<int>)
  {
    forall i, j :: 0 <= i < j < |ks| ==> ks[i] != ks[j]
  }

  lemma KeysCons<V>(m: OMap<V>)
    requires |m| > 0
    ensures Keys(m) == [m[0].key] + Keys(m[1..])
  {
    assert Keys(m) == [m[0].key] + Keys(m[1..]);
  }

  /** Lookup (LinkedHashMap.get): the value bound to `k`, if any. */
  function Get<V>(m: OMap<V>, k: int): (r: Option<V>)
    ensures r.Some? <==> k in Keys(m)
    ensures r.Some? ==> Entry(k, r.value) in m
  {
    if |m| == 0 then None
    else
      KeysCons(m);
      if m[0].key == k then Some(m[0].value) else Get(m[1..], k)
  }

  lemma DistinctTail<V>(m: OMap<V>)
    requires |m| > 0 && Distinct(Keys(m))
    ensures Distinct(Keys(m[1..]))
  {
    forall a, b | 0 <= a < b < |m[1..]|
      ensures Keys(m[1..])[a] != Keys(m[1..])[b]
    {
      assert Keys(m[1..])[a] == Keys(m)[a + 1];
      assert Keys(m[1..])[b] == Keys(m)[b + 1];
    }
  }

  /** In a map without repeated keys, lookup finds the binding at each position. */
  lemma {:induction false} GetAt<V>(m: OMap<V>, i: int)
    requires Distinct(Keys(m))
    requires 0 <= i < |m|
    ensures Get(m, m[i].key) == Some(m[i].value)
  {
    if i > 0 {
      KeysCons(m);
      assert m[0].key == Keys(m)[0] && m[i].key == Keys(m)[i];
      DistinctTail(m);
      GetAt(m[1..], i - 1);
    }
  }

  /**
   * LinkedHashMap.put: a new key is appended at the end; an existing key
   * keeps its position and takes the new value; no other binding changes.
   */
  function Put<V>(m: OMap<V>, k: int, v: V): (r: OMap<V>)
    ensures Keys(r) == if k in Keys(m) then Keys(m) else Keys(m) + [k]
    ensures Get(r, k) == Some(v)
  {
    if |m| == 0 then [Entry(k, v)]
    else
      KeysCons(m);
      if m[0].key == k then
        var r := [Entry(k, v)] + m[1..];
        KeysCons(r);
        assert r[1..] == m[1..];
        r
      else
        var r := [m[0]] + Put(m[1..], k, v);
        KeysCons(r);
        assert r[1..] == Put(m[1..], k, v);
        r
  }

  /** A put leaves the binding of every other key as it was. */
  lemma {:induction false} PutOthers<V>(m: OMap<V>, k: int, v: V, k': int)
    requires k' != k
    ensures Get(Put(m, k, v), k') == Get(m, k')
  {
    if |m| > 0 && m[0].key != k {
      PutOthers(m[1..], k, v, k');
      assert Put(m, k, v)[1..] == Put(m[1..], k, v);
    }
    if |m| > 0 && m[0].key == k {
      assert Put(m, k, v)[1..] == m[1..];
    }
  }

  lemma DistinctSnoc(ks: seq<int>, x: int)
    requires Distinct(ks) && x !in ks
    ensures Distinct(ks + [x])
  {
    forall i, j | 0 <= i < j < |ks + [x]| ensures (ks + [x])[i] != (ks + [x])[j] {
      assert (ks + [x])[i] == ks[i];
      if j == |ks| {
        assert ks[i] in ks;
      }
    }
  }

  /** A put never introduces a repeated key. */
  lemma PutDistinct<V>(m: OMap<V>, k: int, v: V)
    requires Distinct(Keys(m))
    ensures Distinct(Keys(Put(m, k, v)))
  {
    if k !in Keys(m) {
      DistinctSnoc(Keys(m), k);
    }
  }

  /** The ids of a row sequence, in row order. */
  function Ids<V>(rows: seq<V>, idOf: V -> int): seq<int>
  {
    seq(|rows|, i requires 0 <= i < |rows| => idOf(rows[i]))
  }

  /** Position of the first occurrence of `k`. */
  function FirstIndex(ks: seq<int>, k: int): (p: nat)
    requires k in ks
    ensures p < |ks| && ks[p] == k
    ensures forall q :: 0 <= q < p ==> ks[q] != k
  {
    if ks[0] == k then 0 else 1 + FirstIndex(ks[1..], k)
  }

  /** Position of the last occurrence of `k`. */
  function LastIndex(ks: seq<int>, k: int): (p: nat)
    requires k in ks
    ensures p < |ks| && ks[p] == k
    ensures forall q :: p < q < |ks| ==> ks[q] != k
  {
    var n := |ks| - 1;
    if ks[n] == k then n else LastIndex(ks[..n], k)
  }

  /**
   * `m` is what collecting `rows` by id must give: exactly the ids that occur,
   * each once, ordered by where the id first occurs, each bound to the last
   * row carrying that id.
   */
  ghost predicate Represents<V>(m: OMap<V>, rows: seq<V>, idOf: V -> int)
  {
    var ids := Ids(rows, idOf);
    && Distinct(Keys(m))
    && (forall k :: k in Keys(m) <==> k in ids)
    && (forall i, j :: 0 <= i < j < |m| && m[i].key in ids && m[j].key in ids ==>
          FirstIndex(ids, m[i].key) < FirstIndex(ids, m[j].key))
    && (forall i :: 0 <= i < |m| && m[i].key in ids ==> m[i].value == rows[LastIndex(ids, m[i].key)])
  }

  /**
   * The displayer's collection loop: put every row, in order, under its id.
   */
  function Collect<V>(rows: seq<V>, idOf: V -> int): (m: OMap<V>)
    ensures Distinct(Keys(m))
    ensures |m| <= |rows|
  {
    if |rows| == 0 then []
    else
      var last := rows[|rows| - 1];
      var m0 := Collect(rows[..|rows| - 1], idOf);
      PutDistinct(m0, idOf(last), last);
      Put(m0, idOf(last), last)
  }

  /** The ids of rows with one more row appended gain that row's id at the end. */
  lemma IdsSnoc<V>(pre: seq<V>, x: V, idOf: V -> int)
    ensures Ids(pre + [x], idOf) == Ids(pre, idOf) + [idOf(x)]
  {
  }

  /** Appending an element never moves the first occurrence of a value already present. */
  lemma FirstIndexSnoc(ks: seq<int>, x: int, k: int)
    requires k in ks
    ensures FirstIndex(ks + [x], k) == FirstIndex(ks, k)
  {
    var f, g := FirstIndex(ks + [x], k), FirstIndex(ks, k);
    assert (ks + [x])[g] == k;
    assert f < |ks| ==> ks[f] == (ks + [x])[f];
  }

  /** A value appended for the first time occurs first at the end. */
  lemma FirstIndexSnocNew(ks: seq<int>, x: int)
    requires x !in ks
    ensures FirstIndex(ks + [x], x) == |ks|
  {
  }

  /** Appending `x` makes `x`'s last occurrence the new end and leaves the others. */
  lemma LastIndexSnoc(ks: seq<int>, x: int, k: int)
    requires k in ks + [x]
    ensures k == x ==> LastIndex(ks + [x], k) == |ks|
    ensures k != x ==> k in ks && LastIndex(ks + [x], k) == LastIndex(ks, k)
  {
    if k != x {
      assert (ks + [x])[..|ks|] == ks;
    }
  }

  /** A put keeps every earlier key at its position. */
  lemma PutKeepsPositions<V>(m: OMap<V>, k: int, v: V, i: int)
    requires 0 <= i < |m|
    ensures i < |Put(m, k, v)| && Put(m, k, v)[i].key == m[i].key
  {
    assert Keys(Put(m, k, v))[i] == Keys(m)[i];
  }

  /** A put of a new key adds it at the end. */
  lemma PutNewAtEnd<V>(m: OMap<V>, k: int, v: V, i: int)
    requires k !in Keys(m)
    requires 0 <= i <= |m|
    ensures i < |Put(m, k, v)|
    ensures i == |m| <==> Put(m, k, v)[i].key == k
  {
    assert Keys(Put(m, k, v))[i] == Put(m, k, v)[i].key;
    if i < |m| {
      assert Keys(m)[i] == m[i].key;
      PutKeepsPositions(m, k, v, i);
    }
  }

  /** Order part of the collection step: keys stay in first-seen order. */
  lemma {:induction false} PutOrder<V>(m0: OMap<V>, pre: seq<V>, x: V, idOf: V -> int)
    requires Represents(m0, pre, idOf)
    ensures var m, ids := Put(m0, idOf(x), x), Ids(pre + [x], idOf);
      forall i, j :: 0 <= i < j < |m| && m[i].key in ids && m[j].key in ids ==>
        FirstIndex(ids, m[i].key) < FirstIndex(ids, m[j].key)
  {
    var k := idOf(x);
    var m, ids0 := Put(m0, k, x), Ids(pre, idOf);
    var ids := ids0 + [k];
    IdsSnoc(pre, x, idOf);
    forall i, j | 0 <= i < j < |m| && m[i].key in ids && m[j].key in ids
      ensures FirstIndex(ids, m[i].key) < FirstIndex(ids, m[j].key)
    {
      if k in Keys(m0) {
        PutKeepsPositions(m0, k, x, i);
        PutKeepsPositions(m0, k, x, j);
        assert m0[i].key in Keys(m0) && m0[j].key in Keys(m0);
        FirstIndexSnoc(ids0, k, m[i].key);
        FirstIndexSnoc(ids0, k, m[j].key);
      } else {
        PutNewAtEnd(m0, k, x, i);
        PutNewAtEnd(m0, k, x, j);
        PutKeepsPositions(m0, k, x, i);
        assert m0[i].key in Keys(m0);
        FirstIndexSnoc(ids0, k, m[i].key);
        if j < |m0| {
          PutKeepsPositions(m0, k, x, j);
          assert m0[j].key in Keys(m0);
          FirstIndexSnoc(ids0, k, m[j].key);
        } else {
          FirstIndexSnocNew(ids0, k);
        }
      }
    }
  }

  /** Value part of the collection step: each key holds its last row. */
  lemma {:induction false} PutValues<V>(m0: OMap<V>, pre: seq<V>, x: V, idOf: V -> int)
    requires Represents(m0, pre, idOf)
    ensures var m, ids := Put(m0, idOf(x), x), Ids(pre + [x], idOf);
      forall i :: 0 <= i < |m| && m[i].key in ids ==> m[i].value == (pre + [x])[LastIndex(ids, m[i].key)]
  {
    var k := idOf(x);
    var m, ids0 := Put(m0, k, x), Ids(pre, idOf);
    var ids := ids0 + [k];
    var rows := pre + [x];
    IdsSnoc(pre, x, idOf);
    forall i | 0 <= i < |m| && m[i].key in ids
      ensures m[i].value == rows[LastIndex(ids, m[i].key)]
    {
      var key := m[i].key;
      GetAt(m, i);
      LastIndexSnoc(ids0, k, key);
      if key != k {
        assert i < |m0| by {
          if k !in Keys(m0) { PutNewAtEnd(m0, k, x, i); }
        }
        PutKeepsPositions(m0, k, x, i);
        PutOthers(m0, k, x, key);
        GetAt(m0, i);
        assert m0[i].key in Keys(m0);
        assert pre[LastIndex(ids0, key)] == rows[LastIndex(ids0, key)];
      }
    }
  }

  /** Key-set part of the collection step: the keys are exactly the ids seen. */
  lemma PutKeySet<V>(m0: OMap<V>, pre: seq<V>, x: V, idOf: V -> int)
    requires forall k :: k in Keys(m0) <==> k in Ids(pre, idOf)
    ensures forall k :: k in Keys(Put(m0, idOf(x), x)) <==> k in Ids(pre + [x], idOf)
  {
    var ids0 := Ids(pre, idOf);
    IdsSnoc(pre, x, idOf);
    forall k ensures k in ids0 + [idOf(x)] <==> k in ids0 || k == idOf(x) {
    }
  }

  /** One step of the collection loop keeps the declarative description. */
  lemma {:induction false} PutStep<V>(m0: OMap<V>, pre: seq<V>, x: V, idOf: V -> int)
    requires Represents(m0, pre, idOf)
    ensures Represents(Put(m0, idOf(x), x), pre + [x], idOf)
  {
    PutDistinct(m0, idOf(x), x);
    PutKeySet(m0, pre, x, idOf);
    PutOrder(m0, pre, x, idOf);
    PutValues(m0, pre, x, idOf);
  }

  /**
   * Collecting rows by id yields the declarative result: all ids seen, each
   * once, in first-seen order, each with the value of its last row.
   */
  lemma {:induction false} CollectSpec<V>(rows: seq<V>, idOf: V -> int)
    ensures Represents(Collect(rows, idOf), rows, idOf)
  {
    if |rows| > 0 {
      var n := |rows| - 1;
      var pre, x := rows[..n], rows[n];
      assert rows == pre + [x];
      var m0 := Collect(pre, idOf);
      assert Collect(rows, idOf) == Put(m0, idOf(x), x);
      CollectSpec(pre, idOf);
      PutStep(m0, pre, x, idOf);
    }
  }

  /** `a` is strictly increasing under `rank`. */
  predicate Ranked(a: seq<int>, rank: int -> int)
  {
    forall i, j :: 0 <= i < j < |a| ==> rank(a[i]) < rank(a[j])
  }

  /** Every element of `a` occurs in `b`. */
  predicate Within(a: seq<int>, b: seq<int>)
  {
    forall i :: 0 <= i < |a| ==> a[i] in b
  }

  lemma RankedTail(a: seq<int>, rank: int -> int)
    requires |a| > 0 && Ranked(a, rank)
    ensures Ranked(a[1..], rank)
    ensures forall p :: 0 <= p < |a[1..]| ==> rank(a[0]) < rank(a[1..][p])
  {
    forall i, j | 0 <= i < j < |a[1..]| ensures rank(a[1..][i]) < rank(a[1..][j]) {
      assert a[1..][i] == a[i + 1] && a[1..][j] == a[j + 1];
    }
    forall p | 0 <= p < |a[1..]| ensures rank(a[0]) < rank(a[1..][p]) {
      assert a[1..][p] == a[p + 1];
    }
  }

  lemma RankedMin(a: seq<int>, rank: int -> int, j: int)
    requires Ranked(a, rank) && 0 <= j < |a|
    ensures rank(a[0]) <= rank(a[j])
  {
    if j > 0 {
      assert rank(a[0]) < rank(a[j]);
    }
  }

  lemma HeadWithin(a: seq<int>, b: seq<int>)
    requires Within(a, b)
    ensures |a| > 0 ==> a[0] in b
  {
  }

  /** Sequences holding the same elements are empty together. */
  lemma WithinEmpty(a: seq<int>, b: seq<int>)
    requires Within(a, b) && Within(b, a)
    ensures |a| == 0 <==> |b| == 0
  {
    HeadWithin(a, b);
    HeadWithin(b, a);
  }

  lemma SameHeadTail(a: seq<int>, b: seq<int>)
    requires |a| > 0 && |b| > 0 && a[0] == b[0] && a[1..] == b[1..]
    ensures a == b
  {
    assert a == [a[0]] + a[1..] && b == [b[0]] + b[1..];
  }

  /** Two ranked sequences holding the same elements start with the same element. */
  lemma SameRankedHead(a: seq<int>, b: seq<int>, rank: int -> int)
    requires |a| > 0 && |b| > 0
    requires Ranked(a, rank) && Ranked(b, rank) && Within(a, b) && Within(b, a)
    ensures a[0] == b[0]
  {
    assert a[0] in b && b[0] in a;
    var i :| 0 <= i < |b| && b[i] == a[0];
    var j :| 0 <= j < |a| && a[j] == b[0];
    RankedMin(a, rank, j);
    RankedMin(b, rank, i);
  }

  /** After a shared head, the remaining elements of one ranked sequence are in the other's tail. */
  lemma WithinTail(a: seq<int>, b: seq<int>, rank: int -> int)
    requires |a| > 0 && |b| > 0 && a[0] == b[0]
    requires Ranked(a, rank) && Within(a, b)
    ensures Within(a[1..], b[1..])
  {
    RankedTail(a, rank);
    forall p | 0 <= p < |a[1..]| ensures a[1..][p] in b[1..] {
      var e := a[1..][p];
      assert rank(a[0]) < rank(e);
      assert e in b by { assert e == a[p + 1]; }
      var q :| 0 <= q < |b| && b[q] == e;
      assert q != 0;
      assert b[1..][q - 1] == e;
    }
  }

  /** Two ranked sequences with the same elements share their head, and their tails stay alike. */
  lemma SameRankedTails(a: seq<int>, b: seq<int>, rank: int -> int)
    requires |a| > 0 && |b| > 0
    requires Ranked(a, rank) && Ranked(b, rank) && Within(a, b) && Within(b, a)
    ensures a[0] == b[0]
    ensures Ranked(a[1..], rank) && Ranked(b[1..], rank)
    ensures Within(a[1..], b[1..]) && Within(b[1..], a[1..])
  {
    SameRankedHead(a, b, rank);
    WithinTail(a, b, rank);
    WithinTail(b, a, rank);
    RankedTail(a, rank);
    RankedTail(b, rank);
  }

  /** Two sequences ordered strictly by the same rank and holding the same elements are equal. */
  lemma {:induction false} SameRankedSeq(a: seq<int>, b: seq<int>, rank: int -> int)
    requires Ranked(a, rank) && Ranked(b, rank)
    requires Within(a, b) && Within(b, a)
    ensures a == b
  {
    WithinEmpty(a, b);
    if |a| > 0 {
      SameRankedTails(a, b, rank);
      SameRankedSeq(a[1..], b[1..], rank);
      SameHeadTail(a, b);
    }
  }

  /** Ranks ids by where they first occur; ids that do not occur rank below all others. */
  function FirstRank(ids: seq<int>): int -> int
  {
    k => if k in ids then FirstIndex(ids, k) else -1
  }

  /** The keys of a description are ranked by first occurrence and are exactly the ids. */
  lemma RepresentsRanked<V>(m: OMap<V>, rows: seq<V>, idOf: V -> int)
    requires Represents(m, rows, idOf)
    ensures Ranked(Keys(m), FirstRank(Ids(rows, idOf)))
    ensures forall k :: k in Keys(m) <==> k in Ids(rows, idOf)
  {
    var ids, a := Ids(rows, idOf), Keys(m);
    forall i, j | 0 <= i < j < |a| ensures FirstRank(ids)(a[i]) < FirstRank(ids)(a[j]) {
      assert a[i] == m[i].key && a[j] == m[j].key;
    }
  }

  lemma SameElementsWithin(a: seq<int>, b: seq<int>, ids: seq<int>)
    requires forall k :: k in a <==> k in ids
    requires forall k :: k in b <==> k in ids
    ensures Within(a, b)
  {
    forall i | 0 <= i < |a| ensures a[i] in b {
      var k := a[i];
      assert k in a;
    }
  }

  /** The declarative description pins the collected map down completely. */
  lemma {:induction false} RepresentsUnique<V>(m1: OMap<V>, m2: OMap<V>, rows: seq<V>, idOf: V -> int)
    requires Represents(m1, rows, idOf) && Represents(m2, rows, idOf)
    ensures m1 == m2
  {
    var ids := Ids(rows, idOf);
    var a, b := Keys(m1), Keys(m2);
    RepresentsRanked(m1, rows, idOf);
    RepresentsRanked(m2, rows, idOf);
    SameElementsWithin(a, b, ids);
    SameElementsWithin(b, a, ids);
    SameRankedSeq(a, b, FirstRank(ids));
    forall i | 0 <= i < |m1| ensures m1[i] == m2[i] {
      assert a[i] == m1[i].key && b[i] == m2[i].key;
      assert m1[i].key in a;
    }
  }

  /** Collecting one more row is one more put. */
  lemma CollectSnoc<V>(rows: seq<V>, x: V, idOf: V -> int)
    ensures Collect(rows + [x], idOf) == Put(Collect(rows, idOf), idOf(x), x)
  {
    assert (rows + [x])[..|rows|] == rows;
  }

  /** The distinct values of a sequence. */
  function Elements(ks: seq<int>): set<int>
  {
    set k | k in ks
  }

  lemma {:induction false} DistinctCard(ks: seq<int>)
    requires Distinct(ks)
    ensures |Elements(ks)| == |ks|
  {
    if |ks| > 0 {
      var t := ks[1..];
      assert Distinct(t) by {
        forall i, j | 0 <= i < j < |t| ensures t[i] != t[j] {
          assert t[i] == ks[i + 1] && t[j] == ks[j + 1];
        }
      }
      DistinctCard(t);
      assert ks[0] !in t by {
        forall i | 0 <= i < |t| ensures t[i] != ks[0] {
          assert t[i] == ks[i + 1];
        }
      }
      assert ks == [ks[0]] + t;
      assert Elements(ks) == Elements(t) + {ks[0]};
    }
  }

  /**
   * A collection holds one binding per distinct id: its size is the number of
   * different ids among the rows (LinkedHashMap.size()).
   */
  lemma CollectSize<V>(rows: seq<V>, idOf: V -> int)
    ensures |Collect(rows, idOf)| == |Elements(Ids(rows, idOf))|
  {
    var m := Collect(rows, idOf);
    CollectSpec(rows, idOf);
    DistinctCard(Keys(m));
    assert Elements(Keys(m)) == Elements(Ids(rows, idOf));
  }

  /**
   * `keys` lists every id occurring in `rows` exactly once, in the order in
   * which each id first occurs.
   */
  ghost predicate FirstSeenOrder<V>(keys: seq<int>, rows: seq<V>, idOf: V -> int)
  {
    var ids := Ids(rows, idOf);
    && (forall i :: 0 <= i < |keys| ==> keys[i] in ids)
    && |keys| == |Elements(ids)|
    && (forall i, j :: 0 <= i < j < |keys| && keys[i] in ids && keys[j] in ids ==>
          FirstIndex(ids, keys[i]) < FirstIndex(ids, keys[j]))
  }

  /** The keys of a collection are the rows' distinct ids in first-seen order. */
  lemma CollectKeysOrder<V>(rows: seq<V>, idOf: V -> int)
    ensures FirstSeenOrder(Keys(Collect(rows, idOf)), rows, idOf)
  {
    var m := Collect(rows, idOf);
    CollectSpec(rows, idOf);
    CollectSize(rows, idOf);
    forall i | 0 <= i < |m| ensures Keys(m)[i] in Ids(rows, idOf) {
      assert Keys(m)[i] in Keys(m);
    }
  }

  /** Every binding of a collection is keyed by its own row's id. */
  lemma CollectKeyIsId<V>(rows: seq<V>, idOf: V -> int)
    ensures var m := Collect(rows, idOf);
      forall i :: 0 <= i < |m| ==> idOf(m[i].value) == m[i].key
  {
    CollectSpec(rows, idOf);
    RepresentsKeyIsId(Collect(rows, idOf), rows, idOf);
  }

  lemma RepresentsKeyIsId<V>(m: OMap<V>, rows: seq<V>, idOf: V -> int)
    requires Represents(m, rows, idOf)
    ensures forall i :: 0 <= i < |m| ==> idOf(m[i].value) == m[i].key
  {
    var ids := Ids(rows, idOf);
    forall i | 0 <= i < |m| ensures idOf(m[i].value) == m[i].key {
      var key := m[i].key;
      assert Keys(m)[i] == key;
      assert key in ids;
      var p := LastIndex(ids, key);
      assert ids[p] == idOf(rows[p]);
    }
  }

  /**
   * A row whose id comes back after another id keeps its first place but
   * carries the later row.
   */
  lemma CollectRepeated<V>(x: V, y: V, z: V, idOf: V -> int)
    requires idOf(x) == idOf(z) != idOf(y)
    ensures Collect([x, y, z], idOf) == [Entry(idOf(z), z), Entry(idOf(y), y)]
  {
    var a, b := idOf(x), idOf(y);
    CollectPair(x, y, idOf);
    CollectSnoc([x, y], z, idOf);
    assert [x, y] + [z] == [x, y, z];
    PutFirst(Entry(a, x), Entry(b, y), z);
  }

  lemma CollectPair<V>(x: V, y: V, idOf: V -> int)
    requires idOf(x) != idOf(y)
    ensures Collect([x, y], idOf) == [Entry(idOf(x), x), Entry(idOf(y), y)]
  {
    CollectSingle(x, idOf);
    CollectSnoc([x], y, idOf);
    assert [x] + [y] == [x, y];
    PutSecond(Entry(idOf(x), x), idOf(y), y);
  }

  lemma CollectSingle<V>(x: V, idOf: V -> int)
    ensures Collect([x], idOf) == [Entry(idOf(x), x)]
  {
    CollectSnoc([], x, idOf);
    assert [] + [x] == [x];
  }

  lemma PutSecond<V>(e: Entry<V>, k: int, v: V)
    requires e.key != k
    ensures Put([e], k, v) == [e, Entry(k, v)]
  {
    assert [e][1..] == [];
  }

  lemma PutFirst<V>(e: Entry<V>, f: Entry<V>, v: V)
    ensures Put([e, f], e.key, v) == [Entry(e.key, v), f]
  {
    assert [e, f][1..] == [f];
  }

  /** Nothing is collected exactly when there are no rows. */
  lemma CollectEmpty<V>(rows: seq<V>, idOf: V -> int)
    ensures |Collect(rows, idOf)| == 0 <==> |rows| == 0
  {
    if |rows| > 0 {
      var n := |rows| - 1;
      var m := Collect(rows, idOf);
      assert m == Put(Collect(rows[..n], idOf), idOf(rows[n]), rows[n]);
      assert idOf(rows[n]) in Keys(m);
    }
  }
}
