/** The rows of the track-listing query (api/repository/tracks_repository.go,
    GetAll) and the clauses that arrange them: `ORDER BY <column> <dir>,
    t.id ASC` and `LIMIT .. OFFSET ..`. Text columns compare by character
    code. */
module QueryRows {
  import opened Wrappers
  import opened Dao

  /** One grouped row: a track, its left-joined artist (None when the
      track's artist id has no artist row) and its number of likes. */
  datatype Row = Row(track: Track, artist: Option<Artist>, likes: nat)

  /** The three columns the listing can be ordered by. */
  datatype Column = IdColumn | TitleColumn | YearColumn

  datatype Order = Order(column: Column, descending: bool)

  // ---------------------------------------------------------------------
  // Three-way comparisons

  function CmpInt(a: int, b: int): int
  {
    if a < b then -1 else if a > b then 1 else 0
  }

  /** Lexicographic comparison by character code. */
  function CmpText(a: string, b: string): int
  {
    if a == [] && b == [] then 0
    else if a == [] then -1
    else if b == [] then 1
    else if a[0] < b[0] then -1
    else if a[0] > b[0] then 1
    else CmpText(a[1..], b[1..])
  }

  lemma {:induction false} CmpTextAntisymmetric(a: string, b: string)
    ensures CmpText(a, b) == -CmpText(b, a)
  {
    if a != [] && b != [] && a[0] == b[0] {
      CmpTextAntisymmetric(a[1..], b[1..]);
    }
  }

  lemma {:induction false} CmpTextZero(a: string, b: string)
    ensures CmpText(a, b) == 0 <==> a == b
  {
    if a != [] && b != [] && a[0] == b[0] {
      CmpTextZero(a[1..], b[1..]);
      assert a == [a[0]] + a[1..] && b == [b[0]] + b[1..];
    }
  }

  lemma {:induction false} CmpTextTransitive(a: string, b: string, c: string)
    requires CmpText(a, b) <= 0 && CmpText(b, c) <= 0
    ensures CmpText(a, c) <= 0
  {
    if a != [] && b != [] && c != [] && a[0] == b[0] == c[0] {
      CmpTextTransitive(a[1..], b[1..], c[1..]);
    }
  }

  /** The comparison of the ORDER BY column in the requested direction. */
  function CmpColumn(a: Track, b: Track, o: Order): int
  {
    var c := match o.column
      case IdColumn => CmpInt(a.id, b.id)
      case TitleColumn => CmpText(a.title, b.title)
      case YearColumn => CmpInt(a.year, b.year);
    if o.descending then -c else c
  }

  lemma ColumnLaws(a: Track, b: Track, c: Track, o: Order)
    ensures CmpColumn(a, b, o) == -CmpColumn(b, a, o)
    ensures CmpColumn(a, b, o) == 0 ==> CmpColumn(a, c, o) == CmpColumn(b, c, o)
    ensures CmpColumn(a, b, o) <= 0 && CmpColumn(b, c, o) <= 0 ==> CmpColumn(a, c, o) <= 0
  {
    if o.column == TitleColumn {
      CmpTextAntisymmetric(a.title, b.title);
      CmpTextZero(a.title, b.title);
      if o.descending {
        CmpTextAntisymmetric(b.title, a.title);
        CmpTextAntisymmetric(c.title, b.title);
        CmpTextAntisymmetric(c.title, a.title);
        if CmpText(c.title, b.title) <= 0 && CmpText(b.title, a.title) <= 0 {
          CmpTextTransitive(c.title, b.title, a.title);
        }
      } else if CmpText(a.title, b.title) <= 0 && CmpText(b.title, c.title) <= 0 {
        CmpTextTransitive(a.title, b.title, c.title);
      }
    }
  }

  /** The full ORDER BY: the column in its direction, then the track id
      ascending. */
  function CmpRows(a: Row, b: Row, o: Order): int
  {
    var d := CmpColumn(a.track, b.track, o);
    if d != 0 then d else CmpInt(a.track.id, b.track.id)
  }

  predicate Leq(a: Row, b: Row, o: Order)
  {
    CmpRows(a, b, o) <= 0
  }

  lemma CmpRowsAntisymmetric(a: Row, b: Row, o: Order)
    ensures CmpRows(a, b, o) == -CmpRows(b, a, o)
  {
    ColumnLaws(a.track, b.track, b.track, o);
  }

  /** Rows that tie on the whole ORDER BY have the same track id. */
  lemma CmpRowsTie(a: Row, b: Row, o: Order)
    requires CmpRows(a, b, o) == 0
    ensures a.track.id == b.track.id
  {
  }

  lemma CmpRowsTransitive(a: Row, b: Row, c: Row, o: Order)
    requires Leq(a, b, o) && Leq(b, c, o)
    ensures Leq(a, c, o)
  {
    ColumnLaws(a.track, b.track, c.track, o);
    ColumnLaws(b.track, c.track, a.track, o);
    ColumnLaws(a.track, c.track, b.track, o);
    ColumnLaws(c.track, a.track, b.track, o);
  }

  /** Every row is ordered before-or-equal every later row. */
  ghost predicate Sorted(s: seq<Row>, o: Order)
  {
    forall i, j :: 0 <= i < j < |s| ==> Leq(s[i], s[j], o)
  }

  /** Rows with the same track id are the same row (one row per track
      after GROUP BY t.id). */
  ghost predicate IdsDetermineRows(s: seq<Row>)
  {
    forall x, y :: x in s && y in s && x.track.id == y.track.id ==> x == y
  }

  // ---------------------------------------------------------------------
  // Sorting, as the ORDER BY clause arranges the grouped rows

  function Insert(x: Row, s: seq<Row>, o: Order): (r: seq<Row>)
    ensures multiset(r) == multiset(s) + multiset{x}
  {
    if s == [] then [x]
    else if Leq(x, s[0], o) then [x] + s
    else
      assert s == [s[0]] + s[1..];
      [s[0]] + Insert(x, s[1..], o)
  }

  function SortRows(s: seq<Row>, o: Order): (r: seq<Row>)
    ensures multiset(r) == multiset(s)
  {
    if s == [] then []
    else
      assert s == [s[0]] + s[1..];
      Insert(s[0], SortRows(s[1..], o), o)
  }

  lemma {:induction false} InsertSorted(x: Row, s: seq<Row>, o: Order)
    requires Sorted(s, o)
    ensures Sorted(Insert(x, s, o), o)
  {
    if s == [] {
    } else if Leq(x, s[0], o) {
      var r := Insert(x, s, o);
      forall i, j | 0 <= i < j < |r| ensures Leq(r[i], r[j], o) {
        if i == 0 && j > 1 {
          CmpRowsTransitive(x, s[0], s[j - 1], o);
        }
      }
    } else {
      CmpRowsAntisymmetric(x, s[0], o);
      var tail := Insert(x, s[1..], o);
      InsertSorted(x, s[1..], o);
      var r := [s[0]] + tail;
      forall i, j | 0 <= i < j < |r| ensures Leq(r[i], r[j], o) {
        if i == 0 {
          var y := tail[j - 1];
          assert y in multiset(tail);
          if y != x {
            assert y in multiset(s[1..]);
            var k :| 0 <= k < |s[1..]| && s[1..][k] == y;
            assert s[k + 1] == y;
          }
        } else {
          assert r[i] == tail[i - 1] && r[j] == tail[j - 1];
        }
      }
    }
  }

  /** The ORDER BY result is sorted; with SortRows' own ensures, it is a
      permutation of its input. */
  lemma {:induction false} SortRowsSorted(s: seq<Row>, o: Order)
    ensures Sorted(SortRows(s, o), o)
  {
    if s != [] {
      SortRowsSorted(s[1..], o);
      InsertSorted(s[0], SortRows(s[1..], o), o);
    }
  }

  /** Two sorted permutations of rows that are determined by their ids
      start with the same row. */
  lemma SortedHeadsAgree(a: seq<Row>, b: seq<Row>, o: Order)
    requires a != []
    requires Sorted(a, o) && Sorted(b, o)
    requires multiset(a) == multiset(b)
    requires IdsDetermineRows(a)
    ensures b != [] && a[0] == b[0]
  {
    assert a[0] in multiset(b);
    assert b[0] in multiset(a);
    var j :| 0 <= j < |b| && b[j] == a[0];
    var i :| 0 <= i < |a| && a[i] == b[0];
    if i != 0 && j != 0 {
      assert Leq(a[0], b[0], o);
      assert Leq(b[0], a[0], o);
      CmpRowsAntisymmetric(a[0], b[0], o);
      CmpRowsTie(a[0], b[0], o);
    }
  }

  lemma TailSorted(s: seq<Row>, o: Order)
    requires s != [] && Sorted(s, o)
    ensures Sorted(s[1..], o)
  {
    var t := s[1..];
    forall i, j | 0 <= i < j < |t| ensures Leq(t[i], t[j], o) {
      assert t[i] == s[i + 1] && t[j] == s[j + 1];
    }
  }

  lemma TailSameRows(a: seq<Row>, b: seq<Row>)
    requires a != [] && b != [] && a[0] == b[0]
    requires multiset(a) == multiset(b)
    ensures multiset(a[1..]) == multiset(b[1..])
  {
    assert a == [a[0]] + a[1..] && b == [b[0]] + b[1..];
    assert multiset(a[1..]) == multiset(a) - multiset{a[0]};
    assert multiset(b[1..]) == multiset(b) - multiset{b[0]};
  }

  /** With the id tiebreak there is exactly one sorted arrangement of rows
      that are determined by their ids: any two sorted permutations of them
      agree, whatever order the rows came in. */
  lemma {:induction false} SortedUnique(a: seq<Row>, b: seq<Row>, o: Order)
    requires Sorted(a, o) && Sorted(b, o)
    requires multiset(a) == multiset(b)
    requires IdsDetermineRows(a)
    ensures a == b
  {
    if a == [] {
      assert |b| == |multiset(b)| == 0;
    } else {
      SortedHeadsAgree(a, b, o);
      TailSorted(a, o);
      TailSorted(b, o);
      TailSameRows(a, b);
      assert forall x :: x in a[1..] ==> x in a;
      SortedUnique(a[1..], b[1..], o);
      assert a == [a[0]] + a[1..] && b == [b[0]] + b[1..];
    }
  }

  // ---------------------------------------------------------------------
  // LIMIT / OFFSET

  function Min(a: int, b: int): int { if a <= b then a else b }

  /** The rows LIMIT `limit` OFFSET `offset` keeps: skip `offset`, take at
      most `limit`. */
  function PageOf(s: seq<Row>, offset: nat, limit: nat): (r: seq<Row>)
    ensures |r| == Min(limit, if offset <= |s| then |s| - offset else 0)
    ensures forall k :: 0 <= k < |r| ==> r[k] == s[offset + k]
  {
    s[Min(offset, |s|)..Min(offset + limit, |s|)]
  }

  /** A window of a sorted listing is sorted. */
  lemma PageSorted(s: seq<Row>, offset: nat, limit: nat, o: Order)
    requires Sorted(s, o)
    ensures Sorted(PageOf(s, offset, limit), o)
  {
    var p := PageOf(s, offset, limit);
    forall i, j | 0 <= i < j < |p| ensures Leq(p[i], p[j], o) {
      assert p[i] == s[offset + i] && p[j] == s[offset + j];
    }
  }

  /** The pages 1..k of size `size`, one after the other. */
  function Pages(s: seq<Row>, size: nat, k: nat): seq<Row>
  {
    if k == 0 then [] else Pages(s, size, k - 1) + PageOf(s, (k - 1) * size, size)
  }

  /** Reading pages 1..k in turn yields exactly the first k * size rows of
      the ordered listing: no row twice, none skipped. */
  lemma {:induction false} PagesArePrefix(s: seq<Row>, size: nat, k: nat)
    ensures Pages(s, size, k) == s[..Min(k * size, |s|)]
  {
    if k > 0 {
      PagesArePrefix(s, size, k - 1);
      var prev := (k - 1) * size;
      var cur := k * size;
      assert cur == prev + size;
      var lo := Min(prev, |s|);
      var hi := Min(cur, |s|);
      assert PageOf(s, prev, size) == s[lo..hi];
      assert s[..lo] + s[lo..hi] == s[..hi];
    }
  }

  /** Enough pages cover the whole listing. */
  lemma PagesCover(s: seq<Row>, size: nat, k: nat)
    requires k * size >= |s|
    ensures Pages(s, size, k) == s
  {
    PagesArePrefix(s, size, k);
  }
}
