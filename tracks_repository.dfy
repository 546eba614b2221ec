/** api/repository/tracks_repository.go (with the artist lookup of
    api/repository/artist_repository.go): the track listing query over an
    in-memory snapshot of the tables, and the row operations Insert, Update
    and Delete on a mutable database. */
module TracksRepository {
  import opened Wrappers
  import opened GoText
  import opened Dao
  import opened Helper
  import opened QueryRows

  /** The repository's not-found error text. */
  const TrackMissing := "track doesnt exist"

  /** The tables the listing reads, in physical order. */
  datatype Tables = Tables(tracks: seq<Track>, artists: seq<Artist>, likes: seq<Like>)

  /** The full-text match `to_tsvector('simple', field) @@
      plainto_tsquery('simple', query)`, left uninterpreted. */
  type TextMatch = (string, string) -> bool

  /** Why a listing fails: the "unsafe sort" panic raised while the query
      text is built, a query the database rejects, or a row that cannot be
      scanned (a NULL artist id or name into a non-nullable field). */
  datatype RepoError = UnsafeSort | QueryFailed | ScanFailed

  /** The three aligned result slices and the windowed total. */
  datatype Listing = Listing(tracks: seq<Track>, artists: seq<Artist>, likes: seq<int>, total: nat)

  /** One result row as scanned: `COUNT(*) OVER()` and the grouped row. */
  datatype ResultRow = ResultRow(count: nat, row: Row)

  /** The track id is the primary key. */
  ghost predicate UniqueTrackIds(ts: seq<Track>)
  {
    forall i, j :: 0 <= i < j < |ts| ==> ts[i].id != ts[j].id
  }

  ghost predicate Distinct<T>(s: seq<T>)
  {
    forall i, j :: 0 <= i < j < |s| ==> s[i] != s[j]
  }

  // ---------------------------------------------------------------------
  // Lookups

  /** The position of the track with id `id`, if any. */
  function TrackIndex(ts: seq<Track>, id: int): (r: Option<nat>)
    ensures r.Some? ==> r.value < |ts| && ts[r.value].id == id
    ensures r.Some? ==> forall k :: 0 <= k < r.value ==> ts[k].id != id
    ensures r.None? <==> forall k :: 0 <= k < |ts| ==> ts[k].id != id
  {
    if ts == [] then None
    else if ts[0].id == id then Some(0)
    else match TrackIndex(ts[1..], id)
      case None => None
      case Some(i) => Some(i + 1)
  }

  /** The artist row `LEFT JOIN artist a ON t.idartist = a.id` finds. */
  function ArtistById(artists: seq<Artist>, id: int): (r: Option<Artist>)
    ensures r.Some? ==> r.value in artists && r.value.id == id
    ensures r.None? <==> forall a :: a in artists ==> a.id != id
  {
    if artists == [] then None
    else if artists[0].id == id then Some(artists[0])
    else ArtistById(artists[1..], id)
  }

  /** ArtistRepository.GetByName: the first artist row with that name; None
      stands for sql.ErrNoRows. */
  function ArtistByName(artists: seq<Artist>, name: string): (r: Option<Artist>)
    ensures r.Some? ==> r.value in artists && r.value.name == name
    ensures r.None? <==> forall a :: a in artists ==> a.name != name
  {
    if artists == [] then None
    else if artists[0].name == name then Some(artists[0])
    else ArtistByName(artists[1..], name)
  }

  /** `COUNT(l.id_tracks)` after `LEFT JOIN likes l ON t.id = l.id_tracks`:
      the number of like rows naming the track, 0 when there are none. */
  function LikeCount(likes: seq<Like>, id: int): (n: nat)
    ensures n <= |likes|
    ensures n == 0 <==> forall l :: l in likes ==> l.idTracks != id
  {
    if likes == [] then 0
    else (if likes[0].idTracks == id then 1 else 0) + LikeCount(likes[1..], id)
  }

  /** A track's grouped row: the track, its artist if any, its likes. */
  function RowOf(t: Tables, track: Track): Row
  {
    Row(track, ArtistById(t.artists, track.idArtist), LikeCount(t.likes, track.id))
  }

  /** One grouped row per track, in table order. */
  function JoinRows(t: Tables, ts: seq<Track>): (r: seq<Row>)
    ensures |r| == |ts| && forall i :: 0 <= i < |ts| ==> r[i] == RowOf(t, ts[i])
  {
    seq(|ts|, i requires 0 <= i < |ts| => RowOf(t, ts[i]))
  }

  // ---------------------------------------------------------------------
  // WHERE

  /** `t.genre @> $3`: every requested genre is among the track's genres. */
  predicate ContainsAll(have: seq<string>, want: seq<string>)
  {
    forall g :: g in want ==> g in have
  }

  /** The WHERE clause: three conditions, each skipped when its parameter is
      empty. A track without an artist has a NULL name, which no non-empty
      artist query matches. */
  predicate Passes(r: Row, textMatch: TextMatch, title: string, artist: string, genre: seq<string>)
  {
    && (textMatch(r.track.title, title) || title == "")
    && ((r.artist.Some? && textMatch(r.artist.value.name, artist)) || artist == "")
    && (ContainsAll(r.track.genre, genre) || genre == [])
  }

  function FilterRows(rows: seq<Row>, textMatch: TextMatch, title: string, artist: string, genre: seq<string>): (r: seq<Row>)
    ensures |r| <= |rows|
  {
    if rows == [] then []
    else
      (if Passes(rows[0], textMatch, title, artist, genre) then [rows[0]] else [])
      + FilterRows(rows[1..], textMatch, title, artist, genre)
  }

  /** With all three parameters empty, every row passes; with a non-empty
      artist query, no row without an artist does. */
  lemma PassesCases(r: Row, textMatch: TextMatch, title: string, artist: string, genre: seq<string>)
    ensures title == "" && artist == "" && genre == [] ==> Passes(r, textMatch, title, artist, genre)
    ensures Passes(r, textMatch, title, artist, genre) && artist != "" ==> r.artist.Some?
  {
  }

  /** Rows that all pass are all kept, in order. */
  lemma {:induction false} FilterRowsKeepsAll(rows: seq<Row>, textMatch: TextMatch, title: string, artist: string, genre: seq<string>)
    requires forall i :: 0 <= i < |rows| ==> Passes(rows[i], textMatch, title, artist, genre)
    ensures FilterRows(rows, textMatch, title, artist, genre) == rows
  {
    if rows != [] {
      assert Passes(rows[0], textMatch, title, artist, genre);
      forall i | 0 <= i < |rows| - 1 ensures Passes(rows[1..][i], textMatch, title, artist, genre) {
        assert rows[1..][i] == rows[i + 1];
      }
      FilterRowsKeepsAll(rows[1..], textMatch, title, artist, genre);
      assert [rows[0]] + rows[1..] == rows;
    }
  }

  /** The grouped rows that satisfy the WHERE clause, in table order: at
      most one per track, and with no filter all of them. */
  function Matching(t: Tables, textMatch: TextMatch, title: string, artist: string, genre: seq<string>): (r: seq<Row>)
    ensures |r| <= |t.tracks|
    ensures title == "" && artist == "" && genre == [] ==> r == JoinRows(t, t.tracks)
  {
    var joined := JoinRows(t, t.tracks);
    if title == "" && artist == "" && genre == [] then
      FilterRowsKeepsAll(joined, textMatch, title, artist, genre);
      FilterRows(joined, textMatch, title, artist, genre)
    else
      FilterRows(joined, textMatch, title, artist, genre)
  }

  // ---------------------------------------------------------------------
  // ORDER BY, LIMIT, OFFSET

  /** The output column an ORDER BY name refers to; other names are not
      modelled and count as a rejected query. */
  function ColumnOf(name: string): (r: Option<Column>)
    ensures r == Some(IdColumn) <==> name == "id"
    ensures r == Some(TitleColumn) <==> name == "title"
    ensures r == Some(YearColumn) <==> name == "year"
  {
    if name == "id" then Some(IdColumn)
    else if name == "title" then Some(TitleColumn)
    else if name == "year" then Some(YearColumn)
    else None
  }

  /** The ORDER BY clause a safe sort key produces. */
  function ResolveOrder(s: Sortings): Option<Order>
  {
    match ColumnOf(SortColumnName(s.sorts))
    case None => None
    case Some(c) => Some(Order(c, s.SortDirection() == "DESC"))
  }

  /** The ordered page of grouped rows the query returns. */
  function PageRows(t: Tables, textMatch: TextMatch, title: string, artist: string, genre: seq<string>,
                    o: Order, offset: nat, limit: nat): seq<Row>
  {
    PageOf(SortRows(Matching(t, textMatch, title, artist, genre), o), offset, limit)
  }

  /** The rows as the driver delivers them, each carrying the window count
      of all matching rows. */
  function ResultSet(t: Tables, textMatch: TextMatch, title: string, artist: string, genre: seq<string>,
                     o: Order, offset: nat, limit: nat): (r: seq<ResultRow>)
    ensures var page := PageRows(t, textMatch, title, artist, genre, o, offset, limit);
            |r| == |page| && forall i :: 0 <= i < |r| ==> r[i].row == page[i]
    ensures forall i :: 0 <= i < |r| ==> r[i].count == |Matching(t, textMatch, title, artist, genre)|
  {
    var page := PageRows(t, textMatch, title, artist, genre, o, offset, limit);
    var count := |Matching(t, textMatch, title, artist, genre)|;
    seq(|page|, i requires 0 <= i < |page| => ResultRow(count, page[i]))
  }

  predicate AllHaveArtists(rows: seq<Row>)
  {
    forall i :: 0 <= i < |rows| ==> rows[i].artist.Some?
  }

  /** The three slices read from the rows of a page, and the total they
      report: the window count, or 0 when there is no row to read it from. */
  function ListingOf(page: seq<Row>, count: nat): (l: Listing)
    requires AllHaveArtists(page)
    ensures |l.tracks| == |page| && |l.artists| == |page| && |l.likes| == |page|
    ensures forall i :: 0 <= i < |page| ==>
              l.tracks[i] == page[i].track && page[i].artist == Some(l.artists[i]) && l.likes[i] == page[i].likes
    ensures l.total == if page == [] then 0 else count
  {
    Listing(
      seq(|page|, i requires 0 <= i < |page| => page[i].track),
      seq(|page|, i requires 0 <= i < |page| => page[i].artist.value),
      seq(|page|, i requires 0 <= i < |page| => page[i].likes as int),
      if page == [] then 0 else count)
  }

  /** What GetAll returns: the unsafe-sort panic, a rejected query (an
      unknown column, a negative LIMIT or OFFSET), a scan error when a row
      of the page has no artist, or the aligned slices of the page with the
      total, which is 0 when the page is empty. */
  function ListAll(t: Tables, textMatch: TextMatch, title: string, artist: string,
                   sorting: Sortings, paginating: Paginatings, genre: seq<string>): (r: Result<Listing, RepoError>)
    ensures r == Err(UnsafeSort) <==> sorting.sorts !in sorting.safeSortLists
    ensures r.Ok? ==> |r.value.tracks| == |r.value.artists| == |r.value.likes| <= paginating.Limit()
    ensures r.Ok? ==> (r.value.total == 0 <==> r.value.tracks == [])
  {
    if sorting.sorts !in sorting.safeSortLists then Err(UnsafeSort)
    else match ResolveOrder(sorting)
      case None => Err(QueryFailed)
      case Some(o) =>
        if paginating.Limit() < 0 || paginating.Offset() < 0 then Err(QueryFailed)
        else
          var page := PageRows(t, textMatch, title, artist, genre, o, paginating.Offset(), paginating.Limit());
          var m := Matching(t, textMatch, title, artist, genre);
          assert |SortRows(m, o)| == |multiset(SortRows(m, o))| == |multiset(m)| == |m|;
          if !AllHaveArtists(page) then Err(ScanFailed)
          else Ok(ListingOf(page, |m|))
  }

  /** GetAll: builds the ORDER BY from SortName and SortDirection, runs the
      query, then scans row by row, appending to the three slices and
      overwriting the total with each row's window count; a scan error
      discards everything read so far. */
  method GetAll(t: Tables, textMatch: TextMatch, title: string, artist: string,
                sorting: Sortings, paginating: Paginatings, genre: seq<string>)
    returns (tracks: seq<Track>, artists: seq<Artist>, likes: seq<int>, totalRecords: nat, err: Option<RepoError>)
    ensures var expected := ListAll(t, textMatch, title, artist, sorting, paginating, genre);
            && (err.None? <==> expected.Ok?)
            && (expected.Ok? ==> Listing(tracks, artists, likes, totalRecords) == expected.value)
            && (expected.Err? ==> err == Some(expected.error))
            && (expected.Err? ==> tracks == [] && artists == [] && likes == [] && totalRecords == 0)
  {
    var name := SortName(sorting);
    if name.Err? {
      return [], [], [], 0, Some(UnsafeSort);
    }
    var direction := sorting.SortDirection();
    var column := ColumnOf(name.value);
    if column.None? || paginating.Limit() < 0 || paginating.Offset() < 0 {
      return [], [], [], 0, Some(QueryFailed);
    }
    var o := Order(column.value, direction == "DESC");
    assert ResolveOrder(sorting) == Some(o);
    var rows := ResultSet(t, textMatch, title, artist, genre, o, paginating.Offset(), paginating.Limit());
    ghost var page := PageRows(t, textMatch, title, artist, genre, o, paginating.Offset(), paginating.Limit());
    var failed;
    tracks, artists, likes, totalRecords, failed := ScanRows(rows);
    if failed {
      assert !AllHaveArtists(page) by {
        var i :| 0 <= i < |rows| && rows[i].row.artist.None?;
        assert page[i] == rows[i].row;
      }
      return [], [], [], 0, Some(ScanFailed);
    }
    ghost var l := ListingOf(page, |Matching(t, textMatch, title, artist, genre)|);
    assert tracks == l.tracks && artists == l.artists && likes == l.likes && totalRecords == l.total;
    return tracks, artists, likes, totalRecords, None;
  }

  /** The scan loop of GetAll: appends each row's track, artist and like
      count to the three slices and overwrites the total with the row's
      count; a row without an artist is a scan error that discards
      everything read so far. */
  method ScanRows(rows: seq<ResultRow>)
    returns (tracks: seq<Track>, artists: seq<Artist>, likes: seq<int>, total: nat, failed: bool)
    ensures failed <==> exists i :: 0 <= i < |rows| && rows[i].row.artist.None?
    ensures failed ==> tracks == [] && artists == [] && likes == [] && total == 0
    ensures !failed ==> |tracks| == |rows| && |artists| == |rows| && |likes| == |rows|
    ensures !failed ==> forall k :: 0 <= k < |rows| ==>
              tracks[k] == rows[k].row.track && rows[k].row.artist == Some(artists[k]) && likes[k] == rows[k].row.likes
    ensures !failed ==> total == if rows == [] then 0 else rows[|rows| - 1].count
  {
    tracks, artists, likes, total := [], [], [], 0;
    var i := 0;
    while i < |rows|
      invariant 0 <= i <= |rows|
      invariant |tracks| == i && |artists| == i && |likes| == i
      invariant forall k :: 0 <= k < i ==> rows[k].row.artist.Some?
      invariant forall k :: 0 <= k < i ==>
                  tracks[k] == rows[k].row.track && rows[k].row.artist == Some(artists[k]) && likes[k] == rows[k].row.likes
      invariant total == if i == 0 then 0 else rows[i - 1].count
    {
      var r := rows[i];
      if r.row.artist.None? {
        return [], [], [], 0, true;
      }
      tracks := tracks + [r.row.track];
      artists := artists + [r.row.artist.value];
      likes := likes + [r.row.likes as int];
      total := r.count;
      i := i + 1;
    }
    return tracks, artists, likes, total, false;
  }

  // ---------------------------------------------------------------------
  // Properties of the listing

  lemma {:induction false} FilterRowsMembers(rows: seq<Row>, textMatch: TextMatch, title: string, artist: string, genre: seq<string>)
    ensures forall r :: r in FilterRows(rows, textMatch, title, artist, genre) <==>
              r in rows && Passes(r, textMatch, title, artist, genre)
  {
    if rows != [] {
      FilterRowsMembers(rows[1..], textMatch, title, artist, genre);
      assert rows == [rows[0]] + rows[1..];
    }
  }

  /** Filter conjunction: the matching rows are exactly the grouped rows of
      the table's tracks that pass all three conditions. */
  lemma MatchingMembers(t: Tables, textMatch: TextMatch, title: string, artist: string, genre: seq<string>)
    ensures forall r :: r in Matching(t, textMatch, title, artist, genre) ==>
              r.track in t.tracks && r == RowOf(t, r.track) && Passes(r, textMatch, title, artist, genre)
    ensures forall tr :: tr in t.tracks ==>
              (RowOf(t, tr) in Matching(t, textMatch, title, artist, genre) <==>
               Passes(RowOf(t, tr), textMatch, title, artist, genre))
  {
    var joined := JoinRows(t, t.tracks);
    FilterRowsMembers(joined, textMatch, title, artist, genre);
    forall r | r in joined ensures r.track in t.tracks && r == RowOf(t, r.track) {
      var i :| 0 <= i < |joined| && joined[i] == r;
      assert t.tracks[i] == r.track;
    }
    forall tr | tr in t.tracks ensures RowOf(t, tr) in joined {
      var i :| 0 <= i < |t.tracks| && t.tracks[i] == tr;
      assert joined[i] == RowOf(t, tr);
    }
  }

  lemma {:induction false} FilterRowsDistinct(rows: seq<Row>, textMatch: TextMatch, title: string, artist: string, genre: seq<string>)
    requires Distinct(rows)
    ensures Distinct(FilterRows(rows, textMatch, title, artist, genre))
  {
    if rows != [] {
      var rest := FilterRows(rows[1..], textMatch, title, artist, genre);
      assert Distinct(rows[1..]) by {
        forall i, j | 0 <= i < j < |rows[1..]| ensures rows[1..][i] != rows[1..][j] {
          assert rows[1..][i] == rows[i + 1] && rows[1..][j] == rows[j + 1];
        }
      }
      FilterRowsDistinct(rows[1..], textMatch, title, artist, genre);
      FilterRowsMembers(rows[1..], textMatch, title, artist, genre);
      assert rows[0] !in rows[1..];
      var r := FilterRows(rows, textMatch, title, artist, genre);
      if Passes(rows[0], textMatch, title, artist, genre) {
        forall i, j | 0 <= i < j < |r| ensures r[i] != r[j] {
          assert r[j] == rest[j - 1];
          if i > 0 {
            assert r[i] == rest[i - 1];
          } else {
            assert rest[j - 1] in rest;
          }
        }
      }
    }
  }

  lemma SameIdSameTrack(ts: seq<Track>, a: Track, b: Track)
    requires UniqueTrackIds(ts)
    requires a in ts && b in ts && a.id == b.id
    ensures a == b
  {
    var i :| 0 <= i < |ts| && ts[i] == a;
    var j :| 0 <= j < |ts| && ts[j] == b;
    assert i == j;
  }

  /** With track ids a primary key, the matching rows are distinct and each
      is determined by its track id: one row per track. */
  lemma MatchingOnePerTrack(t: Tables, textMatch: TextMatch, title: string, artist: string, genre: seq<string>)
    requires UniqueTrackIds(t.tracks)
    ensures Distinct(Matching(t, textMatch, title, artist, genre))
    ensures IdsDetermineRows(Matching(t, textMatch, title, artist, genre))
  {
    var joined := JoinRows(t, t.tracks);
    assert Distinct(joined) by {
      forall i, j | 0 <= i < j < |joined| ensures joined[i] != joined[j] {
        assert joined[i].track.id == t.tracks[i].id;
      }
    }
    FilterRowsDistinct(joined, textMatch, title, artist, genre);
    MatchingMembers(t, textMatch, title, artist, genre);
    var m := Matching(t, textMatch, title, artist, genre);
    forall x, y | x in m && y in m && x.track.id == y.track.id ensures x == y {
      SameIdSameTrack(t.tracks, x.track, y.track);
    }
  }

  lemma {:induction false} DistinctCount<T>(s: seq<T>, x: T)
    requires Distinct(s)
    ensures multiset(s)[x] == if x in s then 1 else 0
  {
    if s != [] {
      assert s == [s[0]] + s[1..];
      assert Distinct(s[1..]) by {
        forall i, j | 0 <= i < j < |s[1..]| ensures s[1..][i] != s[1..][j] {
          assert s[1..][i] == s[i + 1] && s[1..][j] == s[j + 1];
        }
      }
      DistinctCount(s[1..], x);
      assert s[0] !in s[1..];
    }
  }

  lemma SameMembersSameMultiset<T>(a: seq<T>, b: seq<T>)
    requires Distinct(a) && Distinct(b)
    requires forall x :: x in a <==> x in b
    ensures multiset(a) == multiset(b)
  {
    forall x ensures multiset(a)[x] == multiset(b)[x] {
      DistinctCount(a, x);
      DistinctCount(b, x);
    }
  }

  /** The listing does not depend on the physical order of the tracks
      table: two tables holding the same tracks under a primary key give
      the same result, thanks to the id tiebreak. */
  lemma ListingIgnoresTableOrder(t1: Tables, t2: Tables, textMatch: TextMatch, title: string, artist: string,
                                 sorting: Sortings, paginating: Paginatings, genre: seq<string>)
    requires t1.artists == t2.artists && t1.likes == t2.likes
    requires UniqueTrackIds(t1.tracks) && UniqueTrackIds(t2.tracks)
    requires forall tr :: tr in t1.tracks <==> tr in t2.tracks
    ensures ListAll(t1, textMatch, title, artist, sorting, paginating, genre)
         == ListAll(t2, textMatch, title, artist, sorting, paginating, genre)
  {
    var m1 := Matching(t1, textMatch, title, artist, genre);
    var m2 := Matching(t2, textMatch, title, artist, genre);
    MatchingMembers(t1, textMatch, title, artist, genre);
    MatchingMembers(t2, textMatch, title, artist, genre);
    MatchingOnePerTrack(t1, textMatch, title, artist, genre);
    MatchingOnePerTrack(t2, textMatch, title, artist, genre);
    assert forall r :: r in m1 <==> r in m2;
    SameMembersSameMultiset(m1, m2);
    assert |m1| == |multiset(m1)| == |multiset(m2)| == |m2|;
    match ResolveOrder(sorting)
    case None =>
    case Some(o) =>
      var s1 := SortRows(m1, o);
      var s2 := SortRows(m2, o);
      SortRowsSorted(m1, o);
      SortRowsSorted(m2, o);
      assert IdsDetermineRows(s1) by {
        forall x | x in s1 ensures x in m1 {
          assert x in multiset(s1);
        }
      }
      SortedUnique(s1, s2, o);
      if paginating.Limit() >= 0 && paginating.Offset() >= 0 {
        assert PageRows(t1, textMatch, title, artist, genre, o, paginating.Offset(), paginating.Limit())
            == PageRows(t2, textMatch, title, artist, genre, o, paginating.Offset(), paginating.Limit());
      }
  }

  /** Provenance, alignment and filtering: the i-th entries of the three
      slices come from one grouped row of a table track that passes the
      filter, its artist is the one its artist id names, and its like count
      counts that track's likes. */
  lemma ListAllRows(t: Tables, textMatch: TextMatch, title: string, artist: string,
                    sorting: Sortings, paginating: Paginatings, genre: seq<string>)
    requires ListAll(t, textMatch, title, artist, sorting, paginating, genre).Ok?
    ensures var l := ListAll(t, textMatch, title, artist, sorting, paginating, genre).value;
            && |l.tracks| == |l.artists| == |l.likes|
            && forall i :: 0 <= i < |l.tracks| ==>
                 && l.tracks[i] in t.tracks
                 && Passes(RowOf(t, l.tracks[i]), textMatch, title, artist, genre)
                 && ArtistById(t.artists, l.tracks[i].idArtist) == Some(l.artists[i])
                 && l.likes[i] == LikeCount(t.likes, l.tracks[i].id)
  {
    var o := ResolveOrder(sorting).value;
    var m := Matching(t, textMatch, title, artist, genre);
    var page := PageRows(t, textMatch, title, artist, genre, o, paginating.Offset(), paginating.Limit());
    MatchingMembers(t, textMatch, title, artist, genre);
    forall r | r in page ensures r in m {
      var k :| 0 <= k < |page| && page[k] == r;
      assert r in multiset(SortRows(m, o));
    }
  }

  /** A successful listing is read from the page of the sorted matching
      rows that Offset() and Limit() select. */
  lemma ListAllPage(t: Tables, textMatch: TextMatch, title: string, artist: string,
                    sorting: Sortings, paginating: Paginatings, genre: seq<string>)
    requires ListAll(t, textMatch, title, artist, sorting, paginating, genre).Ok?
    ensures ResolveOrder(sorting).Some? && paginating.Offset() >= 0 && paginating.Limit() >= 0
    ensures var page := PageOf(SortRows(Matching(t, textMatch, title, artist, genre), ResolveOrder(sorting).value),
                               paginating.Offset(), paginating.Limit());
            && AllHaveArtists(page)
            && ListAll(t, textMatch, title, artist, sorting, paginating, genre)
               == Ok(ListingOf(page, |Matching(t, textMatch, title, artist, genre)|))
  {
  }

  /** Window: the page is the sorted matching rows with Offset() rows
      skipped and at most Limit() taken. */
  lemma ListAllWindow(t: Tables, textMatch: TextMatch, title: string, artist: string,
                      sorting: Sortings, paginating: Paginatings, genre: seq<string>)
    requires ListAll(t, textMatch, title, artist, sorting, paginating, genre).Ok?
    ensures ResolveOrder(sorting).Some? && paginating.Offset() >= 0
    ensures var l := ListAll(t, textMatch, title, artist, sorting, paginating, genre).value;
            var sorted := SortRows(Matching(t, textMatch, title, artist, genre), ResolveOrder(sorting).value);
            && |l.tracks| == Min(paginating.Limit(), if paginating.Offset() <= |sorted| then |sorted| - paginating.Offset() else 0)
            && (forall k :: 0 <= k < |l.tracks| ==> l.tracks[k] == sorted[paginating.Offset() + k].track)
  {
    ListAllPage(t, textMatch, title, artist, sorting, paginating, genre);
  }

  /** Order: the listed tracks are in ORDER BY column, t.id order, each
      before or tied with every later one. */
  lemma ListAllOrdered(t: Tables, textMatch: TextMatch, title: string, artist: string,
                       sorting: Sortings, paginating: Paginatings, genre: seq<string>)
    requires ListAll(t, textMatch, title, artist, sorting, paginating, genre).Ok?
    ensures ResolveOrder(sorting).Some?
    ensures Sorted(JoinRows(t, ListAll(t, textMatch, title, artist, sorting, paginating, genre).value.tracks),
                   ResolveOrder(sorting).value)
  {
    ListAllPage(t, textMatch, title, artist, sorting, paginating, genre);
    var o := ResolveOrder(sorting).value;
    var m := Matching(t, textMatch, title, artist, genre);
    SortRowsSorted(m, o);
    var page := PageOf(SortRows(m, o), paginating.Offset(), paginating.Limit());
    PageSorted(SortRows(m, o), paginating.Offset(), paginating.Limit(), o);
    var l := ListingOf(page, |m|);
    var rows := JoinRows(t, l.tracks);
    forall i, j | 0 <= i < j < |rows| ensures Leq(rows[i], rows[j], o) {
      assert Leq(page[i], page[j], o);
      assert rows[i].track == page[i].track && rows[j].track == page[j].track;
    }
  }

  /** Count consistency: a non-empty page reports the number of matching
      tracks, whatever the page and page size; an empty page reports 0. */
  lemma ListAllTotal(t: Tables, textMatch: TextMatch, title: string, artist: string,
                     sorting: Sortings, p1: Paginatings, p2: Paginatings, genre: seq<string>)
    requires ListAll(t, textMatch, title, artist, sorting, p1, genre).Ok?
    ensures var l := ListAll(t, textMatch, title, artist, sorting, p1, genre).value;
            l.total == if l.tracks == [] then 0 else |Matching(t, textMatch, title, artist, genre)|
    ensures var l1 := ListAll(t, textMatch, title, artist, sorting, p1, genre).value;
            var l2 := ListAll(t, textMatch, title, artist, sorting, p2, genre);
            l2.Ok? && l1.tracks != [] && l2.value.tracks != [] ==> l1.total == l2.value.total
  {
  }

  /** When ListAll fails, which failure it is. */
  lemma ListAllErrors(t: Tables, textMatch: TextMatch, title: string, artist: string,
                      sorting: Sortings, paginating: Paginatings, genre: seq<string>)
    ensures var r := ListAll(t, textMatch, title, artist, sorting, paginating, genre);
            && (r == Err(UnsafeSort) <==> sorting.sorts !in sorting.safeSortLists)
            && (sorting.sorts in sorting.safeSortLists && paginating.Validate().None? && sorting.sorts in ["id", "title", "year", "-id", "-title", "-year"]
                ==> r.Ok? || r == Err(ScanFailed))
  {
    if sorting.sorts in sorting.safeSortLists && paginating.Validate().None? && sorting.sorts in ["id", "title", "year", "-id", "-title", "-year"] {
      assert ResolveOrder(sorting).Some?;
    }
  }

  /** GetId: the grouped row of one track; None stands for sql.ErrNoRows
      and for the scan error of a track without an artist. */
  function GetId(t: Tables, id: int): (r: Option<Row>)
    ensures r.Some? <==> TrackIndex(t.tracks, id).Some? && ArtistById(t.artists, t.tracks[TrackIndex(t.tracks, id).value].idArtist).Some?
    ensures r.Some? ==> r.value.track.id == id && r.value.track in t.tracks && r.value == RowOf(t, r.value.track)
  {
    match TrackIndex(t.tracks, id)
    case None => None
    case Some(i) =>
      var row := RowOf(t, t.tracks[i]);
      if row.artist.None? then None else Some(row)
  }

  // ---------------------------------------------------------------------
  // The tables as a map from id to track

  /** The tracks table keyed by id, built row by row. */
  ghost function IdMap(ts: seq<Track>): map<int, Track>
    requires UniqueTrackIds(ts)
  {
    if ts == [] then map[]
    else
      PrefixUnique(ts, |ts| - 1);
      IdMap(ts[..|ts| - 1])[ts[|ts| - 1].id := ts[|ts| - 1]]
  }

  lemma PrefixUnique(ts: seq<Track>, n: nat)
    requires UniqueTrackIds(ts) && n <= |ts|
    ensures UniqueTrackIds(ts[..n])
  {
    forall i, j | 0 <= i < j < n ensures ts[..n][i].id != ts[..n][j].id {
      assert ts[..n][i] == ts[i] && ts[..n][j] == ts[j];
    }
  }

  /** Every track of the table is its id's entry in the map. */
  lemma {:induction false} IdMapAt(ts: seq<Track>, k: nat)
    requires UniqueTrackIds(ts) && k < |ts|
    ensures ts[k].id in IdMap(ts) && IdMap(ts)[ts[k].id] == ts[k]
    decreases |ts|
  {
    if k < |ts| - 1 {
      var p := ts[..|ts| - 1];
      PrefixUnique(ts, |ts| - 1);
      IdMapAt(p, k);
      assert p[k] == ts[k];
      assert ts[k].id != ts[|ts| - 1].id;
    }
  }

  /** Every entry of the map comes from a position of the table. */
  lemma {:induction false} IdMapBack(ts: seq<Track>, key: int) returns (k: nat)
    requires UniqueTrackIds(ts) && key in IdMap(ts)
    ensures k < |ts| && ts[k].id == key && IdMap(ts)[key] == ts[k]
    decreases |ts|
  {
    if key == ts[|ts| - 1].id {
      k := |ts| - 1;
    } else {
      var p := ts[..|ts| - 1];
      PrefixUnique(ts, |ts| - 1);
      k := IdMapBack(p, key);
      assert p[k] == ts[k];
    }
  }

  /** An id is in the map exactly when TrackIndex finds it, with the track
      at that position as its entry. */
  lemma IdMapIndex(ts: seq<Track>, id: int)
    requires UniqueTrackIds(ts)
    ensures id in IdMap(ts) <==> TrackIndex(ts, id).Some?
    ensures TrackIndex(ts, id).Some? ==> IdMap(ts)[id] == ts[TrackIndex(ts, id).value]
  {
    if id in IdMap(ts) {
      var k := IdMapBack(ts, id);
    }
    if TrackIndex(ts, id).Some? {
      IdMapAt(ts, TrackIndex(ts, id).value);
    }
  }

  /** Removing position i shifts the later tracks down by one. */
  lemma RemoveAt(ts: seq<Track>, i: nat)
    requires i < |ts|
    ensures var r := ts[..i] + ts[i + 1..];
            && |r| == |ts| - 1
            && (forall k :: 0 <= k < i ==> r[k] == ts[k])
            && (forall k :: i <= k < |r| ==> r[k] == ts[k + 1])
  {
  }

  lemma RemoveUnique(ts: seq<Track>, i: nat)
    requires UniqueTrackIds(ts) && i < |ts|
    ensures UniqueTrackIds(ts[..i] + ts[i + 1..])
  {
    var r := ts[..i] + ts[i + 1..];
    RemoveAt(ts, i);
    forall a, b | 0 <= a < b < |r| ensures r[a].id != r[b].id {
      var a' := if a < i then a else a + 1;
      var b' := if b < i then b else b + 1;
      assert r[a] == ts[a'] && r[b] == ts[b'];
    }
  }

  /** Every entry of the map of a table with position i removed (given as
      `r`) is an entry of the original map other than ts[i]'s. */
  lemma IdMapShiftLeft(ts: seq<Track>, r: seq<Track>, i: nat, key: int)
    requires UniqueTrackIds(ts) && UniqueTrackIds(r) && i < |ts|
    requires |r| == |ts| - 1
    requires forall k :: 0 <= k < i ==> r[k] == ts[k]
    requires forall k :: i <= k < |r| ==> r[k] == ts[k + 1]
    requires key in IdMap(r)
    ensures key in IdMap(ts) && key != ts[i].id && IdMap(r)[key] == IdMap(ts)[key]
  {
    var k := IdMapBack(r, key);
    var k' := if k < i then k else k + 1;
    assert r[k] == ts[k'];
    IdMapAt(ts, k');
  }

  lemma IdMapShiftRight(ts: seq<Track>, r: seq<Track>, i: nat, key: int)
    requires UniqueTrackIds(ts) && UniqueTrackIds(r) && i < |ts|
    requires |r| == |ts| - 1
    requires forall k :: 0 <= k < i ==> r[k] == ts[k]
    requires forall k :: i <= k < |r| ==> r[k] == ts[k + 1]
    requires key in IdMap(ts) && key != ts[i].id
    ensures key in IdMap(r)
  {
    var k := IdMapBack(ts, key);
    var j := if k < i then k else k - 1;
    assert r[j] == ts[k];
    IdMapAt(r, j);
  }

  lemma IdMapShift(ts: seq<Track>, r: seq<Track>, i: nat)
    requires UniqueTrackIds(ts) && UniqueTrackIds(r) && i < |ts|
    requires |r| == |ts| - 1
    requires forall k :: 0 <= k < i ==> r[k] == ts[k]
    requires forall k :: i <= k < |r| ==> r[k] == ts[k + 1]
    ensures IdMap(r) == IdMap(ts) - {ts[i].id}
  {
    var m := IdMap(r);
    var n := IdMap(ts) - {ts[i].id};
    forall key | key in m ensures key in n && m[key] == n[key] {
      IdMapShiftLeft(ts, r, i, key);
    }
    forall key | key in n ensures key in m {
      IdMapShiftRight(ts, r, i, key);
    }
    SameEntries(m, n);
  }

  /** The track GetId finds is that id's entry in the map. */
  lemma GetIdEntry(t: Tables, id: int)
    requires UniqueTrackIds(t.tracks) && GetId(t, id).Some?
    ensures id in IdMap(t.tracks) && IdMap(t.tracks)[id] == GetId(t, id).value.track
  {
    IdMapAt(t.tracks, TrackIndex(t.tracks, id).value);
  }

  lemma SameEntries(m: map<int, Track>, n: map<int, Track>)
    requires forall key :: key in m ==> key in n && m[key] == n[key]
    requires forall key :: key in n ==> key in m
    ensures m == n
  {
    forall key | key in m.Keys ensures key in n.Keys {
      assert key in m;
    }
    forall key | key in n.Keys ensures key in m.Keys {
      assert key in n;
    }
    assert m.Keys == n.Keys;
    assert forall key :: key in m ==> m[key] == n[key];
  }

  lemma IdMapRemove(ts: seq<Track>, i: nat)
    requires UniqueTrackIds(ts) && i < |ts|
    ensures UniqueTrackIds(ts[..i] + ts[i + 1..])
    ensures IdMap(ts[..i] + ts[i + 1..]) == IdMap(ts) - {ts[i].id}
  {
    RemoveAt(ts, i);
    RemoveUnique(ts, i);
    IdMapShift(ts, ts[..i] + ts[i + 1..], i);
  }

  lemma IdMapReplace(ts: seq<Track>, i: nat, tr: Track)
    requires UniqueTrackIds(ts) && i < |ts| && tr.id == ts[i].id
    ensures UniqueTrackIds(ts[i := tr])
    ensures IdMap(ts[i := tr]) == IdMap(ts)[tr.id := tr]
  {
    var r := ts[i := tr];
    var m := IdMap(r);
    var n := IdMap(ts)[tr.id := tr];
    forall key | key in m ensures key in n && m[key] == n[key] {
      var k := IdMapBack(r, key);
      IdMapAt(ts, k);
    }
    forall key | key in n ensures key in m {
      if key == tr.id {
        IdMapAt(r, i);
      } else {
        var k := IdMapBack(ts, key);
        IdMapAt(r, k);
      }
    }
    SameEntries(m, n);
  }

  lemma IdMapAppend(ts: seq<Track>, tr: Track)
    requires UniqueTrackIds(ts) && TrackIndex(ts, tr.id).None?
    ensures UniqueTrackIds(ts + [tr])
    ensures IdMap(ts + [tr]) == IdMap(ts)[tr.id := tr]
  {
    var r := ts + [tr];
    forall i, j | 0 <= i < j < |r| ensures r[i].id != r[j].id {
      if j == |ts| {
        assert r[i] == ts[i];
      } else {
        assert r[i] == ts[i] && r[j] == ts[j];
      }
    }
    assert r[..|r| - 1] == ts;
    assert r[|r| - 1] == tr;
    assert IdMap(r) == IdMap(r[..|r| - 1])[tr.id := tr];
  }

  // ---------------------------------------------------------------------
  // The mutable database

  class Database {
    var tracks: seq<Track>
    var artists: seq<Artist>
    var likes: seq<Like>

    ghost predicate Valid()
      reads this
    {
      UniqueTrackIds(tracks)
    }

    /** The tracks table keyed by id. */
    ghost function Rows(): map<int, Track>
      reads this
      requires Valid()
    {
      IdMap(tracks)
    }

    function Snapshot(): Tables
      reads this
    {
      Tables(tracks, artists, likes)
    }

    constructor (ts: seq<Track>, arts: seq<Artist>, ls: seq<Like>)
      requires UniqueTrackIds(ts)
      ensures Valid()
      ensures tracks == ts && artists == arts && likes == ls
    {
      tracks, artists, likes := ts, arts, ls;
    }

    /** Insert: the database assigns the next id and the creation time
        (`newId`, `now`) and the default version; RETURNING writes id and
        created_at back into the caller's record. */
    method Insert(dao: Track, newId: int, now: int, initialVersion: int) returns (saved: Track)
      requires Valid() && TrackIndex(tracks, newId).None?
      modifies this
      ensures Valid()
      ensures saved == dao.(id := newId, createdAt := now)
      ensures tracks == old(tracks) + [saved.(version := initialVersion)]
      ensures Rows() == old(Rows())[newId := saved.(version := initialVersion)]
      ensures artists == old(artists) && likes == old(likes)
    {
      saved := dao.(id := newId, createdAt := now);
      IdMapAppend(tracks, saved.(version := initialVersion));
      tracks := tracks + [saved.(version := initialVersion)];
    }

    /** Update: overwrites artist id, title, duration, year and genre of the
        row with the record's id and increments its version; RETURNING
        version writes the new version into the record. A missing id is the
        error "track doesnt exist" and changes nothing. */
    method Update(dao: Track) returns (saved: Track, err: Option<string>)
      requires Valid()
      modifies this
      ensures Valid()
      ensures artists == old(artists) && likes == old(likes)
      ensures dao.id !in old(Rows()) ==> err == Some(TrackMissing) && saved == dao && tracks == old(tracks)
      ensures dao.id in old(Rows()) ==>
                var current := old(Rows())[dao.id];
                && err.None?
                && saved == dao.(version := current.version + 1)
                && Rows() == old(Rows())[dao.id := saved.(createdAt := current.createdAt)]
    {
      var i := TrackIndex(tracks, dao.id);
      IdMapIndex(tracks, dao.id);
      if i.None? {
        return dao, Some(TrackMissing);
      }
      var current := tracks[i.value];
      saved := dao.(version := current.version + 1);
      IdMapReplace(tracks, i.value, saved.(createdAt := current.createdAt));
      tracks := tracks[i.value := saved.(createdAt := current.createdAt)];
      err := None;
    }

    /** Delete: removes the row with that id; zero affected rows is the
        error "track doesnt exist". */
    method Delete(id: int) returns (err: Option<string>)
      requires Valid()
      modifies this
      ensures Valid()
      ensures artists == old(artists) && likes == old(likes)
      ensures err.Some? <==> id !in old(Rows())
      ensures err.Some? ==> err.value == TrackMissing && tracks == old(tracks)
      ensures Rows() == old(Rows()) - {id}
    {
      var i := TrackIndex(tracks, id);
      IdMapIndex(tracks, id);
      if i.None? {
        assert Rows() - {id} == Rows();
        return Some(TrackMissing);
      }
      IdMapRemove(tracks, i.value);
      tracks := tracks[..i.value] + tracks[i.value + 1..];
      return None;
    }
  }
}
