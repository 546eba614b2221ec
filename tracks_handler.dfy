/** api/handler/tracks_handler.go: the listing endpoint (defaults, safe
    sort list, metadata, response rows), the PATCH merge of UpdateTracks,
    the record CreateTracks inserts, and the error mapping of DeleteTracks.
    Query-string and path parameters arrive as raw text ("" when absent);
    JSON decoding of request bodies and the validator's struct tags are not
    part of this model, so a body arrives already decoded and validated. */
module TracksHandler {
  import opened Wrappers
  import opened GoText
  import opened Dao
  import opened Helper
  import opened QueryRows
  import opened TracksRepository

  const StatusBadRequest := 400
  const StatusNotFound := 404
  const StatusConflict := 409
  /** The status echo's Recover middleware answers a panic with (its body
      is the generic "Internal Server Error"). */
  const StatusInternalServerError := 500

  const DefaultPage: Int64 := 1
  const DefaultPageSize: Int64 := 5
  const DefaultSort := "id"
  const SafeSortList := ["id", "title", "year", "-id", "-title", "-year"]

  const ConflictMessage := "conflicting database"
  const ArtistMissingMessage := "artist doesnt exist"
  const ArtistNotFoundMessage := "artist not found!"
  const InvalidIdMessage := "invalid id parameter"
  /** The text UpdateTracks compares the repository's error with. */
  const UpdateMissingText := "trackGet doesnt exist"
  /** The runtime error of dereferencing the nil track pointer. */
  const NilDereference := "invalid memory address or nil pointer dereference"

  /** An error answer: HTTP status and message. For a recovered panic the
      message records the panic value, which is logged; the client only
      sees the generic 500 body. */
  datatype HttpError = HttpError(status: int, message: string)

  /** The raw query parameters of GET /v1/tracks. */
  datatype ListParams = ListParams(title: string, artist: string, genres: string,
                                   page: string, pageSize: string, sort: string)

  datatype Metadata = Metadata(currentPage: Int64, pageSize: Int64, firstPage: int, lastPage: nat, totalRecord: nat)

  /** dto.TrackGetAllResponse. */
  datatype TrackRow = TrackRow(track: Track, artist: Artist, likes: int)

  datatype ListResponse = ListResponse(message: string, metadata: Metadata, data: seq<TrackRow>)

  // ---------------------------------------------------------------------
  // GET /v1/tracks

  /** `int64(math.Ceil(float64(total) / float64(size)))`, in exact integer
      arithmetic. */
  function CeilDiv(total: nat, size: nat): (r: nat)
    requires size >= 1
    ensures r * size >= total
    ensures r >= 1 ==> (r - 1) * size < total
    ensures r == 0 <==> total == 0
  {
    (total + size - 1) / size
  }

  function ListPaginatings(p: ListParams): Paginatings
  {
    Paginatings(ReadIntQuery(p.page, DefaultPage), ReadIntQuery(p.pageSize, DefaultPageSize))
  }

  function ListSortings(p: ListParams): Sortings
  {
    Sortings(ReadStrQuery(p.sort, DefaultSort), SafeSortList)
  }

  function ListGenres(p: ListParams): seq<string>
  {
    ReadCSVQuery(p.genres, [])
  }

  /** `%s` of a []string: the elements separated by spaces, in brackets. */
  function GenreText(genre: seq<string>): (r: string)
    ensures |r| >= 2 && r[0] == '[' && r[|r| - 1] == ']'
    ensures genre == [] ==> r == "[]"
  {
    if genre == [] then "[]" else "[" + Join(genre, ' ') + "]"
  }

  /** Genres without spaces can be read back from the brackets. */
  lemma GenreTextShowsGenres(genre: seq<string>)
    requires genre != []
    requires forall g :: g in genre ==> ' ' !in g
    ensures var r := GenreText(genre);
            Split(r[1..|r| - 1], ' ') == genre
  {
    var r := GenreText(genre);
    assert r[1..|r| - 1] == Join(genre, ' ');
    JoinThenSplit(genre, ' ');
  }

  /** The response message that echoes the request: it starts with the
      title and ends with the sort key. */
  function ListMessage(title: string, artist: string, genre: seq<string>, p: Paginatings, sort: string): (r: string)
    ensures HasPrefix(r, "Title:" + title)
    ensures |r| >= |sort| && r[|r| - |sort|..] == sort
  {
    "Title:" + title + " Artist:" + artist + " Genre:" + GenreText(genre)
    + " Page:" + FormatInt(p.page) + " PageSize:" + FormatInt(p.pageSize) + " Sort:" + sort
  }

  /** The metadata of a listing of `total` matching rows: first page 1,
      the request's page and size, the total, and as last page the
      smallest page count that holds the total (0 when nothing matches). */
  function MetadataOf(p: Paginatings, total: nat): (m: Metadata)
    requires p.pageSize >= 1
    ensures m.firstPage == 1 && m.currentPage == p.page && m.pageSize == p.pageSize && m.totalRecord == total
    ensures m.lastPage * p.pageSize >= total
    ensures m.lastPage >= 1 ==> (m.lastPage - 1) * p.pageSize < total
    ensures m.lastPage == 0 <==> total == 0
  {
    Metadata(p.page, p.pageSize, 1, CeilDiv(total, p.pageSize), total)
  }

  /** The answer of GetAllTracks: a failed Validate is a 400 with its
      message; the unsafe-sort panic is a 500; any other repository error
      is a 409; otherwise the metadata and one response row per track. */
  function ListTracks(t: Tables, textMatch: TextMatch, p: ListParams): (r: Result<ListResponse, HttpError>)
    ensures r.Err? ==> r.error.status in {StatusBadRequest, StatusConflict, StatusInternalServerError}
    ensures ListPaginatings(p).Validate().Some? ==> r == Err(HttpError(StatusBadRequest, ListPaginatings(p).Validate().value))
    ensures r.Ok? ==> |r.value.data| <= ListPaginatings(p).pageSize
    ensures r.Ok? ==> (r.value.metadata.totalRecord == 0 <==> r.value.data == [])
  {
    var title := ReadStrQuery(p.title, "");
    var artist := ReadStrQuery(p.artist, "");
    var genre := ListGenres(p);
    var paginating := ListPaginatings(p);
    match paginating.Validate()
    case Some(msg) => Err(HttpError(StatusBadRequest, msg))
    case None =>
      var sorting := ListSortings(p);
      match ListAll(t, textMatch, title, artist, sorting, paginating, genre)
      case Err(UnsafeSort) => Err(HttpError(StatusInternalServerError, UnsafeSortMessage))
      case Err(_) => Err(HttpError(StatusConflict, ConflictMessage))
      case Ok(l) =>
        Ok(ListResponse(
          ListMessage(title, artist, genre, paginating, sorting.sorts),
          MetadataOf(paginating, l.total),
          ResponseRows(l.tracks, l.artists, l.likes)))
  }

  /** Row i of the response pairs the i-th track, artist and like count. */
  function ResponseRows(tracks: seq<Track>, artists: seq<Artist>, likes: seq<int>): (r: seq<TrackRow>)
    ensures |r| == |tracks|
    ensures forall i :: 0 <= i < |tracks| && i < |artists| && i < |likes| ==>
              r[i] == TrackRow(tracks[i], artists[i], likes[i])
  {
    seq(|tracks|, i requires 0 <= i < |tracks| =>
      if i < |artists| && i < |likes| then TrackRow(tracks[i], artists[i], likes[i])
      else TrackRow(tracks[i], Artist(0, ""), 0))
  }

  /** The indexed loop that fills `make([]TrackGetAllResponse, n)` from the
      three aligned slices. */
  method ZipRows(tracks: seq<Track>, artists: seq<Artist>, likes: seq<int>) returns (rows: array<TrackRow>)
    requires |artists| >= |tracks| && |likes| >= |tracks|
    ensures fresh(rows)
    ensures rows.Length == |tracks|
    ensures forall i :: 0 <= i < |tracks| ==> rows[i] == TrackRow(tracks[i], artists[i], likes[i])
  {
    rows := new TrackRow[|tracks|];
    for i := 0 to |tracks|
      invariant forall k :: 0 <= k < i ==> rows[k] == TrackRow(tracks[k], artists[k], likes[k])
    {
      rows[i] := TrackRow(tracks[i], artists[i], likes[i]);
    }
  }

  /** GetAllTracks: reads the parameters with their defaults, validates
      the pagination before any query, lists, then shapes the answer. */
  method GetAllTracks(t: Tables, textMatch: TextMatch, p: ListParams) returns (r: Result<ListResponse, HttpError>)
    ensures r == ListTracks(t, textMatch, p)
  {
    var title := ReadStrQuery(p.title, "");
    var artist := ReadStrQuery(p.artist, "");
    var genre := ReadCSVQuery(p.genres, []);
    var paginating := Paginatings(ReadIntQuery(p.page, DefaultPage), ReadIntQuery(p.pageSize, DefaultPageSize));
    var invalid := paginating.Validate();
    if invalid.Some? {
      return Err(HttpError(StatusBadRequest, invalid.value));
    }
    var sorting := Sortings(ReadStrQuery(p.sort, DefaultSort), SafeSortList);
    var tracks, artists, likes, total, err := GetAll(t, textMatch, title, artist, sorting, paginating, genre);
    if err.Some? {
      if err.value == UnsafeSort {
        return Err(HttpError(StatusInternalServerError, UnsafeSortMessage));
      }
      return Err(HttpError(StatusConflict, ConflictMessage));
    }
    var metadata := Metadata(paginating.page, paginating.pageSize, 1, CeilDiv(total, paginating.pageSize), total);
    var rows := ZipRows(tracks, artists, likes);
    var message := ListMessage(title, artist, genre, paginating, sorting.sorts);
    assert rows[..] == ResponseRows(tracks, artists, likes);
    return Ok(ListResponse(message, metadata, rows[..]));
  }

  // ---------------------------------------------------------------------
  // Properties of the listing endpoint

  /** With no parameters the listing is page 1 of size 5, sorted by id,
      unfiltered. */
  lemma DefaultRequest(t: Tables, textMatch: TextMatch)
    ensures var p := ListParams("", "", "", "", "", "");
            && ListPaginatings(p) == Paginatings(1, 5)
            && ListSortings(p).sorts == "id"
            && ListGenres(p) == []
            && ListTracks(t, textMatch, p).Ok? == ListAll(t, textMatch, "", "", ListSortings(p), Paginatings(1, 5), []).Ok?
  {
  }

  /** A pagination that fails Validate is answered with 400 and Validate's
      message before the tables are read: the answer is the same whatever
      the tables hold. */
  lemma InvalidPaginationFirst(t1: Tables, t2: Tables, textMatch: TextMatch, p: ListParams)
    requires ListPaginatings(p).Validate().Some?
    ensures ListTracks(t1, textMatch, p) == ListTracks(t2, textMatch, p)
    ensures ListTracks(t1, textMatch, p) == Err(HttpError(StatusBadRequest, ListPaginatings(p).Validate().value))
  {
  }

  /** The sort parameter: keys outside {id, title, year, -id, -title, -year}
      (once defaulted) panic, answered 500 with "unsafe sort"; the six safe
      keys never do, so a valid request then either lists or is a 409. */
  lemma SortAllowList(t: Tables, textMatch: TextMatch, p: ListParams)
    requires ListPaginatings(p).Validate().None?
    ensures var r := ListTracks(t, textMatch, p);
            && (ListSortings(p).sorts !in SafeSortList <==> r == Err(HttpError(StatusInternalServerError, UnsafeSortMessage)))
            && (ListSortings(p).sorts in SafeSortList ==> r.Ok? || r == Err(HttpError(StatusConflict, ConflictMessage)))
  {
    var title := ReadStrQuery(p.title, "");
    var artist := ReadStrQuery(p.artist, "");
    ListAllErrors(t, textMatch, title, artist, ListSortings(p), ListPaginatings(p), ListGenres(p));
  }

  /** A successful listing: Validate passed, ListAll succeeded, and the
      answer carries the metadata of its total and its response rows. */
  lemma ListTracksOk(t: Tables, textMatch: TextMatch, p: ListParams)
    requires ListTracks(t, textMatch, p).Ok?
    ensures var pg := ListPaginatings(p);
            var l := ListAll(t, textMatch, ReadStrQuery(p.title, ""), ReadStrQuery(p.artist, ""), ListSortings(p), pg, ListGenres(p));
            var resp := ListTracks(t, textMatch, p).value;
            && pg.Validate().None? && l.Ok?
            && resp.metadata == MetadataOf(pg, l.value.total)
            && resp.data == ResponseRows(l.value.tracks, l.value.artists, l.value.likes)
  {
  }

  /** The metadata of a listing: first page 1, the request's page and size,
      ListAll's total, and the last page MetadataOf computes for it, which
      is the smallest page count that holds the total. */
  lemma ListMetadata(t: Tables, textMatch: TextMatch, p: ListParams)
    requires ListTracks(t, textMatch, p).Ok?
    ensures var pg := ListPaginatings(p);
            var l := ListAll(t, textMatch, ReadStrQuery(p.title, ""), ReadStrQuery(p.artist, ""), ListSortings(p), pg, ListGenres(p));
            var m := ListTracks(t, textMatch, p).value.metadata;
            && l.Ok?
            && m.firstPage == 1
            && m.currentPage == pg.page && m.pageSize == pg.pageSize
            && m.totalRecord == l.value.total
            && m == MetadataOf(pg, l.value.total)
            && (m.lastPage == 0 <==> m.totalRecord == 0)
  {
    ListTracksOk(t, textMatch, p);
  }

  /** The data of a listing has one row per listed track, row i pairing the
      i-th track, artist and like count. */
  lemma ListData(t: Tables, textMatch: TextMatch, p: ListParams)
    requires ListTracks(t, textMatch, p).Ok?
    ensures var l := ListAll(t, textMatch, ReadStrQuery(p.title, ""), ReadStrQuery(p.artist, ""), ListSortings(p), ListPaginatings(p), ListGenres(p));
            var data := ListTracks(t, textMatch, p).value.data;
            && l.Ok?
            && |data| == |l.value.tracks|
            && forall i :: 0 <= i < |data| ==> data[i] == TrackRow(l.value.tracks[i], l.value.artists[i], l.value.likes[i])
  {
    ListTracksOk(t, textMatch, p);
    ListAllRows(t, textMatch, ReadStrQuery(p.title, ""), ReadStrQuery(p.artist, ""), ListSortings(p), ListPaginatings(p), ListGenres(p));
  }

  /** Pagination completeness: reading pages 1 .. lastPage of a fixed size
      yields the ordered matching rows exactly, a permutation of all the
      matching rows, and the page after the last is empty. */
  lemma PagesCoverMatches(t: Tables, textMatch: TextMatch, title: string, artist: string,
                          genre: seq<string>, o: Order, size: nat)
    requires size >= 1
    ensures var m := Matching(t, textMatch, title, artist, genre);
            var sorted := SortRows(m, o);
            var last := CeilDiv(|m|, size);
            && Pages(sorted, size, last) == sorted
            && multiset(sorted) == multiset(m)
            && Sorted(sorted, o)
            && PageOf(sorted, last * size, size) == []
  {
    var m := Matching(t, textMatch, title, artist, genre);
    var sorted := SortRows(m, o);
    assert |sorted| == |multiset(sorted)| == |multiset(m)| == |m|;
    PagesCover(sorted, size, CeilDiv(|m|, size));
    SortRowsSorted(m, o);
  }

  /** The worked example of a listing of 7 matching tracks with page size
      5: two pages, the second holding the remaining 2. */
  lemma SevenTracksTwoPages()
    ensures CeilDiv(7, 5) == 2
    ensures forall s: seq<Row> :: |s| == 7 ==> |PageOf(s, 0, 5)| == 5 && |PageOf(s, 5, 5)| == 2
  {
  }

  // ---------------------------------------------------------------------
  // PATCH /v1/tracks/:tracksId

  /** dto.TrackUpdateRequest after decoding: None for an absent (nil)
      field. An artist object without a name counts as no artist. */
  datatype TrackPatch = TrackPatch(
    artistName: Option<string>,
    title: Option<string>,
    duration: Option<Int64>,
    year: Option<Int64>,
    genre: Option<seq<string>>)

  /** dto.TrackUpdateResponse with the response message. */
  datatype UpdateResponse = UpdateResponse(message: string, track: Track, artist: Artist, likes: int)

  /** The merged record: each present field overwrites, each absent one
      keeps the current value; the artist id is the looked-up artist's id
      when one was found. */
  function Merge(current: Track, artistId: Option<int>, patch: TrackPatch): (r: Track)
    ensures r.id == current.id && r.createdAt == current.createdAt && r.version == current.version
    ensures r.idArtist == (if artistId.Some? then artistId.value else current.idArtist)
    ensures r.title == (if patch.title.Some? then patch.title.value else current.title)
    ensures r.duration == (if patch.duration.Some? then patch.duration.value else current.duration)
    ensures r.year == (if patch.year.Some? then patch.year.value else current.year)
    ensures r.genre == (if patch.genre.Some? then patch.genre.value else current.genre)
  {
    var withArtist := if artistId.Some? then current.(idArtist := artistId.value) else current;
    var withTitle := if patch.title.Some? then withArtist.(title := patch.title.value) else withArtist;
    var withDuration := if patch.duration.Some? then withTitle.(duration := patch.duration.value) else withTitle;
    var withYear := if patch.year.Some? then withDuration.(year := patch.year.value) else withDuration;
    if patch.genre.Some? then withYear.(genre := patch.genre.value) else withYear
  }

  /** An empty patch changes nothing. */
  lemma MergeEmpty(current: Track)
    ensures Merge(current, None, TrackPatch(None, None, None, None, None)) == current
  {
  }

  /** Applying the same patch twice is applying it once. */
  lemma MergeIdempotent(current: Track, artistId: Option<int>, patch: TrackPatch)
    ensures Merge(Merge(current, artistId, patch), artistId, patch) == Merge(current, artistId, patch)
  {
  }

  /** Applying a patch after another is a merge of the two, the later field
      winning. */
  lemma MergeCompose(current: Track, a1: Option<int>, p1: TrackPatch, a2: Option<int>, p2: TrackPatch)
    ensures Merge(Merge(current, a1, p1), a2, p2)
         == Merge(current, if a2.Some? then a2 else a1, TrackPatch(
              if p2.artistName.Some? then p2.artistName else p1.artistName,
              if p2.title.Some? then p2.title else p1.title,
              if p2.duration.Some? then p2.duration else p1.duration,
              if p2.year.Some? then p2.year else p1.year,
              if p2.genre.Some? then p2.genre else p1.genre))
  {
  }

  /** The repository error mapping of UpdateTracks as written: only the text
      "trackGet doesnt exist" is a 404, everything else a 409. */
  function UpdateErrorAsWritten(msg: string): (r: HttpError)
    ensures r.status == StatusNotFound <==> msg == UpdateMissingText
  {
    if msg == UpdateMissingText then HttpError(StatusNotFound, msg) else HttpError(StatusConflict, ConflictMessage)
  }

  /** The repository error mapping of DeleteTracks, and the one UpdateTracks
      evidently intends: the repository's not-found text is a 404, every
      other error a 409. */
  function RepoErrorResponse(msg: string): (r: HttpError)
    ensures r.status == StatusNotFound <==> msg == TrackMissing
    ensures r.status == StatusNotFound ==> r.message == TrackMissing
    ensures r.status != StatusNotFound ==> r == HttpError(StatusConflict, ConflictMessage)
  {
    if msg == TrackMissing then HttpError(StatusNotFound, msg) else HttpError(StatusConflict, ConflictMessage)
  }

  /** As written, the repository's only not-found text is answered 409, not
      404: the compared text never equals the one the repository returns. */
  lemma UpdateNotFoundIsConflict()
    ensures UpdateErrorAsWritten(TrackMissing) == HttpError(StatusConflict, ConflictMessage)
    ensures RepoErrorResponse(TrackMissing) == HttpError(StatusNotFound, TrackMissing)
    ensures forall msg :: UpdateErrorAsWritten(msg).status == StatusNotFound ==> RepoErrorResponse(msg).status != StatusNotFound
  {
  }

  /** The artist a patch names, looked up by name; None when the patch
      names none or names an unknown one. */
  function PatchArtist(t: Tables, patch: TrackPatch): Option<Artist>
  {
    if patch.artistName.Some? then ArtistByName(t.artists, patch.artistName.value) else None
  }

  /** The record UpdateTracks stores for track id and the patch on tables
      t: the current record merged with the patch, the version bumped;
      None when nothing is written (an unknown artist name, or no track). */
  function UpdateStored(t: Tables, id: int, patch: TrackPatch): (r: Option<Track>)
    ensures r.Some? ==> GetId(t, id).Some?
    ensures r.Some? ==> var current := GetId(t, id).value.track;
            r.value.id == id && r.value.createdAt == current.createdAt && r.value.version == current.version + 1
  {
    var current := GetId(t, id);
    var found := PatchArtist(t, patch);
    if (patch.artistName.Some? && found.None?) || current.None? then None
    else
      var row := current.value;
      Some(Merge(row.track, if found.Some? then Some(found.value.id) else None, patch).(version := row.track.version + 1))
  }

  /** The answer of UpdateTracks for track id and the patch on tables t: a
      given artist name that names no artist is a 404; otherwise a track
      GetId did not find is the nil-pointer panic, answered 500; otherwise
      the stored record is echoed with its artist and like count. */
  function UpdateAnswer(t: Tables, id: int, patch: TrackPatch): (r: Result<UpdateResponse, HttpError>)
    ensures r.Err? ==> r.error.status == StatusNotFound || r.error.status == StatusInternalServerError
    ensures r.Ok? ==> UpdateStored(t, id, patch).Some? && r.value.track == UpdateStored(t, id, patch).value
    ensures r.Ok? ==> r.value.track.id == id
  {
    var current := GetId(t, id);
    var found := PatchArtist(t, patch);
    if patch.artistName.Some? && found.None? then Err(HttpError(StatusNotFound, ArtistMissingMessage))
    else if current.None? then Err(HttpError(StatusInternalServerError, NilDereference))
    else
      var row := current.value;
      Ok(UpdateResponse("Success update tracks " + FormatInt(id), UpdateStored(t, id, patch).value,
                        if found.Some? then found.value else row.artist.value, row.likes))
  }

  /** The cases of an update: an unknown artist name is a 404 and writes
      nothing, whether or not the track exists; a missing track is a 500
      and writes nothing; otherwise exactly the patched fields change, the
      id and creation time stay, the version goes up by one, the artist id
      becomes the named artist's (whose row is echoed), and the likes are
      the track's. */
  lemma UpdateCases(t: Tables, id: int, patch: TrackPatch)
    ensures var r := UpdateAnswer(t, id, patch);
            var stored := UpdateStored(t, id, patch);
            && (stored.Some? <==> r.Ok?)
            && (patch.artistName.Some? && (forall a :: a in t.artists ==> a.name != patch.artistName.value) ==>
                  r == Err(HttpError(StatusNotFound, ArtistMissingMessage)))
            && (!(patch.artistName.Some? && PatchArtist(t, patch).None?) && GetId(t, id).None? ==>
                  r == Err(HttpError(StatusInternalServerError, NilDereference)))
            && (r.Ok? ==>
                  var row := GetId(t, id).value;
                  var s := stored.value;
                  && row.track.id == id && row.track in t.tracks
                  && s == r.value.track
                  && s.id == id && s.createdAt == row.track.createdAt && s.version == row.track.version + 1
                  && s.title == (if patch.title.Some? then patch.title.value else row.track.title)
                  && s.duration == (if patch.duration.Some? then patch.duration.value else row.track.duration)
                  && s.year == (if patch.year.Some? then patch.year.value else row.track.year)
                  && s.genre == (if patch.genre.Some? then patch.genre.value else row.track.genre)
                  && (patch.artistName.Some? ==>
                        r.value.artist in t.artists && r.value.artist.name == patch.artistName.value
                        && s.idArtist == r.value.artist.id)
                  && (patch.artistName.None? ==> s.idArtist == row.track.idArtist && Some(r.value.artist) == row.artist)
                  && r.value.likes == row.likes)
  {
  }

  /** UpdateTracks: the id parameter's parse error is ignored, so an
      unparsable id reads as track 0; the rest is UpdateById. */
  method UpdateTracks(db: Database, rawId: string, patch: TrackPatch) returns (r: Result<UpdateResponse, HttpError>)
    requires db.Valid()
    modifies db
    ensures db.Valid()
    ensures db.artists == old(db.artists) && db.likes == old(db.likes)
    ensures r == UpdateAnswer(old(db.Snapshot()), ReadIdParam(rawId).0, patch)
    ensures UpdateStored(old(db.Snapshot()), ReadIdParam(rawId).0, patch).None? ==> db.tracks == old(db.tracks)
    ensures var stored := UpdateStored(old(db.Snapshot()), ReadIdParam(rawId).0, patch);
            stored.Some? ==> db.Rows() == old(db.Rows())[ReadIdParam(rawId).0 := stored.value]
  {
    var parsed := ReadIdParam(rawId);
    r := UpdateById(db, parsed.0, patch);
  }

  /** UpdateTracks once the id is read: the current row is read with
      GetId, whose error is ignored, a given artist name is looked up (404
      when unknown), the patch is merged field by field and the repository
      Update stores it. When GetId found nothing the track pointer is nil,
      and the first field write, or Update itself, dereferences it: a
      panic, answered 500. */
  method UpdateById(db: Database, id: Int64, patch: TrackPatch) returns (r: Result<UpdateResponse, HttpError>)
    requires db.Valid()
    modifies db
    ensures db.Valid()
    ensures db.artists == old(db.artists) && db.likes == old(db.likes)
    ensures r == UpdateAnswer(old(db.Snapshot()), id, patch)
    ensures UpdateStored(old(db.Snapshot()), id, patch).None? ==> db.tracks == old(db.tracks)
    ensures var stored := UpdateStored(old(db.Snapshot()), id, patch);
            stored.Some? ==> db.Rows() == old(db.Rows())[id := stored.value]
  {
    var current := GetId(db.Snapshot(), id);
    var artistGet: Option<Artist> := if current.Some? then current.value.artist else None;
    var newArtistId: Option<int> := None;
    if patch.artistName.Some? {
      var found := ArtistByName(db.artists, patch.artistName.value);
      if found.None? {
        return Err(HttpError(StatusNotFound, ArtistMissingMessage));
      }
      artistGet := found;
      newArtistId := Some(found.value.id);
    }
    if current.None? {
      return Err(HttpError(StatusInternalServerError, NilDereference));
    }
    var trackGet := Merge(current.value.track, newArtistId, patch);
    ghost var stored := UpdateStored(db.Snapshot(), id, patch).value;
    assert stored == trackGet.(version := current.value.track.version + 1);
    assert UpdateAnswer(db.Snapshot(), id, patch)
        == Ok(UpdateResponse("Success update tracks " + FormatInt(id), stored, artistGet.value, current.value.likes));
    GetIdEntry(db.Snapshot(), id);
    var saved, err := db.Update(trackGet);
    match err {
      case Some(msg) => return Err(UpdateErrorAsWritten(msg));
      case None =>
    }
    assert saved == stored;
    return Ok(UpdateResponse("Success update tracks " + FormatInt(id), saved, artistGet.value, current.value.likes));
  }

  // ---------------------------------------------------------------------
  // DELETE /v1/tracks/:tracksId

  /** DeleteTracks: an unparsable id is a 400; the repository's not-found
      is a 404 with its text; the row is otherwise removed. */
  method DeleteTracks(db: Database, rawId: string) returns (r: Result<string, HttpError>)
    requires db.Valid()
    modifies db
    ensures db.Valid()
    ensures db.artists == old(db.artists) && db.likes == old(db.likes)
    ensures ReadIdParam(rawId).1 ==> r == Err(HttpError(StatusBadRequest, InvalidIdMessage)) && db.tracks == old(db.tracks)
    ensures !ReadIdParam(rawId).1 ==>
              var id := ReadIdParam(rawId).0;
              && db.Rows() == old(db.Rows()) - {id}
              && (id in old(db.Rows()) ==> r == Ok("succesfully delete task " + FormatInt(id)))
              && (id !in old(db.Rows()) ==> r == Err(HttpError(StatusNotFound, TrackMissing)))
  {
    var parsed := ReadIdParam(rawId);
    if parsed.1 {
      return Err(HttpError(StatusBadRequest, InvalidIdMessage));
    }
    var id := parsed.0;
    var err := db.Delete(id);
    if err.Some? {
      return Err(RepoErrorResponse(err.value));
    }
    return Ok("succesfully delete task " + FormatInt(id));
  }

  // ---------------------------------------------------------------------
  // POST /v1/tracks

  /** dto.TrackPostRequest after decoding and validation. */
  datatype TrackPost = TrackPost(artistName: string, title: string, duration: Int64, year: Int64, genre: seq<string>)

  /** dto.TrackInsertResponse. */
  datatype InsertResponse = InsertResponse(id: int, createdAt: int)

  /** The record CreateTracks builds: the request's title, duration, year
      and genre, the found artist's id, every other field zero. */
  function NewTrack(req: TrackPost, artistId: int): (r: Track)
    ensures r.title == req.title && r.duration == req.duration && r.year == req.year && r.genre == req.genre
    ensures r.idArtist == artistId
    ensures r.id == 0 && r.createdAt == 0 && r.version == 0
  {
    Track(0, 0, artistId, req.title, req.duration, req.year, req.genre, 0)
  }

  /** CreateTracks: looks the artist up by name (404 "artist not found!"
      when there is none), inserts the record and answers with the id and
      creation time the database assigned. */
  method CreateTracks(db: Database, req: TrackPost, newId: int, now: int, initialVersion: int)
    returns (r: Result<InsertResponse, HttpError>)
    requires db.Valid() && TrackIndex(db.tracks, newId).None?
    modifies db
    ensures db.Valid()
    ensures db.artists == old(db.artists) && db.likes == old(db.likes)
    ensures var found := ArtistByName(old(db.artists), req.artistName);
            && (found.None? ==> r == Err(HttpError(StatusNotFound, ArtistNotFoundMessage)) && db.tracks == old(db.tracks))
            && (found.Some? ==>
                  var stored := NewTrack(req, found.value.id).(id := newId, createdAt := now, version := initialVersion);
                  && r == Ok(InsertResponse(newId, now))
                  && db.tracks == old(db.tracks) + [stored]
                  && db.Rows() == old(db.Rows())[newId := stored])
  {
    var artistGet := ArtistByName(db.artists, req.artistName);
    if artistGet.None? {
      return Err(HttpError(StatusNotFound, ArtistNotFoundMessage));
    }
    var tracks := Track(0, 0, 0, req.title, req.duration, req.year, req.genre, 0);
    tracks := tracks.(idArtist := artistGet.value.id);
    var saved := db.Insert(tracks, newId, now, initialVersion);
    return Ok(InsertResponse(saved.id, saved.createdAt));
  }
}
