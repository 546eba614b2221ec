/** utils/helper.go: the pagination and sort policy of the track listing and
    the "empty means default" readers of query-string parameters. The
    readers take the raw parameter text, which is the empty string when the
    parameter is absent. */
module Helper {
  import opened Wrappers
  import opened GoText

  const PageMessage := "page must be greater than 0"
  const PageSizeMessage := "page size must be greater than 0"
  const PageSizeMaxMessage := "page size has maximum of 50"
  const MaxPageSize := 50
  const UnsafeSortMessage := "unsafe sort"

  /** The requested page and page size, as int64 values. */
  datatype Paginatings = Paginatings(page: Int64, pageSize: Int64)
  {
    /** The LIMIT of the listing query. */
    function Limit(): (r: int)
      ensures r == pageSize
    {
      pageSize
    }

    /** The OFFSET of the listing query: the number of rows on the pages
        before this one, as an exact integer. */
    function Offset(): (r: int)
      ensures page == 1 ==> r == 0
      ensures page >= 1 && pageSize >= 1 ==> r >= 0
      ensures page >= 1 && pageSize >= 1 ==> r >= page - 1
    {
      if page >= 1 && pageSize >= 1 then
        OffsetAtLeastPages(page - 1, pageSize);
        (page - 1) * pageSize
      else
        (page - 1) * pageSize
    }

    /** The offset as the source computes it, in 64-bit arithmetic that
        wraps around (both Go conversions are to the 64-bit `int`; wrapping
        the intermediate `page - 1` as well gives the same residue). */
    function OffsetAsWritten(): (r: Int64)
      ensures (r - (page - 1) * pageSize) % 0x1_0000_0000_0000_0000 == 0
      ensures MinInt64 <= (page - 1) * pageSize <= MaxInt64 ==> r == (page - 1) * pageSize
    {
      Wrap64((page - 1) * pageSize)
    }

    /** nil (None) when the page is at least 1 and the page size is between
        1 and 50; otherwise the message of the first check that fails. */
    function Validate(): (r: Option<string>)
      ensures r.None? <==> 1 <= page && 1 <= pageSize <= MaxPageSize
      ensures page < 1 ==> r == Some(PageMessage)
      ensures page >= 1 && pageSize < 1 ==> r == Some(PageSizeMessage)
      ensures page >= 1 && pageSize > MaxPageSize ==> r == Some(PageSizeMaxMessage)
    {
      if page < 1 then Some(PageMessage)
      else if pageSize < 1 then Some(PageSizeMessage)
      else if pageSize > MaxPageSize then Some(PageSizeMaxMessage)
      else None
    }
  }

  /** n pages of at least one row hold at least n rows. */
  lemma {:induction false} OffsetAtLeastPages(n: nat, size: int)
    requires size >= 1
    ensures n * size >= n
  {
    if n > 0 {
      OffsetAtLeastPages(n - 1, size);
      assert n * size == (n - 1) * size + size;
    }
  }

  /** With exact arithmetic, page p + 1 starts exactly one page size after
      page p starts, so consecutive pages neither overlap nor leave gaps. */
  lemma OffsetsConsecutive(p: Paginatings)
    requires p.page < MaxInt64
    ensures Paginatings(p.page + 1, p.pageSize).Offset() == p.Offset() + p.Limit()
  {
  }

  /** Where the exact offset fits an int64, the source's wrapping
      computation agrees with it. */
  lemma OffsetAsWrittenAgrees(p: Paginatings)
    requires p.Offset() <= MaxInt64
    requires p.Validate().None?
    ensures p.OffsetAsWritten() == p.Offset()
  {
  }

  /** A page number that passes Validate but whose offset wraps around to
      0 in 64-bit arithmetic, so that the request for page 2^62 + 1 of size
      4 is answered with the first page; the page before it gets the
      negative offset -4. */
  lemma OffsetWrapsToFirstPage()
    ensures var p := Paginatings(0x4000_0000_0000_0001, 4);
            && p.Validate().None?
            && p.OffsetAsWritten() == 0
            && p.Offset() == 0x1_0000_0000_0000_0000
            && Paginatings(0x4000_0000_0000_0000, 4).OffsetAsWritten() == -4
  {
  }

  /** The requested sort key and the allow-list it must belong to. */
  datatype Sortings = Sortings(sorts: string, safeSortLists: seq<string>)
  {
    /** "DESC" exactly when the key starts with '-', "ASC" otherwise. */
    function SortDirection(): (r: string)
      ensures r == "DESC" || r == "ASC"
      ensures r == "DESC" <==> |sorts| >= 1 && sorts[0] == '-'
    {
      if HasPrefix(sorts, "-") then "DESC" else "ASC"
    }
  }

  /** The column name a safe sort key stands for: at most one leading '-'
      removed. */
  function SortColumnName(sorts: string): (r: string)
    ensures r == sorts || (|sorts| >= 1 && sorts[0] == '-' && r == sorts[1..])
    ensures |sorts| >= 1 && sorts[0] == '-' ==> r == sorts[1..]
  {
    TrimPrefix(sorts, "-")
  }

  /** SortName: scans the allow-list for an exact match and returns the key
      without its leading '-'; a key that matches no entry is the panic
      "unsafe sort" (Err). */
  method SortName(s: Sortings) returns (r: Result<string, string>)
    ensures r.Ok? <==> s.sorts in s.safeSortLists
    ensures r.Ok? ==> r.value == SortColumnName(s.sorts)
    ensures r.Err? ==> r.error == UnsafeSortMessage
  {
    var i := 0;
    while i < |s.safeSortLists|
      invariant 0 <= i <= |s.safeSortLists|
      invariant s.sorts !in s.safeSortLists[..i]
    {
      if s.sorts == s.safeSortLists[i] {
        return Ok(TrimPrefix(s.sorts, "-"));
      }
      i := i + 1;
    }
    assert s.safeSortLists[..i] == s.safeSortLists;
    return Err(UnsafeSortMessage);
  }

  /** ReadStrQuery: the default when the parameter is empty, else the
      parameter itself. */
  function ReadStrQuery(raw: string, def: string): (r: string)
    ensures raw == "" ==> r == def
    ensures raw != "" ==> r == raw
  {
    if raw == "" then def else raw
  }

  /** ReadIntQuery: the default when the parameter is empty or is not a
      decimal int64 (strconv.Atoi fails), else its value. */
  function ReadIntQuery(raw: string, def: Int64): (r: Int64)
    ensures raw == "" || ParseInt(raw).None? ==> r == def
    ensures ParseInt(raw).Some? ==> r == ParseInt(raw).value
  {
    if raw == "" then def
    else match ParseInt(raw)
      case None => def
      case Some(i) => i
  }

  /** A number written in decimal is read back whatever the default. */
  lemma ReadIntQueryFormatted(n: Int64, def: Int64)
    ensures ReadIntQuery(FormatInt(n), def) == n
  {
    FormatThenParse(n);
  }

  /** ReadCSVQuery: the default when the parameter is empty; otherwise the
      comma-separated pieces, one more than there are commas, none
      containing a comma, and joining back to the parameter. */
  function ReadCSVQuery(raw: string, def: seq<string>): (r: seq<string>)
    ensures raw == "" ==> r == def
    ensures raw != "" ==> |r| == Count(raw, ',') + 1
    ensures raw != "" ==> |r| >= 1 && Join(r, ',') == raw
    ensures raw != "" ==> forall piece :: piece in r ==> ',' !in piece
  {
    if raw == "" then def
    else
      SplitLength(raw, ',');
      SplitThenJoin(raw, ',');
      SplitPiecesFree(raw, ',');
      Split(raw, ',')
  }

  /** ReadIdParam: the track id from the path, with an error flag; an
      unparsable parameter gives id 0 with the error, and "0" gives id 0
      without one. */
  function ReadIdParam(raw: string): (r: (Int64, bool))
    ensures r.1 <==> ParseInt(raw).None?
    ensures r.0 != 0 ==> ParseInt(raw) == Some(r.0)
    ensures r.1 ==> r.0 == 0
  {
    match ParseInt(raw)
    case None => (0, true)
    case Some(id) => (id, false)
  }
}
