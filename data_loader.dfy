/** The row-cleaning rules of the Brent price loader: the missing-file and
    required-column checks, the fixed fallback order of date formats, numeric
    coercion with a forward fill in file order, and the final sort by date.

    The file system is a map from paths to CSV frames; parsing a date text with
    a given format and coercing a price text to a number are opaque partial
    functions supplied by the caller. Dates are whole day numbers; the price
    type P is abstract. */
module DataLoader {
  import opened Wrappers

  // ---------------------------------------------------------------------------
  // The raw frame and the checks made before any cleaning
  // ---------------------------------------------------------------------------

  /** A frame as read from CSV: each column name maps to its cells, in file
      order. */
  datatype CsvFrame = CsvFrame(columns: map<string, seq<string>>, rowCount: nat)

  /** Every column has one cell per row. */
  predicate Rectangular(f: CsvFrame) {
    forall c :: c in f.columns ==> |f.columns[c]| == f.rowCount
  }

  const DateColumn: string := "Date"
  const PriceColumn: string := "Price"

  /** all(col in df.columns for col in ['Date', 'Price']) */
  predicate HasRequiredColumns(f: CsvFrame) {
    DateColumn in f.columns && PriceColumn in f.columns
  }

  datatype LoadError =
    | FileNotFound     // FileNotFoundError: the raw path does not exist
    | MissingColumns   // ValueError: Date or Price is not a column
    | DateParseError   // every date format, and generic parsing, failed

  // ---------------------------------------------------------------------------
  // parse_dates: fixed fallback order, one format per column
  // ---------------------------------------------------------------------------

  /** The formats parse_dates tries: DayMonYY is "%d-%b-%y", MonDayCommaYYYY
      is "%b %d, %Y" and IsoYmd is "%Y-%m-%d"; Inferred is pandas' generic
      parsing. */
  datatype DateFormat = DayMonYY | MonDayCommaYYYY | IsoYmd | Inferred

  /** The explicit formats, in the order they are tried. */
  const ExplicitFormats: seq<DateFormat> := [DayMonYY, MonDayCommaYYYY, IsoYmd]

  /** Every attempt parse_dates makes, in order: the explicit formats, then
      generic parsing. */
  const Attempts: seq<DateFormat> := ExplicitFormats + [Inferred]

  /** Parsing one cell with one format: a day number, or None on failure. */
  type DateParser = (DateFormat, string) -> Option<int>

  /** pd.to_datetime(column, format=fmt): every cell is parsed with the same
      format, and one unparseable cell makes the whole call fail. */
  function ToDatetimeColumn(parse: DateParser, fmt: DateFormat, cells: seq<string>): (r: Option<seq<int>>)
    ensures r.Some? <==> forall i :: 0 <= i < |cells| ==> parse(fmt, cells[i]).Some?
    ensures r.Some? ==> |r.value| == |cells| && forall i :: 0 <= i < |cells| ==> parse(fmt, cells[i]) == Some(r.value[i])
  {
    if forall i :: 0 <= i < |cells| ==> parse(fmt, cells[i]).Some? then
      Some(seq(|cells|, i requires 0 <= i < |cells| => parse(fmt, cells[i]).value))
    else
      None
  }

  /** The position, from `from` on, of the first attempt that parses the whole
      column. */
  function FirstParsingAttempt(parse: DateParser, cells: seq<string>, from: nat): (r: Option<nat>)
    requires from <= |Attempts|
    decreases |Attempts| - from
    ensures r.Some? ==>
      && from <= r.value < |Attempts|
      && ToDatetimeColumn(parse, Attempts[r.value], cells).Some?
      && forall j :: from <= j < r.value ==> ToDatetimeColumn(parse, Attempts[j], cells).None?
    ensures r.None? ==> forall j :: from <= j < |Attempts| ==> ToDatetimeColumn(parse, Attempts[j], cells).None?
  {
    if from == |Attempts| then None
    else if ToDatetimeColumn(parse, Attempts[from], cells).Some? then Some(from)
    else FirstParsingAttempt(parse, cells, from + 1)
  }

  /** What parse_dates returns: the column parsed with the first attempt that
      accepts all of it, or None when every attempt fails. */
  function ParsedDates(parse: DateParser, cells: seq<string>): Option<seq<int>> {
    match FirstParsingAttempt(parse, cells, 0)
    case None => None
    case Some(i) => ToDatetimeColumn(parse, Attempts[i], cells)
  }

  /** parse_dates: a loop over the explicit formats that returns the first
      whole-column success, then generic parsing as the last resort. Every
      date of the result comes from the same format. */
  method ParseDates(parse: DateParser, cells: seq<string>) returns (r: Option<seq<int>>)
    ensures r == ParsedDates(parse, cells)
    ensures r.Some? ==> exists i ::
      && 0 <= i < |Attempts|
      && (forall j :: 0 <= j < i ==> ToDatetimeColumn(parse, Attempts[j], cells).None?)
      && forall k :: 0 <= k < |cells| ==> parse(Attempts[i], cells[k]) == Some(r.value[k])
    ensures r.None? <==> forall j :: 0 <= j < |Attempts| ==> ToDatetimeColumn(parse, Attempts[j], cells).None?
  {
    for i := 0 to |ExplicitFormats|
      invariant FirstParsingAttempt(parse, cells, 0) == FirstParsingAttempt(parse, cells, i)
    {
      var attempt := ToDatetimeColumn(parse, ExplicitFormats[i], cells);
      if attempt.Some? {
        return attempt;
      }
    }
    r := ToDatetimeColumn(parse, Inferred, cells);
  }

  // ---------------------------------------------------------------------------
  // Numeric coercion and the forward fill
  // ---------------------------------------------------------------------------

  /** pd.to_numeric(column, errors='coerce'): a cell that is not a number
      becomes missing. */
  function ToNumeric<P>(toNumber: string -> Option<P>, cells: seq<string>): (r: seq<Option<P>>)
    ensures |r| == |cells|
    ensures forall i :: 0 <= i < |cells| ==> r[i] == toNumber(cells[i])
  {
    seq(|cells|, i requires 0 <= i < |cells| => toNumber(cells[i]))
  }

  predicate HasMissing<P>(s: seq<Option<P>>) {
    exists i :: 0 <= i < |s| && s[i].None?
  }

  /** The value a forward fill puts at position i: the last present value at
      or before i in file order, or None when there is none. */
  function LastSeen<P>(s: seq<Option<P>>, i: int): Option<P>
    requires i < |s|
    decreases i
  {
    if i < 0 then None
    else if s[i].Some? then s[i]
    else LastSeen(s, i - 1)
  }

  /** fillna(method='ffill') on a column. */
  function ForwardFilled<P>(s: seq<Option<P>>): (r: seq<Option<P>>)
    ensures |r| == |s|
    ensures forall i :: 0 <= i < |s| && s[i].Some? ==> r[i] == s[i]
    ensures forall i :: 0 <= i < |s| && r[i].None? ==> s[i].None?
  {
    seq(|s|, i requires 0 <= i < |s| => LastSeen(s, i))
  }

  /** j is the nearest position at or before i that holds a value. */
  predicate NearestPresentAtOrBefore<P>(s: seq<Option<P>>, i: int, j: int) {
    && 0 <= j <= i < |s|
    && s[j].Some?
    && forall k :: j < k <= i ==> s[k].None?
  }

  lemma {:induction false} LastSeenMeaning<P>(s: seq<Option<P>>, i: int)
    requires -1 <= i < |s|
    decreases i + 1
    ensures LastSeen(s, i).Some? ==> exists j :: NearestPresentAtOrBefore(s, i, j) && LastSeen(s, i) == s[j]
    ensures LastSeen(s, i).None? <==> forall j :: 0 <= j <= i ==> s[j].None?
  {
    if i >= 0 && s[i].None? {
      LastSeenMeaning(s, i - 1);
      if LastSeen(s, i - 1).Some? {
        var j :| NearestPresentAtOrBefore(s, i - 1, j) && LastSeen(s, i - 1) == s[j];
        assert NearestPresentAtOrBefore(s, i, j);
      }
    } else if i >= 0 {
      assert NearestPresentAtOrBefore(s, i, i);
    }
  }

  /** What the forward fill does at each position: a present value is kept; a
      missing one becomes the nearest preceding present value in file order;
      a missing value with nothing present before it stays missing. */
  lemma ForwardFilledMeaning<P>(s: seq<Option<P>>, i: nat)
    requires i < |s|
    ensures s[i].Some? ==> ForwardFilled(s)[i] == s[i]
    ensures ForwardFilled(s)[i].Some? ==>
      exists j :: NearestPresentAtOrBefore(s, i, j) && ForwardFilled(s)[i] == s[j]
    ensures ForwardFilled(s)[i].None? <==> forall j :: 0 <= j <= i ==> s[j].None?
  {
    LastSeenMeaning(s, i);
  }

  /** ForwardFilledMeaning at every position at once. */
  lemma ForwardFilledEverywhere<P>(s: seq<Option<P>>)
    ensures forall i :: 0 <= i < |s| ==>
      && (ForwardFilled(s)[i].None? <==> forall j :: 0 <= j <= i ==> s[j].None?)
      && (ForwardFilled(s)[i].Some? ==> exists j :: NearestPresentAtOrBefore(s, i, j) && ForwardFilled(s)[i] == s[j])
  {
    forall i | 0 <= i < |s|
      ensures ForwardFilled(s)[i].None? <==> forall j :: 0 <= j <= i ==> s[j].None?
      ensures ForwardFilled(s)[i].Some? ==> exists j :: NearestPresentAtOrBefore(s, i, j) && ForwardFilled(s)[i] == s[j]
    {
      ForwardFilledMeaning(s, i);
    }
  }

  /** After the fill, missing prices form a leading run: once a price is
      present, every later one is present too. */
  lemma MissingOnlyLeading<P>(s: seq<Option<P>>, i: nat, j: nat)
    requires i <= j < |s|
    requires ForwardFilled(s)[i].Some?
    ensures ForwardFilled(s)[j].Some?
  {
    ForwardFilledMeaning(s, i);
    ForwardFilledMeaning(s, j);
  }

  /** With nothing missing the fill changes nothing, so the source's guard
      `isna().sum() > 0` does not change the result. */
  lemma ForwardFillWithoutMissing<P>(s: seq<Option<P>>)
    requires !HasMissing(s)
    ensures ForwardFilled(s) == s
  {
  }

  /** The in-place fill of the Price column: one pass in file order carrying
      the last present value. */
  method ForwardFill<P>(a: array<Option<P>>)
    modifies a
    ensures a[..] == ForwardFilled(old(a[..]))
  {
    ghost var s := a[..];
    var last: Option<P> := None;
    for i := 0 to a.Length
      invariant forall k :: 0 <= k < i ==> a[k] == LastSeen(s, k)
      invariant forall k :: i <= k < a.Length ==> a[k] == s[k]
      invariant last == LastSeen(s, i - 1)
    {
      if a[i].None? {
        a[i] := last;
      }
      last := a[i];
    }
  }

  // ---------------------------------------------------------------------------
  // Rows and the sort by date
  // ---------------------------------------------------------------------------

  /** A cleaned row: its date and its (possibly still missing) price. */
  datatype Row<P> = Row(date: int, price: Option<P>)

  function Zip<P>(dates: seq<int>, prices: seq<Option<P>>): (rows: seq<Row<P>>)
    requires |dates| == |prices|
    ensures |rows| == |dates|
  {
    seq(|dates|, i requires 0 <= i < |dates| => Row(dates[i], prices[i]))
  }

  predicate SortedByDate<P>(rows: seq<Row<P>>) {
    forall i, j :: 0 <= i < j < |rows| ==> rows[i].date <= rows[j].date
  }

  /** Inserting into sorted rows keeps them sorted, adds exactly the one row,
      and puts either that row or the old first row in front. */
  function InsertByDate<P>(r: Row<P>, rows: seq<Row<P>>): (res: seq<Row<P>>)
    requires SortedByDate(rows)
    ensures SortedByDate(res)
    ensures |res| == |rows| + 1
    ensures res[0] == r || (rows != [] && res[0] == rows[0])
  {
    if rows == [] || r.date <= rows[0].date then
      [r] + rows
    else
      var rest := InsertByDate(r, rows[1..]);
      assert rows == [rows[0]] + rows[1..];
      assert rows[0].date <= rest[0].date;
      assert forall k :: 0 <= k < |rest| ==> rest[0].date <= rest[k].date;
      [rows[0]] + rest
  }

  /** Inserting adds exactly the one row. */
  lemma {:induction false} InsertByDatePermutes<P>(r: Row<P>, rows: seq<Row<P>>)
    requires SortedByDate(rows)
    ensures multiset(InsertByDate(r, rows)) == multiset(rows) + multiset{r}
  {
    if rows != [] && r.date > rows[0].date {
      InsertByDatePermutes(r, rows[1..]);
      assert rows == [rows[0]] + rows[1..];
      assert InsertByDate(r, rows) == [rows[0]] + InsertByDate(r, rows[1..]);
    }
  }

  /** df.sort_values('Date').reset_index(drop=True): the rows in non-decreasing
      date order, every row kept (duplicate dates included), positions
      renumbered 0 .. n-1. */
  function SortByDate<P>(rows: seq<Row<P>>): (res: seq<Row<P>>)
    ensures SortedByDate(res)
    ensures multiset(res) == multiset(rows)
    ensures |res| == |rows|
  {
    if rows == [] then []
    else
      assert rows == [rows[0]] + rows[1..];
      InsertByDatePermutes(rows[0], SortByDate(rows[1..]));
      InsertByDate(rows[0], SortByDate(rows[1..]))
  }

  /** The rows in file order after date parsing and the forward fill, before
      the sort; None when the dates do not parse. */
  function FileOrderRows<P>(f: CsvFrame, parse: DateParser, toNumber: string -> Option<P>): (r: Option<seq<Row<P>>>)
    requires Rectangular(f) && HasRequiredColumns(f)
    ensures r.Some? <==> ParsedDates(parse, f.columns[DateColumn]).Some?
    ensures r.Some? ==> |r.value| == f.rowCount && forall i :: 0 <= i < f.rowCount ==>
      && r.value[i].date == ParsedDates(parse, f.columns[DateColumn]).value[i]
      && (toNumber(f.columns[PriceColumn][i]).Some? ==> r.value[i].price == toNumber(f.columns[PriceColumn][i]))
      && (r.value[i].price.None? <==> forall j :: 0 <= j <= i ==> toNumber(f.columns[PriceColumn][j]).None?)
      && (r.value[i].price.Some? ==> exists j ::
            && 0 <= j <= i
            && r.value[i].price == toNumber(f.columns[PriceColumn][j])
            && forall k :: j < k <= i ==> toNumber(f.columns[PriceColumn][k]).None?)
  {
    var prices := ToNumeric(toNumber, f.columns[PriceColumn]);
    ForwardFilledEverywhere(prices);
    match ParsedDates(parse, f.columns[DateColumn])
    case None => None
    case Some(dates) => Some(Zip(dates, ForwardFilled(prices)))
  }

  // ---------------------------------------------------------------------------
  // load_brent_oil_data
  // ---------------------------------------------------------------------------

  /** load_brent_oil_data without the CSV reading and writing: the existence
      check comes first, then the column check, then date parsing; on success
      the result is the file-order rows, forward-filled before sorting, in
      non-decreasing date order. */
  method LoadBrentOilData<P>(files: map<string, CsvFrame>, rawPath: string, parse: DateParser, toNumber: string -> Option<P>)
    returns (r: Result<seq<Row<P>>, LoadError>)
    requires rawPath in files ==> Rectangular(files[rawPath])
    ensures rawPath !in files ==> r == Failure(FileNotFound)
    ensures rawPath in files && !HasRequiredColumns(files[rawPath]) ==> r == Failure(MissingColumns)
    ensures rawPath in files && HasRequiredColumns(files[rawPath]) ==>
      match FileOrderRows(files[rawPath], parse, toNumber)
      case None => r == Failure(DateParseError)
      case Some(rows) =>
        && r.Success?
        && |r.value| == files[rawPath].rowCount
        && SortedByDate(r.value)
        && multiset(r.value) == multiset(rows)
  {
    if rawPath !in files {
      return Failure(FileNotFound);
    }
    var df := files[rawPath];
    if !HasRequiredColumns(df) {
      return Failure(MissingColumns);
    }
    var dates := ParseDates(parse, df.columns[DateColumn]);
    if dates.None? {
      return Failure(DateParseError);
    }
    var coerced := ToNumeric(toNumber, df.columns[PriceColumn]);
    var price := new Option<P>[|coerced|](i requires 0 <= i < |coerced| => coerced[i]);
    assert price[..] == coerced;
    if HasMissing(price[..]) {
      ForwardFill(price);
    } else {
      ForwardFillWithoutMissing(coerced);
    }
    var rows := Zip(dates.value, price[..]);
    r := Success(SortByDate(rows));
  }

  /** The fill runs before the sort, so a missing price takes the value of the
      row before it in the file, not of the row before it in time: a later-dated
      first row fills an earlier-dated second row, which a fill after sorting
      would have left missing. */
  lemma FillFollowsFileOrder()
    ensures SortByDate(Zip([2, 1], ForwardFilled([Some(10), None])))
         == [Row(1, Some(10)), Row(2, Some(10))]
    ensures ForwardFilled([None, Some(10)]) == [None, Some(10)]
  {
    var filled := ForwardFilled([Some(10), None]);
    assert filled[1] == LastSeen([Some(10), None], 1);
    assert filled == [Some(10), Some(10)];
    var zipped := Zip([2, 1], filled);
    assert zipped == [Row(2, Some(10)), Row(1, Some(10))];
    assert zipped[1..] == [Row(1, Some(10))];
    assert SortByDate([Row(1, Some(10))]) == [Row(1, Some(10))] by {
      assert [Row(1, Some(10))][1..] == [];
    }
    var inLeading := ForwardFilled([None, Some(10)]);
    assert inLeading[0] == LastSeen([None, Some(10)], 0);
  }
}
