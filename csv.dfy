/**
 * readCSV: a CSV response becomes records keyed by the header, then listings.
 *
 * The CSV lexer (encoding/csv quoting and line rules) is not modelled; its
 * output is. The response is the sequence of what successive reader.Read
 * calls lex: a record's fields or a parse error. The end of the sequence is
 * io.EOF. The reader fixes the expected field count from the first record,
 * the header; every later record with another count comes back as
 * csv.ErrFieldCount.
 */
module Csv {
  import opened Wrappers
  import opened ApiError

  datatype Lexed = Fields(values: seq<string>) | LexError(message: string)

  /** What reader.Read returns for a data row once the header has fixed the field count. */
  datatype ReadResult = Row(values: seq<string>) | FieldCountError | ReadError(message: string)

  function ReadRow(header: seq<string>, item: Lexed): (r: ReadResult)
    ensures r.Row? ==> |r.values| == |header|
  {
    match item
    case LexError(m) => ReadError(m)
    case Fields(values) => if |values| == |header| then Row(values) else FieldCountError
  }

  type Record = map<string, string>

  /** The map csvRow: header[i] := row[i] for each column in turn, so a later column wins. */
  function RowMap(header: seq<string>, values: seq<string>): Record
    requires |values| == |header|
  {
    if header == [] then map[]
    else RowMap(header[..|header| - 1], values[..|values| - 1])[header[|header| - 1] := values[|values| - 1]]
  }

  /** The records of the data rows, left to right; the first error other than a field-count mismatch aborts. */
  function Rows(header: seq<string>, items: seq<Lexed>): (r: Result<seq<Record>, Error>)
    ensures r.Ok? <==> NoParseError(items)
    ensures r.Ok? ==> |r.value| <= |items|
    ensures r.Err? ==> exists i :: 0 <= i < |items| && items[i].LexError? && r.error == Failure(items[i].message)
  {
    if items == [] then Ok([])
    else
      var init := items[..|items| - 1];
      assert forall i :: 0 <= i < |init| ==> init[i] == items[i];
      assert NoParseError(items) <==> NoParseError(init) && items[|items| - 1].Fields?;
      match Rows(header, init)
      case Err(e) => Err(e)
      case Ok(records) =>
        match ReadRow(header, items[|items| - 1])
        case FieldCountError => Ok(records)
        case ReadError(m) => Err(Failure(m))
        case Row(values) => Ok(records + [RowMap(header, values)])
  }

  /** The records of a whole response: the header must be readable (an empty body gives io.EOF). */
  function Records(lexed: seq<Lexed>): (r: Result<seq<Record>, Error>)
    ensures r.Ok? <==> lexed != [] && NoParseError(lexed)
    ensures r.Ok? ==> |r.value| < |lexed|
    ensures lexed == [] ==> r == Err(Failure("EOF"))
    ensures r.Err? && lexed != [] ==>
      exists i :: 0 <= i < |lexed| && lexed[i].LexError? && r.error == Failure(lexed[i].message)
  {
    assert lexed != [] ==> forall i :: 0 <= i < |lexed| - 1 ==> lexed[1..][i] == lexed[i + 1];
    if lexed == [] then Err(Failure("EOF"))
    else
      match lexed[0]
      case LexError(m) => Err(Failure(m))
      case Fields(header) => Rows(header, lexed[1..])
  }

  // ---------------------------------------------------------------------------
  // Projection onto listings

  datatype Listing = Listing(symbol: string, name: string, exchange: string, assetType: string)

  /** A Go map lookup: a missing key reads as the empty string. */
  function Get(r: Record, k: string): string
  {
    if k in r then r[k] else ""
  }

  /** One record as a listing, with the symbol standing in for an empty name. */
  function ListingOf(r: Record): (l: Listing)
    ensures l.name == "" <==> Get(r, "name") == "" && Get(r, "symbol") == ""
  {
    var listing := Listing(Get(r, "symbol"), Get(r, "name"), Get(r, "exchange"), Get(r, "assetType"));
    if listing.name == "" then listing.(name := listing.symbol) else listing
  }

  function ListingsOf(records: seq<Record>): (ls: seq<Listing>)
    ensures |ls| == |records|
    ensures forall i :: 0 <= i < |records| ==> ls[i] == ListingOf(records[i])
  {
    seq(|records|, i requires 0 <= i < |records| => ListingOf(records[i]))
  }

  /** The caller's []Listing, which readCSV appends to through the pointer. */
  class ListingSlice {
    var items: seq<Listing>

    constructor ()
      ensures items == []
    {
      items := [];
    }
  }

  /** The dynamic type of the v argument: a pointer to a slice of a named element type, or anything else. */
  datatype TargetType = SliceType(elemType: string) | OtherType(typeName: string)

  /** The v argument itself: the slice it points to, or a value readCSV never touches. */
  datatype Target = SliceOf(elemType: string, slice: ListingSlice) | OtherTarget(typeName: string)

  function TypeOf(t: Target): TargetType
  {
    match t
    case SliceOf(elem, _) => SliceType(elem)
    case OtherTarget(name) => OtherType(name)
  }

  function TargetFrame(t: Target): set<object>
  {
    if t.SliceOf? then {t.slice} else {}
  }

  /** What %T prints for the target. */
  function TypeName(t: TargetType): string
  {
    match t
    case SliceType(elem) => "*[]goalphavantage." + elem
    case OtherType(name) => name
  }

  function UnsupportedType(t: TargetType): Error
  {
    Failure("unsupported type " + TypeName(t) + " for v")
  }

  /** The element type the listing projection is for. */
  const ListingType := "Listing"

  /** The element type the type switch in client.go actually names. */
  const SwitchCaseAsWritten := "ActiveListing"

  /**
   * readCSV's error result when its type switch has a case for *[]caseType:
   * reading errors first, then an unsupported target.
   */
  function ReadCSVError(lexed: seq<Lexed>, t: TargetType, caseType: string): (r: Option<Error>)
    ensures r.None? <==> lexed != [] && NoParseError(lexed) && t == SliceType(caseType)
    ensures Records(lexed).Err? ==> r == Some(Records(lexed).error)
    ensures Records(lexed).Ok? && t != SliceType(caseType) ==> r == Some(UnsupportedType(t))
  {
    match Records(lexed)
    case Err(e) => Some(e)
    case Ok(_) => if t == SliceType(caseType) then None else Some(UnsupportedType(t))
  }

  /** The loop that fills csvRow for one record. */
  method BuildRow(header: seq<string>, values: seq<string>) returns (row: Record)
    requires |values| == |header|
    ensures row == RowMap(header, values)
  {
    row := map[];
    var c := 0;
    while c < |values|
      invariant 0 <= c <= |values|
      invariant row == RowMap(header[..c], values[..c])
    {
      assert header[..c + 1][..c] == header[..c];
      assert values[..c + 1][..c] == values[..c];
      row := row[header[c] := values[c]];
      c := c + 1;
    }
    assert header[..c] == header && values[..c] == values;
  }

  /** The read loop after the header: skip mismatched rows, stop at the first other error. */
  method ReadRows(header: seq<string>, items: seq<Lexed>) returns (r: Result<seq<Record>, Error>)
    ensures r == Rows(header, items)
  {
    var records: seq<Record> := [];
    var i := 0;
    while i < |items|
      invariant 0 <= i <= |items|
      invariant Rows(header, items[..i]) == Ok(records)
    {
      assert items[..i + 1][..i] == items[..i];
      match ReadRow(header, items[i]) {
        case FieldCountError =>
        case ReadError(m) =>
          RowsErrorPersists(header, items[..i + 1], items[i + 1..]);
          assert items[..i + 1] + items[i + 1..] == items;
          return Err(Failure(m));
        case Row(values) =>
          var row := BuildRow(header, values);
          records := records + [row];
      }
      i := i + 1;
    }
    assert items[..i] == items;
    return Ok(records);
  }

  /** The projection loop: *v = append(*v, listing) for each record in turn. */
  method AppendListings(records: seq<Record>, slice: ListingSlice)
    modifies slice
    ensures slice.items == old(slice.items) + ListingsOf(records)
  {
    var j := 0;
    while j < |records|
      invariant 0 <= j <= |records|
      invariant slice.items == old(slice.items) + ListingsOf(records[..j])
    {
      var listing := Listing(Get(records[j], "symbol"), Get(records[j], "name"),
                             Get(records[j], "exchange"), Get(records[j], "assetType"));
      if listing.name == "" {
        listing := listing.(name := listing.symbol);
      }
      assert ListingsOf(records[..j + 1]) == ListingsOf(records[..j]) + [listing];
      slice.items := slice.items + [listing];
      j := j + 1;
    }
    assert records[..j] == records;
  }

  method ReadCSV(lexed: seq<Lexed>, target: Target) returns (err: Option<Error>)
    modifies TargetFrame(target)
    ensures err == ReadCSVError(lexed, TypeOf(target), ListingType)
    ensures target.SliceOf? ==>
      target.slice.items == old(target.slice.items) + (if err.None? then ListingsOf(Records(lexed).value) else [])
  {
    if |lexed| == 0 {
      return Some(Failure("EOF"));
    }
    var header: seq<string>;
    match lexed[0] {
      case LexError(m) =>
        return Some(Failure(m));
      case Fields(h) =>
        header := h;
    }
    var records := ReadRows(header, lexed[1..]);
    if records.Err? {
      return Some(records.error);
    }
    match target {
      case OtherTarget(_) =>
        return Some(UnsupportedType(TypeOf(target)));
      case SliceOf(elem, slice) =>
        if elem != ListingType {
          return Some(UnsupportedType(TypeOf(target)));
        }
        AppendListings(records.value, slice);
        return None;
    }
  }

  // ---------------------------------------------------------------------------
  // Properties of the row stream

  /** Reading a stream in two parts: the first part's error wins, then the second's. */
  lemma {:induction false} RowsAppend(header: seq<string>, a: seq<Lexed>, b: seq<Lexed>)
    ensures Rows(header, a + b) ==
      match Rows(header, a)
      case Err(e) => Err(e)
      case Ok(ra) =>
        match Rows(header, b)
        case Err(e) => Err(e)
        case Ok(rb) => Ok(ra + rb)
    decreases |b|
  {
    if b == [] {
      assert a + b == a;
      match Rows(header, a)
      case Err(_) =>
      case Ok(ra) => assert ra + [] == ra;
    } else {
      var n := |b| - 1;
      assert (a + b)[..|a + b| - 1] == a + b[..n];
      assert (a + b)[|a + b| - 1] == b[n];
      RowsAppend(header, a, b[..n]);
      match Rows(header, a)
      case Err(_) =>
      case Ok(ra) =>
        match Rows(header, b[..n])
        case Err(_) =>
        case Ok(rb) =>
          match ReadRow(header, b[n])
          case FieldCountError =>
          case ReadError(_) =>
          case Row(values) =>
            assert ra + (rb + [RowMap(header, values)]) == ra + rb + [RowMap(header, values)];
    }
  }

  lemma RowsErrorPersists(header: seq<string>, a: seq<Lexed>, b: seq<Lexed>)
    requires Rows(header, a).Err?
    ensures Rows(header, a + b) == Rows(header, a)
  {
    RowsAppend(header, a, b);
  }

  /** A row with the wrong number of fields is skipped wherever it occurs, and changes nothing else. */
  lemma MismatchedRowIsSkipped(header: seq<string>, a: seq<Lexed>, values: seq<string>, b: seq<Lexed>)
    requires |values| != |header|
    ensures Rows(header, a + [Fields(values)] + b) == Rows(header, a + b)
  {
    RowsAppend(header, a + [Fields(values)], b);
    RowsAppend(header, a, [Fields(values)]);
    RowsAppend(header, a, b);
    assert [Fields(values)][..0] == [];
  }

  /** Any other parse error aborts the whole decode with that error, whatever follows it. */
  lemma ParseErrorAborts(header: seq<string>, a: seq<Lexed>, m: string, b: seq<Lexed>)
    requires Rows(header, a).Ok?
    ensures Rows(header, a + [LexError(m)] + b) == Err(Failure(m))
  {
    RowsAppend(header, a + [LexError(m)], b);
    RowsAppend(header, a, [LexError(m)]);
    assert [LexError(m)][..0] == [];
  }

  /** The field lists of the rows whose count matches the header: the rows that are kept. */
  function Kept(header: seq<string>, items: seq<Lexed>): (kept: seq<seq<string>>)
    ensures forall i :: 0 <= i < |kept| ==> |kept[i]| == |header|
  {
    if items == [] then []
    else
      Kept(header, items[..|items| - 1])
      + match items[|items| - 1]
        case Fields(v) => if |v| == |header| then [v] else []
        case LexError(_) => []
  }

  predicate NoParseError(items: seq<Lexed>)
  {
    forall i :: 0 <= i < |items| ==> items[i].Fields?
  }

  /**
   * Without a parse error, the records are exactly the rows whose field count
   * equals the header's, in their original order, each as its header map.
   */
  lemma {:induction false} RowsAreKeptRows(header: seq<string>, items: seq<Lexed>)
    requires NoParseError(items)
    ensures Rows(header, items).Ok?
    ensures |Rows(header, items).value| == |Kept(header, items)|
    ensures forall j :: 0 <= j < |Kept(header, items)| ==>
      Rows(header, items).value[j] == RowMap(header, Kept(header, items)[j])
  {
    if items != [] {
      var init, last := items[..|items| - 1], items[|items| - 1];
      assert forall i :: 0 <= i < |init| ==> init[i] == items[i];
      RowsAreKeptRows(header, init);
      assert last.Fields?;
      var rs, ks := Rows(header, init).value, Kept(header, init);
      if |last.values| == |header| {
        assert Rows(header, items).value == rs + [RowMap(header, last.values)];
        assert Kept(header, items) == ks + [last.values];
      } else {
        assert Rows(header, items).value == rs;
        assert Kept(header, items) == ks;
      }
    }
  }

  /** With a parse error among the rows, the decode fails, reporting the first one. */
  /** readCSV returns the first parse error of the whole body, the header included. */
  lemma {:induction false} RecordsFirstError(lexed: seq<Lexed>, k: int)
    requires 0 <= k < |lexed| && lexed[k].LexError?
    requires NoParseError(lexed[..k])
    ensures Records(lexed) == Err(Failure(lexed[k].message))
  {
    if k > 0 {
      assert lexed[0] == lexed[..k][0];
      assert lexed[1..][..k - 1] == lexed[1..k];
      FirstParseErrorWins(lexed[0].values, lexed[1..], k - 1);
    }
  }

  lemma {:induction false} FirstParseErrorWins(header: seq<string>, items: seq<Lexed>, k: int)
    requires 0 <= k < |items| && items[k].LexError?
    requires NoParseError(items[..k])
    ensures Rows(header, items) == Err(Failure(items[k].message))
  {
    RowsAreKeptRows(header, items[..k]);
    ParseErrorAborts(header, items[..k], items[k].message, items[k + 1..]);
    assert items[..k] + [LexError(items[k].message)] + items[k + 1..] == items;
  }

  /** The column names a header lists. */
  function Names(header: seq<string>): set<string>
  {
    set i | 0 <= i < |header| :: header[i]
  }

  lemma NamesSnoc(header: seq<string>)
    requires header != []
    ensures Names(header) == Names(header[..|header| - 1]) + {header[|header| - 1]}
  {
    var n := |header| - 1;
    var h := header[..n];
    forall x | x in Names(header) ensures x in Names(h) + {header[n]} {
      var i :| 0 <= i < |header| && header[i] == x;
      if i < n { assert h[i] == x; }
    }
    forall x | x in Names(h) ensures x in Names(header) {
      var i :| 0 <= i < |h| && h[i] == x;
      assert header[i] == x;
    }
  }

  /** The record of a row has exactly the header names as keys. */
  lemma {:induction false} RowMapKeys(header: seq<string>, values: seq<string>)
    requires |values| == |header|
    ensures RowMap(header, values).Keys == Names(header)
  {
    if header != [] {
      var n := |header| - 1;
      RowMapKeys(header[..n], values[..n]);
      NamesSnoc(header);
    }
  }

  /** A header name maps to the value in its last column: a repeated name keeps the later column. */
  lemma {:induction false} RowMapLastColumn(header: seq<string>, values: seq<string>, i: int)
    requires |values| == |header| && 0 <= i < |header|
    requires forall j :: i < j < |header| ==> header[j] != header[i]
    ensures header[i] in RowMap(header, values) && RowMap(header, values)[header[i]] == values[i]
  {
    var n := |header| - 1;
    if i < n {
      var h, v := header[..n], values[..n];
      assert header[n] != header[i];
      assert h[i] == header[i] && v[i] == values[i];
      forall j | i < j < |h| ensures h[j] != h[i] { assert h[j] == header[j]; }
      RowMapLastColumn(h, v, i);
    }
  }

  // ---------------------------------------------------------------------------
  // Properties of the projection

  /** The projection copies symbol, exchange and assetType, and falls back to the symbol for the name. */
  lemma ListingOfFields(r: Record)
    ensures ListingOf(r).symbol == Get(r, "symbol")
    ensures ListingOf(r).exchange == Get(r, "exchange")
    ensures ListingOf(r).assetType == Get(r, "assetType")
    ensures Get(r, "name") != "" ==> ListingOf(r).name == Get(r, "name")
    ensures Get(r, "name") == "" ==> ListingOf(r).name == Get(r, "symbol")
  {
  }

  /** A listing with a symbol always has a name. */
  lemma ListingWithSymbolHasName(r: Record)
    requires Get(r, "symbol") != ""
    ensures ListingOf(r).name != ""
  {
  }

  /**
   * As written, the switch names *[]ActiveListing, so a *[]Listing target
   * (what GetListingStatus passes) is reported as unsupported whenever the
   * rows read cleanly, unless ActiveListing is another name for Listing.
   */
  lemma AsWrittenSwitchRejectsListings(lexed: seq<Lexed>)
    requires Records(lexed).Ok?
    ensures ReadCSVError(lexed, SliceType(ListingType), SwitchCaseAsWritten)
      == Some(Failure("unsupported type *[]goalphavantage.Listing for v"))
  {
    assert "*[]goalphavantage." + ListingType == "*[]goalphavantage.Listing";
    assert "unsupported type " + "*[]goalphavantage.Listing" + " for v"
      == "unsupported type *[]goalphavantage.Listing for v";
  }

  /** With the case naming the listing type, the same target is decoded. */
  lemma ListingSwitchAcceptsListings(lexed: seq<Lexed>)
    requires Records(lexed).Ok?
    ensures ReadCSVError(lexed, SliceType(ListingType), ListingType) == None
  {
  }
}
