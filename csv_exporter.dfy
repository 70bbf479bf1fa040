/**
 * The CSV text of the geo stats export (geo-stats-widget/csv-exporter.js): a byte order
 * mark, then a header line and one line per country or city, every field in double quotes,
 * fields separated by commas and lines by "\n". The Blob, the object URL, the download link
 * and the dated file name are left out.
 *
 * The number texts of `Number.prototype.toString` are the parameters `showNat` and
 * `showReal`. The text is read back with a parser for the quoted-field records of section 2
 * of RFC 4180 (every field quoted, an embedded quote written twice, records separated by
 * "\n" here).
 */
module CsvExport {
  import opened Util
  import GeoStats

  const Bom: char := '\U{FEFF}'
  const CountryHeaders: seq<string> := ["Rank", "Country", "ISO Code", "Distance (km)", "Runs", "Cities"]
  const CityHeaders: seq<string> := ["Rank", "City", "Country", "ISO Code", "Distance (km)", "Runs"]

  /** `"${field}"`: the field between quotes, as the exporter writes it. */
  function QuoteAsWritten(field: string): string {
    "\"" + field + "\""
  }

  /** `row.map(quote).join(',')`. */
  function Line(fields: seq<string>, quote: string -> string): string {
    if fields == [] then ""
    else if |fields| == 1 then quote(fields[0])
    else quote(fields[0]) + "," + Line(fields[1..], quote)
  }

  /** `records.map(line).join('\n')`. */
  function Document(records: seq<seq<string>>, quote: string -> string): string {
    if records == [] then ""
    else if |records| == 1 then Line(records[0], quote)
    else Line(records[0], quote) + "\n" + Document(records[1..], quote)
  }

  // ---------------------------------------------------------------------------------
  // Reading quoted-field records

  /** The rest of a quoted field after its opening quote: the field and what follows its closing quote. */
  function ParseQuoted(s: string): (r: Option<(string, string)>)
    ensures r.Some? ==> |r.value.1| < |s|
    decreases |s|
  {
    if s == [] then None
    else if s[0] == '"' then
      if |s| >= 2 && s[1] == '"' then
        match ParseQuoted(s[2..])
        case None => None
        case Some((field, rest)) => Some((['"'] + field, rest))
      else Some(([], s[1..]))
    else
      match ParseQuoted(s[1..])
      case None => None
      case Some((field, rest)) => Some(([s[0]] + field, rest))
  }

  /** One record: quoted fields separated by commas, up to a newline or the end. */
  function ParseRecord(s: string): (r: Option<(seq<string>, string)>)
    ensures r.Some? ==> |r.value.1| < |s| && (r.value.1 == [] || r.value.1[0] == '\n')
    decreases |s|
  {
    if s == [] || s[0] != '"' then None
    else
      match ParseQuoted(s[1..])
      case None => None
      case Some((field, rest)) =>
        if rest != [] && rest[0] == ',' then
          match ParseRecord(rest[1..])
          case None => None
          case Some((fields, tail)) => Some(([field] + fields, tail))
        else if rest == [] || rest[0] == '\n' then Some(([field], rest))
        else None
  }

  /** The records of a text, one per line. */
  function ParseDocument(s: string): (r: Option<seq<seq<string>>>)
    decreases |s|
  {
    match ParseRecord(s)
    case None => None
    case Some((fields, rest)) =>
      if rest == [] then Some([fields])
      else
        match ParseDocument(rest[1..])
        case None => None
        case Some(records) => Some([fields] + records)
  }

  // ---------------------------------------------------------------------------------
  // Quoting with embedded quotes doubled

  /** Every quote written twice. */
  function Double(field: string): (r: string)
    ensures '"' !in field ==> r == field
  {
    if field == [] then []
    else (if field[0] == '"' then "\"\"" else [field[0]]) + Double(field[1..])
  }

  /** A field as section 2 of RFC 4180 quotes it. */
  function Escape(field: string): string {
    "\"" + Double(field) + "\""
  }

  lemma {:induction false} QuotedRoundTrip(field: string, rest: string)
    requires rest == [] || rest[0] != '"'
    ensures ParseQuoted(Double(field) + "\"" + rest) == Some((field, rest))
  {
    var s := Double(field) + "\"" + rest;
    if field == [] {
      assert s == "\"" + rest;
    } else {
      QuotedRoundTrip(field[1..], rest);
      var t := Double(field[1..]) + "\"" + rest;
      if field[0] == '"' {
        assert s == "\"\"" + t;
        assert s[2..] == t;
      } else {
        assert s == [field[0]] + t;
        assert s[1..] == t;
      }
      assert [field[0]] + field[1..] == field;
    }
  }

  /** Reading a record that starts with an escaped field: the field, then what follows it. */
  lemma ReadEscapedField(f: string, after: string)
    requires after == [] || after[0] != '"'
    ensures ParseQuoted((Escape(f) + after)[1..]) == Some((f, after))
  {
    assert (Escape(f) + after)[1..] == Double(f) + "\"" + after;
    QuotedRoundTrip(f, after);
  }

  /** A record of one field reads back. */
  lemma RecordOfOne(f: string, tail: string)
    requires tail == [] || tail[0] == '\n'
    ensures ParseRecord(Line([f], Escape) + tail) == Some(([f], tail))
  {
    var s := Escape(f) + tail;
    ReadEscapedField(f, tail);
    assert s[0] == '"';
    assert Line([f], Escape) + tail == s;
  }

  /** A record of more fields reads back when the record of all but the first does. */
  lemma RecordOfMore(fields: seq<string>, tail: string, more: string)
    requires |fields| > 1 && more == Line(fields[1..], Escape) + tail
    requires ParseRecord(more) == Some((fields[1..], tail))
    ensures ParseRecord(Line(fields, Escape) + tail) == Some((fields, tail))
  {
    var f := fields[0];
    var s := Escape(f) + ("," + more);
    ReadEscapedField(f, "," + more);
    assert s[0] == '"';
    assert ("," + more)[1..] == more;
    assert [f] + fields[1..] == fields;
    assert Line(fields, Escape) + tail == s;
  }

  lemma {:induction false} RecordRoundTrip(fields: seq<string>, tail: string)
    requires fields != []
    requires tail == [] || tail[0] == '\n'
    ensures ParseRecord(Line(fields, Escape) + tail) == Some((fields, tail))
  {
    if |fields| == 1 {
      RecordOfOne(fields[0], tail);
      assert fields == [fields[0]];
    } else {
      RecordRoundTrip(fields[1..], tail);
      RecordOfMore(fields, tail, Line(fields[1..], Escape) + tail);
    }
  }

  /** A document of one record reads back. */
  lemma DocumentOfOne(records: seq<seq<string>>)
    requires |records| == 1 && records[0] != []
    ensures ParseDocument(Document(records, Escape)) == Some(records)
  {
    RecordRoundTrip(records[0], []);
    assert Document(records, Escape) + [] == Document(records, Escape);
    assert records == [records[0]];
  }

  /** A document of more records reads back when the document of all but the first does. */
  lemma DocumentOfMore(records: seq<seq<string>>, rest: string)
    requires |records| > 1 && records[0] != [] && rest == Document(records[1..], Escape)
    requires ParseDocument(rest) == Some(records[1..])
    ensures ParseDocument(Document(records, Escape)) == Some(records)
  {
    RecordRoundTrip(records[0], "\n" + rest);
    assert Document(records, Escape) == Line(records[0], Escape) + ("\n" + rest);
    assert ("\n" + rest)[1..] == rest;
    assert [records[0]] + records[1..] == records;
  }

  /** A document of quoted fields, with embedded quotes doubled, reads back as its records. */
  lemma {:induction false} DocumentRoundTrip(records: seq<seq<string>>)
    requires records != [] && forall i :: 0 <= i < |records| ==> records[i] != []
    ensures ParseDocument(Document(records, Escape)) == Some(records)
  {
    if |records| == 1 {
      DocumentOfOne(records);
    } else {
      DocumentRoundTrip(records[1..]);
      DocumentOfMore(records, Document(records[1..], Escape));
    }
  }

  /** No field of the records holds a quote. */
  predicate QuoteFree(records: seq<seq<string>>) {
    forall i, j :: 0 <= i < |records| && 0 <= j < |records[i]| ==> '"' !in records[i][j]
  }

  lemma {:induction false} LineQuoteFree(fields: seq<string>)
    requires forall j :: 0 <= j < |fields| ==> '"' !in fields[j]
    ensures Line(fields, QuoteAsWritten) == Line(fields, Escape)
  {
    if |fields| > 1 {
      LineQuoteFree(fields[1..]);
    }
  }

  /** Without quotes in the fields, the exporter's quoting is RFC 4180 quoting. */
  lemma {:induction false} DocumentQuoteFree(records: seq<seq<string>>)
    requires QuoteFree(records)
    ensures Document(records, QuoteAsWritten) == Document(records, Escape)
  {
    if records != [] {
      LineQuoteFree(records[0]);
      if |records| > 1 {
        assert QuoteFree(records[1..]) by {
          forall i, j | 0 <= i < |records| - 1 && 0 <= j < |records[1..][i]| ensures '"' !in records[1..][i][j] {
            assert records[1..][i] == records[i + 1];
          }
        }
        DocumentQuoteFree(records[1..]);
      }
    }
  }

  /** A field with a quote in it, quoted as the exporter quotes it, no longer reads back. */
  lemma QuoteBreaksReading()
    ensures ParseDocument(Document([["a\""]], QuoteAsWritten)) != Some([["a\""]])
  {
    var s := Document([["a\""]], QuoteAsWritten);
    assert s == "\"a\"\"";
    assert s[1..] == "a\"\"";
    assert s[1..][1..] == "\"\"";
    assert ParseQuoted("\"\""[2..]) == None;
    assert ParseQuoted(s[1..][1..]) == None;
    assert ParseQuoted(s[1..]) == None;
  }

  // ---------------------------------------------------------------------------------
  // The two exports

  /** A country's line: rank, name, ISO code, distance, runs and number of cities. */
  function CountryFields(c: GeoStats.CountryStats, rank: nat, showNat: nat -> string, showReal: real -> string): seq<string> {
    [showNat(rank), c.countryName, c.countryIso2, showReal(c.totalDistanceKm), showNat(c.activityCount), showNat(|c.cities|)]
  }

  /** A city's line: rank, city, country, ISO code, distance and runs. */
  function CityFields(c: GeoStats.CityStats, rank: nat, showNat: nat -> string, showReal: real -> string): seq<string> {
    [showNat(rank), c.cityName, c.countryName, c.countryIso2, showReal(c.totalDistanceKm), showNat(c.activityCount)]
  }

  /** The countries' table: the header, then one record per country ranked from 1 in input order. */
  function CountryTable(countries: seq<GeoStats.CountryStats>, showNat: nat -> string, showReal: real -> string): (t: seq<seq<string>>)
    ensures |t| == |countries| + 1 && t[0] == CountryHeaders
    ensures forall i :: 0 <= i < |countries| ==> t[i + 1] == CountryFields(countries[i], i + 1, showNat, showReal)
    ensures forall i :: 0 <= i < |t| ==> |t[i]| == 6
  {
    [CountryHeaders] + seq(|countries|, i requires 0 <= i < |countries| => CountryFields(countries[i], i + 1, showNat, showReal))
  }

  /** The cities' table: the header, then one record per city ranked from 1 in input order. */
  function CityTable(cities: seq<GeoStats.CityStats>, showNat: nat -> string, showReal: real -> string): (t: seq<seq<string>>)
    ensures |t| == |cities| + 1 && t[0] == CityHeaders
    ensures forall i :: 0 <= i < |cities| ==> t[i + 1] == CityFields(cities[i], i + 1, showNat, showReal)
    ensures forall i :: 0 <= i < |t| ==> |t[i]| == 6
  {
    [CityHeaders] + seq(|cities|, i requires 0 <= i < |cities| => CityFields(cities[i], i + 1, showNat, showReal))
  }

  lemma {:induction false} LineEndsInQuote(fields: seq<string>)
    requires fields != []
    ensures var l := Line(fields, QuoteAsWritten); l != [] && l[0] == '"' && l[|l| - 1] == '"'
  {
    if |fields| > 1 {
      LineEndsInQuote(fields[1..]);
    }
  }

  /** The text starts with a quote and ends with one: no newline at the end. */
  lemma {:induction false} DocumentEndsInQuote(records: seq<seq<string>>)
    requires records != [] && forall i :: 0 <= i < |records| ==> records[i] != []
    ensures var d := Document(records, QuoteAsWritten); d != [] && d[0] == '"' && d[|d| - 1] == '"'
  {
    LineEndsInQuote(records[0]);
    if |records| > 1 {
      DocumentEndsInQuote(records[1..]);
    }
  }

  /** exportCountriesToCSV's content: the byte order mark and the table's lines. */
  function CountriesCsv(countries: seq<GeoStats.CountryStats>, showNat: nat -> string, showReal: real -> string): (r: string)
    ensures |r| > 1 && r[0] == Bom && r[1] == '"' && r[|r| - 1] == '"'
  {
    var table := CountryTable(countries, showNat, showReal);
    DocumentEndsInQuote(table);
    [Bom] + Document(table, QuoteAsWritten)
  }

  /** exportCitiesToCSV's content: the byte order mark and the table's lines. */
  function CitiesCsv(cities: seq<GeoStats.CityStats>, showNat: nat -> string, showReal: real -> string): (r: string)
    ensures |r| > 1 && r[0] == Bom && r[1] == '"' && r[|r| - 1] == '"'
  {
    var table := CityTable(cities, showNat, showReal);
    DocumentEndsInQuote(table);
    [Bom] + Document(table, QuoteAsWritten)
  }

  /**
   * Without quotes in the fields, the countries' content after the byte order mark reads
   * back as the header and one six-field record per country, in input order, ranked from 1.
   */
  lemma CountriesCsvReadsBack(countries: seq<GeoStats.CountryStats>, showNat: nat -> string, showReal: real -> string)
    requires QuoteFree(CountryTable(countries, showNat, showReal))
    ensures ParseDocument(CountriesCsv(countries, showNat, showReal)[1..]) == Some(CountryTable(countries, showNat, showReal))
  {
    var table := CountryTable(countries, showNat, showReal);
    DocumentQuoteFree(table);
    DocumentRoundTrip(table);
    assert CountriesCsv(countries, showNat, showReal)[1..] == Document(table, QuoteAsWritten);
  }

  /** The same for the cities' content. */
  lemma CitiesCsvReadsBack(cities: seq<GeoStats.CityStats>, showNat: nat -> string, showReal: real -> string)
    requires QuoteFree(CityTable(cities, showNat, showReal))
    ensures ParseDocument(CitiesCsv(cities, showNat, showReal)[1..]) == Some(CityTable(cities, showNat, showReal))
  {
    var table := CityTable(cities, showNat, showReal);
    DocumentQuoteFree(table);
    DocumentRoundTrip(table);
    assert CitiesCsv(cities, showNat, showReal)[1..] == Document(table, QuoteAsWritten);
  }

  /** The countries' content with embedded quotes doubled: it reads back whatever the names hold. */
  function CountriesCsvEscaped(countries: seq<GeoStats.CountryStats>, showNat: nat -> string, showReal: real -> string): (r: string)
    ensures |r| > 0 && r[0] == Bom
    ensures ParseDocument(r[1..]) == Some(CountryTable(countries, showNat, showReal))
  {
    var table := CountryTable(countries, showNat, showReal);
    DocumentRoundTrip(table);
    var r := [Bom] + Document(table, Escape);
    assert r[1..] == Document(table, Escape);
    r
  }

  /** The cities' content with embedded quotes doubled: it reads back whatever the names hold. */
  function CitiesCsvEscaped(cities: seq<GeoStats.CityStats>, showNat: nat -> string, showReal: real -> string): (r: string)
    ensures |r| > 0 && r[0] == Bom
    ensures ParseDocument(r[1..]) == Some(CityTable(cities, showNat, showReal))
  {
    var table := CityTable(cities, showNat, showReal);
    DocumentRoundTrip(table);
    var r := [Bom] + Document(table, Escape);
    assert r[1..] == Document(table, Escape);
    r
  }
}
