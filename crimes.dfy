/**
 * tools/generate-crimes.js: turns the tab-separated crime register into
 * map points of category "crime". Each register line holds an article,
 * a street and a house number; a street is placed by the microdistrict
 * table, the street table or, failing both, near the city centre with a
 * wider random spread. The random draws are a parameter of the model.
 */
module Crimes {

  import opened Wrappers
  import opened Text
  import opened Points
  import opened CrimeTables

  /** One register entry: `{ article, street, house }`. */
  datatype Record = Record(article: string, street: string, house: string)

  // -------------------------------------------------------------- parsing

  /** One line: the first three tab-separated fields, trimmed, with a
      missing field read as ""; a line without an article or a street is
      skipped. */
  function ParseLine(line: string): (r: Option<Record>)
    ensures r.Some? ==> r.value.article != "" && r.value.street != ""
  {
    var parts := Split(line, '\t');
    var article := Trim(FieldOr(parts, 0));
    var street := Trim(FieldOr(parts, 1));
    var house := Trim(FieldOr(parts, 2));
    if article == "" || street == "" then None else Some(Record(article, street, house))
  }

  /** The fields of a parsed record are trimmed and free of tabs, so
      writing the record back as a tab-separated line and reading that line
      gives the same record. */
  lemma ParseLineFields(line: string)
    ensures var r := ParseLine(line); r.Some? ==>
      && Trim(r.value.article) == r.value.article && Trim(r.value.street) == r.value.street
      && Trim(r.value.house) == r.value.house
    ensures var r := ParseLine(line); r.Some? ==>
      '\t' !in r.value.article && '\t' !in r.value.street && '\t' !in r.value.house
    ensures var r := ParseLine(line); r.Some? ==>
      ParseLine(r.value.article + "\t" + r.value.street + "\t" + r.value.house) == r
  {
    var parts := Split(line, '\t');
    var article, street, house := Trim(FieldOr(parts, 0)), Trim(FieldOr(parts, 1)), Trim(FieldOr(parts, 2));
    CleanField(line, 0);
    CleanField(line, 1);
    CleanField(line, 2);
    if article != "" && street != "" {
      assert ParseLine(line) == Some(Record(article, street, house));
      ParseLineRoundTrip(article, street, house);
    }
  }

  /** A trimmed field of a line is its own trim and has no tab. */
  lemma CleanField(line: string, i: nat)
    ensures var f := Trim(FieldOr(Split(line, '\t'), i)); Trim(f) == f && '\t' !in f
  {
    var field := FieldOr(Split(line, '\t'), i);
    TrimIdempotent(field);
    FieldOrNoSep(line, '\t', i);
    TrimKeepsAbsent(field, '\t');
  }

  /** A line written out from trimmed, tab-free fields with a non-empty
      article and street reads back as exactly that record. */
  lemma ParseLineRoundTrip(article: string, street: string, house: string)
    requires article != "" && street != ""
    requires Trim(article) == article && Trim(street) == street && Trim(house) == house
    requires '\t' !in article && '\t' !in street && '\t' !in house
    ensures ParseLine(article + "\t" + street + "\t" + house) == Some(Record(article, street, house))
  {
    var parts := [article, street, house];
    assert Join(parts[2..], '\t') == house;
    assert Join(parts[1..], '\t') == street + "\t" + house;
    assert Join(parts, '\t') == article + "\t" + street + "\t" + house;
    SplitJoin(parts, '\t');
  }

  /** A line is skipped exactly when its first or second field is blank. */
  lemma ParseLineSkips(line: string)
    ensures ParseLine(line).None? <==>
              AllSpace(FieldOr(Split(line, '\t'), 0)) || AllSpace(FieldOr(Split(line, '\t'), 1))
  {
    TrimEmptyIffBlank(FieldOr(Split(line, '\t'), 0));
    TrimEmptyIffBlank(FieldOr(Split(line, '\t'), 1));
  }

  /** The records of `lines`, in order, skipping the lines `ParseLine` rejects. */
  function RecordsOf(lines: seq<string>): (rs: seq<Record>)
    ensures |rs| <= |lines|
  {
    if lines == [] then []
    else
      var last := ParseLine(lines[|lines| - 1]);
      RecordsOf(lines[..|lines| - 1]) + (if last.Some? then [last.value] else [])
  }

  lemma RecordsOfStep(lines: seq<string>, i: nat)
    requires i < |lines|
    ensures RecordsOf(lines[..i + 1])
         == RecordsOf(lines[..i]) + (if ParseLine(lines[i]).Some? then [ParseLine(lines[i]).value] else [])
  {
    assert lines[..i + 1][..i] == lines[..i] && lines[..i + 1][i] == lines[i];
  }

  /** Every parsed record has a non-empty, trimmed article and street and
      a trimmed house field. */
  lemma {:induction false} RecordsWellFormed(lines: seq<string>)
    ensures forall r :: r in RecordsOf(lines) ==>
              && r.article != "" && r.street != ""
              && Trim(r.article) == r.article && Trim(r.street) == r.street && Trim(r.house) == r.house
  {
    if lines != [] {
      RecordsWellFormed(lines[..|lines| - 1]);
      ParseLineFields(lines[|lines| - 1]);
    }
  }

  /** Reading the register: split the file into lines, drop the blank
      ones and parse the rest. */
  method ParseRecords(text: string) returns (records: seq<Record>)
    ensures records == RecordsOf(NonBlankLines(text))
  {
    records := ParseLines(NonBlankLines(text));
  }

  /** The parsing loop: keep the record of every line that has an article
      and a street, in line order. */
  method ParseLines(lines: seq<string>) returns (records: seq<Record>)
    ensures records == RecordsOf(lines)
  {
    records := [];
    var i := 0;
    while i < |lines|
      invariant 0 <= i <= |lines|
      invariant records == RecordsOf(lines[..i])
    {
      var r := ParseLine(lines[i]);
      RecordsOfStep(lines, i);
      records := records + (if r.Some? then [r.value] else []);
      i := i + 1;
    }
    assert lines[..i] == lines;
  }

  // ------------------------------------------------------- microdistricts

  /** `/^(№\s*)?\d+$/` as a language: one or more digits, optionally
      preceded by '№' and any whitespace. */
  ghost predicate MicroPattern(s: string)
  {
    (s != [] && AllDigits(s))
    || exists k {:trigger s[k..]} ::
         && 1 <= k < |s| && s[0] == '№' && AllSpace(s[1..k]) && AllDigits(s[k..])
  }

  /** `isMicrodistrict(name)`. */
  function IsMicrodistrict(name: string): bool
  {
    (name != [] && AllDigits(name))
    || (name != [] && name[0] == '№' && TrimStart(name[1..]) != [] && AllDigits(TrimStart(name[1..])))
  }

  /** `isMicrodistrict` accepts exactly the strings of the pattern. */
  lemma IsMicrodistrictMatchesPattern(s: string)
    ensures IsMicrodistrict(s) <==> MicroPattern(s)
  {
    if s != [] && s[0] == '№' {
      assert !AllDigits(s) by { assert !IsDigit(s[0]); }
      if MicroPattern(s) {
        var k :| 1 <= k < |s| && AllSpace(s[1..k]) && AllDigits(s[k..]);
        MicroFromPattern(s, k);
      }
      if IsMicrodistrict(s) {
        var k := PatternFromMicro(s);
        assert s[k..] == s[k..];  // the witness of the pattern
      }
    }
  }

  /** A '№', white space and digits make a microdistrict name. */
  lemma MicroFromPattern(s: string, k: nat)
    requires 1 <= k < |s| && s[0] == '№' && AllSpace(s[1..k]) && AllDigits(s[k..])
    ensures IsMicrodistrict(s)
  {
    SliceOfSuffix(s, 1, k - 1);
    assert s[k..][0] == s[k];
    TrimStartAt(s[1..], k - 1);
  }

  /** A microdistrict name starting with '№' splits into the sign, white
      space and the digits left after trimming. */
  lemma PatternFromMicro(s: string) returns (k: nat)
    requires s != [] && s[0] == '№' && IsMicrodistrict(s)
    ensures 1 <= k < |s| && AllSpace(s[1..k]) && AllDigits(s[k..])
  {
    assert !AllDigits(s) by { assert !IsDigit(s[0]); }
    k := |s| - |TrimStart(s[1..])|;
    SliceOfSuffix(s, 1, k - 1);
  }

  /** `getMicrodistrictNum`: the first run of digits of `name`. For a
      microdistrict name it is the whole trailing number. */
  function MicrodistrictNum(name: string): (r: Option<string>)
    ensures IsMicrodistrict(name) ==> r.Some? && AllDigits(r.value) && r.value != []
  {
    FirstDigitRun(name)
  }

  /** The number read from a microdistrict name is its digits after the
      optional '№' and whitespace: the name itself when it is all digits. */
  lemma MicrodistrictNumIsSuffix(name: string)
    requires IsMicrodistrict(name)
    ensures var n := MicrodistrictNum(name).value;
      |n| <= |name| && name[|name| - |n|..] == n
    ensures AllDigits(name) ==> MicrodistrictNum(name) == Some(name)
  {
    if AllDigits(name) {
      assert name[0..] == name;
      FirstDigitRunIsSuffix(name, 0);
    } else {
      var k := PatternFromMicro(name);
      forall j | 0 <= j < k ensures !IsDigit(name[j]) {
        if j > 0 { assert name[1..k][j - 1] == name[j]; }
      }
      FirstDigitRunIsSuffix(name, k);
    }
  }

  // ------------------------------------------------------------- coverage

  /** The coverage test against a street table: a street counts as mapped
      when it is a microdistrict name or its upper-cased form is a key of
      the table. */
  predicate MappedIn(street: string, table: map<string, Coord>)
  {
    IsMicrodistrict(street) || ToUpper(street) in table
  }

  /** The generator's coverage test, against `STREETS`. */
  predicate Mapped(street: string)
  {
    MappedIn(street, STREETS)
  }

  function CountMapped(rs: seq<Record>, table: map<string, Coord>): (n: nat)
    ensures n <= |rs|
  {
    if rs == [] then 0
    else CountMapped(rs[..|rs| - 1], table) + (if MappedIn(rs[|rs| - 1].street, table) then 1 else 0)
  }

  /** The unmapped street names as written. */
  function UnmappedStreets(rs: seq<Record>, table: map<string, Coord>): set<string>
  {
    set r | r in rs && !MappedIn(r.street, table) :: r.street
  }

  /** One more record adds its street to the unmapped names exactly when
      it is not mapped. */
  lemma UnmappedStreetsStep(rs: seq<Record>, r: Record, table: map<string, Coord>)
    ensures UnmappedStreets(rs + [r], table)
         == UnmappedStreets(rs, table) + (if MappedIn(r.street, table) then {} else {r.street})
  {
    assert forall x :: x in rs + [r] <==> x in rs || x == r;
  }

  /** One more record is counted as mapped or adds its street to the
      unmapped names. */
  lemma CoverageStep(rs: seq<Record>, i: nat, table: map<string, Coord>)
    requires i < |rs|
    ensures CountMapped(rs[..i + 1], table) == CountMapped(rs[..i], table) + (if MappedIn(rs[i].street, table) then 1 else 0)
    ensures UnmappedStreets(rs[..i + 1], table)
         == UnmappedStreets(rs[..i], table) + (if MappedIn(rs[i].street, table) then {} else {rs[i].street})
  {
    assert rs[..i + 1] == rs[..i] + [rs[i]];
    UnmappedStreetsStep(rs[..i], rs[i], table);
  }

  /** The coverage loop: the numbers of mapped and unmapped records and
      the set of unmapped street names as written. The generator runs it
      with `table` = `STREETS`. */
  method CheckCoverage(records: seq<Record>, table: map<string, Coord>)
      returns (mapped: nat, unmapped: nat, unmappedStreets: set<string>)
    ensures mapped == CountMapped(records, table)
    ensures mapped + unmapped == |records|
    ensures unmappedStreets == UnmappedStreets(records, table)
    ensures unmapped == 0 <==> unmappedStreets == {}
  {
    mapped, unmapped, unmappedStreets := 0, 0, {};
    var i := 0;
    while i < |records|
      invariant 0 <= i <= |records|
      invariant mapped == CountMapped(records[..i], table) && mapped + unmapped == i
      invariant unmappedStreets == UnmappedStreets(records[..i], table)
    {
      var r := records[i];
      CoverageStep(records, i, table);
      // Both mapped branches of the generator (a microdistrict, a known
      // street) only count the record.
      if MappedIn(r.street, table) {
        mapped := mapped + 1;
      } else {
        unmapped := unmapped + 1;
        unmappedStreets := unmappedStreets + {r.street};
      }
      i := i + 1;
    }
    assert records[..i] == records;
    AllMappedIffNoneUnmapped(records, table);
  }

  /** Every record is mapped exactly when no street is left unmapped. */
  lemma {:induction false} AllMappedIffNoneUnmapped(rs: seq<Record>, table: map<string, Coord>)
    ensures CountMapped(rs, table) == |rs| <==> UnmappedStreets(rs, table) == {}
  {
    if rs != [] {
      var front, r := rs[..|rs| - 1], rs[|rs| - 1];
      AllMappedIffNoneUnmapped(front, table);
      CoverageStep(rs, |rs| - 1, table);
      assert rs[..|rs|] == rs;
      if !MappedIn(r.street, table) {
        assert CountMapped(rs, table) == CountMapped(front, table) <= |front|;
        assert r.street in UnmappedStreets(rs, table);
      }
    }
  }

  // ------------------------------------------------------------ placement

  /** Where a record is placed before jitter, and the width of the jitter. */
  datatype Anchor = Anchor(base: Coord, spread: real)

  const NARROW: real := 0.002
  const WIDE: real := 0.012

  /** The placement branches of the generator: a microdistrict goes to its
      table entry (the centre when its number is not in the table), a known
      street to its table entry, and anything else to the centre with the
      wide spread. */
  function AnchorOf(street: string): (a: Anchor)
    ensures a.spread == NARROW <==> Mapped(street)
    ensures a.spread == NARROW || a.spread == WIDE
    ensures IsMicrodistrict(street) && MicrodistrictNum(street).value in MICRODISTRICTS ==>
              a.base == MICRODISTRICTS[MicrodistrictNum(street).value]
    ensures !IsMicrodistrict(street) && ToUpper(street) in STREETS ==> a.base == STREETS[ToUpper(street)]
    ensures IsMicrodistrict(street) && MicrodistrictNum(street).value !in MICRODISTRICTS ==> a.base == CENTER
    ensures !Mapped(street) ==> a.base == CENTER
  {
    if IsMicrodistrict(street) then
      var num := MicrodistrictNum(street);
      if num.Some? && num.value in MICRODISTRICTS then Anchor(MICRODISTRICTS[num.value], NARROW)
      else Anchor(CENTER, NARROW)
    else if ToUpper(street) in STREETS then Anchor(STREETS[ToUpper(street)], NARROW)
    else Anchor(CENTER, WIDE)
  }

  function Abs(x: real): real
  {
    if x < 0.0 then -x else x
  }

  /** `Math.round(x * 10000) / 10000`: `Math.round` rounds half up, so the
      result is the multiple of 0.0001 nearest to `x`. */
  function Round4(x: real): (r: real)
    ensures Abs(r - x) <= 0.00005
    ensures (r * 10000.0).Floor as real == r * 10000.0
  {
    var k := (x * 10000.0 + 0.5).Floor;
    assert k as real <= x * 10000.0 + 0.5 < k as real + 1.0;
    assert (k as real / 10000.0) * 10000.0 == k as real;
    k as real / 10000.0
  }

  /** Rounding leaves a multiple of 0.0001 alone. */
  lemma Round4OnGrid(k: int)
    ensures Round4(k as real / 10000.0) == k as real / 10000.0
  {
    var x := k as real / 10000.0;
    assert x * 10000.0 + 0.5 == k as real + 0.5;
    assert (k as real + 0.5).Floor == k;
  }

  /** `r.house ? r.street + " " + r.house : r.street`. */
  function Address(r: Record): string
  {
    if r.house != "" then r.street + " " + r.house else r.street
  }

  /** The point generated for record `r` with id `id` and draws `u`, `v`
      (the two `Math.random()` results for latitude and longitude). */
  function CrimePoint(r: Record, id: int, u: real, v: real): (p: Point)
    requires 0.0 <= u < 1.0 && 0.0 <= v < 1.0
    ensures p.id == id && p.category == "crime" && p.photos == []
    ensures Coord(p.lat, p.lng) == Place(AnchorOf(r.street), u, v)
  {
    var c := Place(AnchorOf(r.street), u, v);
    var address := Address(r);
    var description := r.article + " — " + address;
    Point(id, c.lat, c.lng, "crime", address, address, address, address, description, description, [])
  }

  /** The anchor moved by `(u - 0.5) * spread` and `(v - 0.5) * spread`,
      each coordinate rounded to four decimals. */
  function Place(a: Anchor, u: real, v: real): (c: Coord)
    requires a.spread > 0.0 && 0.0 <= u < 1.0 && 0.0 <= v < 1.0
    ensures Abs(c.lat - a.base.lat) <= a.spread / 2.0 + 0.00005
    ensures Abs(c.lng - a.base.lng) <= a.spread / 2.0 + 0.00005
  {
    var dLat, dLng := Jitter(u, a.spread), Jitter(v, a.spread);
    NearAnchor(a.base.lat, dLat, a.spread);
    NearAnchor(a.base.lng, dLng, a.spread);
    Coord(Round4(a.base.lat + dLat), Round4(a.base.lng + dLng))
  }

  /** A generated point shows the address as title and address in both
      languages, and describes the article followed by the address. */
  lemma CrimePointTexts(r: Record, id: int, u: real, v: real)
    requires 0.0 <= u < 1.0 && 0.0 <= v < 1.0
    ensures var p := CrimePoint(r, id, u, v);
      && p.titleRu == p.titleKz == p.addressRu == p.addressKz == Address(r)
      && p.descriptionRu == p.descriptionKz == r.article + " — " + Address(r)
  {
  }

  /** A coordinate moved by at most half the spread and then rounded stays
      within half the spread, plus the rounding, of where it started. */
  lemma NearAnchor(base: real, d: real, spread: real)
    requires Abs(d) <= spread / 2.0
    ensures Abs(Round4(base + d) - base) <= spread / 2.0 + 0.00005
  {
    var y := base + d;
    assert Abs(Round4(y) - y) <= 0.00005;
  }

  /** `(Math.random() - 0.5) * spread` for the draw `u`. */
  function Jitter(u: real, spread: real): (d: real)
    requires 0.0 <= u < 1.0 && spread > 0.0
    ensures Abs(d) <= spread / 2.0
  {
    JitterBound(u, spread);
    (u - 0.5) * spread
  }

  lemma JitterBound(u: real, spread: real)
    requires 0.0 <= u < 1.0 && spread > 0.0
    ensures Abs((u - 0.5) * spread) <= spread / 2.0
  {
    if u < 0.5 {
      assert (0.5 - u) * spread <= 0.5 * spread;
    } else {
      assert (u - 0.5) * spread <= 0.5 * spread;
    }
  }

  /** The first generated id. */
  const FIRST_ID: int := 5000

  /** The two `Math.random()` results drawn for one record. */
  predicate ValidDraws(draws: seq<(real, real)>)
  {
    forall k :: 0 <= k < |draws| ==> 0.0 <= draws[k].0 < 1.0 && 0.0 <= draws[k].1 < 1.0
  }

  /** The generation loop: one point per record, in order, with ids counting
      up from 5000; record `i` consumes the draws `draws[i]`. */
  method GeneratePoints(records: seq<Record>, draws: seq<(real, real)>) returns (points: seq<Point>)
    requires |draws| == |records| && ValidDraws(draws)
    ensures |points| == |records|
    ensures forall i :: 0 <= i < |records| ==>
              points[i] == CrimePoint(records[i], FIRST_ID + i, draws[i].0, draws[i].1)
  {
    points := [];
    var id := FIRST_ID;
    var i := 0;
    while i < |records|
      invariant 0 <= i <= |records| && |points| == i && id == FIRST_ID + i
      invariant forall k :: 0 <= k < i ==> points[k] == CrimePoint(records[k], FIRST_ID + k, draws[k].0, draws[k].1)
    {
      var (u, v) := draws[i];
      points := points + [CrimePoint(records[i], id, u, v)];
      id := id + 1;
      i := i + 1;
    }
  }

  /** Generated ids are consecutive from 5000, so they are distinct and
      never collide with an id below 5000 such as those of the default points. */
  lemma GeneratedIds(points: seq<Point>)
    requires forall i :: 0 <= i < |points| ==> points[i].id == FIRST_ID + i
    ensures UniqueIds(points)
    ensures forall i :: 0 <= i < |points| ==> points[i].id >= FIRST_ID
  {
  }
}
