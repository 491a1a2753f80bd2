/**
 * tools/analyze-streets.js: which register streets the street table of
 * tools/generate-crimes.js knows. The known names are the first quoted
 * string of each line of the table's source text; a tallied street is
 * mapped when it is known or looks like a microdistrict number. The
 * unmapped streets are then listed by descending count.
 *
 * The script's microdistrict pattern is written with the three characters
 * "â„–" where generate-crimes has the sign '№' (the UTF-8 bytes of '№' read
 * as Windows-1252). The model keeps that pattern as written
 * (`AsWrittenMicro`) and proves what it changes; the classifier is a
 * parameter of `Analyze`, and `IntendedMicro` is the pattern of
 * generate-crimes.
 */
module Analyze {

  import opened Wrappers
  import opened Text
  import opened Tally
  import Sorting
  import TopStreets
  import Crimes
  import CrimeTables

  // ----------------------------------------------------- known streets

  /** Index of the first '"' in `s`, or -1. */
  function QuoteIndex(s: string): (i: int)
    ensures -1 <= i < |s|
    ensures i == -1 <==> '"' !in s
    ensures i >= 0 ==> s[i] == '"' && '"' !in s[..i]
  {
    if s == [] then -1
    else if s[0] == '"' then 0
    else
      var j := QuoteIndex(s[1..]);
      assert s == [s[0]] + s[1..];
      if j == -1 then -1
      else
        assert s[..j + 1] == [s[0]] + s[1..][..j];
        j + 1
  }

  /** `s` holds `v` between quotes starting at index `i`. */
  predicate QuotedAt(s: string, i: int, v: string)
  {
    0 <= i && i + |v| + 2 <= |s| && s[i..][..|v| + 2] == "\"" + v + "\""
  }

  /** `line.match(/"([^"]+)"/)[1]`: the leftmost non-empty run of
      non-quote characters enclosed in quotes, or `None`. */
  function FirstQuoted(s: string): (r: Option<string>)
    ensures r.Some? ==> r.value != [] && '"' !in r.value
    ensures r.Some? ==> exists i :: QuotedAt(s, i, r.value)
  {
    if s == [] then None
    else if s[0] == '"' && QuoteIndex(s[1..]) > 0 then
      var v := s[1..1 + QuoteIndex(s[1..])];
      assert v == s[1..][..QuoteIndex(s[1..])];
      assert QuotedAt(s, 0, v) by { assert s[0..][..|v| + 2] == "\"" + v + "\""; }
      Some(v)
    else
      var r := FirstQuoted(s[1..]);
      if r.Some? then
        var i :| QuotedAt(s[1..], i, r.value);
        assert QuotedAt(s, i + 1, r.value) by { assert s[1..][i..] == s[i + 1..]; }
        r
      else r
  }

  /** The regular expression `/"([^"]+)"/` can match starting at index `j`:
      a quote there, followed by a non-empty quote-free run and a quote. */
  predicate MatchAt(s: string, j: int)
  {
    0 <= j < |s| && s[j] == '"' && QuoteIndex(s[j + 1..]) > 0
  }

  /** The captured group of the match starting at `j`. */
  function MatchValue(s: string, j: int): string
    requires MatchAt(s, j)
  {
    s[j + 1..][..QuoteIndex(s[j + 1..])]
  }

  /** `line.match` returns the leftmost match: what `FirstQuoted` yields is
      the group of a match at some index `i`, and no match starts before
      `i`. */
  lemma {:induction false} FirstQuotedLeftmost(s: string) returns (i: int)
    ensures FirstQuoted(s).Some? ==>
              && MatchAt(s, i) && FirstQuoted(s).value == MatchValue(s, i)
              && forall j :: 0 <= j < i ==> !MatchAt(s, j)
  {
    i := 0;
    if s != [] && !MatchAt(s, 0) {
      var k := FirstQuotedLeftmost(s[1..]);
      if FirstQuoted(s[1..]).Some? {
        i := k + 1;
        LeftmostStep(s, k);
      }
    }
  }

  /** The step of `FirstQuotedLeftmost` when no match starts at index 0:
      the leftmost match of `s[1..]`, shifted by one, is that of `s`. */
  lemma LeftmostStep(s: string, k: int)
    requires s != [] && !MatchAt(s, 0)
    requires MatchAt(s[1..], k) && forall j :: 0 <= j < k ==> !MatchAt(s[1..], j)
    ensures MatchAt(s, k + 1) && MatchValue(s[1..], k) == MatchValue(s, k + 1)
    ensures forall j :: 0 <= j < k + 1 ==> !MatchAt(s, j)
  {
    MatchShift(s, k);
    forall j | 1 <= j < k + 1 ensures !MatchAt(s, j) {
      MatchShift(s, j - 1);
    }
  }

  /** A match at `j + 1` of `s` is a match at `j` of `s[1..]`, with the same
      group. */
  lemma MatchShift(s: string, j: nat)
    requires j + 1 < |s|
    ensures MatchAt(s[1..], j) <==> MatchAt(s, j + 1)
    ensures MatchAt(s, j + 1) ==> MatchValue(s[1..], j) == MatchValue(s, j + 1)
  {
    assert s[1..][j] == s[j + 1];
    assert s[1..][j + 1..] == s[j + 2..];
  }

  /** `FirstQuoted` finds nothing exactly when every quote of `s` is
      followed directly by another quote or by no quote at all, so that no
      non-empty quote-free run is enclosed in quotes. */
  lemma {:induction false} FirstQuotedNone(s: string)
    ensures FirstQuoted(s).None? <==>
              forall i :: 0 <= i < |s| && s[i] == '"' ==> QuoteIndex(s[i + 1..]) <= 0
  {
    if s != [] {
      FirstQuotedNone(s[1..]);
      assert forall i :: 1 <= i < |s| ==> s[1..][i - 1] == s[i] && s[1..][i - 1 + 1..] == s[i + 1..];
    }
  }

  /** A quote-free name between quotes at the start of a line is what
      `FirstQuoted` yields. */
  lemma QuotedAtStart(name: string, rest: string)
    requires name != [] && '"' !in name
    ensures FirstQuoted("\"" + name + "\"" + rest) == Some(name)
  {
    var s := "\"" + name + "\"" + rest;
    assert s[1..] == name + "\"" + rest;
    QuoteAfter(name, rest);
    assert s[1..1 + |name|] == name;
  }

  lemma {:induction false} QuoteAfter(name: string, rest: string)
    requires '"' !in name
    ensures QuoteIndex(name + "\"" + rest) == |name|
  {
    if name != [] {
      QuoteAfter(name[1..], rest);
      assert (name + "\"" + rest)[1..] == name[1..] + "\"" + rest;
    }
  }

  /** Characters other than a quote before the first quote are skipped. */
  lemma {:induction false} SkipIndent(indent: string, t: string)
    requires '"' !in indent
    ensures FirstQuoted(indent + t) == FirstQuoted(t)
  {
    if indent == [] {
      assert indent + t == t;
    } else {
      calc {
        FirstQuoted(indent + t);
        { assert (indent + t)[0] == indent[0] && indent[0] in indent; }
        FirstQuoted((indent + t)[1..]);
        { assert (indent + t)[1..] == indent[1..] + t; }
        FirstQuoted(indent[1..] + t);
        { assert forall c :: c in indent[1..] ==> c in indent; SkipIndent(indent[1..], t); }
        FirstQuoted(t);
      }
    }
  }

  /** A street-table line `    "NAME": { … }` yields NAME. */
  lemma FirstQuotedTableLine(indent: string, name: string, rest: string)
    requires '"' !in indent && name != [] && '"' !in name
    ensures FirstQuoted(indent + ("\"" + name + "\"" + rest)) == Some(name)
  {
    QuotedAtStart(name, rest);
    SkipIndent(indent, "\"" + name + "\"" + rest);
  }

  /** The names collected from the table's lines: the first quoted string
      of every line that has one. */
  method KnownStreets(tableLines: seq<string>) returns (known: set<string>)
    ensures known == QuotedNames(tableLines)
    ensures forall v :: v in known <==> exists i :: 0 <= i < |tableLines| && FirstQuoted(tableLines[i]) == Some(v)
  {
    known := {};
    var i := 0;
    while i < |tableLines|
      invariant 0 <= i <= |tableLines|
      invariant known == QuotedNames(tableLines[..i])
    {
      var m := FirstQuoted(tableLines[i]);
      QuotedNamesStep(tableLines, i);
      if m.Some? {
        known := known + {m.value};
      }
      i := i + 1;
    }
    assert tableLines[..i] == tableLines;
  }

  /** The first quoted strings of `lines`. */
  function QuotedNames(lines: seq<string>): set<string>
  {
    set l | l in lines && FirstQuoted(l).Some? :: FirstQuoted(l).value
  }

  /** One more line adds its first quoted string, if it has one. */
  lemma QuotedNamesStep(lines: seq<string>, i: nat)
    requires i < |lines|
    ensures QuotedNames(lines[..i + 1])
         == QuotedNames(lines[..i]) + (if FirstQuoted(lines[i]).Some? then {FirstQuoted(lines[i]).value} else {})
  {
    assert lines[..i + 1] == lines[..i] + [lines[i]];
    assert forall l :: l in lines[..i + 1] <==> l in lines[..i] || l == lines[i];
  }

  // --------------------------------------------------- classification

  /** The line-34 pattern as written, `/^(â„–\s*)?\d+$/`: digits, optionally
      preceded by the three characters "â„–" and any whitespace. */
  function AsWrittenMicro(s: string): bool
  {
    (s != [] && AllDigits(s))
    || (|s| >= 3 && s[..3] == "â„–" && TrimStart(s[3..]) != [] && AllDigits(TrimStart(s[3..])))
  }

  /** The pattern the script evidently means: the same regular expression
      with the one-character sign "№" in place of "â„–". It accepts exactly
      the names generate-crimes treats as microdistricts. */
  function IntendedMicro(s: string): (b: bool)
    ensures b == Crimes.IsMicrodistrict(s)
  {
    (s != [] && AllDigits(s))
    || (|s| >= 1 && s[..1] == "№" && TrimStart(s[1..]) != [] && AllDigits(TrimStart(s[1..])))
  }

  /** Whether a tally entry is mapped under classifier `isMicro`. */
  predicate IsMapped(e: Entry, known: set<string>, isMicro: string -> bool)
  {
    isMicro(e.street) || e.street in known
  }

  /** The entries of `es` that are (`want`) or are not mapped, in order. */
  function Part(es: seq<Entry>, known: set<string>, isMicro: string -> bool, want: bool): (r: seq<Entry>)
    ensures |r| <= |es|
  {
    if es == [] then []
    else
      var last := es[|es| - 1];
      Part(es[..|es| - 1], known, isMicro, want) + (if IsMapped(last, known, isMicro) == want then [last] else [])
  }

  /** `Part` keeps exactly the entries whose classification is `want`. */
  lemma {:induction false} PartMembers(es: seq<Entry>, known: set<string>, isMicro: string -> bool, want: bool)
    ensures forall e :: e in Part(es, known, isMicro, want) <==> e in es && IsMapped(e, known, isMicro) == want
  {
    if es != [] {
      PartMembers(es[..|es| - 1], known, isMicro, want);
      assert es == es[..|es| - 1] + [es[|es| - 1]];
    }
  }

  /** A list drawn from entries with distinct streets has distinct streets. */
  lemma {:induction false} PartDistinct(es: seq<Entry>, known: set<string>, isMicro: string -> bool, want: bool)
    requires forall i, j :: 0 <= i < j < |es| ==> es[i].street != es[j].street
    ensures forall i, j :: 0 <= i < j < |Part(es, known, isMicro, want)| ==>
              Part(es, known, isMicro, want)[i].street != Part(es, known, isMicro, want)[j].street
  {
    if es != [] {
      var front, last := es[..|es| - 1], es[|es| - 1];
      PartDistinct(front, known, isMicro, want);
      PartMembers(front, known, isMicro, want);
      var q := Part(front, known, isMicro, want);
      var p := Part(es, known, isMicro, want);
      assert p == q + (if IsMapped(last, known, isMicro) == want then [last] else []);
      forall i, j | 0 <= i < j < |p| ensures p[i].street != p[j].street {
        if j == |q| {
          assert q[i] in q;
          var k :| 0 <= k < |front| && front[k] == q[i];
          assert es[k] == q[i] && p[j] == es[|es| - 1];
        } else {
          assert p[i] == q[i] && p[j] == q[j];
        }
      }
    }
  }

  /** The classification loop: every entry goes to exactly one of the two
      lists, in entry order, and its count to the matching total. */
  method Classify(es: seq<Entry>, known: set<string>, isMicro: string -> bool)
    returns (mapped: nat, unmapped: nat, mappedList: seq<Entry>, unmappedList: seq<Entry>)
    ensures mappedList == Part(es, known, isMicro, true) && unmappedList == Part(es, known, isMicro, false)
    ensures mapped == SumCounts(mappedList) && unmapped == SumCounts(unmappedList)
    ensures mapped + unmapped == SumCounts(es)
  {
    mapped, unmapped, mappedList, unmappedList := 0, 0, [], [];
    var i := 0;
    while i < |es|
      invariant 0 <= i <= |es|
      invariant mappedList == Part(es[..i], known, isMicro, true)
      invariant unmappedList == Part(es[..i], known, isMicro, false)
      invariant mapped == SumCounts(mappedList) && unmapped == SumCounts(unmappedList)
      invariant mapped + unmapped == SumCounts(es[..i])
    {
      var e := es[i];
      ClassifyStep(es, i, known, isMicro);
      if IsMapped(e, known, isMicro) {
        SumCountsAppend(mappedList, [e]);
        mapped := mapped + e.count;
        mappedList := mappedList + [e];
      } else {
        SumCountsAppend(unmappedList, [e]);
        unmapped := unmapped + e.count;
        unmappedList := unmappedList + [e];
      }
      i := i + 1;
    }
    assert es[..i] == es;
  }

  /** One more entry: the lists and the total grow by that entry. */
  lemma ClassifyStep(es: seq<Entry>, i: nat, known: set<string>, isMicro: string -> bool)
    requires i < |es|
    ensures Part(es[..i + 1], known, isMicro, true) == Part(es[..i], known, isMicro, true) + (if IsMapped(es[i], known, isMicro) then [es[i]] else [])
    ensures Part(es[..i + 1], known, isMicro, false) == Part(es[..i], known, isMicro, false) + (if IsMapped(es[i], known, isMicro) then [] else [es[i]])
    ensures SumCounts(es[..i + 1]) == SumCounts(es[..i]) + es[i].count
  {
    assert es[..i + 1] == es[..i] + [es[i]];
    PartStep(es[..i], es[i], known, isMicro);
    SumCountsAppend(es[..i], [es[i]]);
  }

  lemma PartStep(es: seq<Entry>, e: Entry, known: set<string>, isMicro: string -> bool)
    ensures Part(es + [e], known, isMicro, true) == Part(es, known, isMicro, true) + (if IsMapped(e, known, isMicro) then [e] else [])
    ensures Part(es + [e], known, isMicro, false) == Part(es, known, isMicro, false) + (if IsMapped(e, known, isMicro) then [] else [e])
  {
    assert (es + [e])[..|es|] == es;
  }

  /** With distinct streets, each street lands in exactly one list. */
  lemma ExactlyOneList(es: seq<Entry>, known: set<string>, isMicro: string -> bool, street: string)
    requires exists i :: 0 <= i < |es| && es[i].street == street
    ensures (exists e :: e in Part(es, known, isMicro, true) && e.street == street)
            != (exists e :: e in Part(es, known, isMicro, false) && e.street == street)
    ensures (exists e :: e in Part(es, known, isMicro, true) && e.street == street) <==>
              isMicro(street) || street in known
  {
    var i :| 0 <= i < |es| && es[i].street == street;
    assert es[i] in es;
    PartMembers(es, known, isMicro, true);
    PartMembers(es, known, isMicro, false);
  }

  /** The script after the tally: classify the entries, then sort the
      unmapped ones by descending count. The two totals add up to the
      number of counted lines and `unmapped` is the total of the list; the
      list holds exactly the tallied streets, with their counts, that are
      neither microdistricts nor named in the table, each street once,
      largest count first, and streets with equal counts in the order the
      tally first saw them. */
  method Analyze(tableLines: seq<string>, text: string, isMicro: string -> bool)
    returns (mapped: nat, unmapped: nat, unmappedSorted: seq<Entry>)
    ensures mapped + unmapped == Counted(LineKeys(NonBlankLines(text)))
    ensures unmapped == SumCounts(unmappedSorted)
    ensures forall i, j :: 0 <= i < j < |unmappedSorted| ==> unmappedSorted[i].count >= unmappedSorted[j].count
    ensures forall e :: e in unmappedSorted <==>
              && e.street in KeysOf(LineKeys(NonBlankLines(text)))
              && e.count == Occurrences(LineKeys(NonBlankLines(text)), e.street)
              && !isMicro(e.street) && e.street !in QuotedNames(tableLines)    ensures forall i, j :: 0 <= i < j < |unmappedSorted| ==> unmappedSorted[i].street != unmappedSorted[j].street
    ensures forall c :: Sorting.WithKey(unmappedSorted, ByCountDesc, c) ==
              Sorting.WithKey(Part(TopStreets.Tallied(LineKeys(NonBlankLines(text))), QuotedNames(tableLines), isMicro, false), ByCountDesc, c)
  {
    mapped, unmapped, unmappedSorted := AnalyzeLines(tableLines, NonBlankLines(text), isMicro);
  }

  /** `Analyze` once the register is split into its non-blank lines. */
  method AnalyzeLines(tableLines: seq<string>, lines: seq<string>, isMicro: string -> bool)
    returns (mapped: nat, unmapped: nat, unmappedSorted: seq<Entry>)
    ensures mapped + unmapped == Counted(LineKeys(lines))
    ensures unmapped == SumCounts(unmappedSorted)
    ensures forall i, j :: 0 <= i < j < |unmappedSorted| ==> unmappedSorted[i].count >= unmappedSorted[j].count
    ensures forall e :: e in unmappedSorted <==>
              && e.street in KeysOf(LineKeys(lines)) && e.count == Occurrences(LineKeys(lines), e.street)
              && !isMicro(e.street) && e.street !in QuotedNames(tableLines)    ensures forall i, j :: 0 <= i < j < |unmappedSorted| ==> unmappedSorted[i].street != unmappedSorted[j].street
    ensures forall c :: Sorting.WithKey(unmappedSorted, ByCountDesc, c) ==
              Sorting.WithKey(Part(TopStreets.Tallied(LineKeys(lines)), QuotedNames(tableLines), isMicro, false), ByCountDesc, c)
  {
    var known := KnownStreets(tableLines);
    var keys, counts := CountStreets(lines);
    var es := EntriesOf(keys, counts);
    var mappedList, unmappedList;
    mapped, unmapped, mappedList, unmappedList := Classify(es, known, isMicro);
    unmappedSorted := Sorting.SortBy(unmappedList, ByCountDesc);
    AnalyzeFacts(LineKeys(lines), keys, counts, known, isMicro, unmappedList, unmappedSorted);
    AnalyzeOrder(LineKeys(lines), keys, counts, known, isMicro, unmappedList, unmappedSorted);
  }

  /** The sorted unmapped part names each street once, and streets with
      equal counts keep the order in which the tally first saw them. */
  lemma AnalyzeOrder(ks: seq<Option<string>>, keys: seq<string>, counts: map<string, nat>,
                     known: set<string>, isMicro: string -> bool, part: seq<Entry>, sorted: seq<Entry>)
    requires keys == KeysOf(ks)
    requires forall k :: k in counts <==> k in keys
    requires forall k :: k in counts ==> counts[k] == Occurrences(ks, k)
    requires part == Part(EntriesOf(keys, counts), known, isMicro, false)
    requires sorted == Sorting.SortBy(part, ByCountDesc)
    ensures forall i, j :: 0 <= i < j < |sorted| ==> sorted[i].street != sorted[j].street
    ensures forall c :: Sorting.WithKey(sorted, ByCountDesc, c) ==
              Sorting.WithKey(Part(TopStreets.Tallied(ks), known, isMicro, false), ByCountDesc, c)
  {
    EntriesAreTallied(ks, keys, counts);
    SortedDistinct(ks, known, isMicro);
    Sorting.SortByCorrect(part, ByCountDesc);
  }

  /** The entries built from the counting loop's keys and counts are the
      tally in first-seen order. */
  lemma EntriesAreTallied(ks: seq<Option<string>>, keys: seq<string>, counts: map<string, nat>)
    requires keys == KeysOf(ks)
    requires forall k :: k in counts <==> k in keys
    requires forall k :: k in counts ==> counts[k] == Occurrences(ks, k)
    ensures EntriesOf(keys, counts) == TopStreets.Tallied(ks)
  {
  }

  /** Sorting the unmapped part of the tally keeps its streets distinct. */
  lemma SortedDistinct(ks: seq<Option<string>>, known: set<string>, isMicro: string -> bool)
    ensures var sorted := Sorting.SortBy(Part(TopStreets.Tallied(ks), known, isMicro, false), ByCountDesc);
      forall i, j :: 0 <= i < j < |sorted| ==> sorted[i].street != sorted[j].street
  {
    var part := Part(TopStreets.Tallied(ks), known, isMicro, false);
    TopStreets.TalliedFacts(ks);
    PartDistinct(TopStreets.Tallied(ks), known, isMicro, false);
    Sorting.SortByCorrect(part, ByCountDesc);
    TopStreets.DistinctStreets(part, Sorting.SortBy(part, ByCountDesc));
  }

  /** What `AnalyzeLines` reports, stated of the tally: the entries add up
      to the counted lines, and the sorted unmapped part is ordered, has
      the part's total and holds exactly the tallied keys, with their
      counts, that are neither microdistricts nor known. */
  lemma AnalyzeFacts(ks: seq<Option<string>>, keys: seq<string>, counts: map<string, nat>,
                     known: set<string>, isMicro: string -> bool, part: seq<Entry>, sorted: seq<Entry>)
    requires keys == KeysOf(ks)
    requires forall k :: k in counts <==> k in keys
    requires forall k :: k in counts ==> counts[k] == Occurrences(ks, k)
    requires part == Part(EntriesOf(keys, counts), known, isMicro, false)
    requires sorted == Sorting.SortBy(part, ByCountDesc)
    ensures SumCounts(EntriesOf(keys, counts)) == Counted(ks)
    ensures SumCounts(sorted) == SumCounts(part)
    ensures forall i, j :: 0 <= i < j < |sorted| ==> sorted[i].count >= sorted[j].count
    ensures forall e :: e in sorted <==>
              e.street in KeysOf(ks) && e.count == Occurrences(ks, e.street) && !isMicro(e.street) && e.street !in known
  {
    AnalyzeTotals(ks, keys, counts, known, isMicro);
    SortUnmapped(part);
    SumCountsSortBy(part);
  }

  /** The tally's entries add up to the counted lines, and its unmapped
      part holds exactly the keys, with their counts, that the classifier
      rejects and the known set lacks. */
  lemma AnalyzeTotals(ks: seq<Option<string>>, keys: seq<string>, counts: map<string, nat>,
                      known: set<string>, isMicro: string -> bool)
    requires keys == KeysOf(ks)
    requires forall k :: k in counts <==> k in keys
    requires forall k :: k in counts ==> counts[k] == Occurrences(ks, k)
    ensures SumCounts(EntriesOf(keys, counts)) == Counted(ks)
    ensures forall e :: e in Part(EntriesOf(keys, counts), known, isMicro, false) <==>
              e.street in KeysOf(ks) && e.count == Occurrences(ks, e.street) && !isMicro(e.street) && e.street !in known
  {
    SumEntries(keys, counts, ks);
    SumOfCounts(ks);
    PartMembers(EntriesOf(keys, counts), known, isMicro, false);
    EntriesOfMembers(keys, counts);
  }

  /** An entry of `EntriesOf(keys, counts)` is exactly a key with its count. */
  lemma EntriesOfMembers(keys: seq<string>, counts: map<string, nat>)
    requires forall k :: k in keys ==> k in counts
    ensures forall e :: e in EntriesOf(keys, counts) <==> e.street in keys && e.count == counts[e.street]
  {
    var es := EntriesOf(keys, counts);
    forall e: Entry | e.street in keys && e.count == counts[e.street] ensures e in es {
      var i :| 0 <= i < |keys| && keys[i] == e.street;
      assert es[i] == e;
    }
  }

  /** Sorting the unmapped list by descending count: a permutation of it,
      largest count first, with the same total. */
  lemma SortUnmapped(es: seq<Entry>)
    ensures var sorted := Sorting.SortBy(es, ByCountDesc);
      && (forall i, j :: 0 <= i < j < |sorted| ==> sorted[i].count >= sorted[j].count)
      && multiset(sorted) == multiset(es)
      && SumCounts(sorted) == SumCounts(es)
      && (forall e :: e in sorted <==> e in es)
  {
    var sorted := Sorting.SortBy(es, ByCountDesc);
    Sorting.SortByCorrect(es, ByCountDesc);
    SumCountsSortBy(es);
    forall e ensures e in sorted <==> e in es {
      assert e in sorted <==> e in multiset(sorted);
    }
  }

  // --------------------------------------------------------- the finding

  /** Upper-casing maps a lower-case letter to a letter, never to a digit,
      whitespace or '№'; so those characters only come from themselves. */
  lemma UpperCharPreimage(c: char)
    requires IsDigit(UpperChar(c)) || IsSpace(UpperChar(c)) || UpperChar(c) == '№'
    ensures UpperChar(c) == c
  {
  }

  /** A microdistrict name consists of digits, whitespace and '№'. */
  lemma MicroChars(s: string)
    requires Crimes.IsMicrodistrict(s)
    ensures forall k :: 0 <= k < |s| ==> IsDigit(s[k]) || IsSpace(s[k]) || s[k] == '№'
  {
    if !AllDigits(s) {
      var t := TrimStart(s[1..]);
      forall k | 1 <= k < |s| ensures IsDigit(s[k]) || IsSpace(s[k]) {
        if k - 1 < |s[1..]| - |t| {
          assert s[k] == s[1..][..|s[1..]| - |t|][k - 1];
        } else {
          assert s[k] == t[k - 1 - (|s[1..]| - |t|)];
        }
      }
    }
  }

  /** Upper-casing a street does not change whether it is a microdistrict
      name. */
  lemma MicroUnderUpper(s: string)
    ensures Crimes.IsMicrodistrict(ToUpper(s)) <==> Crimes.IsMicrodistrict(s)
  {
    if Crimes.IsMicrodistrict(s) {
      MicroIsUpper(s);
    }
    if Crimes.IsMicrodistrict(ToUpper(s)) {
      UpperMicroIsUpper(s);
    }
  }

  /** A microdistrict name is already upper case. */
  lemma MicroIsUpper(s: string)
    requires Crimes.IsMicrodistrict(s)
    ensures ToUpper(s) == s
  {
    MicroChars(s);
    ToUpperKeeps(s);
  }

  /** A string that upper-cases to a microdistrict name was one already. */
  lemma UpperMicroIsUpper(s: string)
    requires Crimes.IsMicrodistrict(ToUpper(s))
    ensures ToUpper(s) == s
  {
    var u := ToUpper(s);
    MicroChars(u);
    forall k | 0 <= k < |s| ensures u[k] == s[k] {
      UpperCharPreimage(s[k]);
    }
  }

  /** On upper-cased keys the pattern as written accepts only plain digit
      strings: `toUpperCase` turns 'â' into 'Â', so no key starts with "â„–". */
  lemma AsWrittenOnUpperKeys(s: string)
    ensures AsWrittenMicro(ToUpper(s)) <==> (s != [] && AllDigits(ToUpper(s)))
  {
    if |s| >= 3 {
      assert ToUpper(s)[0] == UpperChar(s[0]);
      assert ToUpper(s)[..3][0] == ToUpper(s)[0];
    }
  }

  /** The register street "№5": generate-crimes maps it (it is a
      microdistrict name), while the pattern as written rejects it; read
      against any street table whose text has no '№', the script reports
      it among the unmapped streets, whatever its count. */
  lemma NumberSignCounterexample(count: nat, tableLines: seq<string>)
    requires forall l :: l in tableLines ==> '№' !in l
    ensures Crimes.IsMicrodistrict("№5") && Crimes.Mapped("№5")
    ensures ToUpper("№5") == "№5"
    ensures !AsWrittenMicro(ToUpper("№5")) && IntendedMicro(ToUpper("№5"))
    ensures !IsMapped(Entry("№5", count), QuotedNames(tableLines), AsWrittenMicro)
  {
    var s := "№5";
    assert s[0] == '№' && s[1] == '5' && s[1..] == "5";
    Crimes.MicroFromPattern(s, 1);
    ToUpperKeeps(s);
    assert !AllDigits(s) by { assert !IsDigit(s[0]); }
    QuotedNamesLack(tableLines, '№');
    assert s[0] in s;
  }

  /** A character no table line contains is in no known name. */
  lemma QuotedNamesLack(lines: seq<string>, c: char)
    requires forall l :: l in lines ==> c !in l
    ensures forall v :: v in QuotedNames(lines) ==> c !in v
  {
    forall v | v in QuotedNames(lines) ensures c !in v {
      var l :| l in lines && FirstQuoted(l) == Some(v);
      var i :| QuotedAt(l, i, v);
      forall j | 0 <= j < |v| ensures v[j] != c {
        assert v[j] == l[i..][..|v| + 2][j + 1];
      }
    }
  }

  /** With the intended pattern and the street table's names as the known
      set, a tallied street is mapped exactly when generate-crimes maps it. */
  lemma IntendedAgreesWithGenerator(street: string, count: nat)
    ensures IsMapped(Entry(ToUpper(street), count), CrimeTables.STREETS.Keys, IntendedMicro) <==> Crimes.Mapped(street)
  {
    MicroUnderUpper(street);
  }
}
