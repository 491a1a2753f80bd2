/**
 * tools/top-streets.js: the street tally of the register, listed from the
 * most to the least frequent street.
 */
module TopStreets {

  import opened Wrappers
  import opened Text
  import opened Tally
  import Sorting

  /** The script: count the streets of the non-blank lines, then sort the
      entries by descending count. Every street occurs once with its number
      of lines, the list runs from the largest count down, streets with
      equal counts keep the order in which they were first seen, and the
      counts add up to the number of lines with a street. */
  method TopStreets(text: string) returns (sorted: seq<Entry>)
    ensures var ks := LineKeys(NonBlankLines(text));
      && |sorted| == |KeysOf(ks)|
      && (forall e :: e in sorted <==> e.street in KeysOf(ks) && e.count == Occurrences(ks, e.street))
      && (forall i, j :: 0 <= i < j < |sorted| ==> sorted[i].street != sorted[j].street)
      && (forall i, j :: 0 <= i < j < |sorted| ==> sorted[i].count >= sorted[j].count)
      && SumCounts(sorted) == Counted(ks)
      && forall c :: Sorting.WithKey(sorted, ByCountDesc, c) == Sorting.WithKey(Tallied(ks), ByCountDesc, c)
  {
    var keys, counts := CountStreets(NonBlankLines(text));
    sorted := Sorting.SortBy(EntriesOf(keys, counts), ByCountDesc);
    SortedTally(LineKeys(NonBlankLines(text)), keys, counts);
  }

  /** The entries of the tally of `ks`, in first-seen order. */
  function Tallied(ks: seq<Option<string>>): (es: seq<Entry>)
    ensures |es| == |KeysOf(ks)|
  {
    var keys := KeysOf(ks);
    seq(|keys|, i requires 0 <= i < |keys| => Entry(keys[i], Occurrences(ks, keys[i])))
  }

  lemma SortedTally(ks: seq<Option<string>>, keys: seq<string>, counts: map<string, nat>)
    requires keys == KeysOf(ks)
    requires forall k :: k in counts <==> k in keys
    requires forall k :: k in counts ==> counts[k] == Occurrences(ks, k)
    ensures var sorted := Sorting.SortBy(EntriesOf(keys, counts), ByCountDesc);
      && |sorted| == |KeysOf(ks)|
      && (forall e :: e in sorted <==> e.street in KeysOf(ks) && e.count == Occurrences(ks, e.street))
      && (forall i, j :: 0 <= i < j < |sorted| ==> sorted[i].street != sorted[j].street)
      && (forall i, j :: 0 <= i < j < |sorted| ==> sorted[i].count >= sorted[j].count)
      && SumCounts(sorted) == Counted(ks)
      && forall c :: Sorting.WithKey(sorted, ByCountDesc, c) == Sorting.WithKey(Tallied(ks), ByCountDesc, c)
  {
    assert EntriesOf(keys, counts) == Tallied(ks);
    TalliedFacts(ks);
    SortedFacts(Tallied(ks));
  }

  /** The tally lists each key once with its number of lines, and its
      counts add up to the number of counted lines. */
  lemma TalliedFacts(ks: seq<Option<string>>)
    ensures forall e :: e in Tallied(ks) <==> e.street in KeysOf(ks) && e.count == Occurrences(ks, e.street)
    ensures forall i, j :: 0 <= i < j < |Tallied(ks)| ==> Tallied(ks)[i].street != Tallied(ks)[j].street
    ensures SumCounts(Tallied(ks)) == Counted(ks)
  {
    TalliedMembers(ks);
    KeysOfFacts(ks);
    TalliedSum(ks);
  }

  /** An entry is in the tally exactly when it is a key with its count. */
  lemma TalliedMembers(ks: seq<Option<string>>)
    ensures forall e :: e in Tallied(ks) <==> e.street in KeysOf(ks) && e.count == Occurrences(ks, e.street)
  {
    var keys := KeysOf(ks);
    forall e: Entry | e.street in keys && e.count == Occurrences(ks, e.street) ensures e in Tallied(ks) {
      var i :| 0 <= i < |keys| && keys[i] == e.street;
      assert Tallied(ks)[i] == e;
    }
  }

  /** The tally's counts add up to the number of counted lines. */
  lemma TalliedSum(ks: seq<Option<string>>)
    ensures SumCounts(Tallied(ks)) == Counted(ks)
  {
    var keys := KeysOf(ks);
    var counts := map k | k in keys :: Occurrences(ks, k);
    assert EntriesOf(keys, counts) == Tallied(ks);
    SumEntries(keys, counts, ks);
    SumOfCounts(ks);
  }

  /** Sorting by descending count keeps the entries and their total, keeps
      streets distinct, orders the counts, and is stable. */
  lemma SortedFacts(es: seq<Entry>)
    requires forall i, j :: 0 <= i < j < |es| ==> es[i].street != es[j].street
    ensures var sorted := Sorting.SortBy(es, ByCountDesc);
      && (forall e :: e in sorted <==> e in es)
      && (forall i, j :: 0 <= i < j < |sorted| ==> sorted[i].street != sorted[j].street)
      && (forall i, j :: 0 <= i < j < |sorted| ==> sorted[i].count >= sorted[j].count)
      && SumCounts(sorted) == SumCounts(es)
      && forall c :: Sorting.WithKey(sorted, ByCountDesc, c) == Sorting.WithKey(es, ByCountDesc, c)
  {
    var sorted := Sorting.SortBy(es, ByCountDesc);
    Sorting.SortByCorrect(es, ByCountDesc);
    SumCountsSortBy(es);
    assert forall e :: e in sorted <==> e in es by {
      forall e ensures e in sorted <==> e in es {
        assert e in sorted <==> e in multiset(sorted);
      }
    }
    DistinctStreets(es, sorted);
  }

  /** A reordering of entries with distinct streets has distinct streets. */
  lemma DistinctStreets(entries: seq<Entry>, sorted: seq<Entry>)
    requires forall i, j :: 0 <= i < j < |entries| ==> entries[i].street != entries[j].street
    requires multiset(sorted) == multiset(entries)
    ensures forall i, j :: 0 <= i < j < |sorted| ==> sorted[i].street != sorted[j].street
  {
    assert forall i, j :: 0 <= i < j < |entries| ==> entries[i] != entries[j];
    forall i, j | 0 <= i < j < |sorted| ensures sorted[i].street != sorted[j].street {
      assert sorted[i] in multiset(entries) && sorted[j] in multiset(entries);
      var a :| 0 <= a < |entries| && entries[a] == sorted[i];
      var b :| 0 <= b < |entries| && entries[b] == sorted[j];
      if a == b {
        Sorting.TwoCopies(sorted, i, j);
        Sorting.CountAtMostOne(entries, sorted[i]);
      }
    }
  }
}
