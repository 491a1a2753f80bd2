/**
 * The street tally that tools/geocode-streets.js, tools/analyze-streets.js
 * and tools/top-streets.js each compute: for every non-blank register line,
 * the trimmed second field, upper-cased, counted in a `Map` that remembers
 * the order in which keys were first seen. The map is modelled as that key
 * order plus a `map` from key to count.
 */
module Tally {

  import opened Wrappers
  import opened Text
  import Sorting

  /** The key a line is counted under: its trimmed second field in upper
      case, or `None` when that field is empty. */
  function StreetKey(line: string): Option<string>
  {
    var street := Trim(FieldOr(Split(line, '\t'), 1));
    if street != "" then Some(ToUpper(street)) else None
  }

  /** The key of every line, in line order. */
  function LineKeys(lines: seq<string>): (ks: seq<Option<string>>)
    ensures |ks| == |lines|
  {
    seq(|lines|, i requires 0 <= i < |lines| => StreetKey(lines[i]))
  }

  /** A line is counted exactly when its second field is not blank, and
      the key it is counted under is non-empty and already upper case. */
  lemma StreetKeyFacts(line: string)
    ensures StreetKey(line).None? <==> AllSpace(FieldOr(Split(line, '\t'), 1))
    ensures StreetKey(line).Some? ==> StreetKey(line).value != "" && ToUpper(StreetKey(line).value) == StreetKey(line).value
  {
    var street := Trim(FieldOr(Split(line, '\t'), 1));
    TrimEmptyIffBlank(FieldOr(Split(line, '\t'), 1));
    ToUpperIdempotent(street);
  }

  /** The tally's keys are exactly the keys of the counted lines. */
  lemma LineKeysMembers(lines: seq<string>)
    ensures forall k :: k in KeysOf(LineKeys(lines)) <==> exists i :: 0 <= i < |lines| && StreetKey(lines[i]) == Some(k)
  {
    KeysOfFacts(LineKeys(lines));
    forall k | k in KeysOf(LineKeys(lines)) ensures exists i :: 0 <= i < |lines| && StreetKey(lines[i]) == Some(k) {
      KeyHasLine(lines, k);
    }
    forall k, i | 0 <= i < |lines| && StreetKey(lines[i]) == Some(k) ensures k in KeysOf(LineKeys(lines)) {
      assert LineKeys(lines)[i] == Some(k);
    }
  }

  lemma KeyHasLine(lines: seq<string>, k: string)
    requires Some(k) in LineKeys(lines)
    ensures exists i :: 0 <= i < |lines| && StreetKey(lines[i]) == Some(k)
  {
    var i :| 0 <= i < |lines| && LineKeys(lines)[i] == Some(k);
    assert StreetKey(lines[i]) == Some(k);
  }

  /** How many lines are counted under `k`, given the keys of the lines. */
  function Occurrences(ks: seq<Option<string>>, k: string): (n: nat)
    ensures n <= |ks|
  {
    if ks == [] then 0
    else Occurrences(ks[..|ks| - 1], k) + (if ks[|ks| - 1] == Some(k) then 1 else 0)
  }

  /** How many lines are counted at all. */
  function Counted(ks: seq<Option<string>>): (n: nat)
    ensures n <= |ks|
  {
    if ks == [] then 0
    else Counted(ks[..|ks| - 1]) + (if ks[|ks| - 1].Some? then 1 else 0)
  }

  /** The keys of the tally in the order they were first seen. */
  function KeysOf(ks: seq<Option<string>>): seq<string>
  {
    if ks == [] then []
    else
      var front := KeysOf(ks[..|ks| - 1]);
      var k := ks[|ks| - 1];
      if k.Some? && k.value !in front then front + [k.value] else front
  }

  predicate Distinct(s: seq<string>)
  {
    forall i, j :: 0 <= i < j < |s| ==> s[i] != s[j]
  }

  /** The keys are distinct, and a string is a key exactly when some line
      is counted under it. */
  lemma {:induction false} KeysOfFacts(ks: seq<Option<string>>)
    ensures Distinct(KeysOf(ks))
    ensures forall k :: k in KeysOf(ks) <==> Occurrences(ks, k) > 0
    ensures forall k :: k in KeysOf(ks) <==> Some(k) in ks
  {
    if ks != [] {
      var p := ks[..|ks| - 1];
      KeysOfFacts(p);
      assert ks == p + [ks[|ks| - 1]];
    }
  }

  /** The sum of the counts of `keys`. */
  function SumOver(keys: seq<string>, ks: seq<Option<string>>): nat
  {
    if keys == [] then 0 else SumOver(keys[..|keys| - 1], ks) + Occurrences(ks, keys[|keys| - 1])
  }

  /** One more line raises the sum over distinct keys by one exactly when
      its key is among them. */
  lemma {:induction false} SumOverBump(keys: seq<string>, p: seq<Option<string>>, k: Option<string>)
    requires Distinct(keys)
    ensures SumOver(keys, p + [k]) == SumOver(keys, p) + (if k.Some? && k.value in keys then 1 else 0)
  {
    assert (p + [k])[..|p|] == p;
    if keys != [] {
      var front := keys[..|keys| - 1];
      var last := keys[|keys| - 1];
      SumOverBump(front, p, k);
      assert keys == front + [last];
      if k == Some(last) {
        assert last !in front;
      }
    }
  }

  /** The counts add up to the number of counted lines. */
  lemma {:induction false} SumOfCounts(ks: seq<Option<string>>)
    ensures SumOver(KeysOf(ks), ks) == Counted(ks)
  {
    if ks != [] {
      var p := ks[..|ks| - 1];
      var k := ks[|ks| - 1];
      assert ks == p + [k];
      var front := KeysOf(p);
      SumOfCounts(p);
      KeysOfFacts(p);
      SumOverBump(front, p, k);
      if k.Some? && k.value !in front {
        assert KeysOf(ks) == front + [k.value];
        assert (front + [k.value])[..|front|] == front;
        assert Occurrences(p, k.value) == 0;
      }
    }
  }

  /** The counting loop: `streetCounts.set(key, (streetCounts.get(key) || 0) + 1)`
      for every line with a non-empty street. */
  method CountStreets(lines: seq<string>) returns (keys: seq<string>, counts: map<string, nat>)
    ensures keys == KeysOf(LineKeys(lines))
    ensures forall k :: k in counts <==> k in keys
    ensures forall k :: k in counts ==> counts[k] == Occurrences(LineKeys(lines), k) && counts[k] >= 1
  {
    keys, counts := CountKeys(LineKeys(lines));
  }

  /** The loop body of the count, given each line's key. */
  method CountKeys(ks: seq<Option<string>>) returns (keys: seq<string>, counts: map<string, nat>)
    ensures keys == KeysOf(ks)
    ensures forall k :: k in counts <==> k in keys
    ensures forall k :: k in counts ==> counts[k] == Occurrences(ks, k) && counts[k] >= 1
  {
    keys, counts := [], map[];
    var i := 0;
    while i < |ks|
      invariant 0 <= i <= |ks|
      invariant keys == KeysOf(ks[..i])
      invariant forall k :: k in counts <==> k in keys
      invariant forall k :: k in counts ==> counts[k] == Occurrences(ks[..i], k)
    {
      var key := ks[i];
      assert ks[..i + 1][..i] == ks[..i] && ks[..i + 1][i] == key;
      assert forall k :: Occurrences(ks[..i + 1], k) == Occurrences(ks[..i], k) + (if key == Some(k) then 1 else 0);
      KeysOfFacts(ks[..i]);
      if key.Some? {
        if key.value in counts {
          counts := counts[key.value := counts[key.value] + 1];
        } else {
          counts := counts[key.value := 1];
          keys := keys + [key.value];
        }
      }
      i := i + 1;
    }
    assert ks[..i] == ks;
    KeysOfFacts(ks);
  }

  /** One `[street, count]` entry of the map. */
  datatype Entry = Entry(street: string, count: nat)

  /** The map's entries in key order. */
  function EntriesOf(keys: seq<string>, counts: map<string, nat>): (es: seq<Entry>)
    requires forall k :: k in keys ==> k in counts
    ensures |es| == |keys|
    ensures forall i :: 0 <= i < |keys| ==> es[i] == Entry(keys[i], counts[keys[i]])
  {
    if keys == [] then [] else [Entry(keys[0], counts[keys[0]])] + EntriesOf(keys[1..], counts)
  }

  /** The total of the counts of `es`. */
  function SumCounts(es: seq<Entry>): nat
  {
    if es == [] then 0 else es[0].count + SumCounts(es[1..])
  }

  lemma {:induction false} SumCountsAppend(a: seq<Entry>, b: seq<Entry>)
    ensures SumCounts(a + b) == SumCounts(a) + SumCounts(b)
  {
    if a == [] {
      assert a + b == b;
    } else {
      SumCountsAppend(a[1..], b);
      assert (a + b)[1..] == a[1..] + b;
    }
  }

  /** The entries of a finished tally add up to the number of counted lines. */
  lemma {:induction false} SumEntries(keys: seq<string>, counts: map<string, nat>, ks: seq<Option<string>>)
    requires forall k :: k in keys ==> k in counts && counts[k] == Occurrences(ks, k)
    ensures SumCounts(EntriesOf(keys, counts)) == SumOver(keys, ks)
  {
    if keys != [] {
      var front := keys[..|keys| - 1];
      var last := keys[|keys| - 1];
      assert keys == front + [last];
      SumEntries(front, counts, ks);
      EntriesOfSnoc(front, last, counts);
      SumCountsAppend(EntriesOf(front, counts), [Entry(last, counts[last])]);
    }
  }

  lemma EntriesOfSnoc(front: seq<string>, last: string, counts: map<string, nat>)
    requires forall k :: k in front + [last] ==> k in counts
    ensures EntriesOf(front + [last], counts) == EntriesOf(front, counts) + [Entry(last, counts[last])]
  {
    var a := EntriesOf(front + [last], counts);
    var b := EntriesOf(front, counts) + [Entry(last, counts[last])];
    forall i | 0 <= i < |a| ensures a[i] == b[i] {
      assert (front + [last])[i] == if i < |front| then front[i] else last;
    }
  }

  /** The sort key of `(a, b) => b.count - a.count`: larger counts first. */
  function ByCountDesc(e: Entry): int
  {
    -(e.count as int)
  }

  /** Sorting entries does not change their total. */
  lemma {:induction false} SumCountsSortBy(es: seq<Entry>)
    ensures SumCounts(Sorting.SortBy(es, ByCountDesc)) == SumCounts(es)
  {
    if es != [] {
      SumCountsSortBy(es[1..]);
      SumCountsInsert(es[0], Sorting.SortBy(es[1..], ByCountDesc));
    }
  }

  lemma {:induction false} SumCountsInsert(x: Entry, es: seq<Entry>)
    ensures SumCounts(Sorting.Insert(x, es, ByCountDesc)) == x.count + SumCounts(es)
  {
    if !(es == [] || ByCountDesc(x) <= ByCountDesc(es[0])) {
      SumCountsInsert(x, es[1..]);
      assert ([es[0]] + Sorting.Insert(x, es[1..], ByCountDesc))[1..] == Sorting.Insert(x, es[1..], ByCountDesc);
    } else {
      assert ([x] + es)[1..] == es;
    }
  }
}
