/**
 * tools/geocode-streets.js: looks up coordinates for the tallied register
 * streets and microdistricts, caches every result that falls inside the
 * Atyrau bounding box, and builds the new street and microdistrict tables
 * of tools/generate-crimes.js from the cache.
 *
 * The two geocoding services are parameters: a `Search` answers a query
 * string with the first result's coordinates, or `None` when there is no
 * result or the request fails (the script treats a failed request like an
 * empty answer and moves to the next query).
 */
module Geocode {

  import opened Wrappers
  import opened Text
  import opened Points
  import Crimes
  import Tally
  import Sorting

  // -------------------------------------------------------------- partition

  /** The named streets among the tally keys, in key order. */
  function NamedOf(keys: seq<string>): (r: seq<string>)
    ensures |r| <= |keys|
  {
    if keys == [] then []
    else
      var last := keys[|keys| - 1];
      NamedOf(keys[..|keys| - 1]) + (if Crimes.IsMicrodistrict(last) then [] else [last])
  }

  /** The microdistrict numbers read from the tally keys, in key order. */
  function MicroOf(keys: seq<string>): (r: seq<string>)
    ensures |r| <= |keys|
    ensures |NamedOf(keys)| + |r| == |keys|
  {
    if keys == [] then []
    else
      var last := keys[|keys| - 1];
      MicroOf(keys[..|keys| - 1]) + (if Crimes.IsMicrodistrict(last) then [Crimes.MicrodistrictNum(last).value] else [])
  }

  /** The partition loop: a microdistrict name contributes its number, any
      other name itself. */
  method Partition(keys: seq<string>) returns (named: seq<string>, micro: seq<string>)
    ensures named == NamedOf(keys) && micro == MicroOf(keys)
    ensures |named| + |micro| == |keys|
  {
    named, micro := [], [];
    var i := 0;
    while i < |keys|
      invariant 0 <= i <= |keys|
      invariant named == NamedOf(keys[..i]) && micro == MicroOf(keys[..i])
    {
      var name := keys[i];
      PartitionStep(keys, i);
      if Crimes.IsMicrodistrict(name) {
        micro := micro + [Crimes.MicrodistrictNum(name).value];
      } else {
        named := named + [name];
      }
      i := i + 1;
    }
    assert keys[..i] == keys;
  }

  lemma PartitionStep(keys: seq<string>, i: nat)
    requires i < |keys|
    ensures NamedOf(keys[..i + 1]) == NamedOf(keys[..i]) + (if Crimes.IsMicrodistrict(keys[i]) then [] else [keys[i]])
    ensures MicroOf(keys[..i + 1])
         == MicroOf(keys[..i]) + (if Crimes.IsMicrodistrict(keys[i]) then [Crimes.MicrodistrictNum(keys[i]).value] else [])
  {
    assert keys[..i + 1][..i] == keys[..i] && keys[..i + 1][i] == keys[i];
  }

  /** Every key lands on exactly one side: the named streets are the keys
      that are not microdistrict names, and the numbers are the digit runs
      of those that are. */
  lemma {:induction false} PartitionFacts(keys: seq<string>)
    ensures forall s :: s in NamedOf(keys) <==> s in keys && !Crimes.IsMicrodistrict(s)
    ensures forall n :: n in MicroOf(keys) <==>
              exists k :: k in keys && Crimes.IsMicrodistrict(k) && Crimes.MicrodistrictNum(k) == Some(n)
    ensures forall n :: n in MicroOf(keys) ==> n != [] && AllDigits(n)
  {
    if keys != [] {
      var front := keys[..|keys| - 1];
      PartitionFacts(front);
      assert keys == front + [keys[|keys| - 1]];
    }
  }

  // ------------------------------------------------------------- lookups

  /** `isInAtyrau`: inside the box 46.9–47.3 N, 51.7–52.2 E, bounds included. */
  predicate IsInAtyrau(c: Coord)
  {
    46.9 <= c.lat <= 47.3 && 51.7 <= c.lng <= 52.2
  }

  /** A geocoding service: the first result for a query, or `None`. */
  type Search = string -> Option<Coord>

  function DgisQueries(street: string): seq<string>
  {
    ["Атырау, " + street, street + ", Атырау", "Атырау, улица " + street]
  }

  function NominatimQueries(street: string): seq<string>
  {
    [street + ", Атырау, Казахстан", "улица " + street + ", Атырау", street + ", Atyrau, Kazakhstan"]
  }

  function DgisMicroQueries(num: string): seq<string>
  {
    ["Атырау, " + num + " микрорайон", num + " микрорайон, Атырау"]
  }

  function NominatimMicroQueries(num: string): seq<string>
  {
    [num + " микрорайон, Атырау, Казахстан", "микрорайон " + num + ", Атырау"]
  }

  /** The answer to the first query whose answer lies in the box, if any. */
  function FirstInBox(search: Search, queries: seq<string>): (r: Option<Coord>)
    ensures r.Some? ==> IsInAtyrau(r.value) && exists i :: 0 <= i < |queries| && search(queries[i]) == r
    ensures r.None? ==> forall i :: 0 <= i < |queries| ==> search(queries[i]).None? || !IsInAtyrau(search(queries[i]).value)
  {
    if queries == [] then None
    else if search(queries[0]).Some? && IsInAtyrau(search(queries[0]).value) then search(queries[0])
    else
      var r := FirstInBox(search, queries[1..]);
      assert forall i :: 1 <= i < |queries| ==> queries[1..][i - 1] == queries[i];
      r
  }

  /** The variant loop: ask each query in turn and stop at the first answer
      inside the box. */
  method TryVariants(search: Search, queries: seq<string>) returns (result: Option<Coord>)
    ensures result == FirstInBox(search, queries)
  {
    result := None;
    var i := 0;
    while i < |queries|
      invariant 0 <= i <= |queries|
      invariant result.None? && FirstInBox(search, queries) == FirstInBox(search, queries[i..])
    {
      assert queries[i..][1..] == queries[i + 1..];
      result := search(queries[i]);
      if result.Some? && IsInAtyrau(result.value) {
        break;
      }
      result := None;
      i := i + 1;
    }
  }

  /** 2GIS first; Nominatim only when 2GIS found nothing inside the box. */
  function Lookup(dgis: Search, nominatim: Search, dgisQueries: seq<string>, nominatimQueries: seq<string>): (r: Option<Coord>)
    ensures r.Some? ==> IsInAtyrau(r.value)
    ensures FirstInBox(dgis, dgisQueries).Some? ==> r == FirstInBox(dgis, dgisQueries)
    ensures FirstInBox(dgis, dgisQueries).None? ==> r == FirstInBox(nominatim, nominatimQueries)
  {
    if FirstInBox(dgis, dgisQueries).Some? then FirstInBox(dgis, dgisQueries)
    else FirstInBox(nominatim, nominatimQueries)
  }

  function StreetLookup(dgis: Search, nominatim: Search, street: string): Option<Coord>
  {
    Lookup(dgis, nominatim, DgisQueries(street), NominatimQueries(street))
  }

  function MicroLookup(dgis: Search, nominatim: Search, num: string): Option<Coord>
  {
    Lookup(dgis, nominatim, DgisMicroQueries(num), NominatimMicroQueries(num))
  }

  /** The cache key of a microdistrict. */
  function MicroKey(num: string): string
  {
    "MICRO_" + num
  }

  /** One street of `geocodeAll`: 2GIS variants, then Nominatim variants. */
  method GeocodeOne(dgis: Search, nominatim: Search, dgisQueries: seq<string>, nominatimQueries: seq<string>)
    returns (result: Option<Coord>)
    ensures result == Lookup(dgis, nominatim, dgisQueries, nominatimQueries)
  {
    result := TryVariants(dgis, dgisQueries);
    if result.None? {
      result := TryVariants(nominatim, nominatimQueries);
    }
  }

  /** Every entry of `cache0` is still in `cache`, unchanged. */
  predicate KeepsCache(cache0: map<string, Coord>, cache: map<string, Coord>)
  {
    forall k :: k in cache0 ==> k in cache && cache[k] == cache0[k]
  }

  /** Every entry added to `cache0` lies inside the box and is the lookup
      answer of an item of `done` with that key. */
  predicate NewEntriesJustified(cache0: map<string, Coord>, cache: map<string, Coord>, done: seq<string>,
                                key: string -> string, dq: string -> seq<string>, nq: string -> seq<string>,
                                dgis: Search, nominatim: Search)
  {
    forall k :: k in cache && k !in cache0 ==>
      IsInAtyrau(cache[k]) &&
      exists x :: x in done && k == key(x) && Lookup(dgis, nominatim, dq(x), nq(x)) == Some(cache[k])
  }

  /** Every item of `done` not cached beforehand is now stored with its
      lookup answer, or absent when the lookup found nothing. */
  predicate ItemsSettled(cache0: map<string, Coord>, cache: map<string, Coord>, done: seq<string>,
                         key: string -> string, dq: string -> seq<string>, nq: string -> seq<string>,
                         dgis: Search, nominatim: Search)
  {
    forall x :: x in done && key(x) !in cache0 ==>
      match Lookup(dgis, nominatim, dq(x), nq(x))
      case Some(c) => key(x) in cache && cache[key(x)] == c
      case None => key(x) !in cache
  }

  /** An item whose key is already cached leaves both invariants in place. */
  lemma SkipCached(cache0: map<string, Coord>, cache: map<string, Coord>, done: seq<string>, item: string,
                   key: string -> string, dq: string -> seq<string>, nq: string -> seq<string>,
                   dgis: Search, nominatim: Search)
    requires forall x, y :: key(x) == key(y) ==> x == y
    requires NewEntriesJustified(cache0, cache, done, key, dq, nq, dgis, nominatim)
    requires ItemsSettled(cache0, cache, done, key, dq, nq, dgis, nominatim)
    requires key(item) in cache
    ensures NewEntriesJustified(cache0, cache, done + [item], key, dq, nq, dgis, nominatim)
    ensures ItemsSettled(cache0, cache, done + [item], key, dq, nq, dgis, nominatim)
  {
    if key(item) !in cache0 {
      // The entry was stored for an earlier item with the same key, which
      // is this very item.
      var x :| x in done && key(item) == key(x) && Lookup(dgis, nominatim, dq(x), nq(x)) == Some(cache[key(item)]);
      assert x == item;
    }
  }

  /** Storing the in-box answer of an uncached item keeps both invariants. */
  lemma StoreFound(cache0: map<string, Coord>, cache: map<string, Coord>, done: seq<string>, item: string,
                   key: string -> string, dq: string -> seq<string>, nq: string -> seq<string>,
                   dgis: Search, nominatim: Search)
    requires forall x, y :: key(x) == key(y) ==> x == y
    requires KeepsCache(cache0, cache)
    requires NewEntriesJustified(cache0, cache, done, key, dq, nq, dgis, nominatim)
    requires ItemsSettled(cache0, cache, done, key, dq, nq, dgis, nominatim)
    requires key(item) !in cache && Lookup(dgis, nominatim, dq(item), nq(item)).Some?
    ensures KeepsCache(cache0, cache[key(item) := Lookup(dgis, nominatim, dq(item), nq(item)).value])
    ensures NewEntriesJustified(cache0, cache[key(item) := Lookup(dgis, nominatim, dq(item), nq(item)).value],
                                done + [item], key, dq, nq, dgis, nominatim)
    ensures ItemsSettled(cache0, cache[key(item) := Lookup(dgis, nominatim, dq(item), nq(item)).value],
                         done + [item], key, dq, nq, dgis, nominatim)
  {
    var c := Lookup(dgis, nominatim, dq(item), nq(item)).value;
    var cache' := cache[key(item) := c];
    forall k | k in cache' && k !in cache0
      ensures IsInAtyrau(cache'[k]) &&
              exists x :: x in done + [item] && k == key(x) && Lookup(dgis, nominatim, dq(x), nq(x)) == Some(cache'[k])
    {
      if k == key(item) {
        assert item in done + [item];
      } else {
        var x :| x in done && k == key(x) && Lookup(dgis, nominatim, dq(x), nq(x)) == Some(cache[k]);
        assert x in done + [item];
      }
    }
    forall x | x in done + [item] && key(x) !in cache0
      ensures match Lookup(dgis, nominatim, dq(x), nq(x))
              case Some(c) => key(x) in cache' && cache'[key(x)] == c
              case None => key(x) !in cache'
    {
      if x != item {
        assert x in done && key(x) != key(item);
      }
    }
  }

  /** An uncached item whose lookup found nothing keeps both invariants. */
  lemma SkipMissing(cache0: map<string, Coord>, cache: map<string, Coord>, done: seq<string>, item: string,
                    key: string -> string, dq: string -> seq<string>, nq: string -> seq<string>,
                    dgis: Search, nominatim: Search)
    requires forall x, y :: key(x) == key(y) ==> x == y
    requires NewEntriesJustified(cache0, cache, done, key, dq, nq, dgis, nominatim)
    requires ItemsSettled(cache0, cache, done, key, dq, nq, dgis, nominatim)
    requires key(item) !in cache && Lookup(dgis, nominatim, dq(item), nq(item)).None?
    ensures NewEntriesJustified(cache0, cache, done + [item], key, dq, nq, dgis, nominatim)
    ensures ItemsSettled(cache0, cache, done + [item], key, dq, nq, dgis, nominatim)
  {
    forall k | k in cache && k !in cache0
      ensures exists x :: x in done + [item] && k == key(x) && Lookup(dgis, nominatim, dq(x), nq(x)) == Some(cache[k])
    {
      var x :| x in done && k == key(x) && Lookup(dgis, nominatim, dq(x), nq(x)) == Some(cache[k]);
      assert x in done + [item];
    }
  }

  /** A list with no name twice. */
  predicate NoRepeats(items: seq<string>)
  {
    forall i, j :: 0 <= i < j < |items| ==> items[i] != items[j]
  }

  /** How many items the loop counts as `fromCache`: those whose key was
      cached before it started. */
  function CachedCount(cache0: map<string, Coord>, items: seq<string>, key: string -> string): (n: nat)
    ensures n <= |items|
  {
    if items == [] then 0
    else CachedCount(cache0, items[..|items| - 1], key) + (if key(items[|items| - 1]) in cache0 then 1 else 0)
  }

  /** How many items the loop counts as `notFound`: uncached, and the
      lookup found nothing. */
  function MissingCount(cache0: map<string, Coord>, items: seq<string>, key: string -> string,
                        dq: string -> seq<string>, nq: string -> seq<string>, dgis: Search, nominatim: Search): (n: nat)
    ensures n <= |items|
  {
    if items == [] then 0
    else
      var x := items[|items| - 1];
      MissingCount(cache0, items[..|items| - 1], key, dq, nq, dgis, nominatim) +
      (if key(x) !in cache0 && Lookup(dgis, nominatim, dq(x), nq(x)).None? then 1 else 0)
  }

  /** The loop's counters after `i` items, when no item repeats. */
  predicate CountersAgree(cache0: map<string, Coord>, items: seq<string>, i: nat, key: string -> string,
                          dq: string -> seq<string>, nq: string -> seq<string>, dgis: Search, nominatim: Search,
                          fromCache: nat, notFound: nat)
    requires i <= |items|
  {
    NoRepeats(items) ==>
      fromCache == CachedCount(cache0, items[..i], key) &&
      notFound == MissingCount(cache0, items[..i], key, dq, nq, dgis, nominatim)
  }

  /** Item `i` adds one to exactly the counters it belongs to: with no
      repeats, its key is in the running cache just when it was cached
      before the loop. */
  lemma CountersStep(cache0: map<string, Coord>, cache: map<string, Coord>, items: seq<string>, i: nat,
                     key: string -> string, dq: string -> seq<string>, nq: string -> seq<string>,
                     dgis: Search, nominatim: Search, fromCache: nat, notFound: nat, c: nat, n: nat)
    requires i < |items|
    requires KeepsCache(cache0, cache)
    requires NoRepeats(items) && key(items[i]) in cache ==> key(items[i]) in cache0
    requires CountersAgree(cache0, items, i, key, dq, nq, dgis, nominatim, fromCache, notFound)
    requires c == (if key(items[i]) in cache then 1 else 0)
    requires n == (if key(items[i]) !in cache && Lookup(dgis, nominatim, dq(items[i]), nq(items[i])).None? then 1 else 0)
    ensures CountersAgree(cache0, items, i + 1, key, dq, nq, dgis, nominatim, fromCache + c, notFound + n)
  {
    assert items[..i + 1][..i] == items[..i];
  }

  /** With no repeats, a key the loop finds cached was cached before it
      started: an entry it added belongs to an earlier item, and only this
      item has this key. */
  lemma CachedBefore(cache0: map<string, Coord>, cache: map<string, Coord>, items: seq<string>, i: nat,
                     key: string -> string, dq: string -> seq<string>, nq: string -> seq<string>,
                     dgis: Search, nominatim: Search)
    requires i < |items|
    requires forall x, y :: key(x) == key(y) ==> x == y
    requires NewEntriesJustified(cache0, cache, items[..i], key, dq, nq, dgis, nominatim)
    ensures NoRepeats(items) && key(items[i]) in cache ==> key(items[i]) in cache0
  {
  }

  /** One loop of `geocodeAll` over `items`, each stored under `key(item)`:
      an item whose key is already cached is skipped; otherwise it is looked
      up with the queries `dq(item)` and then `nq(item)`, and the answer is
      stored only when it lies inside the box. Each item bumps exactly one
      of the three counters; when no item repeats, `fromCache` counts the
      items cached beforehand and `notFound` the uncached ones the lookup
      missed. */
  method GeocodeBatch(cache0: map<string, Coord>, items: seq<string>, key: string -> string,
                      dq: string -> seq<string>, nq: string -> seq<string>, dgis: Search, nominatim: Search)
    returns (cache: map<string, Coord>, found: nat, fromCache: nat, notFound: nat)
    requires forall x, y :: key(x) == key(y) ==> x == y
    ensures found + fromCache + notFound == |items|
    ensures |cache| == |cache0| + found
    ensures forall k :: k in cache0 ==> k in cache && cache[k] == cache0[k]
    ensures forall k :: k in cache && k !in cache0 ==>
              IsInAtyrau(cache[k]) &&
              exists x :: x in items && k == key(x) && Lookup(dgis, nominatim, dq(x), nq(x)) == Some(cache[k])
    ensures forall x :: x in items && key(x) !in cache0 && Lookup(dgis, nominatim, dq(x), nq(x)).Some? ==>
              key(x) in cache && cache[key(x)] == Lookup(dgis, nominatim, dq(x), nq(x)).value
    ensures forall x :: x in items && key(x) !in cache0 && Lookup(dgis, nominatim, dq(x), nq(x)).None? ==>
              key(x) !in cache
    ensures NoRepeats(items) ==> fromCache == CachedCount(cache0, items, key)
    ensures NoRepeats(items) ==> notFound == MissingCount(cache0, items, key, dq, nq, dgis, nominatim)
  {
    cache, found, fromCache, notFound := cache0, 0, 0, 0;
    var i := 0;
    while i < |items|
      invariant i <= |items|
      invariant BatchInv(cache0, cache, items, i, key, dq, nq, dgis, nominatim, found, fromCache, notFound)
    {
      cache, found, fromCache, notFound :=
        BatchStep(cache0, cache, items, i, key, dq, nq, dgis, nominatim, found, fromCache, notFound);
      i := i + 1;
    }
    BatchDone(cache0, cache, items, key, dq, nq, dgis, nominatim, found, fromCache, notFound);
  }

  /** The invariant of the loop of `GeocodeBatch` after `i` items. */
  predicate BatchInv(cache0: map<string, Coord>, cache: map<string, Coord>, items: seq<string>, i: nat,
                     key: string -> string, dq: string -> seq<string>, nq: string -> seq<string>,
                     dgis: Search, nominatim: Search, found: nat, fromCache: nat, notFound: nat)
    requires i <= |items|
  {
    && found + fromCache + notFound == i && |cache| == |cache0| + found
    && KeepsCache(cache0, cache)
    && NewEntriesJustified(cache0, cache, items[..i], key, dq, nq, dgis, nominatim)
    && ItemsSettled(cache0, cache, items[..i], key, dq, nq, dgis, nominatim)
    && CountersAgree(cache0, items, i, key, dq, nq, dgis, nominatim, fromCache, notFound)
  }

  /** One turn of the loop of `GeocodeBatch`: item `i` is handled and the
      invariant moves on to `i + 1`. */
  method BatchStep(cache0: map<string, Coord>, cache: map<string, Coord>, items: seq<string>, i: nat,
                   key: string -> string, dq: string -> seq<string>, nq: string -> seq<string>,
                   dgis: Search, nominatim: Search, found: nat, fromCache: nat, notFound: nat)
    returns (cache': map<string, Coord>, found': nat, fromCache': nat, notFound': nat)
    requires forall x, y :: key(x) == key(y) ==> x == y
    requires i < |items|
    requires BatchInv(cache0, cache, items, i, key, dq, nq, dgis, nominatim, found, fromCache, notFound)
    ensures BatchInv(cache0, cache', items, i + 1, key, dq, nq, dgis, nominatim, found', fromCache', notFound')
  {
    CachedBefore(cache0, cache, items, i, key, dq, nq, dgis, nominatim);
    assert items[..i + 1] == items[..i] + [items[i]];
    var f, c, n;
    cache', f, c, n := GeocodeItem(cache0, cache, items[..i], items[i], key, dq, nq, dgis, nominatim);
    CountersStep(cache0, cache, items, i, key, dq, nq, dgis, nominatim, fromCache, notFound, c, n);
    found', fromCache', notFound' := found + f, fromCache + c, notFound + n;
  }

  /** The invariant after the last item gives what `GeocodeBatch` promises. */
  lemma BatchDone(cache0: map<string, Coord>, cache: map<string, Coord>, items: seq<string>,
                  key: string -> string, dq: string -> seq<string>, nq: string -> seq<string>,
                  dgis: Search, nominatim: Search, found: nat, fromCache: nat, notFound: nat)
    requires BatchInv(cache0, cache, items, |items|, key, dq, nq, dgis, nominatim, found, fromCache, notFound)
    ensures found + fromCache + notFound == |items|
    ensures |cache| == |cache0| + found
    ensures forall k :: k in cache0 ==> k in cache && cache[k] == cache0[k]
    ensures forall k :: k in cache && k !in cache0 ==>
              IsInAtyrau(cache[k]) &&
              exists x :: x in items && k == key(x) && Lookup(dgis, nominatim, dq(x), nq(x)) == Some(cache[k])
    ensures forall x :: x in items && key(x) !in cache0 && Lookup(dgis, nominatim, dq(x), nq(x)).Some? ==>
              key(x) in cache && cache[key(x)] == Lookup(dgis, nominatim, dq(x), nq(x)).value
    ensures forall x :: x in items && key(x) !in cache0 && Lookup(dgis, nominatim, dq(x), nq(x)).None? ==>
              key(x) !in cache
    ensures NoRepeats(items) ==> fromCache == CachedCount(cache0, items, key)
    ensures NoRepeats(items) ==> notFound == MissingCount(cache0, items, key, dq, nq, dgis, nominatim)
  {
    assert items[..|items|] == items;
  }

  /** The body of the loop for one item: skip it when its key is cached,
      otherwise look it up and store an in-box answer. Exactly one of the
      three counters goes up, and the loop invariants carry over to
      `done + [item]`. */
  method GeocodeItem(cache0: map<string, Coord>, cache: map<string, Coord>, done: seq<string>, item: string,
                     key: string -> string, dq: string -> seq<string>, nq: string -> seq<string>,
                     dgis: Search, nominatim: Search)
    returns (cache': map<string, Coord>, found: nat, fromCache: nat, notFound: nat)
    requires forall x, y :: key(x) == key(y) ==> x == y
    requires KeepsCache(cache0, cache)
    requires NewEntriesJustified(cache0, cache, done, key, dq, nq, dgis, nominatim)
    requires ItemsSettled(cache0, cache, done, key, dq, nq, dgis, nominatim)
    ensures fromCache == (if key(item) in cache then 1 else 0)
    ensures found == (if key(item) !in cache && Lookup(dgis, nominatim, dq(item), nq(item)).Some? then 1 else 0)
    ensures notFound == (if key(item) !in cache && Lookup(dgis, nominatim, dq(item), nq(item)).None? then 1 else 0)
    ensures |cache'| == |cache| + found
    ensures KeepsCache(cache0, cache')
    ensures NewEntriesJustified(cache0, cache', done + [item], key, dq, nq, dgis, nominatim)
    ensures ItemsSettled(cache0, cache', done + [item], key, dq, nq, dgis, nominatim)
  {
    cache', found, fromCache, notFound := cache, 0, 0, 0;
    var k := key(item);
    if k in cache {
      SkipCached(cache0, cache, done, item, key, dq, nq, dgis, nominatim);
      fromCache := 1;
    } else {
      var result := GeocodeOne(dgis, nominatim, dq(item), nq(item));
      if result.Some? && IsInAtyrau(result.value) {
        StoreFound(cache0, cache, done, item, key, dq, nq, dgis, nominatim);
        cache' := cache[k := result.value];
        found := 1;
      } else {
        SkipMissing(cache0, cache, done, item, key, dq, nq, dgis, nominatim);
        notFound := 1;
      }
    }
  }

  function Same(s: string): string
  {
    s
  }

  lemma MicroKeyInjective()
    ensures forall x, y :: MicroKey(x) == MicroKey(y) ==> x == y
  {
    forall x, y | MicroKey(x) == MicroKey(y) ensures x == y {
      assert MicroKey(x)[6..] == x && MicroKey(y)[6..] == y;
    }
  }

  /** `geocodeAll`: the named streets, each cached under its own name, then
      the microdistricts, each cached under its `MICRO_` key. A cached entry
      is never replaced, and every new entry lies inside the box and is the
      answer of the lookup it is stored for. */
  method GeocodeAll(cache0: map<string, Coord>, named: seq<string>, micro: seq<string>, dgis: Search, nominatim: Search)
    returns (cache: map<string, Coord>, found: nat, fromCache: nat, notFound: nat)
    ensures found + fromCache + notFound == |named| + |micro|
    ensures |cache| == |cache0| + found
    ensures forall k :: k in cache0 ==> k in cache && cache[k] == cache0[k]
    ensures forall k :: k in cache && k !in cache0 ==>
              IsInAtyrau(cache[k]) &&
              ((k in named && StreetLookup(dgis, nominatim, k) == Some(cache[k])) ||
               exists n :: n in micro && k == MicroKey(n) && MicroLookup(dgis, nominatim, n) == Some(cache[k]))
    ensures forall s :: s in named && s !in cache0 && StreetLookup(dgis, nominatim, s).Some? ==>
              s in cache && cache[s] == StreetLookup(dgis, nominatim, s).value
    ensures forall s :: (s in named && s !in cache0 && StreetLookup(dgis, nominatim, s).None? &&
              forall n :: n in micro ==> s != MicroKey(n)) ==> s !in cache
    ensures forall n :: n in micro && MicroKey(n) !in cache0 && MicroKey(n) !in named && MicroLookup(dgis, nominatim, n).Some? ==>
              MicroKey(n) in cache && cache[MicroKey(n)] == MicroLookup(dgis, nominatim, n).value
    ensures forall n :: n in micro && MicroKey(n) !in cache0 && MicroKey(n) !in named && MicroLookup(dgis, nominatim, n).None? ==>
              MicroKey(n) !in cache
    ensures NoRepeats(named) && NoRepeats(micro) && (forall n :: n in micro ==> MicroKey(n) !in named) ==>
              fromCache == CachedCount(cache0, named, Same) + CachedCount(cache0, micro, MicroKey)
    ensures NoRepeats(named) && NoRepeats(micro) && (forall n :: n in micro ==> MicroKey(n) !in named) ==>
              notFound == MissingCount(cache0, named, Same, DgisQueries, NominatimQueries, dgis, nominatim) +
                          MissingCount(cache0, micro, MicroKey, DgisMicroQueries, NominatimMicroQueries, dgis, nominatim)
  {
    var f1, c1, n1, f2, c2, n2;
    var afterNamed;
    afterNamed, f1, c1, n1 := GeocodeBatch(cache0, named, Same, DgisQueries, NominatimQueries, dgis, nominatim);
    MicroKeyInjective();
    cache, f2, c2, n2 := GeocodeBatch(afterNamed, micro, MicroKey, DgisMicroQueries, NominatimMicroQueries, dgis, nominatim);
    found, fromCache, notFound := f1 + f2, c1 + c2, n1 + n2;
    AllCounters(cache0, afterNamed, named, micro, dgis, nominatim, c1, n1, c2, n2);
  }

  /** The counters of the two batches add up to the counts over the
      street names and the microdistricts, taken against the cache as it
      was before either batch: the first batch adds only keys that are
      street names, which no microdistrict key is. */
  lemma AllCounters(cache0: map<string, Coord>, afterNamed: map<string, Coord>, named: seq<string>, micro: seq<string>,
                    dgis: Search, nominatim: Search, c1: nat, n1: nat, c2: nat, n2: nat)
    requires forall k :: k in cache0 ==> k in afterNamed
    requires forall k :: k in afterNamed && k !in cache0 ==> exists x :: x in named && k == Same(x)
    requires NoRepeats(named) ==> c1 == CachedCount(cache0, named, Same)
    requires NoRepeats(named) ==> n1 == MissingCount(cache0, named, Same, DgisQueries, NominatimQueries, dgis, nominatim)
    requires NoRepeats(micro) ==> c2 == CachedCount(afterNamed, micro, MicroKey)
    requires NoRepeats(micro) ==> n2 == MissingCount(afterNamed, micro, MicroKey, DgisMicroQueries, NominatimMicroQueries, dgis, nominatim)
    ensures NoRepeats(named) && NoRepeats(micro) && (forall n :: n in micro ==> MicroKey(n) !in named) ==>
              c1 + c2 == CachedCount(cache0, named, Same) + CachedCount(cache0, micro, MicroKey)
    ensures NoRepeats(named) && NoRepeats(micro) && (forall n :: n in micro ==> MicroKey(n) !in named) ==>
              n1 + n2 == MissingCount(cache0, named, Same, DgisQueries, NominatimQueries, dgis, nominatim) +
                         MissingCount(cache0, micro, MicroKey, DgisMicroQueries, NominatimMicroQueries, dgis, nominatim)
  {
    if forall n :: n in micro ==> MicroKey(n) !in named {
      CountsAgreeOn(afterNamed, cache0, micro, MicroKey, DgisMicroQueries, NominatimMicroQueries, dgis, nominatim);
    }
  }

  /** The counts only look at which keys are cached: two caches that agree
      on the keys of `items` give the same counts. */
  lemma {:induction false} CountsAgreeOn(c1: map<string, Coord>, c2: map<string, Coord>, items: seq<string>,
                                         key: string -> string, dq: string -> seq<string>, nq: string -> seq<string>,
                                         dgis: Search, nominatim: Search)
    requires forall x :: x in items ==> (key(x) in c1 <==> key(x) in c2)
    ensures CachedCount(c1, items, key) == CachedCount(c2, items, key)
    ensures MissingCount(c1, items, key, dq, nq, dgis, nominatim) == MissingCount(c2, items, key, dq, nq, dgis, nominatim)
  {
    if items != [] {
      assert items[|items| - 1] in items;
      CountsAgreeOn(c1, c2, items[..|items| - 1], key, dq, nq, dgis, nominatim);
    }
  }

  // ------------------------------------------------------ table emission

  /** One emitted table entry: a name and its coordinates. */
  datatype TableEntry = TableEntry(name: string, coord: Coord)

  /** The alias pairs `[main, alias]` of `updateGenerator`. */
  const ALIASES: seq<(string, string)> := [
    ("АБАЙ", "АБАЙ ҚҰНАНБАЕВ"),
    ("АЗАТТЫҚ", "АЗАТТЫК"),
    ("АВАНГАРД-2", "АВАНГАРД -2"),
    ("АТЫРАУ-ДОССОР", "АТЫРАУ ДОССОР"),
    ("ӨРКЕН", "ОРКЕН"),
    ("БЕЙБАРЫС", "С.БЕЙБАРЫС"),
    ("АЛМАГҮЛ", "АЛМАГҮЛ МӨЛТЕК АУДАНЫ"),
    ("ІБАТОЛЛА ШЕКЕНОВ", "ИБАТОЛЛА ШЕКЕНОВ")
  ]

  /** The entry of every named street that has coordinates, in order. */
  function NamedEntries(named: seq<string>, coords: map<string, Coord>): seq<TableEntry>
  {
    if named == [] then []
    else
      var s := named[|named| - 1];
      NamedEntries(named[..|named| - 1], coords) + (if s in coords then [TableEntry(s, coords[s])] else [])
  }

  /** An alias entry for every pair whose main name has coordinates and
      whose alias has none, with the main name's coordinates. */
  function AliasEntries(aliases: seq<(string, string)>, coords: map<string, Coord>): seq<TableEntry>
  {
    if aliases == [] then []
    else
      var p := aliases[|aliases| - 1];
      AliasEntries(aliases[..|aliases| - 1], coords)
        + (if p.0 in coords && p.1 !in coords then [TableEntry(p.1, coords[p.0])] else [])
  }

  /** `parseInt` of a microdistrict number: the decimal value of its
      leading digits. */
  function ParseInt(s: string): int
  {
    DecimalValue(s[..DigitRunLength(s)])
  }

  function DecimalValue(digits: string): nat
  {
    if digits == [] then 0
    else DecimalValue(digits[..|digits| - 1]) * 10 + ((digits[|digits| - 1] as int - '0' as int) % 10)
  }

  /** `[...new Set(nums)]`: the distinct values of `nums` in first-seen order. */
  function Dedup(nums: seq<string>): (r: seq<string>)
    ensures Tally.Distinct(r)
    ensures forall x :: x in r <==> x in nums
  {
    if nums == [] then []
    else
      var front := Dedup(nums[..|nums| - 1]);
      var last := nums[|nums| - 1];
      assert nums == nums[..|nums| - 1] + [last];
      if last in front then front else front + [last]
  }

  /** The entry of every number, in order, whose `MICRO_` key has coordinates. */
  function MicroEntries(nums: seq<string>, coords: map<string, Coord>): seq<TableEntry>
  {
    if nums == [] then []
    else
      var n := nums[|nums| - 1];
      MicroEntries(nums[..|nums| - 1], coords)
        + (if MicroKey(n) in coords then [TableEntry(n, coords[MicroKey(n)])] else [])
  }

  /** The numbers in the order the new table lists them. */
  function MicroOrder(micro: seq<string>): seq<string>
  {
    Sorting.SortBy(Dedup(micro), ParseInt)
  }

  /** The entry-building part of `updateGenerator`: the named streets with
      coordinates, then the aliases, then the microdistricts deduplicated and
      in ascending numeric order. */
  method UpdateGenerator(named: seq<string>, micro: seq<string>, coords: map<string, Coord>)
    returns (streetEntries: seq<TableEntry>, microEntries: seq<TableEntry>)
    ensures streetEntries == NamedEntries(named, coords) + AliasEntries(ALIASES, coords)
    ensures microEntries == MicroEntries(MicroOrder(micro), coords)
  {
    streetEntries := [];
    var i := 0;
    while i < |named|
      invariant 0 <= i <= |named|
      invariant streetEntries == NamedEntries(named[..i], coords)
    {
      assert named[..i + 1][..i] == named[..i] && named[..i + 1][i] == named[i];
      if named[i] in coords {
        streetEntries := streetEntries + [TableEntry(named[i], coords[named[i]])];
      }
      i := i + 1;
    }
    assert named[..i] == named;

    var aliasEntries := [];
    var a := 0;
    while a < |ALIASES|
      invariant 0 <= a <= |ALIASES|
      invariant aliasEntries == AliasEntries(ALIASES[..a], coords)
    {
      var (main, alias) := ALIASES[a];
      assert ALIASES[..a + 1][..a] == ALIASES[..a] && ALIASES[..a + 1][a] == (main, alias);
      if main in coords && alias !in coords {
        aliasEntries := aliasEntries + [TableEntry(alias, coords[main])];
      }
      a := a + 1;
    }
    assert ALIASES[..a] == ALIASES;
    streetEntries := streetEntries + aliasEntries;

    var nums := MicroOrder(micro);
    microEntries := [];
    var k := 0;
    while k < |nums|
      invariant 0 <= k <= |nums|
      invariant microEntries == MicroEntries(nums[..k], coords)
    {
      assert nums[..k + 1][..k] == nums[..k] && nums[..k + 1][k] == nums[k];
      if MicroKey(nums[k]) in coords {
        microEntries := microEntries + [TableEntry(nums[k], coords[MicroKey(nums[k])])];
      }
      k := k + 1;
    }
    assert nums[..k] == nums;
  }

  /** A named entry is exactly a named street with coordinates, carrying them. */
  lemma {:induction false} NamedEntriesFacts(named: seq<string>, coords: map<string, Coord>)
    ensures forall e :: e in NamedEntries(named, coords) <==>
              e.name in named && e.name in coords && e.coord == coords[e.name]
  {
    if named != [] {
      NamedEntriesFacts(named[..|named| - 1], coords);
      assert named == named[..|named| - 1] + [named[|named| - 1]];
    }
  }

  /** An alias entry exists exactly for a pair whose main name has
      coordinates and whose alias has none, and it copies the main name's
      coordinates. */
  lemma {:induction false} AliasEntriesFacts(aliases: seq<(string, string)>, coords: map<string, Coord>)
    ensures forall e :: e in AliasEntries(aliases, coords) <==>
              exists p :: p in aliases && p.0 in coords && p.1 !in coords && e == TableEntry(p.1, coords[p.0])
  {
    if aliases != [] {
      AliasEntriesFacts(aliases[..|aliases| - 1], coords);
      assert aliases == aliases[..|aliases| - 1] + [aliases[|aliases| - 1]];
    }
  }

  /** The emitted street table names no street twice when the named streets
      are distinct: named entries have coordinates, alias entries do not. */
  lemma StreetEntriesDistinct(named: seq<string>, coords: map<string, Coord>)
    requires Tally.Distinct(named)
    ensures DistinctNames(NamedEntries(named, coords) + AliasEntries(ALIASES, coords))
  {
    NamedEntriesDistinct(named, coords);
    AliasNamesDistinct();
    AliasEntriesDistinct(ALIASES, coords);
    NamedEntriesFacts(named, coords);
    AliasEntriesFacts(ALIASES, coords);
    var ns := NamedEntries(named, coords);
    var as_ := AliasEntries(ALIASES, coords);
    var es := ns + as_;
    forall i, j | 0 <= i < j < |es| ensures es[i].name != es[j].name {
      if j >= |ns| && i < |ns| {
        assert es[i] in ns && es[j] in as_;
      } else if i >= |ns| {
        assert es[i] == as_[i - |ns|] && es[j] == as_[j - |ns|];
      }
    }
  }

  /** No name appears in two entries. */
  predicate DistinctNames(es: seq<TableEntry>)
  {
    forall i, j :: 0 <= i < j < |es| ==> es[i].name != es[j].name
  }

  /** The entries' numbers never decrease. */
  predicate AscendingNames(es: seq<TableEntry>)
  {
    forall i, j :: 0 <= i < j < |es| ==> ParseInt(es[i].name) <= ParseInt(es[j].name)
  }

  /** No alias is listed twice. */
  lemma AliasNamesDistinct()
    ensures forall i, j :: 0 <= i < j < |ALIASES| ==> ALIASES[i].1 != ALIASES[j].1
  {
  }

  lemma {:induction false} NamedEntriesDistinct(named: seq<string>, coords: map<string, Coord>)
    requires Tally.Distinct(named)
    ensures DistinctNames(NamedEntries(named, coords))
  {
    if named != [] {
      var front := named[..|named| - 1];
      var s := named[|named| - 1];
      assert forall i :: 0 <= i < |front| ==> front[i] == named[i];
      NamedEntriesDistinct(front, coords);
      NamedEntriesFacts(front, coords);
      assert s !in front;
      var es := NamedEntries(front, coords);
      if s in coords {
        var all := es + [TableEntry(s, coords[s])];
        forall i, j | 0 <= i < j < |all| ensures all[i].name != all[j].name {
          if j == |es| {
            assert all[i] in es;
            assert all[i].name in front;
            assert all[j].name == s;
          } else {
            assert all[i] == es[i] && all[j] == es[j];
            assert es[i].name != es[j].name;
          }
        }
        assert NamedEntries(named, coords) == all;
      }
    }
  }

  lemma {:induction false} AliasEntriesDistinct(aliases: seq<(string, string)>, coords: map<string, Coord>)
    requires forall i, j :: 0 <= i < j < |aliases| ==> aliases[i].1 != aliases[j].1
    ensures DistinctNames(AliasEntries(aliases, coords))
  {
    if aliases != [] {
      var front := aliases[..|aliases| - 1];
      var p := aliases[|aliases| - 1];
      assert forall i :: 0 <= i < |front| ==> front[i] == aliases[i];
      AliasEntriesDistinct(front, coords);
      AliasEntriesFacts(front, coords);
      var es := AliasEntries(front, coords);
      if p.0 in coords && p.1 !in coords {
        var all := es + [TableEntry(p.1, coords[p.0])];
        forall i, j | 0 <= i < j < |all| ensures all[i].name != all[j].name {
          if j == |es| {
            assert all[i] in es;
            var q :| q in front && q.0 in coords && q.1 !in coords && all[i] == TableEntry(q.1, coords[q.0]);
            var k :| 0 <= k < |front| && front[k] == q;
            assert aliases[k] == q;
          } else {
            assert all[i] == es[i] && all[j] == es[j];
          }
        }
      }
    }
  }

  /** The emitted microdistrict table lists each number with coordinates
      exactly once, carrying the coordinates of its `MICRO_` key, in
      ascending numeric order. */
  lemma MicroEntriesFacts(micro: seq<string>, coords: map<string, Coord>)
    ensures var es := MicroEntries(MicroOrder(micro), coords);
      && (forall e :: e in es <==> e.name in micro && MicroKey(e.name) in coords && e.coord == coords[MicroKey(e.name)])
      && DistinctNames(es)
      && AscendingNames(es)
  {
    var order := MicroOrder(micro);
    Sorting.SortByCorrect(Dedup(micro), ParseInt);
    Sorting.SortByDistinct(Dedup(micro), ParseInt);
    forall x ensures x in order <==> x in micro {
      assert x in order <==> x in multiset(order);
    }
    MicroEntriesMembers(order, coords);
    MicroEntriesDistinct(order, coords);
    MicroEntriesOrdered(order, coords);
  }

  /** An entry of `MicroEntries` is exactly a listed number whose key has
      coordinates, carrying them. */
  lemma {:induction false} MicroEntriesMembers(nums: seq<string>, coords: map<string, Coord>)
    ensures forall e :: e in MicroEntries(nums, coords) <==>
              e.name in nums && MicroKey(e.name) in coords && e.coord == coords[MicroKey(e.name)]
  {
    if nums != [] {
      MicroEntriesMembers(nums[..|nums| - 1], coords);
      assert nums == nums[..|nums| - 1] + [nums[|nums| - 1]];
    }
  }

  /** `MicroEntries` keeps distinct numbers distinct. */
  lemma {:induction false} MicroEntriesDistinct(nums: seq<string>, coords: map<string, Coord>)
    requires Tally.Distinct(nums)
    ensures DistinctNames(MicroEntries(nums, coords))
  {
    if nums != [] {
      var front := nums[..|nums| - 1];
      var n := nums[|nums| - 1];
      assert forall i :: 0 <= i < |front| ==> front[i] == nums[i];
      MicroEntriesDistinct(front, coords);
      MicroEntriesMembers(front, coords);
      assert n !in front;
      var es := MicroEntries(front, coords);
      if MicroKey(n) in coords {
        var all := es + [TableEntry(n, coords[MicroKey(n)])];
        forall i, j | 0 <= i < j < |all| ensures all[i].name != all[j].name {
          if j == |es| {
            assert all[i] in es;
          } else {
            assert all[i] == es[i] && all[j] == es[j];
          }
        }
        assert MicroEntries(nums, coords) == all;
      }
    }
  }

  /** `MicroEntries` keeps an ascending number list ascending. */
  lemma {:induction false} MicroEntriesOrdered(nums: seq<string>, coords: map<string, Coord>)
    requires Sorting.SortedBy(nums, ParseInt)
    ensures AscendingNames(MicroEntries(nums, coords))
  {
    if nums != [] {
      var front := nums[..|nums| - 1];
      var n := nums[|nums| - 1];
      assert forall i :: 0 <= i < |front| ==> front[i] == nums[i];
      MicroEntriesOrdered(front, coords);
      MicroEntriesMembers(front, coords);
      var es := MicroEntries(front, coords);
      if MicroKey(n) in coords {
        var all := es + [TableEntry(n, coords[MicroKey(n)])];
        forall i, j | 0 <= i < j < |all| ensures ParseInt(all[i].name) <= ParseInt(all[j].name) {
          if j == |es| {
            assert all[i] in es;
            var k :| 0 <= k < |front| && front[k] == all[i].name;
            assert nums[k] == all[i].name;
          } else {
            assert all[i] == es[i] && all[j] == es[j];
          }
        }
        assert MicroEntries(nums, coords) == all;
      }
    }
  }
}
