/**
 * The storage layer of js/data.js: the in-memory collection `mapPoints`, the
 * choice between the cloud backend and `localStorage`, the listener registry,
 * and the operations `savePoint`, `deletePoint` and `getNextId`.
 *
 * `localStorage` and JSON are abstract: a stored value is either a
 * serialised point list or text that does not parse. The cloud SDK is a
 * foreign library: what the store hands it is recorded in `outbox`.
 */
module Store {

  import opened Wrappers
  import opened Points
  import opened Defaults
  import Text

  // ------------------------------------------------------ persisted blobs

  /** What `localStorage.getItem(STORAGE_KEY)` can hold: a JSON text of a
      point list, or text that `JSON.parse` rejects (including ""). */
  datatype Blob = Json(points: seq<Point>) | Unparseable(text: string)

  /** `JSON.stringify(mapPoints)`. */
  function Stringify(ps: seq<Point>): Blob
  {
    Json(ps)
  }

  /** `JSON.parse(saved)`, with a parse error as `None`. */
  function Parse(b: Blob): Option<seq<Point>>
  {
    match b
    case Json(ps) => Some(ps)
    case Unparseable(_) => None
  }

  /** A stringified collection parses back to itself. */
  lemma ParseStringify(ps: seq<Point>)
    ensures Parse(Stringify(ps)) == Some(ps)
  {
  }

  /** `_loadLocal`: the stored collection when there is one and it parses,
      otherwise a copy of `DEFAULT_POINTS`. A corrupt value is never fatal. */
  function LoadLocal(saved: Option<Blob>): (r: seq<Point>)
    ensures saved.Some? && Parse(saved.value).Some? ==> r == Parse(saved.value).value
    ensures saved.None? || Parse(saved.value).None? ==> r == DEFAULT_POINTS
  {
    if saved.Some? then
      match Parse(saved.value)
      case Some(ps) => ps
      case None => DEFAULT_POINTS
    else DEFAULT_POINTS
  }

  /** What a local save persists is exactly what the next start loads. */
  lemma LoadAfterSave(ps: seq<Point>)
    ensures LoadLocal(Some(Stringify(ps))) == ps
  {
    ParseStringify(ps);
  }

  /** Whatever is stored, loading yields either exactly the stored
      collection (stringifying it gives the stored value back) or the
      default points; a missing or corrupt value always yields the
      defaults. */
  lemma LoadLocalSource(saved: Option<Blob>)
    ensures var r := LoadLocal(saved); saved == Some(Stringify(r)) || r == DEFAULT_POINTS
    ensures saved.None? || saved.value.Unparseable? ==> LoadLocal(saved) == DEFAULT_POINTS
  {
  }

  // ----------------------------------------------------- backend choice

  /** `FIREBASE_CONFIG` of js/firebase-config.js. */
  datatype FirebaseConfig = FirebaseConfig(
    apiKey: string, authDomain: string, databaseURL: string, projectId: string,
    storageBucket: string, messagingSenderId: string, appId: string)

  /** The configuration as shipped: every field is empty. */
  const SHIPPED_CONFIG := FirebaseConfig("", "", "", "", "", "", "")

  /** The start-up guard: the cloud backend is used only when a
      configuration is defined, its `apiKey` and `databaseURL` are non-empty,
      and initialising the SDK does not throw. */
  function UseCloud(config: Option<FirebaseConfig>, initSucceeds: bool): (r: bool)
  {
    config.Some? && config.value.apiKey != "" && config.value.databaseURL != "" && initSucceeds
  }

  /** Without an API key or a database URL the local backend is used,
      however initialisation would have gone. */
  lemma NoCredentialsMeansLocal(config: FirebaseConfig, initSucceeds: bool)
    requires config.apiKey == "" || config.databaseURL == ""
    ensures !UseCloud(Some(config), initSucceeds)
    ensures !UseCloud(None, initSucceeds)
  {
  }

  /** The shipped configuration selects the local backend. */
  lemma ShippedConfigIsLocal(initSucceeds: bool)
    ensures !UseCloud(Some(SHIPPED_CONFIG), initSucceeds)
  {
    NoCredentialsMeansLocal(SHIPPED_CONFIG, initSucceeds);
  }

  /** `_seedFirebase`: the batch `{id: point}` written to an empty database;
      a later point with the same id overwrites an earlier one. */
  function SeedBatch(ps: seq<Point>): (batch: map<int, Point>)
    ensures batch.Keys == set i | 0 <= i < |ps| :: ps[i].id
  {
    if ps == [] then map[]
    else
      var front := ps[..|ps| - 1];
      var last := ps[|ps| - 1];
      assert forall i :: 0 <= i < |front| ==> front[i] == ps[i];
      SeedBatch(front)[last.id := last]
  }

  /** With distinct ids the seed batch files every point under its own id. */
  lemma {:induction false} SeedBatchFilesEach(ps: seq<Point>)
    requires UniqueIds(ps)
    ensures forall i :: 0 <= i < |ps| ==> SeedBatch(ps)[ps[i].id] == ps[i]
  {
    if ps != [] {
      var front := ps[..|ps| - 1];
      SeedBatchFilesEach(front);
      forall i | 0 <= i < |ps| ensures SeedBatch(ps)[ps[i].id] == ps[i] {
        if i < |ps| - 1 {
          assert front[i] == ps[i];
        }
      }
    }
  }

  // ------------------------------------------------ collection operations

  /** `mapPoints.findIndex(p => p.id === id)`: the first index holding `id`,
      or -1 when no point has it. */
  function IndexOfId(ps: seq<Point>, id: int): (i: int)
    ensures -1 <= i < |ps|
    ensures i == -1 <==> !HasId(ps, id)
    ensures i >= 0 ==> ps[i].id == id && forall k :: 0 <= k < i ==> ps[k].id != id
  {
    if ps == [] then -1
    else if ps[0].id == id then 0
    else
      var j := IndexOfId(ps[1..], id);
      if j == -1 then
        assert forall k :: 0 < k < |ps| ==> ps[k] == ps[1..][k - 1];
        -1
      else
        assert forall k :: 0 < k <= j ==> ps[k] == ps[1..][k - 1];
        j + 1
  }

  /** The local branch of `savePoint`: replace the first point with the same
      id in place, or append the point when its id is new. */
  function Upsert(ps: seq<Point>, p: Point): seq<Point>
  {
    var i := IndexOfId(ps, p.id);
    if i != -1 then ps[i := p] else ps + [p]
  }

  /** Saving under an existing id replaces that entry at the same index:
      the length and every other entry stay as they were. */
  lemma UpsertExisting(ps: seq<Point>, p: Point)
    requires HasId(ps, p.id)
    ensures var i := IndexOfId(ps, p.id);
      && |Upsert(ps, p)| == |ps|
      && Upsert(ps, p)[i] == p
      && forall k :: 0 <= k < |ps| && k != i ==> Upsert(ps, p)[k] == ps[k]
  {
  }

  /** Saving under a new id appends the point at the end. */
  lemma UpsertNew(ps: seq<Point>, p: Point)
    requires !HasId(ps, p.id)
    ensures Upsert(ps, p) == ps + [p]
    ensures |Upsert(ps, p)| == |ps| + 1
  {
  }

  /** Saving keeps ids unique, and the saved point is the one holding its id. */
  lemma UpsertKeepsUnique(ps: seq<Point>, p: Point)
    requires UniqueIds(ps)
    ensures UniqueIds(Upsert(ps, p))
    ensures forall k :: 0 <= k < |Upsert(ps, p)| && Upsert(ps, p)[k].id == p.id ==> Upsert(ps, p)[k] == p
  {
    var r := Upsert(ps, p);
    var i := IndexOfId(ps, p.id);
    if i == -1 {
      assert forall k :: 0 <= k < |ps| ==> r[k] == ps[k];
    }
  }

  /** The local branch of `deletePoint`: `mapPoints.filter(p => p.id !== id)`. */
  function RemoveId(ps: seq<Point>, id: int): seq<Point>
  {
    Text.Filter(ps, (q: Point) => q.id != id)
  }

  /** After a delete no point has the id; every other point is still there. */
  lemma RemoveIdMembers(ps: seq<Point>, id: int)
    ensures !HasId(RemoveId(ps, id), id)
    ensures forall q :: q in RemoveId(ps, id) <==> q in ps && q.id != id
  {
    var r := RemoveId(ps, id);
    Text.FilterMembers(ps, (q: Point) => q.id != id);
    forall i | 0 <= i < |r| ensures r[i].id != id {
      assert r[i] in r;
    }
  }

  /** Deleting an id nobody has changes nothing. */
  lemma {:induction false} RemoveAbsentId(ps: seq<Point>, id: int)
    requires !HasId(ps, id)
    ensures RemoveId(ps, id) == ps
  {
    if ps != [] {
      forall i | 0 <= i < |ps[1..]| ensures ps[1..][i].id != id {
        assert ps[1..][i] == ps[i + 1];
      }
      RemoveAbsentId(ps[1..], id);
      assert ps == [ps[0]] + ps[1..];
    }
  }

  /** Deleting keeps the relative order of the remaining points: it
      distributes over concatenation. */
  lemma RemoveIdAppend(a: seq<Point>, b: seq<Point>, id: int)
    ensures RemoveId(a + b, id) == RemoveId(a, id) + RemoveId(b, id)
  {
    Text.FilterAppend(a, b, (q: Point) => q.id != id);
  }

  /** The largest id of `ps`, or 0 when there is none bigger. */
  function MaxId(ps: seq<Point>): (m: int)
    ensures m >= 0
    ensures forall k :: 0 <= k < |ps| ==> ps[k].id <= m
    ensures m == 0 || HasId(ps, m)
  {
    if ps == [] then 0
    else
      var m := MaxId(ps[..|ps| - 1]);
      assert forall k :: 0 <= k < |ps| - 1 ==> ps[..|ps| - 1][k] == ps[k];
      if ps[|ps| - 1].id > m then ps[|ps| - 1].id else m
  }

  /** A point whose id exceeds every id in the collection keeps ids unique
      when saved and is appended. */
  lemma FreshIdAppends(ps: seq<Point>, p: Point)
    requires UniqueIds(ps)
    requires p.id > MaxId(ps)
    ensures Upsert(ps, p) == ps + [p]
    ensures UniqueIds(Upsert(ps, p))
  {
    UpsertKeepsUnique(ps, p);
  }

  // ------------------------------------------------------------ the store

  /** A listener function, by identity. */
  type Listener = nat

  /** A request handed to the cloud SDK: `ref.child(id).set(point)` or
      `ref.child(id).remove()`. */
  datatype CloudWrite = SetPoint(id: int, point: Point) | RemovePoint(id: int)

  class PointStore {
    /** `useFirebase`, decided once at start-up. */
    const useCloud: bool
    /** `mapPoints`. */
    var points: seq<Point>
    /** `localStorage["atyrau-map-points"]`. */
    var stored: Option<Blob>
    /** `_dataListeners`, in registration order. */
    var listeners: seq<Listener>
    /** Every listener call made so far, in order. */
    var fired: seq<Listener>
    /** Requests given to the cloud backend. */
    var outbox: seq<CloudWrite>

    /** Start-up: pick the backend; the local one loads the stored collection
        (or the defaults). The cloud backend's collection arrives later from
        its subscription, which is not part of this model. */
    constructor (config: Option<FirebaseConfig>, initSucceeds: bool, saved: Option<Blob>)
      ensures useCloud == UseCloud(config, initSucceeds)
      ensures points == if useCloud then [] else LoadLocal(saved)
      ensures stored == saved && listeners == [] && fired == [] && outbox == []
    {
      useCloud := UseCloud(config, initSucceeds);
      points := if UseCloud(config, initSucceeds) then [] else LoadLocal(saved);
      stored := saved;
      listeners := [];
      fired := [];
      outbox := [];
    }

    /** `onDataChanged(fn)`: register a listener after the existing ones. */
    method OnDataChanged(fn: Listener)
      modifies this`listeners
      ensures listeners == old(listeners) + [fn]
    {
      listeners := listeners + [fn];
    }

    /** `_notifyListeners`: call every registered listener once, in
        registration order. */
    method NotifyListeners()
      modifies this`fired
      ensures fired == old(fired) + listeners
    {
      var i := 0;
      while i < |listeners|
        invariant 0 <= i <= |listeners|
        invariant fired == old(fired) + listeners[..i]
      {
        fired := fired + [listeners[i]];
        i := i + 1;
      }
      assert listeners[..i] == listeners;
    }

    /** `savePoint(point)`. Locally: upsert by id, persist the whole
        collection, notify. On the cloud backend: hand the write to the SDK
        and leave `mapPoints` to the subscription. */
    method SavePoint(point: Point)
      modifies this`points, this`stored, this`fired, this`outbox
      ensures !useCloud ==> && points == Upsert(old(points), point)
                            && stored == Some(Stringify(points))
                            && fired == old(fired) + listeners
                            && outbox == old(outbox)
      ensures useCloud ==> && points == old(points) && stored == old(stored)
                           && fired == old(fired)
                           && outbox == old(outbox) + [SetPoint(point.id, point)]
    {
      if useCloud {
        outbox := outbox + [SetPoint(point.id, point)];
      } else {
        var idx := IndexOfId(points, point.id);
        if idx != -1 {
          points := points[idx := point];
        } else {
          points := points + [point];
        }
        stored := Some(Stringify(points));
        NotifyListeners();
      }
    }

    /** `deletePoint(id)`. Locally: drop every point with that id, persist,
        notify. On the cloud backend: hand the removal to the SDK. */
    method DeletePoint(id: int)
      modifies this`points, this`stored, this`fired, this`outbox
      ensures !useCloud ==> && points == RemoveId(old(points), id)
                            && stored == Some(Stringify(points))
                            && fired == old(fired) + listeners
                            && outbox == old(outbox)
      ensures useCloud ==> && points == old(points) && stored == old(stored)
                           && fired == old(fired)
                           && outbox == old(outbox) + [RemovePoint(id)]
    {
      if useCloud {
        outbox := outbox + [RemovePoint(id)];
      } else {
        points := RemoveId(points, id);
        stored := Some(Stringify(points));
        NotifyListeners();
      }
    }

    /** `getNextId`: one more than the largest id, so strictly greater than
        every id in the collection, and 1 for an empty collection. */
    method GetNextId() returns (next: int)
      ensures forall k :: 0 <= k < |points| ==> points[k].id < next
      ensures next >= 1
      ensures next == 1 || HasId(points, next - 1)
      ensures next == MaxId(points) + 1
    {
      var max := 0;
      var i := 0;
      while i < |points|
        invariant 0 <= i <= |points|
        invariant max == MaxId(points[..i])
      {
        assert points[..i + 1][..i] == points[..i];
        if points[i].id > max {
          max := points[i].id;
        }
        i := i + 1;
      }
      assert points[..i] == points;
      next := max + 1;
    }
  }

  /** Every default point has its own id, so the seed batch and the local
      start-up copy agree point for point, and the next id is 13. */
  lemma DefaultPointsFacts()
    ensures UniqueIds(DEFAULT_POINTS)
    ensures MaxId(DEFAULT_POINTS) == 12
    ensures forall i :: 0 <= i < |DEFAULT_POINTS| ==>
              DEFAULT_POINTS[i].id in SeedBatch(DEFAULT_POINTS) && SeedBatch(DEFAULT_POINTS)[DEFAULT_POINTS[i].id] == DEFAULT_POINTS[i]
  {
    assert forall i :: 0 <= i < |DEFAULT_POINTS| ==> DEFAULT_POINTS[i].id == i + 1;
    NumberedIds(DEFAULT_POINTS);
  }

  /** Points numbered 1, 2, 3, ... in order have distinct ids, the largest
      being their number, and each is filed under its own id. */
  lemma {:induction false} NumberedIds(ps: seq<Point>)
    requires forall i :: 0 <= i < |ps| ==> ps[i].id == i + 1
    ensures UniqueIds(ps)
    ensures MaxId(ps) == |ps|
    ensures forall i :: 0 <= i < |ps| ==> ps[i].id in SeedBatch(ps) && SeedBatch(ps)[ps[i].id] == ps[i]
  {
    if ps != [] {
      var front := ps[..|ps| - 1];
      assert forall i :: 0 <= i < |front| ==> front[i] == ps[i];
      NumberedIds(front);
    }
    SeedBatchFilesEach(ps);
  }
}
