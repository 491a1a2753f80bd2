/**
 * tools/fetch-osm-streets.js: from the Overpass answer for the named
 * highways of Atyrau, record one entry per upper-cased street name, taken
 * from the first element that carries tags, a non-empty name and a center.
 */
module Osm {

  import opened Wrappers
  import opened Text
  import opened Points

  /** One Overpass element: its tags and its center, either possibly missing. */
  datatype Element = Element(tags: Option<map<string, string>>, center: Option<Coord>)

  /** The recorded street: the center, the name as tagged, and the Russian
      name when the element has a non-empty one. */
  datatype OsmStreet = OsmStreet(lat: real, lon: real, original: string, nameRu: Option<string>)

  /** `el.tags && el.tags.name && el.center`. */
  predicate Qualifies(el: Element)
  {
    && el.tags.Some?
    && "name" in el.tags.value
    && el.tags.value["name"] != ""
    && el.center.Some?
  }

  /** The key an element is recorded under: its name in upper case. */
  function NameKey(el: Element): string
    requires Qualifies(el)
  {
    ToUpper(el.tags.value["name"])
  }

  /** The entry recorded for a qualifying element. */
  function StreetOf(el: Element): (r: OsmStreet)
    requires Qualifies(el)
    ensures r.lat == el.center.value.lat && r.lon == el.center.value.lng
    ensures r.original == el.tags.value["name"] && ToUpper(r.original) == NameKey(el)
    ensures r.nameRu.None? <==> "name:ru" !in el.tags.value || el.tags.value["name:ru"] == ""
    ensures r.nameRu.Some? ==> r.nameRu.value == el.tags.value["name:ru"] && r.nameRu.value != ""
  {
    var tags := el.tags.value;
    var nameRu := if "name:ru" in tags && tags["name:ru"] != "" then Some(tags["name:ru"]) else None;
    OsmStreet(el.center.value.lat, el.center.value.lng, tags["name"], nameRu)
  }

  /** The `streets` object after the elements have been visited in order. */
  function Streets(els: seq<Element>): map<string, OsmStreet>
  {
    if els == [] then map[]
    else
      var m := Streets(els[..|els| - 1]);
      var el := els[|els| - 1];
      if Qualifies(el) && NameKey(el) !in m then m[NameKey(el) := StreetOf(el)] else m
  }

  /** The `forEach` over the elements with the first-wins guard, and the
      number of unique streets it reports. */
  method Collect(els: seq<Element>) returns (streets: map<string, OsmStreet>, count: nat)
    ensures streets == Streets(els)
    ensures count == |streets|
  {
    streets := map[];
    var i := 0;
    while i < |els|
      invariant 0 <= i <= |els|
      invariant streets == Streets(els[..i])
    {
      var el := els[i];
      assert els[..i + 1][..i] == els[..i] && els[..i + 1][i] == el;
      if el.tags.Some? && "name" in el.tags.value && el.tags.value["name"] != "" && el.center.Some? {
        var name := ToUpper(el.tags.value["name"]);
        if name !in streets {
          streets := streets[name := StreetOf(el)];
        }
      }
      i := i + 1;
    }
    assert els[..i] == els;
    count := |streets|;
  }

  /** The upper-cased names of the qualifying elements. */
  function QualifyingNames(els: seq<Element>): set<string>
  {
    set i | 0 <= i < |els| && Qualifies(els[i]) :: NameKey(els[i])
  }

  /** The recorded keys are exactly the upper-cased names of the qualifying
      elements; the count printed is therefore the number of distinct such
      names. */
  lemma {:induction false} StreetsKeys(els: seq<Element>)
    ensures Streets(els).Keys == QualifyingNames(els)
    ensures |Streets(els)| == |QualifyingNames(els)|
  {
    if els != [] {
      StreetsKeys(els[..|els| - 1]);
      QualifyingNamesStep(els);
    }
  }

  /** The last element adds its key to the names when it qualifies. */
  lemma QualifyingNamesStep(els: seq<Element>)
    requires els != []
    ensures QualifyingNames(els) == QualifyingNames(els[..|els| - 1])
              + (if Qualifies(els[|els| - 1]) then {NameKey(els[|els| - 1])} else {})
  {
    var front := els[..|els| - 1];
    var el := els[|els| - 1];
    forall k | k in QualifyingNames(els) ensures k in QualifyingNames(front) || (Qualifies(el) && k == NameKey(el)) {
      var i :| 0 <= i < |els| && Qualifies(els[i]) && NameKey(els[i]) == k;
      if i < |front| {
        assert front[i] == els[i];
      }
    }
    forall k | k in QualifyingNames(front) ensures k in QualifyingNames(els) {
      var i :| 0 <= i < |front| && Qualifies(front[i]) && NameKey(front[i]) == k;
      assert els[i] == front[i];
    }
  }

  /** `el` is recorded under `k` if it qualifies. */
  predicate HasKey(el: Element, k: string)
  {
    Qualifies(el) && NameKey(el) == k
  }

  /** `i` is the first element with key `k`. */
  predicate FirstWith(els: seq<Element>, i: int, k: string)
  {
    0 <= i < |els| && HasKey(els[i], k) && forall j :: 0 <= j < i ==> !HasKey(els[j], k)
  }

  /** First wins: every recorded entry comes from the first qualifying
      element with its key; later duplicates leave it alone. */
  lemma StreetsFirstWins(els: seq<Element>)
    ensures forall k :: k in Streets(els) ==> exists i :: FirstWith(els, i, k) && Streets(els)[k] == StreetOf(els[i])
  {
    forall k | k in Streets(els) ensures exists i :: FirstWith(els, i, k) && Streets(els)[k] == StreetOf(els[i]) {
      FirstWinsAt(els, k);
    }
  }

  lemma {:induction false} FirstWinsAt(els: seq<Element>, k: string)
    requires k in Streets(els)
    ensures exists i :: FirstWith(els, i, k) && Streets(els)[k] == StreetOf(els[i])
  {
    var front := els[..|els| - 1];
    var el := els[|els| - 1];
    assert els == front + [el];
    if k in Streets(front) {
      FirstWinsAt(front, k);
      var i :| FirstWith(front, i, k) && Streets(front)[k] == StreetOf(front[i]);
      FirstWithExtends(front, el, i, k);
      assert Streets(els)[k] == Streets(front)[k];
    } else {
      StreetsKeys(front);
      assert HasKey(el, k) && Streets(els)[k] == StreetOf(el);
      FirstWithLast(front, el, k);
    }
  }

  lemma FirstWithExtends(front: seq<Element>, el: Element, i: int, k: string)
    requires FirstWith(front, i, k)
    ensures FirstWith(front + [el], i, k) && (front + [el])[i] == front[i]
  {
    assert forall j :: 0 <= j < i ==> (front + [el])[j] == front[j];
  }

  lemma FirstWithLast(front: seq<Element>, el: Element, k: string)
    requires k !in QualifyingNames(front)
    requires HasKey(el, k)
    ensures FirstWith(front + [el], |front|, k)
  {
    forall j | 0 <= j < |front| ensures !HasKey((front + [el])[j], k) {
      assert (front + [el])[j] == front[j];
    }
  }
}
