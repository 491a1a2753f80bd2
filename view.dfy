/**
 * js/app.js: how the page projects `mapPoints` onto the map and the sidebar.
 * Markers are objects (a layer removes a marker by identity); the cluster
 * groups are sets of markers, one per entry of `CATEGORIES`; the sidebar
 * counters, the modal and the lightboxes are plain values.
 */
module View {

  import Wrappers
  import opened Points
  import opened I18n
  import Store

  /** One entry of `CATEGORIES`: marker colour and badge translation key. */
  datatype CategoryStyle = CategoryStyle(color: string, badgeKey: string)

  /** `CATEGORIES`: the three clustered categories. Crime points (category
      "crime") are not among them. */
  const CATEGORIES: map<string, CategoryStyle> := map[
    "blind-spots" := CategoryStyle("#e74c3c", "badge_blind"),
    "abandoned" := CategoryStyle("#f39c12", "badge_abandoned"),
    "unlit" := CategoryStyle("#8e44ad", "badge_unlit")
  ]

  /** The fields `loc` is applied to. */
  predicate LocalizedField(field: string)
  {
    field == "title" || field == "address" || field == "description"
  }

  // ------------------------------------------------------------------ loc

  /** `loc(point, field)` while `currentLang` is `lang`:
      `point[field_lang] || point[field_ru] || ""`. */
  function Loc(p: Point, field: string, lang: string): (r: string)
    ensures r == "" <==> Prop(p, field + "_" + lang) == "" && Prop(p, field + "_ru") == ""
    ensures r == Prop(p, field + "_" + lang) || r == Prop(p, field + "_ru")
    ensures Prop(p, field + "_" + lang) != "" ==> r == Prop(p, field + "_" + lang)
    ensures Prop(p, field + "_" + lang) == "" ==> r == Prop(p, field + "_ru")
  {
    if Prop(p, field + "_" + lang) != "" then Prop(p, field + "_" + lang)
    else Prop(p, field + "_ru")
  }

  /** A key `a_b` splits uniquely at its first underscore. */
  lemma UnderscoreSplit(a: string, b: string, c: string, d: string)
    requires '_' !in a && '_' !in c
    ensures a + "_" + b == c + "_" + d <==> a == c && b == d
  {
    var s, t := a + "_" + b, c + "_" + d;
    if s == t {
      assert s[|a|] == '_' && t[|c|] == '_';
      assert forall i :: 0 <= i < |a| ==> s[i] == a[i];
      assert forall i :: 0 <= i < |c| ==> t[i] == c[i];
      assert |a| == |c|;
      assert a == s[..|a|] && c == t[..|c|];
      assert b == s[|a| + 1..] && d == t[|c| + 1..];
    }
  }

  /** For a language without its own field (anything but "ru" and "kz") the
      key `field_lang` names no property of a point. */
  lemma NoSuchKey(p: Point, field: string, lang: string)
    requires LocalizedField(field)
    requires lang != "ru" && lang != "kz"
    ensures Prop(p, field + "_" + lang) == ""
  {
    assert '_' !in "title" && '_' !in "address" && '_' !in "description";
    assert "title_ru" == "title" + "_" + "ru" && "title_kz" == "title" + "_" + "kz";
    assert "address_ru" == "address" + "_" + "ru" && "address_kz" == "address" + "_" + "kz";
    assert "description_ru" == "description" + "_" + "ru" && "description_kz" == "description" + "_" + "kz";
    UnderscoreSplit(field, lang, "title", "ru");
    UnderscoreSplit(field, lang, "title", "kz");
    UnderscoreSplit(field, lang, "address", "ru");
    UnderscoreSplit(field, lang, "address", "kz");
    UnderscoreSplit(field, lang, "description", "ru");
    UnderscoreSplit(field, lang, "description", "kz");
  }

  /** `loc` by language: Russian reads the Russian field; Kazakh reads the
      Kazakh field and falls back to the Russian one when it is empty; any
      other language reads the Russian field. */
  lemma LocByLanguage(p: Point, lang: string)
    ensures Loc(p, "title", "ru") == p.titleRu
    ensures Loc(p, "title", "kz") == if p.titleKz != "" then p.titleKz else p.titleRu
    ensures Loc(p, "address", "kz") == if p.addressKz != "" then p.addressKz else p.addressRu
    ensures Loc(p, "description", "kz") == if p.descriptionKz != "" then p.descriptionKz else p.descriptionRu
    ensures lang != "ru" && lang != "kz" ==>
              && Loc(p, "title", lang) == p.titleRu
              && Loc(p, "address", lang) == p.addressRu
              && Loc(p, "description", lang) == p.descriptionRu
  {
    assert "title" + "_" + "ru" == "title_ru" && "title" + "_" + "kz" == "title_kz";
    assert "address" + "_" + "kz" == "address_kz" && "address" + "_" + "ru" == "address_ru";
    assert "description" + "_" + "kz" == "description_kz" && "description" + "_" + "ru" == "description_ru";
    assert "title" + "_ru" == "title_ru" && "address" + "_ru" == "address_ru" && "description" + "_ru" == "description_ru";
    if lang != "ru" && lang != "kz" {
      NoSuchKey(p, "title", lang);
      NoSuchKey(p, "address", lang);
      NoSuchKey(p, "description", lang);
    }
  }

  // -------------------------------------------------------------- markers

  /** A Leaflet marker: the point it shows (`_pointData`, whose category is
      `_pointCategory`) and its bound tooltip text. */
  class Marker {
    const point: Point
    var tooltip: string

    constructor (p: Point, tip: string)
      ensures point == p && tooltip == tip
    {
      point := p;
      tooltip := tip;
    }
  }

  /** The markers of `ms` whose point has category `c`. */
  function MarkersOf(ms: seq<Marker>, c: string): set<Marker>
  {
    set m | m in ms && m.point.category == c
  }

  predicate Distinct(ms: seq<Marker>)
  {
    forall i, j :: 0 <= i < j < |ms| ==> ms[i] != ms[j]
  }

  /** The map's marker state: `markers`, `layers` and which cluster groups
      are currently added to the map. */
  class MapView {
    var markers: seq<Marker>
    var layers: map<string, set<Marker>>
    var onMap: set<string>

    /** There is one cluster group per category of `CATEGORIES`, and each
        holds exactly the current markers of its category. */
    ghost predicate Valid()
      reads this
    {
      && layers.Keys == CATEGORIES.Keys
      && Distinct(markers)
      && forall c :: c in layers ==> layers[c] == MarkersOf(markers, c)
    }

    /** Page load: one empty cluster group per category, all on the map. */
    constructor ()
      ensures Valid() && markers == [] && onMap == CATEGORIES.Keys
    {
      markers := [];
      layers := map c | c in CATEGORIES.Keys :: {};
      onMap := CATEGORIES.Keys;
    }

    /** `buildMarkers`: take every existing marker out of its group, then
        create one marker per point, in order, with the point's localised
        title as tooltip, and put it in its category's group if there is one. */
    method BuildMarkers(points: seq<Point>, lang: string)
      requires Valid()
      modifies this`markers, this`layers
      ensures Valid()
      ensures |markers| == |points|
      ensures forall i :: 0 <= i < |points| ==>
                && fresh(markers[i])
                && markers[i].point == points[i]
                && markers[i].tooltip == Loc(points[i], "title", lang)
      ensures forall c, m :: c in layers && m in layers[c] ==> fresh(m) && m.point.category == c
      ensures forall i :: 0 <= i < |points| && points[i].category !in CATEGORIES ==>
                forall c :: c in layers ==> markers[i] !in layers[c]
    {
      var ls := EmptyLayers(markers, layers);
      var ms;
      ms, ls := CreateMarkers(points, lang, ls);
      markers := ms;
      layers := ls;
    }

    /** The first loop of `buildMarkers`: every current marker is removed
        from the group of its category, which leaves every group empty. */
    static method EmptyLayers(ms: seq<Marker>, ls0: map<string, set<Marker>>) returns (ls: map<string, set<Marker>>)
      requires Distinct(ms)
      requires forall c :: c in ls0 ==> ls0[c] == MarkersOf(ms, c)
      ensures ls.Keys == ls0.Keys
      ensures forall c :: c in ls ==> ls[c] == {}
    {
      ls := ls0;
      var i := 0;
      while i < |ms|
        invariant 0 <= i <= |ms|
        invariant ls.Keys == ls0.Keys
        invariant forall c :: c in ls ==> ls[c] == MarkersOf(ms[i..], c)
      {
        var m := ms[i];
        forall c | c in ls ensures MarkersOf(ms[i..], c) - (if c == m.point.category then {m} else {})
                                   == MarkersOf(ms[i + 1..], c) {
          assert ms[i..] == [m] + ms[i + 1..];
          assert m !in ms[i + 1..];
        }
        if m.point.category in ls {
          ls := ls[m.point.category := ls[m.point.category] - {m}];
        }
        i := i + 1;
      }
    }

    /** The second loop of `buildMarkers`: one new marker per point, in
        order, added to the group of its category when there is one. */
    static method CreateMarkers(points: seq<Point>, lang: string, ls0: map<string, set<Marker>>)
      returns (ms: seq<Marker>, ls: map<string, set<Marker>>)
      requires forall c :: c in ls0 ==> ls0[c] == {}
      ensures |ms| == |points| && Distinct(ms)
      ensures forall k :: 0 <= k < |points| ==>
                && fresh(ms[k])
                && ms[k].point == points[k]
                && ms[k].tooltip == Loc(points[k], "title", lang)
      ensures ls.Keys == ls0.Keys
      ensures forall c :: c in ls ==> ls[c] == MarkersOf(ms, c)
    {
      ms, ls := [], ls0;
      var j := 0;
      while j < |points|
        invariant 0 <= j <= |points| && |ms| == j
        invariant ls.Keys == ls0.Keys
        invariant Distinct(ms)
        invariant forall k :: 0 <= k < j ==>
                    && fresh(ms[k])
                    && ms[k].point == points[k]
                    && ms[k].tooltip == Loc(points[k], "title", lang)
        invariant forall c :: c in ls ==> ls[c] == MarkersOf(ms, c)
      {
        var m := new Marker(points[j], Loc(points[j], "title", lang));
        if points[j].category in ls {
          ls := ls[points[j].category := ls[points[j].category] + {m}];
        }
        ms := ms + [m];
        j := j + 1;
      }
    }

    /** `refreshTooltips`: rebind every marker's tooltip to its point's
        title in `lang`. Markers and groups are otherwise unchanged. */
    method RefreshTooltips(lang: string)
      modifies set m | m in markers
      ensures forall i :: 0 <= i < |markers| ==> markers[i].tooltip == Loc(markers[i].point, "title", lang)
    {
      var i := 0;
      while i < |markers|
        invariant 0 <= i <= |markers|
        invariant forall k :: 0 <= k < i ==> markers[k].tooltip == Loc(markers[k].point, "title", lang)
      {
        markers[i].tooltip := Loc(markers[i].point, "title", lang);
        i := i + 1;
      }
    }

    /** A filter checkbox for `category` changed: add its cluster group to
        the map when checked, remove it otherwise; other groups stay as
        they are. The page's checkboxes name only categories of `CATEGORIES`
        (for any other name `layers[category]` is undefined and Leaflet throws). */
    method SetFilter(category: string, checked: bool)
      requires category in CATEGORIES
      modifies this`onMap
      ensures checked ==> onMap == old(onMap) + {category}
      ensures !checked ==> onMap == old(onMap) - {category}
      ensures forall c :: c != category ==> (c in onMap <==> c in old(onMap))
    {
      if checked {
        onMap := onMap + {category};
      } else {
        onMap := onMap - {category};
      }
    }
  }

  // ---------------------------------------------------------------- stats

  /** How many points of `ps` have category `c`. */
  function CountCategory(ps: seq<Point>, c: string): (n: nat)
    ensures n <= |ps|
  {
    if ps == [] then 0 else (if ps[0].category == c then 1 else 0) + CountCategory(ps[1..], c)
  }

  lemma {:induction false} CountCategoryAppend(a: seq<Point>, b: seq<Point>, c: string)
    ensures CountCategory(a + b, c) == CountCategory(a, c) + CountCategory(b, c)
  {
    if a == [] {
      assert a + b == b;
    } else {
      CountCategoryAppend(a[1..], b, c);
      assert (a + b)[1..] == a[1..] + b;
    }
  }

  /** One more point adds one to the count of its own category only. */
  lemma CountCategoryStep(ps: seq<Point>, i: nat)
    requires i < |ps|
    ensures forall c :: CountCategory(ps[..i + 1], c) == CountCategory(ps[..i], c) + (if ps[i].category == c then 1 else 0)
  {
    assert ps[..i + 1] == ps[..i] + [ps[i]];
    forall c ensures CountCategory(ps[..i + 1], c) == CountCategory(ps[..i], c) + (if ps[i].category == c then 1 else 0) {
      CountCategoryAppend(ps[..i], [ps[i]], c);
    }
  }

  /** `updateStats`: the numbers written to the four sidebar counters, by
      element id. Each category counter is the number of points of that
      category, and the total is the number of points. */
  method UpdateStats(points: seq<Point>) returns (shown: map<string, int>)
    ensures shown == map[
      "count-blind-spots" := CountCategory(points, "blind-spots"),
      "count-abandoned" := CountCategory(points, "abandoned"),
      "count-unlit" := CountCategory(points, "unlit"),
      "count-total" := |points|]
  {
    var counts: map<string, int> := map["blind-spots" := 0, "abandoned" := 0, "unlit" := 0];
    var i := 0;
    while i < |points|
      invariant 0 <= i <= |points|
      invariant counts.Keys == CATEGORIES.Keys
      invariant forall c :: c in counts ==> counts[c] == CountCategory(points[..i], c)
    {
      var p := points[i];
      CountCategoryStep(points, i);
      if p.category in counts {
        counts := counts[p.category := counts[p.category] + 1];
      }
      i := i + 1;
    }
    assert points[..i] == points;
    shown := map[
      "count-blind-spots" := counts["blind-spots"],
      "count-abandoned" := counts["abandoned"],
      "count-unlit" := counts["unlit"],
      "count-total" := |points|];
  }

  /** The three category counters add up to the total exactly when every
      point belongs to a category of `CATEGORIES`; crime points are counted
      in the total only. */
  lemma {:induction false} CountersAddUp(ps: seq<Point>)
    ensures CountCategory(ps, "blind-spots") + CountCategory(ps, "abandoned") + CountCategory(ps, "unlit") <= |ps|
    ensures (forall i :: 0 <= i < |ps| ==> ps[i].category in CATEGORIES) ==>
              CountCategory(ps, "blind-spots") + CountCategory(ps, "abandoned") + CountCategory(ps, "unlit") == |ps|
  {
    if ps != [] {
      CountersAddUp(ps[1..]);
      assert forall i :: 0 <= i < |ps[1..]| ==> ps[1..][i] == ps[i + 1];
    }
  }

  /** Deleting the point with a (unique) id lowers its category's count by
      one and leaves every other category's count alone. */
  lemma DeleteLowersCount(ps: seq<Point>, id: int, c: string)
    requires UniqueIds(ps) && HasId(ps, id)
    ensures var p := ps[Store.IndexOfId(ps, id)];
      CountCategory(Store.RemoveId(ps, id), c) == CountCategory(ps, c) - (if p.category == c then 1 else 0)
  {
    var i := Store.IndexOfId(ps, id);
    var before, p, after := ps[..i], ps[i], ps[i + 1..];
    assert ps == before + [p] + after;
    forall k | 0 <= k < |after| ensures after[k].id != id {
      assert after[k] == ps[i + 1 + k];
    }
    Store.RemoveAbsentId(before, id);
    Store.RemoveAbsentId(after, id);
    Store.RemoveIdAppend(before + [p], after, id);
    Store.RemoveIdAppend(before, [p], id);
    assert Store.RemoveId([p], id) == [];
    assert Store.RemoveId(ps, id) == before + after;
    CountCategoryAppend(before + [p], after, c);
    CountCategoryAppend(before, [p], c);
    CountCategoryAppend(before, after, c);
  }

  // ---------------------------------------------------------------- modal

  /** An `<img>` of the modal gallery. */
  datatype Image = Image(src: string, alt: string)

  /** What `openModal` writes into the modal. */
  datatype Modal = Modal(title: string, badge: string, badgeClass: string, gallery: seq<Image>,
                         description: string, address: string)

  /** The gallery loop of `openModal`: one image per photo, in photo order,
      each with the point's localised title as alternative text; empty when
      the point has no photos. */
  method Gallery(p: Point, lang: string) returns (imgs: seq<Image>)
    ensures |imgs| == |p.photos|
    ensures forall i :: 0 <= i < |imgs| ==> imgs[i] == Image(p.photos[i], Loc(p, "title", lang))
  {
    imgs := [];
    var i := 0;
    while i < |p.photos|
      invariant 0 <= i <= |p.photos| && |imgs| == i
      invariant forall k :: 0 <= k < i ==> imgs[k] == Image(p.photos[k], Loc(p, "title", lang))
    {
      imgs := imgs + [Image(p.photos[i], Loc(p, "title", lang))];
      i := i + 1;
    }
  }

  /** The badge, modal and sidebar side of the page. */
  class Ui {
    var modalOpen: bool
    var modal: Modal
    /** The lightbox `<div id="lightbox">` elements in the document, in
        document order, by the photo each shows. */
    var lightboxes: seq<string>
    var sidebarOpen: bool

    constructor ()
      ensures !modalOpen && lightboxes == [] && !sidebarOpen
    {
      modalOpen := false;
      modal := Modal("", "", "", [], "", "");
      lightboxes := [];
      sidebarOpen := false;
    }

    /** `openModal(point)`: fill the modal from the point in `lang`, show
        it, and close the mobile sidebar. Only points of a category in
        `CATEGORIES` have a badge (for others the lookup throws). */
    method OpenModal(p: Point, lang: string)
      requires p.category in CATEGORIES
      modifies this`modal, this`modalOpen, this`sidebarOpen
      ensures modalOpen && !sidebarOpen
      ensures modal.title == Loc(p, "title", lang)
      ensures modal.badge == T(CATEGORIES[p.category].badgeKey, lang) && modal.badgeClass == p.category
      ensures |modal.gallery| == |p.photos|
      ensures forall i :: 0 <= i < |p.photos| ==> modal.gallery[i] == Image(p.photos[i], Loc(p, "title", lang))
      ensures modal.description == Loc(p, "description", lang) && modal.address == Loc(p, "address", lang)
    {
      var imgs := Gallery(p, lang);
      modal := Modal(Loc(p, "title", lang), T(CATEGORIES[p.category].badgeKey, lang), p.category, imgs,
                     Loc(p, "description", lang), Loc(p, "address", lang));
      modalOpen := true;
      sidebarOpen := false;
    }

    /** `closeModal`. */
    method CloseModal()
      modifies this`modalOpen
      ensures !modalOpen
    {
      modalOpen := false;
    }

    /** `openLightbox(src)`: append a new lightbox to the document. */
    method OpenLightbox(src: string)
      modifies this`lightboxes
      ensures lightboxes == old(lightboxes) + [src]
    {
      lightboxes := lightboxes + [src];
    }

    /** `closeLightbox`: remove the first lightbox in the document, if any. */
    method CloseLightbox()
      modifies this`lightboxes
      ensures lightboxes == if old(lightboxes) == [] then [] else old(lightboxes)[1..]
    {
      if lightboxes != [] {
        lightboxes := lightboxes[1..];
      }
    }

    /** The menu button: open the sidebar when closed, close it when open. */
    method MenuButtonClick()
      modifies this`sidebarOpen
      ensures sidebarOpen == !old(sidebarOpen)
    {
      if sidebarOpen {
        sidebarOpen := false;
      } else {
        sidebarOpen := true;
      }
    }

    /** A click on the dimmed overlay beside the sidebar closes it. */
    method SidebarOverlayClick()
      modifies this`sidebarOpen
      ensures !sidebarOpen
    {
      sidebarOpen := false;
    }

    /** A click on the modal overlay closes the modal only when the overlay
        itself, not its content, was clicked. */
    method ModalOverlayClick(onOverlayItself: bool)
      modifies this`modalOpen
      ensures modalOpen == (old(modalOpen) && !onOverlayItself)
    {
      if onOverlayItself {
        CloseModal();
      }
    }

    /** Escape: close one lightbox, the modal and the sidebar. With at most
        one lightbox open (the page opens one per click), none is left. */
    method PressEscape()
      modifies this`lightboxes, this`modalOpen, this`sidebarOpen
      ensures !modalOpen && !sidebarOpen
      ensures lightboxes == if old(lightboxes) == [] then [] else old(lightboxes)[1..]
      ensures |old(lightboxes)| <= 1 ==> lightboxes == []
    {
      CloseLightbox();
      CloseModal();
      sidebarOpen := false;
    }
  }

  /** A language button: `setLanguage(lang)` followed by `refreshTooltips`,
      so that every tooltip shows its point's title in the new language. */
  method LanguageButtonClick(page: Page, view: MapView, lang: string)
    modifies page, set m | m in view.markers
    ensures page.currentLang == lang && page.savedLang == Wrappers.Some(lang)
    ensures |page.elements| == |old(page.elements)|
    ensures forall i :: 0 <= i < |page.elements| ==>
              && page.elements[i].key == old(page.elements[i].key)
              && page.elements[i].text == (if HasText(lang, page.elements[i].key) then I18N[lang][page.elements[i].key]
                                           else old(page.elements[i].text))
    ensures |page.buttons| == |old(page.buttons)|
    ensures forall i :: 0 <= i < |page.buttons| ==>
              page.buttons[i].lang == old(page.buttons[i].lang) && (page.buttons[i].active <==> page.buttons[i].lang == lang)
    ensures page.docTitle == (if lang == "ru" then "Цифровая карта прокуратуры г. Атырау"
                              else "Атырау қ. прокуратурасының цифрлік картасы")
    ensures page.htmlLang == (if lang == "ru" then "ru" else "kk")
    ensures forall i :: 0 <= i < |view.markers| ==>
              view.markers[i].tooltip == Loc(view.markers[i].point, "title", page.currentLang)
  {
    page.SetLanguage(lang);
    view.RefreshTooltips(lang);
  }
}
