# Atyrau prosecutor's map — a verified model

The Atyrau map is a static web page. It shows points of concern on a map of
Atyrau: blind spots, abandoned buildings and unlit streets. The interface
comes in Russian and Kazakh. Offline Node scripts turn the prosecutor's
register of crimes (tab-separated lines of article, street and house) into
extra map points. They also tally that register by street and geocode its
street names.

This project models the logic of those programs in Dafny and proves what
they promise:

- **Point store** (`store.dfy`, `default_points.dfy`). The local backend of
  `js/data.js` is a class `Store.PointStore`. It holds the points, the
  persisted blob, the listener registry and a log of fired listeners.
  Saving upserts by id and deleting filters by id. Each save or delete
  persists the new collection and notifies every listener in registration
  order. The next id is the maximum id plus one. Loading falls back to the
  default points. The cloud backend is chosen only by the start-up guard;
  the shipped configuration selects the local one.
- **Localisation** (`i18n.dfy`). The two dictionaries are constants.
  `I18n.T` looks a key up, falling back to the key itself. A class
  `I18n.Page` holds the current language, the saved language, the
  translated elements, the language buttons, the title and the `lang`
  attribute.
- **View** (`view.dfy`, `points.dfy`). Field lookup with the Russian
  fallback. The marker rebuild into per-category layers and the tooltip
  refresh (`View.MapView`). The category counters, the filter checkboxes,
  the modal with its badge and gallery, the lightbox, the sidebar and
  Escape (`View.Ui`).
- **Crime pipeline** (`crimes.dfy`, `crime_tables.dfy`). The
  `tools/generate-crimes.js` script:
  - the record parser;
  - the microdistrict classifier and the digit run it extracts;
  - the coverage count;
  - the anchor choice and the placed point with its id, address and
    description.
  The street and microdistrict tables are constants.
- **Street tally** (`tally.dfy`, `top_streets.dfy`). Three scripts count
  street occurrences the same way; the count is defined once. The tally is
  a key order plus a map from key to count. `TopStreets.TopStreets` sorts
  it by descending count.
- **Coverage analysis** (`analyze.dfy`). `tools/analyze-streets.js`:
  - the known-street extraction from the street table source;
  - the mapped/unmapped split;
  - the sort of the unmapped list.
- **Geocoding** (`geocode.dfy`). `tools/geocode-streets.js`:
  - the named/microdistrict partition;
  - the Atyrau bounding box, `Geocode.IsInAtyrau`;
  - the query variants;
  - the cache rules of `geocodeAll` over two abstract geocoding services;
  - the entries `updateGenerator` emits, with aliases and sorted
    microdistricts.
- **OpenStreetMap names** (`osm.dfy`). `tools/fetch-osm-streets.js`: the
  element filter and the first-wins record per upper-cased name.

Shared pieces:
- `text.dfy`: JavaScript's `trim`, `toUpperCase` on the alphabets the
  data uses, `split` and the `\s`/`\d` classes.
- `sorting.dfy`: a stable insertion sort proved sorted, a permutation,
  and order-preserving within equal keys (the guarantee of
  `Array.prototype.sort`).
- `wrappers.dfy`: `Option`.

Inputs modelled as parameters:
- the geocoding services (`Geocode.Search`, a function from query to
  first result);
- the random jitter draws (`Crimes.GeneratePoints` takes a pair of draws in
  [0, 1) per record);
- whether Firebase initialisation throws;
- the saved localStorage values;
- a text or element collection where the script reads a file or the DOM.

## Model

| member | source | states |
|---|---|---|
| Text.TrimStart | tools/generate-crimes.js:156-158 | the result is a suffix of the input, what it drops is all white space, and it does not start with white space |
| Text.TrimEnd | tools/generate-crimes.js:156-158 | the result is a prefix, what it drops is all white space, and it does not end with white space |
| Text.TrimSlice | tools/generate-crimes.js:156-158 | `trim` returns a slice of its input with only white space cut on each side and no white space at either end |
| Text.Trim | tools/generate-crimes.js:156-158 | `s.trim()`: leading white space cut, then trailing; what it keeps and cuts is stated by `Text.TrimSlice` |
| Text.IsSpace | tools/generate-crimes.js:147 | the characters of `\s` and of `trim()`: the ASCII white space and the Unicode space separators, line and paragraph separators and the byte-order mark; `Text.TrimSlice` states what `Text.Trim` cuts by it |
| Text.IsDigit | tools/generate-crimes.js:147-148 | `\d`: the ASCII digits only; `Text.FirstDigitRunIsSuffix` and `Analyze.IntendedMicro` state the regexes built on it |
| Text.TrimCut | tools/generate-crimes.js:156-158 | the cut `trim` makes begins where the leading white space ends, and its first character is the first one `TrimStart` kept |
| Text.SliceOfSuffix | tools/generate-crimes.js:156-158 | slicing a suffix of a string is slicing the string at the shifted bounds |
| Text.TrimStartAt | tools/generate-crimes.js:156-158 | `TrimStart` removes exactly a leading white-space run that the next character ends |
| Text.TrimEmptyIffBlank | tools/generate-crimes.js:152 | a line trims to the empty string exactly when it is all white space, which is when `filter(l => l.trim())` drops it |
| Text.TrimIdempotent | tools/generate-crimes.js:156-158 | trimming twice is trimming once |
| Text.TrimKeepsAbsent | tools/generate-crimes.js:156-158 | `trim` only cuts characters away, so a character absent from the string is absent from its trim |
| Text.TrimStartAllSpace | tools/generate-crimes.js:147 | stripping leading white space from an all-white-space string leaves nothing |
| Text.UpperChar | tools/generate-crimes.js:169 | an upper-cased character is never lower case, and a character that is not lower case is unchanged |
| Text.ToUpper | tools/generate-crimes.js:169 | `toUpperCase` keeps the length and maps every character by the one-character case mapping |
| Text.ToUpperIdempotent | tools/top-streets.js:8 | upper-casing an upper-cased key changes nothing |
| Text.ToUpperKeeps | tools/generate-crimes.js:169-170 | digits, white space and "№" are unchanged by upper-casing |
| Text.NotLower | tools/generate-crimes.js:169-170 | digits, white space and "№" are not lower-case letters |
| Text.Split | tools/generate-crimes.js:155 | `split` returns at least one part and no part contains the separator |
| Text.JoinSplit | tools/generate-crimes.js:155 | joining the parts of a split with the separator gives back the string |
| Text.SplitJoin | tools/generate-crimes.js:155 | splitting a join of separator-free parts gives back the parts |
| Text.SplitNoSep | tools/generate-crimes.js:155 | a string without the separator splits into itself alone |
| Text.SplitPrefix | tools/generate-crimes.js:155 | a separator-free part followed by the separator splits off as the first part |
| Text.FieldOrOfJoin | tools/generate-crimes.js:155-158 | field `i` of a line written from separator-free fields is that field, and `parts[i] \|\| ""` reads a field beyond the last as "" |
| Text.FieldOr | tools/generate-crimes.js:156-158 | `parts[i] \|\| ""`: the field when there is one, "" beyond the last; its meaning on a split line is `Text.FieldOrOfJoin` and `Text.FieldOrNoSep` |
| Text.FieldOrNoSep | tools/generate-crimes.js:155-158 | a field read from a split never holds the separator |
| Text.Filter | js/data.js:238 | `filter` never grows its input |
| Text.FilterMembers | js/data.js:238 | `filter` keeps exactly the elements that satisfy the predicate |
| Text.FilterAppend | js/data.js:238 | filtering a concatenation filters each part, so relative order is kept |
| Text.NonBlankLines | tools/generate-crimes.js:152 | the lines kept are exactly the lines of the text that do not trim to the empty string |
| Text.DigitRunLength | tools/generate-crimes.js:148 | the length of the maximal digit prefix |
| Text.FirstDigitIndex | tools/generate-crimes.js:148 | the index of the first digit, or the length when there is none |
| Text.FirstDigitRun | tools/generate-crimes.js:148 | `/(\d+)/` finds nothing exactly when there is no digit; otherwise it returns the first maximal digit run, which lies inside the input |
| Text.FirstDigitRunIsSuffix | tools/generate-crimes.js:148 | when every character from the first digit on is a digit, `/(\d+)/` returns that whole suffix |
| Sorting.WithKey | tools/top-streets.js:12 | the elements with a given sort key, in order, are at most all elements |
| Sorting.Insert | tools/top-streets.js:12 | inserting one element grows the list by one |
| Sorting.SortBy | tools/top-streets.js:12 | sorting keeps the length |
| Sorting.InsertMultiset | tools/top-streets.js:12 | insertion adds exactly the inserted element |
| Sorting.InsertSorted | tools/top-streets.js:12 | insertion keeps a sorted list sorted |
| Sorting.InsertWithKey | tools/top-streets.js:12 | insertion puts the new element before the elements with its key, keeping the rest in order |
| Sorting.SortByCorrect | tools/top-streets.js:12 | the sort is ordered by key, is a permutation of its input, and is stable (elements with equal keys keep their order) |
| Sorting.SortBySorted | tools/top-streets.js:12 | the insertion sort is ordered by key |
| Sorting.SortByPermutes | tools/top-streets.js:12 | the insertion sort keeps every element with its multiplicity |
| Sorting.SortByStable | tools/top-streets.js:12 | the elements with any one key come out in input order |
| Sorting.SortByDistinct | tools/analyze-streets.js:49 | sorting a list without repeats gives a list without repeats |
| Sorting.CountAtMostOne | tools/top-streets.js:12 | an element of a repeat-free list occurs at most once in its multiset |
| Sorting.TwoCopies | tools/top-streets.js:12 | two positions holding the same element give it multiplicity at least two |
| Store.ParseStringify | js/data.js:201 | parsing the stored JSON of a collection gives the collection back |
| Store.LoadLocalSource | js/data.js:198-204 | `_loadLocal` yields either exactly the stored collection (stringifying it gives the stored value back) or the default points, and a missing or unparseable value always yields the defaults |
| Store.LoadLocal | js/data.js:198-204 | `_loadLocal`: the parsed stored collection, or the default points when nothing is stored or it does not parse; `Store.LoadLocalSource` and `Store.LoadAfterSave` state what it returns |
| Store.LoadAfterSave | js/data.js:198-204 | loading after a save returns exactly the saved collection |
| Store.NoCredentialsMeansLocal | js/data.js:152-164 | without a config, an `apiKey` or a `databaseURL`, the local backend is used whatever initialisation would do |
| Store.ShippedConfigIsLocal | js/firebase-config.js:17-25 | the shipped, all-empty configuration selects the local backend |
| Store.UseCloud | js/data.js:152-164 | the start-up guard: a config with a non-empty `apiKey` and `databaseURL` whose initialisation does not throw; its consequences are stated by `Store.NoCredentialsMeansLocal` |
| Store.SeedBatch | js/data.js:184-190 | the seed batch has exactly the ids of the default points as keys |
| Store.SeedBatchFilesEach | js/data.js:184-190 | with unique ids, every point is filed under its own id |
| Store.IndexOfId | js/data.js:222 | `findIndex` gives -1 exactly when no point has the id, otherwise the first index holding it |
| Store.Upsert | js/data.js:222-227 | replace the entry with the point's id, or append the point; its effect is stated by `Store.UpsertExisting`, `Store.UpsertNew` and `Store.UpsertKeepsUnique` |
| Store.UpsertExisting | js/data.js:222-224 | saving an existing id replaces that entry in place: same length, every other entry unchanged |
| Store.UpsertNew | js/data.js:225-227 | saving a new id appends the point at the end, so the length grows by one |
| Store.UpsertKeepsUnique | js/data.js:222-227 | saving keeps ids unique and the saved point is the one holding its id |
| Store.RemoveId | js/data.js:238 | `filter(p => p.id !== id)`; its effect is stated by `Store.RemoveIdMembers` and `Store.RemoveAbsentId` |
| Store.RemoveIdMembers | js/data.js:238 | after a delete no point has the id, and every other point is still there |
| Store.RemoveAbsentId | js/data.js:238 | deleting an absent id changes nothing |
| Store.RemoveIdAppend | js/data.js:238 | deleting from a concatenation deletes from each part, keeping order |
| Store.MaxId | js/data.js:245-251 | the largest id, not below 0, bounds every id and is an id unless it is 0 |
| Store.FreshIdAppends | js/data.js:245-251 | a point with an id above the maximum is appended by a save and ids stay unique |
| Store.PointStore.constructor | js/data.js:152-210 | the backend follows the start-up guard; the local backend starts from `_loadLocal`; no listener is registered yet |
| Store.PointStore.OnDataChanged | js/data.js:143-145 | registering appends the listener to the registry |
| Store.PointStore.NotifyListeners | js/data.js:147-149 | every registered listener fires once, in registration order |
| Store.PointStore.SavePoint | js/data.js:217-231 | locally the collection becomes the upsert, the persisted blob equals the new collection, and the listeners fire; in the cloud only the write is issued |
| Store.PointStore.DeletePoint | js/data.js:234-242 | locally the collection becomes the filtered one, is persisted and the listeners fire; in the cloud only the removal is issued |
| Store.PointStore.GetNextId | js/data.js:245-251 | the result exceeds every id, is at least 1, is 1 on an empty collection, and is one more than an existing id otherwise |
| Store.DefaultPointsFacts | js/data.js:7-131 | the default points have unique ids with maximum 12, and the seed files each under its id |
| Store.NumberedIds | js/data.js:7-131 | points numbered 1, 2, 3, … in order have distinct ids, the largest equal to their number, and each is filed under its own id in the seed batch |
| I18n.TNeverBlank | js/i18n.js:89-91 | `t` (`I18n.T`) falls back to the key, so a non-empty key never shows as "", and any text other than the key is one of the language's dictionary texts |
| I18n.T | js/i18n.js:89-91 | `t`: the language's text for the key when it has one, otherwise the key; `I18n.TNeverBlank` and `I18n.UnknownLanguageShowsKeys` state what that means |
| I18n.UnknownLanguageShowsKeys | js/i18n.js:89-91 | under a language with no dictionary every key shows as itself |
| I18n.DictionariesAgree | js/i18n.js:5-58 | the Russian and Kazakh dictionaries define the same keys, all with non-empty texts |
| I18n.InitialLang | js/i18n.js:93-99 | the start-up language is the saved one when it names a dictionary, otherwise "ru" |
| I18n.Page.constructor | js/i18n.js:61-99 | the page starts in the start-up language, with the saved value and the page's elements as given |
| I18n.Page.SetLanguage | js/i18n.js:63-87 | the language is set and saved even when unknown; an element's text changes to its translation only when the key has a non-empty one; exactly the buttons of that language are active; title and `lang` follow |
| I18n.Page.TranslateAll | js/i18n.js:68-73 | each element gets the translation of its key when that is non-empty and keeps its text otherwise; keys and order are unchanged |
| I18n.Page.Activate | js/i18n.js:84-86 | exactly the buttons whose language is the chosen one are active; their languages and order are unchanged |
| I18n.Page.Translate | js/i18n.js:89-91 | `t` under the page's current language never shows "" for a non-empty key, and shows either the key or a text of that language's dictionary |
| View.Loc | js/app.js:12-14 | the field in the current language when that is non-empty, otherwise the Russian field; empty exactly when both are empty (per language: `View.LocByLanguage`) |
| View.NoSuchKey | js/app.js:13 | for a language with no fields the composed property does not exist |
| View.UnderscoreSplit | js/app.js:13 | a name `field_lang` whose field part has no underscore determines its field and its language |
| View.LocByLanguage | js/app.js:12-14 | in Russian the Russian field; in Kazakh the Kazakh field with the Russian fallback; in any other language the Russian field |
| View.Marker.constructor | js/app.js:65-80 | a marker carries its point and its tooltip |
| View.MapView.constructor | js/app.js:34-44 | no markers yet, and every category layer shown |
| View.MapView.BuildMarkers | js/app.js:56-87 | one fresh marker per point in point order, tooltip the localised title; every layer holds only fresh markers of its own category; a point of any other category is in no layer |
| View.MapView.EmptyLayers | js/app.js:57-63 | removing every current marker from the group of its category leaves every group empty and keeps the set of groups |
| View.MapView.CreateMarkers | js/app.js:65-86 | one fresh, distinct marker per point in point order with the localised title as tooltip; each group holds exactly the new markers of its category |
| View.MarkersOf | js/app.js:82-84 | the markers of one category layer, as `layers[point.category].addLayer(marker)` fills it; used by the layer contracts of `View.MapView` |
| View.MapView.RefreshTooltips | js/app.js:92-101 | every marker's tooltip becomes its point's title in the new language |
| View.MapView.SetFilter | js/app.js:118-127 | checking adds exactly that layer to the map, unchecking removes exactly it; other layers stay as they were |
| View.CountCategory | js/app.js:104-108 | the number of points of a category is at most the number of points |
| View.CountCategoryAppend | js/app.js:104-108 | counting a concatenation adds the counts of the parts |
| View.CountCategoryStep | js/app.js:104-108 | one more point adds one to the count of its own category and leaves every other count alone |
| View.UpdateStats | js/app.js:104-114 | each counter shows the number of points of its category and the total shows the number of points |
| View.CountersAddUp | js/app.js:104-113 | the three counters add up to at most the total, and to exactly it when every point has one of the three categories |
| View.DeleteLowersCount | js/app.js:104-113 | deleting a point lowers its category's count by one and leaves the other counts alone |
| View.Gallery | js/app.js:158-170 | one image per photo in photo order, each with the localised title, and none when there are no photos |
| View.Ui.constructor | js/app.js:142-147 | the modal, the lightbox and the sidebar start closed |
| View.Ui.OpenModal | js/app.js:149-179 | the modal opens with the localised title, the category badge, the gallery, description and address, and the sidebar closes |
| View.Ui.CloseModal | js/app.js:181-183 | the modal is closed |
| View.Ui.OpenLightbox | js/app.js:198-208 | a lightbox for the photo is appended |
| View.Ui.CloseLightbox | js/app.js:210-213 | the first lightbox is removed, if any |
| View.Ui.MenuButtonClick | js/app.js:232-240 | the menu button flips the sidebar |
| View.Ui.SidebarOverlayClick | js/app.js:242-244 | the overlay closes the sidebar |
| View.Ui.ModalOverlayClick | js/app.js:186-188 | a click on the overlay itself closes the modal; a click inside it does not |
| View.Ui.PressEscape | js/app.js:189-195 | Escape leaves the modal and the sidebar closed and removes a lightbox, leaving none when at most one was open |
| View.LanguageButtonClick | js/app.js:130-136 | the language is set and saved, every element's text follows the non-empty translation of its key and is kept otherwise, exactly the buttons of that language are active, the title and `lang` attribute follow, and every tooltip shows its point's title in the language |
| Crimes.ParseLine | tools/generate-crimes.js:154-160 | a record is produced only with a non-empty article and street |
| Crimes.ParseLineFields | tools/generate-crimes.js:155-158 | each field of a parsed record is already trimmed and free of tabs, and writing the record back as a tab-separated line parses to the same record |
| Crimes.CleanField | tools/generate-crimes.js:155-158 | a trimmed field of a line is its own trim and holds no tab |
| Crimes.ParseLineRoundTrip | tools/generate-crimes.js:154-160 | a line written from trimmed, tab-free, non-empty article and street parses back to that record |
| Crimes.ParseLineSkips | tools/generate-crimes.js:159 | a line is skipped exactly when its article or its street field is blank |
| Crimes.RecordsOf | tools/generate-crimes.js:152-161 | there are never more records than lines |
| Crimes.RecordsOfStep | tools/generate-crimes.js:154-161 | one more line appends its record exactly when it parses |
| Crimes.RecordsWellFormed | tools/generate-crimes.js:152-161 | every record has a non-empty trimmed article and street and a trimmed house |
| Crimes.ParseRecords | tools/generate-crimes.js:152-161 | the records are those of the non-blank lines, in order |
| Crimes.ParseLines | tools/generate-crimes.js:154-161 | the parse loop yields the records of the lines, in order |
| Crimes.IsMicrodistrict | tools/generate-crimes.js:147 | `isMicrodistrict`: digits, optionally after "№" and white space; that it is the regular expression is stated by `Crimes.IsMicrodistrictMatchesPattern` |
| Crimes.MicroPattern | tools/generate-crimes.js:147 | the language of `/^(№\s*)?\d+$/`, written as the regular expression reads: digits alone, or "№", a run of white space and digits |
| Crimes.IsMicrodistrictMatchesPattern | tools/generate-crimes.js:147 | the classifier accepts exactly an optional "№" and white space followed by one or more digits and nothing else |
| Crimes.MicroFromPattern | tools/generate-crimes.js:147 | "№", white space and a non-empty digit run make a microdistrict name |
| Crimes.PatternFromMicro | tools/generate-crimes.js:147 | a microdistrict name starting with "№" splits into the sign, white space and a non-empty digit run |
| Crimes.MicrodistrictNum | tools/generate-crimes.js:148 | on a microdistrict name the number is a non-empty digit string |
| Crimes.MicrodistrictNumIsSuffix | tools/generate-crimes.js:147-148 | the number of a microdistrict name is its trailing digits, and a bare digit string is its own number |
| Crimes.CountMapped | tools/generate-crimes.js:166-178 | the mapped count is at most the number of records |
| Crimes.MappedIn | tools/generate-crimes.js:168-178 | a street is mapped when it is a microdistrict name or its upper-cased form is a key of the table |
| Crimes.Mapped | tools/generate-crimes.js:168-178 | the same test against the generator's own `STREETS` |
| Crimes.UnmappedStreets | tools/generate-crimes.js:166-178 | the `unmappedStreets` set: the streets of the records that are not mapped |
| Crimes.CheckCoverage | tools/generate-crimes.js:166-178 | mapped counts the records that are microdistricts or whose upper-cased street is a table key; mapped + unmapped is the number of records; the unmapped set holds exactly the unmapped streets and is empty exactly when nothing is unmapped; the table is a parameter, and the generator's is `STREETS` (`Crimes.Mapped`) |
| Crimes.UnmappedStreetsStep | tools/generate-crimes.js:174-176 | one more record adds its street to the unmapped names exactly when it is not mapped |
| Crimes.CoverageStep | tools/generate-crimes.js:168-178 | one more record raises the mapped count or adds its street to the unmapped names, never both |
| Crimes.AllMappedIffNoneUnmapped | tools/generate-crimes.js:179-182 | every record is mapped exactly when the set of unmapped streets is empty |
| Crimes.AnchorOf | tools/generate-crimes.js:189-204 | the narrow spread is used exactly for mapped streets; a microdistrict whose number has a table entry uses that entry, a table street its entry; an unmapped street, and a microdistrict whose number has no entry, use the centre |
| Crimes.Round4 | tools/generate-crimes.js:209-210 | rounding to four decimals moves a coordinate by at most 0.00005 and lands on the 0.0001 grid |
| Crimes.Round4OnGrid | tools/generate-crimes.js:209-210 | a value already on the grid is unchanged |
| Crimes.CrimePoint | tools/generate-crimes.js:188-217 | the point has the given id, category "crime", no photos, and the placed coordinates of its anchor |
| Crimes.Place | tools/generate-crimes.js:195-210 | the jittered, rounded point lies within half the spread plus 0.00005 of its anchor |
| Crimes.CrimePointTexts | tools/generate-crimes.js:206-216 | both titles and addresses are the address (street, plus " " and house when there is one), and both descriptions are article, " — " and address |
| Crimes.Address | tools/generate-crimes.js:206 | the street, followed by " " and the house when there is one; its use in every text field is stated by `Crimes.CrimePointTexts` |
| Crimes.NearAnchor | tools/generate-crimes.js:195-210 | one jittered, rounded coordinate stays within half the spread plus 0.00005 |
| Crimes.JitterBound | tools/generate-crimes.js:149 | a jitter is at most half its spread |
| Crimes.Jitter | tools/generate-crimes.js:149 | the offset `(Math.random() - 0.5) * spread` is at most half the spread either way; the same form with spread 0.012 is the wide fallback of lines 202-203 |
| Crimes.GeneratePoints | tools/generate-crimes.js:184-218 | one point per record, in order, with ids consecutive from 5000 and each the crime point of its record and draws |
| Crimes.GeneratedIds | tools/generate-crimes.js:186-208 | consecutive ids from 5000 are unique and at least 5000 |
| Tally.LineKeys | tools/top-streets.js:4-10 | one key slot per line |
| Tally.StreetKey | tools/top-streets.js:5-8 | `(parts[1] \|\| "").trim()` upper-cased, or none when blank; stated by `Tally.StreetKeyFacts` |
| Tally.StreetKeyFacts | tools/top-streets.js:5-8 | a line is counted exactly when its second field is not blank, and its key is non-empty and already upper case |
| Tally.LineKeysMembers | tools/top-streets.js:4-10 | the tally's keys are exactly the keys of the counted lines |
| Tally.KeyHasLine | tools/top-streets.js:4-10 | a key of the tally comes from some line |
| Tally.Occurrences | tools/top-streets.js:9 | a key is counted at most once per line |
| Tally.Counted | tools/top-streets.js:7 | at most every line is counted |
| Tally.KeysOfFacts | tools/top-streets.js:3-11 | the keys are distinct, and a string is a key exactly when it has a positive count, which is when some line is counted under it |
| Tally.KeysOf | tools/top-streets.js:3-11 | the keys of the `Map` in insertion order; `Tally.KeysOfFacts` states that they are distinct and are exactly the positive counts |
| Tally.ByCountDesc | tools/top-streets.js:12 | the sort key of `(a,b) => b[1] - a[1]`: descending count; `Tally.SumCountsSortBy` and `Sorting.SortByCorrect` state what the sort keeps |
| Tally.SumOverBump | tools/top-streets.js:9 | one more line raises the sum over distinct keys by one exactly when its key is among them |
| Tally.SumOfCounts | tools/top-streets.js:2-11 | the counts add up to the number of non-blank lines with a non-empty second field |
| Tally.CountStreets | tools/geocode-streets.js:80-89 | the counting loop yields the keys in first-seen order and for each key the number of lines counted under it, at least 1 |
| Tally.CountKeys | tools/top-streets.js:4-11 | the loop over the lines' keys yields the first-seen key order and the occurrence counts |
| Tally.EntriesOf | tools/top-streets.js:12 | `entries()` lists one entry per key in key order with its count |
| Tally.SumCountsAppend | tools/top-streets.js:12 | the total of a concatenation is the sum of the totals |
| Tally.SumEntries | tools/top-streets.js:12 | the entries' total is the sum of the keys' counts |
| Tally.EntriesOfSnoc | tools/top-streets.js:12 | the entries of one more key are the old entries followed by that key with its count |
| Tally.SumCountsSortBy | tools/top-streets.js:12 | sorting by descending count keeps the total |
| Tally.SumCountsInsert | tools/top-streets.js:12 | inserting an entry adds its count to the total |
| TopStreets.TopStreets | tools/top-streets.js:1-13 | each street appears once with the number of lines counted under it; counts never increase along the output; they add up to the counted lines; equal counts keep first-seen order |
| TopStreets.Tallied | tools/top-streets.js:12 | one entry per key |
| TopStreets.SortedTally | tools/top-streets.js:12 | the sorted entries of a finished count are exactly the sorted tally |
| TopStreets.TalliedFacts | tools/top-streets.js:3-12 | an entry is exactly a key with its count; the streets are distinct; the counts add up to the counted lines |
| TopStreets.TalliedMembers | tools/top-streets.js:3-12 | an entry is in the tally exactly when it is a key with its count |
| TopStreets.TalliedSum | tools/top-streets.js:3-12 | the tally's counts add up to the number of counted lines |
| TopStreets.SortedFacts | tools/top-streets.js:12 | sorting keeps entries and distinctness, orders counts descending and keeps the total |
| TopStreets.DistinctStreets | tools/top-streets.js:12 | a permutation of a list with distinct streets has distinct streets |
| Analyze.QuoteIndex | tools/analyze-streets.js:12 | the index of the first `"`, or -1 exactly when there is none |
| Analyze.FirstQuoted | tools/analyze-streets.js:12 | `/"([^"]+)"/`: a match is non-empty, quote-free, and occurs between quotes in the line; that it is the leftmost match is `Analyze.FirstQuotedLeftmost` |
| Analyze.MatchAt | tools/analyze-streets.js:12 | where `/"([^"]+)"/` can match: a quote followed by a non-empty quote-free run and a closing quote |
| Analyze.MatchValue | tools/analyze-streets.js:12 | the captured group of a match: the run between the two quotes |
| Analyze.FirstQuotedLeftmost | tools/analyze-streets.js:12 | `line.match` returns the leftmost match: the name found is the group of a match at some index, and no match starts earlier |
| Analyze.LeftmostStep | tools/analyze-streets.js:12 | with no match at the first character, the leftmost match of the rest, shifted by one, is the leftmost match of the line |
| Analyze.MatchShift | tools/analyze-streets.js:12 | dropping the first character moves every match one place left and keeps its group |
| Analyze.FirstQuotedNone | tools/analyze-streets.js:12-13 | there is no match exactly when every quote is followed directly by a quote or by no quote at all |
| Analyze.QuotedAtStart | tools/analyze-streets.js:12 | a line starting with a quoted name matches that name |
| Analyze.QuoteAfter | tools/analyze-streets.js:12 | the closing quote after a quote-free name is found right after it |
| Analyze.SkipIndent | tools/analyze-streets.js:12 | a quote-free indent does not change the match |
| Analyze.FirstQuotedTableLine | tools/analyze-streets.js:10-13 | an indented street-table line yields the quoted street name |
| Analyze.KnownStreets | tools/analyze-streets.js:9-14 | the known streets are exactly the first quoted names of the table lines |
| Analyze.QuotedNames | tools/analyze-streets.js:9-14 | the set of first quoted strings of the lines that have one, which the loop of `Analyze.KnownStreets` builds |
| Analyze.QuotedNamesStep | tools/analyze-streets.js:11-14 | one more table line adds its first quoted name, if it has one |
| Analyze.QuotedNamesLack | tools/analyze-streets.js:9-14 | a character that no table line contains is in no known name |
| Analyze.AsWrittenMicro | tools/analyze-streets.js:34 | the regular expression as written, whose sign is the three characters "â„–"; its effect on upper-cased keys is `Analyze.AsWrittenOnUpperKeys` |
| Analyze.IntendedMicro | tools/analyze-streets.js:34 | the same regular expression with the sign "№" accepts exactly the names the generator's `isMicrodistrict` accepts |
| Analyze.Part | tools/analyze-streets.js:33-42 | one of the two lists is at most the whole tally |
| Analyze.PartMembers | tools/analyze-streets.js:33-42 | a list holds exactly the entries whose mapped status it stands for |
| Analyze.PartDistinct | tools/analyze-streets.js:33-42 | a list drawn from entries with distinct streets has distinct streets |
| Analyze.IsMapped | tools/analyze-streets.js:34-35 | a street counts as mapped when it passes the microdistrict regex or is a known street; which list each entry lands in is stated by `Analyze.PartMembers` and `Analyze.ExactlyOneList` |
| Analyze.Classify | tools/analyze-streets.js:29-42 | the two lists are the mapped and unmapped entries in tally order, the counters are their totals, and together they are the whole tally |
| Analyze.ClassifyStep | tools/analyze-streets.js:29-42 | one more entry goes to the end of exactly one list, and the total grows by its count |
| Analyze.PartStep | tools/analyze-streets.js:33-42 | each entry goes to exactly one list, at its end |
| Analyze.ExactlyOneList | tools/analyze-streets.js:33-42 | every tallied street is in exactly one of the two lists |
| Analyze.Analyze | tools/analyze-streets.js:4-49 | mapped + unmapped is the number of counted lines and unmapped is the total of the list; the list names each street once, runs from the largest count down, keeps the tally's first-seen order among equal counts, and holds exactly the tallied streets, with their counts, that the classifier rejects and the table does not name |
| Analyze.AnalyzeLines | tools/analyze-streets.js:17-49 | the same for the non-blank lines given, with the known names being the first quoted strings of the table lines |
| Analyze.AnalyzeTotals | tools/analyze-streets.js:17-42 | the tally's entries add up to the counted lines, and the unmapped part holds exactly the keys, with their counts, that the classifier rejects and the known set lacks |
| Analyze.EntriesOfMembers | tools/analyze-streets.js:33 | `streetCounts.entries()` holds exactly the keys paired with their counts |
| Analyze.AnalyzeFacts | tools/analyze-streets.js:17-49 | the entries add up to the counted lines; the sorted unmapped list keeps the unmapped total, runs from the largest count down and holds exactly the tallied keys, with their counts, that are neither microdistricts nor known |
| Analyze.AnalyzeOrder | tools/analyze-streets.js:33-49 | the sorted unmapped list names each street once, and equal counts keep the order of the unmapped part of the tally, as the stable sort prints them |
| Analyze.SortedDistinct | tools/analyze-streets.js:49 | sorting the unmapped part of the tally keeps its streets distinct |
| Analyze.EntriesAreTallied | tools/analyze-streets.js:17-28 | the entries of the counting loop's keys and counts are the tally in first-seen order |
| Analyze.SortUnmapped | tools/analyze-streets.js:49 | the sorted unmapped list is a permutation of the list (same multiset), descending by count, with its total kept |
| Analyze.UpperCharPreimage | tools/analyze-streets.js:23 | a character that upper-cases to a digit, white space or "№" was already that character |
| Analyze.MicroChars | tools/generate-crimes.js:147 | a microdistrict name has only digits, white space and "№" |
| Analyze.MicroUnderUpper | tools/analyze-streets.js:23 | upper-casing neither creates nor destroys a microdistrict name |
| Analyze.MicroIsUpper | tools/analyze-streets.js:23 | a microdistrict name is already upper case |
| Analyze.UpperMicroIsUpper | tools/analyze-streets.js:23 | a string that upper-cases to a microdistrict name was already upper case |
| Analyze.AsWrittenOnUpperKeys | tools/analyze-streets.js:34 | on upper-cased keys the regex as written accepts exactly the non-empty digit strings |
| Analyze.NumberSignCounterexample | tools/analyze-streets.js:34 | "№5" is a microdistrict name that the generator maps and is its own upper-case key, yet the regex as written rejects it while the intended one accepts it, so against a table whose text has no "№" the script reports it unmapped |
| Analyze.IntendedAgreesWithGenerator | tools/analyze-streets.js:34-35 | with the intended regex and the generator's table, a tallied street is mapped exactly when the generator maps it |
| Geocode.NamedOf | tools/geocode-streets.js:94-102 | there are never more named streets than keys |
| Geocode.MicroOf | tools/geocode-streets.js:94-102 | named streets and microdistricts together are as many as the keys |
| Geocode.Partition | tools/geocode-streets.js:94-102 | the loop yields both lists in key order and every key lands in one of them |
| Geocode.PartitionStep | tools/geocode-streets.js:96-101 | one more key goes to the end of the named list or, as its number, of the microdistrict list |
| Geocode.PartitionFacts | tools/geocode-streets.js:91-102 | the named streets are exactly the non-microdistrict keys, and the microdistricts are exactly the digit runs of the microdistrict keys, each a non-empty digit string |
| Geocode.IsInAtyrau | tools/geocode-streets.js:114-117 | the bounding box: latitude in [46.9, 47.3] and longitude in [51.7, 52.2] |
| Geocode.FirstInBox | tools/geocode-streets.js:135-144 | the answer of the first query whose answer lies in the box; none only when no answer lies in the box |
| Geocode.TryVariants | tools/geocode-streets.js:135-144 | the variant loop stops at the first answer inside the box and yields it, or none |
| Geocode.Lookup | tools/geocode-streets.js:129-163 | 2GIS first, Nominatim only when 2GIS found nothing in the box; any result lies in the box |
| Geocode.StreetLookup | tools/geocode-streets.js:127-163 | the lookup of a named street with its 2GIS and Nominatim query variants |
| Geocode.DgisQueries | tools/geocode-streets.js:130-134 | the three 2GIS query variants of a named street, in the order they are tried; `Geocode.GeocodeBatch` states that a new entry is the lookup through them |
| Geocode.NominatimQueries | tools/geocode-streets.js:148-152 | the three Nominatim fallback variants of a named street, in order |
| Geocode.MicroLookup | tools/geocode-streets.js:180-213 | the lookup of a microdistrict with its 2GIS and Nominatim query variants |
| Geocode.DgisMicroQueries | tools/geocode-streets.js:183-186 | the two 2GIS query variants of a microdistrict, in order |
| Geocode.NominatimMicroQueries | tools/geocode-streets.js:200-203 | the two Nominatim fallback variants of a microdistrict, in order |
| Geocode.GeocodeOne | tools/geocode-streets.js:127-163 | the lookup of one name, as the two variant loops perform it |
| Geocode.GeocodeBatch | tools/geocode-streets.js:124-173 | the three counters add up to the number of names; cached entries are kept; a new entry is in the box and is the lookup of its name; an uncached name is stored exactly when its lookup finds something; with no name twice, `fromCache` is the number of names cached beforehand and `notFound` the number of uncached names whose lookup found nothing |
| Geocode.BatchInv | tools/geocode-streets.js:124-173 | the loop invariant after `i` names: counters, cache growth, kept entries, justified new entries, settled names and the two counts |
| Geocode.BatchStep | tools/geocode-streets.js:124-173 | one turn of the loop moves the invariant from `i` names to `i + 1` |
| Geocode.GeocodeItem | tools/geocode-streets.js:125-172 | one name raises exactly one counter: `fromCache` when its key is cached, otherwise `found` or `notFound` as its lookup finds something or not; only a found name adds an entry |
| Geocode.BatchDone | tools/geocode-streets.js:124-173 | the invariant after the last name gives every promise of `Geocode.GeocodeBatch` |
| Geocode.NoRepeats | tools/geocode-streets.js:94-102 | a list of names with no name twice, as the named streets, the keys of the tally, always are |
| Geocode.CachedCount | tools/geocode-streets.js:125 | the number of names whose key was cached before the loop, never more than the names |
| Geocode.MissingCount | tools/geocode-streets.js:169-172 | the number of uncached names whose lookup found nothing, never more than the names |
| Geocode.CountersAgree | tools/geocode-streets.js:125-172 | with no name twice, `fromCache` and `notFound` are the counts over the names handled so far |
| Geocode.CountersStep | tools/geocode-streets.js:125-172 | handling one more name keeps the counters equal to the counts |
| Geocode.CachedBefore | tools/geocode-streets.js:125 | with no name twice, a key the loop finds cached was cached before it began |
| Geocode.CountsAgreeOn | tools/geocode-streets.js:125-172 | the counts depend only on which of the names' keys are cached |
| Geocode.SkipCached | tools/geocode-streets.js:125 | a name already cached keeps every entry justified and every earlier name settled |
| Geocode.StoreFound | tools/geocode-streets.js:165-167 | storing the in-box answer of an uncached name keeps the old entries, justifies the new one and settles the name |
| Geocode.SkipMissing | tools/geocode-streets.js:169-172 | an uncached name whose lookup found nothing is settled as absent |
| Geocode.MicroKey | tools/geocode-streets.js:177 | the cache key `MICRO_${num}`; its injectivity is `Geocode.MicroKeyInjective` |
| Geocode.MicroKeyInjective | tools/geocode-streets.js:177 | different microdistrict numbers get different `MICRO_` keys |
| Geocode.GeocodeAll | tools/geocode-streets.js:120-222 | found + fromCache + notFound is the number of names; the cache grows by found; cached entries are unchanged; every new entry is in the box and is the lookup of a named street or of a microdistrict under its `MICRO_` key; uncached names found are stored and names not found are not; with no name twice and no street named like a `MICRO_` key, `fromCache` and `notFound` are the sums of the counts of the two batches against the starting cache |
| Geocode.AllCounters | tools/geocode-streets.js:120-222 | the two batches' counters add up to the counts against the starting cache, since the first batch adds only street-name keys |
| Geocode.Dedup | tools/geocode-streets.js:269 | `[...new Set(nums)]` has no repeats and the same members |
| Geocode.UpdateGenerator | tools/geocode-streets.js:237-274 | the street entries are the named streets with coordinates followed by the alias entries; the microdistrict entries follow the deduplicated numbers in ascending numeric order |
| Geocode.NamedEntries | tools/geocode-streets.js:238-244 | one entry per named street with coordinates, in order; stated by `Geocode.NamedEntriesFacts` |
| Geocode.AliasEntries | tools/geocode-streets.js:257-263 | one entry per alias whose main name has coordinates and which has none itself; stated by `Geocode.AliasEntriesFacts` |
| Geocode.MicroEntries | tools/geocode-streets.js:269-274 | one entry per number with `MICRO_` coordinates, in order; stated by `Geocode.MicroEntriesFacts` |
| Geocode.MicroOrder | tools/geocode-streets.js:269 | the deduplicated numbers sorted by their `parseInt` value, stably |
| Geocode.ParseInt | tools/geocode-streets.js:269 | `parseInt` on a string of leading digits: their decimal value |
| Geocode.NamedEntriesFacts | tools/geocode-streets.js:238-244 | a named entry is exactly a named street with coordinates, carrying them |
| Geocode.AliasEntriesFacts | tools/geocode-streets.js:257-263 | an alias entry exists exactly for a pair whose main name has coordinates and whose alias has none, with the main name's coordinates |
| Geocode.AliasNamesDistinct | tools/geocode-streets.js:247-256 | no alias is listed twice |
| Geocode.NamedEntriesDistinct | tools/geocode-streets.js:238-244 | distinct named streets give distinct entries |
| Geocode.AliasEntriesDistinct | tools/geocode-streets.js:257-263 | distinct aliases give distinct entries |
| Geocode.StreetEntriesDistinct | tools/geocode-streets.js:237-265 | the emitted street table names no street twice |
| Geocode.MicroEntriesFacts | tools/geocode-streets.js:269-274 | each microdistrict with coordinates appears exactly once, with the coordinates of its `MICRO_` key, in ascending numeric order |
| Geocode.MicroEntriesMembers | tools/geocode-streets.js:269-274 | an entry is exactly a listed number with coordinates |
| Geocode.MicroEntriesDistinct | tools/geocode-streets.js:269-274 | distinct numbers give distinct entries |
| Geocode.MicroEntriesOrdered | tools/geocode-streets.js:269-274 | ascending numbers give ascending entries |
| Osm.StreetOf | tools/fetch-osm-streets.js:28-33 | an entry holds the center, the original name, and `name:ru` exactly when it is present and non-empty |
| Osm.Collect | tools/fetch-osm-streets.js:22-38 | the loop builds the first-wins record and reports its size |
| Osm.Qualifies | tools/fetch-osm-streets.js:25 | an element counts when it has tags, a non-empty name and a center |
| Osm.NameKey | tools/fetch-osm-streets.js:26 | the record key is the upper-cased name |
| Osm.Streets | tools/fetch-osm-streets.js:24-35 | the first-wins record of the qualifying elements; its keys and entries are stated by `Osm.StreetsKeys` and `Osm.StreetsFirstWins` |
| Osm.StreetsKeys | tools/fetch-osm-streets.js:24-38 | the keys are exactly the upper-cased names of elements with tags, a name and a center, so the count is the number of distinct such names |
| Osm.QualifyingNamesStep | tools/fetch-osm-streets.js:24-38 | one more element adds its upper-cased name exactly when it has tags, a name and a center |
| Osm.StreetsFirstWins | tools/fetch-osm-streets.js:26-35 | every entry comes from the first qualifying element with its key |
| Osm.FirstWinsAt | tools/fetch-osm-streets.js:26-35 | the same, for one key |
| Osm.FirstWithExtends | tools/fetch-osm-streets.js:27 | a first occurrence stays first when elements follow |
| Osm.FirstWithLast | tools/fetch-osm-streets.js:27 | an element whose key no earlier element had is the first with it |

## Left out

- Firebase: the real-time subscription, the cloud `set` and `remove`, and the SDK initialisation are foreign-library calls. The cloud branch of a save or delete is recorded as an outgoing write and leaves the local collection alone. The seed is modelled only as the batch `SeedBatch` builds.
- localStorage and JSON: the persisted value is an abstract blob. `Store.Parse` inverts `Store.Stringify`; any other stored text counts as unparseable.
- Leaflet and the DOM: markers, cluster layers and DOM text are plain objects, sequences and maps. Icons, tile layers, zoom controls, map resizing and `setTimeout` are not modelled.
- Store.PointStore.constructor: the deferred `setTimeout(_notifyListeners, 0)` of the local branch (js/data.js:209) is not modelled; the first notification happens only on a later save or delete.
- HTTP, `sleep`, `process.exit`, `execSync`, the API-key check and the Overpass request are left out. Each geocoding service is a function from query to first result. A request that fails counts as no result, as the script's `catch` does.
- Floating point: coordinates are Dafny reals. `Math.round` is modelled on reals. `toFixed`, `padEnd` and the printed percentages are output formatting and are not modelled.
- `Math.random`: the jitter draws are a parameter, a pair of draws in [0, 1) per record.
- File reads and writes, and the regular-expression rewrite of the generator's source: the script's inputs are passed in as texts or sequences, and `Geocode.UpdateGenerator` returns the entries it would write.
- `localeCompare` ordering of the OpenStreetMap listing and its console print: locale-dependent output only.
- js/photos.js: the photo lists are constants inside the default points.
- Prototype lookups: `STREETS[key]`, `cache[key]`, `I18N[saved]` (js/i18n.js:95) and `I18N[currentLang][key]` (js/i18n.js:89) are modelled as key membership. A name such as "constructor" would find an inherited property in JavaScript; a saved language "constructor" would be adopted by the page, which `I18n.InitialLang` rules out.
- Text.ToUpper: covers ASCII, Latin-1 apart from "ÿ", "µ" and "ß", and Russian and Kazakh Cyrillic. Other scripts are left unchanged, and mappings that change the length are not modelled.
- Geocode.ParseInt: reads the leading digits only, with 0 when there are none. The sorted values are always digit runs (`Geocode.PartitionFacts`), so the `NaN` of `parseInt` never arises.
- View.Ui.OpenModal: requires a category of `CATEGORIES`; the source throws on any other.
- View.MapView.SetFilter: requires a category of `CATEGORIES`, as every filter checkbox names one.
- View.UpdateStats: the counter of a category outside the three becomes `NaN` in JavaScript and is never shown; the model does not keep it.
- Analyze.IntendedAgreesWithGenerator: takes `CrimeTables.STREETS.Keys` as the known set, assuming it equals the names the analysis extracts from the generator's table text; that source text is not modelled, so the equality is not proved.
- Geocode.GeocodeAll: the split of the count between `fromCache` and `notFound` is stated only when no name repeats. The microdistrict numbers can repeat, since "5" and "№ 5" both give "5". A repeated number is counted again, as from-cache when its first lookup stored it and as not-found otherwise; the count functions do not follow that.
- Strings: JavaScript strings are sequences of UTF-16 code units, a Dafny `string` is a sequence of Unicode scalar values. The two agree on the Cyrillic, Latin and punctuation characters of the tables and the register, which lie in the Basic Multilingual Plane; surrogate pairs and unpaired surrogates are not modelled.
- View.Ui.CloseLightbox: removes the first open lightbox, as `getElementById` finds the first element with that id.

## Findings

| source | as written | input that shows it | evidently intended | confidence | as-written member | corrected member |
|---|---|---|---|---|---|---|
| tools/analyze-streets.js:34 | the microdistrict regex starts with the bytes of "№" decoded as Windows-1252 ("â„–"), so only bare digit strings count as microdistricts | the street "№5": the generator maps it as microdistrict 5, the analysis reports it unmapped | the generator's `/^(№\s*)?\d+$/` | not executed | Analyze.NumberSignCounterexample | Analyze.IntendedAgreesWithGenerator |
