/**
 * js/i18n.js: the two translation dictionaries, the lookup `t`, the
 * language chosen at start-up and `setLanguage`, which records the language
 * and rewrites the page's translatable texts and language buttons.
 */
module I18n {

  import opened Wrappers

  /** `I18N.ru`. */
  const RU: map<string, string> := map[
      "title" := "Цифровая карта прокуратуры города Атырау",
      "subtitle" := "Мониторинг безопасности городской среды",
      "mobile_title" := "Карта прокуратуры г. Атырау",
      "categories" := "Категории",
      "cat_blind" := "Слепые зоны (нет камер)",
      "cat_abandoned" := "Заброшенные здания",
      "cat_unlit" := "Неосвещённые улицы",
      "statistics" := "Статистика",
      "stat_blind" := "Слепые зоны:",
      "stat_abandoned" := "Заброшенные здания:",
      "stat_unlit" := "Неосвещённые улицы:",
      "stat_total" := "Всего точек:",
      "footer_hint" := "Нажмите на точку для подробной информации",
      "badge_blind" := "Слепая зона",
      "badge_abandoned" := "Заброшенное здание",
      "badge_unlit" := "Неосвещённая улица"
    ]

  /** `I18N.kz`. */
  const KZ: map<string, string> := map[
      "title" := "Атырау қаласы прокуратурасының цифрлік картасы",
      "subtitle" := "Қала ортасының қауіпсіздігін бақылау",
      "mobile_title" := "Атырау қ. прокуратура картасы",
      "categories" := "Санаттар",
      "cat_blind" := "Соқыр аймақтар (камера жоқ)",
      "cat_abandoned" := "Тастанды ғимараттар",
      "cat_unlit" := "Жарықтандырылмаған көшелер",
      "statistics" := "Статистика",
      "stat_blind" := "Соқыр аймақтар:",
      "stat_abandoned" := "Тастанды ғимараттар:",
      "stat_unlit" := "Жарықтандырылмаған көшелер:",
      "stat_total" := "Барлық нүктелер:",
      "footer_hint" := "Толық ақпарат алу үшін нүктені басыңыз",
      "badge_blind" := "Соқыр аймақ",
      "badge_abandoned" := "Тастанды ғимарат",
      "badge_unlit" := "Жарықтандырылмаған көше"
    ]

  /** `I18N`: the dictionaries by language code. */
  const I18N: map<string, map<string, string>> := map["ru" := RU, "kz" := KZ]

  /** `I18N[lang] && I18N[lang][key]` is truthy: a non-empty translation exists. */
  predicate HasText(lang: string, key: string)
  {
    lang in I18N && key in I18N[lang] && I18N[lang][key] != ""
  }

  /** `t(key)` while `currentLang` is `lang`: the non-empty translation when
      there is one, otherwise the key itself. */
  function T(key: string, lang: string): (r: string)
    ensures HasText(lang, key) ==> r == I18N[lang][key]
    ensures !HasText(lang, key) ==> r == key
  {
    if HasText(lang, key) then I18N[lang][key] else key
  }

  /** The fallback to the key means `t` never blanks a label: a non-empty
      key never shows as "", and anything other than the key itself is a
      text of that language's dictionary. */
  lemma TNeverBlank(key: string, lang: string)
    ensures key != "" ==> T(key, lang) != ""
    ensures T(key, lang) != key ==> lang in I18N && T(key, lang) in I18N[lang].Values
  {
    if HasText(lang, key) {
      assert I18N[lang][key] in I18N[lang].Values;
    }
  }

  /** A language that names no dictionary leaves every key untranslated. */
  lemma UnknownLanguageShowsKeys(key: string, lang: string)
    requires lang != "ru" && lang != "kz"
    ensures T(key, lang) == key
  {
  }

  /** Both dictionaries define the same keys, each with a non-empty text, so
      `t` translates a key in one language exactly when it does in the other. */
  lemma DictionariesAgree()
    ensures RU.Keys == KZ.Keys
    ensures forall k :: k in RU ==> RU[k] != "" && KZ[k] != ""
    ensures forall k :: HasText("ru", k) <==> HasText("kz", k)
  {
  }

  /** The start-up language: the saved value if it names a dictionary,
      otherwise "ru". It always names a dictionary. */
  function InitialLang(saved: Option<string>): (lang: string)
    ensures lang in I18N
    ensures saved.Some? && saved.value in I18N ==> lang == saved.value
    ensures saved.None? || saved.value !in I18N ==> lang == "ru"
  {
    if saved.Some? && saved.value != "" && saved.value in I18N then saved.value else "ru"
  }

  /** An element carrying `data-i18n="key"` and its current text. */
  datatype Element = Element(key: string, text: string)

  /** A `.lang-btn` with its `data-lang` and whether it has class `active`. */
  datatype LangButton = LangButton(lang: string, active: bool)

  /** The page state `setLanguage` touches. */
  class Page {
    /** `currentLang`. */
    var currentLang: string
    /** `localStorage["atyrau-map-lang"]`. */
    var savedLang: Option<string>
    var elements: seq<Element>
    var buttons: seq<LangButton>
    /** `document.title`. */
    var docTitle: string
    /** `document.documentElement.lang`. */
    var htmlLang: string

    /** Loading i18n.js: `currentLang` starts as "ru" and the start-up
        function adopts the saved language when it names a dictionary. */
    constructor (saved: Option<string>, els: seq<Element>, btns: seq<LangButton>, title: string, html: string)
      ensures currentLang == InitialLang(saved) && savedLang == saved
      ensures elements == els && buttons == btns && docTitle == title && htmlLang == html
    {
      currentLang := "ru";
      savedLang := saved;
      elements := els;
      buttons := btns;
      docTitle := title;
      htmlLang := html;
      if saved.Some? && saved.value != "" && saved.value in I18N {
        currentLang := saved.value;
      }
    }

    /** `setLanguage(lang)`: record and persist `lang` (even one without a
        dictionary), overwrite each element's text only when its key has a
        non-empty translation in `lang`, set the document title and `lang`
        attribute, and mark exactly the buttons for `lang` active. */
    method SetLanguage(lang: string)
      modifies this
      ensures currentLang == lang && savedLang == Some(lang)
      ensures |elements| == |old(elements)|
      ensures forall i :: 0 <= i < |elements| ==>
                && elements[i].key == old(elements[i].key)
                && elements[i].text == (if HasText(lang, elements[i].key) then I18N[lang][elements[i].key]
                                        else old(elements[i].text))
      ensures |buttons| == |old(buttons)|
      ensures forall i :: 0 <= i < |buttons| ==>
                buttons[i].lang == old(buttons[i].lang) && (buttons[i].active <==> buttons[i].lang == lang)
      ensures docTitle == (if lang == "ru" then "Цифровая карта прокуратуры г. Атырау"
                           else "Атырау қ. прокуратурасының цифрлік картасы")
      ensures htmlLang == (if lang == "ru" then "ru" else "kk")
    {
      var els := TranslateAll(elements, lang);
      var btns := Activate(buttons, lang);
      currentLang := lang;
      savedLang := Some(lang);
      elements := els;
      docTitle := if lang == "ru" then "Цифровая карта прокуратуры г. Атырау"
                  else "Атырау қ. прокуратурасының цифрлік картасы";
      htmlLang := if lang == "ru" then "ru" else "kk";
      buttons := btns;
    }

    /** The `[data-i18n]` loop: each element whose key has a non-empty
        translation in `lang` gets it; the others keep their text. */
    static method TranslateAll(els: seq<Element>, lang: string) returns (r: seq<Element>)
      ensures |r| == |els|
      ensures forall i :: 0 <= i < |r| ==>
                && r[i].key == els[i].key
                && r[i].text == (if HasText(lang, els[i].key) then I18N[lang][els[i].key] else els[i].text)
    {
      r := els;
      var i := 0;
      while i < |r|
        invariant 0 <= i <= |r| == |els|
        invariant forall j :: 0 <= j < |r| ==> r[j].key == els[j].key
        invariant forall j :: 0 <= j < i ==>
                    r[j].text == (if HasText(lang, els[j].key) then I18N[lang][els[j].key] else els[j].text)
        invariant forall j :: i <= j < |r| ==> r[j] == els[j]
      {
        var key := r[i].key;
        if HasText(lang, key) {
          r := r[i := Element(key, I18N[lang][key])];
        }
        i := i + 1;
      }
    }

    /** The `.lang-btn` loop: exactly the buttons for `lang` become active. */
    static method Activate(btns: seq<LangButton>, lang: string) returns (r: seq<LangButton>)
      ensures |r| == |btns|
      ensures forall i :: 0 <= i < |r| ==> r[i].lang == btns[i].lang && (r[i].active <==> r[i].lang == lang)
    {
      r := btns;
      var b := 0;
      while b < |r|
        invariant 0 <= b <= |r| == |btns|
        invariant forall j :: 0 <= j < |r| ==> r[j].lang == btns[j].lang
        invariant forall j :: 0 <= j < b ==> (r[j].active <==> r[j].lang == lang)
      {
        r := r[b := LangButton(r[b].lang, r[b].lang == lang)];
        b := b + 1;
      }
    }

    /** `t(key)` under the page's current language: never "" for a
        non-empty key, and either the key or a text of the current
        language's dictionary. */
    function Translate(key: string): (r: string)
      reads this
      ensures HasText(currentLang, key) ==> r == I18N[currentLang][key]
      ensures !HasText(currentLang, key) ==> r == key
      ensures key != "" ==> r != ""
      ensures r != key ==> currentLang in I18N && r in I18N[currentLang].Values
    {
      TNeverBlank(key, currentLang);
      T(key, currentLang)
    }
  }
}
