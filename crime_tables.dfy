/**
 * The coordinate tables of tools/generate-crimes.js: the city centre, the
 * hand-made street table keyed by upper-cased street name and the
 * approximate centres of the numbered microdistricts.
 */
module CrimeTables {

  import opened Points

  /** `CENTER`, the fallback position. */
  const CENTER: Coord := Coord(47.1067, 51.9203)

  /** `STREETS`. */
  const STREETS: map<string, Coord> := map[
    "НАБЕРЕЖНАЯ" := Coord(47.1055, 51.9250),
    "АБАЙ" := Coord(47.1080, 51.9180),
    "АБАЙ ҚҰНАНБАЕВ" := Coord(47.1080, 51.9180),
    "АЗАТТЫҚ" := Coord(47.1100, 51.9100),
    "АЗАТТЫК" := Coord(47.1100, 51.9100),
    "МАХАМБЕТ ӨТЕМІСҰЛЫ" := Coord(47.1040, 51.9160),
    "МҰСА БАЙМҰХАНОВ" := Coord(47.1060, 51.9190),
    "ҚҰРМАНҒАЗЫ" := Coord(47.1045, 51.9280),
    "СЫРЫМ ДАТОВ" := Coord(47.1075, 51.9220),
    "ИСАТАЙ" := Coord(47.1085, 51.9150),
    "ДОСТЫҚ" := Coord(47.1070, 51.9300),
    "ЖАСТАР" := Coord(47.1095, 51.9130),
    "КӨКТЕМ" := Coord(47.1110, 51.9080),
    "ОРТАЛЫҚ" := Coord(47.1065, 51.9210),
    "СОЛТҮСТІК" := Coord(47.1120, 51.9050),
    "СТУДЕНТТЕР" := Coord(47.1090, 51.9240),
    "ДМИТРИЙ МЕНДЕЛЕЕВ" := Coord(47.1050, 51.9170),
    "ГЕОРГИЙ КАНЦЕВ" := Coord(47.1035, 51.9200),
    "АДМИРАЛ ЛЕВ ВЛАДИМИРСКИЙ" := Coord(47.1030, 51.9230),
    "ЮРИЙ ГАГАРИН" := Coord(47.1040, 51.9140),
    "РАБОЧАЯ" := Coord(47.1120, 51.9110),
    "АЛМАТЫ" := Coord(47.1075, 51.9260),
    "САРЫАРҚА" := Coord(47.1060, 51.9320),
    "БОЛАШАҚ" := Coord(47.1050, 51.9340),
    "НҰРСАЯ" := Coord(47.0960, 51.9480),
    "ҚАНЫШ СӘТБАЕВ" := Coord(47.1000, 51.9380),
    "АҒИДОЛЛА НҰҒЫМАНОВ" := Coord(47.0950, 51.9420),
    "ШӘЛИ ЕРКЕШОВ" := Coord(47.0940, 51.9450),
    "БЕЙІМБЕТ МАЙЛИН" := Coord(47.0970, 51.9400),
    "КУЛЯШ БАЙСЕИТОВОЙ" := Coord(47.0980, 51.9360),
    "ЖИЕМБЕТ" := Coord(47.0930, 51.9470),
    "НҰРҒИСА ТЛЕНДИЕВ" := Coord(47.0955, 51.9440),
    "ҚАЙЫРҒАЛИ СМАҒҰЛОВ" := Coord(47.0945, 51.9410),
    "ҚАРШЫҒА АХМЕДЬЯРОВ" := Coord(47.0965, 51.9460),
    "МИРАС" := Coord(47.0920, 51.9490),
    "МАРАТ ТЕМІРХАНОВ" := Coord(47.0935, 51.9430),
    "САДОВАЯ" := Coord(47.0850, 51.9350),
    "ГРУШЕВАЯ" := Coord(47.0820, 51.9400),
    "КЛУБНИЧНЫЙ" := Coord(47.0830, 51.9430),
    "КРЫЖОВНИКОВА" := Coord(47.0810, 51.9380),
    "ПРИДОРОЖНАЯ" := Coord(47.0870, 51.9450),
    "ЗОНА ОТДЫХА" := Coord(47.0880, 51.9500),
    "ТУПИКОВАЯ" := Coord(47.0860, 51.9470),
    "БЕЙБАРЫС" := Coord(47.0750, 51.9320),
    "С.БЕЙБАРЫС" := Coord(47.0750, 51.9320),
    "БЕРЕКЕ" := Coord(47.0780, 51.9360),
    "АЛМАГҮЛ" := Coord(47.0800, 51.9300),
    "АЛМАГҮЛ МӨЛТЕК АУДАНЫ" := Coord(47.0800, 51.9300),
    "АҚ ШАҒАЛА" := Coord(47.0790, 51.9280),
    "МОЛШЫЛЫҚ" := Coord(47.0840, 51.9340),
    "МҰНАЙШЫ" := Coord(47.0760, 51.9260),
    "АТЫРАУ" := Coord(47.0770, 51.9290),
    "ХИМИК АТЫРАУ" := Coord(47.0730, 51.9240),
    "ҒАРЫШКЕР" := Coord(47.0850, 51.9280),
    "АВАНГАРД-3" := Coord(47.0930, 51.8850),
    "АВАНГАРД-2" := Coord(47.0960, 51.8880),
    "АВАНГАРД -2" := Coord(47.0960, 51.8880),
    "АВАНГАРД" := Coord(47.0945, 51.8865),
    "ВОКЗАЛ МАҢЫ-3А" := Coord(47.1180, 51.9200),
    "ВОКЗАЛ МАҢЫ - 5" := Coord(47.1170, 51.9220),
    "ПРИВОКЗАЛЬНЫЙ" := Coord(47.1190, 51.9190),
    "СТРОЙКОНТОР" := Coord(47.1160, 51.9160),
    "ПРИУРАЛЬНАЯ" := Coord(47.1140, 51.9130),
    "ТАМПОНАЖНИК" := Coord(47.1150, 51.9140),
    "ФЕРМА" := Coord(47.1130, 51.9120),
    "ӨРКЕН" := Coord(47.0990, 51.9100),
    "ОРКЕН" := Coord(47.0990, 51.9100),
    "ЖУБАН МОЛДАГАЛИЕВ" := Coord(47.1030, 51.9130),
    "УӘЛИ ЖАЙЫҚОВ" := Coord(47.1055, 51.9140),
    "ЖОЛДАСҚАЛИ ДОСМҰХАМБЕТОВ" := Coord(47.1045, 51.9120),
    "ОРЫНГАЛИ СМАГУЛОВ" := Coord(47.1035, 51.9180),
    "АЙЖАРҚЫН ӘЛІШЕВА" := Coord(47.1025, 51.9170),
    "ӨРЕКЕШЕВ СӘРСЕН" := Coord(47.1015, 51.9160),
    "СӘЛІМГЕРЕЙ СӘБЕТОВ" := Coord(47.1005, 51.9150),
    "АКАДЕМИК БИНЕШ ЖАРБОСЫНОВ" := Coord(47.0995, 51.9140),
    "ҒАББАС БЕРГАЛИЕВ" := Coord(47.0985, 51.9130),
    "ЖҰМЕКЕН НӘЖІМЕДЕНОВ" := Coord(47.0975, 51.9120),
    "МУХАН НҰРМАНОВ" := Coord(47.0965, 51.9110),
    "ҒИНАЯТ ӘБДІРАХМАНОВ" := Coord(47.0955, 51.9100),
    "СӘТҚҰЛ БЕКЖАНОВ" := Coord(47.0945, 51.9090),
    "ҚҰРЫЛЫСШЫЛАР" := Coord(47.0935, 51.9080),
    "ІБАТОЛЛА ШЕКЕНОВ" := Coord(47.1015, 51.9250),
    "ИБАТОЛЛА ШЕКЕНОВ" := Coord(47.1015, 51.9250),
    "АРОН АЮПОВ" := Coord(47.1020, 51.9100),
    "АНУАРБЕК АККУЛОВ" := Coord(47.1010, 51.9090),
    "ҚАДІРӘЛІ БАЛМАНОВ" := Coord(47.1000, 51.9310),
    "ӘЖІҒАЛИ ЖАҚСЫБАЕВ" := Coord(47.0990, 51.9340),
    "ӘУБЕКЕРОВ АСЫЛБЕК" := Coord(47.0980, 51.9330),
    "Ә.ӨМІРЗАҚОВА" := Coord(47.0970, 51.9320),
    "ӘБДІРЕШ ДӘУЛЕТОВ" := Coord(47.1025, 51.9270),
    "ШАЙХЫ ӘБІШЕВ" := Coord(47.1035, 51.9280),
    "АГАЙЫНДЫ ЖОЛАМАН МЕН ХАМЗА КАШАУОВТАР" := Coord(47.1025, 51.9150),
    "АТЫРАУ-ДОССОР" := Coord(47.1130, 51.9350),
    "АТЫРАУ ДОССОР" := Coord(47.1130, 51.9350),
    "ЗАРОСЛЫЙ" := Coord(47.1105, 51.9060),
    "ЖҰЛДЫЗ-3" := Coord(47.0920, 51.9050),
    "ЖИЛОЙ КОМПЛЕКС ГАУХАРТАС" := Coord(47.1050, 51.9350),
    "КЕҢӨЗЕК А.О" := Coord(47.0900, 51.9000),
    "ЖАЗЫКБАЕВ" := Coord(47.0910, 51.9020),
    "АМӨЗ АУМАҒЫНДАҒЫ ӨНДІРІС АЙМАҒЫ" := Coord(47.0850, 51.8900)
  ]

  /** `MICRODISTRICTS`, keyed by the microdistrict's number as written. */
  const MICRODISTRICTS: map<string, Coord> := map[
    "2" := Coord(47.1190, 51.9020),
    "3" := Coord(47.1160, 51.8980),
    "4" := Coord(47.1145, 51.9060),
    "5" := Coord(47.1180, 51.9150),
    "7" := Coord(47.1060, 51.9350),
    "8" := Coord(47.1030, 51.9390),
    "10" := Coord(47.0985, 51.9280),
    "11" := Coord(47.0960, 51.9220),
    "13" := Coord(47.0930, 51.9170),
    "14" := Coord(47.0900, 51.9100),
    "16" := Coord(47.0870, 51.9050),
    "18" := Coord(47.0840, 51.9000),
    "20" := Coord(47.0820, 51.8950),
    "21" := Coord(47.0800, 51.8900),
    "23" := Coord(47.0780, 51.8850),
    "24" := Coord(47.0950, 51.9320),
    "27" := Coord(47.0750, 51.9250),
    "30" := Coord(47.0730, 51.9200),
    "45" := Coord(47.0850, 51.9380),
    "290" := Coord(47.1010, 51.8920)
  ]
}
