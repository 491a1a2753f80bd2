/**
 * The bundled data set `DEFAULT_POINTS` of js/data.js: seven abandoned
 * buildings and five unlit streets. The local backend starts from it when
 * nothing usable is stored; the cloud backend seeds an empty database with it.
 */
module Defaults {

  import opened Points

  const DEFAULT_POINTS: seq<Point> := [
    Point(1, 47.1170, 51.9200, "abandoned",
          "Заброшенное здание — Гагарин 84",
          "Тастанды ғимарат — Гагарин 84",
          "ул. Гагарина, 84", "Гагарин к., 84",
          "Заброшенное здание на улице Гагарина, 84. Здание не эксплуатируется, представляет угрозу безопасности.",
          "Гагарин көшесі, 84 мекен-жайындағы тастанды ғимарат. Ғимарат пайдаланылмайды, қауіпсіздікке қатер төндіреді.",
          ["photo/Заброшка - Гагарин 84.jpg"]),
    Point(2, 47.1050, 51.9280, "abandoned",
          "Заброшенное здание — ул. Досым Есенов",
          "Тастанды ғимарат — Досым Есенов к.",
          "ул. Досым Есенов", "Досым Есенов көшесі",
          "Заброшенное строение на улице Досым Есенов. Территория не огорожена.",
          "Досым Есенов көшесіндегі тастанды құрылыс. Аумақ қоршалмаған.",
          ["photo/Заброшка - Досым Есенов улица.jpg"]),
    Point(3, 47.1100, 51.9150, "abandoned",
          "Заброшенное здание — Исатаев 46",
          "Тастанды ғимарат — Исатаев 46",
          "ул. Исатаева, 46", "Исатаев к., 46",
          "Заброшенное здание по адресу Исатаев 46. Здание в аварийном состоянии.",
          "Исатаев 46 мекен-жайындағы тастанды ғимарат. Ғимарат апатты жағдайда.",
          ["photo/Заброшка - Исатаев 46.jpg"]),
    Point(4, 47.1090, 51.9135, "abandoned",
          "Заброшенное здание — Исатаев 59",
          "Тастанды ғимарат — Исатаев 59",
          "ул. Исатаева, 59", "Исатаев к., 59",
          "Заброшенное строение по адресу Исатаев 59.",
          "Исатаев 59 мекен-жайындағы тастанды құрылыс.",
          ["photo/Заброшка - Исатаев 59.jpg"]),
    Point(5, 47.0990, 51.9320, "abandoned",
          "Заброшенный гараж — проезд Каспий",
          "Тастанды гараж — Каспий өткелі",
          "Проезд Каспий, гараж", "Каспий өткелі, гараж",
          "Заброшенный гараж на проезде Каспий. Территория захламлена.",
          "Каспий өткеліндегі тастанды гараж. Аумақ қоқыстарға толы.",
          ["photo/Заброшка - Проезд Каспий гараж.jpg"]),
    Point(6, 47.1020, 51.9070, "abandoned",
          "Заброшенные гаражи — Сырым Датов 106",
          "Тастанды гараждар — Сырым Датов 106",
          "ул. Сырым Датова, 106", "Сырым Датов к., 106",
          "Заброшенные гаражи по адресу Сырым Датов 106. Не охраняются.",
          "Сырым Датов 106 мекен-жайындағы тастанды гараждар. Қорғалмайды.",
          ["photo/Заброшка - Сырым Датов 106 гараж.jpg"]),
    Point(7, 47.1035, 51.9090, "abandoned",
          "Заброшенные гаражи — Сырым Датов 66",
          "Тастанды гараждар — Сырым Датов 66",
          "ул. Сырым Датова, 66", "Сырым Датов к., 66",
          "Заброшенные гаражи по адресу Сырым Датов 66.",
          "Сырым Датов 66 мекен-жайындағы тастанды гараждар.",
          ["photo/Заброшка - Сырым Датов 66, гаражы.jpg"]),
    Point(8, 47.1130, 51.9250, "unlit",
          "Неосвещённая улица — Александр",
          "Жарықтандырылмаған көше — Александр",
          "ул. Александр", "Александр көшесі",
          "Улица Александр без уличного освещения. Опасна в тёмное время суток.",
          "Көше жарығынсыз Александр көшесі. Қараңғы уақытта қауіпті.",
          ["photo/Свет - Александр улица.jpg"]),
    Point(9, 47.1070, 51.9190, "unlit",
          "Неосвещённая улица — Есет би",
          "Жарықтандырылмаған көше — Есет би",
          "ул. Есет би", "Есет би көшесі",
          "Улица Есет би — отсутствует уличное освещение на значительном участке.",
          "Есет би көшесі — айтарлықтай бөлігінде көше жарығы жоқ.",
          ["photo/Свет - Есет би улица.jpg"]),
    Point(10, 47.1150, 51.9310, "unlit",
          "Неосвещённая улица — Керейхан",
          "Жарықтандырылмаған көше — Керейхан",
          "ул. Керейхан", "Керейхан көшесі",
          "Улица Керейхан — фонари не работают или отсутствуют.",
          "Керейхан көшесі — фонарьлар жұмыс істемейді немесе жоқ.",
          ["photo/Свет - Керейхан улица.jpg"]),
    Point(11, 47.1060, 51.9350, "unlit",
          "Неосвещённая улица — Николай Гоголя",
          "Жарықтандырылмаған көше — Николай Гоголь",
          "ул. Николай Гоголя", "Николай Гоголь көшесі",
          "Улица Николай Гоголя без освещения.",
          "Жарықтандырусыз Николай Гоголь көшесі.",
          ["photo/Свет - Николай Гоголя.jpg"]),
    Point(12, 47.1115, 51.9100, "unlit",
          "Неосвещённая улица — Темирханова",
          "Жарықтандырылмаған көше — Темірханов",
          "ул. Темирханова", "Темірханов көшесі",
          "Улица Темирханова — уличное освещение отсутствует.",
          "Темірханов көшесі — көше жарығы жоқ.",
          ["photo/Свет -Темирханова улица.jpg"])
  ]
}
