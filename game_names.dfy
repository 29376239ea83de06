/**
 * The statistics page's display name for a game code (LinksStats,
 * `getGameName`): a three-entry table with the code itself as fallback.
 */
module LinksStats {

  /** The table `games`; its values are all non-empty, so `games[name] || name` is a plain lookup. */
  const Games: map<string, string> := map[
    "fire" := "Пожар",
    "flood" := "Наводнение",
    "earthquake" := "Землетрясение"
  ]

  /** `games[name] || name`: a missing key, or a falsy (empty) value, falls back to the code. */
  function GameName(name: string): (r: string)
    ensures name == "fire" ==> r == "Пожар"
    ensures name == "flood" ==> r == "Наводнение"
    ensures name == "earthquake" ==> r == "Землетрясение"
    ensures name != "fire" && name != "flood" && name != "earthquake" ==> r == name
    ensures r == "" <==> name == ""
  {
    if name in Games && Games[name] != "" then Games[name] else name
  }
}
