/**
 * The fire-safety game's fixed catalog of five levels (FireGame.tsx,
 * `levels`) and the lookup `levels.find(level => level.id === n)`.
 *
 * Only what the handlers and the level's markup read is kept: ids, kinds,
 * the scene list, the category items, the quiz answers, the video id and
 * the kit items with their flags. Titles, descriptions, scene and question
 * texts, kit item names and image paths are display text and are left out.
 */
module FireCatalog {

  import opened Wrappers

  datatype LevelKind = Quiz | Interactive | DragNDrop | CategorySelect | Video | FirefighterKit

  /** One picture of an interactive level; its text and image are display-only. */
  datatype Scene = Scene

  datatype Item = Item(id: string, name: string, isHazardous: bool)

  /** A kit item; its display name and image are left out, no handler reads them. */
  datatype FirefighterItem = FirefighterItem(id: string, isCorrect: bool)

  /** A quiz question: how many options it offers and the index of the right one. */
  datatype Question = Question(optionCount: nat, correctAnswer: int)

  /** The optional parts of a level's `content`. */
  datatype Content = Content(
    scenes: Option<seq<Scene>>,
    items: Option<seq<Item>>,
    questions: Option<seq<Question>>,
    videoId: Option<string>,
    firefighterItems: Option<seq<FirefighterItem>>)

  datatype Level = Level(id: int, kind: LevelKind, content: Content, isCompleted: bool)

  const NoContent := Content(None, None, None, None, None)

  const CategoryItems: seq<Item> := [
    Item("matches", "Спички", true),
    Item("candle", "Свеча", true),
    Item("iron", "Утюг", true),
    Item("toy", "Игрушка", false),
    Item("book", "Книга", false)
  ]

  const QuizQuestions: seq<Question> := [
    Question(4, 1),
    Question(4, 1),
    Question(4, 2),
    Question(4, 1)
  ]

  const KitItems: seq<FirefighterItem> := [
    FirefighterItem("helmet", true),
    FirefighterItem("axe", true),
    FirefighterItem("hose", true),
    FirefighterItem("mask", true),
    FirefighterItem("gloves", true),
    FirefighterItem("umbrella", false),
    FirefighterItem("toy", false),
    FirefighterItem("book", false)
  ]

  const Levels: seq<Level> := [
    Level(1, Interactive, NoContent.(scenes := Some([Scene, Scene])), false),
    Level(2, CategorySelect, NoContent.(items := Some(CategoryItems)), false),
    Level(3, Quiz, NoContent.(questions := Some(QuizQuestions)), false),
    Level(4, Video, NoContent.(videoId := Some("cTpyJ8lQUZs")), false),
    Level(5, FirefighterKit, NoContent.(firefighterItems := Some(KitItems)), false)
  ]

  /** `levels.length`. */
  const LevelCount := 5

  /** `levels[i]` is the first level whose id is `id`. */
  ghost predicate FirstWithId(levels: seq<Level>, i: int, id: int)
  {
    0 <= i < |levels| && levels[i].id == id && forall j | 0 <= j < i :: levels[j].id != id
  }

  /** `levels.find(level => level.id === id)`. */
  function FindLevel(levels: seq<Level>, id: int): (r: Option<Level>)
    ensures r.None? <==> forall i | 0 <= i < |levels| :: levels[i].id != id
    ensures r.Some? ==> exists i :: FirstWithId(levels, i, id) && levels[i] == r.value
  {
    if levels == [] then None
    else if levels[0].id == id then
      assert FirstWithId(levels, 0, id);
      Some(levels[0])
    else
      var r := FindLevel(levels[1..], id);
      if r.Some? then
        assert exists i :: FirstWithId(levels, i, id) && levels[i] == r.value by {
          var i :| FirstWithId(levels[1..], i, id) && levels[1..][i] == r.value;
          assert FirstWithId(levels, i + 1, id);
        }
        r
      else
        assert forall i | 1 <= i < |levels| :: levels[i] == levels[1..][i - 1];
        r
  }

  /** In a list whose ids run `base`, `base + 1`, ... the level with id `id` sits at `id - base`. */
  lemma {:induction false} FindConsecutive(levels: seq<Level>, base: int, id: int)
    requires forall i | 0 <= i < |levels| :: levels[i].id == base + i
    ensures FindLevel(levels, id) ==
      if base <= id < base + |levels| then Some(levels[id - base]) else None
  {
    if levels != [] && levels[0].id != id {
      assert forall i | 0 <= i < |levels[1..]| :: levels[1..][i].id == (base + 1) + i;
      FindConsecutive(levels[1..], base + 1, id);
    }
  }

  /** The catalog's ids are 1 to 5 in order, so a level number finds its level exactly when it is in 1..5. */
  lemma CatalogLevel(n: int)
    ensures |Levels| == LevelCount
    ensures forall i | 0 <= i < |Levels| :: Levels[i].id == i + 1
    ensures FindLevel(Levels, n) == if 1 <= n <= |Levels| then Some(Levels[n - 1]) else None
  {
    FindConsecutive(Levels, 1, n);
  }

  /** Each kind of level occurs once in the catalog: 1 interactive, 2 category, 3 quiz, 4 video, 5 kit. */
  lemma LevelKinds(n: int)
    ensures var l := FindLevel(Levels, n);
      (l.Some? && l.value.kind == Interactive <==> n == 1) &&
      (l.Some? && l.value.kind == CategorySelect && l.value.content.items.Some? <==> n == 2) &&
      (l.Some? && l.value.kind == Quiz <==> n == 3) &&
      (l.Some? && l.value.kind == Video <==> n == 4) &&
      (l.Some? && l.value.kind == FirefighterKit <==> n == 5)
  {
    CatalogLevel(n);
  }

  /** The last level is the kit level, and its kit is `KitItems`. */
  lemma LastLevelKit()
    ensures var l := FindLevel(Levels, LevelCount);
      l.Some? && l.value.kind == FirefighterKit && l.value.content.firefighterItems == Some(KitItems)
  {
    CatalogLevel(LevelCount);
  }

  /** Only level 2 lists category items, only level 3 questions, only level 5 a kit, only level 1 scenes. */
  lemma LevelContents(n: int)
    ensures var l := FindLevel(Levels, n);
      (l.Some? && l.value.content.items.Some? ==> n == 2 && l.value.content.items.value == CategoryItems) &&
      (l.Some? && l.value.content.questions.Some? ==> n == 3 && l.value.content.questions.value == QuizQuestions) &&
      (l.Some? && l.value.content.firefighterItems.Some? ==> n == 5 && l.value.content.firefighterItems.value == KitItems) &&
      (l.Some? && l.value.content.scenes.Some? ==> n == 1 && |l.value.content.scenes.value| == 2)
  {
    CatalogLevel(n);
  }
}
