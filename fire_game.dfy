/**
 * The fire-safety game page (FireGame.tsx) as a state machine: one field
 * per piece of component state, one method per event handler, and the
 * page's effects (restore on mount, save on change, level initialisation)
 * as explicit steps run where React would run them.
 *
 * The network calls (check-link, register, finish) are inputs and outputs
 * of the methods; the 2000 ms timer of `completeLevelWithReward` is the
 * separate step `FinishLevelTransition`.
 */
module FireGame {

  import opened Wrappers
  import opened Text
  import opened FireCatalog
  import opened FireRules

  /** The access-link record the check-link request returns. */
  datatype UserData = UserData(
    id: string, code: string, userId: string, gameName: string,
    schoolNum: string, className: string, comment: string, createdAt: string)

  /** The body of `POST /game/register`. */
  datatype RegisterRequest = RegisterRequest(code: string, fullName: string)

  const RegistrationFailed := "Невозможно начать игру. Обратитесь в поддержку."
  const SaveFailed := "Не удалось сохранить результат. Попробуйте еще раз."
  const KitWrongMessage := "Неправильно! Проверь свой выбор еще раз."

  class FireGamePage {
    var gameState: GameState
    var userData: Option<UserData>
    var playerName: string
    var gameStarted: bool
    var currentScene: nat
    var showLevelComplete: bool
    var selectedItem: Option<Item>
    var showError: bool
    var errorMessage: string
    var selectedAnswers: Answers
    var showResults: bool
    var showGameComplete: bool
    var items: seq<Item>
    var hazardous: seq<Item>
    var safe: seq<Item>
    var selectedFirefighterItems: seq<FirefighterItem>
    var gamePlayer: Option<GamePlayer>
    var registrationError: Option<string>
    var saveError: Option<string>
    /** The finish request has been sent and its answer has not arrived. */
    var finishPending: bool
    /** `localStorage`. */
    var storage: Storage

    /**
     * The category bins hold distinct items of the level and the selection is
     * an unplaced item; the kit selection names each id once.
     */
    ghost predicate Valid()
      reads this
    {
      PlacementValid(items, hazardous, safe, selectedItem) &&
      NoDupIds(selectedFirefighterItems)
    }

    /**
     * The kit selection holds items of the kit level's catalog. Only the two
     * kit handlers change or read the selection, so only they carry this.
     */
    ghost predicate KitFromCatalog()
      reads this
    {
      forall x | x in selectedFirefighterItems :: x in KitItems
    }

    /** The level number names a level of the catalog. A restored record need not. */
    ghost predicate InCatalog()
      reads this
    {
      1 <= gameState.currentLevel <= LevelCount
    }

    /**
     * A level is on screen and no modal covers it, so a pointer can reach its
     * buttons. The modals take no keyboard focus: a focused level button can
     * still be pressed from the keyboard under them, which this guard excludes.
     */
    predicate Playing()
      reads this
    {
      gameStarted && !showLevelComplete && !showGameComplete
    }

    /** `currentLevel`. */
    function CurrentLevel(): Option<Level>
      reads this
    {
      FindLevel(Levels, gameState.currentLevel)
    }

    /** The scene count, when the current level is interactive and has scenes. */
    function SceneCount(): Option<nat>
      reads this
    {
      var l := CurrentLevel();
      if l.Some? && l.value.kind == Interactive && l.value.content.scenes.Some?
      then Some(|l.value.content.scenes.value|) else None
    }

    /** `currentLevel?.content.questions`. */
    function Questions(): Option<seq<Question>>
      reads this
    {
      var l := CurrentLevel();
      if l.Some? then l.value.content.questions else None
    }

    /** `currentLevel?.content.firefighterItems || []`. */
    function KitCatalog(): seq<FirefighterItem>
      reads this
    {
      var l := CurrentLevel();
      if l.Some? && l.value.content.firefighterItems.Some? then l.value.content.firefighterItems.value else []
    }

    /**
     * The level-initialisation effect resets the category state: a game runs
     * and the level is a category level with items, which in the catalog is level 2.
     */
    predicate StartsCategory()
      reads this
    {
      gameStarted && gameState.currentLevel == 2
    }

    /** The level-initialisation effect resets the quiz state: a game runs on a quiz level, level 3. */
    predicate StartsQuiz()
      reads this
    {
      gameStarted && gameState.currentLevel == 3
    }

    /** The category state after the level-initialisation effect. */
    twostate predicate CategoryInitialised()
      reads this
    {
      if StartsCategory() then
        items == CategoryItems && hazardous == [] && safe == [] &&
        selectedItem.None? && !showError && errorMessage == ""
      else
        items == old(items) && hazardous == old(hazardous) && safe == old(safe) &&
        selectedItem == old(selectedItem) && showError == old(showError) && errorMessage == old(errorMessage)
    }

    /** The quiz state after the level-initialisation effect. */
    twostate predicate QuizInitialised()
      reads this
    {
      if StartsQuiz() then selectedAnswers == [] && !showResults
      else selectedAnswers == old(selectedAnswers) && showResults == old(showResults)
    }

    /**
     * Mounting the page: `saved` is what localStorage holds and `access` the
     * answer of the check-link request. A saved game is resumed when all
     * three keys are truthy; the save effect then writes back what it read.
     * The level-initialisation effect, which React runs after the re-render
     * the restore causes, is the next step, `InitLevelEffect`.
     */
    constructor (saved: Storage, access: Option<UserData>)
      ensures Valid() && KitFromCatalog()
      ensures userData == access && storage == saved
      ensures currentScene == 0 && !showLevelComplete && !showGameComplete && !finishPending
      ensures selectedFirefighterItems == [] && registrationError.None? && saveError.None?
      ensures selectedItem.None? && !showError && errorMessage == "" && items == [] && hazardous == [] && safe == []
      ensures selectedAnswers == [] && !showResults
      ensures Restore(saved).None? ==>
        !gameStarted && gameState == InitialState && playerName == "" && gamePlayer.None? && InCatalog()
      ensures Restore(saved).Some? ==>
        gameStarted && gameState == Restore(saved).value.state &&
        playerName == Restore(saved).value.playerName && gamePlayer == Some(Restore(saved).value.player)
    {
      var snapshot := Restore(saved);
      if snapshot.Some? {
        gameState := snapshot.value.state;
        playerName := snapshot.value.playerName;
        gamePlayer := Some(snapshot.value.player);
        gameStarted := true;
        RestoreThenSave(saved);
      } else {
        gameState := InitialState;
        playerName := "";
        gamePlayer := None;
        gameStarted := false;
      }
      userData := access;
      currentScene := 0;
      showLevelComplete := false;
      selectedItem := None;
      showError := false;
      errorMessage := "";
      selectedAnswers := [];
      showResults := false;
      showGameComplete := false;
      items := [];
      hazardous := [];
      safe := [];
      selectedFirefighterItems := [];
      registrationError := None;
      saveError := None;
      finishPending := false;
      storage := saved;
      new;
      SaveEffect();
    }

    /** The save effect: while a game runs, the score record and the name go to localStorage. */
    method SaveEffect()
      modifies this`storage
      ensures storage == Save(old(storage), gameStarted, gameState, playerName)
    {
      if gameStarted {
        storage := storage[StateKey := StateJson(gameState)][NameKey := Text(playerName)];
      }
    }

    /** The level-initialisation effect, run when a game starts or the level changes. */
    method InitLevelEffect()
      requires Valid()
      modifies this`items, this`hazardous, this`safe, this`selectedItem, this`showError,
        this`errorMessage, this`selectedAnswers, this`showResults
      ensures Valid()
      ensures CategoryInitialised() && QuizInitialised()
    {
      var level := CurrentLevel();
      LevelKinds(gameState.currentLevel);
      if gameStarted && level.Some? {
        if level.value.kind == LevelKind.CategorySelect && level.value.content.items.Some? {
          LevelContents(gameState.currentLevel);
          CategoryItemsDistinct();
          items := level.value.content.items.value;
          hazardous := [];
          safe := [];
          selectedItem := None;
          showError := false;
          errorMessage := "";
        }
        if level.value.kind == Quiz {
          selectedAnswers := [];
          showResults := false;
        }
      }
    }

    /** Typing into the name field of the start screen. */
    method EnterName(name: string)
      requires !gameStarted
      modifies this`playerName
      ensures playerName == name
    {
      playerName := name;
    }

    /**
     * `handleStartGame`. Nothing happens without a non-blank name and an
     * access record; otherwise the registration request is sent and
     * `response` is its outcome (`None` for a failed or refused request).
     * Success resets the record to level 1, 0 points, 3 lives, 0 stars.
     */
    method StartGame(response: Option<GamePlayer>) returns (request: Option<RegisterRequest>)
      requires !gameStarted
      modifies this`gamePlayer, this`storage, this`gameState, this`currentScene, this`selectedAnswers,
        this`showResults, this`showGameComplete, this`gameStarted, this`registrationError
      ensures request.Some? <==> Trim(playerName) != "" && userData.Some?
      ensures request.Some? ==> request.value == RegisterRequest(userData.value.code, Trim(playerName))
      ensures registrationError ==
        if request.None? then old(registrationError)
        else if response.None? then Some(RegistrationFailed)
        else None
      ensures request.None? || response.None? ==>
        !gameStarted && gameState == old(gameState) && storage == old(storage) && gamePlayer == old(gamePlayer) &&
        currentScene == old(currentScene) && selectedAnswers == old(selectedAnswers) &&
        showResults == old(showResults) && showGameComplete == old(showGameComplete)
      ensures request.Some? && response.Some? ==> GameBegun(response.value)
    {
      if Trim(playerName) == "" || userData.None? {
        request := None;
        return;
      }
      request := Some(RegisterRequest(userData.value.code, Trim(playerName)));
      if response.None? {
        registrationError := Some(RegistrationFailed);
        return;
      }
      BeginGame(response.value);
    }

    /** The state a successful registration of `player` leaves: a fresh, saved game at level 1. */
    twostate predicate GameBegun(player: GamePlayer)
      reads this
    {
      gameStarted && gameState == InitialState && 1 <= gameState.currentLevel <= LevelCount &&
      gamePlayer == Some(player) &&
      currentScene == 0 && selectedAnswers == [] && !showResults && !showGameComplete &&
      registrationError.None? &&
      storage == Save(StorePlayer(old(storage), player), true, gameState, playerName) &&
      !StartsCategory() && !StartsQuiz()
    }

    /**
     * The success branch of `handleStartGame`: the player is stored, the
     * record and the level state are reset and the game starts. The
     * level-initialisation effect runs as well, but level 1 is interactive,
     * so it has nothing to reset (`!StartsCategory() && !StartsQuiz()`).
     */
    method BeginGame(player: GamePlayer)
      requires !gameStarted
      modifies this`gamePlayer, this`storage, this`gameState, this`currentScene, this`selectedAnswers,
        this`showResults, this`showGameComplete, this`gameStarted, this`registrationError
      ensures GameBegun(player)
    {
      gamePlayer := Some(player);
      storage := StorePlayer(storage, player);
      gameState := InitialState;
      currentScene := 0;
      selectedAnswers := [];
      showResults := false;
      showGameComplete := false;
      gameStarted := true;
      registrationError := None;
      SaveEffect();
    }

    /** `handleNextScene`: the next scene, or, after the last one, the level's reward. */
    method NextScene()
      requires Valid() && Playing()
      modifies this`currentScene, this`showLevelComplete, this`gameState, this`storage
      ensures Valid()
      ensures old(SceneCount()).None? ==> unchanged(this)
      ensures old(SceneCount()).Some? && old(currentScene) + 1 < old(SceneCount()).value ==>
        currentScene == old(currentScene) + 1 && gameState == old(gameState) &&
        !showLevelComplete && storage == old(storage)
      ensures old(SceneCount()).Some? && old(currentScene) + 1 >= old(SceneCount()).value ==>
        currentScene == old(currentScene) && showLevelComplete && gameState == Rewarded(old(gameState)) &&
        storage == Save(old(storage), gameStarted, gameState, playerName)
    {
      var count := SceneCount();
      if count.Some? {
        if currentScene < count.value - 1 {
          currentScene := currentScene + 1;
        } else {
          CompleteLevelWithReward();
        }
      }
    }

    /**
     * The immediate part of `completeLevelWithReward`: the level-complete
     * modal opens and the record gains 100 points and a star. The level
     * stays the same until `FinishLevelTransition`.
     */
    method CompleteLevelWithReward()
      requires Valid() && Playing()
      modifies this`showLevelComplete, this`gameState, this`storage
      ensures Valid()
      ensures showLevelComplete
      ensures gameState == Rewarded(old(gameState))
      ensures gameState.score == old(gameState.score) + 100 && gameState.stars == old(gameState.stars) + 1
      ensures gameState.currentLevel == old(gameState.currentLevel) && gameState.lives == old(gameState.lives)
      ensures storage == Save(old(storage), gameStarted, gameState, playerName)
    {
      showLevelComplete := true;
      gameState := gameState.(score := gameState.score + 100, stars := gameState.stars + 1);
      SaveEffect();
    }

    /**
     * The timer of `completeLevelWithReward`, 2000 ms later: the modal
     * closes; after the last level the game-complete modal opens and the
     * result goes to the server, otherwise the next level starts at scene 0.
     */
    method FinishLevelTransition() returns (request: Option<FinishRequest>)
      requires Valid() && gameStarted && showLevelComplete
      modifies this`showLevelComplete, this`showGameComplete, this`gameState, this`currentScene,
        this`finishPending, this`storage,
        this`items, this`hazardous, this`safe, this`selectedItem, this`showError, this`errorMessage,
        this`selectedAnswers, this`showResults
      ensures Valid() && !showLevelComplete
      ensures old(InCatalog()) ==> InCatalog()
      ensures gameState.currentLevel >= old(gameState.currentLevel)
      ensures old(gameState.currentLevel) == LevelCount ==> GameFinished(request)
      ensures old(gameState.currentLevel) == LevelCount ==>
        items == old(items) && hazardous == old(hazardous) && safe == old(safe) &&
        selectedItem == old(selectedItem) && showError == old(showError) && errorMessage == old(errorMessage) &&
        selectedAnswers == old(selectedAnswers) && showResults == old(showResults)
      ensures old(gameState.currentLevel) != LevelCount ==> request.None? && LevelAdvanced()
    {
      if gameState.currentLevel == LevelCount {
        request := FinishGame();
      } else {
        request := None;
        AdvanceLevel();
      }
    }

    /**
     * The last level is done: the game-complete modal opens over the
     * unchanged record, and a registered player's result is sent. The
     * request carries the record the modal shows.
     */
    twostate predicate GameFinished(new request: Option<FinishRequest>)
      reads this
    {
      !showLevelComplete && showGameComplete &&
      gameState == old(gameState) && currentScene == old(currentScene) && storage == old(storage) &&
      request == (if gamePlayer.Some? then Some(FinishRequestFor(gamePlayer.value, gameState)) else None) &&
      finishPending == (old(finishPending) || gamePlayer.Some?)
    }

    /** The branch of the timer after the last level. */
    method FinishGame() returns (request: Option<FinishRequest>)
      modifies this`showLevelComplete, this`showGameComplete, this`finishPending
      ensures GameFinished(request)
    {
      showLevelComplete := false;
      showGameComplete := true;
      if gamePlayer.Some? {
        request := Some(FinishRequestFor(gamePlayer.value, gameState));
        finishPending := true;
      } else {
        request := None;
      }
    }

    /** Any other level is done: the next one starts at scene 0, is saved and initialised. */
    twostate predicate LevelAdvanced()
      reads this
    {
      !showLevelComplete && showGameComplete == old(showGameComplete) && finishPending == old(finishPending) &&
      gameState == old(gameState).(currentLevel := old(gameState.currentLevel) + 1) && currentScene == 0 &&
      storage == Save(old(storage), gameStarted, gameState, playerName) &&
      CategoryInitialised() && QuizInitialised()
    }

    /** The branch of the timer before the last level. */
    method AdvanceLevel()
      requires Valid()
      modifies this`showLevelComplete, this`gameState, this`currentScene, this`storage,
        this`items, this`hazardous, this`safe, this`selectedItem, this`showError, this`errorMessage,
        this`selectedAnswers, this`showResults
      ensures Valid()
      ensures LevelAdvanced()
    {
      showLevelComplete := false;
      gameState := gameState.(currentLevel := gameState.currentLevel + 1);
      currentScene := 0;
      InitLevelEffect();
      SaveEffect();
    }

    /** The answer to the finish request: success forgets the saved game, failure shows an error. */
    method FinishResponse(ok: bool)
      requires finishPending
      modifies this`storage, this`saveError, this`finishPending
      ensures !finishPending
      ensures ok ==> storage == Clear(old(storage)) && Restore(storage).None? && saveError == old(saveError)
      ensures !ok ==> storage == old(storage) && saveError == Some(SaveFailed)
    {
      finishPending := false;
      if ok {
        storage := storage - {StateKey, NameKey, PlayerKey};
      } else {
        saveError := Some(SaveFailed);
      }
    }

    /** Clicking an item of the category level: it becomes the selection unless it is selected or placed. */
    method SelectItem(item: Item)
      requires Valid() && Playing() && item in items
      modifies this`selectedItem
      ensures Valid()
      ensures var taken := (old(selectedItem).Some? && old(selectedItem).value.id == item.id) ||
          HasItemId(hazardous, item.id) || HasItemId(safe, item.id);
        selectedItem == if taken then old(selectedItem) else Some(item)
    {
      var taken := (selectedItem.Some? && selectedItem.value.id == item.id) ||
        HasItemId(hazardous, item.id) || HasItemId(safe, item.id);
      if !taken {
        selectedItem := Some(item);
      }
    }

    /**
     * `handleCategorySelect`. A right bin earns 10 points and takes the
     * item; the move that places the last item also completes the level.
     * A wrong bin costs a life and names the item's real class.
     */
    method CategorySelect(c: Category)
      requires Valid() && Playing()
      modifies this`gameState, this`hazardous, this`safe, this`selectedItem, this`showError,
        this`errorMessage, this`showLevelComplete, this`storage
      ensures Valid()
      ensures old(selectedItem).None? ==> unchanged(this)
      ensures old(selectedItem).Some? && IsCorrectPlacement(old(selectedItem).value, c) ==>
        Placed(old(selectedItem).value, c)
      ensures old(selectedItem).Some? && !IsCorrectPlacement(old(selectedItem).value, c) ==>
        Misplaced(old(selectedItem).value)
    {
      if selectedItem.None? {
        return;
      }
      var item := selectedItem.value;
      if IsCorrectPlacement(item, c) {
        PlaceSelected(item, c);
      } else {
        RejectSelected(item);
      }
    }

    /**
     * The selected `item` went into its right bin `c`: 10 points, the bin
     * grows by the item, the selection and the error clear, and the level is
     * complete, with its reward, exactly when every item is now placed.
     */
    twostate predicate Placed(item: Item, c: Category)
      reads this
    {
      var completes := |old(hazardous)| + |old(safe)| + 1 == |items|;
      var placed := old(gameState).(score := old(gameState).score + 10);
      hazardous == (if c == Hazardous then old(hazardous) + [item] else old(hazardous)) &&
      safe == (if c == Safe then old(safe) + [item] else old(safe)) &&
      selectedItem.None? && !showError && errorMessage == "" &&
      gameState == (if completes then Rewarded(placed) else placed) &&
      showLevelComplete == completes &&
      (completes <==> Elements(hazardous + safe) == Elements(items)) &&
      storage == Save(old(storage), gameStarted, gameState, playerName)
    }

    /** The right-bin branch of `handleCategorySelect`. */
    method PlaceSelected(item: Item, c: Category)
      requires Valid() && Playing() && selectedItem == Some(item) && IsCorrectPlacement(item, c)
      modifies this`gameState, this`hazardous, this`safe, this`selectedItem, this`showError,
        this`errorMessage, this`showLevelComplete, this`storage
      ensures Valid()
      ensures Placed(item, c)
    {
      var completes := |hazardous| + |safe| + 1 == |items|;
      PlaceKeepsValid(items, hazardous, safe, item, c);
      gameState := gameState.(score := gameState.score + 10);
      if c == Hazardous {
        hazardous := hazardous + [item];
      } else {
        safe := safe + [item];
      }
      selectedItem := None;
      showError := false;
      errorMessage := "";
      CompletionIsAllPlaced(items, hazardous + safe);
      if completes {
        CompleteLevelWithReward();
      } else {
        SaveEffect();
      }
    }

    /** The selected `item` went into the wrong bin: a life is lost and the message names its class. */
    twostate predicate Misplaced(item: Item)
      reads this
    {
      hazardous == old(hazardous) && safe == old(safe) && selectedItem == old(selectedItem) &&
      showError && errorMessage == WrongPlacementMessage(item) &&
      gameState == old(gameState).(lives := old(gameState).lives - 1) && !showLevelComplete &&
      storage == Save(old(storage), gameStarted, gameState, playerName)
    }

    /** The wrong-bin branch of `handleCategorySelect`. */
    method RejectSelected(item: Item)
      requires Playing()
      modifies this`gameState, this`showError, this`errorMessage, this`storage
      ensures Misplaced(item)
    {
      showError := true;
      errorMessage := WrongPlacementMessage(item);
      gameState := gameState.(lives := gameState.lives - 1);
      SaveEffect();
    }

    /** `handleQuizAnswer`: only the answer to question `questionIndex` changes. The options are disabled once the results show. */
    method QuizAnswer(questionIndex: nat, answerIndex: int)
      requires Playing() && !showResults
      modifies this`selectedAnswers
      ensures selectedAnswers == SetAnswer(old(selectedAnswers), questionIndex, answerIndex)
      ensures AnswerAt(selectedAnswers, questionIndex) == Some(answerIndex)
      ensures forall j | j != questionIndex :: AnswerAt(selectedAnswers, j) == AnswerAt(old(selectedAnswers), j)
    {
      selectedAnswers := SetAnswer(selectedAnswers, questionIndex, answerIndex);
    }

    /**
     * `handleCheckAnswers`: +100 per right answer, -100 per wrong or missing
     * one, then the results show. Its button is rendered only until then.
     */
    method CheckAnswers()
      requires Valid() && Playing() && !showResults
      modifies this`gameState, this`showResults, this`storage
      ensures Valid()
      ensures old(Questions()).None? ==> unchanged(this)
      ensures old(Questions()).Some? ==>
        (var questions := old(Questions()).value;
         var right := CorrectCount(questions, selectedAnswers);
         gameState == old(gameState).(score := old(gameState).score + 100 * right - 100 * (|questions| - right)) &&
         showResults && storage == Save(old(storage), gameStarted, gameState, playerName))
    {
      var questions := Questions();
      if questions.None? {
        return;
      }
      var delta := QuizScore(questions.value, selectedAnswers);
      gameState := gameState.(score := gameState.score + delta);
      showResults := true;
      SaveEffect();
    }

    /**
     * `handleVideoEnd`: 200 points and a star; the level does not change. The
     * page never triggers it (see `VideoLevelAsWritten`); the model keeps it
     * as the video level's intended first step.
     */
    method VideoEnd()
      requires Playing()
      modifies this`gameState, this`storage
      ensures gameState == VideoWatched(old(gameState))
      ensures gameState == old(gameState).(score := old(gameState).score + 200, stars := old(gameState).stars + 1)
      ensures storage == Save(old(storage), gameStarted, gameState, playerName)
    {
      gameState := gameState.(score := gameState.score + 200, stars := gameState.stars + 1);
      SaveEffect();
    }

    /**
     * `handleGameComplete` (the header's finish button): when the player
     * confirms, the saved game is forgotten and the page returns to the
     * start screen with the initial record and an empty name.
     */
    method GameComplete(confirmed: bool)
      requires Playing()
      modifies this`storage, this`gameState, this`playerName, this`gameStarted, this`showGameComplete
      ensures !confirmed ==> unchanged(this)
      ensures confirmed ==>
        storage == Clear(old(storage)) && Restore(storage).None? &&
        gameState == InitialState && InCatalog() && playerName == "" && !gameStarted && showGameComplete
    {
      if confirmed {
        storage := storage - {StateKey, NameKey, PlayerKey};
        gameState := InitialState;
        playerName := "";
        gameStarted := false;
        showGameComplete := true;
        SaveEffect();
      }
    }

    /** `handleFirefighterItemClick`: a selected item is removed, another one added. */
    method FirefighterItemClick(item: FirefighterItem)
      requires Valid() && KitFromCatalog() && Playing() && item in KitItems
      modifies this`selectedFirefighterItems
      ensures Valid() && KitFromCatalog()
      ensures selectedFirefighterItems == Toggle(old(selectedFirefighterItems), item)
      ensures HasId(selectedFirefighterItems, item.id) <==> !HasId(old(selectedFirefighterItems), item.id)
      ensures forall x: FirefighterItem | x.id != item.id :: x in selectedFirefighterItems <==> x in old(selectedFirefighterItems)
    {
      ToggleNoDup(selectedFirefighterItems, item);
      forall x: FirefighterItem | x.id != item.id
        ensures x in Toggle(selectedFirefighterItems, item) <==> x in selectedFirefighterItems
      {
        ToggleMembership(selectedFirefighterItems, item, x);
      }
      ToggleMembership(selectedFirefighterItems, item, item);
      if HasId(selectedFirefighterItems, item.id) {
        selectedFirefighterItems := Without(selectedFirefighterItems, item.id);
      } else {
        selectedFirefighterItems := selectedFirefighterItems + [item];
      }
    }

    /**
     * `handleCheckFirefighterKit`: the level is complete when the selection
     * has as many correct items as the kit and no wrong one; otherwise a
     * life is lost and the selection stays. On the kit level that test is
     * "the selection is exactly helmet, axe, hose, mask and gloves".
     */
    method CheckFirefighterKit()
      requires Valid() && KitFromCatalog() && Playing()
      modifies this`gameState, this`showError, this`errorMessage, this`showLevelComplete, this`storage
      ensures Valid()
      ensures KitComplete(old(KitCatalog()), selectedFirefighterItems) ==>
        gameState == Rewarded(old(gameState)) && showLevelComplete &&
        showError == old(showError) && errorMessage == old(errorMessage)
      ensures !KitComplete(old(KitCatalog()), selectedFirefighterItems) ==>
        gameState == old(gameState).(lives := old(gameState).lives - 1) && !showLevelComplete &&
        showError && errorMessage == KitWrongMessage
      ensures gameState.currentLevel == LevelCount ==>
        (showLevelComplete <==> Elements(selectedFirefighterItems) == Elements(KitItems[..5]))
      ensures storage == Save(old(storage), gameStarted, gameState, playerName)
    {
      var catalog := KitCatalog();
      if gameState.currentLevel == LevelCount {
        LastLevelKit();
        KitLevelComplete(selectedFirefighterItems);
      }
      if KitComplete(catalog, selectedFirefighterItems) {
        CompleteLevelWithReward();
      } else {
        RejectKit();
      }
    }

    /** The failing branch of `handleCheckFirefighterKit`: a life is lost and the error shows. */
    method RejectKit()
      modifies this`gameState, this`showError, this`errorMessage, this`storage
      ensures gameState == old(gameState).(lives := old(gameState).lives - 1)
      ensures showError && errorMessage == KitWrongMessage
      ensures storage == Save(old(storage), gameStarted, gameState, playerName)
    {
      gameState := gameState.(lives := gameState.lives - 1);
      showError := true;
      errorMessage := KitWrongMessage;
      SaveEffect();
    }
  }
}
