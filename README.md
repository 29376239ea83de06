# Fire-safety game and teacher forms, modelled in Dafny

This project models the logic of a small school web application. Teachers
sign up and sign in, then hand out access links to browser games. The model
covers four pieces of it:

- **The fire-safety game** (`FireGame.tsx`). A player registers with a name
  and an access code. They then play five levels in a fixed order:
  1. an interactive scene sequence;
  2. a category level, where items are sorted into a hazardous bin and a safe bin;
  3. a quiz;
  4. a video;
  5. a firefighter-kit level, where the correct items are picked.

  The score record is `{currentLevel, score, lives, stars}`. The game saves it
  to three localStorage keys and picks it up again when the page is next
  opened. When the last level is done, the result is sent to the server.
- **Teacher sign-up validation** (`SignUpPage.tsx`). The name, email, phone
  and password are each checked, giving at most one message per field.
  Emptiness is checked before length or format.
- **Teacher sign-in validation** (`SignInPage.tsx`). A stricter `+7` phone
  check and a password length check. Editing a field clears that field's
  message.
- **Game-name lookup** (`LinksStats.tsx`). Maps a game code to its Russian
  display name and falls back to the code itself.

Files:

- `wrappers.dfy`: `Option`.
- `text.dfy`: the character classes the regular expressions use, and
  `String.prototype.trim`.
- `signup.dfy`, `signin.dfy`: the two forms. Each has its field predicates,
  the methods that build the error record, and the page class holding
  `formData` and `errors`.
- `game_names.dfy`: `getGameName`.
- `fire_catalog.dfy`: the five-level catalog and `levels.find`.
- `fire_rules.dfy`: the pure rules behind the game's handlers:
  - the reward;
  - the placement check and its message;
  - quiz answers and scoring;
  - the kit toggle and kit check;
  - the localStorage snapshot;
  - the finish request.
- `fire_game.dfy`: the game page as a class. It has one field per piece of
  component state and one method per handler or effect. Each method's
  `ensures` gives its whole new state in terms of the functions above.

The page's invariant `Valid()` says two things:

- the category bins hold distinct items of the level, and the selected item
  is in neither bin;
- the kit selection never names an item id twice.

Every handler preserves it. The level number never decreases except through
the two explicit resets. It stays inside the catalog (`InCatalog()`) because
the level handlers require `Playing()`, so each level is completed once. That
holds for pointer input only; the keyboard case is under "## Left out" and
"## Findings".

## Model

| member | source | states |
|---|---|---|
| Text.Trim | src/pages/teacher/auth/SignUpPage.tsx:48 | the result is the slice of the input between a whitespace-only prefix and a whitespace-only suffix; it is empty exactly when the input is all whitespace, and otherwise neither starts nor ends with whitespace |
| Text.TrimStartKeepsSuffix | src/pages/teacher/auth/SignUpPage.tsx:48 | trimming the start removes a whitespace-only prefix and keeps the rest as a suffix of the input, which then starts with non-whitespace or is empty |
| Text.TrimEndKeepsPrefix | src/pages/teacher/auth/SignUpPage.tsx:48 | trimming the end removes a whitespace-only suffix and keeps the rest as a prefix of the input, which then ends with non-whitespace or is empty |
| SignUp.Form.With | src/pages/teacher/auth/SignUpPage.tsx:109-115 | `{...prev, [name]: value}` sets the named field to the value and leaves the other three fields as they were |
| SignUp.EmailRunSound | src/pages/teacher/auth/SignUpPage.tsx:57 | each state the email matcher can end in describes what it has read: nothing, local part, local part and `@`, inside the domain, after a dot in the domain, or a complete `local@domain.tld` |
| SignUp.EmailRunPrefix | src/pages/teacher/auth/SignUpPage.tsx:57 | on a string of the form `a@b.c`, the matcher is in the state for each prefix's position relative to the `@` and the dot, and ends in the accepting state |
| SignUp.MatchesEmailIff | src/pages/teacher/auth/SignUpPage.tsx:57 | the matcher accepts exactly the strings that split as one or more non-space, non-`@` characters, `@`, one or more such characters, `.`, one or more such characters (`/^[^\s@]+@[^\s@]+\.[^\s@]+$/`) |
| SignUp.EmailShapeNotBlank | src/pages/teacher/auth/SignUpPage.tsx:58-62 | an address of that shape is never blank, so an email is accepted exactly when it has the shape |
| SignUp.E164Digits | src/pages/teacher/auth/SignUpPage.tsx:65 | `/^\+[1-9]\d{1,14}$/` accepts exactly `+` followed by 2 to 15 digits, the first of which is not 0 |
| SignUp.StrengthWithoutLineBreaks | src/pages/teacher/auth/SignUpPage.tsx:77 | on a password without line terminators, the three look-aheads hold exactly when it contains an uppercase ASCII letter, a lowercase ASCII letter and a digit |
| SignUp.NoHitAcrossBreak | src/pages/teacher/auth/SignUpPage.tsx:77 | a look-ahead `(?=.*[X])` fails at a position whose line ends before any character of class X, because `.` does not match a line terminator |
| SignUp.StrengthNeedsOneLine | src/pages/teacher/auth/SignUpPage.tsx:77 | `"A\na1"` contains all three classes, yet the strength test rejects it |
| SignUp.Record | src/pages/teacher/auth/SignUpPage.tsx:45-79 | writing `newErrors.<field>` sets that field's message when there is one and leaves every other field's message unchanged |
| SignUp.DescribesErrorsUnique | src/pages/teacher/auth/SignUpPage.tsx:44-80 | the error record of a form is determined by the form: two records that both describe it are equal |
| SignUp.DescribesErrorsEmptyIff | src/pages/teacher/auth/SignUpPage.tsx:81-82 | a record that describes the form has no entries exactly when all four fields are accepted |
| SignUp.NameError | src/pages/teacher/auth/SignUpPage.tsx:48-54 | no message exactly when the trimmed name is non-empty and the untrimmed length is 3 to 50; otherwise "required", "too short" or "too long", in that priority |
| SignUp.EmailError | src/pages/teacher/auth/SignUpPage.tsx:57-62 | no message exactly when the email is non-blank and matches the email pattern; otherwise "required" for a blank one, else "invalid" |
| SignUp.PhoneError | src/pages/teacher/auth/SignUpPage.tsx:65-70 | no message exactly when the phone is non-blank and matches the E.164-like pattern; otherwise "required" for a blank one, else the format hint |
| SignUp.PasswordError | src/pages/teacher/auth/SignUpPage.tsx:73-79 | no message exactly when the password is non-empty, at least 8 long and passes the strength look-aheads; otherwise "required", "too short" or "too weak", in that priority |
| SignUp.CollectErrors | src/pages/teacher/auth/SignUpPage.tsx:44-80 | the built record holds exactly the rejected fields, each with its message, and is empty exactly when the whole form is accepted |
| SignUp.SignUpPage.constructor | src/pages/teacher/auth/SignUpPage.tsx:30-37 | the form starts with four empty fields and no messages |
| SignUp.SignUpPage.ValidateForm | src/pages/teacher/auth/SignUpPage.tsx:44-83 | the stored record describes the current form, and the result is true exactly when every field is accepted |
| SignUp.SignUpPage.HandleInputChange | src/pages/teacher/auth/SignUpPage.tsx:109-115 | only the edited field changes, and to the typed value; the messages stay |
| SignIn.Form.With | src/pages/teacher/auth/SignInPage.tsx:158-163 | setting one field leaves the other as it was |
| SignIn.PhoneError | src/pages/teacher/auth/SignInPage.tsx:102-106 | no message exactly when the phone is `+7` followed by exactly 10 digits; "required" for the empty string, else the format hint |
| SignIn.PasswordError | src/pages/teacher/auth/SignInPage.tsx:108-112 | no message exactly when the password has at least 8 characters; "required" for the empty string, else "too short" |
| SignIn.CollectErrors | src/pages/teacher/auth/SignInPage.tsx:99-113 | the built record holds exactly the rejected fields with their non-empty messages, and is empty exactly when both fields are accepted |
| SignIn.PhoneAcceptedBySignUp | src/pages/teacher/auth/SignInPage.tsx:104 | every phone accepted at sign-in is accepted at sign-up too |
| SignIn.SignUpAcceptsMore | src/pages/teacher/auth/SignInPage.tsx:104 | `+15551234567` is accepted at sign-up but rejected at sign-in, so the converse fails |
| SignIn.SignInPage.constructor | src/pages/teacher/auth/SignInPage.tsx:18-22 | the form starts with two empty fields and no messages |
| SignIn.SignInPage.ValidateForm | src/pages/teacher/auth/SignInPage.tsx:99-116 | the stored record describes the form; the result is true exactly when both fields are accepted, which is exactly when no field shows a message |
| SignIn.SignInPage.HandleChange | src/pages/teacher/auth/SignInPage.tsx:158-170 | the edited field takes the value; its message is cleared to `''` when one showed and otherwise nothing changes; the other field's message is untouched; no key is added or removed |
| LinksStats.GameName | src/pages/teacher/LinksStats.tsx:62-69 | `fire`, `flood` and `earthquake` map to their display names, any other code is returned as it is, and the result is empty exactly when the code is |
| FireCatalog.FindLevel | src/pages/school/games/FireGame.tsx:293 | `levels.find` returns nothing exactly when no level has the id; otherwise it returns the first level with that id |
| FireCatalog.FindConsecutive | src/pages/school/games/FireGame.tsx:293 | in a list whose ids run `base`, `base + 1`, ..., the level with id `n` is the one at index `n - base`, and ids outside the range find nothing |
| FireCatalog.CatalogLevel | src/pages/school/games/FireGame.tsx:86-254 | the catalog has 5 levels with ids 1 to 5 in order, so a level number finds its level exactly when it is in 1..5 |
| FireCatalog.LevelKinds | src/pages/school/games/FireGame.tsx:86-254 | level 1 is the only interactive level, 2 the only category level with items, 3 the only quiz, 4 the only video and 5 the only kit level |
| FireCatalog.LevelContents | src/pages/school/games/FireGame.tsx:86-254 | only level 1 has scenes (two of them), only level 2 has items, only level 3 has questions and only level 5 has a kit, each being the catalog's list |
| FireCatalog.LastLevelKit | src/pages/school/games/FireGame.tsx:188-251 | the level numbered `levels.length` is the kit level with the eight-item kit |
| FireRules.WrongPlacementMessage | src/pages/school/games/FireGame.tsx:562 | the message is "Неправильно! ", the item's name, a space, the word for the item's true class, and " предмет." |
| FireRules.PlaceKeepsValid | src/pages/school/games/FireGame.tsx:548-552 | moving the selected, unplaced item into either bin and clearing the selection keeps the bins distinct, within the level's items and disjoint |
| FireRules.CompletionIsAllPlaced | src/pages/school/games/FireGame.tsx:557 | for distinct placed items taken from the distinct level items, the count test `placed == items.length` holds exactly when every item is placed |
| FireRules.CategoryItemsDistinct | src/pages/school/games/FireGame.tsx:112-118 | the category level's five items are distinct |
| FireRules.SetAnswer | src/pages/school/games/FireGame.tsx:570-576 | `newAnswers[questionIndex] = answerIndex` makes that answer the given one, leaves every other index as it was, and grows the array when the index is past its end |
| FireRules.QuizScore | src/pages/school/games/FireGame.tsx:582-591 | the loop's total is +100 per right answer and -100 per wrong or missing one, `100*K - 100*(N-K)`, so it lies between `-100*N` and `100*N` |
| FireRules.CorrectUpToAll | src/pages/school/games/FireGame.tsx:584-591 | the count of right answers among the first `n` questions is `n` exactly when each of them is answered right |
| FireRules.CorrectUpToNone | src/pages/school/games/FireGame.tsx:584-591 | that count is 0 exactly when none of them is answered right |
| FireRules.PerfectQuiz | src/pages/school/games/FireGame.tsx:584-591 | every question is answered right exactly when the right count is the number of questions |
| FireRules.UnansweredQuiz | src/pages/school/games/FireGame.tsx:585-589 | with no answers given, no question counts as right |
| FireRules.Without | src/pages/school/games/FireGame.tsx:633 | `filter(i => i.id !== item.id)` keeps exactly the items with another id, is never longer than the list, and returns the list unchanged when no item has that id |
| FireRules.WithoutAppend | src/pages/school/games/FireGame.tsx:633 | filtering a concatenation filters each part |
| FireRules.ToggleTwice | src/pages/school/games/FireGame.tsx:631-637 | clicking an unselected kit item twice restores the selection |
| FireRules.ToggleMembership | src/pages/school/games/FireGame.tsx:631-637 | a click flips whether the clicked id is selected and leaves every item with another id as it was |
| FireRules.WithoutNoDup | src/pages/school/games/FireGame.tsx:633 | removing an id from a duplicate-free selection keeps it duplicate-free |
| FireRules.ToggleNoDup | src/pages/school/games/FireGame.tsx:631-637 | a click never makes an id appear twice |
| FireRules.CorrectOnes | src/pages/school/games/FireGame.tsx:640-641 | `filter(item => item.isCorrect)` keeps exactly the correct items and is never longer than the list |
| FireRules.IncorrectOnes | src/pages/school/games/FireGame.tsx:642 | `filter(item => !item.isCorrect)` keeps exactly the wrong items and is never longer than the list |
| FireRules.KitCompleteIff | src/pages/school/games/FireGame.tsx:639-644 | for a duplicate-free selection from a distinct catalog, the count test passes exactly when the selected items are the catalog's correct items, no more and no fewer |
| FireRules.KitItemsDistinct | src/pages/school/games/FireGame.tsx:193-251 | the kit level's eight items are distinct |
| FireRules.KitCorrectItems | src/pages/school/games/FireGame.tsx:193-251 | the correct items of the kit are its first five: helmet, axe, hose, mask and gloves |
| FireRules.KitLevelComplete | src/pages/school/games/FireGame.tsx:639-644 | on the kit level, the check passes exactly when the selection is exactly those five items |
| FireRules.Restore | src/pages/school/games/FireGame.tsx:324-334 | a saved game is found only when all three keys hold non-empty values, and the snapshot is what they hold |
| FireRules.Save | src/pages/school/games/FireGame.tsx:338-343 | the save effect writes only `fireGameState` and `fireGamePlayerName`; every other key is untouched |
| FireRules.Clear | src/pages/school/games/FireGame.tsx:615-617 | after the three removals no saved game is found, and every other key is untouched |
| FireRules.SaveThenRestore | src/pages/school/games/FireGame.tsx:324-343 | a registered game that has been saved under a non-empty name is restored with the same record, name and player |
| FireRules.RestoreThenSave | src/pages/school/games/FireGame.tsx:324-343 | saving what was just restored leaves the storage unchanged |
| FireRules.StaleFinishRequest | src/pages/school/games/FireGame.tsx:519-526 | the request the code sends has one star and 100 points fewer than the record the game-complete screen shows |
| FireRules.VideoRewardLost | src/pages/school/games/FireGame.tsx:920-934 | the video level as the page plays it gives 100 points and a star, which is 200 points and one star less than the 300 points and two stars its text promises; lives and level agree |
| FireRules.DoublePressLeavesCatalog | src/pages/school/games/FireGame.tsx:511-534 | two completions of one level within 2000 ms give two rewards and move the level by two; from the level before the last that level is not in the catalog; one completion gives one reward fewer and stays in the catalog |
| FireGame.FireGamePage.constructor | src/pages/school/games/FireGame.tsx:256-343 | all three keys saved: the game resumes with the saved record, name and player, and storage is unchanged; otherwise the start screen with the initial record and an empty name; either way no modal is open, no item or kit item is selected, both bins and the item list are empty, no error or message shows, no quiz answer is given and no result shows |
| FireGame.FireGamePage.SaveEffect | src/pages/school/games/FireGame.tsx:338-343 | storage becomes `Save` of the old storage and the current record and name, which writes only while a game runs |
| FireGame.FireGamePage.InitLevelEffect | src/pages/school/games/FireGame.tsx:346-363 | on the category level the bins, selection and error reset and the items are loaded; on the quiz level the answers and results reset; otherwise nothing changes |
| FireGame.FireGamePage.EnterName | src/pages/school/games/FireGame.tsx:483 | the name field takes the typed text |
| FireGame.FireGamePage.StartGame | src/pages/school/games/FireGame.tsx:365-427 | a request `{code, full_name: trimmed name}` is sent exactly when the trimmed name is non-empty and an access record exists; a failed request sets the registration error and changes nothing else; success begins a fresh game |
| FireGame.FireGamePage.BeginGame | src/pages/school/games/FireGame.tsx:388-411 | the player is stored, the record is `{1, 0, 3, 0}` at scene 0 with no answers, no results and no game-complete screen, the error clears, and storage holds the player, the record and the name |
| FireGame.FireGamePage.NextScene | src/pages/school/games/FireGame.tsx:501-509 | outside an interactive level nothing changes; before the last scene the cursor advances by one; at the last scene the level completes with its reward |
| FireGame.FireGamePage.CompleteLevelWithReward | src/pages/school/games/FireGame.tsx:511-518 | the level-complete modal opens, the score rises by exactly 100 and the stars by 1, and the level and lives stay |
| FireGame.FireGamePage.FinishLevelTransition | src/pages/school/games/FireGame.tsx:519-534 | the modal closes; at level `levels.length` the game-complete screen opens without advancing, otherwise the level rises by exactly 1 and the scene resets to 0; after the last level the category and quiz state stay as they were; the level stays within the catalog and never decreases |
| FireGame.FireGamePage.FinishGame | src/pages/school/games/FireGame.tsx:523-526 | the game-complete screen opens over an unchanged record, and a registered player's result is sent as the shown record |
| FireGame.FireGamePage.AdvanceLevel | src/pages/school/games/FireGame.tsx:527-533 | the level rises by 1, the scene resets to 0, the record is saved, and the new level's state is initialised |
| FireGame.FireGamePage.FinishResponse | src/pages/school/games/FireGame.tsx:673-692 | success clears the three keys so no saved game is found; failure sets the save error and keeps the saved game |
| FireGame.FireGamePage.SelectItem | src/pages/school/games/FireGame.tsx:791-801 | clicking a level item selects it unless it is already selected or placed in a bin |
| FireGame.FireGamePage.CategorySelect | src/pages/school/games/FireGame.tsx:537-568 | with no selection nothing changes; the right bin is the placement below, a wrong bin the rejection below |
| FireGame.FireGamePage.PlaceSelected | src/pages/school/games/FireGame.tsx:543-559 | score +10 with lives unchanged; the item is appended to the chosen bin only; the selection and error clear; the level completes, with its reward, exactly when every item is now placed |
| FireGame.FireGamePage.RejectSelected | src/pages/school/games/FireGame.tsx:560-567 | lives -1 with score unchanged, both bins and the selection unchanged, and the message naming the item's true class |
| FireGame.FireGamePage.QuizAnswer | src/pages/school/games/FireGame.tsx:570-576 | only the answer at the question's index changes, to the chosen option |
| FireGame.FireGamePage.CheckAnswers | src/pages/school/games/FireGame.tsx:578-599 | without questions nothing changes; otherwise the score changes by `100*K - 100*(N-K)` for K right of N questions, and the results show |
| FireGame.FireGamePage.VideoEnd | src/pages/school/games/FireGame.tsx:601-607 | the record becomes `VideoWatched` of the old one: score +200 and stars +1, with the level and lives unchanged; the page never triggers this handler (see "## Findings") |
| FireGame.FireGamePage.GameComplete | src/pages/school/games/FireGame.tsx:609-629 | unconfirmed: nothing changes; confirmed: the three keys go, the record is `{1, 0, 3, 0}`, the name is empty, and the game stops |
| FireGame.FireGamePage.FirefighterItemClick | src/pages/school/games/FireGame.tsx:631-637 | a selected item is removed and an unselected one appended; items with other ids stay, and no id is ever selected twice |
| FireGame.FireGamePage.CheckFirefighterKit | src/pages/school/games/FireGame.tsx:639-654 | the level completes with its reward exactly when the selection has as many correct items as the level's kit and no wrong one, which on the kit level means exactly helmet, axe, hose, mask and gloves; otherwise lives -1, the error message shows and the selection stays |
| FireGame.FireGamePage.RejectKit | src/pages/school/games/FireGame.tsx:646-653 | a failed kit check costs exactly one life, shows the kit error message and saves the record |

## Left out

- Network calls are modelled as inputs and outputs of the methods. These are check-link, register, finish, sign-in and sign-up. The check-link answer is the constructor's `access` argument. The register answer is `StartGame`'s `response`. The finish call is the request `FinishLevelTransition` returns, answered by `FinishResponse`. The sign-in and sign-up requests and the stats, links and status pages are not part of this model.
- The 2000 ms timer of `completeLevelWithReward` is the separate step `FireGame.FireGamePage.FinishLevelTransition`. The level-initialisation effect is the separate step `FireGame.FireGamePage.InitLevelEffect`, run after the constructor and inside `AdvanceLevel`. React's rendering and effect scheduling are otherwise not modelled.
- JSON serialisation: localStorage holds `Stored` values (text, a score record or a player record) instead of JSON strings. Keys other than the game's three are kept as `OtherKey`, which never carries one of those three names. The model treats a saved record of the wrong kind as no saved game, so the page starts fresh; in the source a malformed record makes `JSON.parse` throw inside the mount effect.
- `window.confirm` is the boolean argument of `GameComplete`.
- The display data of the catalog is not modelled: titles, descriptions, scene text, question text and options, explanations, and kit item names and images. The catalog keeps ids, level kinds, the category items with their names and classes, the quiz's answer keys and option counts, the video id, and the kit's correctness flags.
- The loading and access-error screens, the game log (`gameLog`, `showLog`), `showItemDescription` and every part of the markup are not modelled. The sign-in page's canvas animation is not modelled either.
- `FireGame.FireGamePage.FinishResponse`: the model adds `finishPending`, a field the source does not have, to pair each finish answer with the request that was sent.
- Starting a game does not close the level-complete modal (`showLevelComplete`), as in the source (src/pages/school/games/FireGame.tsx:400-411); that modal is never open while no game runs, but the model does not state this as an invariant.
- Lives and score have no lower bound, as in the source. A run of wrong answers makes them negative. The game header renders lives with `[...Array(lives)]` (src/components/GameHeader.tsx:27), which throws a `RangeError` once lives reach -1, so the page stops rendering where the model keeps playing. The header is not part of this model, and whether a game-over at 0 lives or a floor was meant cannot be read from the code.
- `FireGame.FireGamePage.CheckFirefighterKit` may be called with an empty selection, which the disabled button prevents in the source. The call then fails the check like any other incomplete kit.
- `FireGame.FireGamePage.SelectItem` requires the clicked item to be one of the level's items, since only those are rendered as clickable.
- The level handlers (`NextScene`, `CompleteLevelWithReward`, `SelectItem`, `CategorySelect`, `QuizAnswer`, `CheckAnswers`, `VideoEnd`, `GameComplete`, `FirefighterItemClick`, `CheckFirefighterKit`) require `Playing()`: a level is on screen and the level-complete and game-complete modals do not cover it. This models pointer input only. The modals are transparent overlays that take no keyboard focus, so in the source a level button that still has focus ("Далее" at src/pages/school/games/FireGame.tsx:775 and 934, "Перейти к следующему уровню" at 907, "Проверить набор" at 987-988) can be pressed from the keyboard while the level-complete modal shows. The model excludes that. In the source a second press gives a second reward and starts a second timer. Each timer advances the level by one, so the level moves twice and, from level 4, reaches 6, which is not in the catalog. From level 5 two finish requests are sent. See "## Findings" and `FireRules.DoublePressLeavesCatalog`. `QuizAnswer` and `CheckAnswers` also require `!showResults`, since the options are disabled (src/pages/school/games/FireGame.tsx:873) and the check button is rendered (896) only until the results show.
- The model does not tie a handler to the level kind whose markup offers it. Item and bin clicks exist only on the category level, `onEnded` only on the video level (929), the kit buttons only on the kit level, and the quiz's "next" button (905-912) only once the results show. In the model these handlers may be called on any level. Each contract then says what they do there, for example `NextScene` and `CheckAnswers` change nothing on a level without scenes or questions.
- `Text.Trim` and the `\s` of the regular expressions treat only ASCII whitespace (space, tab, line feed, vertical tab, form feed, carriage return) as whitespace. JavaScript also counts the Unicode space separators, the no-break space, the byte-order mark and the line terminators U+2028 and U+2029. Strings are sequences of characters, not of UTF-16 code units.
- `LinksStats.GameName` treats the table as exactly three keys. In JavaScript, `games[name]` also finds inherited `Object.prototype` members such as `toString`, so those names return a function rather than the code.
- The sign-in phone check tests emptiness on the untrimmed value (`!formData.phone_number`), unlike sign-up's `trim()`. The model follows each page as written.
- Category completion: the code compares the bin total before the move plus one with the item count. So the move that places the last item completes the level, with no extra move needed (`FireRules.CompletionIsAllPlaced`).
- On the finish path the saved game is cleared only when the finish request succeeds; a failed finish keeps it (`FireGame.FireGamePage.FinishResponse`). A confirmed abort clears it too (`FireGame.FireGamePage.GameComplete`).
- `FireGame.FireGamePage.VideoEnd` models a handler the page cannot trigger. `onEnded={handleVideoEnd}` sits on the YouTube `<iframe>` (src/pages/school/games/FireGame.tsx:923-930), and an iframe fires no media `ended` event, so on the page the video level gives only the "Далее" button's 100 points and star. The method is kept as the intended first step of the video level; see "## Findings".

## Findings

| source | as written | input that shows it | evidently intended | confidence | as-written member | corrected member |
|---|---|---|---|---|---|---|
| src/pages/school/games/FireGame.tsx:519-526 | The timer set by `completeLevelWithReward` calls the `handleFinalLevelComplete` of the render in which the level was completed. Its `gameState` is the record from before the reward, so the finish request sends `{stars, score}` without the last level's star and 100 points. | Finish the kit level with the record `{currentLevel 5, score 500, stars 4}`. The game-complete screen shows 600 points and 5 stars; the request sends 500 and 4. | The request carries the record the game-complete screen shows. | not executed | FireRules.FinishRequestAsWritten (with FireRules.StaleFinishRequest) | FireGame.FireGamePage.FinishGame (its postcondition `GameFinished` sends the record the screen shows) |
| src/pages/school/games/FireGame.tsx:920-930 | `onEnded={handleVideoEnd}` is set on an `<iframe>`, which fires no media `ended` event (the YouTube embed reports its end only by `postMessage` to a player object), so the 200 points and star of `handleVideoEnd` are never given. | Play the video level to its end and press "Далее" with the record `{currentLevel 4, score 700, stars 3}`: the record becomes 800 points and 4 stars. | The video's end gives 200 points and a star, as the level's text says, and "Далее" then gives the level reward: 1000 points and 5 stars. | not executed | FireRules.VideoLevelAsWritten (with FireRules.VideoRewardLost) | FireGame.FireGamePage.VideoEnd followed by FireGame.FireGamePage.CompleteLevelWithReward (FireRules.VideoLevelIntended) |
| src/pages/school/games/FireGame.tsx:511-534 | The level-complete modal (1009-1025) is a transparent overlay that takes no keyboard focus, and the level's buttons stay enabled under it. Pressing a focused "Далее" twice within 2000 ms runs `completeLevelWithReward` twice: two rewards and two timers. Each timer tests the level of the render it was set in and applies `prev.currentLevel + 1`. | At level 4 with the record `{currentLevel 4, score 700, stars 3}`, press Enter twice on "Далее": the record becomes level 6, 900 points and 5 stars, and no level renders. | One completion per level: one reward, then the next level. | not executed | FireRules.DoublePressAsWritten (with FireRules.DoublePressLeavesCatalog) | FireGame.FireGamePage.CompleteLevelWithReward under `Playing()` followed by FireGame.FireGamePage.FinishLevelTransition (FireRules.SinglePress) |
