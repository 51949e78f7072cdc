# Millionaire leaderboard — a Dafny model

This project models the core of a small React app and a Python script that
run a quiz-show leaderboard.

- **Admin panel** (`Admin.AdminPanel`). It loads the shared settings
  (`secret`, `winningPlayer`, `selectedImage`). It toggles the secret and
  picks the game image. It evaluates two games on the players' typed
  inputs:
  - the *token game*: a random draw weighted by each player's positive
    number;
  - the *unique bid game*: the lowest number that exactly one player typed.
- **Leaderboard** (`Leaderboard.Leaderboard`). It holds the roster and a
  separately sorted copy that is re-sorted on request. It lets the user
  select at most two players. Two selected players merge into a team, and
  one selected team breaks back into two singles. Money is moved with them.
- **Player card** (`PlayerCard.PlayerCard`). It offers the ±10 buttons and
  an inline editor. The editor sanitises the typed text to digits and one
  decimal point. Enter or blur commits a non-negative changed value,
  rounded to one decimal; Escape abandons the edit.
- **Game display** (`Game.GameView`, `GamePlayerCard`). It shows every
  player's input, masked as `*****` while the round is secret. Once the
  secret is off, it highlights the winner. It re-reads the settings when
  the storage entry changes.
- **Chit draw** (`Odds.DrawWinner`, from `odds.py`). Each team puts that
  many chits into a bowl, and one chit is drawn.

The JavaScript built-ins the core relies on are modelled once and shared:

- `trim`, `split(' ')`, `toUpperCase` on a–z (`JsText`);
- `parseInt`, `parseFloat`, and `Math.round(x * 10) / 10` (`JsNumber`);
- `getInitials`, which both card components define identically
  (`Initials`);
- the `Player` record (`Players`) and the settings record (`Settings`).

Host-provided values are parameters:

- `Math.random()` is a `rand` in `[0, 1)`.
- `Date.now()` is `now1` and `now2`.
- `random.choice` is `randBelow`, an index below the length.
- `moneyEarned.toString()` is the `moneyText` a card receives with the
  balance.
- The parsed storage entry is an `Option<StoredSettings>`, which is `None`
  when the entry is missing or does not parse.
- Money is `real`. The rounding of IEEE doubles is not modelled.

## Model

| member | source | states |
|---|---|---|
| Players.SetInput | src/components/Admin.tsx:81-92 | only the players with the id get the new input; every other field of every player, and the length, stay as they were |
| Players.SetInputLastWins | src/components/Game.tsx:93-104 | typing twice into the same card leaves only the second text |
| Players.SetInputWellFormed | src/components/Leaderboard.tsx:4-13 | an input update keeps every single with at least one name and every team with at least two |
| Settings.Decode | src/components/Admin.tsx:36-39 | a parsed entry sets secret unless it stores `false` (absent means true), and takes the winner and the image as stored |
| Settings.Refresh | src/components/Game.tsx:37-52 | a parsed entry replaces all three settings; a missing or unparsable one turns secret on and keeps the winner and the image |
| Settings.Encode | src/components/Admin.tsx:94-101 | the written record always holds a secret flag, and decoding it gives back exactly the settings written |
| Settings.RefreshAfterWrite | src/components/Admin.tsx:94-101 | the record the admin writes is read back by the display as exactly the admin's settings |
| Admin.InputNumber | src/components/Admin.tsx:117-120 | a player counts with a number only when its input is present and not blank |
| Admin.EntriesMembers | src/components/Admin.tsx:116-125 | the collected entries are the qualifying players, no more and no fewer, each with the number its input parses to |
| Admin.EntriesConcat | src/components/Admin.tsx:116-125 | the entries of a concatenated roster are the entries of each part in turn, so they keep roster order and one entry per qualifying player |
| Admin.SumPositive | src/components/Admin.tsx:127-136 | the total of positive tokens is positive when there is an entry, so the zero-total guard never fires on a non-empty list |
| Admin.DrawPoint | src/components/Admin.tsx:139 | `Math.random() * totalWeight` lies in `[0, totalWeight)` |
| Admin.DrawInInterval | src/components/Admin.tsx:139-151 | a point in the k-th player's interval `(Sum(prefix k), Sum(prefix k+1)]` draws that player |
| Admin.EvaluateTokenGame | src/components/Admin.tsx:112-152 | the winner is the weighted draw over the positive-token entries, and there is none exactly when no player typed a positive number |
| Admin.CollectTokenEntries | src/components/Admin.tsx:116-125 | the loop collects exactly the entries with a positive `parseInt` |
| Admin.DrawByWeight | src/components/Admin.tsx:127-151 | the accumulating loop returns the drawn player, and none only for an empty list |
| Admin.CountTwoEntries | src/components/Admin.tsx:173-176 | a value typed by two players is counted at least twice |
| Admin.CountOneEntry | src/components/Admin.tsx:173-176 | every typed value is counted at least once |
| Admin.LowestUniqueIsDetermined | src/components/Admin.tsx:179-189 | at most one entry holds the lowest value that occurs once |
| Admin.CountedOnce | src/components/Admin.tsx:179 | the filter keeps exactly the entries whose value was counted once |
| Admin.CountedOnceConcat | src/components/Admin.tsx:179 | filtering a concatenation filters each part, so the kept entries keep their order and multiplicity |
| Admin.MinValue | src/components/Admin.tsx:186 | the minimum is one of the values and no value is below it |
| Admin.FindValue | src/components/Admin.tsx:187 | `find` returns the first entry with the value; none is found exactly when no entry has it |
| Admin.UniqueBidWinner | src/components/Admin.tsx:179-189 | the lowest-unique bidder: none exactly when no entry holds a value typed once, otherwise the player of such an entry |
| Admin.UniqueBidWinnerIs | src/components/Admin.tsx:179-189 | the entry holding the lowest value typed once determines the winner |
| Admin.EvaluateUniqueBidGame | src/components/Admin.tsx:154-190 | the winner is the lowest-unique bidder: none exactly when no number was typed by exactly one player, otherwise the player who typed the lowest such number |
| Admin.CollectBidEntries | src/components/Admin.tsx:158-166 | the loop collects every present, non-blank input that parses, with any sign |
| Admin.LowestUniqueBidder | src/components/Admin.tsx:168-189 | the counting loop and filter, min and find return the lowest-unique bidder, or none when no value is unique |
| Admin.AdminPanel.constructor | src/components/Admin.tsx:32-53 | the settings are read from the entry as the display reads them; a missing or unparsable entry is rewritten as `{secret: true}` |
| Admin.AdminPanel.UpdateInput | src/components/Admin.tsx:81-92 | the roster gets the new input; the settings and the stored entry stay |
| Admin.AdminPanel.ToggleSecret | src/components/Admin.tsx:94-101 | only the secret flips, and the stored entry is the new settings |
| Admin.AdminPanel.ImageChange | src/components/Admin.tsx:103-110 | the empty path clears the image and any other path selects it; the stored entry follows |
| Admin.AdminPanel.RecordWinner | src/components/Admin.tsx:194-200 | a non-empty winner id is set and stored; a missing or empty one changes nothing |
| Admin.AdminPanel.TokenGame | src/components/Admin.tsx:192-201 | a non-empty token-draw winner becomes the winner and the new settings are stored; without one, winner and stored entry stay; roster, secret and image always stay |
| Admin.AdminPanel.UniqueBidGame | src/components/Admin.tsx:203-212 | a non-empty lowest-unique bidder becomes the winner and the new settings are stored; without one, winner and stored entry stay; roster, secret and image always stay |
| GamePlayerCard.Shown | src/components/GamePlayerCard.tsx:101-105 | a non-blank input is masked exactly when masking is on; otherwise the input itself is shown |
| GamePlayerCard.MaskHidesContent | src/components/GamePlayerCard.tsx:101-105 | any two non-blank inputs look the same while masked |
| GamePlayerCard.InputChange | src/components/GamePlayerCard.tsx:40-44 | a change is forwarded unmodified under the card's id exactly when the parent gave a callback |
| Game.IsWinner | src/components/Game.tsx:130 | a card is highlighted exactly when the secret is off and its id is the winning one |
| Game.ShownInput | src/components/Game.tsx:124-129 | while secret, a present non-blank input shows as the mask; in every other case, secret or not, the input is shown as it is, and an absent input as `''` |
| Game.SecretRevealsNothing | src/components/Game.tsx:124-130 | while secret, no card is highlighted and every card shows the mask or a blank text |
| Game.AtMostOneWinner | src/components/Game.tsx:130 | with distinct ids, at most one card is highlighted |
| Game.GameView.constructor | src/components/Game.tsx:18-34 | the mount reads the settings like a refresh from the initial state; nothing is written |
| Game.GameView.StorageChanged | src/components/Game.tsx:37-52 | the settings become the refresh of the old ones by the entry; the roster stays |
| Game.GameView.UpdateInput | src/components/Game.tsx:93-104 | the roster gets the new input; the settings stay |
| Initials.FirstChars | src/components/PlayerCard.tsx:43-44 | at most one character per piece; when no piece is empty, exactly the first character of each piece, in order |
| Initials.FirstCharsOfSplit | src/components/PlayerCard.tsx:42-44 | the first characters of the space-separated pieces are exactly the characters that start a word |
| Initials.GetInitials | src/components/PlayerCard.tsx:40-47 | the initials are the first two word starts, upper-cased, or fewer when there are fewer words |
| JsText.TrimStart | src/components/Admin.tsx:117 | the result is a suffix of the text that does not start with white space |
| JsText.TrimStartSkipsSpaces | src/components/Admin.tsx:117 | everything removed from the front is white space |
| JsText.TrimEnd | src/components/Admin.tsx:117 | the result is a prefix of the text that does not end with white space |
| JsText.TrimEndSkipsSpaces | src/components/Admin.tsx:117 | everything removed from the back is white space |
| JsText.Trim | src/components/Admin.tsx:117 | the result neither starts nor ends with white space, and it is empty exactly when the text is blank |
| JsText.TrimStartRemovesBlank | src/components/Admin.tsx:117 | the text is a blank prefix followed by the start-trimmed text |
| JsText.TrimEndRemovesBlank | src/components/Admin.tsx:117 | the text is the end-trimmed text followed by a blank suffix |
| JsText.TrimRemovesBlankEnds | src/components/Admin.tsx:117 | the trimmed text is a contiguous slice with only white space before and after it |
| JsText.TrimIdempotent | src/components/GamePlayerCard.tsx:102 | trimming twice is trimming once |
| JsText.Split | src/components/PlayerCard.tsx:42 | `split(' ')` gives at least one piece and no piece holds a space |
| JsText.SplitJoin | src/components/PlayerCard.tsx:42 | joining the pieces with spaces gives back the text |
| JsText.Upper | src/components/PlayerCard.tsx:45 | upper-casing keeps the length |
| JsNumber.DigitRun | src/components/Admin.tsx:120 | the leading run of digits ends at the first non-digit |
| JsNumber.DecimalText | src/components/PlayerCard.tsx:50 | the decimal text of `n` is all digits, denotes `n`, and starts with `0` only when it is exactly `"0"` for `n` = 0 |
| JsNumber.LeadingValue | src/components/Admin.tsx:120 | there is no number exactly when the text is empty or does not start with a digit |
| JsNumber.ParseInt | src/components/Admin.tsx:120 | `parseInt` is `NaN` exactly when, after leading white space and one sign, no digit follows |
| JsNumber.ParseIntReadsDigits | src/components/Admin.tsx:162 | a signed digit run followed by a non-digit parses to its signed value |
| JsNumber.ParseIntOfSigned | src/components/Admin.tsx:120 | a parse reads exactly the leading digit run |
| JsNumber.ParseFloatOfDigits | src/components/PlayerCard.tsx:86 | `parseFloat` of a digit string is its value |
| JsNumber.ParseFloatOfPointed | src/components/PlayerCard.tsx:86 | `parseFloat` of digits, a point and digits is the whole part plus the fraction over the power of ten; a lone point is `NaN` |
| JsNumber.FractionOfDigits | src/components/PlayerCard.tsx:86 | a point followed by digits is read whole as the fraction those digits denote |
| JsNumber.ParseFloatOfDecimal | src/components/PlayerCard.tsx:86 | `parseFloat` reads back a balance's decimal text |
| JsNumber.RoundToTenth | src/components/PlayerCard.tsx:88 | `Math.round(v * 10) / 10` has one decimal, lies within 0.05 of `v`, and is non-negative for non-negative `v` |
| JsNumber.RoundToTenthIdempotent | src/components/PlayerCard.tsx:88 | rounding a rounded value changes nothing |
| PlayerCard.KeepDigitsAndDots | src/components/PlayerCard.tsx:80 | the first replace keeps exactly the digits and points: a single character survives exactly when it is a digit or point |
| PlayerCard.KeepDigitsAndDotsConcat | src/components/PlayerCard.tsx:80 | filtering a concatenation is the concatenation of the filtered parts, so the kept characters keep their order |
| PlayerCard.LastDot | src/components/PlayerCard.tsx:80 | finds the last point of a text that holds one or more |
| PlayerCard.Sanitize | src/components/PlayerCard.tsx:78-82 | the sanitized text holds only digits and points and keeps every digit; when two or more points remain, exactly the last one is removed, otherwise the filtered text is kept as is |
| PlayerCard.DropPoint | src/components/PlayerCard.tsx:80 | dropping the last point removes one point and keeps the digits |
| PlayerCard.TypingKeepsOnePoint | src/components/PlayerCard.tsx:78-82 | typing one character into a field with at most one point leaves at most one point |
| PlayerCard.PastedPointsSurvive | src/components/PlayerCard.tsx:80 | pasting `1.2.3.4` leaves `1.2.34`: one pass of the second replace removes only the last point |
| PlayerCard.SanitizeFixes | src/components/PlayerCard.tsx:78-82 | sanitizing a sanitized value with at most one point changes nothing |
| PlayerCard.CommitValue | src/components/PlayerCard.tsx:85-89 | a value is committed exactly when it is a number, non-negative and different from the balance; it is that value rounded to one decimal |
| PlayerCard.CommitUnchangedSendsNothing | src/components/PlayerCard.tsx:84-92 | committing the balance's own text sends no update |
| PlayerCard.PlayerCard.constructor | src/components/PlayerCard.tsx:49-50 | the card starts out of editing mode, with the balance's text in the editor |
| PlayerCard.PlayerCard.ReceiveMoney | src/components/PlayerCard.tsx:54-56 | a new balance reaches the editor only outside editing |
| PlayerCard.PlayerCard.IncreaseMoney | src/components/PlayerCard.tsx:58-62 | asks for ten more exactly when there is a callback |
| PlayerCard.PlayerCard.DecreaseMoney | src/components/PlayerCard.tsx:64-68 | asks for ten less exactly when there is a callback and the balance is at least ten, so never below zero |
| PlayerCard.PlayerCard.MoneyClick | src/components/PlayerCard.tsx:207-211 | the editor opens only when there is a callback |
| PlayerCard.PlayerCard.InputChange | src/components/PlayerCard.tsx:78-82 | the editor holds the sanitized typed text |
| PlayerCard.PlayerCard.FinishEdit | src/components/PlayerCard.tsx:84-92 | editing ends with the balance's text shown again; an update is sent exactly when committing with a callback and a qualifying value |
| PlayerCard.PlayerCard.InputKeyDown | src/components/PlayerCard.tsx:94-101 | Enter commits, and an update it sends carries the editor's parsed value rounded to one decimal; Escape abandons without an update; other keys change nothing |
| Leaderboard.SetMoney | src/components/Leaderboard.tsx:48-52 | only the players with the id get the new balance; everything else stays |
| Leaderboard.SetMoneyPermutation | src/components/Leaderboard.tsx:55-62 | the same balance update on the roster and on its sorted copy keeps them permutations of each other |
| Leaderboard.SetMoneyWellFormed | src/components/Leaderboard.tsx:46-65 | a balance update keeps the roster well formed |
| Leaderboard.Insert | src/components/Leaderboard.tsx:69 | inserting adds one player |
| Leaderboard.InsertPermutation | src/components/Leaderboard.tsx:69 | inserting adds exactly that player |
| Leaderboard.InsertSorted | src/components/Leaderboard.tsx:69 | inserting into a list sorted by falling balance keeps it sorted |
| Leaderboard.InsertEarning | src/components/Leaderboard.tsx:69 | an inserted player comes before every player of the list with the same balance |
| Leaderboard.SortByMoney | src/components/Leaderboard.tsx:69 | the sort by falling balance is sorted and is a permutation of its input |
| Leaderboard.SortByMoneyStable | src/components/Leaderboard.tsx:69 | the sort is stable: players with equal balance keep their order |
| Leaderboard.SortSortedIsIdentity | src/components/Leaderboard.tsx:67-72 | re-sorting an already sorted board changes nothing |
| Leaderboard.WithRanks | src/components/Leaderboard.tsx:146-149 | the player at position i gets rank i + 1; nothing else changes |
| Leaderboard.RanksFollowMoney | src/components/Leaderboard.tsx:146-149 | on a sorted board a better rank never has less money |
| Leaderboard.RemoveId | src/components/Leaderboard.tsx:77 | the filter removes exactly that id and keeps the ids distinct |
| Leaderboard.Toggle | src/components/Leaderboard.tsx:74-84 | a selected id is removed by the order-keeping filter; an unselected one is appended at the end only while fewer than two are selected, else the selection stays; other ids and distinctness stay |
| Leaderboard.RemoveIdConcat | src/components/Leaderboard.tsx:77 | filtering a concatenation filters each part, so the remaining ids keep their order |
| Leaderboard.ToggleTwice | src/components/Leaderboard.tsx:74-84 | selecting and then deselecting a player restores the selection |
| Leaderboard.Find | src/components/Leaderboard.tsx:89-90 | `find` returns the first player with the id, and none exactly when no player has it |
| Leaderboard.Drop | src/components/Leaderboard.tsx:110 | the filter keeps exactly the players whose id is not removed; a single player is kept exactly when its id is not removed |
| Leaderboard.DropConcat | src/components/Leaderboard.tsx:110 | filtering a concatenation is the concatenation of the filtered parts, so the kept players keep their order |
| Leaderboard.TotalMoneyConcat | src/components/Leaderboard.tsx:110 | the money of a concatenation is the sum of the parts' money |
| Leaderboard.DropOne | src/components/Leaderboard.tsx:138 | removing an id removes its players and their money |
| Leaderboard.DropTwo | src/components/Leaderboard.tsx:110 | removing two ids removes their players and their money |
| Leaderboard.OrAvatar | src/components/Leaderboard.tsx:107 | `a \|\| b \|\| undefined` yields a non-empty `a` when there is one, else a non-empty `b`, else none |
| Leaderboard.NewTeam | src/components/Leaderboard.tsx:102-108 | the team's id is `team-` with the two ids joined by `-`; it holds the two first names, the sum of the two balances and the preferred avatar as team avatar, and no own avatar, rank or input |
| Leaderboard.TeamExistsEitherOrder | src/components/Leaderboard.tsx:93-97 | the duplicate check does not depend on the order of the two players |
| Leaderboard.MergedTeamBlocksRepeat | src/components/Leaderboard.tsx:93-97 | once two players are merged, merging two players with the same first names, in either order, is refused as a duplicate |
| Leaderboard.MergePair | src/components/Leaderboard.tsx:93-110 | merging two found players is a duplicate exactly when a team with their first names exists; otherwise the roster is the filtered roster followed by the new team, still well formed |
| Leaderboard.MakeTeamResult | src/components/Leaderboard.tsx:86-115 | something happens exactly when two selected ids are both found; it is a duplicate exactly when a team with the found players' first names exists; a merge gives the roster without the two ids followed by the new team of the two found players |
| Leaderboard.MakeTeamKeepsMoney | src/components/Leaderboard.tsx:110 | with distinct ids present once each, a merge keeps the total money and shortens the roster by one |
| Leaderboard.SplitTeam | src/components/Leaderboard.tsx:121-136 | the team splits into two singles with ids `<team id>-1-<now1>` and `<team id>-2-<now2>`, one name each, half the money each, the team picture as avatar, and no rank, team avatar or input |
| Leaderboard.BreakTeamResult | src/components/Leaderboard.tsx:117-143 | a break happens exactly when the one selected id is a team; the team is replaced by its two halves at the end |
| Leaderboard.BreakTeamKeepsMoney | src/components/Leaderboard.tsx:138 | with the team present once, a break keeps the total money and lengthens the roster by one |
| Leaderboard.Leaderboard.constructor | src/components/Leaderboard.tsx:20-22 | the board starts with the roster, its sorted copy and no selection |
| Leaderboard.Leaderboard.UpdatePlayer | src/components/Leaderboard.tsx:46-65 | the roster and the unsorted copy both get the new balance, keeping them permutations of each other |
| Leaderboard.Leaderboard.Resort | src/components/Leaderboard.tsx:67-72 | only the displayed copy is re-sorted |
| Leaderboard.Leaderboard.SelectPlayer | src/components/Leaderboard.tsx:74-84 | the selection toggles and stays at most two distinct ids |
| Leaderboard.Leaderboard.MakeTeam | src/components/Leaderboard.tsx:86-115 | a merge replaces the roster, re-sorts and clears the selection; a duplicate team only alerts; otherwise nothing changes |
| Leaderboard.Leaderboard.BreakTeam | src/components/Leaderboard.tsx:117-143 | a break replaces the roster, re-sorts and clears the selection; otherwise nothing changes |
| Leaderboard.Leaderboard.ReplaceRoster | src/components/Leaderboard.tsx:110-114 | a new roster is stored with its sorted copy and an empty selection |
| Leaderboard.Leaderboard.PlayersWithRank | src/components/Leaderboard.tsx:146-149 | entry i of the displayed list is the i-th player of the sorted list with rank i + 1, and nothing else changes |
| Odds.Repeat | odds.py:11 | `[team] * chits` has `chits` copies of the team, none for a count of zero or below |
| Odds.BowlShape | odds.py:8-11 | the bowl holds one chit per chit given, each naming a team in range, grouped in increasing team order |
| Odds.BowlCount | odds.py:8-11 | every team has exactly its given number of chits in the bowl (none for a non-positive answer), and no other number appears |
| Odds.BowlEmpty | odds.py:14-16 | the bowl is empty exactly when no team was given a positive number of chits |
| Odds.DrawWinner | odds.py:5-18 | there is no draw exactly when the bowl is empty; otherwise the winner is the chosen chit, a team in range that was given chits |

## Left out

- Storage, JSON and the network:
  - `localStorage` reads and writes, `JSON.parse` and `JSON.stringify` are not modelled.
  - The settings entry the admin writes is kept as the field `persisted`.
  - The players are never persisted. This covers the writes to `millionaire-players` in `Admin.tsx:89`, `Game.tsx:101` and `Leaderboard.tsx:54,113,141`.
- Loading the roster is not modelled; every view receives it as a parameter. This covers the fetch of `/players.json` and the loading effects at `Admin.tsx:56-79`, `Game.tsx:67-91` and `Leaderboard.tsx:24-44`.
- Events and timers are not modelled: the `storage` and `admin-settings-changed` listeners, `dispatchEvent`, unmounting, and focus and selection after the `setTimeout` in `handleMoneyClick`.
- Rendering is not modelled: JSX, the image list, `formatMoney` and styling. Only the masked text and the winner highlight are modelled.
- `alert`: it is modelled as the `alerted` flag that `Leaderboard.Leaderboard.MakeTeam` returns.
- `App.tsx` and `src/components/ui/tabs.tsx` are not part of this model.
- Floating point: money is `real`. Halves from `/ 2`, the running token total and `Math.round` are exact in the model.
- Text encoding: strings are sequences of code points, with no UTF-16 surrogates. `toUpperCase` maps only a–z, and the white space of `trim` is the fixed set of characters in `JsText.IsSpace`.
- `parseInt` reads arbitrarily many digits exactly, with no precision loss.
- JsNumber.DecimalText: it gives plain decimal digits for every natural number. `String(n)` switches to exponent notation (`1e+21`) from 10^21 upward, and that form is not modelled. The clock readings in the split ids are far below that bound.
- `parseFloat` does not read the literal `Infinity`.
- `moneyEarned.toString()` is not modelled. The host supplies its text as `moneyText`, and only natural numbers are shown to read back (`JsNumber.ParseFloatOfDecimal`).
- `Date.now()` is two parameters, because the two team halves read the clock separately.
- odds.py:
  - The console dialogue is not modelled. The answers are `numTeams` and the list `chits`, which must hold an answer for every team.
  - A non-numeric answer raises an error in `int()`, and that error is not modelled.
  - The printed messages are not modelled.
- Leaderboard.Leaderboard.constructor, Leaderboard.Leaderboard.ReplaceRoster, Leaderboard.MergePair, Leaderboard.MakeTeamResult, Leaderboard.BreakTeamResult, Leaderboard.MakeTeamKeepsMoney and Leaderboard.BreakTeamKeepsMoney: these require a well-formed roster, in which every single has at least one name and every team at least two. The type `names: string[]` (`Leaderboard.tsx:7`) allows an empty list, and the source then reads `undefined` from `names[0]` or `names[1]`; the model does not give that case a meaning.
- Leaderboard.MakeTeamKeepsMoney: this holds only when the two selected ids are distinct and each occurs once in the roster. The source never enforces unique ids, and a team's id from `team-${id1}-${id2}` can in principle collide.
- Leaderboard.BreakTeamKeepsMoney: this holds only when the team's id occurs once. A filter by id removes every player with that id.
- PlayerCard.PlayerCard.FinishEdit: in the source, `finishEdit` only clears `isEditing`, and the re-sync effect (`PlayerCard.tsx:54-56`) then resets the editor text. The model does both in one step.
- PlayerCard.CommitValue: it compares the unrounded value with the balance (`PlayerCard.tsx:87`). A typed value that differs but rounds to the current balance is still sent, as in the source.
- Game.GameView.UpdateInput: in the display, the input field is `readOnly` (`Game.tsx:128`), so the handler cannot fire from the UI; it is modelled for its effect alone.
- The model follows the code:
  - a team is formed from exactly two selected players;
  - the duplicate-team check compares first names in either order, over teams only;
  - a team can itself be merged into a new team.
