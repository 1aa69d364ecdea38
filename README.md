# TgFun decision core in Dafny

A model of the decision logic of the TgFun chat-game bot, with proofs about
it. The bot reads messages from a game bot in a chat and answers by sending
texts or pressing keyboard buttons. The model covers:

- **Text normalisation** (`strip_message`): newlines become spaces, outer
  whitespace is stripped, the text is lower-cased. Module `Text`, which also
  defines substring containment (Python's `in` on strings).
- **Keyboards and markers** (`get_buttons_flat` and the marker characters).
  Module `Buttons`.
- **The state classifier**: sixteen predicates, each a substring test on the
  normalised text. Four of them also need a non-empty keyboard. Module
  `States`. Each predicate is named by a constructor of `State`, and `Holds`
  says which predicate recognises which state.
- **The ordered dispatch tables**: the first rule whose state is recognised
  selects the handler, and the skip handler is the fallback. Module
  `Dispatch` holds the generic first-match selection. `FarmingTrainer` and
  `RunningTrainer` hold the two tables and the per-message handler.
- **The button registry**: a map from category name to stored labels.
  `update_available_buttons` appends the labels of a keyboard and
  de-duplicates every category. `handle_button_event` presses a stored label
  that contains a symbol. Module `Registry` models it as the class
  `ButtonRegistry`, whose `available` field the methods update in place.
- **The handlers** of the farming trainer (`FarmingHandlers`) and the
  running trainer's own `start_fighting` and `search_next`
  (`RunningTrainer`). Each handler returns its outgoing effects in order
  (module `Effects`): sends, clicks, sleeps, pauses and notifications.
- **The operator command handler** (`Manager`): normalised `!stop`,
  `!start`, `!exit` and `!help` commands. They write the pause flag
  (class `ControlFlags`), request an exit or ping the game bot, and always
  end with marking the message read and one reply.

The stat parsers `get_energy_level` and `get_hp_level` are not part of this
model. Their outcome for a message is an input to the handlers, of type
`Parsed`: a level, no level, or an exception. The two settings the farming
trainer reads, the HP threshold and whether to farm dungeons, are
parameters.

## Model

| member | source | states |
|---|---|---|
| Text.LowerChar | tg_fun/game/parsers.py:11 | the lowered character is not upper-case, non-upper-case characters are unchanged, whitespace and newlines keep their kind |
| Text.ReplaceNewlines | tg_fun/game/parsers.py:11 | same length, no newline left, every other character kept in place |
| Text.Lower | tg_fun/game/parsers.py:11 | same length and the result is lower-case |
| Text.TrimLeft | tg_fun/game/parsers.py:11 | `lstrip`: leading whitespace is dropped one character at a time; `TrimLeftFacts` states what is kept and dropped |
| Text.TrimRight | tg_fun/game/parsers.py:11 | `rstrip`: trailing whitespace is dropped one character at a time; `TrimRightFacts` states what is kept and dropped |
| Text.Strip | tg_fun/game/parsers.py:11 | `strip` is `rstrip` after `lstrip`; `StripIsSlice`, `StripHasNoOuterSpace` and `StripKeepsCharacters` state its result |
| Text.TrimLeftFacts | tg_fun/game/parsers.py:11 | `lstrip` keeps a suffix, drops only whitespace, and the result does not start with whitespace |
| Text.TrimRightFacts | tg_fun/game/parsers.py:11 | `rstrip` keeps a prefix, drops only whitespace, and the result does not end with whitespace |
| Text.StripMessage | tg_fun/game/parsers.py:9-11 | the normalised text has no newline, no leading or trailing whitespace, and is lower-case |
| Text.LowerKeepsLayout | tg_fun/game/parsers.py:11 | lower-casing adds no newline and keeps the outer characters non-whitespace |
| Text.StripKeepsCharacters | tg_fun/game/parsers.py:11 | stripping introduces no character |
| Text.StripHasNoOuterSpace | tg_fun/game/parsers.py:11 | a stripped text neither starts nor ends with whitespace |
| Text.StripIsSlice | tg_fun/game/parsers.py:11 | the stripped text is a contiguous slice, and everything outside it is whitespace |
| Text.StripMessageIsSlice | tg_fun/game/parsers.py:11 | the normalised text is, character by character, the lowered slice of the raw text in which each newline became one space (never deleted), and only whitespace lies outside the slice |
| Text.LowerOfLowerCase | tg_fun/game/parsers.py:11 | lower-casing a lower-case text changes nothing |
| Text.StripMessageIdempotent | tg_fun/game/parsers.py:11 | `strip_message(strip_message(s)) == strip_message(s)` |
| Text.NormalisedUnchanged | tg_fun/game/parsers.py:11 | a text with no newline, no outer whitespace and no upper-case letter is its own normalised form |
| Text.NoNewlineUnchanged | tg_fun/game/parsers.py:11 | replacing newlines in a text without newlines changes nothing |
| Text.NoOuterSpaceUnchanged | tg_fun/game/parsers.py:11 | stripping a text without outer whitespace changes nothing |
| Text.NormalisedIsFixedPoint | tg_fun/plugins/manager.py:33 | the extra `.lower().strip()` after `strip_message` changes nothing |
| Text.TrimLeftSimilar | tg_fun/game/parsers.py:11 | `lstrip` of two texts with whitespace in the same places and the same lowered characters gives two such texts |
| Text.TrimRightSimilar | tg_fun/game/parsers.py:11 | the same for `rstrip` |
| Text.ReplaceNewlinesSimilar | tg_fun/game/parsers.py:11 | texts that agree after newline replacement and lowering agree in whitespace positions and lowered characters |
| Text.StripMessageRespectsNormChar | tg_fun/game/parsers.py:11 | changing a letter's case, or a newline into a space, never changes the normalised text |
| Text.TrimLeftAppend | tg_fun/game/parsers.py:11 | appending text after a text that is not all whitespace commutes with `lstrip` |
| Text.TrimRightAppend | tg_fun/game/parsers.py:11 | the `rstrip` of a text is a prefix of the `rstrip` of any extension |
| Text.StripMessageAppend | tg_fun/game/parsers.py:11 | appending raw text keeps the normalised text a prefix of the new normalised text |
| Text.ReplaceNewlinesAppend | tg_fun/game/parsers.py:11 | newline replacement distributes over concatenation |
| Text.LowerPrefix | tg_fun/game/parsers.py:11 | lower-casing preserves the prefix order |
| Text.Contains | tg_fun/game/state/common.py:13 | Python's `in` on strings: the pattern occurs at some position of the text; `ContainsExtend`, `ContainsTransitive`, `ContainsNonEmpty` and `ContainsSelf` state its properties |
| Text.ContainsExtend | tg_fun/game/state/common.py:13 | a substring of a text is a substring of every extension of that text |
| Text.ContainsTransitive | tg_fun/trainer/handlers/farming.py:86-87 | a text that contains a label that contains a marker contains the marker |
| Text.ContainsNonEmpty | tg_fun/trainer/running.py:123-125 | a text that contains a non-empty pattern is non-empty |
| Text.ContainsSelf | tg_fun/trainer/handlers/farming.py:86-87 | every text contains itself |
| Buttons.MarkersDistinct | tg_fun/game/buttons.py:7-16 | the eight marker characters are pairwise distinct, one code point each |
| Buttons.Concat | tg_fun/game/buttons.py:22 | the chained rows are as long as all rows together |
| Buttons.GetButtonsFlat | tg_fun/game/buttons.py:18-22 | no keyboard or an empty keyboard gives no buttons; otherwise the rows chained in row-major order (`Concat`, whose positions `ConcatAt` and `ConcatFrom` give), as long as all rows together |
| Buttons.Texts | tg_fun/trainer/running.py:103-104 | the labels of a button list, one per button, in order |
| Buttons.ConcatAt | tg_fun/game/buttons.py:22 | button `c` of row `r` sits at flat position `TotalLength(rows[..r]) + c` |
| Buttons.ConcatFrom | tg_fun/game/buttons.py:22 | every flat position comes from exactly such a row and column, so order within and across rows is kept |
| States.IsWinState | tg_fun/game/state/common.py:10-13 | `ты одержал победу` occurs in the normalised text |
| States.IsLoseState | tg_fun/game/state/common.py:16-26 | one of the two defeat patterns occurs; `MultiPatternPredicates` spells them out |
| States.IsAlive | tg_fun/game/state/common.py:29-39 | one of the two revival patterns occurs; `MultiPatternPredicates` spells them out |
| States.IsHpRecovered | tg_fun/game/state/common.py:42-45 | `здоровье пополнено` occurs |
| States.IsEmptyEnergy | tg_fun/game/state/common.py:48-58 | one of the two empty-energy patterns occurs; `MultiPatternPredicates` spells them out |
| States.IsEnergyRecovered | tg_fun/game/state/common.py:61-64 | `к энергии` occurs |
| States.IsLocations | tg_fun/game/state/common.py:67-73 | there is a keyboard and `пора в бой` occurs; `NoButtonsNoGatedState` and `GatedWithButtons` split the two conditions |
| States.IsMonsterFound | tg_fun/game/state/common.py:76-87 | one of the two encounter patterns occurs; `MultiPatternPredicates` spells them out |
| States.IsMonsterNotFound | tg_fun/game/state/common.py:90-100 | the one "no monster yet" pattern occurs; `MultiPatternPredicates` spells it out |
| States.IsTown | tg_fun/game/state/common.py:103-109 | there is a keyboard and `ты дошел до локации` occurs; `NoButtonsNoGatedState` and `GatedWithButtons` split the two conditions |
| States.IsDangeon | tg_fun/game/state/common.py:112-115 | `вперед на встречу с монстрами` occurs |
| States.IsChooseDangeon | tg_fun/game/state/common.py:118-121 | `какой данж запустим` occurs |
| States.IsApproveDangeon | tg_fun/game/state/common.py:124-127 | `что хочешь попробовать пройти данж` occurs |
| States.IsDangeonFinished | tg_fun/game/state/common.py:130-133 | `вы успешно прошли` occurs |
| States.IsInit | tg_fun/game/state/common.py:136-142 | there is a keyboard and `кнопочки` occurs; `NoButtonsNoGatedState` and `GatedWithButtons` split the two conditions |
| States.IsCapchaFound | tg_fun/game/state/common.py:145-151 | there is a keyboard and the captcha pattern occurs; `NoButtonsNoGatedState` and `GatedWithButtons` split the two conditions |
| States.Holds | tg_fun/game/state/common.py:10-151 | the predicate that recognises each state; `SameViewSameState`, `ClassifierRespectsNormalisation` and `StatesSurviveSuffix` state what it depends on |
| States.EveryStateListed | tg_fun/game/state/common.py:10-151 | the catalogue of states has one entry per predicate |
| States.NoButtonsNoGatedState | tg_fun/game/state/common.py:67-151 | without a keyboard `is_locations`, `is_town`, `init` and `is_capcha_found` are false |
| States.GatedWithButtons | tg_fun/game/state/common.py:67-151 | with a keyboard each gated predicate is exactly its containment test |
| States.TextOnlyIgnoresButtons | tg_fun/game/state/common.py:10-133 | the predicates that are not gated give the same answer for the same text, whatever the keyboard |
| States.AnyPatternOfPair | tg_fun/game/state/common.py:16-26 | the pattern-set loop over a two-element set holds exactly when one of the two occurs |
| States.MultiPatternPredicates | tg_fun/game/state/common.py:16-100 | `is_lose_state`, `is_alive`, `is_empty_energy`, `is_monster_found` and `is_monster_not_found` hold exactly when one of their patterns occurs, whatever the visiting order |
| States.ClassifierRespectsNormalisation | tg_fun/game/state/common.py:10-151 | texts that differ only in letter case or newline against space are classified alike |
| States.SameViewSameState | tg_fun/game/state/common.py:10-151 | a state depends only on the normalised text and on whether there is a keyboard |
| States.ContainsSurvivesSuffix | tg_fun/game/state/common.py:10-151 | a pattern found in the normalised text is still found after text is appended to the raw message |
| States.AnyPatternSurvivesSuffix | tg_fun/game/state/common.py:16-100 | the same for a pattern set |
| States.StatesSurviveSuffix | tg_fun/game/state/common.py:10-151 | appending text to a message never takes a recognised state away |
| Effects.Known | tg_fun/trainer/handlers/farming.py:96-100 | a stat as the handlers with a `try` see it: a value exactly when a level was read |
| Registry.ElemsAppend | tg_fun/trainer/running.py:103-104 | the labels of an appended list are those of both parts |
| Registry.Dedup | tg_fun/trainer/running.py:114 | `list(set(...))` is duplicate-free and has exactly the same labels |
| Registry.FirstContaining | tg_fun/trainer/running.py:123 | `next(...)` finds a stored label containing the symbol, and finds none exactly when no stored label contains it |
| Registry.UpdateView | tg_fun/trainer/running.py:96-116 | an update keeps the categories, never removes a label, leaves other categories unchanged, and adds exactly the new labels to a known category |
| Registry.UpdateViewIdempotent | tg_fun/trainer/running.py:114 | updating twice with the same keyboard gives the label sets of updating once |
| Registry.UpdateViewNoop | tg_fun/trainer/running.py:99-116 | no labels, or an unknown category, change nothing |
| Registry.DedupAll | tg_fun/trainer/running.py:114 | the de-duplication keeps the categories and leaves every list duplicate-free |
| Registry.DedupAllKeepsView | tg_fun/trainer/running.py:114 | de-duplication keeps every category's label set |
| Registry.AppendIsUpdateView | tg_fun/trainer/running.py:101-113 | appending a keyboard's labels to a category is `UpdateView` on the label sets |
| Registry.ButtonRegistry.Labels | tg_fun/trainer/running.py:122 | `available_buttons.get(category, [])` as a label set |
| Registry.ButtonRegistry.constructor | tg_fun/trainer/running.py:17-21 | the registry starts with the given categories, all empty and duplicate-free |
| Registry.ButtonRegistry.Update | tg_fun/trainer/running.py:96-116 | the append loop plus de-duplication keeps every list duplicate-free and the categories fixed, and its label sets are `UpdateView` of the old ones; without buttons nothing changes |
| Registry.ButtonRegistry.HandleButtonEvent | tg_fun/trainer/running.py:119-130 | it returns true exactly when it sends; for a non-empty symbol, exactly when a stored label of the category contains the symbol, and then it pauses and sends such a label; the registry is not changed |
| Registry.ButtonRegistry.PressMarked | tg_fun/trainer/handlers/farming.py:83-87 | when a stored label contains the marker: a pause, then the press of a label containing it; otherwise no effect |
| Dispatch.Recognised | tg_fun/trainer/farming.py:92-93 | the recognised states are exactly those whose predicate holds for the message |
| Dispatch.FirstMatch | tg_fun/trainer/farming.py:92-95 | the position of the first rule whose state is recognised: no rule before it matches, and the rule there does |
| Dispatch.Select | tg_fun/trainer/farming.py:92-96 | the handler of the first matching rule, the skip handler when none matches |
| Dispatch.SelectFromFirstMatch | tg_fun/trainer/farming.py:92-95 | any handler other than the fallback comes from the first matching rule |
| Dispatch.FirstMatchIs | tg_fun/trainer/farming.py:92-95 | the first match is unique |
| Dispatch.SelectAtFirstMatch | tg_fun/trainer/farming.py:92-96 | the selection is the first match's handler, or the fallback at the end |
| Dispatch.DropUnmatchedRule | tg_fun/trainer/farming.py:92-95 | removing a rule whose state is not recognised never changes the selection |
| Dispatch.SelectedByPrefix | tg_fun/trainer/farming.py:92-95 | the rules after a prefix that already selects a handler do not matter |
| Dispatch.SkipExactlyWhenNoMatch | tg_fun/trainer/farming.py:96 | in a table without the skip handler, the fallback is selected exactly when no rule matches |
| Dispatch.EmbeddedAgrees | tg_fun/trainer/running.py:89-93 | a table whose rules sit in order in another table, all of whose other rules are unrecognised, selects the same handler as that table (the first-match loops of both trainers) |
| FarmingHandlers.EnergyCooldown | tg_fun/trainer/handlers/farming.py:96-104 | the one-hour wait happens exactly when the energy was read and is at most zero |
| FarmingHandlers.SearchNextPlan | tg_fun/trainer/handlers/farming.py:117-134 | a parse failure of either stat means a plain search; back to town exactly when a known HP is at or below the threshold, before energy is looked at; the cooldown exactly when known energy is at most zero and HP is not low |
| FarmingHandlers.InitChoice | tg_fun/trainer/handlers/farming.py:22-36 | nothing without buttons or markers; otherwise the handler of the first marker in the priority HEAL, TO_FIGHT_ZONE, ATTACK, TO_DANGEONS that some button shows |
| FarmingHandlers.Init | tg_fun/trainer/handlers/farming.py:22-36 | runs the handler `InitChoice` names, with that handler's outcome, or changes nothing |
| FarmingHandlers.GoToFightZone | tg_fun/trainer/handlers/farming.py:80-89 | the location labels are updated from the event, then a label containing TO_FIGHT_ZONE is pressed if one is stored |
| FarmingHandlers.StartFighting | tg_fun/trainer/handlers/farming.py:92-112 | the fight-zone labels are updated, the cooldown comes first when known energy is at most zero, then an attack label is pressed if one is stored |
| FarmingHandlers.SearchNext | tg_fun/trainer/handlers/farming.py:115-134 | carries out `SearchNextPlan`: back to town, or the find-monster press after the cooldown or after the short pause; the registry is only read |
| FarmingHandlers.ReturnToTown | tg_fun/trainer/handlers/farming.py:137-145 | a stored fight-zone label containing TO_TOWN is pressed if there is one |
| FarmingHandlers.InTown | tg_fun/trainer/handlers/farming.py:148-157 | the town labels are updated, then a label containing HEAL is pressed if one is stored |
| FarmingHandlers.GoToLocations | tg_fun/trainer/handlers/farming.py:160-168 | a stored town label containing TO_LOCATIONS is pressed if there is one |
| FarmingHandlers.PickDangeon | tg_fun/trainer/handlers/farming.py:171-179 | a stored town label containing TO_DANGEONS is pressed if there is one |
| FarmingHandlers.GoToDangeon | tg_fun/trainer/handlers/farming.py:182-191 | the dungeon labels are updated, then a label containing TO_DANGEONS is pressed if one is stored |
| FarmingHandlers.ChooseDangeon | tg_fun/trainer/handlers/farming.py:194-197 | always the short pause and `/go_dange_10000` |
| FarmingHandlers.StartDangeon | tg_fun/trainer/handlers/farming.py:200-211 | at most one click: on the first button in row-major order labelled exactly `✅Да`; no click exactly when there is none |
| FarmingHandlers.Relaxing | tg_fun/trainer/handlers/farming.py:214-218 | a one-hour wait, then `/buttons` |
| FarmingTrainer.FarmingTable | tg_fun/trainer/farming.py:69-90 | fourteen rules, none the skip handler; the HP-recovered rule picks `pick_dangeon` or `go_to_locations` by the dungeon setting |
| FarmingTrainer.SelectFarming | tg_fun/trainer/farming.py:68-96 | the farming table's first matching rule, or the skip handler; the lemmas below state which messages reach each handler |
| FarmingTrainer.InitAlwaysWins | tg_fun/trainer/farming.py:70 | a message with a keyboard whose text contains `кнопочки` always selects `init` |
| FarmingTrainer.GatedRules | tg_fun/trainer/farming.py:70-86 | the rules for `init`, `go_to_fight_zone` and `resolve_capcha` all have a button-gated state |
| FarmingTrainer.GatedHandlersNeedGatedState | tg_fun/trainer/farming.py:70-86 | without a recognised gated state, `init`, `go_to_fight_zone` and `resolve_capcha` are never selected |
| FarmingTrainer.NoButtonsNoGatedHandler | tg_fun/trainer/farming.py:70-86 | a message without a keyboard never selects `init`, `go_to_fight_zone` or `resolve_capcha` |
| FarmingTrainer.SkipOnlyWithoutMatch | tg_fun/trainer/farming.py:92-96 | the skip handler is selected exactly when no state of the table is recognised |
| FarmingTrainer.RulePositions | tg_fun/trainer/farming.py:75-89 | which rules lead to `search_next`, `in_town`, the HP-recovered handler and `relaxing` |
| FarmingTrainer.SearchNextRoutes | tg_fun/trainer/farming.py:74-76 | `search_next` is selected exactly when "monster not found" or a win is recognised and none of the three rules before them matches |
| FarmingTrainer.InTownRoutes | tg_fun/trainer/farming.py:78-79 | `in_town` is selected exactly when the town or "alive again" is recognised and none of the five rules before them matches |
| FarmingTrainer.HpRecoveredRoute | tg_fun/trainer/farming.py:80 | `go_to_locations` or `pick_dangeon` is selected exactly when "HP recovered" is the first match, and never the one the dungeon setting does not name |
| FarmingTrainer.EmptyEnergyRelaxesLast | tg_fun/trainer/farming.py:84-89 | an empty-energy message reaches `relaxing` exactly when no earlier rule matches, or when a finished dungeon is the first match |
| FarmingTrainer.RunHandler | tg_fun/trainer/farming.py:65 | running the selected handler has that handler's outcome and keeps the registry's categories |
| FarmingTrainer.HandleMessage | tg_fun/trainer/farming.py:57-65 | the message is marked read first, then the handler the table selects runs, with its outcome |
| RunningTrainer.RunningTable | tg_fun/trainer/running.py:75-87 | six rules, none the skip handler |
| RunningTrainer.SelectRunning | tg_fun/trainer/running.py:74-93 | the running table's first matching rule, or the skip handler; `RunningSelectsOnlyItsHandlers` and `RunningAgreesWithFarming` state its choices |
| RunningTrainer.RunningSelectsOnlyItsHandlers | tg_fun/trainer/running.py:74-93 | the running trainer selects only its five handlers or the skip handler (never a dungeon, captcha or energy handler), and skips exactly when none of its six states is recognised |
| RunningTrainer.RunningRulesInFarmingTable | tg_fun/trainer/running.py:75-87 | the running rules are farming rules, with dungeons off, in the same order |
| RunningTrainer.RunningEmbedding | tg_fun/trainer/running.py:75-87 | the six running rules sit in order among the first eight farming rules with dungeons off, and the other two of those are the `init` and "monster not found" rules |
| RunningTrainer.RunningAgreesWithFarming | tg_fun/trainer/running.py:74-93 | without the `init` and "monster not found" states, whatever the running table selects the farming table selects too |
| RunningTrainer.DangeonCategoryUnknown | tg_fun/trainer/running.py:96-122 | `dangeon_buttons` is unknown to running's registry: an update for it adds nothing, and `.get(category, [])` finds no label for any marker |
| RunningTrainer.StartFighting | tg_fun/trainer/running.py:145-159 | the fight-zone labels are updated; the handler completes exactly when an energy level was read, and then behaves as the farming handler, otherwise it stops with nothing sent |
| RunningTrainer.RunningPlan | tg_fun/trainer/running.py:162-176 | the handler stops when a stat raises, when HP is not a level, or when HP is fine and energy is not a level; back to town exactly when HP is a level at or below the threshold; the cooldown exactly when both are levels, HP is fine and energy is at most zero |
| RunningTrainer.RunningPlanAgreesWithFarming | tg_fun/trainer/running.py:162-176 | when running's `search_next` gets through it takes farming's branch, and with both levels read it always gets through |
| RunningTrainer.SearchNext | tg_fun/trainer/running.py:162-176 | completes exactly when `RunningPlan` has a plan and then carries it out; otherwise nothing is sent |
| RunningTrainer.RunHandler | tg_fun/trainer/running.py:71 | running the selected handler has that handler's outcome, including whether it stopped early |
| RunningTrainer.HandleMessage | tg_fun/trainer/running.py:63-71 | the message is marked read first, then the handler the running table selects runs, with its outcome |
| Manager.PassesFilter | tg_fun/plugins/manager.py:21 | `re.match` of the registration pattern: the raw text starts with one of the four commands, as written; `FilterNeedsLowerCasePrefix` states the consequence |
| Manager.Command | tg_fun/plugins/manager.py:33 | the command is the normalised text |
| Manager.KindOf | tg_fun/plugins/manager.py:35-55 | exact comparison: each of `!stop`, `!start` and `!exit` is recognised exactly on its own text, and everything but the four commands is unknown |
| Manager.Reply | tg_fun/plugins/manager.py:33-58 | the reply is never empty, and it is `unknown command!` exactly when the text is not one of the four commands |
| Manager.RepliesDistinct | tg_fun/plugins/manager.py:33-58 | the five replies are pairwise different |
| Manager.PausedAfter | tg_fun/plugins/manager.py:47-53 | `!stop` sets the flag, `!start` clears it, everything else keeps it |
| Manager.Prelude | tg_fun/plugins/manager.py:43-55 | at most one effect before the reply: the ping exactly for `!start`, the `Force exit` request exactly for `!exit` |
| Manager.Reaction | tg_fun/plugins/manager.py:34-58 | every command ends with marking the message read and exactly one reply to the operator, and no reply comes earlier |
| Manager.UnknownCommandChangesNothing | tg_fun/plugins/manager.py:34-55 | any text other than the four commands keeps the flag and is answered `unknown command!` only |
| Manager.UpperCaseCommand | tg_fun/plugins/manager.py:33 | `Command` maps `!STOP` to `!stop` (the filter at line 21 keeps this text from the handler; see `CaseAndPaddingFiltered`) |
| Manager.PaddedCommand | tg_fun/plugins/manager.py:33 | `Command` maps ` !stop` followed by a newline to `!stop` (the filter at line 21 keeps this text from the handler; see `CaseAndPaddingFiltered`) |
| Manager.PaddedLine | tg_fun/plugins/manager.py:33 | before lower-casing, a line padded by a space in front and a newline behind normalises to its content |
| Manager.FilteredButUnknown | tg_fun/plugins/manager.py:21-55 | `!stop now` passes the filter but is an unknown command |
| Manager.FilterNeedsLowerCasePrefix | tg_fun/plugins/manager.py:21 | every text that passes the filter starts with `!` and four lower-case letters, so upper-case or padded commands are rejected |
| Manager.CaseAndPaddingFiltered | tg_fun/plugins/manager.py:21-33 | `!STOP` and ` !stop` followed by a newline fail the filter although `Command` maps both to `!stop`, so the program never pauses on them |
| Manager.TrailingNewlineCommand | tg_fun/plugins/manager.py:21-33 | `!stop` followed by a newline passes the filter and is the stop command: trailing layout is still dropped |
| Manager.ControlFlags.constructor | tg_fun/plugins/manager.py:47-53 | the pause flag starts at the given value: the initial value of `shared_state.PAUSED`, whose module is not part of this model; the lines cited are the flag's writes |
| Manager.ControlFlags.Handle | tg_fun/plugins/manager.py:27-58 | the flag becomes `PausedAfter` of the command and the effects are its `Reaction` |
| Manager.ControlFlags.OnMessage | tg_fun/plugins/manager.py:15-24 | the handler runs exactly for texts that start with one of the four commands; other texts change nothing |

## Left out

- Transport: the Telegram client, sending, `mark_read`, `button.click` and handler registration. Each of these is an `Effect` value, and the handlers return their effects in order. `main` and `_setup_handlers` of both trainers are not modelled.
- Logging, event logging and the statistics counter: they have no bearing on decisions.
- Time and randomness: `wait_utils.wait_for` is the `Throttle` effect, `asyncio.sleep(3600)` is `Sleep(3600)`, and the ping's random text is the bare `Ping` effect. No clock is modelled.
- The stat parsers `get_energy_level` and `get_hp_level` are not in `parsers.py`. Their outcome is the `Parsed` input.
- `get_photo_base64`: a media download and base64 encoding through a library.
- Settings: `minimum_hp_level_for_grinding` and `farm_dangeons` are absent from `AppSettings`. They are the parameters `minHp` and `farmDangeons`.
- Concurrency: one handler runs to completion at a time, and overlapping handlers racing on the registry are not modelled.
- The pause gating and the run loop: `loop.run_wait_loop`, `exit_request` and `shared_state` are not part of this model. Only the flag writes of the manager are modelled, and the exit request is an effect.
- Case-insensitive commands: the lower-casing and stripping at `tg_fun/plugins/manager.py:33` only act on texts the case-sensitive filter at line 21 has already let through, so they never turn an upper-case or padded command into one (`CaseAndPaddingFiltered`, `TrailingNewlineCommand`). Only trailing layout is still dropped: `!stop` followed by a newline passes the filter and is the stop command.
- Manager.ControlFlags.OnMessage: the `chats=['me']` and `is_private` conditions of the registration are not modelled; only the command pattern is.
- `skip_turn_handler` only logs, so it is `SkipTurn` with no effect. `resolve_capcha` calls a notification sink that is not part of this model, so it is the `NotifyChannel("capcha!")` effect.
- Text.LowerChar: models `str.lower()` for ASCII, Latin-1 and the Cyrillic capitals U+0400 to U+042F (Ѐ to Џ, А to Я) only. Every other code point is left unchanged, including the capitals of U+0460 to U+04FF such as Ѡ and Ґ, which `str.lower()` would lower, and `IsUpper` does not count them as capitals. No state pattern contains these letters.
- Registry.Dedup: `list(set(...))` has no defined order. This model keeps first occurrences, and every contract about the registry is stated on label sets.
- Registry.ButtonRegistry.PressMarked: states that a label containing the marker is pressed, not which one. The `next(...)` choice depends on the unspecified set order. It requires a non-empty marker, which all callers pass.
- Registry.ButtonRegistry.HandleButtonEvent: for an empty symbol it states only that a press sends a stored label, not that one is always found. Every caller passes a non-empty marker or label.
- The running trainer's `update_available_buttons`, `handle_button_event`, `go_to_fight_zone`, `return_to_town`, `in_town` and `go_to_locations` are the same code as the farming handlers, over three categories. They are modelled once, in `FarmingHandlers` and `Registry`, and the running trainer uses them with its own categories.
