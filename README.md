# FAangband object knowledge, data-file tables and front-end arithmetic

This project models, in Dafny, four parts of FAangband:

- **Object knowledge** (`src/identify.c`).
  - Pseudo-identification feelings, heavy and light.
  - The `item_dubious` test.
  - Ego inference (`has_ego_properties`, `label_as_ego`).
  - The `flags_other` list of learnable facts, and the `known_really` completeness test.
  - The three notice entry points `notice_curse`, `notice_obj` and `notice_other`. Each one adds evidence to the known sets of one inventory slot, one floor item or every worn slot. For jewellery it also adds to the player-wide known sets.
  - Modules `Identify` (`identify.dfy`) and `IdentifyNotice` (`notice.dfy`). The notice engine is a class over the inventory and floor-item arrays.
- **Data-file tables** (`src/init.c`).
  - Flag lookup and `grab_flag`.
  - The `Z:` limits directive.
  - How `finish_parse_*` places parsed records by index.
  - The first-free-slot insertion of ego `T:`, race `B:` and class `T:` lines.
  - The vault size check, and the race spell line.
  - Module `InitParse` (`init_parse.dfy`).
  - The spell book table (`init_books`) and the level-grouped allocation tables for monster races and ego items (`init_alloc`). Module `InitTables` (`init_tables.dfy`).
- **The curses front end** (`src/main-gcu.c`), module `Gcu` (`gcu.dfy`):
  - splitting the screen among up to six terms;
  - the `-n` and size-list command-line arguments;
  - the colour-cube mapping;
  - folding of extended key codes into 8 bits.
- **Option screens** (`src/ui-options.c`), module `UiOptions` (`ui_options.dfy`):
  - the frequency toggle;
  - the panel-change and hitpoint-warning editors;
  - the yes/no option menu handler;
  - the window-flag editor.

Where the code does something its comments and the surrounding design clearly do not intend, the model keeps the code as written in a separate member and proves a lemma that exhibits the difference. The corrected definition is the one the rest of the model uses. See "## Findings".

## Model

| member | source | states |
|---|---|---|
| Identify.ItemDubious | src/identify.c:27-65 | item_dubious. Its properties are stated by DubiousIgnoringCursesImpliesDubious and DubiousByCombatBonus. |
| Identify.DubiousIgnoringCursesImpliesDubious | src/identify.c:27-65 | An item dubious while ignoring curses is dubious when unknown curses count. The two answers differ only for a cursed item. |
| Identify.DubiousByCombatBonus | src/identify.c:50-51 | To-hit plus to-dam below the kind's to-hit makes an item dubious whatever else it has. |
| Identify.ValueCheckAux1 | src/identify.c:71-121 | Heavy feeling. Nothing for unwearable items and lights. Special for artifacts. For egos, perilous exactly when dubious, else excellent. For plain items, strong dubious exactly when dubious. Otherwise good when the item is jewellery or has a positive armour or combat bonus, and average exactly when it has neither. The uncursed marks are added exactly for excellent, good and average. |
| Identify.ValueCheckAux2 | src/identify.c:127-165 | Light feeling. Nothing exactly for unwearable items. Weak dubious exactly when dubious. Average exactly for wearable, non-dubious, non-artifact, non-ego items with no positive bonus. Uncursed marks are added exactly for good and average. |
| Identify.HeavyAndLightAgree | src/identify.c:71-165 | For a non-artifact, the heavy method reports a bad feeling exactly when the light one does. Both leave the same knowledge behind. |
| Identify.HasEgoProperties | src/identify.c:172-202 | has_ego_properties. Its properties are stated by HasEgoMonotone and NoticeObjInfersEgo. |
| Identify.HasEgoMonotone | src/identify.c:172-202 | Ego inference never switches off as knowledge about the same item grows. |
| Identify.LabelAsEgo | src/identify.c:215-241 | The ego's object flags become known. Its curses become known only when it has the show-curse flag. Every resist, slay and brand where the template deviates from neutral becomes known, and nothing else does. The actual item is unchanged. |
| Identify.LabelAsEgoIdempotent | src/identify.c:215-241 | Labelling twice teaches no more than labelling once. |
| Identify.FlagsOther | src/identify.c:267-300 | Dice are always listed. To-hit and to-dam are listed exactly for a nonzero bonus, a weapon or the show-modifiers flag. Armour class is listed exactly for a nonzero base class or an armour item, and implies a listed to-armour. To-armour is listed exactly for a nonzero bonus, an armour item or a nonzero base class. |
| Identify.FlagsOtherResist | src/identify.c:273-276 | A resist is listed exactly when the item's resist level deviates from neutral. |
| Identify.FlagsOtherSlay | src/identify.c:278-281 | A slay is listed exactly when the item's multiplier deviates from neutral. |
| Identify.FlagsOtherBrand | src/identify.c:283-286 | A brand is listed exactly when the item's multiplier deviates from neutral. |
| Identify.HasBonuses | src/identify.c:305-318 | has_bonuses. It enters KnownReallyFalseCases as the never-worn case. |
| Identify.KnownReally | src/identify.c:327-361 | known_really, corrected. Its properties are stated by KnownReallyFalseCases and KnownReallyLeavesNothingToLearn. |
| Identify.KnownReallyFalseCases | src/identify.c:327-361 | Not functionally known while: the ego type is unseen; bonuses exist but the item was never worn; the item is already fully known; it is not wearable; or its dice are unknown. |
| Identify.Promote | src/identify.c:444-446 | The "ego item?" step. Its properties are stated by PromoteProperties. |
| Identify.PromoteProperties | src/identify.c:444-446 | The "ego item?" step keeps the actual item, only adds knowledge and keeps ego inference on. When the inference switches on, all the ego's object flags become known. Otherwise the item is left as it was. |
| Identify.NoticeCurseItem | src/identify.c:367-416 | A curse becomes known, and the item is marked cursed, exactly when the item carries that curse. Otherwise the item is unchanged. Without promotion, the curse and the cursed mark are all that is learnt. Ego promotion follows the rule above. |
| Identify.NoticeObjItem | src/identify.c:421-476 | The object flag becomes known unconditionally. Without promotion, nothing else changes. |
| Identify.NoticeObjInfersEgo | src/identify.c:421-446 | After notice_obj the ego is inferred exactly when it already was, or when the ego type has been seen and its template declares the noticed flag. |
| Identify.OtherGain | src/identify.c:481-615 | Corrected: notice_other learns at most the flag itself, and learns it exactly when flags_other lists it. |
| Identify.NoticeOtherItem | src/identify.c:481-615 | notice_other on one item: a flag flags_other lists becomes known. Without promotion, nothing but listed instances of that flag is learnt. |
| Identify.OtherPlayerGain | src/identify.c:494-527 | On a ring or amulet slot, a resist, slay or brand the item learns is learnt by the player too. Nothing else is: no other slot, no other kind of fact. |
| Identify.NoticeOtherIdempotent | src/identify.c:481-615 | Noticing the same other fact twice equals noticing it once. |
| Identify.NoticeObjIdempotent | src/identify.c:421-476 | Noticing the same object flag twice equals noticing it once. |
| Identify.NoticeCurseIdempotent | src/identify.c:367-416 | Noticing the same curse twice equals noticing it once. |
| Identify.KnownReallyLeavesNothingToLearn | src/identify.c:327-361 | On a functionally known item, notice_other has nothing left to teach. Unless the ego label fires, the item is unchanged. |
| IdentifyNotice.NoticeItem | src/identify.c:367-615 | Any piece of evidence keeps the actual item and only adds knowledge. On promotion the ego's flags become known. |
| IdentifyNotice.NoticeItemIdempotent | src/identify.c:367-615 | Any piece of evidence noticed twice has the effect of noticing it once. |
| IdentifyNotice.Game.AppliedOnlyTeaches | src/identify.c:396-415 | After a notice pass, every item in the array is the same item, with knowledge only added. |
| IdentifyNotice.Game.AppliedIdempotent | src/identify.c:396-415 | A second pass with the same evidence over the same slots changes nothing. |
| IdentifyNotice.Game.NoticeAt | src/identify.c:373-393 | Exactly one slot receives the evidence. An identify request for that item is recorded exactly when it is then functionally known. |
| IdentifyNotice.Game.BodyStep | src/identify.c:396-415 | One worn slot receives the evidence, extending the applied prefix and the request log by that slot. |
| IdentifyNotice.Game.NoticeBody | src/identify.c:396-415 | Each of the worn slots receives the evidence, in slot order, and nothing else changes. An identify request is recorded for each slot that becomes functionally known. |
| IdentifyNotice.Game.NoticeItems | src/identify.c:373-415 | A positive reference names an inventory slot, a negative one a floor item, zero every worn slot. Only those items receive the evidence. The identify requests are those of the item, or of every worn slot in order, that is then functionally known. |
| IdentifyNotice.Game.NoticeCurse | src/identify.c:367-416 | As above, for a curse. Only the referenced items receive the curse evidence, and each one then functionally known is sent to identification. |
| IdentifyNotice.Game.NoticeObj | src/identify.c:421-476 | As notice_curse, for an object flag, identify requests included. The player's known object flags gain the flag exactly for the whole-body pass or a ring or amulet slot. Nothing else of the player's changes. |
| IdentifyNotice.Game.PlayerOtherGain | src/identify.c:487-600 | The player's gain from notice_other is at most the flag. It is nothing for floor items and non-jewellery slots. It is nothing for any fact but a resist, slay or brand. On a jewellery slot it is the item's gain for a resist, slay or brand. The whole-body pass gains what the two ring slots and the amulet slot gain. |
| IdentifyNotice.Game.NoticeOther | src/identify.c:481-615 | As notice_curse, for an other fact, identify requests included. The player's known other facts gain exactly the jewellery gains of the slots involved. Nothing else of the player's changes. |
| IdentifyAsWritten.KnownReallyAsWritten | src/identify.c:327-361 | known_really as written. Its properties are stated by KnownReallyAsWrittenRejectsExactKnowledge and KnownReallyCounterexample. |
| IdentifyAsWritten.KnownReallyAsWrittenRejectsExactKnowledge | src/identify.c:340-346 | As written, an item whose knowledge equals its actual flags is never reported known. Only an item with a "known" flag it does not have can be. |
| IdentifyAsWritten.KnownReallyCounterexample | src/identify.c:340-346 | A plain ring with every fact known: the corrected test accepts it and the test as written rejects it. |
| IdentifyAsWritten.OtherGainAsWritten | src/identify.c:532-540 | The gain as written differs from the corrected one in exactly two kinds of case. One is the to-armour fact on a non-armour item with a to-armour bonus and no base class. The other is to-hit or to-dam on a non-weapon with the show-modifiers flag and a zero bonus. |
| IdentifyAsWritten.ToArmourCounterexample | src/identify.c:536-540 | A ring with a to-armour bonus lists the bonus as learnable, yet noticing it as written teaches nothing. |
| IdentifyAsWritten.ShowModsCounterexample | src/identify.c:532-535 | A ring with the show-modifiers flag and no to-hit bonus lists to-hit as learnable, yet noticing it as written teaches nothing. |
| IdentifyAsWritten.BodyResistStepAsWritten | src/identify.c:554-614 | As written, the resist loop of the whole-body pass updates the item and never the player's known set. The slay and brand loops have the same shape. |
| IdentifyAsWritten.BodyPassCounterexample | src/identify.c:554-614 | A ring of resistance: the whole-body pass as written teaches the player nothing, the corrected gain teaches the resist. |
| InitParse.IndexFrom | src/init.c:192-202 | The first index at or after the start holding the name, or the table length when there is none. |
| InitParse.FlagIndex | src/init.c:192-202 | The end marker exactly when no flag name matches. Otherwise a matching index past the start marker. |
| InitParse.LookupFlag | src/init.c:192-202 | The scanning loop returns the flag index. |
| InitParse.FindName | src/init.c:1442-1464 | The scanning loop returns the first index holding the name, or the table length. |
| InitParse.GrabFlag | src/init.c:204-212 | An error exactly when no flag matches, and then the flags are unchanged. Otherwise exactly one matching flag is added. |
| InitParse.LabelNamesRoundTrip | src/init.c:411-459 | Each Z: label's name decodes to that label, and only that name does. |
| InitParse.ParseZ | src/init.c:411-459 | A negative value is invalid. An unknown label is undefined. Otherwise exactly the labelled maximum is set and the rest kept. |
| InitParse.Prepended | src/init.c:694-713 | The parser's list holds the records in reverse parse order. |
| InitParse.FirstDeclaring | src/init.c:694-713 | A parsed record declaring the index whenever one exists, or else the blank record. |
| InitParse.FirstDeclaringIsEarliest | src/init.c:694-713 | The record chosen is the earliest parsed one declaring the index. |
| InitParse.FinishParse | src/init.c:694-713 | The info array has the maximum's length, and each cell holds the last listed record with that index, or the zeroed record. |
| InitParse.EarliestParsedWins | src/init.c:694-713 | Because records are prepended, the array gets the earliest parsed record for each index. |
| InitParse.FirstFree | src/init.c:1190-1200 | The first unused slot at or after the start, or the length when every slot is used. |
| InitParse.ParseET | src/init.c:1174-1201 | Missing header, or an unrecognised negative tval, is an error. Otherwise the first free slot receives the tval and range. A full list is an error. |
| InitParse.BlowEntry | src/init.c:1466-1494 | The blow method index is the name's position, or the table length. The result is no error exactly when the method and any effect are known. Dice and effect are set only when given. |
| InitParse.ParseRB | src/init.c:1466-1494 | The first blow slot without a method receives the blow. A full list leaves the blows unchanged. |
| InitParse.ParseCT | src/init.c:2014-2030 | The first untitled class slot receives the title. A full list is an error. |
| InitParse.InsertionKeepsUsedSlots | src/init.c:1190-1200 | Inserting into the first free slot leaves every used slot as it was. |
| InitParse.TooBig | src/init.c:2155-2158 | The vault size limits. Their meaning is stated by ParseVX and AcceptedVaultBounds. |
| InitParse.ParseVX | src/init.c:2143-2160 | All four values are stored. The result is too-big exactly when the type's width or height limit is exceeded, otherwise no error. |
| InitParse.AcceptedVaultBounds | src/init.c:2155-2158 | An accepted greater vault fits 66 by 44, and a lesser one 33 by 22. |
| InitParse.SpellLine | src/init.c:1544-1576 | No error exactly when every token is valid. Flags only grow, and only by indices in the table. The two frequencies stay equal, and a new frequency lies in 1..100. |
| InitParse.SpellFreq | src/init.c:1556-1562 | A 1_IN_x token outside 1..100 stops the line with an invalid frequency. Otherwise both frequencies become 100 divided by x and the line goes on. |
| InitParse.SpellFlag | src/init.c:1565-1568 | An unknown flag name stops the line with an invalid flag. Otherwise the flag's table index is added and the line goes on. |
| InitParse.SpellLineFlags | src/init.c:1544-1576 | An accepted line adds exactly the flags its tokens name. |
| InitParse.ParseRS | src/init.c:1544-1576 | The record's spell state is the result of the token line. A missing header is an error. |
| InitTables.Claimant | src/init.c:2448-2474 | The last spell placed at a position, or -1 exactly when no spell is placed there. |
| InitTables.InitBooks | src/init.c:2448-2474 | Every book cell holds the last spell placed there, or -1 when none is. |
| InitTables.BookCells | src/init.c:2448-2474 | A spell no later spell displaces owns its cell. A cell is empty exactly when no spell names it. |
| InitTables.Entry | src/init.c:2719-2739 | An entry records the race's index and level, and three equal probabilities of 100 divided by the rarity. |
| InitTables.CountLevels | src/init.c:2675-2693 | num[l] is the number of listed races at level l. The size is the number of listed races. |
| InitTables.RunningTotals | src/init.c:2695-2697 | num[l] becomes the number of listed races at level l or below. |
| InitTables.LoadEntry | src/init.c:2719-2739 | One listed record is stored at its level's base plus the level's running count. The placed prefix grows by its entry, and the running count of its level by one. |
| InitTables.PlaceEntries | src/init.c:2710-2745 | The placement loop fills the table with exactly the level-grouped sequence. |
| InitTables.BuildAllocTable | src/init.c:2670-2745 | The table is the level-grouped sequence, and the town count is the number of level-0 entries. |
| InitTables.InitAlloc | src/init.c:2646-2822 | Success exactly when there is a town monster. The race table (ghost excluded) and the ego table are then the level-grouped sequences. |
| InitTables.RaceHi | src/init.c:2675 | The scan stops before the ghost race. |
| InitTables.RaceLo | src/init.c:2675 | The scan starts after race 0. |
| InitTables.GroupMembers | src/init.c:2710-2745 | A level group holds entries of listed records of that level, in index order. |
| InitTables.Grouped | src/init.c:2710-2745 | The level-grouped allocation sequence. Its properties are stated by AllocTableMembers, AllocTableOrdered, AllocTableComplete and AllocTableSize. |
| InitTables.AllocTableMembers | src/init.c:2710-2745 | Every table entry is the entry of a listed record in range. |
| InitTables.AllocTableOrdered | src/init.c:2710-2745 | The table is sorted by level, and by index within a level. |
| InitTables.GroupComplete | src/init.c:2710-2745 | Every listed record of a level appears in that level's group. |
| InitTables.AllocTableComplete | src/init.c:2710-2745 | Every listed record below the depth limit appears in the table, and at no two positions. |
| InitTables.AllocTableSize | src/init.c:2675-2697 | The table's length equals the number of listed records. |
| Gcu.CDiv | src/main-gcu.c:434-467 | C division truncates toward zero. |
| Gcu.Balance | src/main-gcu.c:434-467 | The main term starts at 0 and gets at least its minimum. The last group ends at the window edge. A middle group starts one past the main term. |
| Gcu.BalanceTiles | src/main-gcu.c:434-467 | With room for every group, the groups start at 0, are non-empty, are separated by exactly one line or column, and end at the window edge. |
| Gcu.ThreeGroupsTile | src/main-gcu.c:434-467 | The three-group split tiles the window with single separators. |
| Gcu.TwoGroupsLeaveOneSeparator | src/main-gcu.c:434-467 | The two-group split leaves exactly one separator. |
| Gcu.PronicRoot | src/main-gcu.c:491 | The least r from the start with r(r+1) at least n. |
| Gcu.SquareRoot | src/main-gcu.c:492 | The least r from the start with r squared at least n. |
| Gcu.GridFor | src/main-gcu.c:490-508 | The grid has at least one row and one column. |
| Gcu.GridShape | src/main-gcu.c:490-508 | The search loops produce the grid the specification function gives. |
| Gcu.RootsClose | src/main-gcu.c:490-508 | The pronic root is the square root or one less. |
| Gcu.GridCovers | src/main-gcu.c:490-508 | The grid has room for every term. For up to six terms it is at most 3 by 3. |
| Gcu.CellsOfGrid | src/main-gcu.c:497-507 | Distinct term numbers get distinct cells inside the grid. |
| Gcu.CellsDistinct | src/main-gcu.c:490-520 | Distinct terms get distinct grid cells. |
| Gcu.TiledApart | src/main-gcu.c:434-467 | Earlier groups end before later groups start. |
| Gcu.TiledInside | src/main-gcu.c:434-467 | Every group lies inside the window. |
| Gcu.TermRect | src/main-gcu.c:474-521 | The place of one term. Its properties are stated by TermsTile, FallbackIsWholeScreen and Screen.GetTermSize. |
| Gcu.TermsTile | src/main-gcu.c:474-521 | When the grid fits, every term is a non-empty rectangle inside the screen, and no two terms overlap. |
| Gcu.Screen.GetTermSize | src/main-gcu.c:474-521 | The rectangle returned is the term's place. The term count drops to 1 exactly when the grid does not fit. |
| Gcu.FallbackIsWholeScreen | src/main-gcu.c:510-520 | When the grid does not fit, every term is given the whole screen, at least 80 by 24. |
| Gcu.ClampTermCount | src/main-gcu.c:1005-1007 | The -n count is clamped into 1..6, and kept when already inside. |
| Gcu.DigitsEnd | src/main-gcu.c:941-970 | The digit run ends at or after its start, on a non-digit. |
| Gcu.DigitsEndDigits | src/main-gcu.c:941-970 | Every position before the end of the run holds a digit. |
| Gcu.SkipDigits | src/main-gcu.c:946-967 | The scanning loop stops at the end of the digit run. |
| Gcu.Atoi | src/main-gcu.c:957 | atoi on the segment. That it reads a rendered number back is stated by ReadStep and SizeListRoundTrip. |
| Gcu.SizeList | src/main-gcu.c:941-970 | The sizes the parser yields. Its properties are stated by SizeListFrom, ParseSizeList and SizeListRoundTrip. |
| Gcu.SizeListFrom | src/main-gcu.c:941-970 | Nothing once the count reaches the maximum. Otherwise between 1 and the remaining room entries. A star gives the single entry 255. |
| Gcu.ParseSizeList | src/main-gcu.c:941-970 | The loop stores exactly the size list in the array's prefix, and leaves the rest untouched. The single pointer walk is written as a loop over entries with an inner digit scan. |
| Gcu.StoreEntry | src/main-gcu.c:950-967 | Storing one entry extends the stored prefix of the size list by one, touches no other cell, and continues after the comma exactly when a comma follows the digits. |
| Gcu.NatString | src/main-gcu.c:941-970 | Rendered numbers are non-empty. |
| Gcu.NatStringDigits | src/main-gcu.c:941-970 | Rendered numbers consist of digits only. |
| Gcu.ReadStep | src/main-gcu.c:950-967 | In a rendered list of two or more, the first entry reads back as its number and the digits stop at the comma before the rest. |
| Gcu.ListCons | src/main-gcu.c:941-970 | A first entry followed by a comma and a list read back gives the whole list. |
| Gcu.ReadBack | src/main-gcu.c:941-970 | Parsing a rendered list from any position gives back the list. |
| Gcu.SizeListRoundTrip | src/main-gcu.c:941-970 | Parsing a comma-separated rendering of up to max sizes gives back exactly those sizes. |
| Gcu.ScaleColor | src/main-gcu.c:710-712 | The scaled component lies in 0..scale-1. 0 maps to 0, and 255 to scale-1. |
| Gcu.CreateColor | src/main-gcu.c:714-727 | 0 (ANSI black) exactly when every component scales to 0. Otherwise a colour-cube index in 16..15+scale³. |
| Gcu.CreateColorDecodes | src/main-gcu.c:714-727 | A non-black colour index decodes back to its three scaled components. |
| Gcu.FoldKey | src/main-gcu.c:687-699 | Codes below KEY_MIN pass unchanged. Extended codes fold into 128..255. |
| Gcu.FunctionKeysDistinct | src/main-gcu.c:687-699 | The 64 function keys fold to distinct codes. |
| UiOptions.ToggleFrequency | src/ui-options.c:1226-1239 | toggle_frequency. Its properties are stated by ToggleOnList, ToggleFollowsList and ToggleCycle. |
| UiOptions.ToggleOnList | src/ui-options.c:1226-1239 | The result is always a listed frequency. An unlisted value resets to 0. |
| UiOptions.ToggleFollowsList | src/ui-options.c:1226-1239 | A listed frequency moves to the next one, and the last wraps to 0. |
| UiOptions.ToggleTimesWalks | src/ui-options.c:1226-1239 | n presses move n places round the list. |
| UiOptions.ToggleCycle | src/ui-options.c:1226-1239 | Ten presses return a listed value to itself. One press always lands on the list. |
| UiOptions.PanelStep | src/ui-options.c:1099-1103 | A digit sets the value, '+' and '-' step it, and any other key keeps it. The result is clamped into 0..4. |
| UiOptions.PanelRunInRange | src/ui-options.c:1081-1108 | After any key other than ESC, or from any legal start, the panel change lies in 0..4. |
| UiOptions.StrToulBase0 | src/ui-options.c:1067 | strtoul with base 0 on a digit string. Its behaviour on entries is stated by HpWarnDigit and HpWarnEntries. |
| UiOptions.HpWarnValue | src/ui-options.c:1067-1073 | The stored warning lies in 0..9. It is the parsed number when that is at most 9, and 0 when the number is above 9 but fits 16 bits. |
| UiOptions.HpWarnDigit | src/ui-options.c:1067-1073 | A single digit is kept. |
| UiOptions.HpWarnEntries | src/ui-options.c:1067-1073 | "10" and "09" reset to 0. "010" is read as octal 8. |
| UiOptions.PlayerOptions.HpWarn | src/ui-options.c:1044-1077 | An accepted entry stores its warning value. A cancelled one keeps the old value. |
| UiOptions.PlayerOptions.PanelChange | src/ui-options.c:1081-1108 | The key loop leaves the value that the key sequence specifies. |
| UiOptions.OptionMenu.OptionToggleHandle | src/ui-options.c:96-127 | Handled exactly for a select or one of y, Y, n, N, ?. A select flips the option, y sets it and n clears it. Other options are untouched. The cursor advances cyclically after y or n. |
| UiOptions.Flip | src/ui-options.c:295-319 | Toggling a flag flips exactly that bit. |
| UiOptions.MoveAsWritten | src/ui-options.c:325-329 | A move as written keeps the cursor inside the grid and leaves the flags alone. |
| UiOptions.MoveWrapped | src/ui-options.c:325-329 | The corrected move keeps the cursor inside the grid and leaves the flags alone. |
| UiOptions.ToggleFlipsOneBit | src/ui-options.c:295-319 | A toggle outside the main window flips exactly the bit under the cursor. The main window is never changed. |
| UiOptions.EditStep | src/ui-options.c:217-332 | One event of the window-flag editor. Its properties are stated by ToggleFlipsOneBit, MoveWrapsOneStep and MoveAsWrittenJumps. |
| UiOptions.EditRun | src/ui-options.c:217-332 | A run of editor events. Its properties are stated by EditRunKeepsMainWindow and WindowOptions.EditLoop. |
| UiOptions.EditRunKeepsMainWindow | src/ui-options.c:183-362 | No sequence of events changes the main window's flags, or any bit beyond the flag count. |
| UiOptions.MoveWrapsOneStep | src/ui-options.c:325-329 | The corrected move steps one place cyclically in each direction. With exactly 16 flags it agrees with the move as written. |
| UiOptions.MoveAsWrittenJumps | src/ui-options.c:325-329 | When the flag count does not divide 16, a sideways move as written leaves row 0 for row 16 mod the count: row 16 with more than 16 flags, row 6 with 10. The corrected move stays on row 0. |
| UiOptions.WindowOptions.EditLoop | src/ui-options.c:217-332 | The event loop leaves the working flags equal to the specified run of events. |
| UiOptions.WindowOptions.OptionsWinAsWritten | src/ui-options.c:183-362 | As written, the edits never reach the window flags, so no window is refreshed. |
| UiOptions.WindowOptions.OptionsWin | src/ui-options.c:183-362 | Corrected: the window flags become the edited flags. Exactly the live windows whose flags changed are refreshed. |
| UiOptions.OptionsWinKeepsMainWindow | src/ui-options.c:183-362 | The main window's flags survive the editor unchanged. |

## Left out

- Messages, screen output, sounds and the bell are not modelled. Neither are the object description strings that the notice and identify paths build.
- identify_object's effects (the full-knowledge mark, the ego's "ever seen" mark) are not modelled. The notice engine records each request in a ghost log of item references.
- Inventory slot numbers, the neutral baselines (resist 100, bonus 0, multiplier 10), flag table start and end markers, KEY_MIN and KEY_F(63) are fixed constants. The header files defining them are not part of this model.
- PW_MAX_FLAGS is a parameter `flagCount`, bounded by 32 and not fixed. ARROW_DOWN is a parameter, and so is the allocation tables' depth limit.
- The 32-bit window-flag words are sets of bit numbers. Bit positions of 32 and over cannot arise because flagCount is at most 32.
- File reading, tokenising, `grab_value` and the other parsers' field syntax are not modelled. Each parse function takes the already-split fields as arguments.
- InitParse.ParseRS: the `POW_` power tokens of the race spell line are not modelled; flags and frequencies are. That branch also uses the undeclared names `i` and `r_ptr` (src/init.c:1563-1564).
- Curses calls, colour-pair setup, the terminal strip layout, resize handling and keymaps are not modelled. Only the arithmetic that places terms and maps colours and keys is.
- Gcu.Balance: the model covers only the one-, two- and three-group splits that up to six terms give.
- Gcu.BalanceTiles: requires the comfortable sub-term size to be at least 1, as the fixed constants 5 and 40 are. With 0 a middle group could be empty.
- Gcu.ParseSizeList: `atoi` overflow on very long digit runs is not modelled, because integers are unbounded.
- s16b and u16b overflow in the option counters is not modelled, except that the hitpoint warning is cut to 16 bits as the cast does.
- option_set's side effects beyond the option's value, the help screen of the option menu and the pref-file load and dump items are not modelled.
- UiOptions.EditStep: a mouse click's accompanying key is taken as no direction, so the click moves the cursor and does nothing else.
- InitTables.InitAlloc: requires every scanned race (1 to r_max-2) and ego (1 to e_max-1) with nonzero rarity to have a level below the depth limit. The source increments `num[level]` without checking it against MAX_DEPTH (src/init.c:2686, 2769).
- InitTables.InitBooks: requires every spell's realm, book and slot to be within the array bounds, which the source never checks.
- The value-check functions return the feeling and the updated knowledge. The item marks and messages that value_check_aux1 and value_check_aux2's callers apply are not modelled.
- IdentifyAsWritten.KnownReallyAsWritten: the subset helper that known_really calls is not part of this model. `of_is_subset(a, b)` and `if_is_subset(a, b)` are read as a ⊆ b. Under the opposite reading, b ⊆ a, an item whose knowledge is exactly right is still rejected, so the first two ensures of KnownReallyAsWrittenRejectsExactKnowledge and the Findings row stand. Its third ensures depends on the reading.
- src/identify.c:532-540 and 596-604 apply `if_has` to the integer `other_flag`. The model reads each test as `other_flag` being equal to that fact.
- src/identify.c:267 names the parameter `allflags` but the body writes `all_flags` (271 on). The model reads both as the one result set.
- src/identify.c:404 lacks the comma in `cf_on(o_ptr->id_curse curse_flag)`. The model reads it as setting the curse in the item's known curses.
- src/identify.c:441 and 465 have an extra closing parenthesis after `of_on(p_ptr->id_obj, obj_flag)`. The model reads each as that call.

## Findings

| source | as written | input that shows it | evidently intended | confidence | as-written member | corrected member |
|---|---|---|---|---|---|---|
| src/identify.c:340-346 | known_really gives up when the known flags are a subset of the actual flags, and likewise for other facts | a plain ring with its dice known and nothing else to know | give up when some actual flag is not yet known | not executed | IdentifyAsWritten.KnownReallyCounterexample | Identify.KnownReallyFalseCases |
| src/identify.c:536-540 | notice_other learns to-armour only from a nonzero base armour class or an armour item | a ring with a +3 to-armour bonus | learn to-armour whenever flags_other lists it, which includes a nonzero to-armour bonus | not executed | IdentifyAsWritten.ToArmourCounterexample | Identify.OtherGain |
| src/identify.c:564-590 | the whole-body pass compares the resist, slay or brand index with the ring and amulet slots, then sets the item's bit again | a ring of resistance worn in the left ring slot | add the fact to the player's known set when the slot is a ring or amulet slot | not executed | IdentifyAsWritten.BodyPassCounterexample | IdentifyNotice.Game.NoticeOther |
| src/ui-options.c:339-360 | the edited flags are compared with window_flag but never copied into it | any toggle of a sub-window flag followed by ESC | store the edited flags and refresh the windows whose flags changed | not executed | UiOptions.WindowOptions.OptionsWinAsWritten | UiOptions.WindowOptions.OptionsWin |
| src/ui-options.c:325-329 | a cursor move adds 16 to the row before the modulus by PW_MAX_FLAGS | a sideways move from row 0 when PW_MAX_FLAGS does not divide 16, e.g. 10 or more than 16 | add PW_MAX_FLAGS, so that only an up move wraps | not executed | UiOptions.MoveAsWrittenJumps | UiOptions.MoveWrapsOneStep |
| src/identify.c:532-535 | notice_other learns to-hit and to-dam only from a nonzero bonus or a weapon | a ring with the show-modifiers flag and no to-hit bonus | learn to-hit and to-dam whenever flags_other lists them, which includes the show-modifiers flag | not executed | IdentifyAsWritten.ShowModsCounterexample | Identify.OtherGain |
