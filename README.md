# AboveVTT dice engine, token list and mixer, in Dafny

This project models the core of AboveVTT's dice engine and the
bookkeeping around it, and proves properties of the model.

- **DiceRoller.js**
  - The `DiceRoll` class covers three things:
    - validating and scanning a dice expression such as `2d20kh1+1d4-3`;
    - the signed constant and the dice to roll;
    - the `isComplex`, `isAdvantage` and `isDisadvantage` classification.
  - The normalising setters `action`, `rollType` and `sendToOverride`.
  - `fromSlashCommand`, with `replaceModifiersInSlashCommand` and the ability-modifier arithmetic.
  - The `DiceRoller` session. It arms a timeout and clicks the dice. It then relabels the provider's "pending" message and reconciles its "fulfilled" message with the expression the user asked for. The reconciliation (`#swapRollData`) does these steps:
    - bucket the values by die type;
    - give each term its share of dice;
    - apply reroll-with-reserve, keep-highest and keep-lowest;
    - render the term as numbers;
    - evaluate the substituted expression.
- **TokensPanel.js**
  - `sanitize_folder_path`, the `TokenListItem` constructor, `sortComparator`, `isFolder` and `fullPath`.
  - The recursive `migrate_to_my_tokens`.
  - `rebuild_token_items_list`.
  - The filter-then-sort of `redraw_token_list`.
- **audio/mixer.js**
  - `Channel` and `MixerState`.
  - The `Mixer`'s read-modify-write operations.
  - `_syncPlayers`.

One module per file:

| file | module | models |
|---|---|---|
| wrappers.dfy | `Wrappers` | `Option` for `undefined`, `Result` for a thrown error |
| text_util.dfy | `TextUtil` | the JavaScript string operations the core relies on |
| dice_grammar.dfy | `DiceGrammar` | the term grammar `allDiceRegex` as a greedy left-to-right lexer, plus the character set |
| arith_eval.dfy | `ArithEval` | a restricted evaluator standing in for the `eval` of the constant (line 163) and of the substituted expression (line 513); the reroll comparison's `eval` (line 484) is `DiceGrammar.CmpHolds` |
| dice_parse.dfy | `DiceParse` | the `DiceRoll` constructor's derivation and the classifier |
| dice_roll.dfy | `DiceRolls` | the `DiceRoll` object with its setters |
| roll_values.dfy | `RollValues` | reroll, keep and render for one term |
| reconcile.dfy | `Reconcile` | `#swapRollData` and `#swapDiceRollMetadata` |
| dice_roller.dfy | `DiceSession` | the `DiceRoller` session |
| slash_command.dfy | `SlashCommand` | the slash-command parsing |
| tokens_panel.dfy | `TokensPanel` | the token-list bookkeeping |
| mixer.dfy | `AudioMixer` | the mixer |

## How the model stands in for the host

Stateful parts are classes:
- `DiceRolls.DiceRoll`;
- `DiceSession.DiceRoller`, whose timer is an `armed` flag plus an explicit `Timeout` event;
- `TokensPanel.TokenStore`, whose fields are the globals `mytokens`, `emptyfolders` and `window.tokenListItems`;
- `AudioMixer.Mixer`.

Host interactions become data:
- The provider's message bus is a `dispatched` output sequence.
- The jQuery clicks are a `clicks` sequence of abstract actions.
- The mixer's events are an `events` sequence.

Parameters stand in for the values the core cannot see:
- the character sheet's stat table;
- the players' character list;
- the folder tree that `convert_path` would return;
- the `uuid()` drawn for a new channel;
- the JSON already in local storage.

Two points of the dice engine are easy to miss:
- **Strict mode.** All three `eval` calls (DiceRoller.js lines 163, 484 and 513) are direct `eval`s made from class bodies, which are strict-mode code. So a constant such as `+05` is a SyntaxError and the `DiceRoll` constructor throws (`ConstantSyntaxError`).
- **Error kinds.** The source throws the same "Invalid Expression" string for a disallowed character and for an expression without a dice term. The model gives the two rejections distinct reasons.

## Model

| member | source | states |
|---|---|---|
| TextUtil.ReplaceFirst | DiceRoller.js:158 | `String.prototype.replace` with a string pattern: unchanged when the pattern is absent, otherwise only the first occurrence is replaced |
| TextUtil.ReplaceAllIdentity | TokensPanel.js:10 | replacing every occurrence of a pattern by itself leaves the text unchanged |
| TextUtil.ReplaceAllAbsent | TokensPanel.js:10 | `replaceAll` changes nothing when the pattern does not occur |
| TextUtil.TrimShape | DiceRoller.js:38 | `trim()` is empty exactly when the text is all whitespace, and otherwise starts and ends with a non-space |
| TextUtil.TrimIdempotent | DiceRoller.js:38 | trimming twice is trimming once |
| TextUtil.ToLower | TokensPanel.js:355 | `toLowerCase` keeps the length and lowers each character |
| TextUtil.JoinSplit | TokensPanel.js:175-177 | `split` then `join` with the same separator gives the text back |
| TextUtil.NatToStringRoundTrip | DiceRoller.js:507 | the decimal text of a die value reads back as that value |
| DiceGrammar.SizeAt | DiceRoller.js:6 | a die size is recognised only where its digits occur |
| DiceGrammar.SizeFromNone | DiceRoller.js:6 | the size alternation fails exactly when none of 100, 20, 12, 10, 8, 6, 4 is written at that position |
| DiceGrammar.TwentyBeforeLonger | DiceRoller.js:6 | wherever `20` is written the alternation answers d20, so `1d200` is read as `1d20` followed by a `0` |
| DiceGrammar.ModsAt | DiceRoller.js:6 | the modifier run after a die size occurs in the text at that position, and each modifier is well formed |
| DiceGrammar.TermAt | DiceRoller.js:6 | a term found at a position is well formed and its text occurs there |
| DiceGrammar.Scan | DiceRoller.js:137 | the lexemes are well-formed terms that occur in the text, in increasing position and without overlap |
| DiceGrammar.ScanWithSound | DiceRoller.js:137 | the global match loop, with a matcher that finds only well-formed terms written where it finds them, gives such lexemes in increasing position without overlap |
| DiceGrammar.ScanWithComplete | DiceRoller.js:137 | the global match loop misses nothing: each lexeme is the matcher's answer at its start, and the matcher finds nothing before the first lexeme, between two of them or after the last |
| DiceGrammar.ScanComplete | DiceRoller.js:137 | every term of the grammar in the text is found: each lexeme is the term read at its start, and no term starts before the first lexeme, in a gap or after the last |
| DiceGrammar.Terms | DiceRoller.js:137 | every term `match(allDiceRegex)` returns is well formed |
| DiceGrammar.StripWhitespace | DiceRoller.js:130 | the stripped expression contains no whitespace and is no longer than the input |
| DiceGrammar.StripWhitespaceConcat | DiceRoller.js:130 | stripping a concatenation strips each part, so the result is the input's non-whitespace characters in their order |
| DiceGrammar.StripWhitespaceChar | DiceRoller.js:130 | a single character is removed exactly when it is whitespace |
| DiceGrammar.StripWhitespaceIdle | DiceRoller.js:130 | stripping text that has no whitespace changes nothing |
| ArithEval.EvalChain | DiceRoller.js:161-163 | the concatenated signed constants evaluate to their sum |
| ArithEval.EvalChainFails | DiceRoller.js:163 | a constant with a leading zero makes the strict-mode `eval` fail |
| ArithEval.EvalNumberChain | DiceRoller.js:513 | a number followed by signed literals evaluates to their sum |
| ArithEval.EvalParenChain | DiceRoller.js:507 | a parenthesised sum of a term's values evaluates to the sum |
| ArithEval.NoDoubleSignNoIncrement | DiceRoller.js:513 | text without two adjacent signs contains neither `++` nor `--` |
| DiceParse.AddDiceCounts | DiceRoller.js:178-182 | adding dice to the `diceToRoll` table keeps one entry per die size and adds the count to that size only |
| DiceParse.DiceToRollCounts | DiceRoller.js:170-183 | `diceToRoll[dN]` is the number of dice of size N over all terms, a term with `ro` counting twice |
| DiceParse.ConstantIsSum | DiceRoller.js:155-167 | the constant is the sum of the signed literals left after deleting the terms, 0 when there is none; it fails exactly when one of them has a leading zero |
| DiceParse.LeadingDigitsIgnored | DiceRoller.js:155-167 | unsigned leading digits add nothing to the constant, so `1-1d4` has constant 0 |
| DiceParse.ParseExpression | DiceRoller.js:128-184 | the constructor's loops (strip the terms one by one, then count the dice) compute exactly the function `Parse` |
| DiceParse.Parse | DiceRoller.js:128-184 | a successful parse has at least one term, every term well formed, and an expression made only of allowed characters |
| DiceParse.ParseConstant | DiceRoller.js:155-167 | the constant of a parsed roll is the sum of the signed literals left once the terms are deleted, none of them with a leading zero |
| DiceParse.StripAll | DiceRoller.js:156-159 | the loop that deletes the first occurrence of each term in turn computes `StripTerms` |
| DiceParse.CountDice | DiceRoller.js:170-183 | the `forEach` that fills `diceToRoll` computes `DiceToRoll` |
| DiceParse.ParseRejects | DiceRoller.js:130-141 | each rejection happens exactly when its cause holds: a disallowed character, then no dice term, then a constant `eval` that throws |
| DiceParse.ParseIdempotent | DiceRoller.js:298 | rebuilding a `DiceRoll` from its own expression gives the same parse, so the copy made by `roll` cannot throw |
| DiceParse.AdvantageExclusive | DiceRoller.js:109-115 | a roll is never with both advantage and disadvantage |
| DiceParse.IsComplex | DiceRoller.js:81-107 | a roll with more or fewer than one term is complex; the one term of a simple roll has no reroll |
| DiceParse.IsAdvantage | DiceRoller.js:109-111 | an advantage roll has exactly one term, without reroll, and is never a disadvantage roll |
| DiceParse.IsDisadvantage | DiceRoller.js:113-115 | a disadvantage roll has exactly one term, without reroll, that does not end in `kh1` |
| DiceParse.AdvantageShape | DiceRoller.js:109-111 | an advantage roll has exactly one term, of two dice, ending in `kh1` and without reroll |
| DiceParse.DisadvantageShape | DiceRoller.js:113-115 | a disadvantage roll has exactly one term, of two dice, ending in `kl1` and without reroll |
| DiceParse.TwoDicePrefix | DiceRoller.js:110 | a leading term of an expression starting with `2d` has the count 2 |
| DiceParse.RerollInTerm | DiceRoller.js:86 | an expression without `ro` has a first term without reroll |
| DiceRolls.NormalizeAction | DiceRoller.js:33-40 | `action` is undefined exactly for a missing or all-whitespace value, otherwise trimmed |
| DiceRolls.NormalizeActionIdempotent | DiceRoller.js:33-40 | setting the normalised action again changes nothing |
| DiceRolls.NormalizeRollType | DiceRoller.js:42-59 | undefined clears `rollType`; an accepted roll type is stored in its altered form; anything else keeps the previous value |
| DiceRolls.AcceptedRollTypesStable | DiceRoller.js:45-49 | each of the six accepted roll types is stored unchanged |
| DiceRolls.NormalizeSendTo | DiceRoller.js:69-75 | `sendToOverride` is set exactly for "Self", "Everyone" and "DungeonMaster" |
| DiceRolls.IfTruthy | DiceRoller.js:149-152 | an optional field is stored only when it is a non-empty string |
| DiceRolls.DiceRoll.SetAction | DiceRoller.js:33-40 | only the action changes, to its normalised value |
| DiceRolls.DiceRoll.SetRollType | DiceRoller.js:42-59 | only the roll type changes, as `NormalizeRollType` of the old one |
| DiceRolls.DiceRoll.SetSendToOverride | DiceRoller.js:69-75 | only the send-to override changes |
| DiceRolls.DiceRoll.constructor | DiceRoller.js:144-152 | from a parsed expression, the new roll holds the parse and each argument normalised by its setter, and is valid |
| DiceRolls.NewDiceRoll | DiceRoller.js:128-153 | `new DiceRoll(...)` throws exactly when the expression does not parse, with the parse's error; otherwise every field is the normalised argument |
| RollValues.Take | DiceRoller.js:467 | `slice(0, n)` has `min(n, length)` values |
| RollValues.Drop | DiceRoller.js:468 | the taken prefix followed by the rest is the original sequence |
| RollValues.RerollPrefixSpec | DiceRoller.js:477-489 | a value matching the reroll rule is replaced by the next unused reserve and any other value is kept; it fails exactly when the reserves run out |
| RollValues.RerollFailureStays | DiceRoller.js:481-489 | once the reserves have run out, the rest of the term fails too |
| RollValues.RerollEvenSucceeds | DiceRoller.js:477-479 | with an even number of values (the doubled dice of a reroll term), the reserves never run out |
| RollValues.RerollLength | DiceRoller.js:477-478 | a reroll keeps `ceil(length / 2)` values |
| RollValues.RerollValues | DiceRoller.js:471-490 | the `map` over the front half with `shift()` from the back half computes `Reroll` |
| RollValues.Insert | DiceRoller.js:496 | inserting into a sorted run keeps it sorted and adds exactly the one value |
| RollValues.Sort | DiceRoller.js:496 | the numeric sort orders the values and permutes them |
| RollValues.KeepHighestSpec | DiceRoller.js:492-497 | `khN` keeps `min(N, length)` values, in descending order, none smaller than any dropped one |
| RollValues.KeepLowestSpec | DiceRoller.js:498-503 | `klN` keeps `min(N, length)` values, in ascending order, none larger than any dropped one |
| RollValues.PlusLits | DiceRoller.js:507 | the `+`-joined values read as literals whose sum is the values' sum |
| RollValues.RenderEvaluates | DiceRoller.js:507-513 | a rendered term evaluates to the sum of its values |
| RollValues.RenderSeveral | DiceRoller.js:507 | two or more values render as a parenthesised sum that evaluates to their sum |
| Reconcile.BucketKeys | DiceRoller.js:438-444 | a die size has a bucket exactly when the provider's notation has a term of that size |
| Reconcile.BucketLengths | DiceRoller.js:445-450 | each bucket receives as many values as the provider's terms of that size ask for, and the leftover is what the terms did not use |
| Reconcile.BucketsConserve | DiceRoller.js:434-451 | bucketing loses and invents no value: the buckets plus the leftover are a permutation of the provider's values |
| Reconcile.BucketValues | DiceRoller.js:434-451 | the `forEach` that fills `matchedValues` computes `BucketsOf` |
| Reconcile.RerollRuleFrom | DiceRoller.js:480 | the reroll rule found in a term is a well-formed `ro` modifier |
| Reconcile.SubstituteFailureStays | DiceRoller.js:459-510 | once one term fails, the whole substitution fails |
| Reconcile.TermStepSucceeds | DiceRoller.js:467-468 | a term whose bucket holds enough values succeeds and consumes exactly its share |
| Reconcile.RerollDoubles | DiceRoller.js:463-466 | a reroll term asks for an even number of dice |
| Reconcile.SubstituteSucceeds | DiceRoller.js:459-510 | with enough values in every bucket the substitution succeeds, and each bucket loses exactly what the terms of its size need |
| Reconcile.SubstituteTerms | DiceRoller.js:459-510 | the `forEach` over the pending terms computes `Substitute` |
| Reconcile.RollShare | DiceRoller.js:471-490 | a term's values are rerolled only when the term has `ro` |
| Reconcile.Evaluated | DiceRoller.js:512-513 | the computed total is the value of the substituted text |
| Reconcile.Relabel | DiceRoller.js:515-532 | the relabelled roll carries the pending expression and constant, the substituted text and its total; the substitution's values for a complex roll and the provider's otherwise; the pending roll type when it is set and non-empty, else the provider's; `advantage` or `disadvantage` as classified, else the provider's kind |
| Reconcile.ReconcileRoll | DiceRoller.js:423-537 | a reconciled roll carries the pending expression and constant and a total equal to the value of its text; a complex roll takes the substitution's values and a simple one keeps the provider's; the pending roll type replaces the provider's only when set and non-empty; the kind is `advantage` or `disadvantage` as classified, else the provider's |
| Reconcile.ReconcileOne | DiceRoller.js:423-537 | one roll's reconciliation computes `ReconcileRoll` |
| Reconcile.ReconcileSucceeds | DiceRoller.js:434-513 | when the provider rolled every die the pending terms need, substitution succeeds and only the evaluation can fail |
| Reconcile.NoProviderTermFails | DiceRoller.js:435-438 | provider notation without a dice term makes the reconciliation fail |
| Reconcile.SwapMetadata | DiceRoller.js:550-578 | the swap keeps the event type, roll id and rolls. A complex roll gets `avttExpression` and `avttExpressionResult`, otherwise both are kept. A `character` or `monster` entity type and a known entity id are copied to both places, otherwise both are kept. A non-empty action, avatar or name replaces the message's, otherwise it is kept |
| Reconcile.SwapIdentity | DiceRoller.js:552-567 | the expression and entity part of the swap: `avttExpression` and `avttExpressionResult` for a complex roll, a `character` or `monster` entity type and a known entity id in both places, each kept otherwise; the event type, action, avatar, name, roll id and rolls stay |
| Reconcile.SwapDetails | DiceRoller.js:568-577 | the action, avatar and name part of the swap: a non-empty action, avatar or name replaces the message's, otherwise it stays; the expressions, entity types and ids, event type, roll id and rolls stay |
| Reconcile.SwapMetadataIdempotent | DiceRoller.js:550-578 | swapping the metadata twice is swapping it once |
| Reconcile.Outcomes | DiceRoller.js:423 | one outcome per provider roll |
| Reconcile.CollectSnoc | DiceRoller.js:423-537 | the rolls reconcile together exactly when each does, in order |
| Reconcile.Collect | DiceRoller.js:423 | the gathered rolls, when all are present, are one per outcome |
| Reconcile.PartialSwapComplete | DiceRoller.js:422-537 | when every roll reconciles, the rolls rewritten in place are exactly the reconciled rolls |
| Reconcile.SwappedRolls | DiceRoller.js:419-548 | either every roll is reconciled or, when any fails, the message is returned as it came; the event type, roll id and roll count never change |
| Reconcile.FallbackKeepsEarlierRolls | DiceRoller.js:422-423 | when the second roll fails, the corrected swap returns the message unchanged while the code as written has already rewritten the first roll |
| Reconcile.SwapRollData | DiceRoller.js:419-548 | with the corrected fallback of `#swapRollData`: the method computes `SwappedRolls` |
| DiceSession.Repeat | DiceRoller.js:334-336 | clicking a button `n` times gives `n` copies of that click |
| DiceSession.DieClicksCount | DiceRoller.js:332-337 | each die button is clicked `diceToRoll[dN]` times |
| DiceSession.ClickPlanMatchesTerms | DiceRoller.js:332-357 | the clicks on each die button equal the dice the terms need, and the last click is the target or roll button |
| DiceSession.CopyForRoll | DiceRoller.js:298 | the roll copied by `roll` keeps expression, action and roll type, keeps a non-empty name, and drops the send-to override |
| DiceSession.RouteOf | DiceRoller.js:373-416 | idle passes a message through; armed captures the pending message, captures the fulfilled one only when its roll id matches, and drops anything else |
| DiceSession.FulfilledWithoutPending | DiceRoller.js:408 | without a captured pending message, a fulfilled message is captured only when it has no roll id (`undefined === undefined`) |
| DiceSession.ArmedDropsOthers | DiceRoller.js:373-416 | while armed, any other event is swallowed |
| DiceSession.DiceRoller.constructor | DiceRoller.js:219-249 | a new roller is idle, with nothing pending and nothing sent |
| DiceSession.DiceRoller.ResetVariables | DiceRoller.js:364-370 | reset disarms and clears the pending roll and message, and sends nothing |
| DiceSession.DiceRoller.Timeout | DiceRoller.js:292-295 | the timeout resets the session |
| DiceSession.DiceRoller.ClickDiceButtons | DiceRoller.js:315-359 | the clicks issued are the click plan of the roll's dice and target; nothing else changes |
| DiceSession.DiceRoller.Roll | DiceRoller.js:259-309 | a roll starts exactly when there is a non-empty expression and none is in flight. It arms, stores the copy and clicks the plan; otherwise nothing changes |
| DiceSession.DiceRoller.Dispatch | DiceRoller.js:373-416 | with the corrected fallback of `#swapRollData`: a message is passed through, relabelled and sent, reconciled and sent (ending the session), or dropped, as `RouteOf` says |
| SlashCommand.CommandFrom | DiceRoller.js:9 | a recognised command is one of the seven names, written after `/` and followed by whitespace |
| SlashCommand.StripCommand | DiceRoller.js:196-197 | removing the command leaves the text after it and its one whitespace, or the text unchanged when there is no command |
| SlashCommand.RollIsNotR | DiceRoller.js:9 | `/roll x` is the `roll` command, not `r` followed by `oll` |
| SlashCommand.AllowedLength | DiceRoller.js:11 | the allowed prefix stops at the end or where no allowed token starts |
| SlashCommand.AllowedExpression | DiceRoller.js:11 | the matched expression is a prefix of the text |
| SlashCommand.StatFrom | DiceRoller.js:8 | a stat token found occurs at that position and is a stat name in any letter case |
| SlashCommand.StatMatches | DiceRoller.js:666 | the stat matches occur in the expression, left to right and without overlap |
| SlashCommand.AbilityModifier | DiceRoller.js:607-612 | the modifier is `floor((score - 10) / 2)` |
| SlashCommand.StatModifiers | DiceRoller.js:606-614 | the table has exactly the seven keys and `pb` as given; each ability entry is the one m with 2m <= score - 10 < 2m + 2, that is `Math.floor((score - 10) / 2)` of its score |
| SlashCommand.ReplaceModifiersInSlashCommand | DiceRoller.js:646-683 | the substitution loop with its `break` computes `ReplacedModifiers` |
| SlashCommand.ReplacedModifiers | DiceRoller.js:646-683 | without an expression or a stat table the command is returned unchanged; otherwise the expression is put back with the stat names before the first one not following an operator replaced, in order, by their modifiers |
| SlashCommand.PrecededCount | DiceRoller.js:669-679 | the loop reaches exactly the leading matches that follow `+`, `-` or `|`: every match before the count does, and the match at the count does not |
| SlashCommand.SubstitutedInOrder | DiceRoller.js:669-679 | the loop replaces, in order, exactly the matches before the first one not following an operator, each by `modifiers[mod.toLowerCase()]` |
| SlashCommand.SubstitutionStops | DiceRoller.js:675-677 | the `break`: dropping the matches from the first one not following an operator on changes nothing |
| SlashCommand.NoStatUnchanged | DiceRoller.js:654-656 | a command whose expression names no stat is returned unchanged |
| SlashCommand.FirstInvalidStops | DiceRoller.js:667-676 | when the first stat is not preceded by a sign, nothing is substituted |
| SlashCommand.SubstitutionStep | DiceRoller.js:673 | each substitution replaces the first occurrence of the stat's text |
| SlashCommand.SplitSlashCommand | DiceRoller.js:195-214 | splitting fails exactly when the text does not start with a recognised command |
| SlashCommand.SplitPartsShape | DiceRoller.js:205-214 | for the other commands, expression and action together are the text after the command, and the roll type is the command's default |
| SlashCommand.SplitPartsRoll | DiceRoller.js:201-204 | for `/r` and `/roll`, the action is the text after the expression up to the first `:` and the roll type is the part after it |
| SlashCommand.DefaultRollTypeAccepted | DiceRoller.js:205-214 | each command's default roll type survives the `rollType` setter |
| SlashCommand.CommandText | DiceRoller.js:201 | the command starts with `/r` exactly for `r` and `roll` |
| SlashCommand.FromSlashCommand | DiceRoller.js:194-216 | no command is an error, an unparsable expression is the parse's error, and otherwise the roll has the split parts, normalised |
| TokensPanel.SanitizeFolderPath | TokensPanel.js:9-19 | a sanitised path starts with `/` |
| TokensPanel.SanitizeRoot | TokensPanel.js:9-19 | the empty path and `/` both sanitise to the root |
| TokensPanel.SanitizeNoDoubleSlash | TokensPanel.js:10-14 | a path without `//` sanitises to the root or to a path not ending in `/` |
| TokensPanel.SanitizeSinglePass | TokensPanel.js:10 | `replaceAll` makes one pass, so `a////` becomes `/a/` |
| TokensPanel.SanitizeIdle | TokensPanel.js:9-19 | a clean path is a fixed point of sanitising |
| TokensPanel.SanitizeChild | TokensPanel.js:152 | a clean path joined with a plain name sanitises to `path/name`, or `/name` under the root, and the result is clean |
| TokensPanel.NewItem | TokensPanel.js:86-98 | the item keeps name, type and subtitle; its folder path starts with `/` and is the given one when that is already clean |
| TokensPanel.FolderItem | TokensPanel.js:99-103 | `TokenListItem.Folder` is a folder item with the given name, subtitle and folder image; a clean folder path is kept as given, any other is sanitised |
| TokensPanel.FullPath | TokensPanel.js:151-153 | a full path starts with `/` |
| TokensPanel.FullPathOfPlainName | TokensPanel.js:151-153 | the full path of an item in a clean folder, with a plain name, is the folder path joined with the name, and clean |
| TokensPanel.LexTrichotomy | TokensPanel.js:139-140 | the string order on names is a strict total order |
| TokensPanel.LexTransitive | TokensPanel.js:139-140 | the string order on names is transitive |
| TokensPanel.SortComparator | TokensPanel.js:134-143 | the comparison is -1, 0 or 1; folders come before everything else |
| TokensPanel.ComparatorAntisymmetric | TokensPanel.js:134-143 | swapping the operands negates the result |
| TokensPanel.ComparatorZero | TokensPanel.js:134-143 | two items compare equal exactly when both or neither are folders and their names are equal |
| TokensPanel.ComparatorTransitive | TokensPanel.js:134-143 | the comparator is transitive, so it is a consistent sort order |
| TokensPanel.Insert | TokensPanel.js:356 | inserting adds exactly that item |
| TokensPanel.InsertSorted | TokensPanel.js:356 | inserting into a sorted list keeps it sorted |
| TokensPanel.SortItems | TokensPanel.js:356 | the sort orders the items by `sortComparator` and permutes them |
| TokensPanel.FilterItems | TokensPanel.js:351-355 | every item that passes the filter is kept with its multiplicity, and no other item is kept |
| TokensPanel.Shown | TokensPanel.js:351-355 | with an empty filter every token is shown, and a shown token's name is at least as long as the filter |
| TokensPanel.RedrawItems | TokensPanel.js:350-356 | the drawn list is sorted and holds exactly the items that pass the filter |
| TokensPanel.UpperCaseFilterHidesTokens | TokensPanel.js:355 | the filter is not lowercased, so one with a capital letter hides every token |
| TokensPanel.MigrateToken | TokensPanel.js:33-40 | a migrated token is stamped with the folder path and its key, and named by the key when it has no name |
| TokensPanel.OwnMigration | TokensPanel.js:32-44 | a folder contributes its tokens in key order, or its own path as an empty folder when it has no `tokens` |
| TokensPanel.MigratedFrom | TokensPanel.js:29-50 | a folder's own tokens, or its own empty-folder entry, come before anything of its sub-folders |
| TokensPanel.MigratedRooted | TokensPanel.js:29-50 | every migrated token and empty folder has a path starting with `/` |
| TokensPanel.MigrationCounts | TokensPanel.js:29-50 | the migration records every token of the tree, and one empty folder per folder without `tokens` |
| TokensPanel.RootTokensAtRoot | TokensPanel.js:52 | tokens of the top folder are recorded at `/` |
| TokensPanel.TokenStore.constructor | TokensPanel.js:2-3 | the lists start empty |
| TokensPanel.TokenStore.MigrateToMyTokens | TokensPanel.js:21-54 | nothing changes once `mytokens` has entries; otherwise `mytokens` is the migration of the whole tree and its empty folders are appended |
| TokensPanel.TokenStore.MigrateFolderAtPath | TokensPanel.js:29-50 | the recursion appends exactly this folder's migration to both lists |
| TokensPanel.TokenStore.MigrateChildren | TokensPanel.js:45-49 | the loop over sub-folders appends their migrations in key order |
| TokensPanel.TokenStore.RecordFolder | TokensPanel.js:32-44 | the folder's own tokens, or its path as an empty folder, are appended |
| TokensPanel.TokenStore.RebuildTokenItemsList | TokensPanel.js:164-195 | the loops build exactly `RebuiltItems`: player items, then each token preceded by its folder the first time a non-root path is seen, then the empty folders |
| TokensPanel.RebuiltItems | TokensPanel.js:164-195 | the player items come first, and the last items are one "EMPTY FOLDER" folder item per empty folder, in order |
| TokensPanel.EmptyFoldersLast | TokensPanel.js:185-192 | the empty-folder loop appends one "EMPTY FOLDER" folder item per path, in order, after the token entries |
| TokensPanel.PcItems | TokensPanel.js:166 | one player item per character, with its name |
| TokensPanel.MyTokenItem | TokensPanel.js:104-110 | a token's item is a `myToken` item with the token's name, image and subtitle `MyToken`, in `/My Tokens` followed by the token's clean path (`/My Tokens` itself for a token at the root) |
| TokensPanel.LastComponent | TokensPanel.js:176 | the popped component contains no `/` |
| TokensPanel.ParentAndLast | TokensPanel.js:175-178 | parent path, `/` and last component put back together give the path |
| TokensPanel.DerivedFolder | TokensPanel.js:175-179 | a derived folder item is named by the last component of its path and, for a clean path, sits in `/My Tokens` followed by the remaining components |
| TokensPanel.DerivedFolderFullPath | TokensPanel.js:175-179 | the full path of the folder item derived from a clean path is `/My Tokens` followed by that path |
| TokensPanel.TokenInItsFolder | TokensPanel.js:172-182 | a token item's folder path is the full path of the folder item its path derives, so each token lies in the folder its folder item opens |
| TokensPanel.EmptyPlan | TokensPanel.js:185-192 | one "EMPTY FOLDER" entry per empty folder, in order |
| TokensPanel.OpenedPathsDistinct | TokensPanel.js:168-181 | the folder entries are created for pairwise distinct paths: exactly the non-root paths of the tokens |
| TokensPanel.TokenPlanContents | TokensPanel.js:170-183 | the token loop lists every token once, in order, and a folder for exactly the opened paths |
| AudioMixer.NewChannel | audio/mixer.js:46-52 | a channel copies name and source from the track, copies volume and loop from the staged track, and is paused exactly when it does not autoplay |
| AudioMixer.DefaultState | audio/mixer.js:70-87 | a fresh state has volume 0.5, is not paused and has no channels |
| AudioMixer.Store | audio/mixer.js:189-190 | a written state has every key present |
| AudioMixer.AssignChannelAsWritten | audio/mixer.js:59-61 | as written, rehydrating a channel always throws |
| AudioMixer.AssignChannel | audio/mixer.js:59-61 | as intended, rehydrating a channel gives back the stored channel |
| AudioMixer.AssignAsWritten | audio/mixer.js:94-105 | as written, reading the state throws exactly when a channel is stored |
| AudioMixer.Assign | audio/mixer.js:94-105 | each present key overrides its default, and the channels are the stored ones |
| AudioMixer.AssignStore | audio/mixer.js:189-199 | reading back a written state gives that state |
| AudioMixer.AssignEmpty | audio/mixer.js:198-200 | an empty storage entry reads as the default state |
| AudioMixer.StoredChannelsUnreadable | audio/mixer.js:94-98 | as written, a state holding any channel cannot be read back |
| AudioMixer.NewPlayer | audio/mixer.js:158-162 | a new player is paused with `preload` "auto" |
| AudioMixer.BasePlayer | audio/mixer.js:155-162 | the sync starts from the existing player, or a new one |
| AudioMixer.Tune | audio/mixer.js:164-172 | a tuned player has the channel's source and loop flag and the product of master and channel volumes. It is paused exactly when the mixer or the channel is |
| AudioMixer.SyncedPlayers | audio/mixer.js:150-182 | after the sync the players have exactly the channel ids and each matches its channel; an existing player keeps its `preload` |
| AudioMixer.SyncInSyncIdle | audio/mixer.js:150-182 | syncing players that already match changes nothing |
| AudioMixer.SyncIdempotent | audio/mixer.js:150-182 | syncing twice is syncing once |
| AudioMixer.PauseWithoutSyncIsStale | audio/mixer.js:189-192 | pausing without a sync leaves a playing player out of line with the state |
| AudioMixer.Mixer.constructor | audio/mixer.js:142-144 | the storage key is `audio.mixer.` followed by the game id; no players and no events yet |
| AudioMixer.Mixer.State | audio/mixer.js:198-200 | with the corrected `assign`: the state read back has the stored volume and pause flag, 0.5 and unpaused where none is stored, and exactly the stored channels |
| AudioMixer.Mixer.SyncPlayers | audio/mixer.js:150-182 | the two loops compute `SyncedPlayers`, so each channel has a tuned player and every other player is removed |
| AudioMixer.Mixer.WriteAsWritten | audio/mixer.js:189-192 | as written, `_write` persists the state and leaves the players as they were |
| AudioMixer.Mixer.Write | audio/mixer.js:189-192 | as intended, `_write` persists the state and syncs the players |
| AudioMixer.Mixer.Volume | audio/mixer.js:218-220 | with the corrected `assign` and `_write`: the getter reads the stored volume, 0.5 when none is stored |
| AudioMixer.Mixer.SetVolume | audio/mixer.js:208-212 | with the corrected `assign` and `_write`: only the master volume changes |
| AudioMixer.Mixer.Play | audio/mixer.js:227-232 | with the corrected `assign` and `_write`: only `paused` changes, to false; a channel-list change is announced |
| AudioMixer.Mixer.Pause | audio/mixer.js:237-242 | with the corrected `assign` and `_write`: only `paused` changes, to true, and every player ends paused; a channel-list change is announced |
| AudioMixer.Mixer.Channels | audio/mixer.js:250-252 | with the corrected `assign`: the result is exactly the stored channel map |
| AudioMixer.Mixer.AddChannel | audio/mixer.js:260-265 | with the corrected `assign` and `_write`: the channel appears under the fresh id and every other entry stays |
| AudioMixer.Mixer.ReadChannel | audio/mixer.js:272-274 | with the corrected `assign` and `_write`: a channel is returned exactly when one is stored under the id, and it is that one |
| AudioMixer.Mixer.UpdateChannel | audio/mixer.js:281-288 | with the corrected `assign` and `_write`: an absent id throws "Channel id does not exist in mixer" and changes nothing; otherwise only that entry is replaced |
| AudioMixer.Mixer.DeleteChannel | audio/mixer.js:294-298 | with the corrected `assign` and `_write`: only that id is removed, and an absent id leaves the state as it was |

## Left out

- **DOM and host.** jQuery DOM reading and clicking, timers, `localStorage`, the message-broker lookup and dispatch rebinding, `EventTarget` listeners, `HTMLAudioElement` playback, and console logging. Each is replaced by the state, parameters or output sequences described above.
- **Bypass and foreign-library paths.** The `bypassDdbDice` branches, `send_rpg_dice_to_ddb`, `send_rpg_dice_output_as_chat_message`, `hijack_ddb_dice_buttons` and `replace_gamelog_message_expressions`. They are built on a dice library and a socket outside this core.
- **`getCharacterStatModifiers`.** Only its arithmetic is modelled. How it finds the sheet on the page is a parameter (`None` where there is no sheet).
- **`eval`.** Replaced by an evaluator for integer sums of signed literals in parentheses. Any other text is a failure. This includes a comparison the character set lets through (`<`, `=`, `>`) and the empty text.
- **Floating point.**
  - Die values are natural numbers.
  - `parseInt` of huge counts, `NaN` and the mixer's float product `state.volume * channel.volume` are exact arithmetic on integers and reals.
  - The audio element's range check on `volume` is not modelled.
- **Reroll reserve exhaustion.** In the source, `shift()` on an empty reserve yields `undefined`. This happens only when the provider returns fewer values than requested. The model treats it as a reconciliation failure.
- **Results on the pending roll.** `resultTotal`, `resultValues` and `expressionResult` are written to the pending roll, which is discarded right after. So they are not stored. `expressionResult` is passed to the metadata swap directly.
- **Non-string input to `replaceModifiersInSlashCommand`.** The source returns `""` for it. The model's input is always a string.
- **String semantics.**
  - The string order of names is code-point order on `char`, not UTF-16 code units.
  - `toLowerCase` lowers ASCII letters only.
- **Key order.** `for...in` lists integer-like keys first. The model keeps the folder tree's tokens and sub-folders in the order given.
- **Item extras.** `sheet`, `monsterId`, `isReleased` and `isHomebrew` are left out, as are `TokenListItem.Monster` and `PathMonsters`. Monster search is network I/O.
- **`convert_path`.** It is not part of this model. The folder tree it would return is an explicit `OldFolder` value.
- **Other token-panel code.** `find_token_list_item`, `filter_token_list`'s DOM hiding, `inject_monster_tokens`, `init_tokens_panel`, and the row builders are rendering, network and DOM.
- TokensPanel.SortItems: the result is sorted and a permutation, but stability (equal items keeping their order) is not proved.
- TokensPanel.Sorted: stated for neighbouring items. With `ComparatorTransitive` this gives the order of every pair, but no lemma states the pairwise form.
- TokensPanel.TokenStore.RebuildTokenItemsList: the loops build a list of entries (folder path or token) and map it to items at the end. The source builds the items directly; the items are the same.
- **`MixerState.assign` extras.** Copying keys other than `volume`, `paused` and `channels` onto the state is not modelled. So is the aliasing between the returned channel map and the parsed object.
- **Mixer events.** `play` and `pause` dispatch the channel-list-change event. The play/pause event is defined but never dispatched, and the model records the events as the source dispatches them.
- Reconcile.Evaluated: a substituted expression that `Eval` does not read, an integer sum of signed literals in parentheses, makes the model's reconciliation fail, so the original message is sent. The source evaluates it with JavaScript and dispatches the rewritten message with the value as its total. Examples are `1d20>10` (`15>10` is `true`), `1d20kh0` (the empty text is `undefined`) and `1d20>>1` (`15>>1` is the integer 7).
- DiceSession.DiceRoller.Dispatch: the fulfilled branch sends the message `SwappedRolls` builds, with the corrected fallback of the Findings table. As written, a fulfilled message whose later roll fails goes out with its earlier rolls already rewritten (DiceRoller.js:412, 422-423, 543-547). `Reconcile.SwapRollData` is proved against the same corrected fallback. `Reconcile.SwappedRollsAsWritten` states the behaviour as written.
- AudioMixer.Mixer: every contract of the mixer's operations is stated for the corrected `assign` and `_write` of the Findings table. As written, `state()` throws once a channel is stored (audio/mixer.js:59-61, 94-105), and no write reaches the players (audio/mixer.js:191). The as-written members state those behaviours.
- TokensPanel.FolderItem: the image is the relative path `assets/folder.svg`. The source prefixes it with `window.EXTENSION_PATH`, a host value.
- **Shallow copies.** Messages and tokens are values in the model:
  - In `#wrappedDispatch`, the relabelled pending message is a spread copy that shares `data` with the original.
  - `migrate_to_my_tokens` stamps `data-folderpath` and `data-oldFolderKey` on the stored token object itself, so the old tree and `mytokens` share it. `TokensPanel.MigrateToken` returns a new record instead.

## Findings

| source | as written | input that shows it | evidently intended | confidence | as-written member | corrected member |
|---|---|---|---|---|---|---|
| DiceRoller.js:422-423 | `{ ...ddbMessage }` copies only the top level, so the rolls rewritten before a failing roll are the same objects as in `ddbMessage`; the catch branch then returns a message whose earlier rolls are already changed | a fulfilled message with two rolls where the first reconciles and the second has no dice term in its notation | on failure, the original message unchanged | not executed | Reconcile.SwappedRollsAsWritten (lemma Reconcile.FallbackKeepsEarlierRolls) | Reconcile.SwappedRolls |
| audio/mixer.js:59-61 | `Channel.assign` calls `new Channel()` with no arguments, and the constructor reads `track.name` of `undefined`, so it throws; `state()` therefore throws whenever a channel is stored | `addChannel` of any channel, then any operation that calls `state()` | a blank channel with the stored fields copied over it | not executed | AudioMixer.AssignAsWritten (lemma AudioMixer.StoredChannelsUnreadable) | AudioMixer.Assign (lemma AudioMixer.AssignStore) |
| audio/mixer.js:191 | `this._syncPlayers;` names the method without calling it, so no write ever reaches the players | `pause()` while a player is playing: it keeps playing | `this._syncPlayers()` after every write | not executed | AudioMixer.Mixer.WriteAsWritten (lemma AudioMixer.PauseWithoutSyncIsStale) | AudioMixer.Mixer.Write (function AudioMixer.SyncedPlayers) |
