# Workyy landing site: a verified model of its logic

Workyy's landing site is a React single-page application. Most of it is static marketing text, but a few parts carry real logic, and this project models those parts in Dafny and proves properties about them:

- **The analytics tarot game.** This covers the six-card catalogue, the random three-card draw, the mood of a reading, and the reducer that drives a reading from `idle` through `pastDrawn` and `presentDrawn` to `summary`. It also covers the hook's derived values (smoke level, per-slot meanings, draw flags) and the tarot panel's headline, button and slot list.
- **The chart memory game.** Six cards (two of each chart type) are shuffled, clicks open them, and a delayed timer resolves each open pair.
- **The messy data clean-up game.** A five-row table with a missing value and an outlier, each fixed by one click.
- **The Ready Player Me helpers.** Model-download URLs with their query options, avatar-creator URLs, extracting an avatar id from a URL, and the metadata endpoint.
- **Localisation and navigation.**
  - The language context: the language comes from the `/en/` or `/ru/` path prefix, or else from browser storage.
  - The language toggle, which rewrites the path.
  - The active-route test used by the navigation.
  - The breadcrumb trail.
  - The SEO head, with its alternate and canonical URLs.
- **The theme context.** The catalogue of eight themes in four families, the theme restored at start-up (including the legacy `dark`/`light` values), the toggle, and the write-back to storage.
- **The pricing page.** The plans in both locales, the calculator that suggests a plan and estimates a monthly cost, and the demo-request form.
- **The notebook demo.** Three canned SQL/Python scenarios whose cells can be edited, run and switched.

Modelling choices:

- Randomness becomes an input: a permutation and coin flips for the tarot draw, and Fisher–Yates picks for the memory game.
- Timers become an explicit `Fire` step.
- Browser storage is a `map<string, string>`.
- Each component's state is an immutable datatype, and each event handler is a pure function from old state to new state.

The modules follow the source files:

| module | file | models |
|---|---|---|
| `Wrappers` | wrappers.dfy | the `Option` type |
| `Counting` | counting.dfy | counting by key |
| `Strings` | strings.dfy | digits, `indexOf`, `replace`, `toLowerCase`, last path segment |
| `TarotCards` | tarot_cards.dfy | `src/data/tarotCards.ts` |
| `TarotGame` | tarot_game.dfy | `src/hooks/useTarotGame.ts` |
| `TarotUI` | tarot_ui.dfy | `src/components/tarot/TarotUI.tsx` |
| `ChartMemory` | chart_memory.dfy | `src/components/games/ChartMemoryGame.tsx` |
| `DataCleanup` | data_cleanup.dfy | `src/components/games/MessyDataCleanup.tsx` |
| `ReadyPlayerMe` | ready_player_me.dfy | `src/utils/readyPlayerMe.ts` |
| `LanguageContext` | language_context.dfy | `src/contexts/LanguageContext.tsx` |
| `LocalePaths` | locale_paths.dfy | `useActiveRoute.ts`, `LanguageToggle.tsx`, `Breadcrumbs.tsx`, `SEOHead.tsx` |
| `Theme` | theme.dfy | `src/contexts/ThemeContext.tsx` |
| `Pricing` | pricing.dfy | `src/pages/PricingPage.tsx`, with the plans from `src/data/content.ts` |
| `Notebook` | notebook.dfy | `src/components/NotebookDemo.tsx` |

Where the code does something other than its declared types or names suggest, the model follows the code:

- **The stored language is not checked.** `LanguageContext` reads it back with a type cast, so a stored `fr` becomes the current language. The model therefore holds the language as a string.
- **The prefix patterns differ.** The active-route test and the SEO head strip `^/(en|ru)` without requiring a following `/`, so `/english` counts as prefixed. The language context and the toggle do require `/en/` or `/ru/`.

## Model

| member | source | states |
|---|---|---|
| TarotCards.TarotDeck | src/data/tarotCards.ts:26-138 | The catalogue holds six cards. |
| TarotCards.TarotDeckWellFormed | src/data/tarotCards.ts:26-138 | Catalogue ids are unique, exactly the minor arcana carry a suit, and every meaning text in both orientations is non-empty. |
| TarotCards.CatalogIdsUnique | src/data/tarotCards.ts:26-138 | No two catalogue cards share an id. |
| TarotCards.CatalogSuitsMatchArcana | src/data/tarotCards.ts:26-138 | A catalogue card has a suit exactly when it is a minor arcana card. |
| TarotCards.CatalogMeaningsNonEmpty | src/data/tarotCards.ts:26-138 | Every catalogue card has non-empty past, present and future meanings, upright and reversed. |
| TarotCards.Shuffle | src/data/tarotCards.ts:146 | A shuffle by a permutation keeps the deck's length, and position i holds the card the permutation names. |
| TarotCards.PickRandomCards | src/data/tarotCards.ts:145-155 | The draw has min(3, deck size) cards. Draw i is the card at shuffled position i. Its orientation is reversed only when reversals are allowed and its coin says so. |
| TarotCards.DrawHasNoRepeats | src/data/tarotCards.ts:146-147 | On a catalogue with unique ids, no two drawn cards share an id. |
| TarotCards.DrawComesFromDeck | src/data/tarotCards.ts:145-155 | Every drawn card is a card of the deck. |
| TarotCards.NoReversalsMeansUpright | src/data/tarotCards.ts:149 | With reversals off, every drawn card is upright whatever the coins. |
| TarotCards.MoodWeight | src/data/tarotCards.ts:157-161 | A weight is positive exactly for the positive mood and negative exactly for the negative mood, and lies in [-1, 1]. |
| TarotCards.MoodTotal | src/data/tarotCards.ts:164-167 | The left-to-right running total equals the number of positive cards minus the number of negative cards, each read in its drawn orientation. |
| TarotCards.EvaluateReadingMood | src/data/tarotCards.ts:163-172 | A reading is positive iff positive cards outnumber negative ones, negative iff the reverse, and neutral when the reading is empty. |
| TarotCards.EvaluateReadingMoodOrderFree | src/data/tarotCards.ts:163-172 | Any reordering of the same cards gives the same mood. |
| TarotCards.TwoPositivesOutweighOneNegative | src/data/tarotCards.ts:169 | Two positive cards and one negative card make a positive reading. |
| TarotCards.GetTimelineMeaning | src/data/tarotCards.ts:174-184 | A slot's text is that slot's meaning in the block the card's orientation selects. |
| TarotCards.CatalogCardHasMeanings | src/data/tarotCards.ts:26-138 | A catalogue card has non-empty meanings in both orientations. |
| TarotCards.MeaningsNonEmpty | src/data/tarotCards.ts:174-184 | A card with non-empty meanings has a non-empty timeline meaning for every slot. |
| TarotGame.SmokeLevelOf | src/hooks/useTarotGame.ts:36-42 | The smoke level rises one step per phase and saturates at the fourth level (futureDrawn and summary both show D). |
| TarotGame.ExpressionByMood | src/hooks/useTarotGame.ts:44-48 | A positive reading smiles, a neutral one smirks and a negative one is sad, each iff; the initial neutral face never follows a reading. |
| TarotGame.ExpressionByMoodInjective | src/hooks/useTarotGame.ts:44-48 | Distinct moods give distinct faces. |
| TarotGame.SummaryTextInjective | src/hooks/useTarotGame.ts:84-89 | The summary sentence determines the mood it was written for. |
| TarotGame.SummaryText | src/hooks/useTarotGame.ts:84-89 | A positive reading gets "The path ahead glows with possibility.", a negative one "Challenges gather—stay grounded and patient." and a neutral one "Balance is in flux; discernment will steady you.", each sentence for exactly that mood. |
| TarotGame.InitialContext | src/hooks/useTarotGame.ts:50-55 | A new session is idle, with nothing drawn, no summary, the neutral face and three pre-drawn cards. |
| TarotGame.Draw | src/hooks/useTarotGame.ts:59-93 | A draw is a no-op exactly when its phase flag is off. A legal draw advances the phase, skipping futureDrawn. It fills only its own slot, from its own deck position, and keeps the deck. Only the future draw writes the summary and the expression, from the mood of the three deck cards. |
| TarotGame.CanDraw | src/hooks/useTarotGame.ts:120-122 | The three draw flags; Draw is a no-op exactly when its flag is off, and CtaIsEnabled shows the offered draw's flag is on. |
| TarotGame.Reduce | src/hooks/useTarotGame.ts:57-98 | Reset starts a new session: idle, nothing drawn, three cards dealt. Every other action is a draw that keeps the deck and changes the session exactly when its flag is on. |
| TarotGame.CompletedReachable | src/hooks/useTarotGame.ts:73-93 | Completing a reading from the present-drawn phase keeps the reachable-state invariant. |
| TarotGame.DrawFuturePreservesReachable | src/hooks/useTarotGame.ts:73-93 | The future draw keeps the invariant: it fills slot 3 from deck position 2 and writes the deck's summary and face. |
| TarotGame.DrawEarlyPreservesReachable | src/hooks/useTarotGame.ts:59-72 | The past and present draws keep the invariant. |
| TarotGame.InitialContextReachable | src/hooks/useTarotGame.ts:50-55 | A new session satisfies the reachable-state invariant. |
| TarotGame.ReducePreservesReachable | src/hooks/useTarotGame.ts:57-98 | Every action keeps the invariant. The invariant says: slot N is filled from deck position N-1 exactly when the phase is past it, and the summary and face are those of the deck's mood in the summary phase. |
| TarotGame.Run | src/hooks/useTarotGame.ts:101 | Any sequence of dispatched actions ends in a reachable session. |
| TarotGame.FutureDrawnNeverReached | src/hooks/useTarotGame.ts:73-92 | No sequence of actions leaves the game resting in futureDrawn. |
| TarotGame.HappyPath | src/hooks/useTarotGame.ts:59-92 | Drawing past, present and future in order ends in the summary phase. The three slots then hold the three deck cards and the summary carries the deck's mood. |
| TarotGame.PositiveReadingSmiles | src/hooks/useTarotGame.ts:84-91 | A positive reading ends with a smile and the hopeful sentence. |
| TarotGame.CardMeaningReachable | src/hooks/useTarotGame.ts:105-111 | In a reachable session a slot has a meaning exactly when it is drawn. That meaning is the non-empty timeline meaning of its own deck card. |
| TarotGame.CardMeaning | src/hooks/useTarotGame.ts:105-111 | A slot's meaning; CardMeaningReachable states what it is in a reachable session. |
| TarotUI.PrimaryCopy | src/components/tarot/TarotUI.tsx:21-27 | The headline is never empty and reads "Reading complete" exactly from futureDrawn on. |
| TarotUI.ActionLabel | src/components/tarot/TarotUI.tsx:29-35 | Every phase has a non-empty button label. |
| TarotUI.Cta | src/components/tarot/TarotUI.tsx:48-77 | A button is offered in every phase except futureDrawn. |
| TarotUI.AtMostOneActiveSlot | src/components/tarot/TarotUI.tsx:93-97 | At most one slot is highlighted, and none once the reading is complete. |
| TarotUI.IsActive | src/components/tarot/TarotUI.tsx:93-97 | The highlighted slot of a phase; AtMostOneActiveSlot and ActiveSlotIsFilledByCta state its meaning. |
| TarotUI.CtaIsEnabled | src/components/tarot/TarotUI.tsx:48-77 | In a reachable session the offered button's action is never a no-op. |
| TarotUI.DrawFillsOwnSlot | src/hooks/useTarotGame.ts:59-93 | A legal draw turns a slot from empty to filled exactly when the slot is the draw's own. |
| TarotUI.ActiveSlotIsFilledByCta | src/components/tarot/TarotUI.tsx:93-97 | A slot is highlighted iff it is empty and pressing the offered button fills it. |
| TarotUI.LineFor | src/components/tarot/TarotUI.tsx:115-119 | A slot line carries the slot's label and is shown as drawn iff the slot is drawn. Its text is the slot's meaning or "Awaiting draw...". |
| TarotUI.RenderCopy | src/components/tarot/TarotUI.tsx:103-121 | The summary panel replaces the slot list exactly when there is a summary; otherwise there are three lines. |
| TarotUI.RenderCopyReachable | src/components/tarot/TarotUI.tsx:103-121 | In a reachable session the summary shows exactly in the summary phase. Before that, each drawn slot shows its own card's meaning and every other slot awaits its draw. |
| ChartMemory.KindLabelInjective | src/components/games/ChartMemoryGame.tsx:3-7 | The labels tell chart kinds apart, so the label comparison is a kind comparison. |
| ChartMemory.IdFor | src/components/games/ChartMemoryGame.tsx:20 | A card id ends in the digit of its position. |
| ChartMemory.Duplicated | src/components/games/ChartMemoryGame.tsx:18-23 | The icon table appears twice, with every card face down and unmatched and all ids distinct. |
| ChartMemory.FisherYates | src/components/games/ChartMemoryGame.tsx:25-28 | The in-place swap loop yields a permutation of its input. |
| ChartMemory.DistinctKeysPermutation | src/components/games/ChartMemoryGame.tsx:25-28 | Reordering keeps distinct ids distinct. |
| ChartMemory.DuplicatedIsFresh | src/components/games/ChartMemoryGame.tsx:17-23 | The duplicated table is a fresh board: six face-down unmatched cards with distinct ids, two of each kind. |
| ChartMemory.DuplicateAndShuffle | src/components/games/ChartMemoryGame.tsx:17-30 | The shuffled board is a fresh board and a permutation of the duplicated table. |
| ChartMemory.HandleFlip | src/components/games/ChartMemoryGame.tsx:41-72 | A click while busy, or on a face-up or matched card, changes nothing. Otherwise only that card turns face up and joins the opened list. Opening the second card counts a move, blocks clicks and schedules the resolution with the label comparison. |
| ChartMemory.Fire | src/components/games/ChartMemoryGame.tsx:53-70 | The resolution clears the opened list, unblocks clicks and keeps the move count. It touches only the two scheduled positions: both become matched if their labels agreed, otherwise both turn face down. |
| ChartMemory.ResetGame | src/components/games/ChartMemoryGame.tsx:74-79 | Reset installs the new board with zero moves, nothing opened, clicks unblocked and no pending resolution. |
| ChartMemory.ResetAsWritten | src/components/games/ChartMemoryGame.tsx:74-79 | Reset as written installs the new board but keeps the pending resolution. |
| ChartMemory.NewGameInv | src/components/games/ChartMemoryGame.tsx:33-36 | A fresh board starts a game that satisfies the game invariant. |
| ChartMemory.NewGame | src/components/games/ChartMemoryGame.tsx:33-36 | A game on a given board with no moves, nothing open and nothing pending; NewGameInv proves it satisfies the invariant. |
| ChartMemory.HandleFlipPreservesInv | src/components/games/ChartMemoryGame.tsx:41-72 | A click keeps the invariant: two cards of each kind, matched cards in whole same-kind pairs, at most two opened face-up cards, and a resolution pending exactly when two are open. |
| ChartMemory.FirePreservesInv | src/components/games/ChartMemoryGame.tsx:53-70 | A resolution keeps the invariant. |
| ChartMemory.FireMatchPreservesCounts | src/components/games/ChartMemoryGame.tsx:55-60 | Marking a matching open pair keeps two of each kind and matched cards in pairs. |
| ChartMemory.FireMismatchPreservesCounts | src/components/games/ChartMemoryGame.tsx:61-66 | Turning a mismatched pair face down changes no kind or matched count. |
| ChartMemory.ResetGamePreservesInv | src/components/games/ChartMemoryGame.tsx:74-79 | Reset with the pending resolution cancelled restores the invariant. |
| ChartMemory.MatchedCountByKind | src/components/games/ChartMemoryGame.tsx:38 | The matched cards are the sum of the matched cards of each kind. |
| ChartMemory.MatchesWithinPairs | src/components/games/ChartMemoryGame.tsx:38-39 | The "pairs found" counter is a whole number between 0 and the number of pairs, and reaches it exactly when every card is matched. |
| ChartMemory.MatchedCount | src/components/games/ChartMemoryGame.tsx:38 | The number of matched cards; MatchedCountByKind and MatchesWithinPairs state its shape. |
| ChartMemory.Apply | src/components/games/ChartMemoryGame.tsx:41-79 | Clicks, resolutions and resets keep the invariant. |
| ChartMemory.SwappedBoardIsFresh | src/components/games/ChartMemoryGame.tsx:17-30 | A board the shuffle can deal, with different kinds at positions 0 and 3. |
| ChartMemory.OpenBothLineCharts | src/components/games/ChartMemoryGame.tsx:50-55 | Opening both Line Chart cards schedules a matching resolution of positions 0 and 3. |
| ChartMemory.ResetAsWrittenBreaksPairs | src/components/games/ChartMemoryGame.tsx:53-79 | With reset as written, a resolution that fires after a reset marks a lone card of two different kinds matched and breaks the invariant. |
| DataCleanup.FixRow | src/components/games/MessyDataCleanup.tsx:15-24 | Other ids and clean rows are kept. A missing row gets 145 and an outlier gets 150, and both become ok. |
| DataCleanup.HandleFix | src/components/games/MessyDataCleanup.tsx:13-26 | The fix keeps length and order and applies the row fix to every row. |
| DataCleanup.DirtyLeft | src/components/games/MessyDataCleanup.tsx:28 | The count is at most the number of rows and is zero iff every row is ok. |
| DataCleanup.ProgressLine | src/components/games/MessyDataCleanup.tsx:67-69 | The "Done!" line shows iff no dirty row is left. |
| DataCleanup.FixCleansDirtyRow | src/components/games/MessyDataCleanup.tsx:52-57 | The Fix button of a dirty row cleans it, gives it a value and keeps its id and week. |
| DataCleanup.HandleFixIdempotent | src/components/games/MessyDataCleanup.tsx:13-26 | Fixing twice equals fixing once. |
| DataCleanup.HandleFixDirtyLeft | src/components/games/MessyDataCleanup.tsx:13-28 | A fix lowers the dirty count by exactly the number of dirty rows with that id, and never dirties a row. |
| DataCleanup.FixDirtyRowDecrements | src/components/games/MessyDataCleanup.tsx:13-28 | With unique ids, fixing a dirty row lowers the dirty count by one. |
| DataCleanup.InitialRowsShape | src/components/games/MessyDataCleanup.tsx:4-10 | The starting table has five rows with unique ids, two of them dirty. |
| DataCleanup.InitialRows | src/components/games/MessyDataCleanup.tsx:4-10 | The starting table; InitialRowsShape and InitialRowsCleanInTwoFixes state its properties. |
| DataCleanup.InitialRowsCleanInTwoFixes | src/components/games/MessyDataCleanup.tsx:4-28 | Fixing rows 3 and 4 leaves nothing to clean. |
| ReadyPlayerMe.KeyRank | src/utils/readyPlayerMe.ts:50-117 | Each parameter name has its fixed position in its builder's order. |
| ReadyPlayerMe.QueryString | src/utils/readyPlayerMe.ts:66 | The query text is empty iff there are no parameters. |
| ReadyPlayerMe.LookupAppend | src/utils/readyPlayerMe.ts:66 | Looking up a name in a concatenation finds the first part's value first. |
| ReadyPlayerMe.Present | src/utils/readyPlayerMe.ts:50-64 | Appending only the given options never yields more parameters than candidates. |
| ReadyPlayerMe.PresentWithin | src/utils/readyPlayerMe.ts:50-64 | The appended parameters keep their candidates' rank bounds. |
| ReadyPlayerMe.PresentRanked | src/utils/readyPlayerMe.ts:50-64 | The appended parameters keep their candidates' order. |
| ReadyPlayerMe.LookupMissing | src/utils/readyPlayerMe.ts:66 | A name no parameter carries is absent. |
| ReadyPlayerMe.PresentLookup | src/utils/readyPlayerMe.ts:50-64 | A candidate's name looks up exactly its own value, or nothing when it was not appended. |
| ReadyPlayerMe.PresentEmpty | src/utils/readyPlayerMe.ts:50-66 | Nothing is appended iff no candidate has a value. |
| ReadyPlayerMe.AvatarParams | src/utils/readyPlayerMe.ts:48-64 | There are at most five download parameters. |
| ReadyPlayerMe.AvatarParamsRanked | src/utils/readyPlayerMe.ts:50-64 | Download parameters come in the order quality, pose, textureAtlas, textureSizeLimit, lod, and only those appear. |
| ReadyPlayerMe.AvatarParamsLookup | src/utils/readyPlayerMe.ts:50-64 | Each option appears with its text exactly when given. A size limit of 0 is dropped as falsy, while lod 0 is kept. |
| ReadyPlayerMe.AvatarParamsEmpty | src/utils/readyPlayerMe.ts:50-66 | There are no parameters iff no option adds one. |
| ReadyPlayerMe.GetAvatarUrl | src/utils/readyPlayerMe.ts:37-68 | The URL starts with `https://models.readyplayer.me/<id>.glb`. It is followed by `?` and the query of the download parameters exactly when some option adds one, and by nothing otherwise. |
| ReadyPlayerMe.OptimizedParams | src/utils/readyPlayerMe.ts:192-198 | The optimized preset appends quality=high, textureAtlas=2048 and lod=0, in that order. |
| ReadyPlayerMe.PerformanceParams | src/utils/readyPlayerMe.ts:206-212 | The performance preset appends quality=medium, textureAtlas=1024 and lod=1. |
| ReadyPlayerMe.GetOptimizedAvatarUrl | src/utils/readyPlayerMe.ts:192-198 | The optimized URL is the model path with the optimized query. |
| ReadyPlayerMe.GetPerformanceAvatarUrl | src/utils/readyPlayerMe.ts:206-212 | The performance URL is the model path with the performance query. |
| ReadyPlayerMe.AvatarUrlWithoutOptions | src/utils/readyPlayerMe.ts:45-67 | With the default empty options the URL is exactly the model path. |
| ReadyPlayerMe.FirstGlbMatch | src/utils/readyPlayerMe.ts:140 | The result is the leftmost match of `/<24 hex>.glb` (case-insensitive) at or after the start, or none when there is no match. |
| ReadyPlayerMe.LeadingIdOfLastSegment | src/utils/readyPlayerMe.ts:146-150 | An id is found iff the text after the last `/` starts with 24 hex digits, and the id is those 24 digits. |
| ReadyPlayerMe.ExtractAvatarId | src/utils/readyPlayerMe.ts:133-151 | Input without `/` or `.` is returned as is. Otherwise the result is the leftmost `.glb` match, else the leading id of the last segment, else nothing. Any id found that way is valid. |
| ReadyPlayerMe.ExtractBareId | src/utils/readyPlayerMe.ts:135-137 | A bare valid id comes back unchanged. |
| ReadyPlayerMe.IsValidAvatarId | src/utils/readyPlayerMe.ts:159-162 | An id is exactly 24 hexadecimal digits in either case; ValidAvatarIdExamples and ExtractAvatarIdRoundTrip use it. |
| ReadyPlayerMe.ValidAvatarIdExamples | src/utils/readyPlayerMe.ts:159-162 | The documented example id is valid in lower and upper case; 23 digits, or a `g`, is not. |
| ReadyPlayerMe.FirstGlbMatchIsLeftmost | src/utils/readyPlayerMe.ts:140-142 | Any match is found, and the leftmost one is reported. |
| ReadyPlayerMe.SlashesOfModelsBase | src/utils/readyPlayerMe.ts:47 | The model host's only slashes are the two after the scheme. |
| ReadyPlayerMe.ExtractFromModelPath | src/utils/readyPlayerMe.ts:140-143 | A URL that starts with the model path of a valid id yields that id. |
| ReadyPlayerMe.ExtractAvatarIdRoundTrip | src/utils/readyPlayerMe.ts:37-151 | Extracting the id from a model URL gives back the id, whatever the options. |
| ReadyPlayerMe.CreatorBase | src/utils/readyPlayerMe.ts:95-96 | The result is the template with its first `{subdomain}` replaced, when that is non-empty. It is `https://<subdomain>.readyplayer.me` when there is no template, the template is empty, or the substitution comes out empty. A template without the placeholder is kept as is. It is never empty. |
| ReadyPlayerMe.ReplaceSubdomain | src/utils/readyPlayerMe.ts:95 | Substitution replaces the first placeholder and keeps both sides of it. |
| ReadyPlayerMe.TemplateCreatorBaseGeneral | src/utils/readyPlayerMe.ts:95-96 | For any template whose first brace opens the placeholder, the base is the template with the subdomain in its place, unless that is empty, when it is the standard address. |
| ReadyPlayerMe.TemplateCreatorBase | src/utils/readyPlayerMe.ts:21-25 | With the default template the creator lives at `https://<subdomain>.readyplayer.me`. |
| ReadyPlayerMe.CreatorParams | src/utils/readyPlayerMe.ts:98-117 | There are at most six creator parameters. |
| ReadyPlayerMe.CreatorParamsRanked | src/utils/readyPlayerMe.ts:100-117 | Creator parameters come in their fixed order, and only creator names appear. |
| ReadyPlayerMe.CreatorParamsLookup | src/utils/readyPlayerMe.ts:100-117 | The flags appear as `true` only when set. The body type appears when given. Text options appear, encoded, only when non-empty. |
| ReadyPlayerMe.CreatorParamsEmpty | src/utils/readyPlayerMe.ts:98-119 | There are no parameters iff no option is set. |
| ReadyPlayerMe.GetCreatorUrl | src/utils/readyPlayerMe.ts:84-121 | The URL starts with the creator base. It equals the base iff no option is set, and otherwise continues with `?` and the query of the creator parameters. |
| ReadyPlayerMe.AvatarMetadataUrl | src/utils/readyPlayerMe.ts:176-177 | The endpoint is `<api>/avatars/<id>`, where the api is the configured one or the standard one when the configured one is absent or empty. |
| LanguageContext.PathLanguage | src/contexts/LanguageContext.tsx:16-18 | The result is ru iff the path starts with `/ru/` and en iff it starts with `/en/`. Any language found is supported. |
| LanguageContext.StoredLanguage | src/contexts/LanguageContext.tsx:19-20 | The stored value is used only when present and non-empty. |
| LanguageContext.InitialLanguage | src/contexts/LanguageContext.tsx:15-21 | The path prefix wins. Otherwise the stored value is used, or en, and the result is never empty. |
| LanguageContext.OnLocationChange | src/contexts/LanguageContext.tsx:23-30 | A prefixed path sets its language. Any other path changes nothing. Storage is untouched. |
| LanguageContext.SetLanguage | src/contexts/LanguageContext.tsx:32-35 | The language becomes current and is written under `workyy-language`. Every other stored key is kept. |
| LanguageContext.PrefixedPathIgnoresStorage | src/contexts/LanguageContext.tsx:15-21 | On a prefixed path the stored value plays no part, and the language is supported. |
| LanguageContext.SetLanguageRoundTrip | src/contexts/LanguageContext.tsx:19-35 | A language that was set is the one the next start on an unprefixed path reads back. |
| LanguageContext.StoredValueUnvalidated | src/contexts/LanguageContext.tsx:19-20 | A stored `fr` is taken as it is, an empty stored value gives en, and the `/ru/` prefix beats a stored en. |
| LanguageContext.OnLocationChangeIdempotent | src/contexts/LanguageContext.tsx:23-30 | Following the same location twice equals following it once. |
| LocalePaths.StripLangPrefix | src/hooks/useActiveRoute.ts:8 | A leading `/en` or `/ru`, whether or not `/` follows, is removed. Any other path is kept. |
| LocalePaths.NormalizeRoute | src/hooks/useActiveRoute.ts:12 | The route is the path without its `/en` or `/ru` prefix, or `/home` when nothing is left; so it is never empty. |
| LocalePaths.ActiveRoute | src/hooks/useActiveRoute.ts:8 | The current route is the pathname without its `/en` or `/ru` prefix, or `/home` when nothing is left. |
| LocalePaths.NormalizeIgnoresLangPrefix | src/hooks/useActiveRoute.ts:12 | Putting `/en` or `/ru` in front of an unprefixed path does not change its route. |
| LocalePaths.NormalizeFixesPlainRoute | src/hooks/useActiveRoute.ts:12 | A non-empty unprefixed route is its own normal form. |
| LocalePaths.PathnameIsActive | src/hooks/useActiveRoute.ts:11-14 | A link to the current pathname is active. |
| LocalePaths.IsActive | src/hooks/useActiveRoute.ts:11-14 | A link is active when its route is the current route or an ancestor of it; IsActiveAtSegmentBoundary gives the exact condition. |
| LocalePaths.OwnRouteIsActive | src/hooks/useActiveRoute.ts:8-14 | The current route is active unless it itself begins with a language code. |
| LocalePaths.OwnRouteNotAlwaysActive | src/hooks/useActiveRoute.ts:8-14 | On `/en/en` the route `/en` is not active, because it normalises to `/home`. |
| LocalePaths.IsActiveIgnoresLangPrefix | src/hooks/useActiveRoute.ts:11-14 | A link with or without a language prefix gets the same answer. |
| LocalePaths.IsActiveAtSegmentBoundary | src/hooks/useActiveRoute.ts:13 | A link is active iff its route is a prefix of the current route that ends at the end or at a `/`. |
| LocalePaths.SegmentBoundaryExamples | src/hooks/useActiveRoute.ts:13 | `/prod` is not active on `/en/product`, while `/product` is active on `/en/product/canvas`. |
| LocalePaths.NewLang | src/components/LanguageToggle.tsx:10 | en switches to ru, and every other value, an unvalidated stored one included, switches to en; the result is always supported and differs from the current language. |
| LocalePaths.NewLangInvolution | src/components/LanguageToggle.tsx:10 | Toggling twice restores the language iff it was en or ru. |
| LocalePaths.ToggleLabel | src/components/LanguageToggle.tsx:37 | The button shows two upper-case letters that lower-case to the code of the language a click switches to. |
| LocalePaths.RewritePath | src/components/LanguageToggle.tsx:14-27 | An `/en/` prefix becomes `/ru/` and a `/ru/` prefix becomes `/en/`, with the rest kept. |
| LocalePaths.ToggleTarget | src/components/LanguageToggle.tsx:29 | The navigation target is the rewritten path followed by the current hash. |
| LocalePaths.PrefixedRewriteIgnoresLanguage | src/components/LanguageToggle.tsx:18-21 | On a prefixed path the rewrite depends on the prefix alone. |
| LocalePaths.RewriteTwiceRestores | src/components/LanguageToggle.tsx:18-21 | Swapping the prefix twice restores the path. |
| LocalePaths.RootGoesHome | src/components/LanguageToggle.tsx:22-23 | `/` and the empty path go to `/<new>/home`. |
| LocalePaths.PlainPathGetsPrefix | src/components/LanguageToggle.tsx:24-27 | Any other unprefixed path gets `/<new>` in front. |
| LocalePaths.SwapKeepsRoute | src/components/LanguageToggle.tsx:18-21 | Swapping the prefix keeps the route. |
| LocalePaths.RewriteKeepsRoute | src/components/LanguageToggle.tsx:14-27 | On paths starting with `/en/` or `/ru/` and on paths with no language code other than `/`, the toggle keeps the route; `""` lands on `/home`, which is its route too. |
| LocalePaths.RootBecomesHome | src/components/LanguageToggle.tsx:22-23 | The route of `/` is `/` itself, but the toggle sends `/` to `/<new>/home`, whose route is `/home`. |
| LocalePaths.BareCodeBecomesRoute | src/components/LanguageToggle.tsx:18-27 | A path like `/en` or `/english` is prefixed again rather than swapped, so after the toggle its whole old text is the route, which differs from its route before. |
| LocalePaths.ToggleSelectsNewLanguage | src/components/LanguageToggle.tsx:9-29 | When the current language agrees with the path prefix, a click followed by the location effect leaves the new language current and stored. |
| LocalePaths.ToggleAgainstPrefix | src/components/LanguageToggle.tsx:10-21 | On `/en/x` with the language ru, the click asks for en but the page lands on `/ru/x`, which sets ru again. |
| LocalePaths.FirstSlash | src/components/Breadcrumbs.tsx:21 | The result is the first `/`, with no `/` before it, or the end when there is none. |
| LocalePaths.Segments | src/components/Breadcrumbs.tsx:21 | `split('/').filter(Boolean)` yields non-empty pieces without `/`. |
| LocalePaths.JoinSegments | src/components/Breadcrumbs.tsx:44-46 | A joined path of at least one segment starts with `/`. |
| LocalePaths.JoinSnoc | src/components/Breadcrumbs.tsx:46 | One more segment adds `/` and that segment. |
| LocalePaths.FirstSlashOfJoin | src/components/Breadcrumbs.tsx:21 | In a segment followed by a joined path, the first `/` is just past the segment. |
| LocalePaths.SegmentsOfJoin | src/components/Breadcrumbs.tsx:21-46 | Splitting a joined path gives back its segments. |
| LocalePaths.NoSegmentsIffOnlySlashes | src/components/Breadcrumbs.tsx:21 | A path yields no segments iff it is made of slashes only. |
| LocalePaths.SegmentsAfterLangPrefix | src/components/Breadcrumbs.tsx:20-21 | A prefixed path's segments are the language code followed by the crumb segments. |
| LocalePaths.HomeLabel | src/components/Breadcrumbs.tsx:25 | The home label is never empty. |
| LocalePaths.TableLookup | src/components/Breadcrumbs.tsx:30-42 | A segment is absent iff no entry has its key; otherwise the result is an entry's pair of names. |
| LocalePaths.SegmentLabel | src/components/Breadcrumbs.tsx:47 | The label is the entry's name in en or ru. It is the raw segment when there is no entry or the language is unsupported, and it is never empty for a non-empty segment. |
| LocalePaths.JoinPrefixStep | src/components/Breadcrumbs.tsx:46 | Each crumb path extends the previous one by one segment. |
| LocalePaths.PageSegments | src/components/Breadcrumbs.tsx:20-21 | The page's segments are non-empty and slash-free. |
| LocalePaths.BuildBreadcrumbs | src/components/Breadcrumbs.tsx:19-56 | There is one crumb more than there are segments. The first crumb is the localised Home at `/home`. Crumb i+1 carries the label of segment i, and its path is `/` plus the first i+1 segments joined. The trail is shown iff the page has at least one segment. |
| LocalePaths.BreadcrumbsVisible | src/components/Breadcrumbs.tsx:56 | The trail is rendered only when it holds more than the Home crumb; BuildBreadcrumbs states when that is. |
| LocalePaths.CrumbPathSegments | src/components/Breadcrumbs.tsx:44-48 | Each crumb path splits back into exactly the page's first segments. |
| LocalePaths.HiddenOnlyAtTop | src/components/Breadcrumbs.tsx:20-56 | The stripped path has no segments iff it holds only slashes; with BuildBreadcrumbs' visibility clause, the trail is hidden exactly then. |
| LocalePaths.CurrentPath | src/components/SEOHead.tsx:14 | A non-empty `path` wins over the location. |
| LocalePaths.SeoHead | src/components/SEOHead.tsx:11-33 | The title is the given title followed by the Workyy suffix. The en and ru URLs are `https://workyy.com/en` and `/ru` followed by the current path without its language prefix, or `/home`; they differ only in the two code characters. x-default is the en URL, and the canonical URL is the en URL iff the language is en, else the ru URL. |
| LocalePaths.SeoUrlsIgnoreLangPrefix | src/components/SEOHead.tsx:17-20 | The alternate URLs are the same whichever language prefix the page was reached under. |
| LocalePaths.CanonicalIsOwnAddress | src/components/SEOHead.tsx:17-30 | Under its own language prefix, a page's canonical URL is its own address. |
| Theme.EntryIds | src/contexts/ThemeContext.tsx:186 | The ids keep the entries' order, one per entry. |
| Theme.AvailableThemes | src/contexts/ThemeContext.tsx:185-186 | The available ids are the catalogue entries' ids, one per entry, in declaration order. |
| Theme.AvailableThemesAreEntryIds | src/contexts/ThemeContext.tsx:185-186 | The spelled-out id list equals the ids read off the catalogue. |
| Theme.AuroraPairAvailable | src/contexts/ThemeContext.tsx:35-186 | The default aurora-dark and aurora-light are the first two available ids. |
| Theme.LegacyValuesNotThemes | src/contexts/ThemeContext.tsx:199-201 | The legacy stored values `dark` and `light` are not catalogue ids, so their mapping never shadows a real theme. |
| Theme.ThemeConfigWellFormed | src/contexts/ThemeContext.tsx:35-183 | Every entry is filed under its own id in one of the four families, and both aurora themes are available. |
| Theme.GetStoredTheme | src/contexts/ThemeContext.tsx:196-205 | The result is always an available theme. No window gives the default. `dark` and `light` map to the aurora pair. A known id is kept. Anything else gives the default. |
| Theme.ToggleTheme | src/contexts/ThemeContext.tsx:219 | aurora-dark toggles to aurora-light and every other theme to aurora-dark, so the result is always available and differs from an available start. |
| Theme.ToggleTwice | src/contexts/ThemeContext.tsx:219 | Toggling twice restores the theme iff it is aurora-dark or aurora-light. |
| Theme.InitialThemeState | src/contexts/ThemeContext.tsx:196-212 | Start-up takes the theme getStoredTheme reads from the `workyy-theme` value, so a first visit with no stored value starts on aurora-dark. The mount effect writes the theme back under `workyy-theme`; every other key is kept and no other key is added. |
| Theme.LegacyValueMigrated | src/contexts/ThemeContext.tsx:199-212 | A stored `dark` or `light` is rewritten to `aurora-dark` or `aurora-light` on the first start. |
| Theme.RestartIsStable | src/contexts/ThemeContext.tsx:196-212 | Starting again from the storage a start left behind gives the same theme and the same storage. |
| Theme.SetTheme | src/contexts/ThemeContext.tsx:210-218 | The theme is set and written under `workyy-theme`, and every other key is kept. |
| Theme.SetThemeRoundTrip | src/contexts/ThemeContext.tsx:196-218 | A catalogue theme that was set is restored at the next start. |
| Theme.UnknownThemeNotRestored | src/contexts/ThemeContext.tsx:201-204 | A theme outside the catalogue does not survive a restart. |
| Pricing.Plans | src/data/content.ts:332-354 | Each supported locale has three plans. |
| Pricing.PlanNamesLocaleIndependent | src/data/content.ts:649-671 | Both locales list Free, Pro and Enterprise under the same names. |
| Pricing.SuggestedPlanIndex | src/pages/PricingPage.tsx:40 | Free is suggested iff the team has at most 5 people, and Enterprise iff it has more than 20. |
| Pricing.SuggestedPlanMonotone | src/pages/PricingPage.tsx:40 | A bigger team never gets a smaller plan. |
| Pricing.CalculatorPlan | src/pages/PricingPage.tsx:40 | The calculator shows the first plan up to 5 people, the second up to 20, and the third beyond. |
| Pricing.Max0 | src/pages/PricingPage.tsx:41 | `Math.max(0, x)` is the larger of 0 and x. |
| Pricing.AddOnCost | src/pages/PricingPage.tsx:41 | The extras; AddOnRates and AddOnAllowance state their rates. |
| Pricing.AddOnRates | src/pages/PricingPage.tsx:41 | Each seat beyond ten adds 5, each canvas beyond ten adds 2, each AI minute adds 0.4, and seats or canvases up to ten add nothing. |
| Pricing.AddOnAllowance | src/pages/PricingPage.tsx:41 | Up to ten seats and ten canvases with no AI minutes cost nothing extra. |
| Pricing.BasePrice | src/pages/PricingPage.tsx:42 | Free costs 0, Pro 49 and any other plan 149; the price is zero iff the plan is Free. |
| Pricing.EstimatedCost | src/pages/PricingPage.tsx:43 | Free costs nothing; a paid plan costs its base price plus the extras, so at least the base price given non-negative AI minutes. |
| Pricing.AddOnNonNegative | src/pages/PricingPage.tsx:41 | With non-negative AI minutes the extras cost at least nothing. |
| Pricing.EstimatedCostMonotone | src/pages/PricingPage.tsx:41-43 | For a fixed plan the estimate never falls as the team, the canvases or the AI minutes grow. |
| Pricing.EstimateLocaleIndependent | src/pages/PricingPage.tsx:40-43 | The estimate is the same in both locales. |
| Pricing.SmallTeamPaysNothing | src/pages/PricingPage.tsx:40-43 | Teams of at most 5 are offered Free at 0. |
| Pricing.DefaultEstimate | src/pages/PricingPage.tsx:17-19 | The slider defaults of 8, 12 and 30 suggest Pro at 65. |
| Pricing.PerMonthNoteAsWrittenDependsOnLocale | src/pages/PricingPage.tsx:124-126 | As written, the per-month note is hidden for the English free plan but shown for the Russian one. |
| Pricing.PerMonthNoteMatchesEstimate | src/pages/PricingPage.tsx:122-126 | The corrected note, keyed on the plan name, shows iff the estimate is positive, in both locales. |
| Pricing.HandleChange | src/pages/PricingPage.tsx:28-31 | The edited field takes the new value and every other field is kept. |
| Pricing.HandleSubmit | src/pages/PricingPage.tsx:33-38 | After submitting, every field is empty. |
| Pricing.HandleChangeCommutes | src/pages/PricingPage.tsx:28-31 | Edits to different fields commute, and a later edit of the same field wins. |
| Pricing.FormExtensional | src/pages/PricingPage.tsx:21-26 | Two forms that agree on every field are equal. |
| Notebook.AliasOccurs | src/components/NotebookDemo.tsx:14 | The alias of a two-column SELECT occurs right after ` AS `. |
| Notebook.ScenarioRowsShape | src/components/NotebookDemo.tsx:28-32 | Every scenario has three rows, and the signup rows are in the descending order their query asks for. |
| Notebook.ScenarioRows | src/components/NotebookDemo.tsx:10-45 | The canned result rows; ScenarioRowsShape states their count and order. |
| Notebook.Loaded | src/components/NotebookDemo.tsx:64-71 | A freshly loaded scenario has its own cell texts and nothing run. |
| Notebook.InitialNotebook | src/components/NotebookDemo.tsx:48-52 | The demo starts with the revenue scenario freshly loaded. |
| Notebook.ScenarioChange | src/components/NotebookDemo.tsx:64-71 | Choosing the current scenario changes nothing, and choosing another loads it afresh. |
| Notebook.RunSql | src/components/NotebookDemo.tsx:56-58 | Running SQL sets its flag and changes nothing else. |
| Notebook.RunPython | src/components/NotebookDemo.tsx:60-62 | Running Python sets its flag and changes nothing else. |
| Notebook.EditSql | src/components/NotebookDemo.tsx:108 | Typing replaces the SQL text and nothing else. |
| Notebook.EditPython | src/components/NotebookDemo.tsx:159 | Typing replaces the Python text and nothing else. |
| Notebook.ScenarioChangeIdempotent | src/components/NotebookDemo.tsx:64-71 | Switching to a scenario twice equals switching once. |
| Notebook.LeaveAndReturnReloads | src/components/NotebookDemo.tsx:64-71 | Leaving a scenario and coming back discards edits and runs. |
| Notebook.RunsCommute | src/components/NotebookDemo.tsx:56-62 | The two runs commute and are idempotent. |
| Notebook.MetricHeaderIsSqlAlias | src/components/NotebookDemo.tsx:10-45 | Each scenario's metric header is unique and is the alias its SQL gives that column. |
| Notebook.ResultHeaders | src/components/NotebookDemo.tsx:119-126 | The result table headers; MetricHeaderIsSqlAlias ties the metric header to its query's alias. |
| Notebook.MetricAffixes | src/components/NotebookDemo.tsx:134-136 | A `$` goes before the figure only for the `$` unit and a `%` after it only for the `%` unit, never both; ScenarioAffixes ties them to the scenarios. |
| Notebook.ScenarioAffixes | src/components/NotebookDemo.tsx:10-45 | Revenue figures carry a leading `$`, retention figures a trailing `%`, and signup counts are bare. |
| Notebook.ResultPreview | src/components/NotebookDemo.tsx:111-143 | The preview exists iff the SQL has run, and it shows the scenario's own three rows. |
| Notebook.PreviewIgnoresSqlText | src/components/NotebookDemo.tsx:108-143 | Editing the SQL text never changes the preview, because the results are canned. |

## Left out

- Random numbers are inputs. `Math.random` appears in the tarot sort comparator and coin flips (`src/data/tarotCards.ts:146,149`) and in the memory-game shuffle picks. The model takes a permutation, coins and picks instead.
- A comparator of the form `() => Math.random() - 0.5` does not define a consistent order, so which permutations `sort` can produce is engine-specific. The model accepts any permutation.
- The 650 ms timer is a separate `Fire` step. Its interleaving with clicks is modelled, but its duration is not.
- ChartMemory.ResetAsWritten: the model holds at most one pending resolution. If a pair is opened after an as-written reset and before the old timeout fires, `HandleFlip` replaces the old pending resolution, while the source keeps both timeouts and both fire. The finding below needs only the first timeout.
- Rendering is not modelled. This covers JSX, CSS classes, animations, the oracle avatar and canvas, the card artwork, and the notebook's chart captions. The demo form's `console.log` and `alert` on submit are DOM side effects and are left out as well.
- `toLocaleString` and `toFixed(0)` formatting of numbers are left out. The calculator works in exact reals, so float rounding of `aiMinutes * 0.4` is not modelled.
- URLSearchParams percent-encoding of text values is an abstract `encode` function.
- `String.replace` `$` patterns in a replacement are left out. The subdomain is inserted literally.
- Number-to-string conversion is modelled for integers only. Fractional size limits and levels of detail are not modelled.
- The `fetch` call in `getAvatarMetadata` and its error on a failed response are not modelled. Only the endpoint it requests is.
- `localStorage` and the DOM are left out. Storage is a map, and the `data-theme` attribute is not modelled.
- Pricing.Plans: requires a supported language. The content table has only `en` and `ru`, and the page would fail on any other stored value.
- Pricing.HandleChange: only the four form fields are modelled. A change event whose `name` is none of them would add a new key to the form object.
- TarotGame.Draw: requires a deck of at least three cards for the future draw. On a shorter deck the source reads `undefined` and its mood evaluation would fail. The past and present draws are modelled with `None` for the missing card.
- TarotGame.Reduce: requires the same deck length, for the same reason, when the action is the future draw.
- LocalePaths.OwnRouteIsActive: requires the route not to begin with a language code. `/en/en` shows the case where it fails.
- LocalePaths.RewriteKeepsRoute: requires the path to start with `/en/` or `/ru/` or to have no language code, and not to be `/`. On `/en`, `/english` and the like the toggle changes the route, as BareCodeBecomesRoute proves, and on `/`, whose route `/` becomes `/home`, as RootBecomesHome proves. The router redirects `/` to `/en/home` (src/App.tsx:21), so the toggle rarely sees it.
- LocalePaths.ToggleSelectsNewLanguage: requires the language to agree with the path prefix. `ToggleAgainstPrefix` shows the case where it fails.
- The static content pages, the rest of `content.ts`, the header, footer and other UI widgets, the theme picker and toggle components, the decision simulator and the scroll hooks are left out. They hold no logic beyond rendering.

## Findings

| source | as written | input that shows it | evidently intended | confidence | as-written member | corrected member |
|---|---|---|---|---|---|---|
| src/components/games/ChartMemoryGame.tsx:53-79 | `resetGame` replaces the board but does not cancel the pending 650 ms timer, which then marks or flips the new board's positions | Open both Line Chart cards (positions 0 and 3) and reset within 650 ms to a board whose positions 0 and 3 differ in kind. The timer marks a lone Line Chart and a lone Bar Chart card matched, so the game can never be won. | Reset cancels the pending resolution | not executed | ChartMemory.ResetAsWrittenBreaksPairs | ChartMemory.ResetGamePreservesInv |
| src/pages/PricingPage.tsx:122-126 | The "per month" note is hidden only when the price text is the English "Free forever" | In Russian, a team of 5 or fewer gets the Free plan, whose price text is "Бесплатно навсегда", so "в месяц (оценка)" is shown beside a $0 estimate. | The note is hidden for the Free plan in both locales, i.e. exactly when the estimate is 0 | not executed | Pricing.PerMonthNoteAsWrittenDependsOnLocale | Pricing.PerMonthNoteMatchesEstimate |
