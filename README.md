# VocabEcho core, modelled in Dafny

VocabEcho is an Android flashcard app for children. A parent builds decks of notes, and a child studies them. A note is one of four types:

- **BASIC**: a front and a back.
- **BASIC_REVERSED**: deprecated.
- **BASIC_TYPED**: the child types the back.
- **CLOZE**: a sentence with one phrase blanked out.

The child either browses a deck or learns it:

- **Browsing** steps through the cards in order.
- **Learning** queues the cards due today and the cards never graded. Each card is then graded:
  - A typed answer is graded by comparing normal forms: trimmed, lower-cased, "ё" folded to "е" and whitespace runs collapsed.
  - Otherwise the child grades the card by hand.

  The grade fixes the next due day from the parent's intervals. The answer also updates the card's statistics.

This project models that core:

- the card types and how a stored type name is read back;
- the generation of study instances from notes;
- the answer normalizer and the scheduler;
- the learn queue and its counters;
- the database tables and the two repositories on top of them;
- the deck, card and settings editors;
- the browse and learn screens' view models;
- the deck tiles and the feedback screen's letter diff.

It proves properties of each of them.

Modules follow the source files, one per core file:

- pure Kotlin objects and functions become Dafny functions and lemmas;
- the Room tables become a class `Database.Tables`, whose DAO operations are methods with `modifies` clauses;
- each repository and view model becomes a class:
  - its mutable state is a field (`state`, `queue`, `cards`, ...);
  - each handler is a method whose `ensures` gives the whole new state;
  - the new state is given either as a pure function of the old one (`AdvanceFrom`, `LoadedState`, `DraftFromInputs`) or field by field;
  - the properties the screen promises are lemmas about those functions.

Results of I/O are parameters of the methods that need them:

- the deck a load returns;
- the progress rows;
- the epoch day;
- a fresh UUID;
- an exception message.

Kotlin's standard string functions are modelled in module `Text`:

- `trim`, `isBlank`, `lowercase`, `indexOf(ignoreCase)`, `replace`, `toString` and `toIntOrNull`;
- lower-casing goes character by character, over ASCII, Latin-1 and basic Cyrillic;
- "ignore case" means equality after lower-casing.

## Model

| member | source | states |
|---|---|---|
| Text.LowerS | app/src/main/java/com/myApp27/vocabecho/domain/answer/AnswerNormalizer.kt:8 | lower-casing keeps the length and maps each character on its own |
| Text.ReplaceChar | app/src/main/java/com/myApp27/vocabecho/domain/answer/AnswerNormalizer.kt:9 | same length; exactly the occurrences of `from` become `to`, everything else is kept |
| Text.Trim | app/src/main/java/com/myApp27/vocabecho/domain/answer/AnswerNormalizer.kt:7 | the result is the slice left after cutting only whitespace from both ends; it starts and ends with non-whitespace |
| Text.TrimIdempotent | app/src/main/java/com/myApp27/vocabecho/data/UserDeckRepository.kt:79 | trimming a title the form already trimmed changes nothing |
| Text.BlankIffTrimEmpty | app/src/main/java/com/myApp27/vocabecho/ui/components/ClozePreview.kt:32-39 | a string is blank exactly when its trim is empty |
| Text.IfBlankNull | app/src/main/java/com/myApp27/vocabecho/ui/parent/AddCardToDeckViewModel.kt:138-140 | null exactly for a blank string, otherwise the string itself |
| Text.TrimOpt | app/src/main/java/com/myApp27/vocabecho/data/UserDeckRepository.kt:95-97 | null stays null; a present value is trimmed |
| Text.IndexOf | app/src/main/java/com/myApp27/vocabecho/ui/components/ClozePreview.kt:40 | -1 exactly when the target occurs nowhere; otherwise the smallest position where it occurs |
| Text.ContainsImpliesIgnoreCase | app/src/main/java/com/myApp27/vocabecho/ui/parent/AddDeckViewModel.kt:156 | an exact-case occurrence is also a case-insensitive one |
| Text.ReplaceAllNoMatch | app/src/main/java/com/myApp27/vocabecho/ui/parent/AddDeckViewModel.kt:32 | with no occurrence of a non-empty target, `replace` returns the text unchanged |
| Text.ReplaceAllFirst | app/src/main/java/com/myApp27/vocabecho/ui/parent/AddDeckViewModel.kt:32 | `replace` keeps the text before the first occurrence, puts the replacement there and goes on after it |
| Text.NatToString | app/src/main/java/com/myApp27/vocabecho/ui/DecksScreen.kt:140 | a count is written as one or more digits, two or more exactly from 10 on |
| Text.NatToStringInjective | app/src/main/java/com/myApp27/vocabecho/ui/DecksScreen.kt:140 | two different counts are never written the same way |
| Text.ParseInt | app/src/main/java/com/myApp27/vocabecho/ui/parent/ParentSettingsViewModel.kt:44-46 | a value is read only from an optional sign followed by digits, and only within the 32-bit range; a negative value had a minus sign; "", "-" and "+" are refused |
| Text.DigitsValueOfNatToString | app/src/main/java/com/myApp27/vocabecho/ui/parent/ParentSettingsViewModel.kt:30-32 | reading back the digits of a number's notation gives the number |
| Text.ParseIntOfIntToString | app/src/main/java/com/myApp27/vocabecho/ui/parent/ParentSettingsViewModel.kt:30-46 | `toIntOrNull` reads back what `toString` wrote, for every 32-bit value |
| Text.ParseIntExamples | app/src/main/java/com/myApp27/vocabecho/ui/parent/ParentSettingsViewModel.kt:44-52 | "", "-", " 1" and "1.5" are refused; "+7" reads as 7 and "-0" as 0 |
| Text.ParseIntOverflow | app/src/main/java/com/myApp27/vocabecho/ui/parent/ParentSettingsViewModel.kt:44-46 | 2147483648 is refused |
| CardTypes.ValueOf | app/src/main/java/com/myApp27/vocabecho/domain/model/CardType.kt:56-60 | `valueOf` yields the constant with exactly that name, or fails when no constant has it |
| CardTypes.FromString | app/src/main/java/com/myApp27/vocabecho/domain/model/CardType.kt:52-61 | never BASIC_REVERSED. BASIC for null, for "BASIC_REVERSED" and for unknown names. Any other result is the constant named by the input |
| CardTypes.FromStringCaseSensitive | app/src/main/java/com/myApp27/vocabecho/domain/model/CardType.kt:56-60 | lower-case spellings are not names and fall back to BASIC |
| CardTypes.SelectableTypes | app/src/main/java/com/myApp27/vocabecho/domain/model/CardType.kt:67 | the selectors never offer BASIC_REVERSED |
| CardTypes.SelectableTypesExact | app/src/main/java/com/myApp27/vocabecho/domain/model/CardType.kt:63-67 | the selectors offer every type except BASIC_REVERSED, each once |
| CardTypes.FromStringName | app/src/main/java/com/myApp27/vocabecho/domain/model/CardType.kt:52-67 | every selectable type is read back as itself from its stored name |
| CardTypes.FromStringNameReversed | app/src/main/java/com/myApp27/vocabecho/domain/model/CardType.kt:55 | the stored name of BASIC_REVERSED is read back as BASIC |
| Entities.FreshStats | app/src/main/java/com/myApp27/vocabecho/data/db/CardStatsEntity.kt:7-14 | a new stats row has zero counts, a zero streak and no answer day |
| DeckModels.SimpleCard | app/src/main/java/com/myApp27/vocabecho/data/UserDeckRepository.kt:161-168 | a card built from a front and a back has those sides and type, and no cloze data |
| Scheduler.Interval | app/src/main/java/com/myApp27/vocabecho/domain/srs/Scheduler.kt:8-12 | each grade uses its own configured interval |
| Scheduler.NextDueEpochDay | app/src/main/java/com/myApp27/vocabecho/domain/srs/Scheduler.kt:7-14 | the next due day is today plus the grade's interval |
| Scheduler.NotBeforeToday | app/src/main/java/com/myApp27/vocabecho/domain/srs/Scheduler.kt:7-14 | with non-negative intervals a card is never scheduled before today |
| Scheduler.MonotoneInGrade | app/src/main/java/com/myApp27/vocabecho/domain/srs/Scheduler.kt:8-13 | with ordered intervals (again ≤ hard ≤ easy), a better grade never schedules earlier |
| Scheduler.MonotoneInToday | app/src/main/java/com/myApp27/vocabecho/domain/srs/Scheduler.kt:13 | a later review day never gives an earlier due day |
| Scheduler.Defaults | app/src/main/java/com/myApp27/vocabecho/domain/model/ParentSettings.kt:3-7 | the default intervals are non-negative and ordered. They schedule "again" for today, "hard" for tomorrow and "easy" three days out |
| CardInstanceGenerator.ReplaceFirstIgnoreCase | app/src/main/java/com/myApp27/vocabecho/domain/model/CardInstanceGenerator.kt:149-153 | no case-insensitive occurrence: the text is unchanged. Otherwise the first occurrence is replaced and the text before and after it is kept |
| CardInstanceGenerator.ClozePlaceholder | app/src/main/java/com/myApp27/vocabecho/domain/model/CardInstanceGenerator.kt:98-102 | "[hint]" for a hint that is not blank, "[...]" otherwise; always bracketed |
| CardInstanceGenerator.GenerateFor | app/src/main/java/com/myApp27/vocabecho/domain/model/CardInstanceGenerator.kt:24-118 | for a given type: one or two instances, two exactly for BASIC_REVERSED. Each belongs to the note and its deck, with a valid direction |
| CardInstanceGenerator.Generate | app/src/main/java/com/myApp27/vocabecho/domain/model/CardInstanceGenerator.kt:19-119 | every note yields exactly one instance. It is never reversed, has no direction, and shares the note's progress id; typing is expected exactly for the types that expect it |
| CardInstanceGenerator.GenerateBasic | app/src/main/java/com/myApp27/vocabecho/domain/model/CardInstanceGenerator.kt:25-36 | a basic note shows its front and reveals its back, without typing, under id "#F" |
| CardInstanceGenerator.GenerateForReversed | app/src/main/java/com/myApp27/vocabecho/domain/model/CardInstanceGenerator.kt:38-61 | the reversed branch gives a forward and a reverse instance with swapped sides, both on the note's progress id |
| CardInstanceGenerator.GenerateStoredReversed | app/src/main/java/com/myApp27/vocabecho/domain/model/CardInstanceGenerator.kt:20-36 | a note stored as "BASIC_REVERSED" yields the single forward BASIC instance |
| CardInstanceGenerator.GenerateTyped | app/src/main/java/com/myApp27/vocabecho/domain/model/CardInstanceGenerator.kt:63-74 | a typed note yields one forward instance that expects typing |
| CardInstanceGenerator.GenerateClozeFallback | app/src/main/java/com/myApp27/vocabecho/domain/model/CardInstanceGenerator.kt:81-95 | a cloze note with a blank text or answer falls back to a basic forward instance |
| CardInstanceGenerator.GenerateCloze | app/src/main/java/com/myApp27/vocabecho/domain/model/CardInstanceGenerator.kt:97-116 | a complete cloze note asks for its answer, typed. The question is its text with the first case-insensitive occurrence of the answer replaced by the placeholder |
| CardInstanceGenerator.GenerateClozeBlanks | app/src/main/java/com/myApp27/vocabecho/domain/model/CardInstanceGenerator.kt:98-116 | when the answer first occurs at i, the question is the text up to i, then the placeholder, then the text after the answer |
| CardInstanceGenerator.GenerateAll | app/src/main/java/com/myApp27/vocabecho/domain/model/CardInstanceGenerator.kt:124-126 | one instance per note, in note order |
| CardInstanceGenerator.GenerateAllAppend | app/src/main/java/com/myApp27/vocabecho/domain/model/CardInstanceGenerator.kt:124-126 | generation distributes over concatenating lists of notes |
| CardInstanceGenerator.FromSimpleCard | app/src/main/java/com/myApp27/vocabecho/domain/model/CardInstanceGenerator.kt:132-143 | a built-in card becomes a basic forward instance with its sides, its id and the deck's id |
| CardQueueBuilder.AssociateByLastWins | app/src/main/java/com/myApp27/vocabecho/domain/queue/CardQueueBuilder.kt:14 | a card id is in the map exactly when some progress row has it, and maps to the last such row |
| CardQueueBuilder.DueCardsAreDue | app/src/main/java/com/myApp27/vocabecho/domain/queue/CardQueueBuilder.kt:16-20 | the due part holds exactly the deck's cards that have progress due on or before today |
| CardQueueBuilder.NewCardsAreNew | app/src/main/java/com/myApp27/vocabecho/domain/queue/CardQueueBuilder.kt:22 | the new part holds exactly the deck's cards without progress |
| CardQueueBuilder.BuildQueue | app/src/main/java/com/myApp27/vocabecho/domain/queue/CardQueueBuilder.kt:9-25 | the queue is the due cards followed by the new cards |
| CardQueueBuilder.QueueMembers | app/src/main/java/com/myApp27/vocabecho/domain/queue/CardQueueBuilder.kt:9-25 | a card is queued exactly when it is in the deck and is due or new |
| CardQueueBuilder.BuildQueueLength | app/src/main/java/com/myApp27/vocabecho/domain/queue/CardQueueBuilder.kt:9-25 | the queue is never longer than the deck (no card is queued twice over) |
| CardQueueBuilder.DueInDeckOrder | app/src/main/java/com/myApp27/vocabecho/domain/queue/CardQueueBuilder.kt:16-20 | the due cards keep deck order |
| CardQueueBuilder.NewInDeckOrder | app/src/main/java/com/myApp27/vocabecho/domain/queue/CardQueueBuilder.kt:22 | the new cards keep deck order |
| CardQueueBuilder.NoProgressQueuesDeck | app/src/main/java/com/myApp27/vocabecho/domain/queue/CardQueueBuilder.kt:9-25 | without any progress the queue is the whole deck in order |
| CardQueueBuilder.NoProgressParts | app/src/main/java/com/myApp27/vocabecho/domain/queue/CardQueueBuilder.kt:14-22 | without any progress nothing is due and every card is new |
| CardQueueBuilder.Example | app/src/main/java/com/myApp27/vocabecho/domain/queue/CardQueueBuilder.kt:9-25 | three cards, one due today, one due tomorrow and one new, queue as [due, new] |
| DeckCounts.CountDue | app/src/main/java/com/myApp27/vocabecho/ui/learn/LearnViewModel.kt:63-66 | the due counter never exceeds the deck size |
| DeckCounts.CountNew | app/src/main/java/com/myApp27/vocabecho/ui/learn/LearnViewModel.kt:68-70 | the new counter never exceeds the deck size |
| DeckCounts.CountsAreQueueParts | app/src/main/java/com/myApp27/vocabecho/ui/learn/LearnViewModel.kt:63-73 | each counter is the length of its part of the queue |
| DeckCounts.CountsSumToQueue | app/src/main/java/com/myApp27/vocabecho/ui/learn/LearnViewModel.kt:63-85 | due plus new is exactly the queue's length, and at most the deck's size |
| AnswerNormalizer.CollapseWs | app/src/main/java/com/myApp27/vocabecho/domain/answer/AnswerNormalizer.kt:10 | empty exactly for empty input; the first character is kept, or turned into one space if it is whitespace |
| AnswerNormalizer.CollapseWsCollapsed | app/src/main/java/com/myApp27/vocabecho/domain/answer/AnswerNormalizer.kt:10 | after collapsing, every whitespace character is a single space with no whitespace next to it |
| AnswerNormalizer.CollapseWsFixed | app/src/main/java/com/myApp27/vocabecho/domain/answer/AnswerNormalizer.kt:10 | an already collapsed string is left unchanged |
| AnswerNormalizer.CollapseWsRun | app/src/main/java/com/myApp27/vocabecho/domain/answer/AnswerNormalizer.kt:10 | a whitespace run between two non-whitespace parts becomes exactly one space |
| AnswerNormalizer.Fold | app/src/main/java/com/myApp27/vocabecho/domain/answer/AnswerNormalizer.kt:8-9 | lower-casing and folding "ё" keeps the length and yields only normal characters |
| AnswerNormalizer.Normalize | app/src/main/java/com/myApp27/vocabecho/domain/answer/AnswerNormalizer.kt:5-10 | the normal form is collapsed, lower-case and free of "ё"; it has no whitespace at either end and is no longer than the input |
| AnswerNormalizer.NormalizeIdempotent | app/src/main/java/com/myApp27/vocabecho/domain/answer/AnswerNormalizer.kt:5-10 | normalizing twice is normalizing once |
| AnswerNormalizer.IsCorrectEquivalence | app/src/main/java/com/myApp27/vocabecho/domain/answer/AnswerNormalizer.kt:12-13 | answer matching is reflexive, symmetric and transitive |
| AnswerNormalizer.IgnoresSurroundingWhitespace | app/src/main/java/com/myApp27/vocabecho/domain/answer/AnswerNormalizer.kt:7 | whitespace around an answer does not matter |
| AnswerNormalizer.IgnoresCase | app/src/main/java/com/myApp27/vocabecho/domain/answer/AnswerNormalizer.kt:8 | case does not matter |
| AnswerNormalizer.IgnoresYo | app/src/main/java/com/myApp27/vocabecho/domain/answer/AnswerNormalizer.kt:9 | writing "е" for "ё" does not matter |
| AnswerNormalizer.IgnoresRunLength | app/src/main/java/com/myApp27/vocabecho/domain/answer/AnswerNormalizer.kt:10 | a run of inner whitespace counts as one space |
| AnswerNormalizer.ParisExample | app/src/main/java/com/myApp27/vocabecho/domain/answer/AnswerNormalizer.kt:12-13 | "Paris " is accepted for "paris" |
| AnswerNormalizer.YoExample | app/src/main/java/com/myApp27/vocabecho/domain/answer/AnswerNormalizer.kt:12-13 | "пЁс" is accepted for "пес" |
| Database.Insert | app/src/main/java/com/myApp27/vocabecho/data/db/UserCardDao.kt:14-15 | an insert with REPLACE leaves the new row last and drops any other row with its id; ids stay unique |
| Database.InsertAll | app/src/main/java/com/myApp27/vocabecho/data/db/UserCardDao.kt:14-15 | inserting a list keeps ids unique |
| Database.InsertAllFresh | app/src/main/java/com/myApp27/vocabecho/data/db/UserCardDao.kt:14-15 | rows with new, distinct ids are simply appended |
| Database.CardsOfDeck | app/src/main/java/com/myApp27/vocabecho/data/db/UserCardDao.kt:11-12 | a deck's rows are never more than all rows |
| Database.CardsOfDeckMembers | app/src/main/java/com/myApp27/vocabecho/data/db/UserCardDao.kt:11-12 | a deck's rows are exactly the rows with its deck id |
| Database.CardsOfDeckAppend | app/src/main/java/com/myApp27/vocabecho/data/db/UserCardDao.kt:11-12 | selecting a deck's rows distributes over appending rows |
| Database.FindCard | app/src/main/java/com/myApp27/vocabecho/data/UserDeckRepository.kt:222-224 | a found row is a row of that deck with that id; none is returned only when no such row exists |
| Database.CountRowsUnique | app/src/main/java/com/myApp27/vocabecho/data/UserDeckRepository.kt:230-233 | with unique ids, an update or delete by deck and card id touches at most one row, and one exactly when the card exists |
| Database.SetFields | app/src/main/java/com/myApp27/vocabecho/data/UserDeckRepository.kt:272-282 | only the addressed row gets the new columns; every other row, and the order, stay the same |
| Database.SetText | app/src/main/java/com/myApp27/vocabecho/data/UserDeckRepository.kt:231 | only the addressed row gets the new front and back |
| Database.RemoveRow | app/src/main/java/com/myApp27/vocabecho/data/UserDeckRepository.kt:335 | the table shrinks by exactly the number of rows matched |
| Database.RemoveRowMembers | app/src/main/java/com/myApp27/vocabecho/data/UserDeckRepository.kt:335 | what remains is exactly the rows not matched |
| Database.RemoveDeckRowsMembers | app/src/main/java/com/myApp27/vocabecho/data/UserDeckRepository.kt:348 | what remains is exactly the other decks' rows |
| Database.RemoveDeckProgress | app/src/main/java/com/myApp27/vocabecho/data/UserDeckRepository.kt:350 | the progress rows of the other decks stay, unchanged |
| Database.RemoveDeckStats | app/src/main/java/com/myApp27/vocabecho/data/db/CardStatsDao.kt:20-21 | the stats rows of the other decks stay, unchanged |
| Database.Tables.InsertDeck | app/src/main/java/com/myApp27/vocabecho/data/db/UserDeckDao.kt:17-18 | inserting a deck row replaces any row with its id and changes no other table |
| Database.Tables.DeleteDeckById | app/src/main/java/com/myApp27/vocabecho/data/db/UserDeckDao.kt:20-21 | the deck row goes; the count is 1 if it existed and 0 otherwise |
| Database.Tables.InsertAllCards | app/src/main/java/com/myApp27/vocabecho/data/db/UserCardDao.kt:14-15 | the card table becomes `InsertAll` of its rows; other tables are unchanged |
| Database.Tables.UpdateCardFull | app/src/main/java/com/myApp27/vocabecho/data/UserDeckRepository.kt:272-282 | the addressed row gets all its editable columns, and the matched-row count is returned |
| Database.Tables.UpdateText | app/src/main/java/com/myApp27/vocabecho/data/UserDeckRepository.kt:231 | the addressed row gets its front and back, and the matched-row count is returned |
| Database.Tables.DeleteCardById | app/src/main/java/com/myApp27/vocabecho/data/UserDeckRepository.kt:335 | the addressed row goes, and the matched-row count is returned |
| Database.Tables.DeleteCardsByDeckId | app/src/main/java/com/myApp27/vocabecho/data/UserDeckRepository.kt:348 | every row of the deck goes |
| Database.Tables.UpsertProgress | app/src/main/java/com/myApp27/vocabecho/data/db/CardProgressDao.kt:11-12 | the card's progress row is replaced or added |
| Database.Tables.DeleteProgressByCardId | app/src/main/java/com/myApp27/vocabecho/data/db/CardProgressDao.kt:33-34 | the card's progress row goes |
| Database.Tables.DeleteProgressByDeckId | app/src/main/java/com/myApp27/vocabecho/data/UserDeckRepository.kt:350 | the deck's progress rows go |
| Database.Tables.UpsertStats | app/src/main/java/com/myApp27/vocabecho/data/db/CardStatsDao.kt:14-15 | the card's stats row is replaced or added |
| Database.Tables.DeleteStatsByCardId | app/src/main/java/com/myApp27/vocabecho/data/db/CardStatsDao.kt:17-18 | the card's stats row goes |
| Database.Tables.DeleteStatsByDeckId | app/src/main/java/com/myApp27/vocabecho/data/db/CardStatsDao.kt:20-21 | the deck's stats rows go |
| ProgressRepository.GradedProgress | app/src/main/java/com/myApp27/vocabecho/data/progress/ProgressRepository.kt:15-33 | a graded card is due today plus the grade's interval, was reviewed today and is no longer new |
| ProgressRepository.StatsOrFresh | app/src/main/java/com/myApp27/vocabecho/data/progress/ProgressRepository.kt:55-59 | the stored stats row, or a fresh one for a card never answered |
| ProgressRepository.Answered | app/src/main/java/com/myApp27/vocabecho/data/progress/ProgressRepository.kt:62-74 | correct: the correct count and streak go up by one. Wrong: the wrong count goes up and the streak resets to 0. Either way the answer day is recorded |
| ProgressRepository.DerivedGrade | app/src/main/java/com/myApp27/vocabecho/data/progress/ProgressRepository.kt:78-87 | AGAIN exactly for a wrong answer. EASY exactly for a correct one with a streak of three or more, HARD for a correct one below that |
| ProgressRepository.CountCorrect | app/src/main/java/com/myApp27/vocabecho/data/progress/ProgressRepository.kt:62-74 | no more correct answers than answers |
| ProgressRepository.TrailingCorrect | app/src/main/java/com/myApp27/vocabecho/data/progress/ProgressRepository.kt:62-74 | the trailing run of correct answers is no longer than the history |
| ProgressRepository.ReplayStats | app/src/main/java/com/myApp27/vocabecho/data/progress/ProgressRepository.kt:62-74 | after a history of answers: the counts went up by the correct and wrong answers in it. The streak is the trailing run of correct answers, plus the old streak when the whole history was correct. The answer day is that of the last answer |
| ProgressRepository.GradeFromFresh | app/src/main/java/com/myApp27/vocabecho/data/progress/ProgressRepository.kt:62-87 | the grade of the next answer depends only on the trailing run of correct answers before it |
| ProgressRepository.CorrectAfterWrong | app/src/main/java/com/myApp27/vocabecho/data/progress/ProgressRepository.kt:78-87 | a correct answer right after a wrong one is graded HARD |
| ProgressRepository.ThreeCorrectFromFresh | app/src/main/java/com/myApp27/vocabecho/data/progress/ProgressRepository.kt:78-87 | starting fresh, the first two correct answers grade HARD and the third EASY |
| ProgressRepository.AnswerSchedules | app/src/main/java/com/myApp27/vocabecho/data/progress/ProgressRepository.kt:78-90 | after an answer the card is due again after the again, easy or hard interval, as the grade rule picks |
| ProgressRepository.WrongStaysDueToday | app/src/main/java/com/myApp27/vocabecho/data/progress/ProgressRepository.kt:78-90 | with the default intervals a wrong answer leaves the card due today |
| ProgressRepository.ProgressRepository.GradeCard | app/src/main/java/com/myApp27/vocabecho/data/progress/ProgressRepository.kt:15-33 | only the card's progress row changes; it becomes `GradedProgress` |
| ProgressRepository.ProgressRepository.DueForDeck | app/src/main/java/com/myApp27/vocabecho/data/progress/ProgressRepository.kt:35-36 | exactly the deck's rows due on or before today |
| ProgressRepository.ProgressRepository.AllForDeck | app/src/main/java/com/myApp27/vocabecho/data/progress/ProgressRepository.kt:38-39 | exactly the deck's rows |
| ProgressRepository.ProgressRepository.ReviewedToday | app/src/main/java/com/myApp27/vocabecho/data/db/CardProgressDao.kt:30-31 | exactly the deck's cards last reviewed today |
| ProgressRepository.ProgressRepository.CountReviewedToday | app/src/main/java/com/myApp27/vocabecho/data/progress/ProgressRepository.kt:41-42 | the number of the deck's cards reviewed today, at most the number of progress rows |
| ProgressRepository.ProgressRepository.ApplyAnswerResult | app/src/main/java/com/myApp27/vocabecho/data/progress/ProgressRepository.kt:47-91 | the stats row (or a fresh one) takes the answer and is stored. The progress row is then scheduled by the grade the new streak gives. Decks and cards are untouched |
| UserDeckRepository.EntityToCard | app/src/main/java/com/myApp27/vocabecho/data/UserDeckRepository.kt:157-197 | a row becomes a card per its read-back type. A CLOZE row without a text or an answer becomes a BASIC_TYPED card. A complete one asks its text with the answer blanked. Never BASIC_REVERSED |
| UserDeckRepository.EntityClozeFront | app/src/main/java/com/myApp27/vocabecho/data/UserDeckRepository.kt:157-197 | a complete CLOZE row whose answer occurs in its text, case ignored, reads back as a CLOZE card answered by that answer. It asks the text with exactly the first such occurrence replaced by the hint's placeholder |
| UserDeckRepository.CardAgreesWithInstance | app/src/main/java/com/myApp27/vocabecho/data/UserDeckRepository.kt:157-197 | the card a deck load shows and the instance generated from the same row have the same sides and id. They agree on typing except for an incomplete CLOZE row |
| UserDeckRepository.DraftCardId | app/src/main/java/com/myApp27/vocabecho/data/UserDeckRepository.kt:88 | a draft's id starts with its deck's id |
| UserDeckRepository.DraftCardIdInjective | app/src/main/java/com/myApp27/vocabecho/data/UserDeckRepository.kt:88 | different positions in a new deck get different ids |
| UserDeckRepository.DraftRow | app/src/main/java/com/myApp27/vocabecho/data/UserDeckRepository.kt:85-114 | a draft's row stores its type name. A CLOZE row gets empty sides and the trimmed cloze fields; any other row the trimmed sides and no cloze data |
| UserDeckRepository.DraftRows | app/src/main/java/com/myApp27/vocabecho/data/UserDeckRepository.kt:85-114 | one row per draft, in order, each with its position's id |
| UserDeckRepository.DraftRowsUnique | app/src/main/java/com/myApp27/vocabecho/data/UserDeckRepository.kt:85-114 | a new deck's rows have distinct ids |
| UserDeckRepository.PairRows | app/src/main/java/com/myApp27/vocabecho/data/UserDeckRepository.kt:47-56 | one BASIC row per pair, with trimmed sides |
| UserDeckRepository.DraftReadBackBasic | app/src/main/java/com/myApp27/vocabecho/data/UserDeckRepository.kt:161-168 | a stored BASIC or BASIC_TYPED draft reads back with its trimmed sides and type |
| UserDeckRepository.DraftReadBackReversed | app/src/main/java/com/myApp27/vocabecho/data/UserDeckRepository.kt:159-164 | a stored reversed draft reads back as a BASIC card |
| UserDeckRepository.DraftReadBackCloze | app/src/main/java/com/myApp27/vocabecho/data/UserDeckRepository.kt:178-193 | a stored complete cloze draft reads back as CLOZE, with the trimmed answer as its back and the trimmed text kept |
| UserDeckRepository.UpdatedFields | app/src/main/java/com/myApp27/vocabecho/data/UserDeckRepository.kt:256-269 | a basic type writes trimmed sides and nulls the cloze fields. CLOZE empties the sides, trims the cloze fields and drops a hint that is blank |
| UserDeckRepository.UpdatedFieldsIdempotent | app/src/main/java/com/myApp27/vocabecho/data/UserDeckRepository.kt:256-269 | saving the saved columns again writes the same columns |
| UserDeckRepository.AddedRow | app/src/main/java/com/myApp27/vocabecho/data/UserDeckRepository.kt:293-320 | the row `addCardToDeck` inserts is shaped exactly like a new deck's row for the same draft |
| UserDeckRepository.RemoveDeckRowsOthers | app/src/main/java/com/myApp27/vocabecho/data/UserDeckRepository.kt:346-355 | after deleting a deck, it has no cards; every other deck's cards are as they were |
| UserDeckRepository.RemoveRowOthers | app/src/main/java/com/myApp27/vocabecho/data/UserDeckRepository.kt:334-340 | deleting a card keeps every other card, and the card can no longer be found |
| UserDeckRepository.Cards | app/src/main/java/com/myApp27/vocabecho/data/UserDeckRepository.kt:131 | one card per row, in order, each read back by `entityToCard` |
| UserDeckRepository.NewDeckCards | app/src/main/java/com/myApp27/vocabecho/data/UserDeckRepository.kt:69-118 | a new deck's rows are appended as they are, and are exactly the deck's cards |
| UserDeckRepository.UserDeckRepository.DeckOf | app/src/main/java/com/myApp27/vocabecho/data/UserDeckRepository.kt:128-132 | a deck keeps its row's id, title and image, and its cards are its rows read back |
| UserDeckRepository.UserDeckRepository.LoadDeck | app/src/main/java/com/myApp27/vocabecho/data/UserDeckRepository.kt:124-134 | null exactly for an unknown deck id, otherwise the deck built from its rows |
| UserDeckRepository.ListsDeckTableFacts | app/src/main/java/com/myApp27/vocabecho/data/db/UserDeckDao.kt:11-12 | a listing of the deck table with distinct ids has exactly as many rows as there are stored decks, and every stored deck is one of its rows |
| UserDeckRepository.UserDeckRepository.LoadAllDecks | app/src/main/java/com/myApp27/vocabecho/data/UserDeckRepository.kt:139-150 | over the DAO's listing of the deck table, one deck per stored deck row, as many as the table holds, in the order the rows come |
| UserDeckRepository.UserDeckRepository.LoadAllDecksListsEachOnce | app/src/main/java/com/myApp27/vocabecho/data/UserDeckRepository.kt:139-150 | every listed deck is a stored deck read back with its cards. No id is listed twice, and every stored deck is listed |
| UserDeckRepository.UserDeckRepository.GetCardEntity | app/src/main/java/com/myApp27/vocabecho/data/UserDeckRepository.kt:222-224 | the row with that deck and card id, or null when there is none |
| UserDeckRepository.UserDeckRepository.GetCard | app/src/main/java/com/myApp27/vocabecho/data/UserDeckRepository.kt:213-216 | null exactly when the row is absent; otherwise the row read back |
| UserDeckRepository.UserDeckRepository.LoadCardInstances | app/src/main/java/com/myApp27/vocabecho/data/UserDeckRepository.kt:367-370 | one instance per row of the deck, in order |
| UserDeckRepository.UserDeckRepository.CreateDeckWithCards | app/src/main/java/com/myApp27/vocabecho/data/UserDeckRepository.kt:31-60 | the deck row with the trimmed title and the pair rows are inserted; progress and stats are unchanged |
| UserDeckRepository.UserDeckRepository.CreateDeckWithDraftCards | app/src/main/java/com/myApp27/vocabecho/data/UserDeckRepository.kt:69-118 | the deck row and the draft rows are inserted; progress and stats are unchanged |
| UserDeckRepository.UserDeckRepository.UpdateCard | app/src/main/java/com/myApp27/vocabecho/data/UserDeckRepository.kt:230-233 | true exactly when the card existed; only its trimmed front and back change |
| UserDeckRepository.UserDeckRepository.UpdateCardFull | app/src/main/java/com/myApp27/vocabecho/data/UserDeckRepository.kt:239-283 | true exactly when the card existed; only its row changes, to `UpdatedFields` |
| UserDeckRepository.UserDeckRepository.AddCardToDeck | app/src/main/java/com/myApp27/vocabecho/data/UserDeckRepository.kt:289-328 | true exactly when the insert does not fail. Then the card table gains the row; otherwise nothing changes |
| UserDeckRepository.UserDeckRepository.DeleteCard | app/src/main/java/com/myApp27/vocabecho/data/UserDeckRepository.kt:334-340 | true exactly when the card existed. Its row goes, and its progress and stats rows go where those DAOs are present |
| UserDeckRepository.UserDeckRepository.DeleteDeck | app/src/main/java/com/myApp27/vocabecho/data/UserDeckRepository.kt:346-355 | true exactly when the deck existed. Its row and card rows go, and its progress and stats go where those DAOs are present |
| CombinedDeckRepository.Route | app/src/main/java/com/myApp27/vocabecho/data/CombinedDeckRepository.kt:13 | a deck is loaded from the bundled assets exactly when its id is one of the four reserved ids |
| CombinedDeckRepository.RouteUserIds | app/src/main/java/com/myApp27/vocabecho/data/CombinedDeckRepository.kt:28-35 | any other id goes to the user's decks |
| CombinedDeckRepository.CombinedDeckRepository.LoadDeck | app/src/main/java/com/myApp27/vocabecho/data/CombinedDeckRepository.kt:28-35 | a reserved id gets the asset deck. Any other id gets the user repository's answer, which is null exactly for an unknown id |
| CombinedDeckRepository.CombinedDeckRepository.LoadAllDecks | app/src/main/java/com/myApp27/vocabecho/data/CombinedDeckRepository.kt:18-22 | the built-in decks come first, in their order, then the user's decks. Its length is the number of built-in decks plus the number of stored user decks |
| DraftCards.BasicDraft | app/src/main/java/com/myApp27/vocabecho/ui/parent/AddDeckViewModel.kt:16-25 | a draft with the given type and sides and no cloze data |
| DraftCards.ClozeDraft | app/src/main/java/com/myApp27/vocabecho/ui/parent/AddDeckViewModel.kt:16-25 | a CLOZE draft with empty sides and the given cloze fields |
| DraftCards.DisplayTextBasic | app/src/main/java/com/myApp27/vocabecho/ui/parent/AddDeckViewModel.kt:35 | a basic draft is listed as "front — back" |
| DraftCards.DisplayTextNoMatch | app/src/main/java/com/myApp27/vocabecho/ui/parent/AddDeckViewModel.kt:32 | a cloze draft whose answer does not occur is listed as its text |
| DraftCards.DisplayTextFirst | app/src/main/java/com/myApp27/vocabecho/ui/parent/AddDeckViewModel.kt:32 | a cloze draft is listed with every exact occurrence of its answer replaced by "[...]", starting with the first |
| DraftCards.DisplayTextNoText | app/src/main/java/com/myApp27/vocabecho/ui/parent/AddDeckViewModel.kt:32 | a cloze draft without a text is listed as "" |
| DraftCards.TypeLabel | app/src/main/java/com/myApp27/vocabecho/ui/parent/AddDeckViewModel.kt:42-47 | every badge label has at least two characters |
| DraftCards.TypeLabelInjective | app/src/main/java/com/myApp27/vocabecho/ui/parent/AddDeckViewModel.kt:42-47 | different types get different badges |
| CardForms.BasicError | app/src/main/java/com/myApp27/vocabecho/ui/parent/AddCardToDeckViewModel.kt:88-100 | a blank front is reported first, then a blank back; no error exactly when both are filled |
| CardForms.ReversedError | app/src/main/java/com/myApp27/vocabecho/ui/parent/AddCardToDeckViewModel.kt:120-127 | one message for either side blank; no error exactly when both are filled |
| CardForms.ClozeError | app/src/main/java/com/myApp27/vocabecho/ui/parent/AddCardToDeckViewModel.kt:101-118 | a blank text, then a blank answer, then an answer missing from the text is reported. The last check is case-sensitive or not as the screen chooses |
| CardForms.ClozeAcceptedIffPreviewFound | app/src/main/java/com/myApp27/vocabecho/ui/components/ClozePreview.kt:31-50 | the case-insensitive form check accepts exactly when the preview finds the answer |
| CardForms.CaseSensitiveAcceptedIsFound | app/src/main/java/com/myApp27/vocabecho/ui/parent/AddDeckViewModel.kt:156 | what the new-deck form accepts, the preview also finds |
| CardForms.CaseMatters | app/src/main/java/com/myApp27/vocabecho/ui/parent/AddDeckViewModel.kt:156 | "Cat" in "a cat" is refused by the case-sensitive check and accepted by the other |
| ClozePreview.FindClozeMatch | app/src/main/java/com/myApp27/vocabecho/ui/components/ClozePreview.kt:31-50 | not found for a blank sentence or answer. Found exactly when the trimmed answer occurs case-insensitively in the trimmed sentence; then the match is the first occurrence |
| ClozePreview.PreviewPlaceholder | app/src/main/java/com/myApp27/vocabecho/ui/components/ClozePreview.kt:58-62 | the trimmed hint in brackets, or "[...]" for a missing or blank hint |
| ClozePreview.BuildQuestionPreview | app/src/main/java/com/myApp27/vocabecho/ui/components/ClozePreview.kt:55-66 | "" without a match. Otherwise the trimmed sentence with the matched span replaced by the placeholder, the rest kept |
| ClozePreview.FoundMatchFits | app/src/main/java/com/myApp27/vocabecho/ui/components/ClozePreview.kt:41-46 | every match found lies inside the trimmed sentence, so the preview's substrings are always in range |
| ClozePreview.PreviewIsQuestion | app/src/main/java/com/myApp27/vocabecho/ui/components/ClozePreview.kt:55-66 | the preview is the card's question: the first case-insensitive occurrence replaced |
| ClozePreview.PreviewPlaceholderAgrees | app/src/main/java/com/myApp27/vocabecho/ui/components/ClozePreview.kt:58-62 | preview and card show the same placeholder when the hint has no surrounding whitespace |
| AddDeckViewModel.DraftFromInputs | app/src/main/java/com/myApp27/vocabecho/ui/parent/AddDeckViewModel.kt:112-177 | the draft from the inputs is well formed and of the selected type, with trimmed fields and a blank hint dropped. Otherwise the first failing check's message, the occurrence check being case-sensitive |
| AddDeckViewModel.RemoveAt | app/src/main/java/com/myApp27/vocabecho/ui/parent/AddDeckViewModel.kt:179-184 | the list loses exactly the draft at the index; the rest keep their order |
| AddDeckViewModel.RemoveLastAdded | app/src/main/java/com/myApp27/vocabecho/ui/parent/AddDeckViewModel.kt:179-184 | removing the draft just added restores the list |
| AddDeckViewModel.SaveDeckError | app/src/main/java/com/myApp27/vocabecho/ui/parent/AddDeckViewModel.kt:186-197 | a blank title is reported first, then an empty list; no error exactly when both are present |
| DraftCards.ClozeShowsBlankAtFirstMatch | app/src/main/java/com/myApp27/vocabecho/ui/parent/AddDeckViewModel.kt:29-37 | a cloze draft with a non-blank answer that occurs exactly in its text, as the form demands, shows "[...]" at the first exact occurrence and the rest of the text with the same rule |
| AddDeckViewModel.StoredDraftReadsBack | app/src/main/java/com/myApp27/vocabecho/data/UserDeckRepository.kt:157-197 | a listed draft, once saved, reads back as the card it was entered as (a reversed one as BASIC). A cloze draft's question blanks its answer's first case-insensitive occurrence |
| AddDeckViewModel.AddDeckViewModel.constructor | app/src/main/java/com/myApp27/vocabecho/ui/parent/AddDeckViewModel.kt:70-75 | the form starts empty, over a repository without the progress and stats tables |
| AddDeckViewModel.AddDeckViewModel.OnTitleChanged | app/src/main/java/com/myApp27/vocabecho/ui/parent/AddDeckViewModel.kt:77-79 | sets the title and clears the save error |
| AddDeckViewModel.AddDeckViewModel.OnCardTypeChanged | app/src/main/java/com/myApp27/vocabecho/ui/parent/AddDeckViewModel.kt:81-86 | sets the type and clears the input error |
| AddDeckViewModel.AddDeckViewModel.OnFrontChanged | app/src/main/java/com/myApp27/vocabecho/ui/parent/AddDeckViewModel.kt:88-90 | sets the front and clears the input error |
| AddDeckViewModel.AddDeckViewModel.OnBackChanged | app/src/main/java/com/myApp27/vocabecho/ui/parent/AddDeckViewModel.kt:92-94 | sets the back and clears the input error |
| AddDeckViewModel.AddDeckViewModel.OnClozeTextChanged | app/src/main/java/com/myApp27/vocabecho/ui/parent/AddDeckViewModel.kt:96-98 | sets the cloze text and clears the input error |
| AddDeckViewModel.AddDeckViewModel.OnClozeAnswerChanged | app/src/main/java/com/myApp27/vocabecho/ui/parent/AddDeckViewModel.kt:100-102 | sets the cloze answer and clears the input error |
| AddDeckViewModel.AddDeckViewModel.OnClozeHintChanged | app/src/main/java/com/myApp27/vocabecho/ui/parent/AddDeckViewModel.kt:104-106 | sets the hint and clears the input error |
| AddDeckViewModel.AddDeckViewModel.OnImageSelected | app/src/main/java/com/myApp27/vocabecho/ui/parent/AddDeckViewModel.kt:108-110 | sets the deck image |
| AddDeckViewModel.AddDeckViewModel.AddCard | app/src/main/java/com/myApp27/vocabecho/ui/parent/AddDeckViewModel.kt:112-177 | on an error only the input error is set. Otherwise the draft is appended and the inputs of its kind cleared |
| AddDeckViewModel.AddDeckViewModel.RemoveCard | app/src/main/java/com/myApp27/vocabecho/ui/parent/AddDeckViewModel.kt:179-184 | an index outside the list changes nothing; otherwise exactly that draft goes |
| AddDeckViewModel.AddDeckViewModel.SaveDeck | app/src/main/java/com/myApp27/vocabecho/ui/parent/AddDeckViewModel.kt:186-213 | a blocked save only sets the error and writes nothing. A failure sets the prefixed message. Success stores the deck and its draft rows and marks the state saved |
| AddCardToDeckViewModel.SaveError | app/src/main/java/com/myApp27/vocabecho/ui/parent/AddCardToDeckViewModel.kt:83-127 | basic types need both sides, and reversed gets its single message. CLOZE passes exactly when the preview finds the answer |
| AddCardToDeckViewModel.SavedCardReadsBack | app/src/main/java/com/myApp27/vocabecho/data/UserDeckRepository.kt:157-197 | a card that passed the checks reads back as entered: trimmed sides (reversed as BASIC), or a CLOZE card that blanks the trimmed answer's first case-insensitive occurrence |
| AddCardToDeckViewModel.AddCardToDeckViewModel.constructor | app/src/main/java/com/myApp27/vocabecho/ui/parent/AddCardToDeckViewModel.kt:30-37 | the form starts at its defaults, over a repository without the progress and stats tables |
| AddCardToDeckViewModel.AddCardToDeckViewModel.OnTypeChanged | app/src/main/java/com/myApp27/vocabecho/ui/parent/AddCardToDeckViewModel.kt:40-61 | switching to CLOZE clears the sides; switching away clears the cloze fields; the error is cleared |
| AddCardToDeckViewModel.AddCardToDeckViewModel.OnFrontChanged | app/src/main/java/com/myApp27/vocabecho/ui/parent/AddCardToDeckViewModel.kt:63-65 | sets the front and clears the error |
| AddCardToDeckViewModel.AddCardToDeckViewModel.OnBackChanged | app/src/main/java/com/myApp27/vocabecho/ui/parent/AddCardToDeckViewModel.kt:67-69 | sets the back and clears the error |
| AddCardToDeckViewModel.AddCardToDeckViewModel.OnClozeTextChanged | app/src/main/java/com/myApp27/vocabecho/ui/parent/AddCardToDeckViewModel.kt:71-73 | sets the cloze text and clears the error |
| AddCardToDeckViewModel.AddCardToDeckViewModel.OnClozeAnswerChanged | app/src/main/java/com/myApp27/vocabecho/ui/parent/AddCardToDeckViewModel.kt:75-77 | sets the cloze answer and clears the error |
| AddCardToDeckViewModel.AddCardToDeckViewModel.OnClozeHintChanged | app/src/main/java/com/myApp27/vocabecho/ui/parent/AddCardToDeckViewModel.kt:79-81 | sets the hint and clears the error |
| AddCardToDeckViewModel.AddCardToDeckViewModel.Save | app/src/main/java/com/myApp27/vocabecho/ui/parent/AddCardToDeckViewModel.kt:83-160 | a blocked save only sets the error and writes nothing. A thrown failure sets the prefixed message. Otherwise the card is inserted, or a refused insert shows the failure message |
| EditUserCardViewModel.DisplayType | app/src/main/java/com/myApp27/vocabecho/ui/parent/EditUserCardViewModel.kt:53 | the form never shows BASIC_REVERSED; every other type is shown as itself |
| EditUserCardViewModel.LoadedState | app/src/main/java/com/myApp27/vocabecho/ui/parent/EditUserCardViewModel.kt:46-87 | not found without a row. A CLOZE row shows its cloze fields (null as "") and empty sides; any other row shows its sides |
| EditUserCardViewModel.SaveError | app/src/main/java/com/myApp27/vocabecho/ui/parent/EditUserCardViewModel.kt:134-170 | basic types need both sides. CLOZE passes exactly when the preview finds the answer. BASIC_REVERSED is not checked |
| EditUserCardViewModel.UntouchedSaveKeepsRow | app/src/main/java/com/myApp27/vocabecho/ui/parent/EditUserCardViewModel.kt:46-186 | opening a tidy row and saving it untouched writes back its own columns; only the type name may change |
| EditUserCardViewModel.UntouchedSaveRetypesReversed | app/src/main/java/com/myApp27/vocabecho/ui/parent/EditUserCardViewModel.kt:53 | a reversed row opened and saved untouched is stored as "BASIC" from then on |
| EditUserCardViewModel.WrittenRowIsTidy | app/src/main/java/com/myApp27/vocabecho/data/UserDeckRepository.kt:85-114 | every row the add paths write is tidy once its cloze data passed the form's checks |
| EditUserCardViewModel.SelectableOrReversed | app/src/main/java/com/myApp27/vocabecho/domain/model/CardType.kt:52-61 | a stored non-cloze type name never reads back as CLOZE |
| EditUserCardViewModel.EditUserCardViewModel.constructor | app/src/main/java/com/myApp27/vocabecho/ui/parent/EditUserCardViewModel.kt:31-44 | the screen opens in the state `load` reaches for the card's row |
| EditUserCardViewModel.EditUserCardViewModel.Load | app/src/main/java/com/myApp27/vocabecho/ui/parent/EditUserCardViewModel.kt:46-87 | the state becomes `LoadedState` of the row found |
| EditUserCardViewModel.EditUserCardViewModel.OnTypeChanged | app/src/main/java/com/myApp27/vocabecho/ui/parent/EditUserCardViewModel.kt:89-112 | switching to CLOZE clears the sides; switching away clears the cloze fields; the error is cleared |
| EditUserCardViewModel.EditUserCardViewModel.OnFrontChanged | app/src/main/java/com/myApp27/vocabecho/ui/parent/EditUserCardViewModel.kt:114-116 | sets the front and clears the error |
| EditUserCardViewModel.EditUserCardViewModel.OnBackChanged | app/src/main/java/com/myApp27/vocabecho/ui/parent/EditUserCardViewModel.kt:118-120 | sets the back and clears the error |
| EditUserCardViewModel.EditUserCardViewModel.OnClozeTextChanged | app/src/main/java/com/myApp27/vocabecho/ui/parent/EditUserCardViewModel.kt:122-124 | sets the cloze text and clears the error |
| EditUserCardViewModel.EditUserCardViewModel.OnClozeAnswerChanged | app/src/main/java/com/myApp27/vocabecho/ui/parent/EditUserCardViewModel.kt:126-128 | sets the cloze answer and clears the error |
| EditUserCardViewModel.EditUserCardViewModel.OnClozeHintChanged | app/src/main/java/com/myApp27/vocabecho/ui/parent/EditUserCardViewModel.kt:130-132 | sets the hint and clears the error |
| EditUserCardViewModel.EditUserCardViewModel.Save | app/src/main/java/com/myApp27/vocabecho/ui/parent/EditUserCardViewModel.kt:134-203 | a blocked save only sets the error and writes nothing. A thrown failure sets the prefixed message. Otherwise the row gets the edited columns, or an update that matched no row shows the failure message |
| ParentSettingsViewModel.ShownSettings | app/src/main/java/com/myApp27/vocabecho/ui/parent/ParentSettingsViewModel.kt:28-35 | the stored intervals are shown as their decimal text, with no message |
| ParentSettingsViewModel.SaveOutcome | app/src/main/java/com/myApp27/vocabecho/ui/parent/ParentSettingsViewModel.kt:43-57 | a save succeeds exactly when all three fields parse and none is negative, and then stores the parsed values; otherwise it reports the first failing check |
| ParentSettingsViewModel.SaveShownRoundTrip | app/src/main/java/com/myApp27/vocabecho/ui/parent/ParentSettingsViewModel.kt:26-62 | saving the shown settings untouched stores the same settings |
| ParentSettingsViewModel.SavedSettingsNotBeforeToday | app/src/main/java/com/myApp27/vocabecho/ui/parent/ParentSettingsViewModel.kt:53-56 | whatever settings a save accepts never schedule a card before today |
| ParentSettingsViewModel.SaveRefusals | app/src/main/java/com/myApp27/vocabecho/ui/parent/ParentSettingsViewModel.kt:49-56 | an empty field asks for integers; a negative one is refused as negative |
| ParentSettingsViewModel.ParentSettingsViewModel.constructor | app/src/main/java/com/myApp27/vocabecho/ui/parent/ParentSettingsViewModel.kt:23-37 | the screen opens showing the stored settings |
| ParentSettingsViewModel.ParentSettingsViewModel.OnSettings | app/src/main/java/com/myApp27/vocabecho/ui/parent/ParentSettingsViewModel.kt:28-35 | a new value from storage replaces the whole form |
| ParentSettingsViewModel.ParentSettingsViewModel.OnAgainChanged | app/src/main/java/com/myApp27/vocabecho/ui/parent/ParentSettingsViewModel.kt:39 | sets the field and clears the message |
| ParentSettingsViewModel.ParentSettingsViewModel.OnHardChanged | app/src/main/java/com/myApp27/vocabecho/ui/parent/ParentSettingsViewModel.kt:40 | sets the field and clears the message |
| ParentSettingsViewModel.ParentSettingsViewModel.OnEasyChanged | app/src/main/java/com/myApp27/vocabecho/ui/parent/ParentSettingsViewModel.kt:41 | sets the field and clears the message |
| ParentSettingsViewModel.ParentSettingsViewModel.Save | app/src/main/java/com/myApp27/vocabecho/ui/parent/ParentSettingsViewModel.kt:43-62 | a refused save shows its message and stores nothing; an accepted one stores the parsed intervals and says saved |
| BrowseTrainViewModel.Pairs | app/src/main/java/com/myApp27/vocabecho/ui/browse/BrowseTrainViewModel.kt:61-70 | one (front, back) pair per card, in deck order |
| BrowseTrainViewModel.BrowsedNote | app/src/main/java/com/myApp27/vocabecho/ui/browse/BrowseTrainViewModel.kt:61-70 | a complete cloze note is browsed as (its answer, its text) and any other note as (front, back) |
| BrowseTrainViewModel.Loaded | app/src/main/java/com/myApp27/vocabecho/ui/browse/BrowseTrainViewModel.kt:72-84 | a loaded deck shows its title, its size and the first card's pair at index 0; an empty deck shows "" |
| BrowseTrainViewModel.LoadedConsistent | app/src/main/java/com/myApp27/vocabecho/ui/browse/BrowseTrainViewModel.kt:35-86 | both outcomes of a load satisfy the screen's invariant: the texts shown are the pair at the index, and finished means past the last card |
| BrowseTrainViewModel.AdvanceFrom | app/src/main/java/com/myApp27/vocabecho/ui/browse/BrowseTrainViewModel.kt:110-133 | loading, an error, finished or an empty deck: nothing changes. Otherwise only the index, texts and flag move. The index goes up by one up to the total, and finishing happens exactly at the end |
| BrowseTrainViewModel.RestartFrom | app/src/main/java/com/myApp27/vocabecho/ui/browse/BrowseTrainViewModel.kt:92-108 | loading or an error: nothing changes; otherwise the screen is no longer finished and a non-empty deck goes back to index 0 |
| BrowseTrainViewModel.AdvanceConsistent | app/src/main/java/com/myApp27/vocabecho/ui/browse/BrowseTrainViewModel.kt:110-133 | advancing keeps the invariant |
| BrowseTrainViewModel.RestartConsistent | app/src/main/java/com/myApp27/vocabecho/ui/browse/BrowseTrainViewModel.kt:92-108 | restarting keeps the invariant |
| BrowseTrainViewModel.WalkThrough | app/src/main/java/com/myApp27/vocabecho/ui/browse/BrowseTrainViewModel.kt:110-133 | after k answers on a freshly loaded deck the index is k and card k is shown. After the last answer the screen is finished with empty texts |
| BrowseTrainViewModel.StaysPut | app/src/main/java/com/myApp27/vocabecho/ui/browse/BrowseTrainViewModel.kt:112-114 | a finished or empty screen stays as it is however often the child answers |
| BrowseTrainViewModel.RestartIsReload | app/src/main/java/com/myApp27/vocabecho/ui/browse/BrowseTrainViewModel.kt:92-108 | restarting after any number of answers gives the freshly loaded screen |
| BrowseTrainViewModel.BrowseTrainViewModel.constructor | app/src/main/java/com/myApp27/vocabecho/ui/browse/BrowseTrainViewModel.kt:16-33 | the screen starts loading, with no cards |
| BrowseTrainViewModel.BrowseTrainViewModel.LoadDeck | app/src/main/java/com/myApp27/vocabecho/ui/browse/BrowseTrainViewModel.kt:35-86 | a missing deck shows the not-found message. A found deck shows `Loaded` and keeps its pairs |
| BrowseTrainViewModel.BrowseTrainViewModel.Advance | app/src/main/java/com/myApp27/vocabecho/ui/browse/BrowseTrainViewModel.kt:110-133 | the state becomes `AdvanceFrom` of the old state |
| BrowseTrainViewModel.BrowseTrainViewModel.OnKnow | app/src/main/java/com/myApp27/vocabecho/ui/browse/BrowseTrainViewModel.kt:88 | the same step as advance |
| BrowseTrainViewModel.BrowseTrainViewModel.OnDontKnow | app/src/main/java/com/myApp27/vocabecho/ui/browse/BrowseTrainViewModel.kt:90 | the same step as advance |
| BrowseTrainViewModel.BrowseTrainViewModel.Restart | app/src/main/java/com/myApp27/vocabecho/ui/browse/BrowseTrainViewModel.kt:92-108 | the state becomes `RestartFrom` of the old state |
| LearnViewModel.GetOrNull | app/src/main/java/com/myApp27/vocabecho/ui/learn/LearnViewModel.kt:77-85 | the card at the index exactly when the index is inside the queue |
| LearnViewModel.Remaining | app/src/main/java/com/myApp27/vocabecho/ui/learn/LearnViewModel.kt:77-85 | the cards not yet shown, never negative |
| LearnViewModel.Instances | app/src/main/java/com/myApp27/vocabecho/ui/learn/LearnViewModel.kt:72-73 | one basic forward instance per queued card, in order |
| LearnViewModel.LearnQueue | app/src/main/java/com/myApp27/vocabecho/ui/learn/LearnViewModel.kt:63-73 | the learn queue has as many instances as the deck has due and new cards |
| LearnViewModel.LoadedState | app/src/main/java/com/myApp27/vocabecho/ui/learn/LearnViewModel.kt:77-85 | a loaded deck shows its due and new counters and the first queued card. Remaining is their sum |
| LearnViewModel.QueuedCardsAreDueOrNew | app/src/main/java/com/myApp27/vocabecho/ui/learn/LearnViewModel.kt:59-73 | every queued instance comes from a card of the deck that is due today or never graded |
| LearnViewModel.FirstSession | app/src/main/java/com/myApp27/vocabecho/ui/learn/LearnViewModel.kt:59-85 | without progress the whole deck is queued in order, every card counts as new and none as due |
| LearnViewModel.LearnViewModel.constructor | app/src/main/java/com/myApp27/vocabecho/ui/learn/LearnViewModel.kt:39-44 | the screen starts loading, with an empty queue and no deck |
| LearnViewModel.LearnViewModel.Load | app/src/main/java/com/myApp27/vocabecho/ui/learn/LearnViewModel.kt:46-87 | the deck still on screen is not reloaded. A missing deck shows the not-found message. Otherwise the queue is rebuilt from its start and the state becomes `LoadedState` |
| LearnViewModel.LearnViewModel.CurrentCardId | app/src/main/java/com/myApp27/vocabecho/ui/learn/LearnViewModel.kt:89 | the progress id of the card on screen, or null when none is |
| LearnViewModel.LearnViewModel.AdvanceToNextCard | app/src/main/java/com/myApp27/vocabecho/ui/learn/LearnViewModel.kt:91-98 | the cursor moves on and the card there (none past the end) and the remaining count are shown |
| LearnViewModel.LearnViewModel.MoveNext | app/src/main/java/com/myApp27/vocabecho/ui/learn/LearnViewModel.kt:100 | the same step |
| DecksScreen.Rem | app/src/main/java/com/myApp27/vocabecho/ui/DecksScreen.kt:192-193 | Kotlin's `%`: for a non-negative count the usual remainder, for a negative one a non-positive value |
| DecksScreen.CardWord | app/src/main/java/com/myApp27/vocabecho/ui/DecksScreen.kt:191-200 | always one of the three noun forms |
| DecksScreen.CardWordIsRussianPlural | app/src/main/java/com/myApp27/vocabecho/ui/DecksScreen.kt:191-200 | for every count the word is the form Russian grammar (the Unicode CLDR plural rules) asks for |
| DecksScreen.CardWordPeriodic | app/src/main/java/com/myApp27/vocabecho/ui/DecksScreen.kt:192-198 | the word depends only on the last two digits |
| DecksScreen.NegativeCountMany | app/src/main/java/com/myApp27/vocabecho/ui/DecksScreen.kt:192-198 | a negative count reads as the "many" form |
| DecksScreen.CardWordExamples | app/src/main/java/com/myApp27/vocabecho/ui/DecksScreen.kt:195-198 | 1, 21 and 101 take "карточка". 2 and 24 take "карточки". 0, 5, 11, 12 and 111 take "карточек" |
| DecksScreen.DeckToTileUi | app/src/main/java/com/myApp27/vocabecho/ui/DecksScreen.kt:139-189 | the tile keeps the deck's id, title and count text. It is built-in exactly for a reserved id, and then has a bundled image and no picked one. Otherwise it has the shared colour and the deck's own image |
| DecksScreen.TileAgreesWithRouting | app/src/main/java/com/myApp27/vocabecho/ui/DecksScreen.kt:142-186 | a tile is drawn as built-in exactly when opening it loads from the bundled decks |
| DecksScreen.BuiltInColoursDistinct | app/src/main/java/com/myApp27/vocabecho/ui/DecksScreen.kt:142-177 | the four built-in tiles have four different colours |
| FeedbackScreen.TodayTotal | app/src/main/java/com/myApp27/vocabecho/ui/FeedbackScreen.kt:83 | the total is at least 1, and is due plus new whenever that is positive |
| FeedbackScreen.Done | app/src/main/java/com/myApp27/vocabecho/ui/FeedbackScreen.kt:88-91 | the done count is one more than the cards learned, capped at the total |
| FeedbackScreen.CounterInRange | app/src/main/java/com/myApp27/vocabecho/ui/FeedbackScreen.kt:83-91 | the counter always reads between 1 / total and total / total |
| FeedbackScreen.TodayTotalIsQueueLength | app/src/main/java/com/myApp27/vocabecho/ui/FeedbackScreen.kt:73-83 | when the queue has a card, the counter's total is the learn queue's length |
| FeedbackScreen.BuildLetterDiff | app/src/main/java/com/myApp27/vocabecho/ui/FeedbackScreen.kt:273-311 | a blank answer is shown as one red dash. Otherwise each character of the trimmed answer is marked: whitespace as space, and a letter right exactly when its lower-case form matches the normal form of the expected answer at that position |
| FeedbackScreen.MarkLetters | app/src/main/java/com/myApp27/vocabecho/ui/FeedbackScreen.kt:286-310 | one mark per character of the trimmed answer, in order: the character itself, and space, right or wrong as `MarkAt` decides against the expected normal form |
| FeedbackScreen.NormalizeTrim | app/src/main/java/com/myApp27/vocabecho/domain/answer/AnswerNormalizer.kt:7 | trimming before normalizing changes nothing |
| FeedbackScreen.ExactAnswerAllRight | app/src/main/java/com/myApp27/vocabecho/ui/FeedbackScreen.kt:286-310 | an answer that is, up to case, the expected answer's normal form is accepted and no letter of it is marked wrong |
| FeedbackScreen.YoAcceptedButMarkedWrong | app/src/main/java/com/myApp27/vocabecho/ui/FeedbackScreen.kt:293-299 | "ё" typed for an expected "е" is accepted but its letter is marked wrong |

## Design notes

Where the source disagrees with the project's own description of itself, the model follows the code:

- **Reversed notes.** The notes at the top of `CardInstance.kt` say a BASIC_REVERSED note yields two study instances. `generate` first resolves the type through `fromString`, which maps "BASIC_REVERSED" to BASIC. A stored reversed note therefore yields one instance (`GenerateStoredReversed`). The two-instance branch is unreachable from stored data; `GenerateFor` models it and `GenerateForReversed` states it.
- **`DeckModels.kt` is out of date.** As shipped, it declares `Card(id, front, back)` and `Deck(id, title, cards)`. The repositories construct cards with a type and cloze fields, and decks with an image. `DeckModels.Card` and `DeckModels.Deck` carry those fields, following their uses.
- **Missing DAO methods.** The DAO files shown lack several methods the repository calls:
  - `UserCardDao.getById`, `updateText`, `updateCardFull`, `deleteById` and `deleteByDeckId`;
  - `CardProgressDao.deleteByDeckId`.

  Each is modelled by its key semantics and cited at its call site.
- **Edit screen and reversed rows.** The editor's reversed-to-BASIC mapping (`EditUserCardViewModel.kt:53`) never fires: the type has already been read back as BASIC. Opening a reversed note and saving it untouched stores it as "BASIC" (`UntouchedSaveRetypesReversed`).
- **Case sensitivity.** The new-deck form checks that the cloze answer occurs in the text case-sensitively. The add-card and edit-card forms ignore case (`CaseMatters`). A drafted cloze card is listed with every exact occurrence blanked (`String.replace`). The stored card blanks only the first case-insensitive one.
- **Cloze fallback.** A cloze note with a blank text or answer is read as a BASIC_TYPED card by `entityToCard`. It is studied as a BASIC instance by `generate` (`CardAgreesWithInstance` states where the two agree).
- **Preview hint.** The preview trims the hint inside the brackets; the card does not (`PreviewPlaceholderAgrees`).
- **Letter diff.** The letter diff compares the raw lower-cased letters with the normal form of the expected answer. It does not fold "ё" (`YoAcceptedButMarkedWrong`). A run of inner spaces shifts every later position against the collapsed expected answer.
- **Browse screen's not-found message.** In `BrowseTrainViewModel.kt` this message consists of question marks, because its original text was lost in encoding. The model keeps it as written.

## Left out

- Compose UI, layout, animations and colours, other than the tile colours as integers: no behaviour to prove.
- Navigation, the activity and the view-model factories: plumbing only.
- The bundled asset decks (`DeckRepository.kt`, parsing JSON from assets) are not part of this model. Their results are parameters of `CombinedDeckRepository`.
- `ParentSettingsRepository` (DataStore) is not part of this model. The stored settings are a field of the settings view model, and a new value from the flow is the `OnSettings` method.
- `ParentSettingsViewModel.ParentSettingsViewModel.Save`: the write is modelled as completing atomically with the message. The race between the DataStore flow resetting the form and the "saved" message is not modelled.
- Coroutines and `viewModelScope.launch`: every load and save is modelled as running to completion, without the intermediate "loading" or "saving" states another observer could see.
- Exceptions are modelled as a `failure` parameter that strikes before any write. A failure between two writes of `createDeckWithDraftCards` (a deck row without its cards) is not modelled.
- UUIDs, the clock and `LocalDate.now()` are parameters: deck ids, card ids and epoch days.
- `onSuccess` callbacks are not modelled: they only navigate.
- The `ORDER BY` clauses of `getDueForDeck` and `UserDeckDao.getAll` are not modelled. Progress queries return maps. `loadAllDecks` takes the DAO's rows as a parameter: each stored deck exactly once (`ListsDeckTable`), in an order the model does not fix.
- `Text.ParseInt`: digits outside ASCII, which `toIntOrNull` also accepts, are not modelled.
- `Text.LowerS`: modelled only over ASCII, Latin-1 and basic Cyrillic. Other scripts are left unchanged, unlike `String.lowercase()`, which covers all of Unicode.
- `AnswerNormalizer.CollapseWs`: `\s` is the ASCII class `[ \t\n\x0B\f\r]`, matching `java.util.regex` without Unicode character classes.
- The copies of `cardWord` in `BrowseDecksScreen.kt` and `ManageDecksScreen.kt` are not modelled separately: they are the same function as `DecksScreen.CardWord`.
- `ManageDecksViewModel`, `ManageDeckCardsViewModel` and `DecksViewModel` only forward to the repositories already modelled, and are not part of this model.
- Fixed-width integers: epoch days (Kotlin `Long`), counters and the streak (Kotlin `Int`) are unbounded `int`s. Kotlin wraps them on overflow. Days near 2^63 and more than 2^31 - 1 answers to one card cannot occur in practice. The members below hold in Kotlin only below those bounds.
- Scheduler.NextDueEpochDay: `todayEpochDay + addDays` is not reduced modulo 2^64. `Scheduler.NotBeforeToday`, `Scheduler.MonotoneInToday` and `ParentSettingsViewModel.SavedSettingsNotBeforeToday` therefore hold in Kotlin only for `today <= 2^63 - 1 - interval`.
- ProgressRepository.Answered: `correctCount + 1`, `wrongCount + 1` and `correctStreak + 1` are not wrapped at 2^31 - 1. `ProgressRepository.ReplayStats` and `ProgressRepository.GradeFromFresh` therefore hold in Kotlin only while every counter stays at or below 2^31 - 1.
- Instance-level progress ("#F"/"#R"/"#C1" ids) is not modelled: the source tracks progress by note id only.
