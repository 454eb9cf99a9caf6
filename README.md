# LearnSync-Hub learning tools, modelled in Dafny

LearnSync-Hub is a single-page study dashboard. This project models the logic
behind its tools, together with the properties the tools rely on:

- the flashcard scheduler, with its spaced-repetition levels and a session walk
  over a shuffled deck;
- the adaptive quiz, covering question selection by difficulty level, the answer
  log, scoring, the level adjustment and the countdown timer;
- the habit tracker, covering today's toggle, the daily streak check, the
  completion rate and the listing order;
- the markdown note editor, covering toolbar insertions, the title taken from a
  heading, the list excerpt and search;
- the reading log, covering the sort state and comparator, search, add, delete and
  the statistics;
- the course catalogue, covering its filter record, the filter itself, the topic
  options and the card text helpers;
- the page script `script.js`, which has its own reading-log table and note
  editor with slightly different rules.

## Form of the model

**Modules.** Each source file is one module: `Flashcards` (flashcards.js),
`Quiz` (quiz.js), `Habits` (habits.js), `Notes` (markdownEditor.js),
`ReadingLog` (readingLog.js), `Courses` (courses.js) and `MainScript`
(script.js).

Five modules are shared:

- `Base` holds `Option`, `filter` and `findIndex`.
- `Text` holds ASCII case mapping, `includes`, `trim`, `split`, `join`, string
  `<`, and integer to text.
- `Clock` holds `formatTime`, `parseInt`, the `reduce` that reads a clock text
  back, and `Math.round` of a ratio.
- `Sorting` holds the stable `Array.prototype.sort` with a comparator.
- `Shuffle` holds the Fisher–Yates `shuffleArray`.

**State.** Each tool's module-level state is a class, and each handler is a
method that updates its fields: `FlashcardSystem`, `QuizSystem`,
`HabitTracker`, `Editor` (the note editor), `ReadingLogState`,
`CourseCatalog`, and `BookPage` and `NotesPage` for script.js.

**In-place code.** The two shuffles work in place on an `array`. Quiz records
are objects whose `activeQuestions` field is reassigned. At difficulty level 2
that field aliases the quiz's own `questions` array, which the shuffle then
reorders. Different quiz records hold different `questions` arrays, as the sample
quizzes and parsed JSON do (`Quiz.SeparateQuestions`), so reordering one quiz's
questions leaves every other quiz as it was.

**Inputs from the environment.** `Date.now()` and `new Date()` become `now` or
`today` parameters. `Math.random()` becomes a list of picks, where
`0 <= picks[i] <= i`. `confirm()` becomes a `confirmed` flag. Stored data is
passed to the constructors already parsed.

**JavaScript values.** These are written out explicitly:

- `NaN`, `null` and `undefined` are `None`.
- `%` is the truncated remainder (`JsRem`).
- `Math.round` rounds halves up (`RoundRatio`).
- `parseInt` skips white space, reads an optional sign, then the leading digits.
- `if (x)` on a number treats 0 and `NaN` as false.
- A sort comparator becomes the relation `compare(a, b) <= 0`, and
  `Array.prototype.sort` is stable.

**Edge cases kept as the code has them.** Where the code does something other
than its documented behaviour, the model follows the code:

- Starting a study session or a quiz with an unknown id clears the current deck
  or quiz, because `find` returns `undefined`. Later answers are then ignored,
  and `nextQuestion` throws a TypeError.
- The flashcard success rate of an empty deck is `NaN`, not 0.
- A quiz without questions is labelled "Hard", because every comparison with
  `NaN` is false.
- The quiz percentage exceeds 100 when more answers than questions are logged.
- The habit completion rate counts completed habits that are not scheduled
  today, so it can exceed 100.
- The page script's sort throws a TypeError on a field that is not text, once
  there are two books to compare.
- Starting a quiz renders the current question twice: once from
  `showQuizInterface` and once at the end of `startQuiz`. When no question is
  selected, each render completes the quiz, so the level is adjusted twice for
  a score of 0%.
- Starting a study session on an empty deck shows the session summary at once,
  and answering the last card shows it too; both stamp the end time.

## Model

| member | source | states |
|---|---|---|
| `Flashcards.DaysUntilReview` | flashcards.js:242-243 | the review wait is between 1 and 30 days, and a level outside 1..5 falls back to 1 day |
| `Flashcards.DaysUntilReviewMonotone` | flashcards.js:242-243 | a higher level never waits fewer days |
| `Flashcards.NextLevel` | flashcards.js:233-239 | a known card goes up one level, capped at 5; an unknown card goes back to 1 |
| `Flashcards.NextLevelInRange` | flashcards.js:233-239 | levels that start in 1..5 stay in 1..5 |
| `Flashcards.LevelAfterKnownCapped` | flashcards.js:234 | n known answers in a row raise the level to min(5, level + n) |
| `Flashcards.Respond` | flashcards.js:230-248 | an answer sets the level as `NextLevel`, counts one more review, and schedules the next review exactly `DaysUntilReview` days of the new level after now, which is 1 to 30 days ahead; every other field of the card is kept |
| `Flashcards.SuccessRate` | flashcards.js:300 | the rate is NaN exactly when the deck is empty, and a count within the total gives a rate in 0..100 |
| `Flashcards.SessionSeconds` | flashcards.js:277 | the result is the elapsed milliseconds divided by 1000 and rounded to the nearest integer, with a missing start time read as 0 |
| `Flashcards.FlashcardSystem.constructor` | flashcards.js:56-67 | the loaded decks, no current deck, and zeroed statistics |
| `Flashcards.FlashcardSystem.StartStudySession` | flashcards.js:119-172 | an unknown id clears the current deck and changes nothing else; a known id stamps the deck, resets the counters to the deck's size, and replaces its cards by a shuffled permutation of them; an empty deck shows the summary at once, with the end time stamped, zero counts and no success rate; the session invariant holds afterwards in every case |
| `Flashcards.FlashcardSystem.ProcessResponse` | flashcards.js:227-257 | past the last card, or without a deck, nothing changes; otherwise only the card under the cursor is updated, as `Respond`, the cursor moves on and the matching counter goes up; answering the last card shows the summary, which stamps the end time and reports the updated counts |
| `Flashcards.FlashcardSystem.RenderCurrentCard` | flashcards.js:164-173 | past the last card the summary is shown and the end time stamped; before it the session state is unchanged |
| `Flashcards.FlashcardSystem.ShowSessionSummary` | flashcards.js:269-301 | stamps the end time and reports the counts, the rounded duration, and the success rate of the counts, which is in 0..100 and NaN only for an empty deck |
| `Shuffle.ShuffleArray` | flashcards.js:364-370 | the array afterwards is the spec function `Shuffled` of its old contents, and it is a permutation of them |
| `Shuffle.Shuffled` | quiz.js:883-889 | the shuffle of a sequence is a permutation of it, and a sequence of at most one element is unchanged |
| `Shuffle.ShuffleStepsPermutation` | flashcards.js:365-368 | every run of the loop's swaps only reorders the cells |
| `Shuffle.IdentityPicksKeepOrder` | flashcards.js:366-367 | draws that always pick the current index leave the order unchanged |
| `Clock.FormatTime` | flashcards.js:373-377 | the clock text always contains a colon |
| `Clock.FormatTimeShape` | quiz.js:876-880 | for a non-negative count the text is the minutes, a colon, and exactly two second digits |
| `Clock.FormatTimeRoundTrip` | quiz.js:716-718 | reading the timer text back with `split(':')` and `reduce` of `parseInt` gives the seconds it was written from |
| `Clock.FormatTimeFields` | quiz.js:876-880 | the two fields of the clock text are digit runs whose values give back the seconds |
| `Clock.ClockValueOfFields` | quiz.js:717 | two digit runs around a colon read back as minutes * 60 + seconds |
| `Clock.ParseInt` | courses.js:189 | `parseInt` gives a number exactly when a digit follows the leading white space and sign |
| `Clock.ParseIntRoundTrip` | courses.js:189 | `parseInt` reads back the decimal text of every integer |
| `Clock.ParseNatPrefix` | courses.js:368 | `parseInt` reads a natural number from its text followed by anything that does not start with a digit |
| `Clock.JsRem` | quiz.js:878 | JavaScript's `%` has the sign of the dividend and agrees with the mathematical remainder for non-negative values |
| `Clock.RoundRatio` | flashcards.js:277 | `Math.round(a / b)` is the integer nearest a / b, with halves rounded up |
| `Clock.Percent` | quiz.js:689 | `Math.round(a / b * 100)` is the nearest whole percentage |
| `Clock.PercentBounds` | quiz.js:689 | a part of a whole rounds to a percentage in 0..100 |
| `Clock.PercentMonotone` | quiz.js:689 | a larger part never gets a smaller percentage |
| `Quiz.SelectedQuestions` | quiz.js:471-480 | the selection never has more questions than the quiz |
| `Quiz.PreparedQuestionsPermutation` | quiz.js:466-484 | levels other than 1 only reorder the questions; level 1 reorders the easy ones |
| `Quiz.PreparedEasyLevel` | quiz.js:471-474 | at level 1 a question takes part exactly when it is in the quiz and its difficulty is at most 2 |
| `Quiz.HarderFirstPreorder` | quiz.js:479 | the comparator `b.difficulty - a.difficulty` is a total preorder |
| `Quiz.HardLevelSortedBeforeShuffle` | quiz.js:477-480 | at the hard level the copy handed to the shuffle is ordered hardest first |
| `Quiz.CorrectCount` | quiz.js:686 | the correct answers number between 0 and the answers given |
| `Quiz.CorrectCountCons` | quiz.js:686 | the count of correct answers is the first answer's contribution plus the count for the rest |
| `Quiz.DifficultyBreakdown` | quiz.js:692-700 | each count is the number of correct answers of its difficulty (1, 2, anything else), and together they count every correct answer exactly once |
| `Quiz.CalculateResults` | quiz.js:669-713 | with no quiz or no answers, all zeros; otherwise the counts, incorrect = answered − correct, unanswered = total − answered, the rounded percentage, pass iff at least the passing score, and a percentage in 0..100 when answered ≤ total |
| `Quiz.AdjustedLevel` | quiz.js:721-730 | above 85 the level goes up by one and below 60 down by one, staying within 1..3; from 60 to 85 it stays the same |
| `Quiz.LevelStaysInRange` | quiz.js:721-730 | any run of scores keeps the difficulty level in 1..3 |
| `Quiz.DifficultyName` | quiz.js:866-873 | "Easy" exactly for 1, "Hard" exactly for 3, and "Medium" otherwise |
| `Quiz.DifficultyLabel` | quiz.js:424-430 | a quiz without questions (NaN average) is labelled "Hard"; the labels of quizzes with questions are stated by `Quiz.LabelByAverage` |
| `Quiz.DifficultySumUniform` | quiz.js:425 | questions of one difficulty d sum to d times their number |
| `Quiz.LabelByAverage` | quiz.js:424-430 | a quiz with questions is labelled "Easy" when its average difficulty is below 1.7, "Medium" when it is below 2.4, and "Hard" otherwise |
| `Quiz.UniformLabel` | quiz.js:424-430 | a quiz whose questions all share a difficulty gets the label of that difficulty's name |
| `Quiz.QuizRecord.constructor` | quiz.js:24-136 | a quiz record before its first start has no active questions |
| `Quiz.QuizSystem.constructor` | quiz.js:12-19 | no current quiz, an empty answer log, no timer, and difficulty level 2 |
| `Quiz.QuizSystem.CompleteQuiz` | quiz.js:651-666 | stops the timer, returns the results of the log, and adjusts the level by the score |
| `Quiz.QuizSystem.PrepareAdaptiveQuestions` | quiz.js:466-484 | the active questions are the shuffled selection; at level 2 they are the quiz's own array, and otherwise a fresh copy that leaves the questions alone |
| `Quiz.QuizSystem.StartQuiz` | quiz.js:438-463 | an unknown id clears the current quiz and changes nothing else; a known id resets the attempt and prepares the questions, and leaves the other quizzes untouched, and the quiz's own questions too unless the level is 2; with questions selected the timer runs, and with none the quiz completes twice, with the timer stopped and the level adjusted twice for 0% |
| `Quiz.QuizSystem.BeginQuiz` | quiz.js:445-462 | a found quiz is reset and prepared, and the interface and the final render each render the current question; an empty selection gives two all-zero results and the level adjusted twice, otherwise the timer runs and the level is kept |
| `Quiz.QuizSystem.ResetAttempt` | quiz.js:446-452 | the index, the answers and the time spent are reset and the active questions are the prepared selection; the other quizzes, the level and the timer are untouched |
| `Quiz.QuizSystem.RenderCurrentQuestion` | quiz.js:548-553 | completes the quiz exactly when there is no quiz or no question left, returning the results of the log with the timer stopped and the level adjusted; otherwise nothing changes |
| `Quiz.QuizSystem.SubmitAnswer` | quiz.js:607-630 | an answer to the current question is appended to the log with its correctness, and the question time restarts; past the end nothing changes |
| `Quiz.QuizSystem.NextQuestion` | quiz.js:633-648 | only the index moves on, and the log, the time spent and the remaining time are kept; without a quiz it is a TypeError, and past the last question the quiz completes with the results of the log |
| `Quiz.QuizSystem.TimerTick` | quiz.js:517-527 | a running timer counts down one second and completes the quiz at zero with the results of the answer log; a stopped timer does nothing; the quiz records are kept |
| `Habits.RecordIndex` | habits.js:285 | the index of the first record of the day, or -1 when there is none |
| `Habits.ToggledHistory` | habits.js:285-298 | a missing record of today is put in front, completed; otherwise the first record of today has its flag flipped and nothing else changes |
| `Habits.ToggledHabit` | habits.js:300-306 | completing adds one to the streak, and un-completing subtracts one but not below 0; every other field of the habit is kept |
| `Habits.ToggledStats` | habits.js:300-310 | the total moves with the toggle but not below 0, and the longest streak is the maximum of the old one and the habit's streak |
| `Habits.ToggleTwiceRestores` | habits.js:278-317 | two toggles on the same day restore the streak, the total and an existing record |
| `Habits.CheckedHabit` | habits.js:130-140 | the streak drops to 0 unless yesterday's first record is completed |
| `Habits.CheckedHabitIdempotent` | habits.js:130-140 | checking a habit twice is the same as checking it once |
| `Habits.ActiveCount` | habits.js:327-330 | the count of habits scheduled today is at most the number of habits |
| `Habits.CompletedTodayCount` | habits.js:332-335 | the count of habits completed today is at most the number of habits |
| `Habits.TodayRate` | habits.js:337-339 | 0 with nothing scheduled, otherwise the rounded percentage, which is in 0..100 when the completed count is within the scheduled count |
| `Habits.CompletionRateAtMost100` | habits.js:325-339 | when only scheduled habits were completed, the rate is in 0..100 |
| `Habits.CompletionRateCanExceed100` | habits.js:325-339 | a completed habit that is not scheduled today pushes the rate to 200 |
| `Habits.TodayFirstPreorder` | habits.js:160-167 | the listing comparator is a total preorder |
| `Habits.ListingOrderPermutation` | habits.js:160-167 | the listing shows every habit exactly once |
| `Habits.ListingOrderScheduledFirst` | habits.js:160-167 | no habit unscheduled today is listed before one that is scheduled |
| `Habits.ListingOrderStable` | habits.js:160-167 | within each group the habits keep their stored order |
| `Habits.DayIndicators` | habits.js:245-259 | seven indicators, each marking whether its weekday is scheduled and whether it is today |
| `Habits.HabitTracker.constructor` | habits.js:92-107 | the loaded habits and statistics after the daily streak check: on a day not yet checked, every habit is checked against yesterday and the check date becomes today |
| `Habits.HabitTracker.ToggleHabitCompletion` | habits.js:278-318 | an unknown id changes nothing; otherwise only that habit changes, as `ToggledHabit`, with statistics as `ToggledStats` |
| `Habits.HabitTracker.UpdateStreaks` | habits.js:122-146 | at most once a day, every habit is checked against yesterday; the last check date becomes today |
| `Habits.HabitTracker.AddNewHabit` | habits.js:388-411 | appends one habit with id 'habit-' + the time, the form's fields, the default icon and colour when the form leaves them empty, no streak and no history; the earlier habits and the statistics are unchanged |
| `Notes.OrPlaceholder` | markdownEditor.js:262 | a non-empty selection is kept as it is |
| `Notes.Insertion` | markdownEditor.js:260-304 | an unknown command inserts nothing; a known one wraps the selection (or its placeholder) in its markup, with a cursor offset within the insertion that is 0 when there is a selection |
| `Notes.SelectionWrapped` | markdownEditor.js:261-294 | with a selection, bold, italic, heading, link and image give exactly their markup around it, with the cursor at the end |
| `Notes.SelectionBlock` | markdownEditor.js:276-304 | with a selection the lists give it as the first of three items on new lines, and code fences it when it spans lines and quotes it otherwise |
| `Notes.PlaceholderInserted` | markdownEditor.js:261-304 | without a selection each inline command gives exactly its placeholder in its markup, with the cursor offsets -2, -1, 0, -1, -1 and -1 |
| `Notes.BulletedListCursor` | markdownEditor.js:276-279 | an empty bulleted list gives the placeholder item and two empty items, with the cursor between the second item's "-" and its space |
| `Notes.NumberedListCursor` | markdownEditor.js:281-284 | an empty numbered list gives the placeholder item and items 2 and 3, with the cursor right after the "2" |
| `Notes.CursorPlacement` | markdownEditor.js:261-312 | with a selection the cursor ends after the insertion; without one it ends after the placeholder, or before the closing `)` of a link or image |
| `Notes.Splice` | markdownEditor.js:308 | the text before the selection, then the insertion, then the text after the selection |
| `Notes.TitleOf` | markdownEditor.js:212-216 | the title never spans a line break, and a content without a heading line is "Untitled Note" |
| `Notes.TitleOfHeading` | markdownEditor.js:213-216 | a content whose first line is "# X" is titled trim(X) |
| `Notes.TitleOfLaterHeading` | markdownEditor.js:212-216 | a heading line "# X" after lines that are not headings gives the title trim(X) |
| `Notes.TitleSkipsPlainLine` | markdownEditor.js:212-216 | a first line that is not a heading line has no effect on the title |
| `Notes.HeadingFirstLine` | markdownEditor.js:213 | the first line of "# X", a line break and the rest is "# X" |
| `Notes.TitleOfFirstLine` | markdownEditor.js:213-216 | a heading on the first line decides the title |
| `Notes.NewNoteTitle` | markdownEditor.js:186-193 | a new note saved unchanged keeps the title "Untitled Note" |
| `Notes.TitleOfTrimmedHeading` | markdownEditor.js:213-216 | a heading text without outer white space is the title as it is |
| `Notes.HashRun` | markdownEditor.js:121 | the length of the leading run of '#' |
| `Notes.Strip` | markdownEditor.js:120-121 | the stripped text is no longer than the content and holds no markup character |
| `Notes.StripClean` | markdownEditor.js:121 | text without markup is left unchanged |
| `Notes.StripIdempotent` | markdownEditor.js:121 | stripping twice is the same as stripping once |
| `Notes.Excerpt` | markdownEditor.js:120-124 | the stripped text when shorter than 60 characters, otherwise its first 60 characters and "..." |
| `Notes.VisibleNotesSpec` | markdownEditor.js:143-158 | the visible notes are in list order, and are exactly the notes whose lower-cased raw title or excerpt contains the term; the source reads the rendered text (see "Left out") |
| `Notes.EmptySearchShowsAll` | markdownEditor.js:143-158 | an empty search shows every note |
| `Notes.Editor.constructor` | markdownEditor.js:20-39 | the loaded notes, with the first one selected when there is one |
| `Notes.Editor.SelectNote` | markdownEditor.js:161-183 | the id becomes current even without a note; an existing note is loaded into the text box |
| `Notes.Editor.InsertMarkdownSyntax` | markdownEditor.js:249-317 | the selection is replaced by the insertion, the text around it is kept, and the cursor lands inside the new text |
| `Notes.Editor.SaveCurrentNote` | markdownEditor.js:204-230 | without a current note that exists nothing changes; otherwise only that note takes the text, its title and the time |
| `Notes.Editor.CreateNewNote` | markdownEditor.js:186-201 | a new untitled note goes in front of the others and is selected |
| `ReadingLog.NextSort` | readingLog.js:175-181 | a click on the sorted header flips the direction, and a click on another header sorts it ascending |
| `ReadingLog.NextSortTwice` | readingLog.js:175-181 | two clicks on the same header restore the sort |
| `ReadingLog.BeforeAsymmetric` | readingLog.js:298-316 | no two books are each strictly before the other |
| `ReadingLog.NotBeforeTransitive` | readingLog.js:298-316 | "not before" is transitive |
| `ReadingLog.Compare` | readingLog.js:294-319 | -1, 0 or 1, following the direction, and 0 exactly for books tied on the field |
| `ReadingLog.CompareDescReverses` | readingLog.js:312-317 | 'desc' negates 'asc', and the comparator is antisymmetric |
| `ReadingLog.OrderForMeaning` | readingLog.js:294-319 | `compare(a, b) <= 0` means b is not strictly first (ascending) or a is not (descending) |
| `ReadingLog.OrderForPreorder` | readingLog.js:294-319 | the comparator is a total preorder for every field and direction |
| `ReadingLog.SortBooksSpec` | readingLog.js:294-319 | the rows are a permutation of the books, ordered by the sort state, with tied books in their stored order |
| `ReadingLog.SearchBooksSpec` | readingLog.js:277-291 | the search keeps exactly the matching books, in order, and an empty search keeps them all |
| `ReadingLog.RemoveBookSpec` | readingLog.js:416-428 | deleting keeps exactly the books with another id, in order, and shortens a list that held the id |
| `ReadingLog.RemovedShorter` | readingLog.js:421 | a filter that drops one element is shorter than its input |
| `ReadingLog.RatingOf` | readingLog.js:257 | `parseInt(rating) \|\| 0`: NaN gives 0, and a number is kept |
| `ReadingLog.Stats` | readingLog.js:432-451 | the total is the list length; completed + in progress ≤ total; and rated ≤ total |
| `ReadingLog.RatingSumBounds` | readingLog.js:445-449 | rated books have at least one star each, and at most five each when every rating is at most 5 |
| `ReadingLog.AverageBounds` | readingLog.js:445-449 | with ratings of at most 5, the rating sum of the rated books lies between their number and five times it, so the average is between 1 and 5 |
| `ReadingLog.ReadingLogState.constructor` | readingLog.js:12-16 | the loaded books, with the sort state set to date, descending |
| `ReadingLog.ReadingLogState.ClickSortHeader` | readingLog.js:172-191 | the sort state becomes `NextSort` of the old one, and the books are untouched |
| `ReadingLog.ReadingLogState.AddBook` | readingLog.js:247-273 | the form's book, with id 'book-' + the time, is appended |
| `ReadingLog.ReadingLogState.DeleteBook` | readingLog.js:416-428 | a confirmed delete leaves `RemoveBook` of the list; an unconfirmed one changes nothing |
| `Courses.MaxTimeFromNumber` | courses.js:189 | a typed whole number n is stored as n and limits the time exactly when n ≠ 0; an empty control limits nothing |
| `Courses.SearchTermFrom` | courses.js:211 | the stored term is the lower-cased text with only white space removed at its ends, and has no outer white space |
| `Courses.FilteredCoursesSpec` | courses.js:248-279 | the listed courses keep their order, and are exactly the courses meeting every active condition |
| `Courses.DefaultShowsAll` | courses.js:248-279 | the default filter record lists every course |
| `Courses.ZeroTimeLimitIsOff` | courses.js:256 | a time limit of 0 lists the same courses as no limit |
| `Courses.SearchTextStartsWithTitle` | courses.js:266-273 | the searched text starts with the lower-cased title, a space and the description |
| `Courses.SearchFindsTitle` | courses.js:266-275 | a term in the title lists the course |
| `Courses.SearchCrossesFields` | courses.js:266-275 | a term spanning the title and the description still matches, because the fields are joined |
| `Courses.TopicOrderPreorder` | courses.js:233 | the default sort's string order is a total preorder |
| `Courses.SortedTopics` | courses.js:227-233 | the sorted distinct topics list each topic once, in strictly increasing order |
| `Courses.TruncateText` | courses.js:529-532 | short text is kept; longer text is cut to the maximum length with "..." after it |
| `Courses.TruncateIdempotent` | courses.js:529-532 | truncating twice is the same as truncating once |
| `Courses.CapitalizeFirst` | courses.js:524-526 | the first character is upper-cased, and the rest and the length are kept |
| `Courses.CapitalizeKeepsLetters` | courses.js:524-526 | capitalizing changes only case |
| `Courses.ResultsCountText` | courses.js:365-370 | ends in " found", with "courses" for every count except 1 |
| `Courses.ResultsCountReadsBack` | courses.js:368 | the count text reads back as its count |
| `Courses.CourseCatalog.constructor` | courses.js:14-19 | the loaded courses with the default filter record |
| `Courses.CourseCatalog.ChangeTopic` | courses.js:179-182 | only the topic of the filter record changes |
| `Courses.CourseCatalog.ChangeMaxTime` | courses.js:188-191 | only the time limit changes, to the stored reading of the control |
| `Courses.CourseCatalog.ChangeDifficulty` | courses.js:197-200 | only the difficulty changes |
| `Courses.CourseCatalog.ChangeSearch` | courses.js:208-213 | only the search term changes, to the lower-cased trimmed text |
| `Courses.CourseCatalog.ClearAllFilters` | courses.js:373-397 | the default record again, so every course is listed |
| `Courses.CourseCatalog.PopulateTopicFilter` | courses.js:225-245 | the options are exactly the topics of all courses, each once, in increasing order |
| `MainScript.BeforeAsymmetric` | script.js:544-556 | no two books are each strictly before the other |
| `MainScript.NotBeforeTransitive` | script.js:544-559 | "not before" is transitive for every field except rating |
| `MainScript.Compare` | script.js:541-563 | -1, 0 or 1, following the direction, and 0 exactly for books tied on the field |
| `MainScript.CompareDescReverses` | script.js:556-562 | 'desc' negates 'asc', and the comparator is antisymmetric |
| `MainScript.UnratedTiesEverything` | script.js:544-562 | a NaN rating compares equal to every book |
| `MainScript.OrderForMeaning` | script.js:541-563 | `compare(a, b) <= 0` means b is not strictly first (ascending) or a is not (descending) |
| `MainScript.OrderForPreorder` | script.js:541-563 | for every field but rating, the comparator is a total preorder |
| `MainScript.RatingOrderAgrees` | script.js:544-547 | on numeric ratings the comparator agrees with the numeric order |
| `MainScript.SortBooks` | script.js:540-563 | a TypeError exactly when the field cannot be read and the comparator runs (two or more books); otherwise a copy of the same length |
| `MainScript.SortBooksPermutation` | script.js:540-541 | the sorted copy holds the same books |
| `MainScript.SortBooksOrdered` | script.js:540-563 | the copy is ordered by the comparator, with tied books in their original order |
| `MainScript.NextMark` | script.js:316-330 | a click leaves the header marked, descending exactly when it was ascending |
| `MainScript.ClicksAlternate` | script.js:316-330 | repeated clicks on an unmarked header alternate, starting ascending |
| `MainScript.ClicksAfterFirst` | script.js:316-330 | from a marked header, clicks alternate the direction |
| `MainScript.SearchBooksSpec` | script.js:297-306 | the listed books keep their order, and are exactly those matching the lower-cased term |
| `MainScript.EmptySearchKeepsAll` | script.js:297-306 | an empty search lists every book |
| `MainScript.OtherThanSpec` | script.js:512 | the delete filter keeps exactly the books with another id, in order |
| `MainScript.BookPage.constructor` | script.js:188 | the saved list, or the sample when nothing is saved, with no header marked |
| `MainScript.BookPage.ClickHeader` | script.js:314-337 | the clicked header's mark moves on as `NextMark`, and a click on an unmarked header clears the other marks; the books shown are `SortBooks` of the page's list, and that list is itself left untouched |
| `MainScript.BookPage.AddBook` | script.js:255-274 | the book is appended with the parsed rating, and the whole list is saved |
| `MainScript.BookPage.DeleteBookAsWritten` | script.js:510-513 | the saved list loses the book, but the page's own list keeps it |
| `MainScript.BookPage.DeleteBook` | script.js:510-513 | the book leaves the page's list, and that list is saved and shown |
| `MainScript.DeletedBookComesBack` | script.js:510-513 | as written, a deleted book is saved again after the next add |
| `MainScript.DeletedBookStaysGone` | script.js:510-513 | with the corrected delete, no saved book has the deleted id after the next add |
| `MainScript.Insertion` | script.js:850-877 | an unknown command inserts nothing, and a known one wraps the selection or its placeholder |
| `MainScript.SelectionWrapped` | script.js:851-876 | with a selection every command gives exactly its markup around it; a list adds items 2 and 3, and code fences a selection that spans lines |
| `MainScript.PlaceholderInserted` | script.js:851-876 | without a selection every command gives exactly its placeholder in its markup, "Item 1" for the lists and "inline code" for code |
| `MainScript.FirstLine` | script.js:696 | the first line holds no line feed |
| `MainScript.TitleOf` | script.js:695-699 | the title never spans a line, and a first line not starting with "# " gives "Untitled Note" |
| `MainScript.FirstLineOf` | script.js:696 | the first line of "X\n…" is X |
| `MainScript.TitleOnlyFromFirstLine` | script.js:695-699 | the lines after the first never change the title |
| `MainScript.TitleOfHeading` | script.js:696-699 | a first line "# X" gives the title trim(X) |
| `MainScript.NewNoteKeepsTitle` | script.js:668-674 | a new note saved unchanged keeps the title "Untitled Note" |
| `MainScript.TitleOfTrimmedHeading` | script.js:697-699 | a heading without outer white space is the title as it is |
| `MainScript.NotesPage.constructor` | script.js:645-663 | the loaded notes, with the first one selected when there is one |
| `MainScript.NotesPage.SelectNote` | script.js:788-810 | the id becomes current, and an existing note is loaded into the text box |
| `MainScript.NotesPage.CreateNewNote` | script.js:666-682 | a new untitled note goes in front of the others and is selected |
| `MainScript.NotesPage.SaveNote` | script.js:686-705 | only the current note changes, taking the text, its first-line title and the time |
| `MainScript.NotesPage.InsertMarkdownSyntax` | script.js:840-890 | the selection is replaced by the insertion, the text around it is kept, and the cursor lands right after the insertion |
| `Sorting.SortByPermutation` | readingLog.js:295 | a sorted copy is a permutation of its input |
| `Sorting.SortBySorted` | readingLog.js:295 | with a total preorder, a sorted copy is in order |
| `Sorting.SortByStable` | readingLog.js:295 | elements the comparator ties keep their relative order |
| `Sorting.SortByAgree` | script.js:541 | two comparators that agree on the values sorted give the same copy |
| `Text.ContainsIff` | courses.js:275 | `includes` holds exactly when the term occurs at some index |
| `Text.Trim` | courses.js:211 | the result is the input with only white space removed at its two ends, and it has no outer white space |
| `Text.StrLessTotal` | courses.js:233 | two different strings are ordered one way or the other |
| `Text.NatToStringRoundTrip` | courses.js:368 | the decimal text of a natural number reads back as that number |

## Left out

- Rendering, the DOM, CSS classes and animations are not modelled. The same goes for `localStorage`, JSON parsing, toasts, alerts and focus. The model covers the values these are computed from, and the state they are written from.
- Timers are not modelled as such. The quiz interval is a `TimerTick` method called once per second, and the 300 ms debounce of the course search is the moment `ChangeSearch` runs.
- `Math.random()` is a caller-supplied list of picks, and dates are caller-supplied: milliseconds, ISO text, or the day of the week.
- Dates the source compares as `Date` objects (the reading-log sort by date) are compared as their ISO `YYYY-MM-DD` text, which orders them the same way. `formatDate`, `toLocaleDateString` and `setDate` arithmetic are not modelled; the next review time is now + days × 86 400 000 ms.
- Floating point is not modelled. Ratios are kept as integer numerators and denominators. `Math.round` is exact on rationals (halves up). Average ratings appear as sum and count, with bounds proved. `toFixed(1)` and `animateCounterValue` are not modelled.
- Case mapping covers ASCII letters only, and string order compares characters as code points. Characters outside the Basic Multilingual Plane may order differently in JavaScript's UTF-16 comparison.
- `parseInt` is base 10 only. A `0x` prefix, which JavaScript reads as hexadecimal, is not modelled.
- `calculateTotalTimeSpent` (quiz.js:716-718) reads the timer's text from the page. `Clock.FormatTimeRoundTrip` proves that the text read back gives the remaining seconds; the value itself is not part of the results, because it depends on the DOM.
- `generateSampleHistory`, `generateHistoryVisualization`, `viewCourseDetails`, `editDeck`, `createNewDeck`, `editBook`, `renderCourses`, the view toggle and the rating stars only build markup or alerts, and are not modelled.
- `marked` and `DOMPurify` (the preview) are external libraries and are not part of this model.
- `updateReadingStats` of script.js (script.js:436-462) computes the same counts as `ReadingLog.Stats` and is not modelled separately. Its animated display is floating point.
- Only the `Array.prototype.sort` behaviour relied on (a stable sort) is modelled, as an insertion sort. The engine's own algorithm may call the comparator in a different order. That makes no difference to the result for a comparator that is a total preorder.
- `MainScript.SortBooksOrdered`: for the rating field, this is proved only when every rating is a number. A `NaN` rating ties with everything, so the comparator is not an order and the engine's result is not determined.
- `Quiz.SelectedQuestions`: at the hard level the order it states is the sorted order before the shuffle (`Quiz.HardLevelSortedBeforeShuffle`). The shuffle that follows overwrites that order, as the source does.

- The page elements each handler looks up are taken to be present. The handlers' early returns when an element is missing are not modelled, so the renders that complete a quiz or show a session summary always run.
- Lengths, offsets and indices count characters, while JavaScript counts UTF-16 code units. For text outside the Basic Multilingual Plane this changes where `Notes.Excerpt` cuts at 60, where `Courses.TruncateText` cuts, the offsets `Notes.Splice` uses, and the selection bounds and cursor position of `Notes.Editor.InsertMarkdownSyntax` and `MainScript.NotesPage.InsertMarkdownSyntax`. A character outside that plane counts as 1 here and as 2 in JavaScript.
- `Notes.VisibleNotesSpec`: the search reads the raw title and excerpt. The source reads the `textContent` of the list items that `renderNotesList` built with `innerHTML` (markdownEditor.js:126-129, 149-150), so markup in a title or excerpt changes what is searched: `C<T> basics` is searched as `C basics`, `&amp;` as `&`, and a `<` can swallow the rest of the title. For text without `<` or `&` the two agree.
- `MainScript.NotesPage.SelectNote` (and so the constructor and `CreateNewNote`): the text box is filled at once. The source makes the id current at once but fills the text box inside a 100 ms `setTimeout` (script.js:804-810). A save inside that window (script.js:687-703) writes the previously shown text, and its title, into the newly selected note; the model does not capture that window.
- `MainScript.BookPage.constructor`: a saved `NaN` rating is written by `JSON.stringify` as `null`, and `null` compares with numbers as 0. The model reads it back as `None`, that is still `NaN`, so after a reload the rating sort may order that book differently.

## Findings

| source | as written | input that shows it | evidently intended | confidence | as-written member | corrected member |
|---|---|---|---|---|---|---|
| script.js:510-513 | delete filters the list read back from storage and saves and shows it, but the page's `books` list keeps the deleted book, and the next add saves that list again | saved list [A]; delete A (confirmed); add a book: A is saved again | the deleted book leaves the page's list, and that list is saved and shown | high, not executed | `MainScript.BookPage.DeleteBookAsWritten`, `MainScript.DeletedBookComesBack` | `MainScript.BookPage.DeleteBook`, `MainScript.DeletedBookStaysGone` |
