# Feedcast, verified

Feedcast polls city newspapers' RSS feeds into a ledger of articles, has a language model judge them in
batches, ranks them, and lets an editor turn a selection into a carousel of slides on a browser canvas
that saves itself. This project models the parts of it that carry state across steps, interleave or
compute, in Dafny, and proves what they keep over every run. Nothing was executed.

Check the whole project with `dafny verify dfyconfig.toml`.

| file | what it models |
|---|---|
| `Ingest.dfy`, `Scheduler.dfy`, `TickHistory.dfy`, `Polling.dfy` | feeds into the dedupe ledger: one batch, any interleaving of batches, what becomes of every feed fetched, and how often a source is polled |
| `DedupeKey.dfy`, `Text.dfy`, `FeedText.dfy` | the identity of a story; markup in, clean text out, no word lost |
| `Prompt.dfy`, `Llm.dfy`, `Classifier.dfy`, `Starvation.dfy` | printing a batch for the model, the retry loop, writing the reply back, and that no article waits forever |
| `Rank.dfy`, `Feed.dfy`, `Order.dfy` | the engagement score, the feed and its paging, sorting |
| `Deck.dfy`, `SlidesStore.dfy`, `Autosave.dfy`, `Carousels.dfy`, `DeckContents.dfy`, `Admission.dfy` | the deck in the database, the deck in a tab, the autosave, the endpoints segment by segment, what a deck says, and which requests get through |
| `Editor.dfy`, `DeckSafety.dfy`, `Evidence.dfy`, `RoundTrip.dfy` | tabs, network and overlapping requests together; what the stored decks and the selection log keep; whole requests left alone |
| `SlideCanvas.dfy` | the greedy line breaker |
| `Session.dfy`, `SessionAnswers.dfy` | the shared token refresh, and how each call ends |

Code that changes things step by step is a method or a class here, tied by its postconditions to a
specification function; the properties are lemmas about those functions. Where calls interleave at an
`await`, the model is a step system: an event is what one call does between two awaits, any sequence of
events is a run, and the lemmas quantify over all of them.

Some of the results are where the code and a plausible reading of it part:

- `seen_ids` survives a rollback, so a source whose persist raised can cost a later source its story until
  the next tick (`Ingest.RaisedPersistHidesAStory`; `Ingest.TickLedger` says exactly when).
- A refresh that overlaps a tick on one failing source can count two failures as one
  (`TickHistory.OverlappingFailuresCountOnce`).
- The comment at app/services/scheduler.py:168 speaks of a source archived mid-tick, but the lookup finds
  archived rows; only a row that is gone is skipped, and the model follows the code.
- The settings accept negative weights. Rounding hides small ones; a story shows a score outside 1 to 10
  for some ratings iff they sum to less than -1/180, or the others to more than 181/180
  (`Rank.ScoresInRangeIff`).
- A cap of 0 on sanitised text keeps almost all of it, and a negative cap cuts again on every pass
  (`Text.SanitizeRespectsCapIff`, `Text.SanitizeIdempotentIff`).
- Saves of one carousel that overlap leave both decks in the table, and then a deck may hold twenty
  slides. A load returns what was saved iff the save removed every row that was there
  (`DeckSafety.CommitReloadsIff`); the selection log covers the deck all the same
  (`Evidence.EvidenceCoversDecks`).
- A page reload drops a pending autosave, but may bring the edit back for the next one;
  `Autosave.EditIsSentIff` says exactly which edits reach the server. A deck emptied slide by slide keeps
  its carousel.

## Model

| member | source | states |
|---|---|---|
| `Ingest.Session.ParseAndPersist` | app/services/ingest.py:251-312 | The loop over the entries, the shared seen set, the insert and the source row: new ledger, source, outcome and seen set are those of the specification `Persisted` and `Marks`, and no other source changes. |
| `Ingest.Session.PersistAttempts` | app/services/scheduler.py:156-191 | The whole batch loop, one commit or one rollback with a recorded failure per source: database, seen keys and outcomes equal the fold `PersistAll` for any attempts and any exceptions. |
| `Ingest.FreshRowKeys` | app/services/ingest.py:293-299 | The rows built from a feed carry exactly the keys not yet seen, all owned by the polled source. |
| `Ingest.FreshRowsAreFirst` | app/services/ingest.py:294-299 | A row's feed position is the first place its key stood in the feed, counted from 1. |
| `Ingest.MarksAre` | app/services/ingest.py:293-299 | An attempt marks as seen exactly the keys of the entries it looked at, which are all of them unless it raised before. |
| `Ingest.InsertOnlyAdds` | app/services/ingest.py:301-309 | The insert never changes or drops a row, adds exactly the missing keys, and the number it returns is exactly the growth of the table. |
| `Ingest.PersistedGrows` | app/services/ingest.py:269-312 | Persisting one attempt adds exactly its unseen keys the ledger lacked, owned by its source, and `new_articles` is that number, whoever else writes the ledger. |
| `Ingest.TickLedger` | app/services/scheduler.py:156-191 | A key is in the ledger after a batch iff it was there before or the first attempt to come across it was persisted; a new row belongs to that first attempt's source. Holds with exceptions, whose keys stay in `seen_ids`. |
| `Ingest.CleanTickStoresEverything` | app/services/scheduler.py:161-191 | When nothing raises, the ledger's keys are the old ones united with the keys of all parsed feeds, in whatever order they came. |
| `Ingest.RaisedPersistHidesAStory` | app/services/scheduler.py:163-190 | A concrete batch in which a rolled-back source costs a later source its story: `seen_ids` survives the rollback, so the no-exception condition is needed. |
| `Ingest.NewArticlesCountsFirsts` | app/services/ingest.py:293-312 | Each persisted attempt's outcome counts its keys that no earlier attempt of the batch carried and the ledger did not hold when the batch began. |
| `Scheduler.LedgerConservation` | app/services/scheduler.py:271-316 | Over every interleaving of ticks and city refreshes, with exceptions, rollbacks, failing commits and vanishing sources: no ledger row is lost or changes owner, and the new articles reported by all outcomes sum to exactly the growth of the ledger. That the feeds fetched do get there is `TickHistory.EveryFetchedFeedIsDealtWith`. |
| `Scheduler.StepKeepsLedger` | app/services/scheduler.py:166-189 | The same for a single step between two awaits. |
| `Scheduler.RefreshGuardHolds` | app/services/scheduler.py:238-316 | In every run each city has at most one refresh past the guard, and `_refreshing` is exactly the set of cities that have one, whichever way refreshes end. |
| `Scheduler.OnlyTheHolderReleases` | app/services/scheduler.py:285-316 | A city leaves `_refreshing` only in the step in which the call holding it ends; a refused call never releases it. |
| `Scheduler.SoloRunIsPersistAll` | app/services/scheduler.py:156-191 | From the moment its feeds are fetched, the steps of a call run without interference do to the database exactly what the sequential batch loop does; `SoloCallPersistsWhatItFetched` has the whole call. |
| `Scheduler.SoloCallPersistsWhatItFetched` | app/services/scheduler.py:194-316 | A whole call nobody interferes with, from its start over the loading of its targets and the fetch to its return: database and outcomes are those of the sequential batch loop on all the attempts it fetched, the call has returned them, no other call changed, and the city it refreshed is free again. |
| `TickHistory.EveryFetchedFeedIsDealtWith` | app/services/scheduler.py:156-209 | Over every interleaving: the attempts a call has dealt with followed by those still pending are exactly the ones it fetched; each one dealt with has its own outcome, in order, that tells what came of it, unless its source was gone when its turn came; a call that returned has dealt with all; and every story of a committed feed is in the ledger unless an earlier feed of that call had it and was rolled back. |
| `TickHistory.CleanCallStoresEverything` | app/services/scheduler.py:166-191 | A call that returned with nothing rolled back has every story of every feed whose source was there, whatever ran beside it. |
| `TickHistory.NoCallIsStuck` | app/services/scheduler.py:166-191 | In every reachable state a running call can go on by itself, without an exception of its own making, and is then nearer its end. |
| `TickHistory.CommitLeavesTheInterval` | app/services/scheduler.py:281-283 | A commit leaves a polling interval set meanwhile, and every other source, as they are. |
| `TickHistory.OverlappingFailuresCountOnce` | app/services/scheduler.py:281-283 | Two calls that loaded one source before either committed its failure count two failures as one: the last writer wins. |
| `Polling.BackoffStaysInRange` | app/services/scheduler.py:56-70 | The interval lies between the base interval and the larger of base and ceiling. |
| `Polling.BackoffIsMonotone` | app/services/scheduler.py:66-70 | More failures never shorten the interval. |
| `Polling.BackoffDoubles` | app/services/scheduler.py:65-70 | Each failure doubles the interval until it meets the ceiling or the 32nd failure; a base above the ceiling is never extended. |
| `Polling.ExponentCapIsInvisibleIff` | app/services/scheduler.py:33-70 | The cap of 32 on the exponent changes no interval iff the base is 0 or the ceiling is at most base * 2^32. |
| `Polling.PollingCadence` | app/services/scheduler.py:73-82 | Over any run of non-overlapping ticks and forced refreshes, from any source row: a scheduled attempt never comes sooner than the effective interval left by the attempt before it, and `consecutive_failures` is the number of failures since the last success. |
| `Polling.PersistRecordsAVisit` | app/services/ingest.py:226-248 | What persisting an attempt leaves on its source row is the record the cadence is about, a success exactly when the feed parsed or was unmodified and nothing raised. |
| `Polling.NoSourceIsForgotten` | app/services/scheduler.py:73-82 | In any such run a tick that finds the interval since the last attempt over, or a source never polled, makes an attempt, as a forced refresh does; any other tick makes none. |
| `Polling.HealthyInterval` | app/services/scheduler.py:56-64 | Without failures the interval is the longer of the configured minutes and the feed's max-age. |
| `Polling.RowTells` | app/services/ingest.py:226-248 | What an attempt leaves on its source row, field by field: a success clears the error and the count and keeps a validator the response did not send; a failure keeps the last success and the validators. |
| `DedupeKey.SameCanonicalIff` | app/services/ingest.py:48-59 | Two URLs have the same canonical form iff scheme, host, path up to trailing slashes and the multiset of non-tracking query pairs agree. |
| `DedupeKey.DecorationIsInvisible` | app/services/ingest.py:48-59 | Permuting the query, inserting tracking pairs, adding trailing slashes or a fragment does not change the canonical URL. |
| `DedupeKey.CanonicalizeIdempotent` | app/services/ingest.py:48-59 | Canonicalising a canonical URL changes nothing. |
| `DedupeKey.TrackingIgnoresCase` | app/services/ingest.py:33-57 | A query pair is dropped iff its name spells one of the tracking names, in any mix of cases. |
| `FeedText.NormalizedTitleIsItsWords` | app/core/hashing.py:18-22 | The normalised headline is the fold of its words, one space apart. |
| `DedupeKey.NormalizedTitleIsOneLine` | app/core/hashing.py:18-22 | The normalised headline contains no newline. |
| `DedupeKey.PreimageIsAPair` | app/core/hashing.py:25-29 | The string `article_key` hashes determines both the canonical URL and the normalised headline. |
| `DedupeKey.SameKeyIff` | app/core/hashing.py:25-29 | Two entries hash the same string iff their URLs differ in decoration only and their headlines normalise alike. |
| `Text.StripMarkupGivesProse` | app/core/text.py:18-37 | Whatever the feed sent, the result has no '<' with a later '>', no control character, only single spaces and none at the edges. |
| `Text.StripMarkupFixedPoints` | app/core/text.py:33-37 | Exactly the strings already in that form come through unchanged. |
| `Text.StripMarkupIdempotent` | app/core/text.py:33-37 | Stripping twice is stripping once, for every string. |
| `FeedText.TagBecomesASpace` | app/core/text.py:35 | A first tag becomes one space; the text before it stays and the text after it is searched on. |
| `FeedText.ControlsGo` | app/core/text.py:36 | Each control character goes and every other character stays, wherever it stands. |
| `FeedText.StripMarkupKeepsTheWords` | app/core/text.py:33-37 | The result is exactly the words left once tags are spaces and control characters are gone, all of them, in order, one space apart. |
| `Text.SanitizeNeutralises` | app/core/text.py:52-59 | No angle bracket survives, and the result is still in the normal form, truncation and ellipsis included. |
| `Text.SanitizeReads` | app/core/text.py:52-59 | Each angle bracket becomes its own lookalike and nothing else changes; a text that fits stays whole, a longer one is a prefix that fills the cap but for whitespace, and an ellipsis. |
| `Text.SanitizeRespectsCapIff` | app/core/text.py:57-59 | The cap is respected iff it is at least 1, or it is 0 and nothing is left to cut. |
| `Text.ZeroCapIsNotACap` | app/core/text.py:57-58 | A concrete text that a cap of 0 leaves three characters long. |
| `Text.SanitizeIdempotentIff` | app/core/text.py:40-59 | Sanitising twice is sanitising once iff there is no cap, the cap is not negative, or the stripped text is at most 1 - cap characters long. |
| `Text.NegativeCapKeepsCutting` | app/core/text.py:57-58 | A concrete text that a cap of -1 shortens again on the second pass. |
| `Text.ClipIsAnHonestPrefix` | app/core/text.py:62-78 | The headline is a prefix of the sanitised title, within the limit iff the limit is not negative, flagged iff the title was longer; a cut headline loses one word and the punctuation before it, and the box is filled to the brim only when nothing would be left. |
| `Prompt.AttrSafe` | app/services/llm.py:295-301 | The loop of four replacements yields the one-pass escape of the text. |
| `Prompt.PassesAreOnePass` | app/services/llm.py:299-300 | The sequential replacement chain equals one per-character map, for every string. |
| `Prompt.EscapeRoundTrip` | app/services/llm.py:295-301 | Unescaping an escaped text, whatever follows it, gives the text back. |
| `Prompt.EscapeLeavesNoDelimiter` | app/services/llm.py:296-301 | An escaped text contains no '<', '>' or '"': it cannot end the element or the attribute it is in. |
| `Prompt.ArticleLine` | app/services/llm.py:314-324 | One printed line says the clipped title, the clipped summary unless empty, and the city or "unknown". |
| `Prompt.BuildPrompt` | app/services/llm.py:304-325 | The built prompt parses back to exactly the list of clipped titles, clipped summaries and cities, for any input text. |
| `Prompt.ArticleRoundTrip` | app/services/llm.py:318-324 | A reader recovers one printed article and stops exactly at its end, whatever follows. |
| `Prompt.PromptRoundTrip` | app/services/llm.py:313-325 | The parser inverts the printer on whole batches. |
| `Prompt.EveryItemHasItsLine` | app/services/llm.py:313-325 | Item i stands on a line of its own, which reads back as the item and carries the decimal number i. |
| `Prompt.CarriedAt` | app/services/llm.py:314-322 | What is carried of an item: a prefix of the headline up to the limit, the same of a summary that is not empty, and the city or "unknown". |
| `Prompt.PromptIsUnambiguous` | app/services/llm.py:304-325 | Two batches that print alike carry the same strings: no headline can pose as another element. |
| `Llm.Complete` | app/services/llm.py:343-397 | At most `llm_max_attempts` calls; the log is "retried" for each call that raised, then "ok" for the first valid reply, which is returned, or "failed" for the last one. |
| `Llm.LastResultWins` | app/services/llm.py:422-424 | Headline i gets an entry iff i is in range and some result names it, and then the last such result. |
| `Llm.ClassifyTitles` | app/services/llm.py:400-424 | No headlines, no call; otherwise the entries by index of the first reply that validated, or an error after every call failed. |
| `Classifier.ArticleStore.PersistCategories` | app/services/classify.py:82-109 | The write loop equals the table function `Persist`: an attempt for every article of the batch that still exists, all columns or none. |
| `Classifier.ArticleStore.RunClassifyPass` | app/services/classify.py:112-144 | A pass leaves exactly the table `PassResult` describes for the reply that validated, or for none when every call failed; an empty batch makes no call. |
| `Classifier.ClassificationLandsRight` | app/services/classify.py:124-144 | For any reply, the article at place i of the batch gets exactly the last result naming place i, or only an attempt when none does. |
| `Classifier.OthersAreUntouched` | app/services/classify.py:90-107 | No article outside the batch changes, whatever indices the reply contains. |
| `Classifier.ApplyRates` | app/services/classify.py:94-107 | A result sets all seven dimensions to its levels, the category, the form, the verdict and the confidence, held to [0, 1]; no result changes nothing but the attempt; both count one attempt. |
| `Classifier.FirstDimensionSpeaksForAll` | app/services/classify.py:70-72 | In a reachable article, the tested column is NULL iff the article is not rated. |
| `Classifier.AttemptsAreBounded` | app/services/classify.py:64-97 | In every reachable state an article's counter is the number of completed batches it was in and at most `classify_max_attempts`; it has all seven dimensions or none; its confidence is in [0, 1]. |
| `Classifier.BatchHoldsTheOldest` | app/services/classify.py:64-80 | In every reachable state, a batch holds only articles in the window without a rating and with attempts left, each once, oldest first; one left out means the batch is full and none in it is younger. |
| `Classifier.NoPassBlocksTheNext` | app/services/classify.py:112-175 | A pass ends with its batch released whether it completes or dies; a pass that dies changes no article. |
| `Starvation.MissingBatchIsFull` | app/services/classify.py:70-77 | A batch that leaves an eligible article out is full and holds only articles fetched no later. |
| `Starvation.BudgetDrop` | app/services/classify.py:90-94 | The attempts left to a set of articles fall by at least one for each of them in the batch. |
| `Starvation.NoStarvation` | app/services/classify.py:64-97 | With k other eligible articles fetched no later, an article that stays in the window is in one of any floor(k * max_attempts / batch_size) + 1 completed passes, however many later articles arrive; one pass more when one was already under way. |
| `Rank.EngagementLevels` | app/services/rank.py:49-82 | The early-return loop yields all seven levels iff all seven columns hold a known level, otherwise nothing. |
| `Rank.RoundIsMonotone` | app/services/rank.py:137 | Rounding to one decimal, half to even, never inverts two values. |
| `Rank.DisplayNeverInverts` | app/services/rank.py:133-137 | Stretching and rounding never show a higher weighted sum as a lower score. |
| `Rank.ScoreInRange` | app/services/rank.py:102-137 | For every non-negative weight vector the settings accept, the score is in [1, 10]. |
| `Rank.ScoreIsMonotone` | app/services/rank.py:133-137 | Judging a story at least as high on every dimension, in the order very_low, low, high, very_high, never lowers the score. |
| `Rank.EndsOfTheScale` | app/services/rank.py:133-137 | For every weight vector the settings accept, the highest level on everything shows exactly 10 and the lowest exactly 1. |
| `Rank.LevelsOnTheScale` | app/services/rank.py:133-137 | As the columns spell them, very_low, low, high and very_high on everything show 1, 4, 7 and 10 under every weight vector the settings accept; a missing column means no rating. |
| `Rank.OneDimensionSpeaks` | app/services/rank.py:133-137 | A story very high on one dimension and very low on the rest shows 1 + 9 times that dimension's weight, rounded. |
| `Rank.RoundIsNearest` | app/services/rank.py:137 | The score shown is the nearest number of tenths, of two equally near the even one. |
| `Rank.ScoresInRangeIff` | app/core/config.py:204-213 | For every weight vector the settings accept, negative weights included, all rounded scores lie in [1, 10] iff the negative weights sum to at least -1/180 and the others to at most 181/180. |
| `Rank.NegativeWeightsMayShow` | app/core/config.py:204-213 | A concrete accepted vector with a weight of -0.01 under which a story shows less than 1, and one with -0.001 under which none does. |
| `Rank.ContributionsExplainTheScore` | app/services/rank.py:140-152 | The contributions are the seven shares, largest first, and the score is the rounded stretch of their sum. |
| `Feed.ListStories` | app/api/v1/endpoints/stories.py:111-138 | Filter, project, sort and slice equal the slice of the feed order, for any rows, query, limit and offset. |
| `Feed.PrecedesIsTotal` | app/services/rank.py:161-186 | Both sort keys give a total order. |
| `Feed.StoriesAreDistinct` | app/services/rank.py:161-186 | Article ids being unique, no two different stories tie under either key. |
| `Feed.FeedForgetsRowOrder` | app/api/v1/endpoints/stories.py:130-138 | Under either sort, the feed does not depend on the order in which the database returns rows. |
| `Feed.FeedIsTheAdmittedRows` | app/api/v1/endpoints/stories.py:36-77 | The feed lists each admitted row as often as it was returned and nothing else, in order. |
| `Feed.FeedIsInOrder` | app/services/rank.py:161-186 | Sorted by engagement no story stands before a better one, by recency before a newer one, with the other key and then the id deciding ties. |
| `Feed.ListedIff` | app/api/v1/endpoints/stories.py:36-123 | A story is listed iff its row was returned, it is in the window by its publication date or, without one, its arrival, it matches the category and city filters and is not hidden; its score is the one computed. |
| `Feed.AdmissionFailsOpen` | app/api/v1/endpoints/stories.py:36-77 | A looser setting hides nothing more; a story is hidden for its form, or for a verdict of not about the city at or above the floor, or unjudged when it is not local. |
| `Feed.LoadAll` | app/static/js/feed.js:835-849 | With rows arriving in a different order on every request, the offset loop stops after |feed| / 24 + 1 requests and has shown the whole feed once, in order, iff the server's limit admits a full page or the feed fits under it. |
| `Order.SortForgetsOrder` | app/api/v1/endpoints/stories.py:137 | Sorting under an order that separates the rows gives one result for all arrival orders. |
| `Deck.SaveThenLoadIff` | app/services/carousel.py:148-190 | At row level, a load after a save returns the saved deck at positions 0..n-1 iff the save deleted every row that was there: no other save committed between its load and its commit. |
| `Deck.StoredDeckReloads` | app/services/carousel.py:173-190 | When the table holds exactly the rows a save of a deck built, a load returns that deck at positions 0..n-1, however ties are ordered. |
| `SlidesStore.SlidesModule.constructor` | app/static/js/slides.js:128-142 | Hydration drops a value it cannot read, empty entries and an id that is no number, restores id and cleaned deck from the rest, and starts without a timer. |
| `SlidesStore.SlidesModule.PersistDeck` | app/static/js/slides.js:76-91 | Writes through to storage unless refused, and restarts the debounce iff the deck has an id. |
| `SlidesStore.SlidesModule.Save` | app/static/js/slides.js:95-106 | The timer firing sends the present deck to the present id and changes nothing else. |
| `SlidesStore.SlidesModule.OnSaved` | app/static/js/slides.js:107-114 | A reply stamps the save time only if its carousel is still the one on screen. |
| `SlidesStore.SlidesModule.Load` | app/static/js/slides.js:159-172 | Drops the timer, takes id and cleaned deck together. |
| `SlidesStore.SlidesModule.Clear` | app/static/js/slides.js:174-181 | Empties a non-empty deck and forgets its id; leaves an empty one alone. |
| `SlidesStore.SlidesModule.AddSlide` | app/static/js/slides.js:187-196 | Appends a blank slide unless the deck is at the cap; returns its index. |
| `SlidesStore.SlidesModule.SetSlideText` | app/static/js/slides.js:198-206 | Clips the text, drops the badge, leaves all other slides. |
| `SlidesStore.SlidesModule.RemoveSlide` | app/static/js/slides.js:208-213 | Removes one slide, the one `RemoveShifts` says; `splice` truncates a fraction and takes NaN for 0, and the range guard lets both through. |
| `SlidesStore.SlidesModule.MoveSlide` | app/static/js/slides.js:218-230 | Moves one slide; NaN, fractions, equal or out-of-range indices change nothing. |
| `SlidesStore.RemovesUnnamedIff` | app/static/js/slides.js:208-213 | `remove` deletes a slide its index does not name iff the index is NaN and the deck not empty, or a fraction within range; no caller passes either. |
| `SlidesStore.MoveReads` | app/static/js/slides.js:225-227 | A move puts one slide at its new place and leaves the others in their order. |
| `SlidesStore.RemoveShifts` | app/static/js/slides.js:208-213 | A removal takes out the slide at its place: those before it stay, those behind it move up by one. |
| `SlidesStore.SetTextReads` | app/static/js/slides.js:198-206 | Rewriting slide i leaves the length, every other slide, and the kind, story and card of slide i; its text is the first 120 characters, its badge off. |
| `SlidesStore.AddReads` | app/static/js/slides.js:187-196 | Adding leaves the deck and puts one blank story slide, of no article, behind it. |
| `SlidesStore.MoveShifts` | app/static/js/slides.js:218-230 | A move place by place: the slides between the two places shift by one towards the gap, all others stay. |
| `SlidesStore.EditReachesTheTab` | app/static/js/slides.js:76-91 | An edit that is out of place changes nothing at all; any other puts its deck on screen and, unless refused, in storage, and leaves a save pending iff there is an id. |
| `SlidesStore.LoadReads` | app/static/js/slides.js:159-172 | A load takes id and slides together, texts cut to 120 characters and nothing else changed, with no save pending and no time stamp. |
| `SlidesStore.ReloadSkipsEmptyEntries` | app/static/js/slides.js:128-142 | A page load skips exactly the empty entries of what was stored. |
| `Autosave.SavedMeansAnswered` | app/static/js/slides.js:107-114 | In every run the header says saved iff an answer for the carousel then on screen came, with its time, and no load or reload since. |
| `SlidesStore.EditsUndone` | app/static/js/slides.js:187-230 | Moving back undoes a move; removing the added slide undoes an add. |
| `SlidesStore.EditCounts` | app/static/js/slides.js:187-230 | For any property of a slide that its text and badge do not decide and a blank slide lacks, no edit raises the number of slides with it, and a move keeps it. |
| `SlidesStore.EditKeepsGood` | app/static/js/slides.js:187-230 | No edit takes a deck over ten slides, over two brackets or to a repeated article. |
| `SlidesStore.EditBringsNoArticle` | app/static/js/slides.js:187-230 | No edit brings an article onto a deck. |
| `Autosave.PutsGoWhereTheyBelong` | app/static/js/slides.js:76-172 | In every run of edits, firings, replies, loads, clears and reloads, each PUT to carousel id carries a deck that descends by edits from a load of that id; so do the deck on screen and the copy in storage; a pending timer always has an id. |
| `Autosave.TimerIff` | app/static/js/slides.js:76-91 | In every run a save is pending iff an edit made under a carousel has met no firing, load, page reload or clear of slides since; a pending save always has an id. |
| `Autosave.TraceIsTrue` | app/static/js/slides.js:76-172 | In every run, wherever the trace of an edit says it still is, on screen or in storage, the deck there is the one right after the edit with the later edits replayed, under the same id. |
| `Autosave.EditIsSentIff` | app/static/js/slides.js:76-172 | In every run an edit made under a carousel is carried by some PUT iff the timer fires with no load, page reload or clear of slides since it, or since a later edit of a deck that still had it. |
| `Autosave.SentMeansPut` | app/static/js/slides.js:95-106 | What sent means: the PUT issued at that firing goes to the edit's own carousel and carries the deck right after the edit with the later edits replayed. |
| `Autosave.EditIsLostIff` | app/static/js/slides.js:76-181 | Without page reloads after it, an edit is lost iff a load or a clear of slides comes before every firing. |
| `Autosave.UnownedEditIsNeverSent` | app/static/js/slides.js:86-91 | An edit to a deck that belongs to no carousel, as after a clear, is on no deck ever sent. |
| `Autosave.EveryEditIsCovered` | app/static/js/slides.js:76-119 | From a load on, through edits, firings, replies and clears of an empty deck: the deck is the loaded one with all edits replayed, each PUT is the deck after some number of them, and once an edit went through either a save is pending or the last PUT carries every edit. |
| `Autosave.ReloadDropsTheTimer` | app/static/js/slides.js:128-142 | A concrete run in which a page reload leaves an edit with no save on the way. |
| `Autosave.ReloadMayBringItBack` | app/static/js/slides.js:128-142 | The same run continued: the next edit's save carries it, since storage had it. |
| `Carousels.Endpoints.Record` | app/api/v1/endpoints/carousels.py:97-122 | The loop appends one selection row per story, in order, with the score as shown. |
| `Carousels.Endpoints.CreateCarousel` | app/api/v1/endpoints/carousels.py:143-152 | Up to its first write: validation, lookup, the one-city rule and the deck built; `Admission.CreateGoesAheadIff` says which requests get through and how the others are refused. |
| `Carousels.Endpoints.CommitCarousel` | app/api/v1/endpoints/carousels.py:156-163 | The rest of the transaction: a new carousel with its slide rows at positions 0..n-1, and the selections of its stories. |
| `Carousels.Endpoints.AddStories` | app/api/v1/endpoints/carousels.py:182 | The first segment: the carousel must exist, and the slide rows there now are the ones the request will delete. |
| `Carousels.Endpoints.AddStoriesResolved` | app/api/v1/endpoints/carousels.py:183 | The second: the stories as the tables have them by then, or the refusal; `Admission.AddGoesAheadIff` says which. |
| `Carousels.Endpoints.AddStoriesLoaded` | app/api/v1/endpoints/carousels.py:185-197 | The third, from whatever rows the deck query returned: the stories not on that deck, the cap, and the new slides spliced in before the first closing slide. |
| `Carousels.Endpoints.SaveCarousel` | app/api/v1/endpoints/carousels.py:223 | The first segment of the autosave: body well formed, carousel found, its present rows held for deletion. |
| `Carousels.Endpoints.SaveCarouselChecked` | app/api/v1/endpoints/carousels.py:224-231 | The second: refused iff a named story is unknown. |
| `Carousels.Endpoints.CommitDeck` | app/services/carousel.py:148-170 | The commit of an add or a PUT: exactly the rows held are deleted, the deck goes in at positions 0..n-1, the added stories are recorded; nothing happens if the carousel is gone. |
| `Carousels.Endpoints.DeleteCarousel` | app/api/v1/endpoints/carousels.py:262-270 | The carousel goes; its selections stay and lose only the link. |
| `Carousels.Endpoints.ZipSlides` | app/api/v1/endpoints/carousels.py:273-330 | The downloaded stamp is set iff every image decodes, no running total exceeds the cap and the carousel exists; otherwise nothing changes. |
| `Admission.CreateGoesAheadIff` | app/api/v1/endpoints/carousels.py:75-152 | From ids and tables alone: create goes ahead iff the request is well formed, asks for at most eight different stories, at least one is known and all known ones are from one city; each of the four refusals is given exactly when its condition is the first to fail. Unknown ids do not stand in the way. |
| `Admission.AddGoesAheadIff` | app/api/v1/endpoints/carousels.py:75-193 | The lookup of an add succeeds iff it asks for at most eight different stories and knows one; the load is accepted iff the story slides on the deck and the known ids not on it come to at most eight; each refusal in its own case. |
| `Admission.PutGoesAheadIff` | app/api/v1/endpoints/carousels.py:223-231 | A PUT is ready to commit its own body iff the body is well formed, the carousel is there and every story it names exists; each refusal in its own case. |
| `Admission.BracketsNameTheCityAndTheNewest` | app/services/carousel.py:98-145 | The intro of a new deck carries the city of the known stories and the date of the newest of them, the closing slide the city. |
| `Admission.MissingIsReportedInOrder` | app/services/carousel.py:69-94 | `missing_ids` are the ids with no article, each once, in the order first asked for. |
| `Admission.DeleteReads` | app/api/v1/endpoints/carousels.py:262-270 | A delete takes exactly that carousel and unlinks exactly its picks. |
| `Admission.ZipStampsIff` | app/api/v1/endpoints/carousels.py:273-330 | A download stamps exactly its carousel, exactly when every image decodes, there are 1 to 10 of them and their sizes sum to no more than the cap. |
| `Carousels.LoadReturnsTheDeck` | app/services/carousel.py:173-210 | What loading hands out, written back, is the stored deck: only the card is looked up. |
| `Carousels.ResolvedOnce` | app/services/carousel.py:45-94 | A lookup yields each known requested id exactly once and nothing else, between one and eight stories. |
| `Carousels.BuiltDeckIsGood` | app/api/v1/endpoints/carousels.py:150-152 | A built deck has its stories and two brackets, no article twice, at most ten slides. |
| `Carousels.InsertKeepsGood` | app/api/v1/endpoints/carousels.py:185-199 | Adding under the story cap keeps a good deck good. |
| `Carousels.InsertedArticles` | app/api/v1/endpoints/carousels.py:195-197 | Splicing in stories adds exactly their articles, each as often as given. |
| `DeckContents.CreatedDeckReads` | app/api/v1/endpoints/carousels.py:143-165 | Whatever happens between the lookup and the commit, a created deck is an intro, every known requested story once, best first under the engagement order, each with its own clipped title, and a closing slide; it belongs to the one city of its stories; unknown ids are reported; each story has its own new selection row with the score as shown. |
| `DeckContents.AddedDeckReads` | app/api/v1/endpoints/carousels.py:182-203 | The deck an add will commit keeps the loaded slides and their order and has exactly the known requested stories that were not there in front of the first closing slide, best first; exactly those will be recorded. |
| `DeckContents.CommitSaveReads` | app/api/v1/endpoints/carousels.py:199-201 | A commit changes that carousel's rows and the log and nothing else; left alone, it stores exactly its deck. |
| `DeckContents.LoadedCards` | app/services/carousel.py:174-208 | A loaded slide is as stored, beside it what the tables say now about its article: outlet, link, category, and the score iff it is rated; without an article the card is empty. |
| `DeckSafety.DecksStaySound` | app/services/carousel.py:160-190 | Over every run of several tabs, stale and repeated PUTs, late replies and overlapping requests in which no save of a carousel leaves rows behind: a load returns the deck last saved, at positions 0..n-1, and that deck and every one on screen, in storage or in flight under the id has at most ten slides, two brackets and no article twice. |
| `DeckSafety.NoOverlapIsUndisturbed` | app/api/v1/endpoints/carousels.py:182-233 | That condition holds whenever no two requests that write to the carousel are in progress at once. |
| `DeckSafety.CommitReloadsIff` | app/services/carousel.py:148-190 | After a save has committed, a load returns the deck saved at positions 0..n-1 iff the save deleted every row that was there. |
| `DeckSafety.CommittedSize` | app/services/carousel.py:160-169 | The deck then has as many slides as were saved and left together. |
| `DeckSafety.OverlappingSavesBothLand` | app/services/carousel.py:160-170 | Two saves that loaded the same rows leave both decks in the table, over the cap when they are longer together. |
| `DeckSafety.OverlapsHappen` | app/api/v1/endpoints/carousels.py:223-233 | Any two saves of one carousel that the server accepts can overlap so. |
| `RoundTrip.PutIsStored` | app/api/v1/endpoints/carousels.py:223-240 | A PUT left alone, from the request to its answer, stores exactly its body, picks nothing and touches no other carousel. |
| `RoundTrip.StoredDeckIsShown` | app/services/carousel.py:174-208 | Whoever opens a stored deck, however the database orders ties, has it on the canvas slide for slide under its id, texts cut to the box, with no save pending. |
| `RoundTrip.SavedDeckComesBack` | app/static/js/slides.js:95-172 | The deck of one tab, saved and opened in any tab, is that deck again. |
| `RoundTrip.CreateIsStored` | app/api/v1/endpoints/carousels.py:143-163 | A create left alone makes exactly one carousel, under the next id, that holds the deck it built, iff ids and tables admit it; otherwise it is refused and nothing changes. |
| `RoundTrip.AddIsStored` | app/api/v1/endpoints/carousels.py:182-202 | An add left alone stores the deck it was shown with the new stories spliced in, iff ids, tables and deck admit it; otherwise it is refused and nothing changes. |
| `RoundTrip.RatingsReachSavedDecks` | app/services/carousel.py:174-208 | A deck saved before its article was rated and before the weights were changed shows, when opened, the new category and the score under the new weights, on the same slides. |
| `RoundTrip.ArrivedStoriesStay` | app/services/ingest.py:301-309 | Over any run a story that has arrived can be picked from then on, and keeps the headline, link, dates and source the table had first under its id. |
| `DeckSafety.RowsStay` | app/api/v1/endpoints/carousels.py:125-270 | A carousel's rows change only by its own create, save or delete. |
| `Evidence.EvidenceCoversDecks` | app/api/v1/endpoints/carousels.py:97-122 | Over every run, overlapping writes included: while a carousel exists, every article in its rows, on screen, in storage or in flight under its id has a selection row for it. |
| `Evidence.SelectionLogStep` | app/api/v1/endpoints/carousels.py:156-163 | Only the commit of a create or an add appends, one row per story it puts on the deck; only delete touches existing rows, and only unlinks; a PUT writes none. |
| `Evidence.EvidenceIsAppendOnly` | app/db/models/selection.py:37-82 | Over any run, articles being rated again and weights changing meanwhile, no selection row is lost and none changes anything but its link, which can only become empty. |
| `Evidence.OnlyAZipDownloads` | app/api/v1/endpoints/carousels.py:320-323 | A draft becomes a download exactly through a zip of that very carousel, of 1 to 10 images that all decode and fit the cap. |
| `Evidence.DownloadedStaysDownloaded` | app/api/v1/endpoints/carousels.py:213-217 | Over any run an id is never reopened, and a downloaded carousel never turns back into a draft. |
| `SlideCanvas.Wrap` | app/static/js/slide-canvas.js:53-73 | The two loops draw, paragraph after paragraph, the greedy layout `Fill`; what that is on the slide is `TextIsDrawnInBlocks`. |
| `SlideCanvas.WrapWords` | app/static/js/slide-canvas.js:61-70 | The inner loop adds exactly the lines of the paragraph's greedy layout. |
| `SlideCanvas.FillIsALayout` | app/static/js/slide-canvas.js:61-70 | The greedy layout keeps every word in order, has no empty line, and every line of two or more words fits. |
| `SlideCanvas.StaysAhead` | app/static/js/slide-canvas.js:61-70 | Started at or after the point another layout has reached, greedy needs no more lines than that layout has left. |
| `SlideCanvas.WrapIsOptimal` | app/static/js/slide-canvas.js:53-73 | For any measure under which a part of a text is never wider than the text, no split whose lines of two or more words fit uses fewer lines. |
| `SlideCanvas.OddMeasuresDefeatGreedy` | app/static/js/slide-canvas.js:64 | A measure without that property for which greedy uses three lines where one would do. |
| `SlideCanvas.WrapKeepsWords` | app/static/js/slide-canvas.js:56-70 | The words of the drawn lines are the words of the paragraph. |
| `SlideCanvas.SlideShowsTheText` | app/static/js/slide-canvas.js:53-73 | The words drawn for a whole text, newlines included, are exactly its words, in order. |
| `SlideCanvas.TextIsDrawnInBlocks` | app/static/js/slide-canvas.js:53-73 | The lines split into one non-empty block per newline-free piece of the text, in order. A block with words is a layout of that piece's words in which no line has room for the next word, and no layout is shorter under the sub-run hypothesis; a piece without words is exactly one empty line. |
| `SlideCanvas.JoinDetermines` | app/static/js/slide-canvas.js:55 | The newline-free pieces whose join by newlines is the text are determined by the text. |
| `Session.Api.RefreshSession` | app/static/js/api.js:40-48 | Starts a refresh only if none is in flight and returns the one to wait for. |
| `Session.Api.OnResponse` | app/static/js/api.js:62-69 | A first answer ends the call, or on a 401 outside `/auth/` makes it wait for the shared refresh, as `SessionAnswers.UnauthorizedCallsJoin` says for every run. |
| `Session.Api.OnRefreshed` | app/static/js/api.js:41-46 | The answer of a refresh, network error included, settles it and clears the shared variable. |
| `Session.Api.OnRefreshResult` | app/static/js/api.js:69-70 | After the awaited refresh the call is sent once more, or ends announced. |
| `Session.Api.OnRetryResponse` | app/static/js/api.js:69-70 | The second answer ends the call, announced iff it is a 401. |
| `Session.AtMostOneRefresh` | app/static/js/api.js:38-48 | In every run at most one refresh is in flight, `refreshing` says which, and there are no more refreshes than calls that waited for one. |
| `Session.EachRequestAtMostTwice` | app/static/js/api.js:54-71 | In every run a call is on the wire once, or twice exactly when the refresh it waited for came back good; logged-out is announced exactly once for a call whose final answer is 401 and never for another or for `/auth/`. |
| `Session.ConcurrentCallsShareOneRefresh` | app/static/js/api.js:33-48 | Until a refresh settles, whatever else happens, no other is sent and no call joins another. |
| `SessionAnswers.UnauthorizedCallsJoin` | app/static/js/api.js:40-69 | In every run, a call outside `/auth/` whose first answer is 401 waits from then on for the refresh in flight, or for a new one sent there and then if none is. |
| `SessionAnswers.EveryoneWaitsForOneRefresh` | app/static/js/api.js:33-69 | While a refresh is in flight, every call outside `/auth/` that is told 401 for the first time waits for that one, and no other is sent. |
| `SessionAnswers.CallsEndAsAnswered` | app/static/js/api.js:62-71 | In every run a call is rejected iff its last answer was a network error; when it is done its code is that of its last answer, which is 401 when the refresh was refused; a second answer comes only after a 401 outside `/auth/` and a good refresh; and a call is over once that answer is final. |
| `SessionAnswers.RefreshesEndAsAnswered` | app/static/js/api.js:41-46 | A refresh counts as good iff its answer was in the 200s. |
| `Session.NothingLoops` | app/static/js/api.js:62-71 | Each call accounts for at most five turns of the event loop, whatever the answers, even when all are 401. |
| `Session.NobodyIsStuck` | app/static/js/api.js:40-71 | A call that is not over always has an event coming that moves it on: it never waits for a lost refresh. |

## Left out

- Ingest: parsing a feed, building the other article columns and parsing HTTP headers; an entry is its article key, or nothing when `_normalize_entry` gave none. An exception is an input saying how many entries had been looked at.
- Scheduler.LedgerConservation: an insert and its commit are one atomic step; a commit that takes effect and still raises is not modelled. The sum also counts outcomes of calls that later fail before returning them.
- Scheduler: the wait between ticks, the semaphore and the client; fetching yields arbitrary attempts.
- Polling.PollingCadence: needs ticks and refreshes of one source not to overlap, because bookkeeping is last-writer-wins; times are integers in one unit, and a tick's clock is read no later than its attempts.
- DedupeKey.SameKeyIff: takes as given that writing out the two canonical URLs keeps them apart; splitting and writing URLs, and SHA-256, are not modelled. `DedupeKey.PreimageIsAPair` needs nothing of the sort.
- DedupeKey: `str.lower` on parameter names is ASCII lower case, which agrees on membership in the tracking list; case folding is a table per character that yields no newline.
- Text: the Unicode tables (whitespace, categories beginning with C) are parameters, with what the code relies on about six characters; one character type stands for code points and for UTF-16 units.
- Rank: exact reals stand for floats, also in the rounding; the count of reachable scores is not proved.
- Llm.Complete: replies, validation failures and exceptions are an arbitrary sequence; tokens, latency and the pause between attempts are not modelled.
- Classifier.AttemptsAreBounded: passes do not overlap, as there is one classifier loop; a pass that dies before its write counts nobody.
- Starvation.NoStarvation: later arrivals are stamped later than the article, and it stays inside the window throughout.
- Feed.LoadAll: the rows and the window do not change between the requests, and no request fails. `carousel_state`, the display city and the other card fields are not modelled.
- Carousels: a request reads at its awaits and commits in one step, as the database's row lock on the carousel makes it; creating takes its id at the commit. A delete and the stamp of a download are one step each. The caps have their configured values (8 stories, 10 slides, 120 characters), which slides.js repeats as constants. Timestamps are reduced to whether a carousel was downloaded. Image sizes are decoded sizes.
- DeckSafety.DecksStaySound: PUT bodies are those slides.js sends; a hand-made body can hold ten stories. Articles are never deleted, and their headline and source never change. Decks may hold stories of other cities after an add, as in the code.
- Autosave.EveryEditIsCovered: a PUT that fails is not sent again until the next edit; the lemma is about what was sent.
- SlidesStore: listeners and notices are not modelled; a stored entry that is present has fields of the right types.
- SlideCanvas: `measureText` is any function of the text; drawing is not modelled.
- Session: request bodies, headers and turning the final answer into a value or an error; a refused fetch ends the call without an announcement, as in the code.
- app/core/net.py, city and source administration, sign-in, migrations, sensitivity rules, images, the gallery and its states, tray order in selection.js, and all rendering: no hard property, or a library's.
