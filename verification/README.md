# Verified models of the tg-spam engines

tg-spam is a Telegram anti-spam bot. Around its Telegram and SQL plumbing sit a few small
stateful engines whose results should match a simple mathematical description. This project
models them in Dafny and proves that they do, over whole runs:

- **Duplicate detector** (`DuplicateSpec`, `DuplicateRuns`, `DuplicateDetection`): the list of recent
  messages of each user with its derived index, through expiry, edits, caps and clean-ups, against a
  sliding window over the whole message history.
- **Naive Bayes classifier** (`ClassifierSpec`, `Classification`, `Samples`, `Posteriors`, `ClassifierRuns`): nested
  count maps that stand for a multiset of documents, learned and unlearned in place; scoring,
  softmax and the smoothed estimates over reals.
- **Cosine similarity** (`Sums`, `Similarity`): the Cauchy-Schwarz inequality for token counts.
- **Detector decisions** (`DetectorSpec`, `Detection`): the order of the checks, the consensus of the
  language models, and the count that approves a user.
- **Reaction counter** (`Reactions`): what a fixed window guarantees about runs.
- **User reports** (`ReportTable`, `ReportProtocol`, `ReportNotices`, `UserReporting`, `ReportRuns`): the rows
  of the reports table, the steps of reporting, notifying, banning and rejecting, and what becomes
  of a notice over whole runs.
- **Callback payloads** (`Callbacks`, `Decimals`): printing, parsing and routing inline buttons.
- **COPY export** (`CopyFormat`): the row writer, undone by a reader of the PostgreSQL text format
  (section "File Formats", "Text Format", of the PostgreSQL documentation of COPY).
- **Logs** (`Logs`): pruned warnings and the capped list of recent users.

Code that updates state in place is a class or a method with loops, proved against functions on
values; what the source promises is then proved about those functions. Clocks are parameters: each
operation takes its `now`, and the clock never goes back (for stored reports it moves forward
strictly, since the database leaves the order of equal times open). What databases, Telegram and the
language models answer is a parameter, too. Mutexes are left out: a locked operation is one step.

Some expectations turned out not to hold of the code. They are kept as they are, each with the exact
condition under which the code does meet it and with a run, or an input, that shows it fail:

| expectation | holds exactly when | fails |
|---|---|---|
| a flag on a message without an ID asks to delete the copies that have one | `NoIDLosesNewestCopy` | `NoIDLosesNewestCopyExample` |
| `n` reactions within a window include a flagged one | `n >= Enough(threshold)`: `BurstIsFlagged` | `EnoughIsLeast` |
| `unlearn` leaves all priors fresh | `StalePriors` | `StalePriorsRun` |
| a failing `unlearn` changes nothing | `RemoveSample` | `FailedUnlearnRun` |
| only learned messages can be unlearned, and relearned without a loss | `UnlearnableExactly`, `RemoveThenAdd` | `CoincidenceRun` |
| learning and unlearning leave the same frequency map | `SameFrequencies` | `ZeroDenominatorRun` |
| `classify` never divides by zero | `ScorableExactly` | `ZeroDenominatorRun`, `InfinitePriorRun` |
| `Check` and `IsApprovedUser` agree on who is approved | `GatesDisagree`, for any counts and configuration | `GatesDisagreeRun` |
| a user becomes approved by good messages | `ApprovedByVetoes` | `GatesDisagreeRun` |
| the first report tells whether any is notified, even with equal times | `FirstTellsExactly` | `EqualTimesRun` |
| a further report updates the open notice | `NewNoticeExactly` | `SecondNoticeRun` |
| banning a reporter spares the other reports | `OthersSurvive` | `OthersLostRun` |
| a report that was stored is live | `RepeatedReportLives` | `VanishedReportRun` |
| a payload without prefix parses back, and unbans | `BareParsesBack`, `BareReachesUnban` | `UnbanBecomesReject` |

## Model

| member | source | states |
|---|---|---|
| DuplicateRuns.RunSound | lib/tgspam/duplicate.go:130-216 | over any mix of posts and edits with a non-decreasing clock, a user's list is within its cap, time-ordered, and no positive message ID occurs twice in it |
| DuplicateRuns.RetainedContentIsLatest | lib/tgspam/duplicate.go:133-155 | a retained positive ID carries the content most recently posted under it |
| DuplicateRuns.LatestContentIsRetained | lib/tgspam/duplicate.go:130-196 | the converse: over any mix of posts and edits, the entry of a message is retained as long as it is inside the window, no later message gave its ID another content, and fewer than `maxEntries` messages were appended after it |
| DuplicateRuns.RecheckChangesNothing | lib/tgspam/duplicate.go:83-85 | re-checking a live message under its ID and content never flags, and leaves exactly the live part of the list |
| DuplicateRuns.WindowExact | lib/tgspam/duplicate.go:130-196 | without edits the list equals the newest `maxEntries` of all messages ever checked that are inside the window |
| DuplicateRuns.WindowPositions | lib/tgspam/duplicate.go:130-196 | position by position: the list is the log from the first message on that is both among the newest `maxEntries` and inside the window |
| DuplicateRuns.FlaggedExactly | lib/tgspam/duplicate.go:66-98 | so a message is flagged exactly when, of the newest `maxEntries` messages ever checked, itself included, at least `threshold` are inside the window and have its content |
| DuplicateRuns.FlaggedMeans | lib/tgspam/duplicate.go:66-98 | with edits, too: flagged is a message that repeats no live entry of its own ID and content, when `threshold` entries of the list after it have its content |
| DuplicateRuns.CleanUpTransparent | lib/tgspam/duplicate.go:110-114 | clean-ups at any points of a run leave the live part of every later list unchanged |
| DuplicateRuns.CleanUpChangesNoVerdict | lib/tgspam/duplicate.go:331-354 | every later list, edit verdict and flag is that of the run without clean-ups |
| DuplicateRuns.ExpiredMeansDead | lib/tgspam/duplicate.go:216-217 | a list not stored for `2 * window` holds nothing live, so losing it to the cache loses nothing |
| DuplicateRuns.ExtraIDsAreOtherCopies | lib/tgspam/duplicate.go:201-211 | a flag on a positive ID asks to delete the other retained copies, in order, the newest 99 of them if there are more, none twice, never the message itself |
| DuplicateRuns.OtherIDsMean | lib/tgspam/duplicate.go:201-211 | the other copies are the entries with the same content and another positive ID, in the order of the list |
| DuplicateRuns.ThreePostsExample | lib/tgspam/duplicate.go:178-211 | a text posted three times, flagged at threshold 3 and not at 4: the first two posts are asked for |
| DuplicateRuns.NoIDLosesNewestCopy | lib/tgspam/duplicate.go:204-207 | without a positive ID the newest copy is dropped from the deletion list: it is complete exactly when there is no copy with an ID |
| DuplicateRuns.NoIDLosesNewestCopyExample | lib/tgspam/duplicate.go:204-207 | a run of two posts of one text, the second without an ID: flagged at threshold 2, and the first post is not asked for |
| DuplicateSpec.LiveLive | lib/tgspam/duplicate.go:223-231 | filtering at one cutoff and then at a later one equals filtering at the later one |
| DuplicateSpec.IDsUniqueMeans | lib/tgspam/duplicate.go:133-134 | the recursive definition of unique IDs, read index by index |
| DuplicateSpec.LiveMeans | lib/tgspam/duplicate.go:223-231 | in a time-ordered list the entries newer than the cutoff are those from some position on |
| DuplicateSpec.CountOfMeans | lib/tgspam/duplicate.go:170-198 | a count is the number of positions with that hash |
| DuplicateSpec.IDsOfMeans | lib/tgspam/duplicate.go:177-185 | the IDs of a hash are those of its positions with a positive ID, in their order |
| DuplicateSpec.FirstTimeMeans | lib/tgspam/duplicate.go:186-193 | the first time of a hash is that of its first position |
| DuplicateSpec.IsEditMeans | lib/tgspam/duplicate.go:157-168 | an edit is a message with a positive ID for which an entry inside the window has that ID and its content |
| DuplicateDetection.RemoveMessageID | lib/tgspam/duplicate.go:250-259 | removes the first occurrence of the ID, and nothing else |
| DuplicateDetection.FilterExpiredEntries | lib/tgspam/duplicate.go:222-248 | keeps exactly the live entries and builds the index that agrees with them: counts, ID lists in order, first and last times |
| DuplicateDetection.DropOldContent | lib/tgspam/duplicate.go:133-155 | takes the old content of an edited message out of list and index |
| DuplicateDetection.FindEdit | lib/tgspam/duplicate.go:157-168 | whether a live entry carries this ID with this content |
| DuplicateDetection.CountMessage | lib/tgspam/duplicate.go:170-193 | counts a message that is no edit, caps its IDs and dates its tracker |
| DuplicateDetection.LimitEntries | lib/tgspam/duplicate.go:262-300 | keeps the newest entries, and an index that agrees with them |
| DuplicateDetection.UpdateHistory | lib/tgspam/duplicate.go:130-214 | one message turns list and index into those of the specification, and the count, IDs and edit verdict are those of the new list |
| DuplicateDetection.DuplicateDetector.constructor | lib/tgspam/duplicate.go:47-63 | starts with nothing tracked, and keeps 200 messages a user |
| DuplicateDetection.DuplicateDetector.TrackMessage | lib/tgspam/duplicate.go:101-220 | with the cache's time limit and periodic clean-ups, the stored list is that of the user's whole log, and the index agrees with it, and a clean-up is due ten minutes after the last one |
| DuplicateDetection.DuplicateDetector.Check | lib/tgspam/duplicate.go:66-98 | the response to every request is the one that the user's whole log determines; requests that are not counted change no log |
| DuplicateDetection.DuplicateDetector.PerformCleanup | lib/tgspam/duplicate.go:331-354 | every unexpired history is filtered and re-indexed, or dropped when empty, and the detector still stands for the same logs |
| DuplicateDetection.DuplicateDetector.EvictExpired | lib/tgspam/duplicate.go:58 | the cache may drop an expired item at any time without affecting what the detector stands for |
| DuplicateDetection.DuplicateDetector.FormatDuration | lib/tgspam/duplicate.go:308-328 | the window for a user or text that is not tracked, or no longer because the item has expired; otherwise the span of its tracker, rendered |
| DuplicateDetection.RenderedMeans | lib/tgspam/duplicate.go:318-328 | a span of 0 is "instantly", any other one is rendered to the nearest second, halves away from zero |
| DuplicateDetection.SpanMeans | lib/tgspam/duplicate.go:308-320 | the span of a message is the time since the first entry with its content |
| DuplicateDetection.BlankMeans | lib/tgspam/duplicate.go:71-73 | a message is skipped when it is white space of Unicode throughout |
| DuplicateDetection.HashesCountTexts | lib/tgspam/duplicate.go:303-305 | counting hashes counts texts, as long as none of the other texts at hand has the digest of the one counted |
| Reactions.CountsSince | lib/tgspam/reaction.go:42-60 | the counter counts the reactions since some one of them, all within a window of it |
| Reactions.WindowStarts | lib/tgspam/reaction.go:50-60 | that one is the first reaction after the end of the window before, if there was one |
| Reactions.FlagIsJustified | lib/tgspam/reaction.go:62-68 | a flag implies at least `threshold` reactions in one span of length `window` ending with it |
| Reactions.BurstIsFlagged | lib/tgspam/reaction.go:50-62 | any `2 * threshold - 2` reactions (one, for threshold 1) within a span of length `window` include a flagged one |
| Reactions.EnoughIsLeast | lib/tgspam/reaction.go:50-62 | for every threshold above one and every window, a run with one reaction fewer in a short span flags nobody |
| Reactions.ReactionDetector.Record | lib/tgspam/reaction.go:42-72 | the answer is the one that all the user's reactions determine, whatever the cache dropped |
| Reactions.ReactionDetector.EvictExpired | lib/tgspam/reaction.go:35 | dropping an expired counter changes no later answer |
| ClassifierSpec.TallyPermutation | lib/tgspam/classifier.go:54-75 | the counts do not depend on the order of the documents |
| ClassifierSpec.DocumentsCounted | lib/tgspam/classifier.go:57-69 | the counts are the number of documents of a class, and the number of those that have a token |
| ClassifierSpec.LearnRepresents | lib/tgspam/classifier.go:54-75 | learning adds its documents to those that the tables represent |
| ClassifierSpec.LearnedCanBeUnlearned | lib/tgspam/classifier.go:78-102 | documents contained in the represented multiset can always be unlearned |
| ClassifierSpec.UnlearnRepresents | lib/tgspam/classifier.go:78-125 | and then the tables represent the difference |
| ClassifierSpec.TablesAreUnique | lib/tgspam/classifier.go:54-125 | tables representing equal multisets have equal counts |
| ClassifierSpec.AddThenRemove | lib/tgspam/classifier.go:54-125 | learning and then unlearning is the identity on the counts |
| ClassifierSpec.RemoveThenAdd | lib/tgspam/classifier.go:54-125 | unlearning and then relearning is the identity exactly when no class is emptied with frequency left over |
| ClassifierSpec.RemoveThenAddLearned | lib/tgspam/classifier.go:113-117 | which cannot happen for documents that were really learned |
| Classification.RemoveDuplicate | lib/tgspam/classifier.go:170-182 | the different tokens, each once |
| Classification.Classifier.constructor | lib/tgspam/classifier.go:44-51 | represents no documents |
| Classification.Classifier.Reset | lib/tgspam/classifier.go:128-134 | represents no documents, whatever it did before |
| Classification.Classifier.LearnOne | lib/tgspam/classifier.go:57-69 | one document adds one to its class, to each of its different tokens, and their number to the frequency |
| Classification.Classifier.Learn | lib/tgspam/classifier.go:54-75 | adds the counts of all the documents, and leaves every known class with the prior `n_class / N`, from any state; tables without empty entries stay so |
| Classification.Classifier.UncountToken | lib/tgspam/classifier.go:94-110 | takes one occurrence away, with the empty entries, or says which count is missing and leaves the tokens alone |
| Classification.Classifier.UncountTokens | lib/tgspam/classifier.go:91-111 | succeeds exactly when all token counts of a document are there; otherwise a proper part of them is gone, and as much of the frequency, or one more |
| Classification.Classifier.UnlearnOne | lib/tgspam/classifier.go:86-121 | succeeds exactly when all counts of the document are there, and then takes them away |
| Classification.Classifier.Unlearn | lib/tgspam/classifier.go:78-125 | succeeds exactly when the counts last for all the documents, and then takes them away and refreshes the priors of their classes only; a failing call leaves the number of documents reduced, the documents before some one gone, and that one's round half done |
| ClassifierSpec.SameFrequencies | lib/tgspam/classifier.go:62-117 | learning and unlearning leave the very same frequency map exactly when they touch no class that had documents but no token |
| Classification.StalePriors | lib/tgspam/classifier.go:118-121 | after unlearning, the priors are fresh exactly when every remaining class was touched |
| Samples.SamplesModel.LoadSamples | lib/tgspam/detector.go:718-758 | whatever was there before, the exclusions are the loaded ones in lower case, the classifier represents exactly the loaded samples tokenized with them, with fresh priors, and the result counts them all |
| Samples.LoadedCounts | lib/tgspam/detector.go:718-758 | so each class has as many documents as lines were loaded for it, and each token as many as there are lines with it once the exclusions are left out |
| Samples.SamplesModel.UpdateSample | lib/tgspam/detector.go:794-818 | a stored sample is remembered; a missing or failing store changes nothing |
| Samples.SamplesModel.RemoveSample | lib/tgspam/detector.go:821-842 | a removed sample is forgotten; a failing unlearning leaves the tables unchanged exactly when the sample has more lines than there are documents, and otherwise half done; when the store fails after the unlearning, relearning restores the counts exactly when no frequency was lost, and always for samples that were really learned |
| Samples.RelearnRestores | lib/tgspam/detector.go:835-840 | the law behind that, for any tables and documents |
| Samples.UnlearnedByCoincidence | lib/tgspam/detector.go:829-833 | a message that was never learned can be unlearned, losing the frequency of another token |
| Samples.UnlearnableExactly | lib/tgspam/classifier.go:78-111 | from tables of known documents, unlearning succeeds exactly when no class is asked for more documents, and no token of a class for more occurrences, than the known documents have; neither the frequencies nor the number of documents ever stand in the way |
| Samples.UnlearnableDocument | lib/tgspam/classifier.go:78-111 | so one document can be unlearned exactly when some known document has its class, and each of its tokens occurs in some known document of that class, together or not |
| ClassifierRuns.StalePriorsRun | lib/tgspam/classifier.go:118-121 | one ham and one spam learned, the ham unlearned: the prior of spam is still 1/2 |
| ClassifierRuns.FailedUnlearnRun | lib/tgspam/classifier.go:83-101 | a ham learned and another one unlearned in vain: the tables then stand for no documents at all |
| ClassifierRuns.CoincidenceRun | lib/tgspam/classifier.go:93-111 | a part of a learned ham unlearned: that succeeds, and leaves a token in tables of no documents |
| ClassifierRuns.InfinitePriorRun | lib/tgspam/classifier.go:83-121 | two hams learned, two unlearned, the second one in vain: the first one has left the prior log(1/0), and the tables, with a vocabulary, cannot be scored |
| ClassifierRuns.ZeroDenominatorRun | lib/tgspam/classifier.go:143-148 | a ham without tokens learned, another one learned and unlearned: a frequency entry of 0 that was not there before, without a vocabulary, so that classify divides by zero |
| ClassifierRuns.BuyIsSpamRun | lib/tgspam/classifier.go:137-168 | a spam and a ham with a token each learned, and the token of the spam checked: spam for certain, with the share that log 2/3 has against log 1/3 |
| Posteriors.Softmax | lib/tgspam/classifier.go:185-238 | computes the exponentials relative to the maximum as shares of their sum |
| Posteriors.SoftmaxIsDistribution | lib/tgspam/classifier.go:185-238 | the values are positive, at most 1, add up to 1 and are ordered like the scores |
| Posteriors.PosteriorProbabilities | lib/tgspam/classifier.go:137-148 | the score of a class is its log prior plus the log estimates of the different tokens |
| Posteriors.ScoresExactly | lib/tgspam/classifier.go:137-148 | in terms of the documents: exactly the classes with documents are scored, by the logarithm of their share of the documents, and, for each different token, that of its number of documents in the class plus 1 by the frequency of the class plus the size of the vocabulary |
| Posteriors.VocabularyKnown | lib/tgspam/classifier.go:61-68 | the vocabulary is the set of the tokens of the documents |
| Posteriors.SoftmaxIsShare | lib/tgspam/classifier.go:209-237 | each value is the share of its exponential, a function of the scores alone |
| Posteriors.ShareExactly | lib/tgspam/classifier.go:198-237 | a share is the exponential of the score, relative to the largest one, by the sum of all of them |
| Posteriors.ShareOfTwo | lib/tgspam/classifier.go:198-237 | with two classes that is one exponential by the sum of two |
| Posteriors.ShareAlone | lib/tgspam/classifier.go:198-237 | a class alone has all of it |
| Posteriors.FindBest | lib/tgspam/classifier.go:152-164 | in any visiting order finds a maximum, `certain` exactly when a single class attains it |
| Posteriors.Classify | lib/tgspam/classifier.go:137-168 | the best class has the highest score, is certain exactly when no other class shares it, and comes with 100 times its share |
| Posteriors.IsSpamClassified | lib/tgspam/detector.go:1024-1033 | spam exactly when spam outscores ham and 100 times its own share reaches the minimum |
| Posteriors.CountedTwice | lib/tgspam/classifier.go:57-69 | the documents of each token, summed over the vocabulary, are the tokens of each document, summed over the documents |
| Posteriors.SmoothedSum | lib/tgspam/classifier.go:143-148 | over the vocabulary, `count + 1` adds up to the common denominator: the estimates form a distribution |
| Posteriors.EstimatesInUnit | lib/tgspam/classifier.go:143-148 | with a vocabulary every estimate is in (0,1], known token or not; without one the denominators are zero |
| Posteriors.ScorableExactly | lib/tgspam/classifier.go:138-148 | in tables without negative counts, as every operation leaves them, no logarithm divides by zero exactly when no prior does and there is a vocabulary, or else no frequency of 0; in tables that represent documents, with priors fresh or not, when no prior does and there is a vocabulary, or else no class with a frequency |
| Posteriors.PriorsStayDefined | lib/tgspam/classifier.go:71-121 | learning, and unlearning that succeeds, keep the denominators of all priors positive, whatever documents they are about, as long as the documents of the two classes are all the documents, which both keep, too |
| Similarity.CauchySchwarz | lib/tgspam/detector.go:911-933 | the square of the dot product is at most the product of the norms, for all maps of counts, and the dot product is symmetric |
| Similarity.EqualityMeansProportional | lib/tgspam/detector.go:911-933 | with equality exactly for proportional maps |
| Similarity.CosineRange | lib/tgspam/detector.go:911-933 | the similarity is symmetric, in [0,1], and 1 exactly for proportional non-empty maps |
| Similarity.CosineSimilarity | lib/tgspam/detector.go:911-933 | the loops compute that similarity, in any order of the tokens |
| Similarity.CosineExactly | lib/tgspam/detector.go:911-933 | which is the sum of the products of the counts of the common tokens, by the roots of the two sums of squares |
| Similarity.CosineExample | lib/tgspam/detector.go:911-933 | "buy buy now" and "buy": two by the root of five |
| Similarity.IsSpamSimilarityHigh | lib/tgspam/detector.go:891-908 | flags exactly when some sample reaches the threshold |
| Similarity.CopyHasSimilarityOne | lib/tgspam/detector.go:911-933 | a copy and every multiple of a sample have similarity 1 |
| DetectorSpec.FlippedExactly | lib/tgspam/detector.go:352-387 | the models change the base verdict exactly when one that answered may and disagrees (with "all": every one asked): spam becomes ham only through a veto model, ham becomes spam only through a model without veto or one for short messages |
| DetectorSpec.FailureIsAgreement | lib/tgspam/detector.go:458-463 | a failed model counts as agreeing with the other checks; in mode "all" it blocks every change of the verdict |
| DetectorSpec.FailureIsAbsenceInAny | lib/tgspam/detector.go:479-486 | in mode "any" the verdict is that without the failed model |
| DetectorSpec.SpamHasAReason | lib/tgspam/detector.go:234-413 | every spam verdict comes with a response that says spam |
| DetectorSpec.StagesExactly | lib/tgspam/detector.go:234-413 | which stage a message reaches, and its verdict before the models: approved users pass unless they repeat themselves, a flood takes `MaxShortMsgCount` messages beyond the approved ones, a short message is judged at once when a check calls it spam or no model may look at it |
| DetectorSpec.ResponsesExactly | lib/tgspam/detector.go:234-413 | the responses of each stage, in their order, with the answers of exactly the models that were asked |
| DetectorSpec.EligibleMeans | lib/tgspam/detector.go:422-427 | short messages are for the models that check them, spam for those with a veto and ham for those without |
| DetectorSpec.OtherIDsConcat | lib/tgspam/detector.go:1092-1101 | the messages to delete with a flood keep the order of the list |
| Detection.CollectLLMChecks | lib/tgspam/detector.go:377-384 | asks exactly the eligible models, in their order, and marks those that answered and disagreed |
| Detection.ApplyLLMConsensus | lib/tgspam/detector.go:466-487 | the verdict flips exactly when one mark (or, with "all", every mark of at least one) says so |
| Detection.Detector.constructor | lib/tgspam/detector.go:207-231 | votes by "any" unless told "all", limits the checks to the first messages when their number is positive, takes 1 for a missing number, and approves nobody |
| Detection.Detector.IsShortMsgFlood | lib/tgspam/detector.go:1053-1110 | flags exactly when the guards hold and the messages that did not count reach the limit, and asks to delete the listed messages but the current, in their order |
| Detection.Detector.AskModels | lib/tgspam/detector.go:352-387 | the verdict after the models is the specified consensus, and their answers follow the other responses, in order |
| Detection.Detector.CheckFully | lib/tgspam/detector.go:344-412 | from the base verdict on: verdict, responses, approval count and histories are those of the specified end of the decision |
| Detection.Detector.CheckContent | lib/tgspam/detector.go:272-412 | the same from the simple checks on, with the early answer to short messages |
| Detection.Detector.Check | lib/tgspam/detector.go:234-413 | verdict, responses, approval count and histories are those of the specified decision |
| Detection.Detector.AddApprovedUser | lib/tgspam/detector.go:655-677 | approves the user whether or not the storage succeeds |
| Detection.Detector.RemoveApprovedUser | lib/tgspam/detector.go:680-693 | forgets the user whether or not the storage succeeds |
| Detection.Detector.WithUserStorage | lib/tgspam/detector.go:589-607 | approves exactly the stored users, and nobody when they cannot be read |
| Detection.CheckCounts | lib/tgspam/detector.go:394-410 | one checked message adds one to the count of its user, and to nobody else's, exactly when it is not check-only, not short, and ham after the whole pipeline, where the first messages are limited |
| Detection.OthersApprove | lib/tgspam/detector.go:589-693 | an added user is approved for both gates, a removed one is unknown, and loading approves exactly the stored users |
| Detection.CountIsGoodMessages | lib/tgspam/detector.go:394-410 | over runs, the count of a user who is only checked is the number of full-length, not check-only ham verdicts that passed the whole pipeline |
| Detection.GateOpensExactly | lib/tgspam/detector.go:254-258 | so a message skips the checks exactly when its user has enough of them and it is no duplicate |
| Detection.GatesDisagree | lib/tgspam/detector.go:643-652 | for any approved users and configuration: with a limit to the first messages, Check and IsApprovedUser disagree on a user exactly when his count is that limit, or he is unknown and the limit negative; without one, exactly when he is approved, since Check then trusts nobody |
| Detection.GatesDisagreeExactly | lib/tgspam/detector.go:643-652 | over runs in which a user is only checked, never added, removed or loaded, and with a limit to the first messages, IsApprovedUser holds exactly after more good messages than that, Check trusts the user one earlier, and the two disagree exactly at the limit |
| Detection.ApprovedByVetoes | lib/tgspam/detector.go:643-652 | messages make a user approved exactly when the models let a duplicate pass after enough good messages |
| Detection.GatesDisagreeRun | lib/tgspam/detector.go:254-258 | after one good message the user passes unchecked but is not approved; a vetoed duplicate approves him |
| Detection.CountIsBounded | lib/tgspam/detector.go:641-652 | the count exceeds `FirstMessagesCount` by at most the number of duplicates that the models let pass, so good messages alone never make IsApprovedUser true |
| ReportTable.LiveReports | app/storage/reports.go:88-104 | in a well-formed table the live reports of a message are ordered by time, by distinct reporters, and the notified ones are a prefix sharing one admin message |
| ReportTable.FirstTellsAll | app/events/reports.go:307-313 | the first report tells whether any live report is notified |
| ReportTable.OneAnswer | app/storage/reports.go:99 | with distinct times the ordered query has only one answer |
| ReportTable.FirstTellsExactly | app/events/reports.go:307-313 | whatever the ordered query answers, the first report tells whether any is notified, exactly when all of the earliest ones are as soon as one report is |
| ReportTable.RateMeans | app/storage/reports.go:100 | a table whose rows kept the rate when stored has at most `limit` rows of a reporter in any window of the period's length |
| ReportTable.StoresAreIsolated | app/storage/reports.go:99-104 | no operation of a store touches the rows of another gid |
| ReportTable.Reports.Add | app/storage/reports.go:132-165 | inserts unless the reporter already has a row for the message, then drops the rows of its gid past retention |
| ReportTable.Reports.GetByMessage | app/storage/reports.go:168-184 | the live reports of the message, in some order of their times |
| ReportTable.Reports.GetReporterCountSince | app/storage/reports.go:187-203 | the number of the reporter's rows later than the given time |
| ReportTable.Reports.UpdateAdminMsgID | app/storage/reports.go:206-222 | marks all rows of the message, and no others |
| ReportTable.Reports.DeleteReporter | app/storage/reports.go:225-241 | deletes the reporter's row for the message, and no others |
| ReportTable.Reports.DeleteByMessage | app/storage/reports.go:244-260 | deletes the rows of the message, and no others |
| ReportProtocol.ReachableReports | app/events/reports.go:276-318 | in every reachable state the live reports of any message have distinct reporters, their notified rows are a prefix sharing one admin message, and the first row tells whether any is notified |
| ReportProtocol.ReachableRate | app/events/reports.go:251-273 | in every reachable state no reporter has more than `RateLimit` live rows in any window of length `RatePeriod`, however adds, deletions and retention interleave |
| ReportProtocol.FilingExactly | app/events/reports.go:135-247 | when a command is served, deleted or refused: it has to be admitted and its reporter approved, with fewer than `RateLimit` rows newer than the period before it; a refused one changes no row |
| ReportProtocol.CountSinceMeans | app/storage/reports.go:187-203 | the number of the positions with the reporter's newer rows |
| ReportProtocol.StoresTheReport | app/events/reports.go:222-237 | the row stored is what the command says, not notified, and the newest; rows older than seven days go |
| ReportProtocol.BanNeedsReporters | app/events/reports.go:290-295 | from every reachable state, a report bans exactly when it passes all gates and at least `AutoBanThreshold` reports are live after it, with as many different reporters, and it bans the reported user |
| ReportProtocol.BanClearsReports | app/events/reports.go:378-404 | an auto-ban leaves no report of the message exactly when its notice and the deletion succeed, and otherwise leaves the table as it was |
| ReportProtocol.BanActsExactly | app/events/reports.go:330-375 | a ban takes the approval away and bans; unless dry it deletes the message, and learns it if it has a text |
| ReportProtocol.AutoBanExactly | app/events/reports.go:321-405 | an auto-ban acts on the user and the text of the first report, says so in a new notice or the one on record, and fails exactly when that cannot be done |
| ReportProtocol.NoticeExactly | app/events/reports.go:290-317 | the admins hear of a message, with all its reporters, exactly when its live reports reach the threshold but not that of the auto-ban and there is an admin chat |
| ReportProtocol.NotifyExactly | app/events/reports.go:307-317 | a new notice is sent exactly when the admins are due to hear of the message and none of its live reports is notified |
| ReportProtocol.NoticedExactly | app/events/reports.go:296-317 | what weighing does below the auto-ban, table, actions and success, in each of its cases |
| ReportProtocol.OneNotice | app/events/reports.go:307-317 | a new notice is sent only while no live report is notified, and once its update succeeds all of them are, with its identifier |
| ReportNotices.NotifiedIsOnRecord | app/events/reports.go:276-997 | in every reachable state, whatever calls failed, some report of a message is notified exactly when a notice about it was sent and marked, no decision cleared its reports since, and its notified rows were lost neither to the ban of their only reporter nor to retention |
| ReportNotices.NewNoticeExactly | app/events/reports.go:307-317 | so over whole runs a report makes a new notice exactly when the admins are due to hear of the message and no notice is on record: none was sent since a decision last cleared its reports, or it was never marked, or lost, before or by this report; in the last cases the admins have two notices at once |
| ReportProtocol.DecisionsClearReports | app/events/reports.go:672-802 | approving or rejecting leaves no report of the message exactly when the deletion succeeds |
| ReportProtocol.DecisionsExactly | app/events/reports.go:672-802 | the actions and the success of approving and rejecting |
| ReportProtocol.OtherMessages | app/events/reports.go:135-997 | a step about one message leaves the live reports of every other message alone, but for retention when a report is stored |
| ReportProtocol.OthersSurvive | app/events/reports.go:925-935 | banning a reporter takes the other reports with it exactly when the second read fails and the deletion succeeds |
| ReportProtocol.ReporterBanExactly | app/events/reports.go:868-997 | the actions and the success of banning a reporter, and when his own report goes |
| ReportProtocol.RepeatedReportLives | app/storage/reports.go:88-98 | a report is live after it was stored exactly when retention did not take an earlier row of its reporter that kept it out |
| ReportRuns.EqualTimesRun | app/storage/reports.go:99 | two reports stored at one time, the first one notified: the query may answer with the other one first |
| ReportRuns.SecondNoticeRun | app/events/reports.go:944-993 | two reports, the notified reporter banned, a third report: a second notice while the first one is open but forgotten |
| ReportRuns.OthersLostRun | app/events/reports.go:925-935 | two reports, the first reporter banned: the other report stays, or is lost when the second read fails |
| ReportRuns.VanishedReportRun | app/storage/reports.go:88-98 | a report repeated just after the first one expired: none is left |
| UserReporting.UserReports.CheckReportRateLimit | app/events/reports.go:251-273 | limited exactly when the reporter's rows within the period reach a positive limit; a failing count is an error |
| UserReporting.UserReports.ExecuteAutoBan | app/events/reports.go:321-405 | actions, table and success are those of the specified ban |
| UserReporting.UserReports.SendReportNotification | app/events/reports.go:521-597 | sends one notice and marks the rows with its identifier when that succeeds |
| UserReporting.UserReports.UpdateReportNotification | app/events/reports.go:600-668 | updates the notice of the first report and leaves the table alone |
| UserReporting.UserReports.CheckReportThreshold | app/events/reports.go:276-318 | chooses between ban, nothing, update and notice as specified |
| UserReporting.UserReports.DirectUserReport | app/events/reports.go:135-247 | table, actions and success of a /report command are those of the protocol step |
| UserReporting.UserReports.CallbackReportBan | app/events/reports.go:672-756 | approving a ban acts as the protocol step |
| UserReporting.UserReports.CallbackReportReject | app/events/reports.go:760-802 | rejecting a report acts as the protocol step |
| UserReporting.UserReports.CallbackReportBanReporterConfirm | app/events/reports.go:868-997 | banning a reporter acts as the protocol step |
| Callbacks.Settings.NormalizeGroups | app/config/settings.go:119-146 | succeeds exactly when nothing is configured or the filled list is valid with unique gids and groups, and then stores that list and its first group |
| Callbacks.Validate | app/config/settings.go:90-98 | accepts exactly chats with a group and an empty or matching gid |
| Callbacks.NormalizeTwice | app/config/settings.go:118-146 | where one call succeeds a second one does, too, and leaves what one call leaves |
| Callbacks.ConfiguredGIDs | app/config/settings.go:128-142 | an accepted list with a non-empty instance ID has unique, valid, non-empty gids |
| Callbacks.BuildByGID | app/events/listener.go:130-143 | the look-up finds every gid; the last chat wins among equal gids, and unique gids find their own chat |
| Callbacks.PrefixedRoundTrip | app/events/events.go:420-458 | every prefixed payload parses back to its triple and is dispatched to its action, for every valid or empty gid and all 64-bit numbers |
| Callbacks.BareParsesBack | app/events/events.go:427-438 | a payload without prefix parses back exactly when its gid does not begin with R- or RX |
| Callbacks.BareReachesUnban | app/events/listener.go:258 | and reaches the unban action exactly when its gid does not begin with R |
| Callbacks.UnbanBecomesReject | app/events/listener.go:258 | with the gid R-1 the unban button rejects a report instead |
| Callbacks.PayloadExample | app/events/reports.go:120-132 | a payload as it is printed and read |
| Callbacks.BadPayloads | app/events/events.go:420-458 | which texts are too short, have the wrong parts, or no numbers |
| Callbacks.ChatsExactly | app/events/admin.go:93-105 | a single chat gets every button; of several chats, that with the gid of the button, if there is one |
| Callbacks.ValidGIDMeans | app/config/settings.go:82-85 | gids have 1 to 24 letters, digits, underscores and hyphens |
| Callbacks.ConfirmationKeepsTriple | app/events/admin.go:876-881 | the buttons made from a pressed "?" carry the same triple |
| Callbacks.PayloadFits | app/config/settings.go:82-85 | payloads have at most 58 one-byte characters for non-negative 32-bit message IDs |
| Callbacks.ButtonReachesItsChat | app/events/reports.go:120-132 | with unique valid gids a button reaches the chat that printed it, with its user and message |
| Callbacks.NeverTheWrongChat | app/events/admin.go:93-105 | with several chats a payload reaches a chat only by that chat's own non-empty gid |
| Decimals.Int64RoundTrip | app/events/events.go:450-455 | reading a printed 64-bit integer gives it back |
| Decimals.ReadsExactly | app/events/events.go:450-455 | a printed integer of any size is read back exactly when it has 64 bits |
| CopyFormat.SequentialIsEscape | app/storage/engine/convert.go:379-386 | the four replacements in sequence equal one map over the characters |
| CopyFormat.FormatPostgresValue | app/storage/engine/convert.go:364-386 | NULL is `\N`, texts and bytes are escaped, and the other types, whose text needs no escapes, stay as they are |
| CopyFormat.TextsAre | app/storage/engine/convert.go:364-405 | what the values look like, digit by digit for a time |
| CopyFormat.CellsMean | app/storage/engine/convert.go:257-279 | a missing column is NULL, and the numeric flag of detected spam a truth value |
| CopyFormat.ExportTableData | app/storage/engine/convert.go:205-297 | header, one line a row and the end marker; nothing for an empty table |
| CopyFormat.CellsAre | app/storage/engine/convert.go:257-279 | a row has the cell of each column, in the order of the columns |
| CopyFormat.TableCellsAre | app/storage/engine/convert.go:250-285 | and a table has its rows, in their order |
| CopyFormat.CopyColumnsAre | app/storage/engine/convert.go:218-229 | copied are all columns, in their order, but for `message_hash` of the samples |
| CopyFormat.ExportExample | app/storage/engine/convert.go:205-297 | a dictionary of one stop phrase, as it is written |
| CopyFormat.FieldRoundTrip | app/storage/engine/convert.go:364-386 | a field reads back, and is `\N` only for NULL |
| CopyFormat.LineRoundTrip | app/storage/engine/convert.go:256-284 | a line of at least one field reads back, and is never the end marker |
| CopyFormat.BodyRoundTrip | app/storage/engine/convert.go:249-294 | reading what was written returns exactly the rows of NULLs and texts |
| CopyFormat.ExportRoundTrip | app/storage/engine/convert.go:205-297 | the data block of a table with at least one copied column reads back row by row and column by column: NULL, or the text of the value in that row and column |
| Logs.PruneKeepsCounts | app/storage/warnings.go:148-164 | pruning affects no count from the pruning point on |
| Logs.CountSinceMeans | app/storage/warnings.go:129-145 | a count is the number of the positions with the user's newer warnings |
| Logs.PruneMeans | app/storage/warnings.go:148-164 | pruning keeps the rows from the cutoff on, in their order |
| Logs.Warnings.Add | app/storage/warnings.go:102-126 | inserts and prunes; the full log grows by the warning, and the table still stands for it |
| Logs.Warnings.CountWithin | app/storage/warnings.go:129-145 | for a window of up to 365 days, the number of the user's warnings within it, of all that were ever added |
| Logs.TrackWarnAndMaybeBan | app/events/admin.go:491-514 | bans exactly when tracking is on, the storage did not fail, and the full history within the window reaches the threshold |
| Logs.LongWindowUndercounts | app/storage/warnings.go:30-34 | a window longer than the retention misses warnings |
| Logs.DmUsers.Add | app/events/dm_users.go:27-46 | the list is that of all messages so far, truncated |
| Logs.DmUsers.List | app/events/dm_users.go:49-55 | returns the first fifty of the untruncated list of all senders |
| Logs.TruncateOnce | app/events/dm_users.go:42-45 | truncating at every step equals truncating once at the end |
| Logs.RecentsMostRecentFirst | app/events/dm_users.go:27-46 | the untruncated list holds every user once, most recent message first, with the latest record |
| Logs.LatestFirstMeans | app/events/dm_users.go:27-46 | the recursive definition of that order, read entry by entry |

## Left out

- Telegram calls, message texts, keyboards and logging are effects only: a handler's actions are values in a sequence, without their wording.
- SQL engines, transactions, migrations and schema conversion: a table is a sequence of rows.
- The eviction of cache keys beyond 10000 users is not modelled; the time limit is.
- SHA-256 is a function parameter; `HashesCountTexts` says which collisions would matter.
- Floating point: logarithm and exponential are parameters over reals, the latter positive and strictly increasing; rounding, overflow, NaN and infinities, with the branches of softmax for them, are not modelled.
- Posteriors.Classify: requires denominators that are not zero, since the source computes an infinite logarithm otherwise; `ScorableExactly` says when that is so.
- Classification.Classifier.Unlearn: which tokens of the failing document are gone after an error is left open, because it depends on the order of a map.
- ClassifierSpec.AddThenRemove: compares frequencies with absent entries read as 0; `SameFrequencies` says when the maps are equal, which matters to the scores.
- Samples.SamplesModel.RemoveSample: does not shrink the samples kept for the similarity check, as in the source; that a later reload gives the same model is therefore not claimed.
- UserReporting.UserReports.DirectUserReport: requires a report time later than all stored ones; with equal times the database chooses the order.
- ReportProtocol.ReachableRate: speaks of live rows; a report deleted with its message no longer counts against its reporter, as in the source.
- Samples.SamplesModel.LoadSamples: the tokenizer and the lower case of Unicode are parameters.
- Tokenization, cleaning of texts, emoji and Unicode tables, stop words, CAS, Lua plugins and the clients of the language models: their verdicts are inputs of a decision.
- DuplicateDetection.DuplicateDetector.FormatDuration: the wording of a duration is a value, not a text.
- CopyFormat.FormatPostgresValue: takes the Go library's rendering of a floating-point number as given, a text without characters to escape.
- Integer overflow of counters.
- The in-memory request history of lib/spamcheck/history.go, the web UI, configuration defaults, file backups and encryption.
