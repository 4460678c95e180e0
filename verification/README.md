# Caseflow in Dafny

A Dafny model of the parts of Caseflow that are algorithms or protocols rather than plumbing, with proofs of what
they are for. Each file models one Ruby file (or one part of it) and carries its name; `Prelude.dfy` holds an option
type, sums and runs of a machine.

* **Balancing of priority cases** (`PushPriorityAppealsToJudgesJob.dfy`). The shrinking loop for the priority target is
  a water level; targets and leftovers hand out exactly the ready cases, as evenly as is possible, and many pushes in
  a month amount to one.
* **Establishment of end products as a crash and retry protocol** (`Contention.dfy`, `EndProductEstablishment.dfy`,
  `ContentionMatching.dfy`, `EstablishmentRuns.dfy`, with the drivers `ClaimReview.dfy` and `DecisionDocument.dfy` over
  the loop of `EachUntilFailure.dfy`). The remote claim system is an append-only list of claims and one of contentions.
  An attempt is a script that says, for every external call, what it answers or whether the attempt dies before the
  local write. A run is any sequence of attempts on any records, with other systems adding claims and contentions, and
  claims, end products and issues being closed in between.
* **Appeal trees and series** (`Forest.dfy`, `MergeStrings.dfy`, `AppealHistory.dfy`): parent search, inversion of the
  links, recursive labelling, the abbreviation loop of the merge strings, the merge table and the lookup through it.
* **Docket queries and distribution** (`Docket.dfy`, `DistributedCase.dfy`, `Distribution.dfy`): what the joined,
  filtered and grouped queries select appeal by appeal, the registry of handed-out cases with its renaming, and the
  life of a distribution with retries and restarts.
* **Smaller cores** (`ContestableIssue.dfy`, `AppealSeriesIssues.dfy`, `AdvanceOnDocketMotion.dfy`,
  `EndProductUpdate.dfy`): the walk to the latest contestable issues, the fold for the last action, the registry of
  motions, and the edit of a claim label.

Code that changes records in place is a class whose methods are proved against functions of the state before; what the
source promises is then proved about those functions, over one call or over every run. A database transaction is one
step that happens or does not. Clocks, answers of remote services and the order in which a database returns rows are
parameters, so every statement holds for all of them. Lemmas are marked `{:induction false}`: where a proof is by
induction, its body says so.

## What does not hold as written

These are results about the code as it is, with the exact condition and, where the promise fails, a concrete example.

* `Distribution#distribute!` means to repeat the create-time checks before a retry, but passes `context: :create` as a
  hash, which Rails does not take for the `create` context. The machine has both readings: with the checks repeated
  each judge has one active distribution of a kind, without them two can be started (`OneActiveIff`,
  `UncheckedRetryStartsTwo`).
* A completed distribution can be taken back. A job writes its end without looking at the row, and a stalled
  distribution is requeued by the clock although its job may still be at work: if a second job completes it and the
  first then fails, it ends in error and owns cases (`LateFailureUndoesCompletion`). The lists of pending and stalled
  distributions are loaded once, so that an outdated copy can start a completed one again (`OutdatedCopyStartsTwo`).
  `StepKeepsIff` and `CasesAlwaysIff` say exactly when this happens; it never does while copies are up to date and
  nothing is requeued under a job still at work (`CompletedForGood`).
* A lost claim is looked for only when the two submission times of the job differ. A retry whose times agree creates
  the claim a second time (`OrphansBoundedIff`, `UnflaggedRetryCreatesTwice`). `submit_for_processing!` reads the clock
  once for each of the two times, so that equal times are rare.
* The "prevents loops" test of the parent search does not cover suffixed records: parent links can run in a circle, the
  appeals on it get no label, and generating the series raises (`LinksMayCircle`, `CircleRaises`). It raises exactly when
  there is a circle and no merge leads from or to appeals in a circle (`DoneIff`); `RootOf` decides whether there is one.
* The abbreviation loop never ends for a merge string shorter than 30 characters that is not the start of exactly one
  merge string (`RunsForeverIff`, `EqualShortStringsHang`). Folder numbers are the ids of the appeals, and distinct ones
  rule this out, even where a decision date is missing (`DistinctFoldersAreFound`).
* An appeal with several claimants can be priority and nonpriority at once (`ExactlyOneUnlessMixed`,
  `TwoClaimantsMayDisagree`).
* The walk to the latest contestable issues never ends on a circle of decisions and requests
  (`TerminatesIff`, `SelfAnsweringNeverEnds`).
* Copying motions to an appeal that already has a motion of the kind breaks the rule of one per kind (`CopyKeepsIff`,
  `CopyMayClash`).
* Editing a label with an original code that is not the end product's own leaves issues and label in disagreement
  exactly when a part is skipped that should have changed (`UpdateAgreesIff`, `StaleOriginalCode`). The claim review
  page looks the end product up by that code, so this takes two edits of one end product that overlap. When the new code
  is unknown to Caseflow but accepted remotely, the tables are rolled back and the remote label is not (`Perform`). A
  successful update never sets the status `success`.
* The type of the last action can depend on the order of the issues, though its date does not (`TypeDependsOnOrder`,
  `DateIgnoresOrder`); it does exactly when two issues begin the latest day with different actions
  (`TypeIgnoresOrderIff`).

## Model

| member | source | states |
|---|---|---|
| `PushPriorityAppealsToJudgesJob.PriorityTarget` | app/jobs/push_priority_appeals_to_judges_job.rb:115-130 | fails exactly without judges; otherwise the loop ends with the level T at which bringing every lower judge up to T takes at most the ready cases and up to T + 1 takes more |
| `PushPriorityAppealsToJudgesJob.LevelIsUnique` | app/jobs/push_priority_appeals_to_judges_job.rb:115-130 | that condition determines the target |
| `PushPriorityAppealsToJudgesJob.RoundNeverRises` | app/jobs/push_priority_appeals_to_judges_job.rb:123-126 | a round of the loop never empties the list and never raises the target, and drops somebody whenever a judge is above the target |
| `PushPriorityAppealsToJudgesJob.AverageIsLevel` | app/jobs/push_priority_appeals_to_judges_job.rb:118-126 | the average is the level over all judges once nobody considered is above it |
| `PushPriorityAppealsToJudgesJob.TargetsFill` | app/jobs/push_priority_appeals_to_judges_job.rb:106-111 | the targets of the judges not above the level add up to what filling to the level takes |
| `PushPriorityAppealsToJudgesJob.LeftoverBounds` | app/jobs/push_priority_appeals_to_judges_job.rb:98-102 | leftovers are never negative and fewer than the judges who keep a target |
| `PushPriorityAppealsToJudgesJob.SortByTarget` | app/jobs/push_priority_appeals_to_judges_job.rb:89 | a reordering of the judges with non-decreasing targets, ties open |
| `PushPriorityAppealsToJudgesJob.HandOut` | app/jobs/push_priority_appeals_to_judges_job.rb:89-95 | the walk with the counter gives one more to exactly the first judges, and drops judges who would get nothing |
| `PushPriorityAppealsToJudgesJob.LeftoversAreEven` | app/jobs/push_priority_appeals_to_judges_job.rb:87-96 | targets with one more for the first judges hand out all ready cases, leave every judge at or below the level at the level or one above it, give the others nothing and serve the smallest targets first |
| `PushPriorityAppealsToJudgesJob.TargetDistributionsWithLeftovers` | app/jobs/push_priority_appeals_to_judges_job.rb:87-111 | the whole computation is such an even push; over the month, with judges absent from it counting as zero, those at or below the level end at it or one above and the others get nothing; its total is the number of ready cases if and only if there is a judge or no case |
| `PushPriorityAppealsToJudgesJob.NoBetterMinimum` | app/jobs/push_priority_appeals_to_judges_job.rb:113-114 | no other way to hand out the same cases has a higher minimum final count |
| `PushPriorityAppealsToJudgesJob.NoSmallerSquares` | app/jobs/push_priority_appeals_to_judges_job.rb:113-114 | no other way to hand out the same cases has a smaller sum of squared final counts |
| `PushPriorityAppealsToJudgesJob.PushesCompose` | app/jobs/push_priority_appeals_to_judges_job.rb:76-96 | two pushes, the second on the counts the first left, are one even push of all their cases |
| `PushPriorityAppealsToJudgesJob.ManyPushesAreOne` | app/jobs/push_priority_appeals_to_judges_job.rb:76-96 | any number of pushes within the month leave the counts of one even push of all their cases |
| `PushPriorityAppealsToJudgesJob.EvensOut` | spec/jobs/push_priority_appeals_to_judges_job_spec.rb:522-533 | once the cases are enough to reach the busiest judge, any two judges differ by at most one |
| `Contention.RemovesNewlines` | app/models/contention.rb:19-21 | no newline is left |
| `Contention.KeepsCleanText` | app/models/contention.rb:19-21 | a text without newlines is not changed |
| `Contention.RemoveNewlinesKeepsWords` | app/models/contention.rb:19-21 | the words and their order survive; only spacing changes |
| `Contention.RunBecomes` | app/models/contention.rb:19-21 | a maximal run of white space becomes exactly one space if it holds a newline and stays if not, with what is before and after it cleaned on its own |
| `Contention.WidthIsUtf8` | app/models/contention.rb:24 | the byte size of a character is the number of bytes of its UTF-8 form |
| `Contention.LongestPrefixIs` | app/models/contention.rb:26-33 | the prefix used for the result is the longest one that fits the budget of bytes |
| `Contention.LongestPrefixIsUnique` | app/models/contention.rb:26-33 | only one prefix is the longest that fits |
| `Contention.Truncate` | app/models/contention.rb:23-34 | the loop that pushes characters and pops one computes the text itself up to 255 bytes, else the longest prefix of 252 bytes with three dots |
| `Contention.TextFits` | app/models/contention.rb:10-15 | for every description the text has no newline and at most 255 bytes, is the cleaned text when that fits, and else its longest prefix of 252 bytes with three dots |
| `Contention.TextIsStable` | app/models/contention.rb:11-34 | making a text of a text changes nothing, so an echoed text still compares equal |
| `EndProductEstablishments.MatchingEndProduct` | app/models/end_product_establishment.rb:481-487 | an end product taken is listed, active, of the same code, date and payee, and held by no record; none is taken only if no listed one is |
| `EndProductEstablishments.FirstMatchIsTaken` | app/models/end_product_establishment.rb:481-487 | it is the first of those in the listing |
| `EndProductEstablishments.EndProductEstablishment.FindMatchingEndProduct` | app/models/end_product_establishment.rb:481-529 | the walk over the listing finds that end product |
| `EndProductEstablishments.EndProductEstablishment.PerformStep` | app/models/end_product_establishment.rb:54-72 | does nothing with a claim; else recovers a lost one when the job was attempted before, or creates one, saved unless the attempt dies in between |
| `EndProductEstablishments.EndProductEstablishment.SaveContention` | app/models/end_product_establishment.rb:114 | writes the id of one record and nothing else |
| `EndProductEstablishments.EndProductEstablishment.HandleReturned` | app/models/end_product_establishment.rb:105-115 | one returned contention goes to the first waiting record of its text, if it is unknown and of this claim |
| `EndProductEstablishments.EndProductEstablishment.HandleAll` | app/models/end_product_establishment.rb:105-115 | the returned contentions are handled in order up to where the attempt dies |
| `EndProductEstablishments.EndProductEstablishment.CreateContentionsStep` | app/models/end_product_establishment.rb:91-118 | contentions are requested for all waiting records, answers matched, and the step fails if a record still waits |
| `EndProductEstablishments.EndProductEstablishment.StampAssociated` | app/models/end_product_establishment.rb:264-266 | every active issue that contests a rating issue is stamped with the time given, and no other issue changes |
| `EndProductEstablishments.EndProductEstablishment.AssociateRatingIssuesStep` | app/models/end_product_establishment.rb:256-267 | nothing when no rating issue is unassociated or the remote call fails, else the stamps; over the fields in `AssociationStamps` |
| `EndProductEstablishments.EndProductEstablishment.GenerateLetterStep` | app/models/end_product_establishment.rb:269-275 | one letter id, kept once set |
| `EndProductEstablishments.EndProductEstablishment.GenerateItemStep` | app/models/end_product_establishment.rb:277-283 | one tracked item id, kept once set |
| `EndProductEstablishments.EndProductEstablishment.CommitStep` | app/models/end_product_establishment.rb:138-140 | the commit time is set once |
| `EndProductEstablishments.EndProductEstablishment.EstablishAttempt` | app/models/end_product_establishment.rb:74-87 | the steps in order on the record and the remote store, each left undone after the first failure; nothing for an inactive end product |
| `ContentionMatching.MatchAllOnlyFillsWaiting` | app/models/end_product_establishment.rb:105-115 | an assigned id never changes, and a new one comes from the answer, unknown before, with the claim and text of its record |
| `ContentionMatching.MatchAllInOrder` | app/models/end_product_establishment.rb:105-115 | records waiting with one text are served in their order, with contentions in the order of the answer |
| `ContentionMatching.RequestedCount` | app/models/end_product_establishment.rb:89-103 | a contention with a text is asked for as often as active records without a contention have that text |
| `ContentionMatching.MatchAllKeepsIdsDistinct` | app/models/end_product_establishment.rb:105-115 | if the answer names each contention once, ids stay pairwise different over all records |
| `ContentionMatching.WaitingAfterMatch` | app/models/end_product_establishment.rb:105-115 | per text, the match leaves waiting exactly those records that outnumber the unknown contentions |
| `ContentionMatching.CreateContentionsSucceedsIff` | app/models/end_product_establishment.rb:91-118 | with a complete answer the step succeeds if and only if for every text there are at least as many unknown contentions as waiting records, duplicates included |
| `ContentionMatching.HonestAnswerCovers` | app/models/end_product_establishment.rb:89-118 | an answer that lists the stored contentions of the claim has an unknown one for every waiting record |
| `ContentionMatching.HonestAnswerSucceeds` | app/models/end_product_establishment.rb:89-118 | such an answer never makes the step fail, whatever earlier attempts left behind |
| `EstablishmentRuns.AttemptMoves` | app/models/end_product_establishment.rb:54-72 | every attempt does one of four things to the claims: nothing, takes over an unheld one of its key, creates and saves one, or creates and loses one |
| `EstablishmentRuns.NoClaimIsShared` | app/models/end_product_establishment.rb:520-529 | over every run, claims made by other systems included, no two records hold the same claim, and every held claim exists and has the record's key |
| `EstablishmentRuns.OrphansBoundedIff` | app/models/end_product_establishment.rb:545-555 | one event keeps the unheld open claims of a key within the records in doubt if and only if it is neither an unflagged retry that creates again nor a claim of that key made by another system, with no doubt to spare |
| `EstablishmentRuns.OrphansStayBounded` | app/models/end_product_establishment.rb:545-555 | over every run with complete listings, flagged retries and no claim of a record's key made by others, unheld open claims never outnumber the records in doubt |
| `EstablishmentRuns.EveryClaimHeldOnce` | app/models/end_product_establishment.rb:54-72 | exactly once: after such a run, when every record of a key has its claim, each open claim of that key is held by one record only |
| `EstablishmentRuns.UnflaggedRetryCreatesTwice` | app/models/concerns/asyncable.rb:220-222 | a lost creation and a retry with equal submission times leave two claims for one record |
| `EstablishmentRuns.EstablishKeeps` | app/models/end_product_establishment.rb:74-87 | one attempt, whether it fails or not, keeps the meaning of the commit and never overwrites what was set |
| `EstablishmentRuns.AssociationStamps` | app/models/end_product_establishment.rb:256-267 | when something is unassociated and the call goes through, exactly the active records contesting a rating issue are stamped with the time of the attempt; in every other case no record changes |
| `EstablishmentRuns.FinishStamps` | app/models/end_product_establishment.rb:74-87 | the same after the remaining steps, whether the letters succeed or not, and the commit time is set only when all succeed |
| `EstablishmentRuns.EstablishStamps` | app/models/end_product_establishment.rb:74-87 | over a whole attempt a record changes only in its contention id, if it is active without one, and in its association time, if it is active and contests a rating issue, and then to the time of the attempt; after a successful attempt that found something unassociated every such record carries that time; when nothing was, no association time changes |
| `EstablishmentRuns.EstablishTimes` | app/models/end_product_establishment.rb:54-87 | the establishment time is that of the attempt exactly when it took or made a claim, the commit time that of the first attempt that succeeded |
| `EstablishmentRuns.EstablishWritesLetters` | app/models/end_product_establishment.rb:269-283 | letter and tracked item come from their own calls, for an informal conference only, and the item after the letter |
| `EstablishmentRuns.ContentionsRequested` | app/models/end_product_establishment.rb:91-103 | unless the request is rejected the store gains, for each text, as many contentions of the claim as active records without one have that text, and it gains nothing else |
| `EstablishmentRuns.EstablishFailsIff` | app/models/end_product_establishment.rb:54-118 | an attempt fails as invalid or refused exactly when a claim has to be asked for and is so; it fails for contentions only on a complete answer that leaves an active record without one |
| `EstablishmentRuns.CommitAlwaysMeaningful` | app/models/end_product_establishment.rb:133-140 | in every reachable state a committed end product has its claim, a contention on every active record, no unassociated rating issue, and letter and tracked item when a conference was asked for |
| `EstablishmentRuns.SetOnce` | app/models/end_product_establishment.rb:54-140 | between any two points of a run claim, letter, item, times and contention ids that were set have not changed |
| `EstablishmentRuns.RunStaysSound` | app/models/end_product_establishment.rb:99-115 | over every run with accurate answers each id on a record names a stored contention of its own claim and text |
| `EstablishmentRuns.NoContentionIsShared` | app/models/end_product_establishment.rb:99-115 | over every such run two different issues, of one end product or two, never share a contention |
| `EstablishmentRuns.UndisturbedAttemptCommits` | app/models/end_product_establishment.rb:74-87 | from every reachable state an attempt in which no call fails ends committed |
| `EstablishmentRuns.EstablishTakesFree` | app/models/end_product_establishment.rb:54-72 | one attempt takes a claim that is new or that nobody holds, if it takes one |
| `EachUntilFailure.StoppedEach` | app/models/claim_review.rb:115 | after a failure the rest of the loop does nothing |
| `EachUntilFailure.LoopKeeps` | app/models/claim_review.rb:115 | what every round of the loop keeps holds after it |
| `EachUntilFailure.LoopKeepsApart` | app/models/claim_review.rb:115 | if no end product ever takes a claim that is held, the loop leaves no two with one claim |
| `EachUntilFailure.LoopStaysSound` | app/models/claim_review.rb:115 | with accurate answers the ids of all end products stay sound through the loop |
| `EachUntilFailure.ContentionsApart` | app/models/end_product_establishment.rb:99-115 | then no two records of all the end products share a contention |
| `EachUntilFailure.CalmLoop` | app/models/claim_review.rb:115 | the loop gets through all end products when no call fails |
| `EachUntilFailure.HandleUntilFailure` | app/models/claim_review.rb:115 | the loop over the end products of a review or a document, ended by the first failure |
| `ClaimReviews.EachKeeps` | app/models/claim_review.rb:115 | the loop keeps every end product meaningful and never undoes anything; if it ends, all are committed or inactive |
| `ClaimReviews.ProcessedMeansSettled` | app/models/claim_review.rb:105-119 | however often the job is retried, a processed review has only committed or inactive end products, and the committed ones are complete |
| `ClaimReviews.NoIssuesShareContention` | app/models/claim_review.rb:108-119 | over every run with accurate answers no two issues of the review share a contention |
| `ClaimReviews.UndisturbedReviewIsProcessed` | app/models/claim_review.rb:105-119 | from every reachable state of a review that needs end products, an attempt in which no call fails ends with the review processed and every end product settled |
| `ClaimReviews.ClaimReview.EstablishUntilFailure` | app/models/claim_review.rb:115 | the loop on the review establishes its end products in order and stops at the first failure |
| `ClaimReviews.ClaimReview.EstablishAll` | app/models/claim_review.rb:108-119 | the whole of `establish!` on the review, refused for reviews processed in Caseflow that have end products |
| `DecisionDocuments.CodeIdentifiesKind` | app/models/board_grant_effectuation.rb:159-171 | two issues share a code exactly when they agree on being rated and on being for pension |
| `DecisionDocuments.CodeNamesKind` | app/models/board_grant_effectuation.rb:19-24 | the code of an issue is the one listed for its kind: 030BGR and 030BGRNR, 030BGRPMC and 030BGNRPMC for rated and nonrating, the latter two for pension |
| `DecisionDocuments.FindOrCreateKeeps` | app/models/decision_document.rb:109-113 | after the call the issue has its effectuation and no other lost its own |
| `DecisionDocuments.FindOrCreateIsSound` | app/models/board_grant_effectuation.rb:93-149 | a new effectuation joins the one open end product of its code, a new one, or a task; never two of either |
| `DecisionDocuments.CreateEffectuationsIsSound` | app/models/decision_document.rb:109-113 | visiting granted issues in any order, once or more, gives each visited one its only effectuation |
| `DecisionDocuments.ProcessEpeKeeps` | app/models/decision_document.rb:115-121 | one end product processed, failed or not: nothing undone, a commit means claim and contentions |
| `DecisionDocuments.EachProgresses` | app/models/decision_document.rb:115-121 | the loop keeps every end product sound, and commits all if it does not fail |
| `DecisionDocuments.RunIsSound` | app/models/decision_document.rb:59-82 | over every run of crashed and retried attempts no issue has two effectuations, no code two end products, nothing is established before all effectuations exist, and a processed document has everything created and committed |
| `DecisionDocuments.AtMostOneEffectuation` | app/models/decision_document.rb:109-113 | at any point of any run a granted issue has at most one effectuation, and it is on an end product if and only if its issue is processed in VBMS |
| `DecisionDocuments.ProcessedMeansEffectuated` | app/models/decision_document.rb:59-82 | once processed every granted issue has its effectuation: a task, its business line on record, or, for compensation, pension and fiduciary, a place on the one end product whose code is listed for its kind, for the veteran, decision date and payee of the document, committed, with a stored contention of its own under its text |
| `DecisionDocuments.ProcessMarks` | app/models/decision_document.rb:59-82 | which marks an attempt leaves: nothing is created without the upload, nothing established before every effectuation was reached, and whatever does not end processed ends with the error |
| `DecisionDocuments.NoEffectuationsShareContention` | app/models/decision_document.rb:115-121 | over every run no two effectuations of the document, on one end product or two, share a contention |
| `DecisionDocuments.UndisturbedDocumentIsProcessed` | app/models/decision_document.rb:59-82 | from every reachable state an attempt on a document that is due, in which no call fails, ends with it processed |
| `DecisionDocuments.DecisionDocument.FindOrCreateEffectuation` | app/models/board_grant_effectuation.rb:93-149 | finds or creates one effectuation with its end product or task |
| `DecisionDocuments.DecisionDocument.CreateBoardGrantEffectuations` | app/models/decision_document.rb:109-113 | the loop over the granted issues |
| `DecisionDocuments.DecisionDocument.ProcessBoardGrantEffectuations` | app/models/decision_document.rb:115-121 | the loop over the end products, ended by the first failure |
| `DecisionDocuments.DecisionDocument.ProcessAttempt` | app/models/decision_document.rb:59-82 | the whole of `process!`, the upload done once, the error noted on failure |
| `Forests.NoRepetition` | app/models/appeal_history.rb:114-121 | on a chain of parents that ends no appeal comes twice |
| `Forests.DepthBound` | app/models/appeal_history.rb:129-134 | such a chain is shorter than the list, so the recursion ends |
| `Forests.UnderChildren` | app/models/appeal_history.rb:117-134 | what is below a node is the node and what is below its children |
| `Forests.OneRoot` | app/models/appeal_history.rb:57-61 | no appeal is below two roots |
| `Forests.RootOfIff` | app/models/appeal_history.rb:129-134 | looking for the root above an appeal, at most as many steps as there are appeals, decides whether its chain of parents ends |
| `Forests.LabelsAgreeIff` | app/models/appeal_history.rb:57-61 | two appeals carry one label exactly when they are under one root or both under none |
| `Forests.LabelIffGrounded` | app/models/appeal_history.rb:57-61 | an appeal gets a label exactly when its chain of parents ends |
| `Forests.LabelOfParent` | app/models/appeal_history.rb:57-61 | an appeal has the label of its parent, or neither has one |
| `Forests.Trees.constructor` | app/models/appeal_history.rb:97-122 | inverts the parent links in place: roots and children in the order of the appeals |
| `Forests.Trees.Traverse` | app/models/appeal_history.rb:129-134 | labels a node and everything below it and nothing else, and ends |
| `Forests.Trees.LabelAll` | app/models/appeal_history.rb:52-61 | afterwards each appeal carries the number of the root it is below |
| `MergeStrings.Abbreviate` | app/models/appeal_history.rb:181-190 | returns the string at the first length from 30 on at which the loop breaks, and nothing exactly when it never does |
| `MergeStrings.DateTextReads` | app/models/appeal_history.rb:173 | month, day and the last two digits of the year can be read off the text of a date |
| `MergeStrings.MergeStringIs` | app/models/appeal_history.rb:172-182 | the merge string is its lead, the date if there is one and the folder in parentheses; the starting length holds exactly the lead and a whole date |
| `MergeStrings.OneStartsIff` | app/models/appeal_history.rb:186-187 | the count is one exactly when a single merge string starts with the prefix |
| `MergeStrings.RunsForeverIff` | app/models/appeal_history.rb:184-190 | the loop never breaks exactly when the string is shorter than 30 and not the start of exactly one merge string |
| `MergeStrings.EqualShortStringsHang` | app/models/appeal_history.rb:184-190 | two undated merged appeals under one folder number keep the loop going for ever |
| `MergeStrings.StopsFirstAt` | app/models/appeal_history.rb:184-190 | the first length at which the loop breaks can be computed |
| `MergeStrings.StopsAtShortestUnique` | app/models/appeal_history.rb:179-190 | where it breaks the prefix is the shortest of at least 30 characters that begins one merge string, if the whole string does |
| `MergeStrings.DistinctFoldersAreFound` | app/models/appeal_history.rb:172-190 | with distinct folder numbers without a closing parenthesis the loop breaks for every merged appeal, dated or not, at a prefix of its own string only |
| `AppealHistories.FindById` | app/models/appeal_history.rb:138-141 | the first appeal of that id, none only if there is none |
| `AppealHistories.FoundByDateIff` | app/models/appeal_history.rb:147-164 | an appeal is found exactly when it is the only one decided on the prior date, or the only one of those that shares an issue category, and that date is earlier than the decision date if there is one |
| `AppealHistories.ParentIff` | app/models/appeal_history.rb:136-145 | an original appeal has no parent; the parent of one whose id ends in B, W or P is the first appeal of the id without that letter, and any other is found by date and issues |
| `AppealHistories.LinksEnd` | app/models/appeal_history.rb:136-164 | if suffixed records are never decided before the record they derive from, following parents ends, by decision date and then length of id |
| `AppealHistories.ForestWhenSuffixedNotEarlier` | app/models/appeal_history.rb:136-164 | then the parent links form a forest |
| `AppealHistories.LinksMayCircle` | app/models/appeal_history.rb:149-150 | without that two appeals can be each other's parents |
| `AppealHistories.CircleRaises` | app/models/appeal_history.rb:76-79 | generating the series of these two appeals ends in the error |
| `AppealHistories.TableAt` | app/models/appeal_history.rb:63-68 | the merge table leads the label of an appeal to the label of its source: the target of the last merged appeal of its tree that has one, else itself |
| `AppealHistories.MissingLabelIff` | app/models/appeal_history.rb:66-79 | the missing label is in the merge table, as key or value, exactly when a tree with a merge target has its members or its source in a circle |
| `AppealHistories.DoneIff` | app/models/appeal_history.rb:52-82 | the series are generated without an error if and only if no parents run in a circle or some merge leads from or to appeals in a circle |
| `AppealHistories.SameSeriesIff` | app/models/appeal_history.rb:52-82 | two appeals end in one series if and only if their sources are in one tree; so those of one tree always, those of trees without a merge never |
| `AppealHistories.TargetsAre` | app/models/appeal_history.rb:178-193 | the merge targets found are the ones `MergeTargetIff` describes, so they depend on the appeals only |
| `AppealHistories.FindMergeTargetIff` | app/models/appeal_history.rb:196-203 | an appeal is the target of a string if and only if its notes mention the string and those of no other appeal do |
| `AppealHistories.MergeTargetIff` | app/models/appeal_history.rb:178-203 | a merged appeal goes to an appeal if and only if that one alone mentions its merge string cut where the loop breaks; if several do it has no target |
| `AppealHistories.LookupFailsIff` | app/models/appeal_history.rb:76-79 | the lookup through the merge table fails exactly for an appeal without label when the table has no missing label |
| `AppealHistories.MergedTreeFollowsTarget` | app/models/appeal_history.rb:66-68 | the last merged appeal of a tree that has a target decides to which series its tree goes |
| `AppealHistories.FindMergeTargets` | app/models/appeal_history.rb:166-194 | each merged appeal gets the only appeal that mentions its merge string cut where the loop breaks, none if there is no only one; no targets at all if a loop never ends |
| `AppealHistories.DistinctFoldersNeverHang` | app/models/appeal_history.rb:178-193 | with distinct folder numbers no loop hangs and each prefix is of one merge string only |
| `AppealHistories.GroundedNeverFails` | app/models/appeal_history.rb:52-82 | without circles every appeal gets exactly one series |
| `AppealHistories.FamilySharesSeries` | app/models/appeal_history.rb:52-82 | an appeal and its parent end in one series |
| `AppealHistories.UpdateNeededIff` | app/models/appeal_history.rb:38-44 | series once generated are generated again exactly when an appeal without one has come or the number of merged appeals is another |
| `AppealHistories.AppealHistory.FindParents` | app/models/appeal_history.rb:97-112 | the parent of every appeal |
| `AppealHistories.AppealHistory.JoinSeries` | app/models/appeal_history.rb:70-82 | appeals join the series of their label in order until a lookup fails; a series is incomplete if and only if one of its appeals is |
| `AppealHistories.AppealHistory.GenerateAppealSeries` | app/models/appeal_history.rb:52-85 | hangs exactly when a merge string does; is done exactly when none hangs and no parents run in a circle or a merge helps, and raises otherwise; when done no update is needed; always done when suffixed records are not earlier and folders are distinct |
| `Dockets.CountTasksMeaning` | app/models/docket.rb:155-165 | however many rows the joins multiply in, a count over tasks is positive exactly when the appeal has such a task and some row passes the filter |
| `Dockets.CountGrantedMeaning` | app/models/docket.rb:146-153 | no kept row shows a granted motion exactly when no younger claimant has one |
| `Dockets.GroupMeaning` | app/models/docket.rb:137-165 | a group passes exactly when the per-appeal condition holds |
| `Dockets.AdvancedIff` | app/models/docket.rb:137-140 | the motions the query counts for a person are those granted and created after the appeal was established |
| `Dockets.QueryMeaning` | app/models/docket.rb:11-34 | asking for appeals that are not ready is refused; else exactly those appeals of the docket are selected that have an open root task, an assigned distribution task if asked, and claimants that meet the condition on birth dates, stream type and motions granted after the appeal was established, stated in the columns |
| `Dockets.ExactlyOneUnlessMixed` | app/models/docket.rb:137-153 | with everything known an appeal is priority or nonpriority, and both exactly when its claimants disagree |
| `Dockets.TwoClaimantsMayDisagree` | app/models/docket.rb:137-153 | an active appeal with an old and a young claimant is in the priority answer and in the nonpriority answer |
| `Dockets.QueriesPartitionDocket` | app/models/docket.rb:28-34 | with one claimant each, known birth dates and stream types, the two queries split the active docket and their counts add up |
| `Dockets.DuplicateTaskChangesNothing` | app/models/docket.rb:155-165 | recording a task twice changes no answer |
| `Dockets.DuplicateMotionChangesNothing` | app/models/docket.rb:137-158 | recording a motion twice changes no answer |
| `DistributedCases.AssignedIsNotReady` | app/models/docket.rb:116-132 | after the assignment the appeal is not ready, and may be redistributed as before |
| `DistributedCases.AssignToJudgeHandsOver` | app/models/docket.rb:116-132 | an appeal handed over has its distribution tasks completed, its first open judge task cancelled, a new assigned judge task, and every other task as it was |
| `DistributedCases.CanRedistributeIff` | app/models/appeal.rb:567-574 | an appeal may be distributed again if and only if every task that is not of the four kinds is completed or cancelled |
| `DistributedCases.RecordCaseIs` | app/models/docket.rb:74-89 | the table after one record: the old record renamed in its place and a new one added, a new one only, or nothing, by whether there is a record and whether the appeal may be distributed again |
| `DistributedCases.RecordAllIs` | app/models/docket.rb:71-90 | the table after all records, in closed form: the old table with the records that make way renamed in their places, and the new records after it in order |
| `DistributedCases.DistributionRecords` | app/models/docket.rb:68-91 | a distribution that goes through hands over exactly the picked appeals and leaves exactly that table |
| `DistributedCases.RedistributionRenames` | app/models/distributed_case.rb:14-17 | for each picked appeal: a record under its uuid keeps its place, appeal and distribution, under the name of the day if the appeal may be distributed again and unchanged if not; and the appeal gets a new record of this distribution exactly if it may or had none |
| `DistributedCases.RecordCaseIsSound` | app/models/docket.rb:71-90 | recording keeps ids unique, loses no record, and the appeal has its own record afterwards |
| `DistributedCases.DistributeIsSound` | app/models/docket.rb:68-91 | one distribution, rolled back or not, keeps the registry sound; if it goes through every picked appeal has a record under its uuid and is not ready |
| `DistributedCases.RegistryIsSound` | db/schema.rb:493 | over every run case ids are unique and each appeal with a record has exactly one under its own uuid |
| `DistributedCases.RecordsStay` | app/models/distributed_case.rb:14-17 | over every run no record is lost: each keeps its place, appeal and distribution, whatever is renamed |
| `DistributedCases.NotHandedOutAgain` | app/models/docket.rb:116-132 | over every run a handed-out appeal is not ready and cannot be picked again until an event gives it an assigned distribution task; other changes of its tasks do not matter |
| `DistributedCases.RecordClashIff` | app/models/distributed_case.rb:14-17 | one record is refused exactly when the old one has to be renamed and the name of that day is taken |
| `DistributedCases.RollbackIff` | app/models/docket.rb:68-91 | a whole distribution is rolled back exactly when some picked appeal, as it was before, has a record to be replaced whose name of the day is taken |
| `DistributedCases.CaseRegistry.AssignJudgeTasks` | app/models/docket.rb:116-132 | the loop over the picked appeals: a judge task for each, distribution tasks completed |
| `DistributedCases.CaseRegistry.RenameForRedistribution` | app/models/distributed_case.rb:14-17 | renames one record in place, refused exactly when the new id is taken |
| `DistributedCases.CaseRegistry.RecordOne` | app/models/docket.rb:74-89 | one record on the table is made as `RecordCaseIs` describes, and refused when that is |
| `DistributedCases.CaseRegistry.DistributeAppeals` | app/models/docket.rb:68-91 | the whole transaction: everything, or nothing on a clash |
| `Distributions.OneActiveIff` | app/models/distribution.rb:22-33 | whatever the jobs see and whenever they finish, a step keeps at most one active distribution of each judge and kind if and only if it does not make one active beside another |
| `Distributions.FreshActivationIff` | app/models/distribution.rb:28-35 | when a job's copy of the row is up to date, only a retry from an error makes a distribution active again, and never beside another when the checks are repeated |
| `Distributions.ValidForCreateIff` | app/models/distribution.rb:12-15 | a push is accepted for a judge whose pushes have all ended; a request, for a judge whose requests have all ended, with few unassigned cases and none waiting long |
| `Distributions.OneActiveAlways` | app/models/distribution.rb:28-79 | over every interleaving of jobs with up-to-date copies and repeated checks, late finishes included, each judge has at most one pending or started distribution of each kind |
| `Distributions.StepKeepsIff` | app/models/distribution.rb:35-49 | a completed distribution stays completed, and only completed ones own cases, if and only if the event is not a failure of a job still at work on it nor a start or requeue from an outdated copy; it stays unchanged if and only if no late success adds to it either |
| `Distributions.FreshRevertsIff` | app/models/distribution.rb:47-49 | with up-to-date copies only a late failure takes a completed distribution back |
| `Distributions.CasesAlwaysIff` | app/models/distribution.rb:28-51 | over every run only completed distributions own cases all along if and only if no event takes a completed one back |
| `Distributions.CompletedForGood` | app/jobs/incomplete_distributions_job.rb:36-44 | over every run with up-to-date copies that requeues only distributions without a job still at work, a completed one never changes again and it alone owns cases |
| `Distributions.LateFailureUndoesCompletion` | app/models/distribution.rb:47-49 | a distribution still at work after 15 minutes is requeued and completed, and then the first job fails: it ends in error and owns a case |
| `Distributions.OutdatedCopyStartsTwo` | app/jobs/incomplete_distributions_job.rb:21-28 | a copy loaded as pending starts a distribution completed meanwhile, beside a new one of the judge |
| `Distributions.UncheckedRetryStartsTwo` | app/models/distribution.rb:31-33 | without the repeated checks a failure, a second request and a retry leave two started |
| `Distributions.DistributionTable.CreateDistribution` | app/models/distribution.rb:75-79 | creates a pending distribution, or nothing if a check fails |
| `Distributions.DistributionTable.Distribute` | app/models/distribution.rb:28-51 | one job alone moves one distribution through started to completed or error; only it changes |
| `Distributions.DistributionTable.RestartPending` | app/jobs/incomplete_distributions_job.rb:21-28 | runs those pending too long in order; only the death of the process ends the loop, and none it handled is pending |
| `Distributions.DistributionTable.RestartStalled` | app/jobs/incomplete_distributions_job.rb:30-46 | requeues and runs the stalled ones in order; the first failure ends the job |
| `ContestableIssues.ContestedByIs` | app/models/contestable_issue.rb:117-123 | the first active request issue that contests the issue, none only if there is none |
| `ContestableIssues.FollowersOf` | app/models/contestable_issue.rb:117-135 | what follows a decision are the decisions of the first active request that contests it by its position and rating issue and by no rating decision |
| `ContestableIssues.TerminatesIff` | app/models/contestable_issue.rb:129-135 | the walk ends if and only if no chain from the issue runs in a circle |
| `ContestableIssues.ChronologicalTerminates` | app/models/contestable_issue.rb:129-135 | when decisions follow the requests they answer, the walk ends |
| `ContestableIssues.SelfAnsweringNeverEnds` | app/models/contestable_issue.rb:129-135 | a decision contested by the request it answers keeps the walk going |
| `ContestableIssues.LatestAreLeaves` | app/models/contestable_issue.rb:99-103 | the walk returns, never empty, exactly the ends of the chains from the issue |
| `AppealSeriesIssues.TypeWhenListed` | app/models/appeal_series_issues.rb:97-101 | a listed disposition gets its own action, wherever in the table |
| `AppealSeriesIssues.TypeIff` | app/models/appeal_series_issues.rb:12-36 | each disposition leads to the action the source lists it under, and unlisted ones to none |
| `AppealSeriesIssues.LastActionIsShown` | app/models/appeal_series_issues.rb:72-95 | the last action is shown by an issue and none is later: a closing of a listed disposition, allowed, denied and remanded ones only if the appeal is not activated, or the latest remand of the court; it is missing only if no issue shows any |
| `AppealSeriesIssues.LastRemand` | app/models/appeal_series_issues.rb:86 | the latest decision date among the remands, none only if there is none |
| `AppealSeriesIssues.Visit` | app/models/appeal_series_issues.rb:73-93 | one round of the fold: the closing, then the remand of the court |
| `AppealSeriesIssues.LastActionForIssues` | app/models/appeal_series_issues.rb:72-95 | the fold returns the first event of the latest date among publishable closings with an action and court remands |
| `AppealSeriesIssues.LatestIsUnique` | app/models/appeal_series_issues.rb:72-95 | the last action of a group is determined |
| `AppealSeriesIssues.DateIgnoresOrder` | app/models/appeal_series_issues.rb:72-95 | the date does not depend on the order of the issues |
| `AppealSeriesIssues.TypeDependsOnOrder` | app/models/appeal_series_issues.rb:72-95 | the type can: two issues closed on one day, in two orders |
| `AppealSeriesIssues.LatestBegins` | app/models/appeal_series_issues.rb:72-95 | the last action is what some issue begins the latest day with |
| `AppealSeriesIssues.TypeIgnoresOrderIff` | app/models/appeal_series_issues.rb:72-95 | every order of the issues gives the same last action if and only if all issues with an action on the latest day begin it with the same one |
| `AdvanceOnDocketMotions.MotionTable.CreateOrUpdateByAppeal` | app/models/advance_on_docket_motion.rb:44-61 | afterwards a motion with the reason and ruling given is in the table, whatever was in it; with one motion of a kind before there is one after, it is the ruling on record, and no other ruling changed |
| `AdvanceOnDocketMotions.MotionTable.CopyGrantedMotionsToAppeal` | app/models/advance_on_docket_motion.rb:64-75 | appends the granted motions of the people of both appeals, in order, to the other appeal |
| `AdvanceOnDocketMotions.PlaceIs` | app/models/advance_on_docket_motion.rb:46-57 | the row that takes a ruling is the last one with the same reason, else the last one not due to age |
| `AdvanceOnDocketMotions.UpdateKeeps` | app/models/advance_on_docket_motion.rb:54-60 | an update never makes a second motion of a kind |
| `AdvanceOnDocketMotions.UpdateRuling` | app/models/advance_on_docket_motion.rb:44-61 | an update changes the ruling of its own key, to the one given, and no other |
| `AdvanceOnDocketMotions.CopyKeepsIff` | app/models/advance_on_docket_motion.rb:64-75 | a copy keeps one motion of a kind if and only if no copied motion has a counterpart already |
| `AdvanceOnDocketMotions.CopyMayClash` | app/models/advance_on_docket_motion.rb:64-75 | a granted motion copied beside a denied one of its kind makes two |
| `AdvanceOnDocketMotions.CopyRuling` | app/models/advance_on_docket_motion.rb:63-75 | after such a copy the other appeal has the granted rulings of the people it shares, and nothing else changed |
| `AdvanceOnDocketMotions.OnePerKindAlwaysIff` | app/models/advance_on_docket_motion.rb:52-55 | over every run from an empty registry there is one motion of a kind all along if and only if no copy clashes |
| `AdvanceOnDocketMotions.CopiesToNewAppealsAreClean` | app/models/advance_on_docket_motion.rb:63-75 | a run that copies only to appeals without motions never clashes and ends with one motion of a kind |
| `AdvanceOnDocketMotions.RegistryIsBook` | app/models/advance_on_docket_motion.rb:44-75 | the rows stand for a book of rulings by appeal, person and kind, over every run without a clash |
| `AdvanceOnDocketMotions.GrantedForPersonIff` | app/models/advance_on_docket_motion.rb:34-42 | a person advances an appeal exactly when that book has a granted ruling for the appeal, or one due to age for any appeal |
| `EndProductUpdates.DescriptionSurvivesIff` | app/models/end_product_update.rb:71-88 | the description of a nonrating issue survives a change to rating and back if and only if it is not blank or equals what was contested |
| `EndProductUpdates.WordingSurvives` | app/models/end_product_update.rb:71-88 | the wording of a rating issue survives a change to nonrating and back |
| `EndProductUpdates.UpdateChanges` | app/models/end_product_update.rb:49-88 | what an update makes of each column of an issue of the end product, by how the labels differ; a description of white space only does not count |
| `EndProductUpdates.SharedIff` | app/models/end_product_update.rb:93 | a review counts as shared exactly when two end products have it as their source |
| `EndProductUpdates.EndProductUpdate.UpdateCorrectionType` | app/models/end_product_update.rb:49-54 | only issues of the end product change, and only when the correction type does |
| `EndProductUpdates.EndProductUpdate.UpdateIssueType` | app/models/end_product_update.rb:56-61 | only issues of the end product change, to rating or nonrating, and only when the issue type does |
| `EndProductUpdates.EndProductUpdate.FindOrCreateStream` | app/models/claim_review.rb:47-50 | the first review of equal attributes and the benefit type, created at the end if there is none |
| `EndProductUpdates.EndProductUpdate.UpdateBenefitType` | app/models/end_product_update.rb:63-100 | moves end product and issues to the stream when the review has other end products, else changes the review |
| `EndProductUpdates.EndProductUpdate.Perform` | app/models/end_product_update.rb:19-47 | succeeds exactly when the remote call is accepted and both codes are known; a failure leaves every table as it was and sets the error status |
| `EndProductUpdates.UpdateAgreesIff` | app/models/end_product_update.rb:19-100 | a successful update keeps code, issues, source and benefit types in agreement if and only if every part that the original code leaves alone is already as the new code says |
| `EndProductUpdates.StaleOriginalCode` | app/models/end_product_update.rb:49-61 | with another original code rated issues can be left under a nonrating code |
| `EndProductUpdates.UpdateAgrees` | app/controllers/claim_review_controller.rb:39-43 | with the end product's own code as original code agreement is always kept |
| `EndProductUpdates.SplitsWhenShared` | app/models/end_product_update.rb:90-100 | on a change of benefit type an end product that shares its review moves to one that differs in benefit type only; one that does not takes its review along |
| `EndProductUpdates.UpdateFrame` | app/models/end_product_update.rb:19-100 | no issue is lost, added or taken from another end product; other end products and their issues are untouched and at most one review is changed or added |
| `EndProductUpdates.SameStream` | app/models/claim_review.rb:47-50 | two end products split off for one benefit type end on the same review |
| `EndProductUpdates.RunAgrees` | app/models/end_product_update.rb:19-100 | over every run of edits, failed ones included, everything stays in agreement and every issue with its end product |

## Left out

- ClaimReviews.ClaimReview: the end products of a review are values in a field, so two Ruby objects for one row are not told apart; `processed_in_caseflow?`, `process_legacy_issues!` and the job messages are a flag each or absent.
- DecisionDocuments.DecisionDocument: the end products are values in a field; creating remand claims and the check for an unrecognised claimant are a flag each, and correction codes are absent because `correction?` is always false.
- EstablishmentRuns.OrphansStayBounded: attempts run one after another; two attempts that look for the same lost claim at the same time are not modelled.
- EstablishmentRuns.EveryClaimHeldOnce: the runs have no open claims of a record's own veteran, code, date and payee made by other systems, as such a claim cannot be told from a lost one; all other foreign claims are in.
- EndProductEstablishments.EndProductEstablishment.PerformStep: `perform!(commit: true)` for RAMP reviews, modifiers and the validation of an end product (a flag) are not modelled.
- EndProductEstablishments.EndProductEstablishment.GenerateLetterStep: letters and tracked items may be made remotely more than once when the local write is lost; only the local ids are claimed to stay.
- AppealHistories.MergedTreeFollowsTarget: the merge table is followed one level only, as in the source, so chains of merges are not claimed to end in one series.
- Dockets.QueryMeaning: the genpop and judge scopes, the ordering of the results and the hearing and legacy dockets are absent.
- DistributedCases.CaseRegistry.DistributeAppeals: the number of cases, legacy and hearing dockets and the redistribution flag in the log are absent; the picked appeals are a parameter.
- Distributions.DistributionTable.RestartStalled: the methods on the table run one job after another; interleaved jobs and outdated copies are in the steps, not in the methods.
- AdvanceOnDocketMotions.MotionTable.CopyGrantedMotionsToAppeal: both appeals are of one type, as for a court remand; `transfer_granted_motions_to_person` puts motions of several people on one person and is absent.
- AppealSeriesIssues.LastActionForIssues: grouping by issue type and the texts of an issue are absent, and decision dates of remands are present.
- EndProductUpdates.EndProductUpdate.Perform: the review is the one the end product belongs to where agreement is claimed; creating a stream always succeeds and its claimants are not modelled; the classes of issues are rating and nonrating.
- ContestableIssues.LatestAreLeaves: `ContestableIssue` fields that only serve the screen are absent, and so is the sorting of the serialised issues by date; the order of the latest issues and how often one is listed are left open.
- Legacy issue opt-in, docket proportions, automatic distribution, series status ladders, certification and document models: tables of cases, or code whose core is elsewhere.
- Controllers, serializers, mailers, metrics, logging, access control and feature toggles.
