# Verified core of APM

APM is a spoken-English tutor: a backend that runs conversations with an LLM, meters them,
schedules reviews and manages accounts, and a pronunciation service that aligns phonemes to
audio frames. This project models the parts of it whose correctness depends on unbounded inputs,
on interleavings or on whole histories, and proves what they are for. `dafny verify
dfyconfig.toml` checks all of it.

| subject | files |
|---|---|
| CTC forced alignment | `CtcAlignment`, `CtcCollapse`, `CtcForcedAlign` |
| Streaming sentence splitter | `Whitespace`, `Chunking`, `SentenceSplitter`, `Abbreviations`, `SentenceStream` |
| Turn protocol: idempotency keys, turn lock, transcript | `IdempotencyTable`, `TurnProtocol`, `TurnSafety`, `TurnTheorems`, `TurnScenario`, `TurnRetry`, `TurnOutcomes` |
| Sessions, quota and streaks | `Streaks`, `SessionLedger`, `SessionRuns`, `SessionBilling`, `SessionQuota`, `SessionOrder`, `SessionTheorems` |
| Refresh-token rotation | `RefreshTokens`, `RefreshRotation` |
| Keyset-paginated export | `KeysetExport` |
| Sliding-window rate limiter | `RateLimit` |
| LLM provider fallback | `FallbackStream` |
| Spaced repetition | `ReviewLadder` |

## Main results

- **Alignment.** Each trellis cell is the best score of any admissible path to it. The backtracked
  path is a best complete path, spells exactly the targets once repeats are merged and blanks
  dropped, and is the likeliest of *all* frame labellings that do; of all best paths it is the one
  furthest along in every frame, which settles every tie. An alignment exists if and only
  if there are as many frames as targets plus adjacent equal pairs; otherwise every span is empty.
  `ForcedAlign` is the loop program over mutable matrices, proved against this.
- **Sentences.** However the network cuts a text into deltas, the stream yields the sentences of
  the whole text; nothing but whitespace is lost; a cut is made exactly at each first sentence end.
  A period after a word and before whitespace ends one unless the word is a single letter or a listed
  abbreviation, in any mix of cases.
- **Turns.** Over every interleaving of requests, crashes, disconnects, failed writes and purges:
  one holder per turn lock, an abandoned lock goes to the first who asks once it is stale, the
  stored transcript is the tail of the commit-ordered history and a stored turn is never rewritten,
  the LLM sees the tail of that history, and a completed idempotency key has one effect and one
  answer for a day. The exact conditions are on the database: as long as its row is not purged, a
  key can commit or be answered anew if and only if the row holds no response. The inputs that
  break it (a failed completion, an unsaved reply, a purge) are given as runs. A turn that fails can
  give back its key and its lock at once and be retried, a completed key is replayed, and a key whose
  request went away is closed for 120 s and no longer.
- **Billing.** Over every interleaving of turns, ends and starts, backdated turns included: one
  open session, start is all or nothing, and the ledgers agree. Four things hold only when turn
  instants behave, and for each the exact condition is proved: time is billed once and inside its
  session iff no turn goes back before what was billed; no time is left out iff no turn goes back
  before the last activity; the daily counter is the day's sum iff no charge returns to a day left
  before; the streak is right iff the active days come in order. For each a run shows an input that
  the program accepts and that breaks it. What a start answers is given by the charges alone, and an
  /end is final.
- **Tokens.** A token is exchanged once, a chain has one unrevoked token, reuse past the grace
  period is final, and over whole runs a token dies by the listed causes and no others. An account
  can hold tokens exactly as the last word on it says, so a reactivated user can log in.
- **Export, limiter, fallback, reviews.** Exactness under concurrent change; agreement with a
  limiter that forgets nothing; one provider's prefix within one shared deadline; the stored
  schedule is a function of the session history, every rung is taken by the first clean session at
  or after 1, 3 and 7 days, neither sooner nor later, and sessions at one instant commute up to
  correction texts.

## How the model reads the program

- Log-probabilities are finite reals, and `-inf` is a separate value. Labels are non-negative.
  A target may equal the blank, except in the theorems about the collapse map.
- Regular expressions are given by what they match. `$` also matches before a final newline, as in
  Python, so an abbreviation is found there too. Whether a period follows an abbreviation is
  judged in the text left after the last cut, as the program does.
- SQL statements and sections under a row lock are atomic steps. Everything between them
  interleaves. Database clock and process clock are one. Refresh-token transactions are serial.
- Turn runs assume what `idempotency/service.py:22-24` demands: no live request holds a key or a
  lock for more than 120 s. It is built into the step that advances time. The names of turn locks
  and client keys never collide (`idempotency/service.py:27-30`); an empty `Idempotency-Key`
  header is no key. Any work may fail, be cancelled or crash at any step. The periodic purge of
  rows older than 24 h (`purge/task.py:81-85`) is a step that may come at any moment. Erasure of
  voice data, which deletes live claims, is not part of the runs.
- A turn counts as committed when its transaction commits. When the session was ended meanwhile,
  metering returns without a commit and the transcript write is lost with it, although the request
  is answered and its key completed (`EndedTurnIsLost`); when metering fails
  with an exception, the transcript is committed alone.
- Billing runs have at most one turn in flight per session (the turn lock). The instant a turn
  carries is arbitrary in the past, since `clamp_practiced_at` accepts client instants up to 48 h
  old and `last_activity_at` then moves backwards (`sessions/service.py:260`). Conditions on these
  instants are hypotheses on runs (`AllInBounds`, `AllInOrder`), never part of the step system. The
  cap per stretch is not negative.
- Tokens are never generated twice, and a transaction reads the clock once.
- The limiter's clock does not go back, and it may track at least one key.

Where the code and its own comments differ, the model follows the code:

- `gop.py:30-31` says that only trailing phonemes get empty spans when frames are too few. When
  there are enough frames for the targets but not for the blanks between equal neighbours,
  the backtrack runs into index -1 and *all* spans are empty.
- `rate_limit.py:41` calls the in-memory limiter fixed-window; it is a sliding window.
- `sessions/service.py:3` says the duration runs from start to now; it is the metered time, as
  `sessions/service.py:281-282` says.

## Model

| member | source | states |
|---|---|---|
| `CtcAlignment.CellIsOptimal` | pronunciation-service/src/pronunciation/ml/gop.py:50-73 | every `dp[f][s]` is the greatest score of an admissible path over frames 0..f ending at s, and is -inf exactly when there is none |
| `CtcAlignment.ReachedIffEnoughFrames` | pronunciation-service/src/pronunciation/ml/gop.py:59-73 | a cell is reached exactly when the frames so far cover the labels and forced blanks before it |
| `CtcAlignment.AlignedPathIsOptimal` | pronunciation-service/src/pronunciation/ml/gop.py:75-81 | with enough frames the backtracked path is complete and admissible and no complete path scores higher |
| `CtcAlignment.AlignedPathIsFurthest` | pronunciation-service/src/pronunciation/ml/gop.py:59-81 | how ties are broken: no best path is further along than the backtracked one in any frame |
| `CtcAlignment.InfeasiblePath` | pronunciation-service/src/pronunciation/ml/gop.py:75-81 | with too few frames the backtrack reads index -1 and never meets a label |
| `CtcCollapse.CompletePathCollapses` | pronunciation-service/src/pronunciation/ml/gop.py:44-81 | merging repeats and dropping blanks along any complete path gives exactly the targets |
| `CtcCollapse.LabellingIsComplete` | pronunciation-service/src/pronunciation/ml/gop.py:59-73 | conversely, every labelling that collapses to the targets is a complete path of the trellis |
| `CtcCollapse.BestPathIsMostLikely` | pronunciation-service/src/pronunciation/ml/gop.py:50-81 | the chosen path has the greatest log-probability among all labellings that collapse to the targets |
| `CtcCollapse.FeasibleIffSpellable` | pronunciation-service/src/pronunciation/ml/gop.py:68-70 | feasible iff some labelling spells the targets iff frames >= targets + adjacent equal pairs |
| `CtcCollapse.FeasibleByCount` | pronunciation-service/src/pronunciation/ml/gop.py:59-70 | for every list of targets, blanks among them included: a complete path exists iff there is a frame for each target and one for each target that repeats its neighbour or is the blank |
| `CtcForcedAlign.CompleteSpans` | pronunciation-service/src/pronunciation/ml/gop.py:83-93 | on a complete path the spans are non-empty, ordered, disjoint and exactly the frames of their labels |
| `CtcForcedAlign.SpansAreDetermined` | pronunciation-service/src/pronunciation/ml/gop.py:59-93 | emissions and targets leave no choice of spans |
| `CtcForcedAlign.ExtendedSequence` | pronunciation-service/src/pronunciation/ml/gop.py:44-48 | blanks at even places, the targets in order at odd ones |
| `CtcForcedAlign.BestPredecessor` | pronunciation-service/src/pronunciation/ml/gop.py:61-70 | the three moves tried in order, each taken only when strictly better |
| `CtcForcedAlign.FillTrellis` | pronunciation-service/src/pronunciation/ml/gop.py:50-73 | the matrices filled in place are the trellis and its back pointers |
| `CtcForcedAlign.Backtrack` | pronunciation-service/src/pronunciation/ml/gop.py:75-81 | the array filled backwards is the traced path, negative index included |
| `CtcForcedAlign.FramesAt` | pronunciation-service/src/pronunciation/ml/gop.py:86-88 | all frames of a position, in order, and no others |
| `CtcForcedAlign.CollectSpans` | pronunciation-service/src/pronunciation/ml/gop.py:83-93 | each span runs from the first to the last frame of its label, or is the empty one |
| `CtcForcedAlign.ForcedAlign` | pronunciation-service/src/pronunciation/ml/gop.py:25-93 | exact spans of the furthest best path when feasible, all empty when not, one frame each for the first targets when frames < targets |
| `Chunking.PiecesInTwoGoes` | backend/app/core/llm/providers/deepseek.py:112-130 | for any rule whose cuts later text cannot change, cutting in two goes is cutting at once |
| `Chunking.PiecesAt` | backend/app/core/llm/providers/deepseek.py:115-130 | the pieces run from cut to cut, and nothing can be cut off the rest |
| `SentenceSplitter.StripParts` | backend/app/core/llm/providers/deepseek.py:126-135 | strip removes exactly the whitespace at both ends |
| `SentenceSplitter.TrailingWord` | backend/app/core/llm/providers/deepseek.py:42-48 | the leftmost run of letters and dots, starting with a letter, that reaches the end |
| `Abbreviations.AbbreviationMeaning` | backend/app/core/llm/providers/deepseek.py:18-54 | an abbreviation is found iff the text's last run of letters and dots, without the dots around it, is a single letter or a listed word in any mix of cases |
| `SentenceSplitter.MatchUnique` | backend/app/core/llm/providers/deepseek.py:16 | at most one match of the sentence-end pattern starts at any place |
| `SentenceSplitter.SearchIsLeftmost` | backend/app/core/llm/providers/deepseek.py:114-116 | the search finds the leftmost match, and one whenever there is one |
| `SentenceSplitter.CutStable` | backend/app/core/llm/providers/deepseek.py:112-128 | text that arrives later never changes a cut already found |
| `SentenceStream.CutsAtFirstBoundary` | backend/app/core/llm/providers/deepseek.py:114-128 | a cut is made at e iff e is the first sentence end: a whole terminator run before whitespace that is not a lone period after an abbreviation |
| `SentenceStream.EarlyIsPrefix` | backend/app/core/llm/providers/deepseek.py:108-130 | what has been yielded so far is a prefix of the sentences of every continuation |
| `SentenceStream.SentencesConserve` | backend/app/core/llm/providers/deepseek.py:113-137 | the text is its sentences in order with only whitespace around them, and some between any two |
| `SentenceStream.BatchCutsEveryBoundary` | backend/app/core/llm/providers/deepseek.py:114-137 | the equations of the batch splitter: cut at the first sentence end and go on; without one, the text is one sentence or none |
| `SentenceStream.SentencesEndAtBoundaries` | backend/app/core/llm/providers/deepseek.py:114-137 | every sentence but the last ends at the first sentence end after the cut before it, and after the last cut there is none |
| `SentenceStream.PeriodEndsIff` | backend/app/core/llm/providers/deepseek.py:114-125 | a period after a word and before whitespace ends a sentence iff the word is not an abbreviation, in any text around it |
| `SentenceStream.AbbreviationKeepsSentence` | backend/app/core/llm/providers/deepseek.py:18-54 | a text with no other terminator before whitespace than the period of an abbreviation leaves in one piece |
| `SentenceStream.FindCut` | backend/app/core/llm/providers/deepseek.py:114-125 | the loop over `search_from` finds the first cut |
| `SentenceStream.DrainBuffer` | backend/app/core/llm/providers/deepseek.py:113-130 | the inner loop yields every complete sentence and leaves the rest |
| `SentenceStream.StreamComplete` | backend/app/core/llm/providers/deepseek.py:94-137 | for every cutting into deltas a stream that ends yields the sentences of the whole text; one that breaks has yielded the complete ones |
| `IdempotencyTable.IdempotencyRepository.Claim` | backend/app/features/idempotency/repository.py:48-67 | won iff there is no row or a stale pending one; the row then is pending from now |
| `TurnSafety.EveryStep` | backend/app/features/conversation/router.py:65-230 | every step of every request, every failure and every tick keeps the protocol invariant |
| `TurnTheorems.OneHolderPerLock` | backend/app/features/idempotency/service.py:119-140 | in every reachable state at most one request holds a session's turn lock |
| `TurnTheorems.OnlyHoldersTouchRows` | backend/app/features/idempotency/repository.py:69-83 | although no statement checks it, a request only completes or deletes rows it claimed itself |
| `TurnTheorems.LockSelfHeals` | backend/app/features/idempotency/service.py:119-140 | over any run, when nobody held a lock, nobody got it since and more than 120 s have passed, whoever asks gets it, however many were refused before |
| `TurnTheorems.NoLostTurn` | backend/app/features/conversation/persist.py:45-68 | the stored transcript is the last M messages of the commit-ordered history |
| `TurnTheorems.PersistedTurnStays` | backend/app/features/conversation/persist.py:34-68 | in every later state the stored transcript is the one a persisted turn was based on, the turn, and exactly the messages committed since, trimmed from the front |
| `TurnRetry.EndedTurnIsLost` | backend/app/features/sessions/service.py:235-259 | when the session ended before the turn was persisted, a run answers the request and completes its key with nothing stored, and for a day nothing is committed under the key |
| `TurnTheorems.PromptIsRecentHistory` | backend/app/features/conversation/turn_service.py:338-361 | the LLM sees the last committed messages that both limits allow, then the new text |
| `TurnTheorems.AtMostOneEffect` | backend/app/features/idempotency/service.py:57-108 | unless its completion failed or it was purged with its response, one key commits at most one turn, failed persists included |
| `TurnTheorems.SameAnswer` | backend/app/features/idempotency/service.py:57-108 | unless moreover a delivered reply could not be saved, all answers under one key are the same and the committed reply |
| `TurnRetry.CommitsAgainIffNoResponse` | backend/app/features/idempotency/service.py:87-112 | the exact condition for one effect: from any reachable state, in runs that spare its row from the purge, a further commit under a key can happen iff the row holds no response, while its user has a session open |
| `TurnRetry.CompletedKeyHoldsForADay` | backend/app/features/purge/task.py:81-85 | until 24 h after its claim no run, purges included, changes the response of a completed key or commits under it again |
| `TurnRetry.PurgedKeyCommitsAgain` | backend/app/features/purge/task.py:81-85 | from every reachable state, whatever its row holds, a key can commit once more after a purge |
| `TurnRetry.AnsweredAnewIffNoResponse` | backend/app/features/idempotency/service.py:87-112 | the exact condition for one answer: in runs that spare its row, a later request under a key can be answered with something the row does not hold iff the row holds no response |
| `TurnRetry.UnsavedReplyIsAnsweredAnew` | backend/app/features/conversation/turn_service.py:271-288 | after a delivered stream could not be saved, its request keeps its answer and a later one under the same key can be answered with anything else |
| `TurnRetry.FailedCompletionCommitsTwice` | backend/app/features/conversation/router.py:182-197 | whenever a request commits and its completing write fails, its retry can commit again |
| `TurnScenario.UnopposedTurn` | backend/app/features/conversation/router.py:65-230 | from every state, a request, with a key or without, that finds its key and lock free and its session open can run to its answer, having committed exactly its own turn, completed its key and freed the lock |
| `TurnProtocol.WhatContends` | backend/app/features/idempotency/service.py:27-30 | requests share a lock iff they are for one user's one session, and a key iff one user sent both with it; no key is taken for a lock, as the program has it |
| `TurnOutcomes.FailedTurnGivesBack` | backend/app/features/conversation/router.py:158-230 | from every state, whichever way a turn fails, its request can end at once by its own releases: unanswered, key and lock gone, nothing else changed, no time passed |
| `TurnOutcomes.FailedTurnRetries` | backend/app/features/idempotency/service.py:77-83 | the same request can then be made again and served without any time passing |
| `TurnOutcomes.TakenKeyIsTold` | backend/app/features/idempotency/service.py:102-107 | a request that cannot claim its key is told what the row holds, a conflict when that is nothing, and changes nothing |
| `TurnOutcomes.CompletedKeyIsReplayed` | backend/app/features/idempotency/service.py:95-107 | from every state a request under a completed key is answered with the stored reply, by a lookup alone, whether it came before or after the completion |
| `TurnOutcomes.BrokenStreamIsReplayed` | backend/app/features/conversation/turn_service.py:254-270 | a stream that broke off is stored with what was heard, ends without an answer, and is replayed to later requests |
| `TurnOutcomes.OrphanedKeyWaits` | backend/app/features/idempotency/repository.py:48-67 | after a disconnect, a crash or an unsaved delivery, no run commits under the key or answers a later request until 120 s after its claim, and a retry can be answered afterwards |
| `Streaks.StreakIsRun` | backend/app/features/streaks/logic.py:21-42 | for every non-decreasing history, current is the run ending on the last day and longest the longest run of all |
| `Streaks.DisplayedStreakIsRun` | backend/app/features/streaks/logic.py:45-54 | the displayed streak is the run that reaches today, or yesterday, and else 0 |
| `Streaks.ExactIffInOrder` | backend/app/features/streaks/logic.py:21-42 | the exact condition: the stored state is right after every registered day iff no day was registered after a later one |
| `SessionLedger.ElapsedMinutes` | backend/app/features/sessions/activity.py:15-22 | the minutes from mark to now, 0 when now is earlier |
| `SessionLedger.CappedMinutes` | backend/app/features/sessions/activity.py:15-22 | the elapsed minutes or the cap, whichever is less |
| `SessionLedger.ClampPracticedAt` | backend/app/features/sessions/service.py:35-45 | a client instant within the last 48 h is kept, any other becomes now |
| `SessionLedger.SessionService.Bill` | backend/app/core/quota.py:13-17 | minutes are added to the day's counter, which restarts on a new day |
| `SessionLedger.SessionService.CloseSession` | backend/app/features/sessions/service.py:271-285 | the session ends and its capped residual goes to both ledgers, not yet committed |
| `SessionLedger.SessionService.RecordTurn` | backend/app/features/sessions/service.py:254-269 | under the lock, an ended session changes nothing; else activity, both ledgers and the streak are committed together |
| `SessionLedger.SessionService.End` | backend/app/features/sessions/service.py:207-217 | closes an open session, and is a no-op on an ended one |
| `SessionLedger.SessionService.Start` | backend/app/features/sessions/service.py:110-172 | what every path through start commits and answers |
| `SessionLedger.FirstActive` | backend/app/features/sessions/service.py:123 | an un-ended session of the user, if there is one |
| `SessionRuns.EveryStep` | backend/app/features/sessions/service.py:110-285 | every step of every interleaving, backdated turns included, keeps the ledgers consistent and only the last session open |
| `SessionBilling.StepReady` | backend/app/features/sessions/service.py:219-285 | one step keeps billing exact iff the turn it meters, if any, is not before what its session was billed up to |
| `SessionBilling.SettlesIsReady` | backend/app/features/sessions/service.py:271-285 | if closing the open session bills exactly whenever it happens, the session was not set back before what it was billed up to |
| `SessionOrder.StepAccounts` | backend/app/features/sessions/service.py:219-285 | one step keeps all time accounted for iff the turn it meters, if any, is not before the last activity |
| `SessionTheorems.OneActiveSession` | backend/app/features/sessions/models.py:18-25 | at most one un-ended session in every state of every run |
| `SessionTheorems.LedgersAgree` | backend/app/features/sessions/service.py:195-285 | in every run each session's duration is what was charged for it, and the counter is the latest charges in a row on its day |
| `SessionTheorems.EndIsFinal` | backend/app/features/sessions/service.py:195-285 | once /end commits, its session is ended as of its instant with the capped rest billed, or as it was before, and no later step changes its row or charges for it |
| `SessionTheorems.NoDoubleBilling` | backend/app/features/sessions/service.py:195-285 | when turns are in bounds, stretches are disjoint and inside their sessions, and each duration is what was charged and at most the elapsed time |
| `SessionTheorems.BilledOnceIffInBounds` | backend/app/features/sessions/service.py:195-285 | the exact condition: billing is sound in every state of a run, now and when the open session closes, iff every metered turn is not before the end of its session's last charge, or its start |
| `SessionTheorems.QuotaIsDaySum` | backend/app/core/quota.py:13-17 | the counter is the sum of its day's charges when no charge returned to a day left before, and sound billing ensures that |
| `SessionQuota.ChargeKeepsDaySum` | backend/app/core/quota.py:13-17 | a charge keeps the counter equal to the day's sum iff its day is the stored one or has no earlier charge |
| `SessionQuota.DaySumIffDaysKept` | backend/app/core/quota.py:13-17 | the exact condition over whole histories of charges |
| `SessionTheorems.BackdatingRestoresQuota` | backend/app/features/sessions/service.py:35-45 | a user refused at every start today gets past the check by two turns backdated to another day, within what the clamp accepts, though today's minutes are as many as before |
| `SessionTheorems.BackdatingBillsTwice` | backend/app/features/sessions/service.py:35-45 | from any state with an open session, a turn the clamp accepts before what was billed, and a turn now, leave unsound billing |
| `SessionTheorems.BackdatingLosesTime` | backend/app/features/sessions/service.py:35-45 | a turn the clamp accepts before the last activity leaves time unaccounted for |
| `SessionTheorems.BackdatingBreaksStreak` | backend/app/features/sessions/service.py:35-45 | a turn the clamp accepts on a day before an active one leaves the stored streak wrong |
| `SessionTheorems.TotalBilledIsElapsed` | backend/app/features/sessions/service.py:110-285 | when turns are in bounds, all sessions together are billed at most the time since the first start |
| `SessionTheorems.StartIsAtomic` | backend/app/features/sessions/service.py:110-172 | in every run start commits nothing, only the reap, or the possible reap with the new session |
| `SessionTheorems.StartAnswersExactly` | backend/app/features/sessions/service.py:110-172 | in every reachable state, which of its four answers a start gives, from the charges, the last activity and the mission alone |
| `SessionTheorems.PaidIsNeverExhausted` | backend/app/core/quota.py:7-8 | a user of a paid tier is never refused for the quota, before or after a reap |
| `SessionTheorems.StartGoesByDaySum` | backend/app/core/quota.py:6-10 | without double charges, the first check refuses iff the user is free and the day's minutes reach the quota, and the check after a reap iff they do with the rest it bills |
| `SessionTheorems.CountedIsDaySum` | backend/app/core/quota.py:6-17 | when no charge came back to a day left before, the minutes a check counts are the day's sum iff the counter stands on the day or the day has no charges |
| `SessionTheorems.StartSucceedsExactly` | backend/app/features/sessions/service.py:117-172 | start succeeds iff the user is not free or the minutes counted from the charges are below the quota, the mission is owned, and any open session has idled past the timeout and leaves quota when its rest is billed |
| `SessionTheorems.StreakInRuns` | backend/app/features/sessions/service.py:266-268 | in every run the stored streak is that of the days with a metered turn, and right when these came in order |
| `SessionTheorems.AllTimeBilledIffInOrder` | backend/app/features/sessions/service.py:235-285 | the exact condition: in every state of a run the billed stretches cover each session's whole time, each in full up to the cap, iff no metered turn was before the last activity |
| `SessionTheorems.InOrderIsExact` | backend/app/features/sessions/service.py:219-285 | turns in order make billing, counter, streak and billed time exact at once |
| `RefreshTokens.AuthService.Refresh` | backend/app/features/auth/service.py:142-184 | what each path commits: the rotation, the revocation of the user's tokens on reuse, or nothing |
| `RefreshTokens.AuthService.Logout` | backend/app/features/auth/service.py:186-189 | an unrevoked token is revoked; anything else is left alone |
| `RefreshTokens.AuthService.SetActive` | backend/app/features/auth/service.py:276-293 | deactivation and revocation of all tokens are one transaction; reactivation revokes nothing |
| `RefreshTokens.AuthService.Register` | backend/app/features/auth/service.py:95-117 | the user and the first token are stored together or not at all |
| `RefreshTokens.AuthService.Login` | backend/app/features/auth/service.py:119-140 | an active account is given a token, any other nothing |
| `RefreshRotation.EveryStep` | backend/app/features/auth/service.py:80-293 | every transaction keeps the token invariant |
| `RefreshRotation.RotationIsExclusive` | backend/app/features/auth/service.py:142-184 | each token is exchanged at most once, each chain has at most one unrevoked token, inactive accounts none |
| `RefreshRotation.AccountStep` | backend/app/features/auth/service.py:276-293 | registration and set_active decide whether an account can hold tokens, in both directions, and nothing else touches it |
| `RefreshRotation.ActiveByLastWord` | backend/app/features/auth/service.py:276-293 | over whole runs an account can hold tokens iff the last word on it said so |
| `RefreshRotation.LiveTokenIff` | backend/app/features/auth/service.py:80-140 | a login leaves a live token iff the account is active and a registration iff it is new; the token is the user's and lives for the configured time |
| `RefreshRotation.ReactivatedCanLogIn` | backend/app/features/auth/service.py:276-293 | from every reachable state a user set active can log in, and over any run the token refreshes iff it has not expired and nothing on the list killed it |
| `RefreshRotation.RefreshSucceedsExactly` | backend/app/features/auth/service.py:142-184 | a refresh succeeds iff the token is unrevoked and unexpired, and its successor takes its place |
| `RefreshRotation.KilledExactlyBy` | backend/app/features/auth/service.py:142-293 | the complete list of what ends an unrevoked token in one step; everything else leaves it unchanged |
| `RefreshRotation.SurvivesIffNotKilled` | backend/app/features/auth/service.py:142-293 | over whole runs an unrevoked token is still there, unchanged, iff nothing on the list has killed it |
| `RefreshRotation.DeadForever` | backend/app/features/auth/repository.py:157-177 | over whole runs a dead token stays dead and `revoked_at` is written once |
| `RefreshRotation.ReuseIsFinal` | backend/app/features/auth/service.py:148-167 | reuse past the grace period fails, yet kills every token of the user for good |
| `RefreshRotation.GraceRetryIsHarmless` | backend/app/features/auth/service.py:149-167 | over any run after a rotation, a retry of the old token within the grace period is refused and changes nothing, and the new token works iff it has not expired and nothing killed it |
| `RefreshRotation.PurgeIsSafe` | backend/app/features/auth/repository.py:179-205 | purging removes exactly the expired tokens and changes the success of no later refresh |
| `KeysetExport.Passed` | backend/app/features/voice_data/repository.py:324-330 | the rows after the cursor are exactly those from the returned place on |
| `KeysetExport.PageIsNextRows` | backend/app/features/voice_data/repository.py:318-331 | a page is the rows right after the cursor, in order, none skipped, and short only when nothing is left |
| `KeysetExport.KeysetPages` | backend/app/features/voice_data/repository.py:264-293 | the page loop yields the export defined by recursion over the snapshots it sees |
| `KeysetExport.ExportIncreasing` | backend/app/features/voice_data/repository.py:264-293 | keys come out strictly increasing, so no row twice, however the table changes |
| `KeysetExport.ExportSound` | backend/app/features/voice_data/repository.py:264-293 | every exported row was in the table at one of the fetches |
| `KeysetExport.ExportComplete` | backend/app/features/voice_data/repository.py:264-293 | a finished export holds every row that was present at each fetch |
| `KeysetExport.StaticExportIsWhole` | backend/app/features/voice_data/repository.py:264-293 | on a static table the loop ends iff the pages have room for more than the rows, and yields the table |
| `RateLimit.NoWindowOverfull` | backend/app/core/rate_limit.py:70-76 | no closed window of the given length holds more than the maximum of accepted hits |
| `RateLimit.KeyOkAsked` | backend/app/core/rate_limit.py:58-76 | deciding by the length of the trimmed bucket is deciding by the full accepted history |
| `RateLimit.InMemoryRateLimiter.Expire` | backend/app/core/rate_limit.py:59-61 | exactly the hits older than the window are dropped |
| `RateLimit.InMemoryRateLimiter.Refresh` | backend/app/core/rate_limit.py:56-64 | the key's bucket holds only hits in the window, nothing the reference needs is lost, and the key's entry goes iff no hit is left |
| `RateLimit.InMemoryRateLimiter.MakeRoom` | backend/app/core/rate_limit.py:65-71 | a new key goes to the end, and at capacity the key with the oldest entry, and no other, is evicted |
| `RateLimit.InMemoryRateLimiter.Check` | backend/app/core/rate_limit.py:55-76 | a key never evicted gets the reference's decision, its windows hold at most the maximum, tracked keys stay within the cap, and who is evicted is determined by the order of the entries |
| `FallbackStream.WaitsWithinDeadline` | backend/app/core/llm/providers/fallback.py:83-103 | no first chunk is awaited past the shared deadline, however many providers there are |
| `FallbackStream.TryProvider` | backend/app/core/llm/providers/fallback.py:86-117 | one attempt: the wait it makes, when it comes to nothing, and what it emits |
| `FallbackStream.StreamComplete` | backend/app/core/llm/providers/fallback.py:80-125 | the chunks are a prefix of one provider's stream, all earlier ones stayed silent, and giving up means all did or time is spent |
| `ReviewLadder.RecordSession` | backend/app/features/review/service.py:43-72 | in whatever order the types come, all of them advance, or none when an upsert or the commit fails |
| `ReviewLadder.HowItClimbed` | backend/app/features/review/scheduler.py:34-80 | the stored state of every tracked type is its ladder: last sighting and the due clean sessions since |
| `ReviewLadder.TrackedIffSeen` | backend/app/features/review/service.py:49-53 | a type is tracked iff some session saw it and it is not all whitespace |
| `ReviewLadder.CorrectionIsLatest` | backend/app/features/review/scheduler.py:34-80 | the stored correction is the last non-empty one ever given for the type |
| `ReviewLadder.LadderUnique` | backend/app/features/review/scheduler.py:57-80 | the sessions alone determine the ladder |
| `ReviewLadder.MasteredIffThreeDueCleans` | backend/app/features/review/scheduler.py:46-80 | an item is mastered iff its ladder has three due clean sessions |
| `ReviewLadder.MasteryIsEarned` | backend/app/features/review/scheduler.py:34-80 | mastery comes at least 1, 3 and 7 days apart, 11 days after the last sighting |
| `ReviewLadder.NoRungIsLate` | backend/app/features/review/scheduler.py:15-80 | every rung is taken by the first clean session at or after 1, 3 and 7 days, and a due item is next reviewed 1, 3 or 7 days after its last rung |
| `ReviewLadder.OnTimeIsMastered` | backend/app/features/review/scheduler.py:15-80 | whatever came before, sessions clean exactly 1, 4 and 11 days after a sighting leave the item mastered |
| `ReviewLadder.OrderShowsOnlyInCorrections` | backend/app/features/review/service.py:43-72 | two sessions at one instant commute type by type, except for the correction text of types both saw with different corrections |
| `ReviewLadder.SameInstantConfluence` | backend/app/features/review/service.py:43-72 | the two schedules are equal iff no non-blank type was given two different corrections |

## Left out

- GOP scoring (`gop_scores`, `_gop_at`, `_gop_to_score`, `_softmax_at`): a mean and a maximum around transcendental floats.
- The acoustic model, transcoding and the phonemizer: foreign libraries.
- Emissions of -inf and NaN, and negative labels: `forced_align` is modelled on finite reals and column numbers.
- The non-streaming `complete` of the fallback chain: the same loop under one timeout, and easier than the stream.
- LLM, speech, mail and HTTP clients: steps that succeed, fail or time out.
- Correction and audio frames of a streamed turn: they follow the commit and change no stored state.
- Prompt building, missions' contents and profile lookups: external text.
- The Redis limiter: its window is kept by a server-side script.
- `user_rate_limit_key` and the routes' rate-limit checks: string formatting and wiring.
- Erasure and the other exported categories of voice data: erasure is plain deletion, and the other categories use the same page loop with simpler keys.
- Debrief generation, progress, history pages and vocabulary: aggregation without deep invariants.
- Registration mail, reset tokens, password hashing and JWTs: token runs keep only which tokens are issued and revoked.
- Account deletion: users in the models stay.
- FastAPI wiring, settings, migrations and the mobile shells.
- TurnSafety.EveryStep: the outcome of a database write that fails after it took effect is not modelled; a failing write changes nothing.
- TurnTheorems.AtMostOneEffect: says nothing about keys whose completion failed or that were purged with their response; `CommitsAgainIffNoResponse`, `CompletedKeyHoldsForADay` and `PurgedKeyCommitsAgain` say exactly when these commit again.
- TurnTheorems.SameAnswer: leaves out in addition keys under which a streamed reply was delivered and could not be saved; `AnsweredAnewIffNoResponse` says exactly when a key is answered anew.
- TurnRetry.CommitsAgainIffNoResponse: assumes that the user of the key has an open session, since without one no request gets as far as the LLM; so does `AnsweredAnewIffNoResponse`.
- FallbackStream.StreamComplete: time passes only before and during the wait for a first chunk; later chunks carry no instants, as the program sets no limit on them.
- KeysetExport.KeysetPages: the tables a fetch sees are listed in key order with distinct keys, as the query's ORDER BY and the primary key give them.
