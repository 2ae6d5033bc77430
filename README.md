# PumpFunCabal round and voting core in Dafny

PumpFunCabal is a community voting board for token contract addresses. A
participant submits an address, others up-vote submissions, and a fixed-length
voting round is meant to end by recording its top scorer in a pump history.
When the top score is shared, a 15-second tie-break first freezes the tied
submissions, and the winner is then picked at random among them. The code
provides these transitions, but nothing in it calls them (see below). This project models the
server-side core of that flow, plus the client's address helpers:

- `Schema` (schema.dfy): the records that are stored (submissions, votes and
  pump-history entries), their insert shapes, and the JavaScript `x || null` /
  `x || fallback` conventions on nullable strings.
- `Sorting` (sorting.dfy): the stable descending sort behind `Array.prototype.sort`
  with a numeric comparator, the key filter and the key sum, with their
  permutation, order, stability and sum-invariance lemmas.
- `Timing` (timing.dfy): whole seconds left until a deadline. The round service
  and the countdown service share this computation.
- `Storage` (storage.dfy): the in-memory store `MemStorage`. Each `Map` becomes a
  sequence in insertion order, with ids unique.
- `Round` (round.dfy): `RoundService`, covering the load-or-collapse start-up,
  the remaining-time projections, `toDTO`, entering and resolving a tie-break,
  and finalizing a voting window.
- `Routes` (routes.dfy): the submission handler (address conflict and name or
  symbol fallback), the vote handler (10-second cooldown per key, then the vote
  is stored, recounted and stamped), and the statistics fold.
- `Countdown` (countdown.dfy): the stand-alone `CountdownService`.
- `SolanaUtils` (solana_utils.dfy): the base58 address check, the abbreviated
  display form, and the deterministic mock metadata. The mock metadata comes
  from the 32-bit string hash, evaluated over UTF-16 code units with ECMAScript
  `ToInt32` wrap-around.

The following inputs are arguments to the model:

- The clock (`Date.now()`, and `new Date()` for the creation times the store
  stamps) is a `now` argument in milliseconds. One reading per operation stands
  for all the clock reads that operation makes; finalizing a round, for
  instance, reads the clock once for the history entry and again for the new
  window, and the model gives both the same value.
- `Math.random()` in the tie-break resolution is the index `pick` of the chosen
  candidate.
- `randomUUID()` is an id argument. A precondition says it is not yet a key of
  the map it goes into.
- The round-state file becomes two things: the `loaded` constructor argument
  (`None` when the file is missing or does not parse), and the ghost field
  `persisted`, which each state change keeps equal to `state`.

The code and its documented intent differ in a few places. Except for the
missing `resetAllVotes` (the fourth point), this model follows the code:

- Resolving a tie-break whose frozen candidate list is empty reads a field of
  `undefined`, which is a crash. It does not reset to a fresh window. The model
  states this as the precondition `pick < |candidates|`.
- `createSubmission` does not reject a duplicate address. Only the submission
  handler checks for one, and it answers 409 with the existing id.
- The vote handler never consults `hasUserVoted`, and it does not check that
  the submission id exists. A vote on an unknown id is stored, and the recount
  updates nothing.
- The round service calls `storage.resetAllVotes()` (server/round-service.ts:103
  and :140), but `storage` is a `MemStorage`, which has no such method. As
  written, that call throws a TypeError after `createPumpHistory` has already
  stored the winner's history entry. The round state is then neither reset nor
  persisted, and the round stays in its old phase. Here the model does NOT
  follow the code. It assumes the method exists with the least behaviour its
  call sites rely on: every cached count becomes 0, and the vote rows are kept.
  The "picked" path of finalizing and the tie-break resolution are modelled
  under that assumption.
- Nothing in the server ever ends a round. No code calls
  `finalizeVotingPickTopOrTie`, `resolveTiebreakAndRestart` or
  `CountdownService.resetStart`; `enterTiebreak` is called only from
  finalizing, and GET /api/round only reads `toDTO`. As written, a voting
  window counts down to 0 and stays there, and no history entry is ever
  written. Only a process restart collapses an elapsed window
  (server/round-service.ts:36-45). The model exposes the transitions as
  operations a caller may invoke, and it does not invent a timer that would
  trigger them.
- The cooldown key is `${id}:${voterAddress || 'anon'}`. An anonymous voter, a
  voter with an empty address and a voter whose address is literally `anon`
  therefore share one cooldown per submission.

## Model

| member | source | states |
|---|---|---|
| Sorting.SortDesc | server/storage.ts:32-34 | the result is a permutation of the input (same length, same multiset) ordered by non-increasing key |
| Sorting.FilterSortDesc | server/round-service.ts:124-126 | the sort is stable: keeping the elements with one key value gives the same sequence before and after sorting |
| Sorting.SumBySortDesc | server/routes.ts:119-120 | summing a key over the sorted sequence gives the same total as over the original order |
| Sorting.HeadIsMax | server/round-service.ts:124-125 | in a sequence sorted by non-increasing key, the head's key is at least that of every element |
| Timing.SecondsUntil | server/round-service.ts:73-76 | the seconds left are 0 exactly when less than one second remains; otherwise they are the whole number r with r s <= time left < (r+1) s |
| Timing.SecondsUntilAntitone | server/countdown-service.ts:63-66 | a later clock reading never shows more seconds left |
| Timing.SecondsUntilFullWindow | server/countdown-service.ts:59-66 | at the instant a window of d seconds opens, exactly d seconds are left |
| Storage.VotesForAppend | server/storage.ts:65-81 | storing one vote raises the count of votes for its own submission by one and leaves every other submission's count unchanged |
| Storage.MemStorage.constructor | server/storage.ts:26-30 | the store starts with no submissions, votes or history, and the unique-id invariant holds |
| Storage.MemStorage.GetSubmissions | server/storage.ts:32-34 | exactly the stored submissions, as a permutation, with the most votes first |
| Storage.MemStorage.GetSubmissionByAddress | server/storage.ts:36-40 | a stored submission with the given address, or none exactly when no stored submission has that address |
| Storage.MemStorage.CreateSubmission | server/storage.ts:42-55 | appends a record under the fresh id with 0 votes, with empty name, symbol and submitter turned to null; keeps ids unique; changes nothing else |
| Storage.MemStorage.UpdateSubmissionVotes | server/storage.ts:57-63 | only the submission with that id gets the new count; an unknown id changes nothing; votes and history are kept |
| Storage.MemStorage.CreateVote | server/storage.ts:65-75 | appends one vote under the fresh id, with an empty voter address turned to null; keeps ids unique; changes nothing else |
| Storage.MemStorage.GetVotesBySubmission | server/storage.ts:77-81 | every returned vote is stored and references the submission, and every stored vote referencing it is returned, each exactly as often as it is stored, so the length is the submission's vote count |
| Storage.MemStorage.HasUserVoted | server/storage.ts:83-87 | true exactly when some stored vote references the submission and carries that voter address |
| Storage.MemStorage.GetPumpHistory | server/storage.ts:89-93 | exactly the stored history entries, as a permutation, newest first |
| Storage.MemStorage.CreatePumpHistory | server/storage.ts:95-107 | appends one entry under the fresh id, with empty symbol, price impact and hash turned to null; keeps ids unique; changes nothing else |
| Storage.MemStorage.ResetAllVotes | server/round-service.ts:140 | every submission keeps all its fields except its cached count, which becomes 0; votes and history are kept |
| Round.VotingRemainingSec | server/round-service.ts:73-76 | 0 exactly when less than one second of the voting window remains (in any phase); otherwise the whole seconds r with r s <= time to the window's end < (r+1) s |
| Round.TiebreakRemainingSec | server/round-service.ts:78-81 | 0 outside a tie-break, and 0 when the tie-break end is missing or 0; during a tie-break with an end, the whole seconds left until that end |
| Round.WithTiebreak | server/round-service.ts:83-88 | entering a tie-break sets the phase, freezes the candidates and sets the end to now plus the duration, keeping the voting fields |
| Round.ToDTO | server/round-service.ts:161-176 | the view has the state's phase; the voting view spans exactly the voting duration from the stored start; the tie-break view carries the stored end and candidates (empty when absent) |
| Round.MaxVotes | server/round-service.ts:124-125 | the top count is at least every submission's count and is held by some submission |
| Round.CandidatesOf | server/round-service.ts:150-156 | one snapshot per tied submission, in order, keeping its id, address and votes; the name is the token name if non-empty, else "Token " and the first six characters of the address; the symbol is the token symbol if non-empty, else "UNK"; neither is ever empty |
| Round.TopScorersExactly | server/round-service.ts:124-126 | a submission is a top scorer exactly when it holds the top count, and there is at least one |
| Round.LoneTopScorerWins | server/round-service.ts:128-129 | when only one submission holds the top count, it has strictly more votes than every other stored submission |
| Round.SortedTiesAreTopScorers | server/round-service.ts:113-126 | sorting the store's already sorted list, reading the head's count and filtering by it gives the head's count equal to the maximum, and exactly the top scorers in store order |
| Round.RemainingAntitone | server/round-service.ts:161-176 | while the state stands still, the reported seconds left never increase |
| Round.FreshVotingFullWindow | server/round-service.ts:141-145 | a freshly opened voting window reports its whole duration and the end at start plus the duration |
| Round.TiebreakFullWindow | server/round-service.ts:83-88 | a tie-break reports its whole duration at the instant it is entered, unless its end lands on 0 |
| Round.RoundService.constructor | server/round-service.ts:22-48 | with no loaded state, or one whose voting window has elapsed, a fresh window of the configured length opens now; otherwise the loaded state is kept; the file then holds the state |
| Round.RoundService.EnterTiebreak | server/round-service.ts:83-88 | the state becomes the tie-break state over the given candidates, and it is persisted |
| Round.RoundService.ResolveTiebreakAndRestart | server/round-service.ts:90-110 | the picked frozen candidate is appended to the history with amount "0" and no price impact or hash; every cached count becomes 0; a fresh window with the same duration opens now |
| Round.RoundService.FinalizeVotingPickTopOrTie | server/round-service.ts:112-159 | "none" exactly when the store is empty (fresh window, store untouched); "picked" exactly when one submission holds the top count (its snapshot recorded, counts zeroed, fresh window); otherwise a 15-second tie-break frozen over exactly the top scorers, store untouched |
| Routes.ResolvedName | server/routes.ts:41 | the metadata name if non-empty, else the submitted name if non-empty, else "Token " and the first six characters of the address; never empty |
| Routes.ResolvedSymbol | server/routes.ts:42 | the metadata symbol if non-empty, else the submitted symbol if non-empty, else "UNK"; never empty |
| Routes.RetryAfterSeconds | server/routes.ts:83 | the wait is the remaining cooldown rounded up to whole seconds |
| Routes.RetryAfterBounds | server/routes.ts:78-84 | a caller turned away within the cooldown is told to wait between 1 and 10 seconds |
| Routes.AnonymousVotersShareKey | server/routes.ts:77 | no voter address, an empty address and the address "anon" give the same cooldown key |
| Routes.CooldownAfterStamp | server/routes.ts:78-94 | once a key is stamped at t, a vote on it is turned away exactly while the clock is before t plus 10 seconds |
| Routes.TotalVotesSorted | server/routes.ts:117-126 | the vote total is the same over the sorted listing as over the store, and is never negative |
| Routes.TotalVotes | server/routes.ts:120 | the total of the cached counts is non-negative and at least every single submission's count |
| Routes.StampLeavesOtherKeys | server/routes.ts:79-94 | stamping one key leaves the last-vote time, and so the cooldown, of every other key unchanged |
| Routes.VoterKeyShape | server/routes.ts:77 | a cooldown key is the submission id, a colon, then the voter address if non-empty, else "anon" |
| Routes.VoterKeysDistinct | server/routes.ts:77 | two different non-empty voter addresses on one submission get different cooldown keys |
| Routes.Api.constructor | server/routes.ts:64-65 | the handlers start with the given store and no cooldown stamps |
| Routes.Api.PostSubmission | server/routes.ts:22-62 | an address already stored yields a conflict with that submission's id and stores nothing; otherwise the submission is stored with its resolved name and symbol; addresses that were unique stay unique |
| Routes.Api.PostVote | server/routes.ts:68-104 | within 10 s of the key's last accepted vote nothing changes and the rounded-up wait is returned; otherwise one vote is stored, the count returned is one more than before, the submission's cached count becomes it and the key is stamped now |
| Routes.Api.GetStats | server/routes.ts:117-130 | the total is the sum of the stored cached counts and is non-negative, and the count is the number of stored submissions |
| Routes.SubmitTwice | server/routes.ts:27-45 | submitting one new address twice stores it once; the second request is a conflict carrying the first one's id |
| Routes.VoteThrice | server/routes.ts:77-96 | on one key, a vote is accepted, a vote under 10 s later is turned away with a 1 to 10 second wait, and a vote 10 s after the first is accepted with a count one higher |
| Countdown.CountdownService.constructor | server/countdown-service.ts:31-46 | a saved start that is a number above 0 is kept; a missing, unreadable or unusable file starts the countdown now |
| Countdown.CountdownService.GetRemainingSeconds | server/countdown-service.ts:63-66 | 0 exactly when less than one second remains before the end; otherwise the whole seconds r with r s <= time to the end < (r+1) s |
| Countdown.CountdownService.RemainingAntitone | server/countdown-service.ts:63-66 | a later clock reading never shows more seconds left |
| Countdown.CountdownService.FullAtStart | server/countdown-service.ts:59-66 | the end (GetEndTimestampMs) is start plus the duration, and at its start instant the countdown shows its whole duration |
| Countdown.CountdownService.ResetStart | server/countdown-service.ts:68-71 | the start becomes now, and the countdown then shows its whole duration |
| SolanaUtils.TrimStart | client/src/lib/solana-utils.ts:5 | the result is a suffix of the input, everything dropped is white space, and the result does not start with white space |
| SolanaUtils.TrimEnd | client/src/lib/solana-utils.ts:5 | the result is a prefix of the input, everything dropped is white space, and the result does not end with white space |
| SolanaUtils.TrimIdempotent | client/src/lib/solana-utils.ts:5 | trimming twice is the same as trimming once |
| SolanaUtils.IsValidSolanaAddress | client/src/lib/solana-utils.ts:1-6 | valid exactly when the trimmed address has 32 to 44 characters, all from the base58 alphabet |
| SolanaUtils.Base58IsAlphanumericWithoutLookalikes | client/src/lib/solana-utils.ts:4 | the accepted characters are exactly the ASCII letters and digits other than 0, O, I and l |
| SolanaUtils.ValidAddressHasNoLookalikes | client/src/lib/solana-utils.ts:1-6 | a valid address, once trimmed, contains none of 0, O, I, l or a space |
| SolanaUtils.FormatAddress | client/src/lib/solana-utils.ts:8-11 | an address of at most 8 characters is shown as is; a longer one as its first four characters, "..." and its last four (11 characters) |
| SolanaUtils.ToInt32 | client/src/lib/solana-utils.ts:17 | the result is a signed 32-bit value congruent to the input modulo 2^32 |
| SolanaUtils.HashStepIsTimes31 | client/src/lib/solana-utils.ts:15-18 | one shift-subtract-add step, with its 32-bit wrap-arounds, equals multiplying by 31, adding the code unit and wrapping once |
| SolanaUtils.HashIsHash31 | client/src/lib/solana-utils.ts:15-18 | the fold equals the textbook 31-multiplier string hash wrapped to 32 bits, and always lies in the signed 32-bit range |
| SolanaUtils.MockIndex | client/src/lib/solana-utils.ts:24 | the absolute hash modulo the table length always indexes both tables |
| SolanaUtils.GenerateMockTokenData | client/src/lib/solana-utils.ts:13-31 | name and symbol always come from the same row of the six-entry tables |
| SolanaUtils.MockDataDependsOnlyOnHash | client/src/lib/solana-utils.ts:13-31 | addresses with equal hashes, in particular equal addresses, get the same mock data |
| SolanaUtils.HashExamples | client/src/lib/solana-utils.ts:15-18 | "" hashes to 0, "a" to 97 and "ab" to 97 * 31 + 98 = 3105 |
| SolanaUtils.MockRow | client/src/lib/solana-utils.ts:20-28 | an address hashing to h gets name and symbol from row abs(h) mod 6 of the tables |

## Left out

- File system: creating the data directory, reading and writing `round.json` and
  the countdown's state file. The loaded contents are an argument. The round
  service's writes are the ghost field `persisted`. The countdown's write after
  initialising or resetting is not tracked. Every write is assumed to succeed.
  In the source `this.state` is assigned before `persist()`, and nothing catches
  a failing `writeFileSync`, so memory and file can diverge; `persisted == state`
  does not capture that.
- A loaded round file is assumed well typed. Its phase is exactly voting or
  tie-break, and its numbers are numbers. A file with other contents would make
  the source compute with `NaN` or `undefined`, which is not modelled.
- Numbers are unbounded integers. The source's IEEE doubles agree with them on
  every timestamp and count below 2^53; the placeholder `totalPool` is the real 12.4.
- `getPhase` and `getStartTimestampMs` are plain field reads (`state.phase`,
  `startTimestampMs`) and have no member of their own.
- The network metadata lookup of the submission handler is its `metadata`
  argument. The handler's logo and source fields are left out because the store
  never keeps them.
- Request validation (the zod schemas) and the 400 and 500 answers are not modelled;
  the handlers take already typed values.
- The HTTP plumbing is not modelled. The GET routes for submissions, pump history,
  countdown and round pass results through unchanged; they are the store and
  service functions above.
- The lazily created module-level service instances and the asynchronous
  scheduling of handlers are not modelled. Each handler runs to completion; the line on
  Routes.Api.PostSubmission below says what that hides.
- Emojis are not modelled. `generateMockTokenData`'s emoji table has no bearing
  on the name or symbol chosen.
- Dafny strings count Unicode code points, while JavaScript's `length` and `slice`
  count UTF-16 code units. `FormatAddress` and the fallback name differ from the
  source only for characters above U+FFFF. The address check is unaffected,
  since such characters are never base58. The hash works on code units
  explicitly.
- Routes.Api.PostSubmission: address uniqueness is proved only for submissions handled
  one at a time. In the source the handler awaits the network metadata lookup
  between its duplicate check (server/routes.ts:27-28) and its insert (:45).
  Two overlapping requests for the same new address can therefore both pass the
  check, and both get stored. Interleaved handlers are not modelled. The vote
  handler does not suspend with the in-memory store, so this does not arise
  there.
- Storage.MemStorage.UpdateSubmissionVotes: takes the new count as a natural number,
  because its one caller passes the length of a vote list.
- Storage.MemStorage.ResetAllVotes: has no definition in the source, where the call
  throws a TypeError after the winner's history entry is stored, leaving the round
  state neither reset nor persisted. The model assumes the method instead, with
  the least its two call sites rely on. The "picked" branch of
  Round.RoundService.FinalizeVotingPickTopOrTie and
  Round.RoundService.ResolveTiebreakAndRestart are modelled under that
  assumption, not as the crash.
- Round.RoundService.ResolveTiebreakAndRestart: requires a non-empty frozen candidate
  list, because the source crashes without one.
- Round.TiebreakFullWindow: excludes a tie-break whose end is exactly 0, because the
  source reads that end as absent and reports 0 seconds.
- SolanaUtils.Trim: its own contract states only that the result is no longer than
  the input and has no white space at either end. That it is the slice between
  the leading and trailing white space follows from the contracts of
  SolanaUtils.TrimStart and SolanaUtils.TrimEnd.
