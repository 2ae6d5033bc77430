/**
 * The round lifecycle (`RoundService` in server/round-service.ts): a voting
 * window that, when finalized, either records its single top scorer in the pump
 * history or freezes the tied top scorers into a short tie-break, which is then
 * resolved by a random pick among the frozen candidates.
 *
 * The clock is the `now` argument (milliseconds), the random pick is the index
 * `pick`, and the persisted file is the ghost field `persisted`.
 */
module Round {
  import opened Schema
  import Sorting
  import Timing
  import Storage

  datatype Phase = Voting | Tiebreak

  /** A tie-break candidate as frozen when the tie is detected. */
  datatype Candidate = Candidate(id: Id, name: string, symbol: string, address: string, votes: int)

  /** The persisted round record; the two tie-break fields are optional in the file. */
  datatype RoundState = RoundState(
    phase: Phase,
    votingStartMs: int,
    votingDurationSec: int,
    tiebreakEndMs: Option<int>,
    tiebreakCandidates: Option<seq<Candidate>>)

  /** What GET /api/round reports, one shape per phase. */
  datatype RoundDTO =
    | VotingView(remainingSeconds: nat, votingEndMs: int, votingStartMs: int)
    | TiebreakView(remainingSeconds: nat, tiebreakEndMs: Option<int>, candidates: seq<Candidate>)

  /** The three results of finalizing a voting window: "picked", "tiebreak" and "none". */
  datatype Finalized = Picked | EnteredTiebreak | NoSubmissions

  const TiebreakDurationSec: int := 15

  /** A voting window opening at `now`, with no tie-break fields. */
  function FreshVoting(now: int, votingDurationSec: int): RoundState {
    RoundState(Voting, now, votingDurationSec, None, None)
  }

  function VotingEndMs(s: RoundState): int {
    s.votingStartMs + s.votingDurationSec * Timing.MsPerSecond
  }

  /** `getVotingRemainingSec`: derived from the stored start, whatever the phase. */
  function VotingRemainingSec(s: RoundState, nowMs: int): (r: nat)
    ensures r == 0 <==> VotingEndMs(s) - nowMs < Timing.MsPerSecond
    ensures r > 0 ==> r * Timing.MsPerSecond <= VotingEndMs(s) - nowMs < (r + 1) * Timing.MsPerSecond
  {
    Timing.SecondsUntil(VotingEndMs(s), nowMs)
  }

  /** `getTiebreakRemainingSec`: 0 outside a tie-break and when the end is absent or 0. */
  function TiebreakRemainingSec(s: RoundState, nowMs: int): (r: nat)
    ensures s.phase != Tiebreak || !(s.tiebreakEndMs.Some? && s.tiebreakEndMs.value != 0) ==> r == 0
    ensures s.phase == Tiebreak && s.tiebreakEndMs.Some? && s.tiebreakEndMs.value != 0 ==>
      r == Timing.SecondsUntil(s.tiebreakEndMs.value, nowMs)
  {
    if s.phase != Tiebreak || s.tiebreakEndMs.None? || s.tiebreakEndMs.value == 0 then 0
    else Timing.SecondsUntil(s.tiebreakEndMs.value, nowMs)
  }

  /** The state `enterTiebreak` leaves: the voting fields are kept, the tie-break fields set. */
  function WithTiebreak(s: RoundState, candidates: seq<Candidate>, durationSec: int, now: int): (r: RoundState)
    ensures r.phase == Tiebreak && r.tiebreakCandidates == Some(candidates)
    ensures r.votingStartMs == s.votingStartMs && r.votingDurationSec == s.votingDurationSec
    ensures r.tiebreakEndMs == Some(now + durationSec * Timing.MsPerSecond)
  {
    s.(phase := Tiebreak, tiebreakCandidates := Some(candidates),
       tiebreakEndMs := Some(now + durationSec * Timing.MsPerSecond))
  }

  /** `toDTO`: a read-only projection of the state at clock reading `nowMs`. */
  function ToDTO(s: RoundState, nowMs: int): (d: RoundDTO)
    ensures d.VotingView? <==> s.phase == Voting
    ensures d.VotingView? ==>
      && d.votingStartMs == s.votingStartMs
      && d.votingEndMs - d.votingStartMs == s.votingDurationSec * Timing.MsPerSecond
      && d.remainingSeconds == VotingRemainingSec(s, nowMs)
    ensures d.TiebreakView? ==>
      && d.remainingSeconds == TiebreakRemainingSec(s, nowMs)
      && d.tiebreakEndMs == s.tiebreakEndMs
      && d.candidates == s.tiebreakCandidates.GetOr([])
  {
    if s.phase == Voting then
      VotingView(VotingRemainingSec(s, nowMs), VotingEndMs(s), s.votingStartMs)
    else
      TiebreakView(TiebreakRemainingSec(s, nowMs), s.tiebreakEndMs, s.tiebreakCandidates.GetOr([]))
  }

  /** The highest cached vote count among the submissions. */
  function MaxVotes(subs: seq<Submission>): (m: nat)
    requires |subs| > 0
    ensures forall i :: 0 <= i < |subs| ==> subs[i].votes <= m
    ensures exists i :: 0 <= i < |subs| && subs[i].votes == m
  {
    if |subs| == 1 then subs[0].votes
    else
      var rest := MaxVotes(subs[1..]);
      assert forall i :: 1 <= i < |subs| ==> subs[i] == subs[1..][i - 1];
      if subs[0].votes >= rest then subs[0].votes else rest
  }

  /** The submissions holding the top vote count, in store order. */
  function TopScorers(subs: seq<Submission>): (t: seq<Submission>)
    requires |subs| > 0
  {
    Sorting.FilterKey(subs, Storage.VotesOf, MaxVotes(subs))
  }

  /** A submission's tie-break snapshot: missing or empty name and symbol get the fallbacks. */
  function CandidateOf(s: Submission): Candidate {
    Candidate(s.id, OrElse(s.tokenName, FallbackName(s.contractAddress)),
              OrElse(s.tokenSymbol, FallbackSymbol), s.contractAddress, s.votes)
  }

  function CandidatesOf(subs: seq<Submission>): (cs: seq<Candidate>)
    ensures |cs| == |subs| && forall i :: 0 <= i < |subs| ==> cs[i] == CandidateOf(subs[i])
    ensures forall i :: 0 <= i < |subs| ==>
      && cs[i].id == subs[i].id && cs[i].address == subs[i].contractAddress && cs[i].votes == subs[i].votes
      && cs[i].name != "" && cs[i].symbol != ""
      && cs[i].name == (if Truthy(subs[i].tokenName) then subs[i].tokenName.value else FallbackName(subs[i].contractAddress))
      && cs[i].symbol == (if Truthy(subs[i].tokenSymbol) then subs[i].tokenSymbol.value else FallbackSymbol)
  {
    seq(|subs|, i requires 0 <= i < |subs| => CandidateOf(subs[i]))
  }

  /** The pump-history record written for a round's winner. */
  function WinnerEntry(c: Candidate): InsertPumpHistory {
    InsertPumpHistory(c.id, c.name, Some(c.symbol), c.address, "0", c.votes, None, None)
  }

  /** Every submission sharing the top count is a top scorer, and nothing else is. */
  lemma TopScorersExactly(subs: seq<Submission>)
    requires |subs| > 0
    ensures |TopScorers(subs)| >= 1
    ensures forall i :: 0 <= i < |subs| ==> (subs[i] in TopScorers(subs) <==> subs[i].votes == MaxVotes(subs))
    ensures forall t :: t in TopScorers(subs) ==> t in subs && t.votes == MaxVotes(subs)
  {
    var m := MaxVotes(subs);
    var i :| 0 <= i < |subs| && subs[i].votes == m;
    assert Storage.VotesOf(subs[i]) == m;
    assert subs[i] in TopScorers(subs);
  }

  /**
   * A lone top scorer beats every other stored submission outright (ids are
   * unique in the store, so "other" means a different id).
   */
  lemma LoneTopScorerWins(subs: seq<Submission>)
    requires |subs| > 0 && Storage.UniqueIds(subs, Storage.SubmissionId)
    requires |TopScorers(subs)| == 1
    ensures TopScorers(subs)[0] in subs
    ensures forall i :: 0 <= i < |subs| && subs[i].id != TopScorers(subs)[0].id ==>
      subs[i].votes < TopScorers(subs)[0].votes
  {
    TopScorersExactly(subs);
  }

  /**
   * The computation `finalizeVotingPickTopOrTie` performs (sort by votes, take
   * the head's count, keep the submissions with that count) yields exactly the
   * top scorers in store order, headed by the sorted list's head when it is alone.
   */
  lemma {:induction false} SortedTiesAreTopScorers(subs: seq<Submission>)
    requires |subs| > 0
    ensures var sorted := Sorting.SortDesc(Sorting.SortDesc(subs, Storage.VotesOf), Storage.VotesOf);
      && |sorted| == |subs|
      && sorted[0].votes == MaxVotes(subs)
      && Sorting.FilterKey(sorted, Storage.VotesOf, sorted[0].votes) == TopScorers(subs)
  {
    var once := Sorting.SortDesc(subs, Storage.VotesOf);
    var sorted := Sorting.SortDesc(once, Storage.VotesOf);
    assert |multiset(sorted)| == |multiset(subs)|;
    assert sorted[0] in multiset(subs);
    var m := MaxVotes(subs);
    var i :| 0 <= i < |subs| && subs[i].votes == m;
    assert subs[i] in multiset(sorted);
    Sorting.HeadIsMax(sorted, Storage.VotesOf, subs[i]);
    Sorting.FilterSortDesc(once, Storage.VotesOf, m);
    Sorting.FilterSortDesc(subs, Storage.VotesOf, m);
  }

  /** Projections report a non-increasing number of seconds while the state stands still. */
  lemma RemainingAntitone(s: RoundState, t1: int, t2: int)
    requires t1 <= t2
    ensures ToDTO(s, t2).remainingSeconds <= ToDTO(s, t1).remainingSeconds
  {
    Timing.SecondsUntilAntitone(VotingEndMs(s), t1, t2);
    if s.tiebreakEndMs.Some? {
      Timing.SecondsUntilAntitone(s.tiebreakEndMs.value, t1, t2);
    }
  }

  /** A fresh voting window reports its whole duration at the instant it opens. */
  lemma FreshVotingFullWindow(now: int, votingDurationSec: nat)
    ensures ToDTO(FreshVoting(now, votingDurationSec), now) == VotingView(votingDurationSec, now + votingDurationSec * 1000, now)
  {
    Timing.SecondsUntilFullWindow(now, votingDurationSec);
  }

  /**
   * A tie-break reports its whole duration at the instant it is entered (unless
   * its end lands on the epoch, which the source reads as "no end").
   */
  lemma TiebreakFullWindow(s: RoundState, candidates: seq<Candidate>, durationSec: nat, now: int)
    requires now + durationSec * 1000 != 0
    ensures ToDTO(WithTiebreak(s, candidates, durationSec, now), now)
         == TiebreakView(durationSec, Some(now + durationSec * 1000), candidates)
  {
    Timing.SecondsUntilFullWindow(now, durationSec);
  }

  class RoundService {
    const store: Storage.MemStorage
    var state: RoundState
    ghost var persisted: RoundState

    /**
     * Start-up: a missing or unreadable file gives a fresh window; a loaded state
     * whose voting window has elapsed (in any phase) is replaced by a fresh
     * window of the configured length; otherwise the loaded state is kept.
     */
    constructor (votingDurationSec: int, loaded: Option<RoundState>, now: int, store: Storage.MemStorage)
      ensures this.store == store
      ensures loaded.None? ==> state == FreshVoting(now, votingDurationSec)
      ensures loaded.Some? && now >= VotingEndMs(loaded.value) ==> state == FreshVoting(now, votingDurationSec)
      ensures loaded.Some? && now < VotingEndMs(loaded.value) ==> state == loaded.value
      ensures persisted == state
    {
      this.store := store;
      var s: RoundState;
      if loaded.None? {
        s := FreshVoting(now, votingDurationSec);
      } else {
        s := loaded.value;
        var endMs := s.votingStartMs + s.votingDurationSec * 1000;
        if now >= endMs {
          s := FreshVoting(now, votingDurationSec);
        }
      }
      state := s;
      persisted := state;
    }

    /** Freezes `candidates` and opens a tie-break of `durationSec` seconds at `now`. */
    method EnterTiebreak(candidates: seq<Candidate>, durationSec: int, now: int)
      modifies this
      ensures state == WithTiebreak(old(state), candidates, durationSec, now)
      ensures persisted == state
    {
      state := state.(phase := Tiebreak);
      state := state.(tiebreakCandidates := Some(candidates));
      state := state.(tiebreakEndMs := Some(now + durationSec * 1000));
      persisted := state;
    }

    /**
     * Records the frozen candidate at index `pick` as the round's winner, zeroes
     * the cached vote counts and reopens voting with the same duration. An empty
     * candidate list crashes the source, so `pick` must index the list.
     */
    method ResolveTiebreakAndRestart(pick: nat, now: int, historyId: Id)
      requires store.Valid() && Storage.IdFree(store.pumpHistory, Storage.HistoryId, historyId)
      requires pick < |state.tiebreakCandidates.GetOr([])|
      modifies this, store
      ensures store.Valid()
      ensures var winner := old(state.tiebreakCandidates.GetOr([]))[pick];
        store.pumpHistory == old(store.pumpHistory) + [Storage.HistoryRow(WinnerEntry(winner), historyId, now)]
      ensures |store.submissions| == |old(store.submissions)|
      ensures forall i :: 0 <= i < |store.submissions| ==> store.submissions[i] == old(store.submissions[i]).(votes := 0)
      ensures store.votes == old(store.votes)
      ensures state == FreshVoting(now, old(state.votingDurationSec))
      ensures persisted == state
    {
      var candidates := state.tiebreakCandidates.GetOr([]);
      var winner := candidates[pick];
      var _ := store.CreatePumpHistory(WinnerEntry(winner), historyId, now);
      store.ResetAllVotes();
      state := FreshVoting(now, state.votingDurationSec);
      persisted := state;
    }

    /**
     * Closes the voting window. With no submissions: a fresh window and "none".
     * With one top scorer: its history entry, zeroed counts, a fresh window and
     * "picked". With several: a 15-second tie-break over exactly the top scorers
     * and "tiebreak", leaving the store untouched.
     */
    method FinalizeVotingPickTopOrTie(now: int, historyId: Id) returns (outcome: Finalized)
      requires store.Valid() && Storage.IdFree(store.pumpHistory, Storage.HistoryId, historyId)
      modifies this, store
      ensures store.Valid()
      ensures store.votes == old(store.votes)
      ensures persisted == state
      ensures outcome == NoSubmissions <==> old(store.submissions) == []
      ensures outcome == NoSubmissions ==>
        && state == FreshVoting(now, old(state.votingDurationSec))
        && store.submissions == old(store.submissions) && store.pumpHistory == old(store.pumpHistory)
      ensures outcome == Picked <==> old(store.submissions) != [] && |TopScorers(old(store.submissions))| == 1
      ensures outcome == Picked ==>
        && var winner := TopScorers(old(store.submissions))[0];
        && store.pumpHistory == old(store.pumpHistory) + [Storage.HistoryRow(WinnerEntry(CandidateOf(winner)), historyId, now)]
        && |store.submissions| == |old(store.submissions)|
        && (forall i :: 0 <= i < |store.submissions| ==> store.submissions[i] == old(store.submissions[i]).(votes := 0))
        && state == FreshVoting(now, old(state.votingDurationSec))
      ensures outcome == EnteredTiebreak ==>
        && |TopScorers(old(store.submissions))| >= 2
        && state == WithTiebreak(old(state), CandidatesOf(TopScorers(old(store.submissions))), TiebreakDurationSec, now)
        && store.submissions == old(store.submissions) && store.pumpHistory == old(store.pumpHistory)
    {
      var submissions := store.GetSubmissions();
      if |submissions| == 0 {
        state := FreshVoting(now, state.votingDurationSec);
        persisted := state;
        return NoSubmissions;
      }
      ghost var stored := store.submissions;
      SortedTiesAreTopScorers(stored);
      var sorted := Sorting.SortDesc(submissions, Storage.VotesOf);
      var topVotes := sorted[0].votes;
      var tied := Sorting.FilterKey(sorted, Storage.VotesOf, topVotes);
      assert tied == TopScorers(stored);
      if |tied| <= 1 {
        TopScorersExactly(stored);
        var winner := sorted[0];
        assert winner in tied;
        var _ := store.CreatePumpHistory(WinnerEntry(CandidateOf(winner)), historyId, now);
        store.ResetAllVotes();
        state := FreshVoting(now, state.votingDurationSec);
        persisted := state;
        return Picked;
      }
      var candidates := CandidatesOf(tied);
      EnterTiebreak(candidates, TiebreakDurationSec, now);
      return EnteredTiebreak;
    }
  }
}
