/**
 * The request handlers of server/routes.ts with the HTTP layer stripped: the
 * submission handler (address conflict, name/symbol fallback chain), the vote
 * handler (10-second cooldown per key, then vote, recount, stamp) and the
 * statistics fold. `lastVoteByKey` lives in process memory beside the store.
 */
module Routes {
  import opened Schema
  import Sorting
  import Storage

  const CooldownMs: int := 10_000
  const AnonymousVoter: string := "anon"

  /** The part of a metadata lookup's answer the submission handler reads. */
  datatype TokenMetadata = TokenMetadata(name: string, symbol: string)

  /** 201 with the new submission, or 409 with the id of the one already holding the address. */
  datatype SubmitResponse = Created(submission: Submission) | Conflict(submissionId: Id)

  /** 200 with the recounted total, or 429 with the seconds to wait. */
  datatype VoteResponse = Recorded(voteCount: nat) | RateLimited(retryAfterSeconds: int)

  /** GET /api/stats; `totalPool` is a fixed placeholder. */
  datatype Stats = Stats(totalPool: real, totalVotes: int, submissionCount: nat)

  /** `tokenMetadata?.name || data.tokenName || \`Token ${address.slice(0, 6)}\``. */
  function ResolvedName(data: InsertSubmission, metadata: Option<TokenMetadata>): (name: string)
    ensures metadata.Some? && metadata.value.name != "" ==> name == metadata.value.name
    ensures (metadata.None? || metadata.value.name == "") && Truthy(data.tokenName) ==> name == data.tokenName.value
    ensures (metadata.None? || metadata.value.name == "") && !Truthy(data.tokenName) ==> name == FallbackName(data.contractAddress)
    ensures name != ""
  {
    if metadata.Some? && metadata.value.name != "" then metadata.value.name
    else OrElse(data.tokenName, FallbackName(data.contractAddress))
  }

  /** `tokenMetadata?.symbol || data.tokenSymbol || 'UNK'`. */
  function ResolvedSymbol(data: InsertSubmission, metadata: Option<TokenMetadata>): (symbol: string)
    ensures metadata.Some? && metadata.value.symbol != "" ==> symbol == metadata.value.symbol
    ensures (metadata.None? || metadata.value.symbol == "") && Truthy(data.tokenSymbol) ==> symbol == data.tokenSymbol.value
    ensures (metadata.None? || metadata.value.symbol == "") && !Truthy(data.tokenSymbol) ==> symbol == FallbackSymbol
    ensures symbol != ""
  {
    if metadata.Some? && metadata.value.symbol != "" then metadata.value.symbol
    else OrElse(data.tokenSymbol, FallbackSymbol)
  }

  /** `{ ...data, tokenName, tokenSymbol }`: what the handler passes to `createSubmission`. */
  function SubmissionData(data: InsertSubmission, metadata: Option<TokenMetadata>): InsertSubmission {
    data.(tokenName := Some(ResolvedName(data, metadata)), tokenSymbol := Some(ResolvedSymbol(data, metadata)))
  }

  /** No two stored submissions share a contract address. */
  ghost predicate UniqueAddresses(subs: seq<Submission>) {
    forall i, j :: 0 <= i < j < |subs| ==> subs[i].contractAddress != subs[j].contractAddress
  }

  /** `${id}:${voterAddress || 'anon'}`: the cooldown key. */
  function VoterKey(submissionId: Id, voterAddress: Option<string>): string {
    submissionId + ":" + OrElse(voterAddress, AnonymousVoter)
  }

  /** `lastVoteByKey.get(key) || 0`. */
  function LastVote(lastVoteByKey: map<string, int>, key: string): int {
    if key in lastVoteByKey then lastVoteByKey[key] else 0
  }

  /** `Math.ceil((cooldownMs - diff) / 1000)` for a vote `diff` ms after the key's last one. */
  function RetryAfterSeconds(diff: int): (r: int)
    requires diff < CooldownMs
    ensures (r - 1) * 1000 < CooldownMs - diff <= r * 1000
  {
    (CooldownMs - diff + 999) / 1000
  }

  /** The sum of the cached vote counts (`reduce` over `votes || 0`, which is never null here). */
  function TotalVotes(subs: seq<Submission>): (total: int)
    ensures total >= 0
    ensures forall i :: 0 <= i < |subs| ==> subs[i].votes <= total
  {
    TotalVotesBounds(subs);
    Sorting.SumBy(subs, Storage.VotesOf)
  }

  /** Every anonymous voter on one submission, and a voter literally called "anon", share one key. */
  lemma AnonymousVotersShareKey(submissionId: Id)
    ensures VoterKey(submissionId, None) == VoterKey(submissionId, Some(""))
    ensures VoterKey(submissionId, None) == VoterKey(submissionId, Some(AnonymousVoter))
    ensures VoterKey(submissionId, None) == submissionId + ":anon"
  {
  }

  /** A rate-limited caller waiting no longer than the cooldown is told 1 to 10 seconds. */
  lemma RetryAfterBounds(diff: int)
    requires 0 <= diff < CooldownMs
    ensures 1 <= RetryAfterSeconds(diff) <= 10
  {
  }

  /**
   * Once a key is stamped at t, a vote on it at `now` is turned away exactly
   * while now < t + 10 s.
   */
  lemma CooldownAfterStamp(lastVoteByKey: map<string, int>, key: string, t: int, now: int)
    ensures now - LastVote(lastVoteByKey[key := t], key) < CooldownMs <==> now < t + CooldownMs
  {
  }

  /** Stamping one key never moves the cooldown of any other key. */
  lemma StampLeavesOtherKeys(lastVoteByKey: map<string, int>, key: string, t: int, other: string)
    requires other != key
    ensures LastVote(lastVoteByKey[key := t], other) == LastVote(lastVoteByKey, other)
  {
  }

  /** The statistics do not depend on the order in which the store lists the submissions. */
  lemma TotalVotesSorted(subs: seq<Submission>)
    ensures TotalVotes(Sorting.SortDesc(subs, Storage.VotesOf)) == TotalVotes(subs)
    ensures TotalVotes(subs) >= 0
  {
    Sorting.SumBySortDesc(subs, Storage.VotesOf);
  }

  /** The sum of the cached counts is non-negative and bounds every single count. */
  lemma {:induction false} TotalVotesBounds(subs: seq<Submission>)
    ensures Sorting.SumBy(subs, Storage.VotesOf) >= 0
    ensures forall i :: 0 <= i < |subs| ==> subs[i].votes <= Sorting.SumBy(subs, Storage.VotesOf)
  {
    if subs != [] {
      TotalVotesBounds(subs[1..]);
      assert forall i :: 1 <= i < |subs| ==> subs[i] == subs[1..][i - 1];
    }
  }

  /** A cooldown key is the submission id, a colon, and the voter address or "anon". */
  lemma VoterKeyShape(submissionId: Id, voterAddress: Option<string>)
    ensures var key := VoterKey(submissionId, voterAddress);
      && |key| > |submissionId| && key[..|submissionId|] == submissionId && key[|submissionId|] == ':'
      && key[|submissionId| + 1..] == if Truthy(voterAddress) then voterAddress.value else AnonymousVoter
  {
  }

  /** Two different non-empty voter addresses on one submission have different cooldown keys. */
  lemma VoterKeysDistinct(submissionId: Id, a: Option<string>, b: Option<string>)
    requires Truthy(a) && Truthy(b) && a != b
    ensures VoterKey(submissionId, a) != VoterKey(submissionId, b)
  {
    VoterKeyShape(submissionId, a);
    VoterKeyShape(submissionId, b);
  }

  class Api {
    const store: Storage.MemStorage
    var lastVoteByKey: map<string, int>

    constructor (store: Storage.MemStorage)
      ensures this.store == store && lastVoteByKey == map[]
    {
      this.store := store;
      lastVoteByKey := map[];
    }

    /**
     * POST /api/submissions for already-validated data. An address that is
     * already stored yields a conflict with that submission's id and stores
     * nothing; otherwise the submission is stored with its resolved name and
     * symbol. Requests handled one at a time this way keep addresses unique.
     */
    method PostSubmission(data: InsertSubmission, metadata: Option<TokenMetadata>, now: int, newId: Id)
      returns (r: SubmitResponse)
      requires store.Valid() && Storage.IdFree(store.submissions, Storage.SubmissionId, newId)
      modifies store
      ensures store.Valid()
      ensures store.votes == old(store.votes) && store.pumpHistory == old(store.pumpHistory)
      ensures old(store.GetSubmissionByAddress(data.contractAddress)).Some? ==>
        && r == Conflict(old(store.GetSubmissionByAddress(data.contractAddress)).value.id)
        && store.submissions == old(store.submissions)
      ensures old(store.GetSubmissionByAddress(data.contractAddress)).None? ==>
        && r == Created(Storage.SubmissionRow(SubmissionData(data, metadata), newId, now))
        && store.submissions == old(store.submissions) + [r.submission]
      ensures UniqueAddresses(old(store.submissions)) ==> UniqueAddresses(store.submissions)
    {
      var existing := store.GetSubmissionByAddress(data.contractAddress);
      if existing.Some? {
        return Conflict(existing.value.id);
      }
      var sub := store.CreateSubmission(SubmissionData(data, metadata), newId, now);
      r := Created(sub);
    }

    /**
     * POST /api/submissions/:id/vote. Within 10 s of the key's last accepted
     * vote nothing changes and the caller is told how long to wait; otherwise
     * one vote is stored, the submission's cached count is set to the number of
     * votes referencing it (read after the insert) and the key is stamped.
     * The submission id is not checked against the store.
     */
    method PostVote(id: Id, voterAddress: Option<string>, now: int, voteId: Id) returns (r: VoteResponse)
      requires store.Valid() && Storage.IdFree(store.votes, Storage.VoteId, voteId)
      modifies this, store
      ensures store.Valid()
      ensures store.pumpHistory == old(store.pumpHistory)
      ensures var key := VoterKey(id, voterAddress);
              var diff := now - LastVote(old(lastVoteByKey), key);
        && (diff < CooldownMs ==>
              && r == RateLimited(RetryAfterSeconds(diff))
              && lastVoteByKey == old(lastVoteByKey)
              && store.submissions == old(store.submissions) && store.votes == old(store.votes))
        && (diff >= CooldownMs ==>
              && store.votes == old(store.votes) + [Storage.VoteRow(InsertVote(id, voterAddress), voteId, now)]
              && r == Recorded(|Storage.VotesFor(store.votes, id)|)
              && r.voteCount == |Storage.VotesFor(old(store.votes), id)| + 1
              && |store.submissions| == |old(store.submissions)|
              && (forall i :: 0 <= i < |store.submissions| ==>
                    store.submissions[i] == if old(store.submissions[i]).id == id
                                            then old(store.submissions[i]).(votes := r.voteCount)
                                            else old(store.submissions[i]))
              && lastVoteByKey == old(lastVoteByKey)[key := now])
    {
      var voterKey := VoterKey(id, voterAddress);
      var last := LastVote(lastVoteByKey, voterKey);
      var diff := now - last;
      if diff < CooldownMs {
        return RateLimited(RetryAfterSeconds(diff));
      }
      var v := store.CreateVote(InsertVote(id, voterAddress), voteId, now);
      Storage.VotesForAppend(old(store.votes), v, id);
      var votes := store.GetVotesBySubmission(id);
      assert votes == Storage.VotesFor(store.votes, id);
      store.UpdateSubmissionVotes(id, |votes|);
      lastVoteByKey := lastVoteByKey[voterKey := now];
      r := Recorded(|votes|);
    }

    /** GET /api/stats: the total of the cached counts and the number of submissions. */
    function GetStats(): (st: Stats)
      reads store
      ensures st.totalVotes == TotalVotes(store.submissions) && st.totalVotes >= 0
      ensures st.submissionCount == |store.submissions|
    {
      var submissions := store.GetSubmissions();
      TotalVotesSorted(store.submissions);
      Stats(12.4, TotalVotes(submissions), |submissions|)
    }
  }

  /**
   * Submitting one address twice: the first request stores it, the second is a
   * conflict carrying the first one's id and stores nothing more.
   */
  method SubmitTwice(api: Api, data: InsertSubmission, metadata: Option<TokenMetadata>, now: int, id1: Id, id2: Id)
    returns (first: SubmitResponse, second: SubmitResponse)
    requires api.store.Valid() && Storage.IdFree(api.store.submissions, Storage.SubmissionId, id1)
    requires Storage.IdFree(api.store.submissions, Storage.SubmissionId, id2) && id1 != id2
    requires forall i :: 0 <= i < |api.store.submissions| ==> api.store.submissions[i].contractAddress != data.contractAddress
    modifies api.store
    ensures first.Created? && first.submission.id == id1
    ensures second == Conflict(id1)
    ensures api.store.submissions == old(api.store.submissions) + [first.submission]
  {
    ghost var before := api.store.submissions;
    first := api.PostSubmission(data, metadata, now, id1);
    assert api.store.GetSubmissionByAddress(data.contractAddress) == Some(first.submission) by {
      assert forall i :: 0 <= i < |before| ==> api.store.submissions[i] == before[i];
      var found := api.store.GetSubmissionByAddress(data.contractAddress);
      assert api.store.submissions[|before|] == first.submission;
      var k :| 0 <= k < |api.store.submissions| && api.store.submissions[k] == found.value;
      assert k == |before|;
    }
    second := api.PostSubmission(data, metadata, now, id2);
  }

  /**
   * Three votes on one key: accepted at t, turned away at t + d for d < 10 s
   * with a wait of 1 to 10 seconds, accepted again once 10 s have passed.
   */
  method VoteThrice(api: Api, id: Id, voter: Option<string>, t: int, d: int, later: int, v1: Id, v2: Id, v3: Id)
    returns (a: VoteResponse, b: VoteResponse, c: VoteResponse)
    requires api.store.Valid() && 0 <= d < CooldownMs && later >= t + CooldownMs
    requires Storage.IdFree(api.store.votes, Storage.VoteId, v1) && Storage.IdFree(api.store.votes, Storage.VoteId, v2)
    requires Storage.IdFree(api.store.votes, Storage.VoteId, v3) && v1 != v2 && v1 != v3 && v2 != v3
    requires t - LastVote(api.lastVoteByKey, VoterKey(id, voter)) >= CooldownMs
    modifies api, api.store
    ensures a.Recorded? && c.Recorded?
    ensures b.RateLimited? && 1 <= b.retryAfterSeconds <= 10
    ensures c.voteCount == a.voteCount + 1
  {
    a := api.PostVote(id, voter, t, v1);
    b := api.PostVote(id, voter, t + d, v2);
    RetryAfterBounds(d);
    c := api.PostVote(id, voter, later, v3);
  }
}
