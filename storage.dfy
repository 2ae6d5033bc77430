/**
 * The in-memory store behind the API (`MemStorage` in server/storage.ts).
 *
 * Each of its three JavaScript `Map`s is kept as the sequence of its values in
 * insertion order, which is the order `Array.from(map.values())` yields; a
 * `set` on a key that is already present replaces the value in place. Keys are
 * the records' own ids, so the store's invariant is that ids are unique.
 */
module Storage {
  import opened Schema
  import Sorting

  function SubmissionId(s: Submission): Id { s.id }
  function VoteId(v: Vote): Id { v.id }
  function HistoryId(h: PumpHistory): Id { h.id }

  /** The sort keys: `b.votes! - a.votes!` and `new Date(b.createdAt!).getTime() - …`. */
  function VotesOf(s: Submission): int { s.votes }
  function CreatedAtOf(h: PumpHistory): int { h.createdAt }

  /**
   * The records the `create…` operations build: the insert data, the fresh id
   * and the creation time, with `x || null` applied to the nullable text fields
   * each operation normalises.
   */
  function SubmissionRow(ins: InsertSubmission, id: Id, now: int): Submission {
    Submission(id, ins.contractAddress, NullIfEmpty(ins.tokenName), NullIfEmpty(ins.tokenSymbol),
               NullIfEmpty(ins.submittedBy), 0, now)
  }

  function VoteRow(ins: InsertVote, id: Id, now: int): Vote {
    Vote(id, ins.submissionId, NullIfEmpty(ins.voterAddress), now)
  }

  function HistoryRow(ins: InsertPumpHistory, id: Id, now: int): PumpHistory {
    PumpHistory(id, ins.submissionId, ins.tokenName, NullIfEmpty(ins.tokenSymbol),
                ins.contractAddress, ins.amountPumped, ins.votes,
                NullIfEmpty(ins.priceImpact), NullIfEmpty(ins.transactionHash), now)
  }

  /** No two records share a key of the `Map`. */
  ghost predicate UniqueIds<T>(s: seq<T>, idOf: T -> Id) {
    forall i, j :: 0 <= i < j < |s| ==> idOf(s[i]) != idOf(s[j])
  }

  /** `id` is not yet a key of the `Map`: what a fresh `randomUUID()` provides. */
  predicate IdFree<T>(s: seq<T>, idOf: T -> Id, id: Id) {
    forall i :: 0 <= i < |s| ==> idOf(s[i]) != id
  }

  /** Position of the first submission with this contract address (`Array.prototype.find`). */
  function FirstWithAddress(s: seq<Submission>, address: string): (r: Option<nat>)
    ensures r.Some? ==> r.value < |s| && s[r.value].contractAddress == address
    ensures r.Some? ==> forall j :: 0 <= j < r.value ==> s[j].contractAddress != address
    ensures r.None? <==> forall j :: 0 <= j < |s| ==> s[j].contractAddress != address
  {
    if s == [] then None
    else if s[0].contractAddress == address then Some(0)
    else match FirstWithAddress(s[1..], address)
      case None => None
      case Some(k) => Some(k + 1)
  }

  /** Position of the submission stored under key `id` (`Map.prototype.get`). */
  function IndexOfId(s: seq<Submission>, id: Id): (r: Option<nat>)
    ensures r.Some? ==> r.value < |s| && s[r.value].id == id
    ensures r.None? <==> forall j :: 0 <= j < |s| ==> s[j].id != id
  {
    if s == [] then None
    else if s[0].id == id then Some(0)
    else match IndexOfId(s[1..], id)
      case None => None
      case Some(k) => Some(k + 1)
  }

  /** `votes.filter(vote => vote.submissionId === submissionId)`, in insertion order. */
  function VotesFor(vs: seq<Vote>, submissionId: Id): (r: seq<Vote>)
    ensures forall i :: 0 <= i < |r| ==> r[i] in vs && r[i].submissionId == submissionId
    ensures forall i :: 0 <= i < |vs| && vs[i].submissionId == submissionId ==> vs[i] in r
  {
    if vs == [] then []
    else (if vs[0].submissionId == submissionId then [vs[0]] else []) + VotesFor(vs[1..], submissionId)
  }

  /** The filter keeps each matching vote exactly as often as it occurs, and no other vote. */
  lemma {:induction false} VotesForMultiplicity(vs: seq<Vote>, submissionId: Id)
    ensures forall v :: multiset(VotesFor(vs, submissionId))[v] == if v.submissionId == submissionId then multiset(vs)[v] else 0
  {
    if vs != [] {
      assert vs == [vs[0]] + vs[1..];
      VotesForMultiplicity(vs[1..], submissionId);
    }
  }

  /** `votes.some(vote => vote.submissionId === s && vote.voterAddress === voter)`. */
  function SomeVoteBy(vs: seq<Vote>, submissionId: Id, voter: string): (b: bool)
    ensures b <==> exists i :: 0 <= i < |vs| && vs[i].submissionId == submissionId && vs[i].voterAddress == Some(voter)
  {
    if vs == [] then false
    else
      (vs[0].submissionId == submissionId && vs[0].voterAddress == Some(voter))
      || SomeVoteBy(vs[1..], submissionId, voter)
  }

  /**
   * Recording one vote adds one to the count of its submission and leaves the
   * count of every other submission as it was.
   */
  lemma {:induction false} VotesForAppend(vs: seq<Vote>, v: Vote, submissionId: Id)
    ensures |VotesFor(vs + [v], submissionId)|
         == |VotesFor(vs, submissionId)| + (if v.submissionId == submissionId then 1 else 0)
  {
    if vs == [] {
      assert [] + [v] == [v];
    } else {
      assert (vs + [v])[1..] == vs[1..] + [v];
      VotesForAppend(vs[1..], v, submissionId);
    }
  }

  class MemStorage {
    var submissions: seq<Submission>
    var votes: seq<Vote>
    var pumpHistory: seq<PumpHistory>

    ghost predicate Valid()
      reads this
    {
      && UniqueIds(submissions, SubmissionId)
      && UniqueIds(votes, VoteId)
      && UniqueIds(pumpHistory, HistoryId)
    }

    constructor ()
      ensures Valid()
      ensures submissions == [] && votes == [] && pumpHistory == []
    {
      submissions, votes, pumpHistory := [], [], [];
    }

    /** All submissions, most votes first; equal counts keep insertion order. */
    function GetSubmissions(): (r: seq<Submission>)
      reads this
      ensures multiset(r) == multiset(submissions)
      ensures Sorting.SortedDesc(r, VotesOf)
    {
      Sorting.SortDesc(submissions, VotesOf)
    }

    /** The first stored submission with this address, or none when no submission has it. */
    function GetSubmissionByAddress(contractAddress: string): (r: Option<Submission>)
      reads this
      ensures r.Some? ==> r.value in submissions && r.value.contractAddress == contractAddress
      ensures r.None? <==> forall j :: 0 <= j < |submissions| ==> submissions[j].contractAddress != contractAddress
    {
      match FirstWithAddress(submissions, contractAddress)
      case None => None
      case Some(k) => Some(submissions[k])
    }

    /**
     * Stores a new submission under a fresh id with no votes; empty or missing
     * name, symbol and submitter become null. Nothing stored changes, and the
     * address is NOT checked for uniqueness here.
     */
    method CreateSubmission(ins: InsertSubmission, id: Id, now: int) returns (sub: Submission)
      requires Valid() && IdFree(submissions, SubmissionId, id)
      modifies this
      ensures Valid()
      ensures sub == SubmissionRow(ins, id, now)
      ensures submissions == old(submissions) + [sub]
      ensures votes == old(votes) && pumpHistory == old(pumpHistory)
    {
      sub := SubmissionRow(ins, id, now);
      submissions := submissions + [sub];
    }

    /** Sets the cached vote count of the submission with this id; no effect for an unknown id. */
    method UpdateSubmissionVotes(id: Id, count: nat)
      requires Valid()
      modifies this
      ensures Valid()
      ensures |submissions| == |old(submissions)|
      ensures forall i :: 0 <= i < |submissions| ==>
        submissions[i] == if old(submissions[i]).id == id then old(submissions[i]).(votes := count) else old(submissions[i])
      ensures votes == old(votes) && pumpHistory == old(pumpHistory)
    {
      match IndexOfId(submissions, id)
      case None =>
      case Some(k) =>
        submissions := submissions[k := submissions[k].(votes := count)];
    }

    /** Records one vote under a fresh id; an empty voter address becomes null. */
    method CreateVote(ins: InsertVote, id: Id, now: int) returns (v: Vote)
      requires Valid() && IdFree(votes, VoteId, id)
      modifies this
      ensures Valid()
      ensures v == VoteRow(ins, id, now)
      ensures votes == old(votes) + [v]
      ensures submissions == old(submissions) && pumpHistory == old(pumpHistory)
    {
      v := VoteRow(ins, id, now);
      votes := votes + [v];
    }

    /**
     * Exactly the stored votes that reference this submission id, each as many
     * times as it is stored, so the length is the submission's vote count.
     */
    function GetVotesBySubmission(submissionId: Id): (r: seq<Vote>)
      reads this
      ensures forall i :: 0 <= i < |r| ==> r[i] in votes && r[i].submissionId == submissionId
      ensures forall i :: 0 <= i < |votes| && votes[i].submissionId == submissionId ==> votes[i] in r
      ensures forall v {:trigger multiset(r)[v]} :: multiset(r)[v] == if v.submissionId == submissionId then multiset(votes)[v] else 0
    {
      VotesForMultiplicity(votes, submissionId);
      VotesFor(votes, submissionId)
    }

    /** Whether some stored vote on this submission carries this voter address. */
    function HasUserVoted(submissionId: Id, voterAddress: string): (b: bool)
      reads this
      ensures b <==> exists i :: 0 <= i < |votes| && votes[i].submissionId == submissionId
                                                   && votes[i].voterAddress == Some(voterAddress)
    {
      SomeVoteBy(votes, submissionId, voterAddress)
    }

    /** All history entries, most recent first. */
    function GetPumpHistory(): (r: seq<PumpHistory>)
      reads this
      ensures multiset(r) == multiset(pumpHistory)
      ensures Sorting.SortedDesc(r, CreatedAtOf)
    {
      Sorting.SortDesc(pumpHistory, CreatedAtOf)
    }

    /** Appends one history entry under a fresh id; empty symbol, price impact and hash become null. */
    method CreatePumpHistory(ins: InsertPumpHistory, id: Id, now: int) returns (h: PumpHistory)
      requires Valid() && IdFree(pumpHistory, HistoryId, id)
      modifies this
      ensures Valid()
      ensures h == HistoryRow(ins, id, now)
      ensures pumpHistory == old(pumpHistory) + [h]
      ensures submissions == old(submissions) && votes == old(votes)
    {
      h := HistoryRow(ins, id, now);
      pumpHistory := pumpHistory + [h];
    }

    /**
     * Zeroes every submission's cached vote count and keeps the vote rows.
     * The round service calls this operation but the store does not define it;
     * this is the least the call sites rely on.
     */
    method ResetAllVotes()
      requires Valid()
      modifies this
      ensures Valid()
      ensures |submissions| == |old(submissions)|
      ensures forall i :: 0 <= i < |submissions| ==> submissions[i] == old(submissions[i]).(votes := 0)
      ensures votes == old(votes) && pumpHistory == old(pumpHistory)
    {
      var i := 0;
      while i < |submissions|
        invariant 0 <= i <= |submissions| == |old(submissions)|
        invariant forall j :: 0 <= j < i ==> submissions[j] == old(submissions[j]).(votes := 0)
        invariant forall j :: i <= j < |submissions| ==> submissions[j] == old(submissions[j])
        invariant votes == old(votes) && pumpHistory == old(pumpHistory)
      {
        submissions := submissions[i := submissions[i].(votes := 0)];
        i := i + 1;
      }
    }
  }
}
