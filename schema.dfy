/**
 * The records the server keeps (the `submissions`, `votes` and `pump_history`
 * tables of shared/schema.ts) and the small JavaScript idioms the server code
 * applies to their nullable text fields.
 *
 * A nullable column is an `Option`; a `Date` is an integer number of
 * milliseconds; ids are the strings `randomUUID` produces.
 */
module Schema {

  datatype Option<T> = None | Some(value: T) {
    function GetOr(default: T): T {
      match this
      case Some(v) => v
      case None => default
    }
  }

  type Id = string

  /** A row of `submissions`. The store never writes a null vote count, so it is a `nat`. */
  datatype Submission = Submission(
    id: Id,
    contractAddress: string,
    tokenName: Option<string>,
    tokenSymbol: Option<string>,
    submittedBy: Option<string>,
    votes: nat,
    createdAt: int)

  /** The body accepted by POST /api/submissions (the insert schema omits id, votes, createdAt). */
  datatype InsertSubmission = InsertSubmission(
    contractAddress: string,
    tokenName: Option<string>,
    tokenSymbol: Option<string>,
    submittedBy: Option<string>)

  /** A row of `votes`: a back-reference to a submission id, never changed once written. */
  datatype Vote = Vote(
    id: Id,
    submissionId: Id,
    voterAddress: Option<string>,
    createdAt: int)

  datatype InsertVote = InsertVote(submissionId: Id, voterAddress: Option<string>)

  /** A row of `pump_history`: one per resolved round. */
  datatype PumpHistory = PumpHistory(
    id: Id,
    submissionId: Id,
    tokenName: string,
    tokenSymbol: Option<string>,
    contractAddress: string,
    amountPumped: string,
    votes: int,
    priceImpact: Option<string>,
    transactionHash: Option<string>,
    createdAt: int)

  datatype InsertPumpHistory = InsertPumpHistory(
    submissionId: Id,
    tokenName: string,
    tokenSymbol: Option<string>,
    contractAddress: string,
    amountPumped: string,
    votes: int,
    priceImpact: Option<string>,
    transactionHash: Option<string>)

  /** JavaScript truthiness of a nullable string: null and "" are falsy. */
  predicate Truthy(x: Option<string>) {
    x.Some? && x.value != ""
  }

  /** `x || null`: keeps a non-empty string, turns "" and null into null. */
  function NullIfEmpty(x: Option<string>): (r: Option<string>)
    ensures r.Some? <==> Truthy(x)
    ensures r.Some? ==> r == x
  {
    if Truthy(x) then x else None
  }

  /** `x || fallback` for a nullable string and a string fallback. */
  function OrElse(x: Option<string>, fallback: string): (r: string)
    ensures Truthy(x) ==> r == x.value
    ensures !Truthy(x) ==> r == fallback
  {
    if Truthy(x) then x.value else fallback
  }

  /** `s.slice(0, n)` for n >= 0: the first n characters, or all of s when it is shorter. */
  function Slice(s: string, n: nat): (r: string)
    ensures |r| == if |s| <= n then |s| else n
    ensures r <= s
  {
    if |s| <= n then s else s[..n]
  }

  /** The synthesized display name `Token ${address.slice(0, 6)}`. */
  function FallbackName(address: string): (r: string)
    ensures |r| == 6 + (if |address| <= 6 then |address| else 6)
    ensures r[..6] == "Token " && r[6..] <= address
  {
    "Token " + Slice(address, 6)
  }

  const FallbackSymbol: string := "UNK"
}
