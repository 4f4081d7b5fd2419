/** The five read-only queries, as functions of the stored state. */
module Queries {
  import opened Results
  import opened State
  import opened Range
  import AddrOrder

  /** Page size when the caller gives no limit. */
  const DEFAULT_LIMIT: nat := 30

  function LimitOrDefault(limit: Option<U8>): nat {
    if limit.Some? then limit.value else DEFAULT_LIMIT
  }

  /** Entry ids are u8 keys: the store orders them numerically. */
  predicate IdLess(a: U8, b: U8) {
    a < b
  }

  lemma IdLessIsStrictTotal()
    ensures StrictTotalOrder(IdLess)
  {
  }

  datatype EntriesResponse = EntriesResponse(id: U8, data: Entry)

  datatype VotesResponse = VotesResponse(entryId: U8, makerAddr: string, votes: Votes, sum: Uint128)

  /** The ballots of one page and their field-wise sum. */
  datatype TallyVotesResponse = TallyVotesResponse(votes: seq<VotesResponse>, sum: Votes)

  // ---------------------------------------------------------------------
  // Entry and Entries

  /** The stored entry under (category, entry id), or NotFound. */
  function EntryQuery(s: Store, category: string, entryId: U8): (r: Result<Entry>)
    ensures r.Ok? <==> (category, entryId) in s.categoryEntries
    ensures r.Ok? ==> r.value == s.categoryEntries[(category, entryId)]
    ensures r.Err? ==> r.error == NotFound
  {
    if (category, entryId) in s.categoryEntries then Ok(s.categoryEntries[(category, entryId)])
    else Err(NotFound)
  }

  /** The ids stored under the category prefix. */
  ghost function EntryIds(s: Store, category: string): set<U8> {
    set key | key in s.categoryEntries && key.0 == category :: key.1
  }

  /** The ids the Entries range scan visits. */
  ghost function EntryIdPage(s: Store, category: string, startAfter: Option<U8>, n: nat): (ids: seq<U8>)
    ensures IsPage(ids, EntryIds(s, category), startAfter, n, IdLess)
    ensures forall i :: 0 <= i < |ids| ==> (category, ids[i]) in s.categoryEntries
  {
    IdLessIsStrictTotal();
    PageIsPage(EntryIds(s, category), startAfter, n, IdLess);
    Page(EntryIds(s, category), startAfter, n, IdLess)
  }

  function EntryResponses(s: Store, category: string, ids: seq<U8>): (r: seq<EntriesResponse>)
    requires forall i :: 0 <= i < |ids| ==> (category, ids[i]) in s.categoryEntries
    ensures |r| == |ids|
    ensures forall i :: 0 <= i < |r| ==> r[i].id == ids[i] && r[i].data == s.categoryEntries[(category, ids[i])]
  {
    seq(|ids|, i requires 0 <= i < |ids| => EntriesResponse(ids[i], s.categoryEntries[(category, ids[i])]))
  }

  function IdsOf(r: seq<EntriesResponse>): (ids: seq<U8>)
    ensures |ids| == |r| && forall i :: 0 <= i < |r| ==> ids[i] == r[i].id
  {
    seq(|r|, i requires 0 <= i < |r| => r[i].id)
  }

  /** Entries: the category's entries with id past start_after, ascending,
      at most `limit` (30 by default) of them. */
  ghost function EntriesQuery(s: Store, category: string, startAfter: Option<U8>, limit: Option<U8>): seq<EntriesResponse> {
    EntryResponses(s, category, EntryIdPage(s, category, startAfter, LimitOrDefault(limit)))
  }

  /** What Entries returns, without reference to how the scan runs: a page of
      the category's ids past start_after (at most the limit, ascending, none
      skipped), each with the entry stored under it. */
  lemma EntriesQuerySpec(s: Store, category: string, startAfter: Option<U8>, limit: Option<U8>)
    ensures IsPage(IdsOf(EntriesQuery(s, category, startAfter, limit)), EntryIds(s, category), startAfter, LimitOrDefault(limit), IdLess)
    ensures forall e :: e in EntriesQuery(s, category, startAfter, limit) ==>
      (category, e.id) in s.categoryEntries && e.data == s.categoryEntries[(category, e.id)]
  {
    var ids := EntryIdPage(s, category, startAfter, LimitOrDefault(limit));
    assert IdsOf(EntriesQuery(s, category, startAfter, limit)) == ids;
  }

  // ---------------------------------------------------------------------
  // Votes and TallyVotes

  /** Votes: the judge address is validated first, then the ballot is loaded. */
  function VotesQuery(s: Store, valid: string -> bool, entryId: U8, makerAddr: string): (r: Result<Votes>)
    ensures !valid(makerAddr) ==> r == Err(InvalidAddress)
    ensures valid(makerAddr) && (entryId, makerAddr) !in s.entryVotes ==> r == Err(NotFound)
    ensures r.Ok? <==> valid(makerAddr) && (entryId, makerAddr) in s.entryVotes
    ensures r.Ok? ==> r.value == s.entryVotes[(entryId, makerAddr)]
  {
    if !valid(makerAddr) then Err(InvalidAddress)
    else if (entryId, makerAddr) in s.entryVotes then Ok(s.entryVotes[(entryId, makerAddr)])
    else Err(NotFound)
  }

  datatype Field = Look | Smell | Taste | PostMelt

  function Score(v: Votes, f: Field): Uint128 {
    match f
    case Look => v.look
    case Smell => v.smell
    case Taste => v.taste
    case PostMelt => v.postMelt
  }

  /** The four scores of one ballot added up, without a bound. */
  function BallotSum(v: Votes): nat {
    v.look + v.smell + v.taste + v.postMelt
  }

  /** One field of a sequence of ballots added up, without a bound. */
  function Total(bs: seq<Votes>, f: Field): nat
    decreases |bs|
  {
    if bs == [] then 0 else Total(bs[..|bs| - 1], f) + Score(bs[|bs| - 1], f)
  }

  /** A total never shrinks as ballots are added. */
  lemma {:induction false} TotalPrefix(bs: seq<Votes>, k: nat, f: Field)
    requires k <= |bs|
    ensures Total(bs[..k], f) <= Total(bs, f)
    decreases |bs|
  {
    if k < |bs| {
      assert bs[..|bs| - 1][..k] == bs[..k];
      TotalPrefix(bs[..|bs| - 1], k, f);
    } else {
      assert bs[..k] == bs;
    }
  }

  lemma TotalAppend(bs: seq<Votes>, v: Votes, f: Field)
    ensures Total(bs + [v], f) == Total(bs, f) + Score(v, f)
  {
    assert (bs + [v])[..|bs|] == bs;
  }

  /** Every ballot sum and every running field total stays below 2^128, so
      none of the checked Uint128 additions of the tally aborts. */
  ghost predicate FitsUint128(bs: seq<Votes>) {
    && (forall f :: Total(bs, f) < U128_LIMIT)
    && (forall i :: 0 <= i < |bs| ==> BallotSum(bs[i]) < U128_LIMIT)
  }

  /** The judges with a ballot under the entry-id prefix. */
  ghost function Judges(s: Store, entryId: U8): set<Addr> {
    set key | key in s.entryVotes && key.0 == entryId :: key.1
  }

  /** The judges the TallyVotes range scan visits. */
  ghost function JudgePage(s: Store, entryId: U8, startAfter: Option<Addr>, n: nat): (judges: seq<Addr>)
    ensures IsPage(judges, Judges(s, entryId), startAfter, n, AddrOrder.Less)
    ensures forall i :: 0 <= i < |judges| ==> (entryId, judges[i]) in s.entryVotes
  {
    AddrOrder.LessIsStrictTotal();
    PageIsPage(Judges(s, entryId), startAfter, n, AddrOrder.Less);
    Page(Judges(s, entryId), startAfter, n, AddrOrder.Less)
  }

  function BallotsOf(s: Store, entryId: U8, judges: seq<Addr>): (bs: seq<Votes>)
    requires forall i :: 0 <= i < |judges| ==> (entryId, judges[i]) in s.entryVotes
    ensures |bs| == |judges|
    ensures forall i :: 0 <= i < |bs| ==> bs[i] == s.entryVotes[(entryId, judges[i])]
  {
    seq(|judges|, i requires 0 <= i < |judges| => s.entryVotes[(entryId, judges[i])])
  }

  /** The response for a page of ballots: one record per ballot with its sum,
      and the field-wise sum of the page. */
  function Tally(entryId: U8, judges: seq<Addr>, bs: seq<Votes>): TallyVotesResponse
    requires |judges| == |bs| && FitsUint128(bs)
  {
    TallyVotesResponse(
      seq(|bs|, i requires 0 <= i < |bs| => VotesResponse(entryId, judges[i], bs[i], BallotSum(bs[i]))),
      Votes(Total(bs, Look), Total(bs, Smell), Total(bs, Taste), Total(bs, PostMelt)))
  }

  /** TallyVotes: a start_after address is validated first; then the page of
      ballots for the entry, ascending by judge address; any sum that leaves
      Uint128 aborts the query. */
  ghost function TallyVotesQuery(s: Store, valid: string -> bool, entryId: U8,
                                 startAfter: Option<string>, limit: Option<U8>): Result<TallyVotesResponse>
  {
    if startAfter.Some? && !valid(startAfter.value) then Err(InvalidAddress)
    else
      var judges := JudgePage(s, entryId, startAfter, LimitOrDefault(limit));
      var bs := BallotsOf(s, entryId, judges);
      if FitsUint128(bs) then Ok(Tally(entryId, judges, bs)) else Err(Overflow)
  }

  function JudgesOf(records: seq<VotesResponse>): (judges: seq<Addr>)
    ensures |judges| == |records| && forall i :: 0 <= i < |records| ==> judges[i] == records[i].makerAddr
  {
    seq(|records|, i requires 0 <= i < |records| => records[i].makerAddr)
  }

  function BallotsIn(records: seq<VotesResponse>): (bs: seq<Votes>)
    ensures |bs| == |records| && forall i :: 0 <= i < |records| ==> bs[i] == records[i].votes
  {
    seq(|records|, i requires 0 <= i < |records| => records[i].votes)
  }

  /** Extending a fitting page by one fitting ballot extends the response by one record. */
  lemma TallyAppend(entryId: U8, judges: seq<Addr>, bs: seq<Votes>, judge: Addr, v: Votes)
    requires |judges| == |bs| && FitsUint128(bs) && FitsUint128(bs + [v])
    ensures Tally(entryId, judges + [judge], bs + [v]).votes ==
      Tally(entryId, judges, bs).votes + [VotesResponse(entryId, judge, v, BallotSum(v))]
  {
  }

  /** One ballot more: the prefix through ballot k fits exactly when the
      prefix before it fits, the four running totals plus ballot k stay below
      2^128 and so does ballot k's own sum; it then tallies to one record more;
      and once a prefix does not fit, neither does the whole page. */
  lemma TallyStep(entryId: U8, judges: seq<Addr>, bs: seq<Votes>, k: nat)
    requires |judges| == |bs| && k < |bs| && FitsUint128(bs[..k])
    ensures forall f :: Total(bs[..k + 1], f) == Total(bs[..k], f) + Score(bs[k], f)
    ensures FitsUint128(bs[..k + 1]) <==>
      && Total(bs[..k], Look) + bs[k].look < U128_LIMIT
      && Total(bs[..k], Smell) + bs[k].smell < U128_LIMIT
      && Total(bs[..k], Taste) + bs[k].taste < U128_LIMIT
      && Total(bs[..k], PostMelt) + bs[k].postMelt < U128_LIMIT
      && BallotSum(bs[k]) < U128_LIMIT
    ensures !FitsUint128(bs[..k + 1]) ==> !FitsUint128(bs)
    ensures FitsUint128(bs[..k + 1]) ==>
      Tally(entryId, judges[..k + 1], bs[..k + 1]).votes ==
        Tally(entryId, judges[..k], bs[..k]).votes + [VotesResponse(entryId, judges[k], bs[k], BallotSum(bs[k]))]
  {
    assert bs[..k + 1] == bs[..k] + [bs[k]];
    assert judges[..k + 1] == judges[..k] + [judges[k]];
    forall f
      ensures Total(bs[..k + 1], f) == Total(bs[..k], f) + Score(bs[k], f)
    {
      TotalAppend(bs[..k], bs[k], f);
    }
    if !FitsUint128(bs[..k + 1]) {
      if BallotSum(bs[k]) < U128_LIMIT {
        var f :| Total(bs[..k + 1], f) >= U128_LIMIT;
        TotalPrefix(bs, k + 1, f);
      }
    } else {
      TallyAppend(entryId, judges[..k], bs[..k], judges[k], bs[k]);
    }
  }

  lemma TallyShape(entryId: U8, judges: seq<Addr>, bs: seq<Votes>)
    requires |judges| == |bs| && FitsUint128(bs)
    ensures JudgesOf(Tally(entryId, judges, bs).votes) == judges
    ensures BallotsIn(Tally(entryId, judges, bs).votes) == bs
    ensures forall i :: 0 <= i < |bs| ==>
      Tally(entryId, judges, bs).votes[i] == VotesResponse(entryId, judges[i], bs[i], BallotSum(bs[i]))
    ensures forall f :: Score(Tally(entryId, judges, bs).sum, f) == Total(bs, f)
  {
    var t := Tally(entryId, judges, bs);
    forall f
      ensures Score(t.sum, f) == Total(bs, f)
    {
      match f
      case Look =>
      case Smell =>
      case Taste =>
      case PostMelt =>
    }
  }

  /** What a successful TallyVotes returns: the records are a page of the
      entry's judges past start_after (ascending, at most the limit, none
      skipped), each with the judge's stored ballot and that ballot's sum; and
      the response sum is the field-wise total over exactly these records,
      not over every ballot of the entry. */
  lemma TallyVotesQuerySpec(s: Store, valid: string -> bool, entryId: U8,
                            startAfter: Option<string>, limit: Option<U8>, resp: TallyVotesResponse)
    requires TallyVotesQuery(s, valid, entryId, startAfter, limit) == Ok(resp)
    ensures IsPage(JudgesOf(resp.votes), Judges(s, entryId), startAfter, LimitOrDefault(limit), AddrOrder.Less)
    ensures forall v :: v in resp.votes ==>
      && v.entryId == entryId
      && (entryId, v.makerAddr) in s.entryVotes
      && v.votes == s.entryVotes[(entryId, v.makerAddr)]
      && v.sum == v.votes.look + v.votes.smell + v.votes.taste + v.votes.postMelt
    ensures forall f :: Score(resp.sum, f) == Total(BallotsIn(resp.votes), f)
  {
    var judges := JudgePage(s, entryId, startAfter, LimitOrDefault(limit));
    var bs := BallotsOf(s, entryId, judges);
    assert FitsUint128(bs) && resp == Tally(entryId, judges, bs);
    TallyShape(entryId, judges, bs);
    forall v | v in resp.votes
      ensures && v.entryId == entryId
              && (entryId, v.makerAddr) in s.entryVotes
              && v.votes == s.entryVotes[(entryId, v.makerAddr)]
              && v.sum == v.votes.look + v.votes.smell + v.votes.taste + v.votes.postMelt
    {
      var i :| 0 <= i < |resp.votes| && resp.votes[i] == v;
    }
  }

  /** When TallyVotes fails: an invalid start_after, or a page whose sums do
      not fit in Uint128. */
  lemma TallyVotesQueryFails(s: Store, valid: string -> bool, entryId: U8,
                             startAfter: Option<string>, limit: Option<U8>)
    ensures startAfter.Some? && !valid(startAfter.value) ==>
      TallyVotesQuery(s, valid, entryId, startAfter, limit) == Err(InvalidAddress)
    ensures (startAfter.None? || valid(startAfter.value)) ==>
      (TallyVotesQuery(s, valid, entryId, startAfter, limit) == Err(Overflow) <==>
       !FitsUint128(BallotsOf(s, entryId, JudgePage(s, entryId, startAfter, LimitOrDefault(limit)))))
  {
  }
}
