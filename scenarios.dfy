/** Concrete stores and the query results the repository's tests expect
    from them: the model reproduces those values exactly. */
module Scenarios {
  import opened Results
  import opened State
  import opened Range
  import AddrOrder
  import opened Queries
  import H = Handlers

  const FirstMaker: Addr := "juno..firstmaker"
  const SecondMaker: Addr := "juno..secondmaker"
  const ThirdMaker: Addr := "third_maker"
  const FourthMaker: Addr := "fourth_maker"
  const FifthMaker: Addr := "fifth_maker"

  const SecondBallot := Votes(775, 820, 1000, 250)
  const ThirdBallot := Votes(450, 259, 720, 180)
  const FourthBallot := Votes(603, 278, 383, 286)
  const FifthBallot := Votes(950, 279, 632, 492)

  function MakerEntry(maker: Addr): Entry {
    Entry("entry_name", "category_1", maker, "maker_name", "entry_breeder", "entry_genetics", "entry_farmer")
  }

  /** One entry, by the first maker, judged by the four other makers. */
  function VotedStore(config: Config): Store {
    Store(config, ["category_1"], 1,
          map[("category_1", 1) := MakerEntry(FirstMaker)],
          map[(1, SecondMaker) := SecondBallot, (1, ThirdMaker) := ThirdBallot,
              (1, FourthMaker) := FourthBallot, (1, FifthMaker) := FifthBallot])
  }

  /** The test's five makers in address order: the fifth, the fourth, the
      second and the third maker judge; the first maker's address is not a key. */
  lemma MakerOrder()
    ensures AddrOrder.Less(FifthMaker, FourthMaker)
    ensures AddrOrder.Less(FourthMaker, SecondMaker)
    ensures AddrOrder.Less(SecondMaker, ThirdMaker)
  {
  }

  /** With four judges a < b < c < d, the page of two past b is [c, d]. */
  lemma PageOfTwoPast(keys: set<Addr>, a: Addr, b: Addr, c: Addr, d: Addr)
    requires keys == {a, b, c, d}
    requires AddrOrder.Less(a, b) && AddrOrder.Less(b, c) && AddrOrder.Less(c, d)
    ensures StrictTotalOrder(AddrOrder.Less)
    ensures Page(keys, Some(b), 2, AddrOrder.Less) == [c, d]
  {
    AddrOrder.LessIsStrictTotal();
    assert AddrOrder.Less(b, d);
    forall k | k in keys && After(AddrOrder.Less, k, Some(b))
      ensures k == c || k == d
    {
    }
    assert IsPage([c, d], keys, Some(b), 2, AddrOrder.Less);
    PageUnique([c, d], keys, Some(b), 2, AddrOrder.Less);
  }

  /** With four judges a < b < c < d and room for them all, the page from
      the start is all four in order. */
  lemma PageOfAllFour(keys: set<Addr>, a: Addr, b: Addr, c: Addr, d: Addr, n: nat)
    requires keys == {a, b, c, d} && n >= 4
    requires AddrOrder.Less(a, b) && AddrOrder.Less(b, c) && AddrOrder.Less(c, d)
    ensures StrictTotalOrder(AddrOrder.Less)
    ensures Page(keys, None, n, AddrOrder.Less) == [a, b, c, d]
  {
    AddrOrder.LessIsStrictTotal();
    assert AddrOrder.Less(a, c) && AddrOrder.Less(a, d) && AddrOrder.Less(b, d);
    var r := [a, b, c, d];
    assert forall k :: k in keys ==> k in r;
    assert IsPage(r, keys, None, n, AddrOrder.Less);
    PageUnique(r, keys, None, n, AddrOrder.Less);
  }

  lemma TotalOfTwo(a: Votes, b: Votes, f: Field)
    ensures Total([a, b], f) == Score(a, f) + Score(b, f)
  {
    assert [a, b][..1] == [a];
    assert [a][..0] == [];
    assert Total([a], f) == Score(a, f);
  }

  lemma TotalOfFour(a: Votes, b: Votes, c: Votes, d: Votes, f: Field)
    ensures Total([a, b, c, d], f) == Score(a, f) + Score(b, f) + Score(c, f) + Score(d, f)
  {
    assert [a, b, c, d][..3] == [a, b, c];
    assert [a, b, c][..2] == [a, b];
    TotalOfTwo(a, b, f);
  }

  /** The response for all four ballots. */
  lemma FullTally()
    ensures FitsUint128([FifthBallot, FourthBallot, SecondBallot, ThirdBallot])
    ensures Tally(1, [FifthMaker, FourthMaker, SecondMaker, ThirdMaker],
                  [FifthBallot, FourthBallot, SecondBallot, ThirdBallot]) ==
      TallyVotesResponse([VotesResponse(1, FifthMaker, FifthBallot, 2353),
                          VotesResponse(1, FourthMaker, FourthBallot, 1550),
                          VotesResponse(1, SecondMaker, SecondBallot, 2845),
                          VotesResponse(1, ThirdMaker, ThirdBallot, 1609)],
                         Votes(2778, 1636, 2735, 1208))
  {
    forall f
      ensures Total([FifthBallot, FourthBallot, SecondBallot, ThirdBallot], f) ==
        Score(FifthBallot, f) + Score(FourthBallot, f) + Score(SecondBallot, f) + Score(ThirdBallot, f)
    {
      TotalOfFour(FifthBallot, FourthBallot, SecondBallot, ThirdBallot, f);
    }
  }

  /** The response for the second page's two ballots. */
  lemma SecondPageTally()
    ensures FitsUint128([SecondBallot, ThirdBallot])
    ensures Tally(1, [SecondMaker, ThirdMaker], [SecondBallot, ThirdBallot]) ==
      TallyVotesResponse([VotesResponse(1, SecondMaker, SecondBallot, 2845),
                          VotesResponse(1, ThirdMaker, ThirdBallot, 1609)],
                         Votes(1225, 1079, 1720, 430))
  {
    forall f
      ensures Total([SecondBallot, ThirdBallot], f) == Score(SecondBallot, f) + Score(ThirdBallot, f)
    {
      TotalOfTwo(SecondBallot, ThirdBallot, f);
    }
  }

  /** An entry with four ballots has exactly their four judges. */
  lemma FourJudges(s: Store, entryId: U8, a: Addr, b: Addr, c: Addr, d: Addr,
                   va: Votes, vb: Votes, vc: Votes, vd: Votes)
    requires s.entryVotes == map[(entryId, a) := va, (entryId, b) := vb, (entryId, c) := vc, (entryId, d) := vd]
    ensures Judges(s, entryId) == {a, b, c, d}
  {
    assert (entryId, a) in s.entryVotes && (entryId, b) in s.entryVotes;
    assert (entryId, c) in s.entryVotes && (entryId, d) in s.entryVotes;
  }

  /** Under four distinct judges, each judge's ballot is the one stored for it. */
  lemma FourBallots(s: Store, entryId: U8, a: Addr, b: Addr, c: Addr, d: Addr,
                    va: Votes, vb: Votes, vc: Votes, vd: Votes)
    requires s.entryVotes == map[(entryId, a) := va, (entryId, b) := vb, (entryId, c) := vc, (entryId, d) := vd]
    requires a != b && a != c && a != d && b != c && b != d && c != d
    ensures BallotsOf(s, entryId, [a, b, c, d]) == [va, vb, vc, vd]
    ensures BallotsOf(s, entryId, [c, d]) == [vc, vd]
  {
    assert s.entryVotes[(entryId, a)] == va && s.entryVotes[(entryId, b)] == vb;
    assert s.entryVotes[(entryId, c)] == vc && s.entryVotes[(entryId, d)] == vd;
  }

  /** With four ballots under an entry from judges a < b < c < d, the page
      of two past b tallies the ballots of c and d. */
  lemma TallyOfTwoPast(s: Store, valid: string -> bool, entryId: U8, a: Addr, b: Addr, c: Addr, d: Addr,
                       va: Votes, vb: Votes, vc: Votes, vd: Votes)
    requires s.entryVotes == map[(entryId, a) := va, (entryId, b) := vb, (entryId, c) := vc, (entryId, d) := vd]
    requires AddrOrder.Less(a, b) && AddrOrder.Less(b, c) && AddrOrder.Less(c, d)
    requires valid(b) && FitsUint128([vc, vd])
    ensures TallyVotesQuery(s, valid, entryId, Some(b), Some(2)) == Ok(Tally(entryId, [c, d], [vc, vd]))
  {
    var keys := Judges(s, entryId);
    FourJudges(s, entryId, a, b, c, d, va, vb, vc, vd);
    PageOfTwoPast(keys, a, b, c, d);
    assert JudgePage(s, entryId, Some(b), 2) == [c, d];
    assert AddrOrder.Less(a, c) && AddrOrder.Less(a, d) && AddrOrder.Less(b, d);
    FourBallots(s, entryId, a, b, c, d, va, vb, vc, vd);
  }

  /** With four ballots under an entry from judges a < b < c < d, the first
      page of the default size tallies all four, in that order. */
  lemma TallyOfAllFour(s: Store, valid: string -> bool, entryId: U8, a: Addr, b: Addr, c: Addr, d: Addr,
                       va: Votes, vb: Votes, vc: Votes, vd: Votes)
    requires s.entryVotes == map[(entryId, a) := va, (entryId, b) := vb, (entryId, c) := vc, (entryId, d) := vd]
    requires AddrOrder.Less(a, b) && AddrOrder.Less(b, c) && AddrOrder.Less(c, d)
    requires FitsUint128([va, vb, vc, vd])
    ensures TallyVotesQuery(s, valid, entryId, None, None) == Ok(Tally(entryId, [a, b, c, d], [va, vb, vc, vd]))
  {
    var keys := Judges(s, entryId);
    FourJudges(s, entryId, a, b, c, d, va, vb, vc, vd);
    PageOfAllFour(keys, a, b, c, d, DEFAULT_LIMIT);
    assert JudgePage(s, entryId, None, DEFAULT_LIMIT) == [a, b, c, d];
    assert AddrOrder.Less(a, c) && AddrOrder.Less(a, d) && AddrOrder.Less(b, d);
    FourBallots(s, entryId, a, b, c, d, va, vb, vc, vd);
  }

  /** The whole tally of the entry: the four judges in address order (the
      fifth maker first), each ballot's sum, and the field-wise sum. */
  lemma TallyFirstPage(config: Config, valid: string -> bool)
    ensures TallyVotesQuery(VotedStore(config), valid, 1, None, None) ==
      Ok(TallyVotesResponse([VotesResponse(1, FifthMaker, FifthBallot, 2353),
                             VotesResponse(1, FourthMaker, FourthBallot, 1550),
                             VotesResponse(1, SecondMaker, SecondBallot, 2845),
                             VotesResponse(1, ThirdMaker, ThirdBallot, 1609)],
                            Votes(2778, 1636, 2735, 1208)))
  {
    MakerOrder();
    FullTally();
    TallyOfAllFour(VotedStore(config), valid, 1, FifthMaker, FourthMaker, SecondMaker, ThirdMaker,
                   FifthBallot, FourthBallot, SecondBallot, ThirdBallot);
  }

  /** The second page of two ballots past "fourth_maker": the second and the
      third maker, in that order, and the page's field-wise sum. */
  lemma TallySecondPage(config: Config, valid: string -> bool)
    requires valid(FourthMaker)
    ensures TallyVotesQuery(VotedStore(config), valid, 1, Some(FourthMaker), Some(2)) ==
      Ok(TallyVotesResponse([VotesResponse(1, SecondMaker, SecondBallot, 2845),
                             VotesResponse(1, ThirdMaker, ThirdBallot, 1609)],
                            Votes(1225, 1079, 1720, 430)))
  {
    MakerOrder();
    SecondPageTally();
    TallyOfTwoPast(VotedStore(config), valid, 1, FifthMaker, FourthMaker, SecondMaker, ThirdMaker,
                   FifthBallot, FourthBallot, SecondBallot, ThirdBallot);
  }

  /** Three entries in "category_1", made by the first, second and third maker. */
  function EntriesStore(config: Config): Store {
    Store(config, ["category_1"], 3,
          map[("category_1", 1) := MakerEntry(FirstMaker), ("category_1", 2) := MakerEntry(SecondMaker),
              ("category_1", 3) := MakerEntry(ThirdMaker)],
          map[])
  }

  lemma ThreeIds(s: Store, category: string, e1: Entry, e2: Entry, e3: Entry)
    requires s.categoryEntries == map[(category, 1) := e1, (category, 2) := e2, (category, 3) := e3]
    ensures EntryIds(s, category) == {1, 2, 3}
  {
    assert (category, 1) in s.categoryEntries && (category, 2) in s.categoryEntries;
    assert (category, 3) in s.categoryEntries;
  }

  /** Over the ids 1 < 2 < 3 the default page is all three, ... */
  lemma IdScanFromStart(keys: set<U8>)
    requires keys == {1, 2, 3}
    ensures StrictTotalOrder(IdLess) && Page(keys, None, DEFAULT_LIMIT, IdLess) == [1, 2, 3]
  {
    IdLessIsStrictTotal();
    assert IsPage([1, 2, 3], keys, None, DEFAULT_LIMIT, IdLess);
    PageUnique([1, 2, 3], keys, None, DEFAULT_LIMIT, IdLess);
  }

  /** ... the page past 2 is [3], ... */
  lemma IdScanPastTwo(keys: set<U8>)
    requires keys == {1, 2, 3}
    ensures StrictTotalOrder(IdLess) && Page(keys, Some(2), DEFAULT_LIMIT, IdLess) == [3]
  {
    IdLessIsStrictTotal();
    assert IsPage([3], keys, Some(2), DEFAULT_LIMIT, IdLess);
    PageUnique([3], keys, Some(2), DEFAULT_LIMIT, IdLess);
  }

  /** ... and the page of one past 1 is [2]. */
  lemma IdScanOnePastOne(keys: set<U8>)
    requires keys == {1, 2, 3}
    ensures StrictTotalOrder(IdLess) && Page(keys, Some(1), 1, IdLess) == [2]
  {
    IdLessIsStrictTotal();
    assert IsPage([2], keys, Some(1), 1, IdLess);
    PageUnique([2], keys, Some(1), 1, IdLess);
  }

  /** A category holding ids 1, 2 and 3: the default page from the start is all three. */
  lemma ThreeIdsFromStart(s: Store, category: string, e1: Entry, e2: Entry, e3: Entry)
    requires s.categoryEntries == map[(category, 1) := e1, (category, 2) := e2, (category, 3) := e3]
    ensures EntriesQuery(s, category, None, None) ==
      [EntriesResponse(1, e1), EntriesResponse(2, e2), EntriesResponse(3, e3)]
  {
    ThreeIds(s, category, e1, e2, e3);
    IdScanFromStart(EntryIds(s, category));
    assert EntryIdPage(s, category, None, DEFAULT_LIMIT) == [1, 2, 3];
    assert s.categoryEntries[(category, 1)] == e1 && s.categoryEntries[(category, 2)] == e2;
    assert s.categoryEntries[(category, 3)] == e3;
  }

  /** ... past id 2 only the third. */
  lemma ThreeIdsPastTwo(s: Store, category: string, e1: Entry, e2: Entry, e3: Entry)
    requires s.categoryEntries == map[(category, 1) := e1, (category, 2) := e2, (category, 3) := e3]
    ensures EntriesQuery(s, category, Some(2), None) == [EntriesResponse(3, e3)]
  {
    ThreeIds(s, category, e1, e2, e3);
    IdScanPastTwo(EntryIds(s, category));
    assert EntryIdPage(s, category, Some(2), DEFAULT_LIMIT) == [3];
    assert s.categoryEntries[(category, 3)] == e3;
  }

  /** ... and one item past id 1 is the second. */
  lemma ThreeIdsOnePastOne(s: Store, category: string, e1: Entry, e2: Entry, e3: Entry)
    requires s.categoryEntries == map[(category, 1) := e1, (category, 2) := e2, (category, 3) := e3]
    ensures EntriesQuery(s, category, Some(1), Some(1)) == [EntriesResponse(2, e2)]
  {
    ThreeIds(s, category, e1, e2, e3);
    IdScanOnePastOne(EntryIds(s, category));
    assert EntryIdPage(s, category, Some(1), 1) == [2];
    assert s.categoryEntries[(category, 2)] == e2;
  }

  /** The entries of "category_1": all three from the start, only the third
      past id 2, and only the second with one item past id 1. */
  lemma EntriesOfCategory(config: Config)
    ensures |EntriesQuery(EntriesStore(config), "category_1", None, None)| == 3
    ensures EntriesQuery(EntriesStore(config), "category_1", None, None)[1].data == MakerEntry(SecondMaker)
    ensures EntriesQuery(EntriesStore(config), "category_1", Some(2), None) == [EntriesResponse(3, MakerEntry(ThirdMaker))]
    ensures EntriesQuery(EntriesStore(config), "category_1", Some(1), Some(1)) == [EntriesResponse(2, MakerEntry(SecondMaker))]
  {
    var s := EntriesStore(config);
    var e1, e2, e3 := MakerEntry(FirstMaker), MakerEntry(SecondMaker), MakerEntry(ThirdMaker);
    ThreeIdsFromStart(s, "category_1", e1, e2, e3);
    ThreeIdsPastTwo(s, "category_1", e1, e2, e3);
    ThreeIdsOnePastOne(s, "category_1", e1, e2, e3);
  }

  // ---------------------------------------------------------------------
  // The stores above are the ones the tests' calls build

  const Admin: Addr := "juno..admin"

  /** One execute call: who sends it and what it asks for. */
  datatype Call = Call(sender: Addr, msg: H.ExecuteMsg)

  /** Calls executed one after another; the first failure ends the run. */
  function Run(s: Store, querier: H.Querier, valid: H.AddrValidator, calls: seq<Call>): Result<Store>
    decreases |calls|
  {
    if calls == [] then Ok(s)
    else
      match H.Execute(s, querier, valid, calls[0].sender, calls[0].msg)
      case Err(e) => Err(e)
      case Ok(t) => Run(t, querier, valid, calls[1..])
  }

  /** The group answers the Member query with some weight. */
  predicate Member(querier: H.Querier, group: Addr, addr: Addr) {
    querier(group, addr).Answered? && querier(group, addr).weight.Some?
  }

  function AddMakerEntry(maker: Addr): Call {
    Call(Admin, H.AddEntry("entry_name", "category_1", maker, "maker_name", "entry_breeder", "entry_genetics", "entry_farmer"))
  }

  /** The admin opens "category_1" and enters the first maker's entry; the
      four other makers each vote on it. */
  const VotingCalls: seq<Call> := [
    Call(Admin, H.AddCategory("category_1")),
    AddMakerEntry(FirstMaker),
    Call(SecondMaker, H.Vote("category_1", 1, SecondBallot)),
    Call(ThirdMaker, H.Vote("category_1", 1, ThirdBallot)),
    Call(FourthMaker, H.Vote("category_1", 1, FourthBallot)),
    Call(FifthMaker, H.Vote("category_1", 1, FifthBallot))
  ]

  /** The admin opens "category_1" and enters the first, second and third maker's entries. */
  const EntryCalls: seq<Call> := [
    Call(Admin, H.AddCategory("category_1")),
    AddMakerEntry(FirstMaker),
    AddMakerEntry(SecondMaker),
    AddMakerEntry(ThirdMaker)
  ]

  /** A run is its first call followed by the run of the rest. */
  lemma RunFirst(s: Store, querier: H.Querier, valid: H.AddrValidator, calls: seq<Call>, t: Store)
    requires calls != [] && H.Execute(s, querier, valid, calls[0].sender, calls[0].msg) == Ok(t)
    ensures Run(s, querier, valid, calls) == Run(t, querier, valid, calls[1..])
  {
  }

  /** Instantiated with two valid groups, the contract ends up holding
      exactly VotedStore after the voting test's calls. */
  lemma VotedStoreReached(querier: H.Querier, valid: H.AddrValidator, admins: Addr, makers: Addr)
    requires valid(admins) && valid(makers) && valid(FirstMaker)
    requires Member(querier, admins, Admin)
    requires Member(querier, makers, SecondMaker) && Member(querier, makers, ThirdMaker)
    requires Member(querier, makers, FourthMaker) && Member(querier, makers, FifthMaker)
    ensures H.Instantiate(valid, H.InstantiateMsg(admins, makers)) == Ok(Store(Config(admins, makers), [], 0, map[], map[]))
    ensures Run(Store(Config(admins, makers), [], 0, map[], map[]), querier, valid, VotingCalls) ==
            Ok(VotedStore(Config(admins, makers)))
  {
    var config := Config(admins, makers);
    var s0 := Store(config, [], 0, map[], map[]);
    var s1 := s0.(categories := ["category_1"]);
    var s2 := s1.(entryId := 1, categoryEntries := map[("category_1", 1) := MakerEntry(FirstMaker)]);
    var s3 := s2.(entryVotes := map[(1, SecondMaker) := SecondBallot]);
    var s4 := s3.(entryVotes := s3.entryVotes[(1, ThirdMaker) := ThirdBallot]);
    var s5 := s4.(entryVotes := s4.entryVotes[(1, FourthMaker) := FourthBallot]);
    var s6 := s5.(entryVotes := s5.entryVotes[(1, FifthMaker) := FifthBallot]);
    var calls := VotingCalls;
    assert s0.categories + ["category_1"] == s1.categories;
    RunFirst(s0, querier, valid, calls, s1);
    RunFirst(s1, querier, valid, calls[1..], s2);
    RunFirst(s2, querier, valid, calls[2..], s3);
    RunFirst(s3, querier, valid, calls[3..], s4);
    RunFirst(s4, querier, valid, calls[4..], s5);
    RunFirst(s5, querier, valid, calls[5..], s6);
    assert calls[5..][1..] == [];
    assert s6 == VotedStore(config);
  }

  /** Instantiated with two valid groups, the contract ends up holding
      exactly EntriesStore after the entries test's calls. */
  lemma EntriesStoreReached(querier: H.Querier, valid: H.AddrValidator, admins: Addr, makers: Addr)
    requires valid(admins) && valid(makers)
    requires valid(FirstMaker) && valid(SecondMaker) && valid(ThirdMaker)
    requires Member(querier, admins, Admin)
    ensures H.Instantiate(valid, H.InstantiateMsg(admins, makers)) == Ok(Store(Config(admins, makers), [], 0, map[], map[]))
    ensures Run(Store(Config(admins, makers), [], 0, map[], map[]), querier, valid, EntryCalls) ==
            Ok(EntriesStore(Config(admins, makers)))
  {
    var config := Config(admins, makers);
    var s0 := Store(config, [], 0, map[], map[]);
    var s1 := s0.(categories := ["category_1"]);
    var s2 := s1.(entryId := 1, categoryEntries := map[("category_1", 1) := MakerEntry(FirstMaker)]);
    var s3 := s2.(entryId := 2, categoryEntries := s2.categoryEntries[("category_1", 2) := MakerEntry(SecondMaker)]);
    var s4 := s3.(entryId := 3, categoryEntries := s3.categoryEntries[("category_1", 3) := MakerEntry(ThirdMaker)]);
    var calls := EntryCalls;
    assert s0.categories + ["category_1"] == s1.categories;
    RunFirst(s0, querier, valid, calls, s1);
    RunFirst(s1, querier, valid, calls[1..], s2);
    RunFirst(s2, querier, valid, calls[2..], s3);
    RunFirst(s3, querier, valid, calls[3..], s4);
    assert calls[3..][1..] == [];
    assert s4 == EntriesStore(config);
  }
}
