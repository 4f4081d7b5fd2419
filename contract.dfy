/** The contract as a stateful object: its fields are the storage items,
    the execute handlers update them in place, the queries read them. */
module Contract {
  import opened Results
  import opened State
  import opened Range
  import AddrOrder
  import H = Handlers
  import Q = Queries

  /** What the caller of a handler sees. */
  function OutcomeOf(r: Result<Store>): Outcome {
    if r.Ok? then Success else Failure(r.error)
  }

  /** The store after a handler: its new store, or the old one when it failed,
      since a failed call commits none of its writes. */
  function StoreAfter(old_: Store, r: Result<Store>): Store {
    if r.Ok? then r.value else old_
  }

  /** The tally of one page of ballots: each ballot's own sum and a running
      Uint128 sum per field, where any addition past Uint128 aborts. */
  method TallyPage(entryId: U8, page: seq<Addr>, bs: seq<Votes>) returns (r: Result<Q.TallyVotesResponse>)
    requires |page| == |bs|
    ensures Q.FitsUint128(bs) ==> r == Ok(Q.Tally(entryId, page, bs))
    ensures !Q.FitsUint128(bs) ==> r == Err(Overflow)
  {
    var look: Uint128, smell: Uint128, taste: Uint128, postMelt: Uint128 := 0, 0, 0, 0;
    var records: seq<Q.VotesResponse> := [];
    var i := 0;
    while i < |page|
      invariant 0 <= i <= |page|
      invariant Q.FitsUint128(bs[..i])
      invariant records == Q.Tally(entryId, page[..i], bs[..i]).votes
      invariant look == Q.Total(bs[..i], Q.Look) && smell == Q.Total(bs[..i], Q.Smell)
      invariant taste == Q.Total(bs[..i], Q.Taste) && postMelt == Q.Total(bs[..i], Q.PostMelt)
    {
      var v := bs[i];
      var ballotSum := v.look + v.smell + v.taste + v.postMelt;
      Q.TallyStep(entryId, page, bs, i);
      if look + v.look >= U128_LIMIT || smell + v.smell >= U128_LIMIT
         || taste + v.taste >= U128_LIMIT || postMelt + v.postMelt >= U128_LIMIT
         || ballotSum >= U128_LIMIT {
        return Err(Overflow);
      }
      look, smell, taste, postMelt := look + v.look, smell + v.smell, taste + v.taste, postMelt + v.postMelt;
      records := records + [Q.VotesResponse(entryId, page[i], v, ballotSum)];
      i := i + 1;
    }
    assert bs[..i] == bs && page[..i] == page;
    r := Ok(Q.TallyVotesResponse(records, Votes(look, smell, taste, postMelt)));
  }

  /** `Vec::contains`: a linear scan for an equal element. */
  method Contains(items: seq<string>, item: string) returns (found: bool)
    ensures found <==> item in items
  {
    var i := 0;
    while i < |items|
      invariant 0 <= i <= |items|
      invariant item !in items[..i]
    {
      if items[i] == item {
        return true;
      }
      i := i + 1;
    }
    return false;
  }

  /** instantiate: validates both group addresses, then saves the config, an
      empty category list and an entry counter of 0. */
  method Instantiate(valid: H.AddrValidator, msg: H.InstantiateMsg) returns (r: Result<VotingContract>)
    ensures H.Instantiate(valid, msg).Err? ==> r == Err(H.Instantiate(valid, msg).error)
    ensures H.Instantiate(valid, msg).Ok? ==>
      r.Ok? && fresh(r.value) && r.value.Snapshot() == H.Instantiate(valid, msg).value && r.value.Valid()
  {
    if !valid(msg.adminsCw4Group) {
      return Err(InvalidAddress);
    }
    if !valid(msg.makersCw4Group) {
      return Err(InvalidAddress);
    }
    var contract := new VotingContract(Config(msg.adminsCw4Group, msg.makersCw4Group));
    return Ok(contract);
  }

  class VotingContract {
    var config: Config
    var categories: seq<string>
    var entryId: U8
    var categoryEntries: map<EntryKey, Entry>
    var entryVotes: map<VoteKey, Votes>

    /** The storage items as one value. */
    function Snapshot(): Store
      reads this
    {
      Store(config, categories, entryId, categoryEntries, entryVotes)
    }

    ghost predicate Valid()
      reads this
    {
      H.Inv(Snapshot())
    }

    /** The state instantiate saves once the config is validated. */
    constructor (config: Config)
      ensures Snapshot() == Store(config, [], 0, map[], map[])
      ensures Valid()
    {
      this.config := config;
      categories := [];
      entryId := 0;
      categoryEntries := map[];
      entryVotes := map[];
    }

    method ExecuteAddCategory(querier: H.Querier, sender: Addr, category: string) returns (r: Outcome)
      modifies this
      ensures r == OutcomeOf(H.ExecuteAddCategory(old(Snapshot()), querier, sender, category))
      ensures Snapshot() == StoreAfter(old(Snapshot()), H.ExecuteAddCategory(old(Snapshot()), querier, sender, category))
      ensures old(Valid()) ==> Valid()
    {
      var auth := H.CheckMembership(querier, config.adminsCw4Group, sender);
      if auth.Failure? {
        return auth;
      }
      var list := categories;
      var present := Contains(list, category);
      if present {
        return Failure(InvalidCategory);
      }
      list := list + [category];
      categories := list;
      if old(Valid()) {
        H.AddCategoryPreservesInv(old(Snapshot()), querier, sender, category);
      }
      return Success;
    }

    method ExecuteAddEntry(querier: H.Querier, valid: H.AddrValidator, sender: Addr,
                           name: string, category: string, makerAddr: string, makerName: string,
                           breeder: string, genetics: string, farmer: string) returns (r: Outcome)
      modifies this
      ensures r == OutcomeOf(H.ExecuteAddEntry(old(Snapshot()), querier, valid, sender, name, category,
                                               makerAddr, makerName, breeder, genetics, farmer))
      ensures Snapshot() == StoreAfter(old(Snapshot()), H.ExecuteAddEntry(old(Snapshot()), querier, valid, sender,
                                       name, category, makerAddr, makerName, breeder, genetics, farmer))
      ensures old(Valid()) ==> Valid()
    {
      var auth := H.CheckMembership(querier, config.adminsCw4Group, sender);
      if auth.Failure? {
        return auth;
      }
      var present := Contains(categories, category);
      if !present {
        return Failure(InvalidCategory);
      }
      var current := entryId;
      if current == U8_MAX {
        // current + 1 does not fit in a u8: the checked addition aborts
        return Failure(Overflow);
      }
      var id: U8 := current + 1;
      if !valid(makerAddr) {
        return Failure(InvalidAddress);
      }
      var entry := Entry(name, category, makerAddr, makerName, breeder, genetics, farmer);
      categoryEntries := categoryEntries[(category, id) := entry];
      entryId := id;
      if old(Valid()) {
        H.AddEntryPreservesInv(old(Snapshot()), querier, valid, sender, name, category,
                               makerAddr, makerName, breeder, genetics, farmer);
      }
      return Success;
    }

    method ExecuteVote(querier: H.Querier, sender: Addr, category: string, id: U8, votes: Votes)
      returns (r: Outcome)
      modifies this
      ensures r == OutcomeOf(H.ExecuteVote(old(Snapshot()), querier, sender, category, id, votes))
      ensures Snapshot() == StoreAfter(old(Snapshot()), H.ExecuteVote(old(Snapshot()), querier, sender, category, id, votes))
      ensures old(Valid()) ==> Valid()
    {
      var auth := H.CheckMembership(querier, config.makersCw4Group, sender);
      if auth.Failure? {
        return auth;
      }
      var present := Contains(categories, category);
      if !present {
        return Failure(InvalidCategory);
      }
      if (category, id) !in categoryEntries {
        return Failure(NotFound);
      }
      var entry := categoryEntries[(category, id)];
      if sender == entry.makerAddr {
        return Failure(InvalidMaker);
      }
      entryVotes := entryVotes[(id, sender) := votes];
      if old(Valid()) {
        H.VotePreservesInv(old(Snapshot()), querier, sender, category, id, votes);
      }
      return Success;
    }

    /** The execute entry point. */
    method Execute(querier: H.Querier, valid: H.AddrValidator, sender: Addr, msg: H.ExecuteMsg) returns (r: Outcome)
      modifies this
      ensures r == OutcomeOf(H.Execute(old(Snapshot()), querier, valid, sender, msg))
      ensures Snapshot() == StoreAfter(old(Snapshot()), H.Execute(old(Snapshot()), querier, valid, sender, msg))
      ensures old(Valid()) ==> Valid()
    {
      match msg
      case AddCategory(category) =>
        r := ExecuteAddCategory(querier, sender, category);
      case AddEntry(name, category, makerAddr, makerName, breeder, genetics, farmer) =>
        r := ExecuteAddEntry(querier, valid, sender, name, category, makerAddr, makerName, breeder, genetics, farmer);
      case Vote(category, id, votes) =>
        r := ExecuteVote(querier, sender, category, id, votes);
    }

    // -------------------------------------------------------------------
    // Queries: read the storage items, change nothing

    /** The whole category list, in insertion order, unpaginated. */
    method QueryCategories() returns (r: seq<string>)
      ensures r == categories
    {
      r := categories;
    }

    method QueryEntry(category: string, id: U8) returns (r: Result<Entry>)
      ensures r == Q.EntryQuery(Snapshot(), category, id)
    {
      if (category, id) in categoryEntries {
        r := Ok(categoryEntries[(category, id)]);
      } else {
        r := Err(NotFound);
      }
    }

    /** The category's ids in ascending order past start_after, then the entry
      stored under each. */
    method QueryEntries(category: string, startAfter: Option<U8>, limit: Option<U8>) returns (r: seq<Q.EntriesResponse>)
      ensures r == Q.EntriesQuery(Snapshot(), category, startAfter, limit)
    {
      var s := Snapshot();
      var ids := set key | key in s.categoryEntries.Keys && key.0 == category :: key.1;
      assert ids == Q.EntryIds(s, category);
      Q.IdLessIsStrictTotal();
      var page := Scan(ids, startAfter, Q.LimitOrDefault(limit), Q.IdLess);
      assert page == Q.EntryIdPage(s, category, startAfter, Q.LimitOrDefault(limit));
      r := seq(|page|, i requires 0 <= i < |page| => Q.EntriesResponse(page[i], s.categoryEntries[(category, page[i])]));
    }

    method QueryVotes(valid: H.AddrValidator, id: U8, makerAddr: string) returns (r: Result<Votes>)
      ensures r == Q.VotesQuery(Snapshot(), valid, id, makerAddr)
    {
      if !valid(makerAddr) {
        return Err(InvalidAddress);
      }
      if (id, makerAddr) in entryVotes {
        r := Ok(entryVotes[(id, makerAddr)]);
      } else {
        r := Err(NotFound);
      }
    }

    /** The entry's judges in ascending address order past start_after; then
      each ballot is added into a running Uint128 sum per field, and any
      addition past Uint128 aborts. */
    method QueryTallyVotes(valid: H.AddrValidator, id: U8, startAfter: Option<string>, limit: Option<U8>)
      returns (r: Result<Q.TallyVotesResponse>)
      ensures r == Q.TallyVotesQuery(Snapshot(), valid, id, startAfter, limit)
    {
      if startAfter.Some? && !valid(startAfter.value) {
        return Err(InvalidAddress);
      }
      var s := Snapshot();
      var judges := set key | key in s.entryVotes.Keys && key.0 == id :: key.1;
      assert judges == Q.Judges(s, id);
      AddrOrder.LessIsStrictTotal();
      var page := Scan(judges, startAfter, Q.LimitOrDefault(limit), AddrOrder.Less);
      assert page == Q.JudgePage(s, id, startAfter, Q.LimitOrDefault(limit));
      var bs := seq(|page|, i requires 0 <= i < |page| => s.entryVotes[(id, page[i])]);
      r := TallyPage(id, page, bs);
    }
  }
}
