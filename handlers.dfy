/** What instantiate and the three execute handlers do to the stored state,
    as functions from the state before the call to the state after it or to
    the error that aborted the call. */
module Handlers {
  import opened Results
  import opened State

  /** A cw4 group's answer to a Member query: the weight it records for the
      address, if any, or the failure of the cross-contract query itself. */
  datatype MemberAnswer = Answered(weight: Option<nat>) | QueryFailed

  /** The cross-contract Member query, as a function of the group contract's
      address and the address asked about (the query asks at the current height). */
  type Querier = (Addr, Addr) -> MemberAnswer

  /** The host's address validation: true when the string is a well-formed
      address, which is then used unchanged. */
  type AddrValidator = string -> bool

  datatype InstantiateMsg = InstantiateMsg(adminsCw4Group: string, makersCw4Group: string)

  datatype ExecuteMsg =
    | AddCategory(category: string)
    | AddEntry(name: string, category: string, makerAddr: string, makerName: string,
               breeder: string, genetics: string, farmer: string)
    | Vote(category: string, entryId: U8, votes: Votes)

  /** Authorization by a cw4 group: any recorded weight, zero included,
      authorizes; no weight is Unauthorized; a failed query aborts the call. */
  function CheckMembership(querier: Querier, group: Addr, sender: Addr): (r: Outcome)
    ensures r == Success <==> querier(group, sender).Answered? && querier(group, sender).weight.Some?
    ensures r == Failure(Unauthorized) <==> querier(group, sender) == Answered(None)
    ensures r == Failure(QuerierFailure) <==> querier(group, sender) == QueryFailed
  {
    match querier(group, sender)
    case QueryFailed => Failure(QuerierFailure)
    case Answered(weight) => if weight.None? then Failure(Unauthorized) else Success
  }

  /** The store right after instantiate, or the address error that aborts it. */
  function Instantiate(valid: AddrValidator, msg: InstantiateMsg): (r: Result<Store>)
    ensures r.Ok? <==> valid(msg.adminsCw4Group) && valid(msg.makersCw4Group)
    ensures r.Err? ==> r.error == InvalidAddress
    ensures r.Ok? ==> r.value.config == Config(msg.adminsCw4Group, msg.makersCw4Group)
    ensures r.Ok? ==> r.value.categories == [] && r.value.entryId == 0
    ensures r.Ok? ==> r.value.categoryEntries == map[] && r.value.entryVotes == map[]
  {
    if !valid(msg.adminsCw4Group) || !valid(msg.makersCw4Group) then Err(InvalidAddress)
    else Ok(Store(Config(msg.adminsCw4Group, msg.makersCw4Group), [], 0, map[], map[]))
  }

  /** AddCategory: organizers only; a name already listed is refused;
      otherwise the name goes at the end of the list and nothing else changes. */
  function ExecuteAddCategory(s: Store, querier: Querier, sender: Addr, category: string): (r: Result<Store>)
    ensures CheckMembership(querier, s.config.adminsCw4Group, sender).Failure? ==>
      r == Err(CheckMembership(querier, s.config.adminsCw4Group, sender).error)
    ensures r == Err(InvalidCategory) <==>
      CheckMembership(querier, s.config.adminsCw4Group, sender) == Success && category in s.categories
    ensures r.Ok? <==>
      CheckMembership(querier, s.config.adminsCw4Group, sender) == Success && category !in s.categories
    ensures r.Ok? ==> r.value.categories == s.categories + [category]
    ensures r.Ok? ==> r.value == s.(categories := r.value.categories)
  {
    var auth := CheckMembership(querier, s.config.adminsCw4Group, sender);
    if auth.Failure? then Err(auth.error)
    else if category in s.categories then Err(InvalidCategory)
    else Ok(s.(categories := s.categories + [category]))
  }

  /** AddEntry: organizers only, into a listed category; the entry gets the
      next id of the one global u8 counter (an id past 255 aborts the call)
      and is stored under (category, id); the counter becomes that id.
      The maker's address is validated after the id is computed. */
  function ExecuteAddEntry(s: Store, querier: Querier, valid: AddrValidator, sender: Addr,
                           name: string, category: string, makerAddr: string, makerName: string,
                           breeder: string, genetics: string, farmer: string): (r: Result<Store>)
    ensures CheckMembership(querier, s.config.adminsCw4Group, sender).Failure? ==>
      r == Err(CheckMembership(querier, s.config.adminsCw4Group, sender).error)
    ensures CheckMembership(querier, s.config.adminsCw4Group, sender) == Success ==>
      (category !in s.categories ==> r == Err(InvalidCategory)) &&
      (category in s.categories && s.entryId == U8_MAX ==> r == Err(Overflow)) &&
      (category in s.categories && s.entryId < U8_MAX && !valid(makerAddr) ==> r == Err(InvalidAddress))
    ensures r.Ok? <==>
      CheckMembership(querier, s.config.adminsCw4Group, sender) == Success &&
      category in s.categories && s.entryId < U8_MAX && valid(makerAddr)
    ensures r.Ok? ==> r.value.entryId == s.entryId + 1
    ensures r.Ok? ==>
      r.value.categoryEntries == s.categoryEntries[(category, s.entryId + 1) :=
        Entry(name, category, makerAddr, makerName, breeder, genetics, farmer)]
    ensures r.Ok? ==>
      r.value.config == s.config && r.value.categories == s.categories && r.value.entryVotes == s.entryVotes
  {
    var auth := CheckMembership(querier, s.config.adminsCw4Group, sender);
    if auth.Failure? then Err(auth.error)
    else if category !in s.categories then Err(InvalidCategory)
    else if s.entryId == U8_MAX then Err(Overflow)
    else
      var id := s.entryId + 1;
      if !valid(makerAddr) then Err(InvalidAddress)
      else
        var entry := Entry(name, category, makerAddr, makerName, breeder, genetics, farmer);
        Ok(s.(categoryEntries := s.categoryEntries[(category, id) := entry], entryId := id))
  }

  /** An entry is stored under (category, entry id) and the address made it. */
  predicate IsMakerOf(s: Store, category: string, entryId: U8, addr: Addr) {
    (category, entryId) in s.categoryEntries && s.categoryEntries[(category, entryId)].makerAddr == addr
  }

  /** Vote: judges only, checked in this order: listed category, existing
      entry under (category, entry id), sender is not the entry's maker; then
      the ballot is stored under (entry id, sender), replacing any earlier one. */
  function ExecuteVote(s: Store, querier: Querier, sender: Addr, category: string,
                       entryId: U8, votes: Votes): (r: Result<Store>)
    ensures CheckMembership(querier, s.config.makersCw4Group, sender).Failure? ==>
      r == Err(CheckMembership(querier, s.config.makersCw4Group, sender).error)
    ensures CheckMembership(querier, s.config.makersCw4Group, sender) == Success ==>
      (category !in s.categories ==> r == Err(InvalidCategory)) &&
      (category in s.categories && (category, entryId) !in s.categoryEntries ==> r == Err(NotFound)) &&
      (category in s.categories && IsMakerOf(s, category, entryId, sender) ==> r == Err(InvalidMaker))
    ensures r.Ok? <==>
      CheckMembership(querier, s.config.makersCw4Group, sender) == Success &&
      category in s.categories && (category, entryId) in s.categoryEntries &&
      s.categoryEntries[(category, entryId)].makerAddr != sender
    ensures r.Ok? ==> r.value.entryVotes == s.entryVotes[(entryId, sender) := votes]
    ensures r.Ok? ==> r.value == s.(entryVotes := r.value.entryVotes)
  {
    var auth := CheckMembership(querier, s.config.makersCw4Group, sender);
    if auth.Failure? then Err(auth.error)
    else if category !in s.categories then Err(InvalidCategory)
    else if (category, entryId) !in s.categoryEntries then Err(NotFound)
    else if sender == s.categoryEntries[(category, entryId)].makerAddr then Err(InvalidMaker)
    else Ok(s.(entryVotes := s.entryVotes[(entryId, sender) := votes]))
  }

  /** The execute entry point: dispatch on the message. */
  function Execute(s: Store, querier: Querier, valid: AddrValidator, sender: Addr, msg: ExecuteMsg): (r: Result<Store>)
    ensures r.Ok? ==> r.value.config == s.config
  {
    match msg
    case AddCategory(category) => ExecuteAddCategory(s, querier, sender, category)
    case AddEntry(name, category, makerAddr, makerName, breeder, genetics, farmer) =>
      ExecuteAddEntry(s, querier, valid, sender, name, category, makerAddr, makerName, breeder, genetics, farmer)
    case Vote(category, entryId, votes) => ExecuteVote(s, querier, sender, category, entryId, votes)
  }

  // ---------------------------------------------------------------------
  // The invariant every reachable store satisfies

  ghost predicate CategoriesUnique(categories: seq<string>) {
    forall i, j :: 0 <= i < j < |categories| ==> categories[i] != categories[j]
  }

  /** Some category holds an entry with this id. */
  ghost predicate IdUsed(s: Store, id: U8) {
    exists c :: (c, id) in s.categoryEntries
  }

  /** The ballot under this key is for an existing entry the judge did not make. */
  ghost predicate BallotAllowed(s: Store, key: VoteKey) {
    exists c :: (c, key.0) in s.categoryEntries && s.categoryEntries[(c, key.0)].makerAddr != key.1
  }

  /** Categories are unique; every entry sits under its own, listed category
      with an id in 1..counter; no id is used twice, in any two categories;
      every id up to the counter is used (ids are dense); every ballot is for
      an existing entry whose maker is not the judge. */
  ghost predicate Inv(s: Store) {
    && CategoriesUnique(s.categories)
    && (forall key :: key in s.categoryEntries ==>
          && key.0 in s.categories
          && s.categoryEntries[key].category == key.0
          && 1 <= key.1 <= s.entryId)
    && (forall k1, k2 :: k1 in s.categoryEntries && k2 in s.categoryEntries && k1.1 == k2.1 ==> k1 == k2)
    && (forall id: U8 :: 1 <= id <= s.entryId ==> IdUsed(s, id))
    && (forall key :: key in s.entryVotes ==> BallotAllowed(s, key))
  }

  lemma InstantiateEstablishesInv(valid: AddrValidator, msg: InstantiateMsg)
    requires Instantiate(valid, msg).Ok?
    ensures Inv(Instantiate(valid, msg).value)
  {
  }

  lemma AddCategoryPreservesInv(s: Store, querier: Querier, sender: Addr, category: string)
    requires Inv(s) && ExecuteAddCategory(s, querier, sender, category).Ok?
    ensures Inv(ExecuteAddCategory(s, querier, sender, category).value)
  {
    var t := ExecuteAddCategory(s, querier, sender, category).value;
    forall id: U8 | 1 <= id <= t.entryId
      ensures IdUsed(t, id)
    {
      assert IdUsed(s, id);
    }
    forall key | key in t.entryVotes
      ensures BallotAllowed(t, key)
    {
      assert BallotAllowed(s, key);
    }
  }

  lemma AddEntryPreservesInv(s: Store, querier: Querier, valid: AddrValidator, sender: Addr,
                             name: string, category: string, makerAddr: string, makerName: string,
                             breeder: string, genetics: string, farmer: string)
    requires Inv(s)
    requires ExecuteAddEntry(s, querier, valid, sender, name, category, makerAddr, makerName, breeder, genetics, farmer).Ok?
    ensures Inv(ExecuteAddEntry(s, querier, valid, sender, name, category, makerAddr, makerName, breeder, genetics, farmer).value)
  {
    var t := ExecuteAddEntry(s, querier, valid, sender, name, category, makerAddr, makerName, breeder, genetics, farmer).value;
    var newKey := (category, t.entryId);
    assert newKey !in s.categoryEntries;
    forall id: U8 | 1 <= id <= t.entryId
      ensures IdUsed(t, id)
    {
      if id < t.entryId {
        assert IdUsed(s, id);
        var c :| (c, id) in s.categoryEntries;
        assert (c, id) in t.categoryEntries;
      } else {
        assert newKey in t.categoryEntries;
      }
    }
    forall key | key in t.entryVotes
      ensures BallotAllowed(t, key)
    {
      assert BallotAllowed(s, key);
      var c :| (c, key.0) in s.categoryEntries && s.categoryEntries[(c, key.0)].makerAddr != key.1;
      assert (c, key.0) != newKey;
      assert (c, key.0) in t.categoryEntries && t.categoryEntries[(c, key.0)] == s.categoryEntries[(c, key.0)];
    }
  }

  lemma VotePreservesInv(s: Store, querier: Querier, sender: Addr, category: string, entryId: U8, votes: Votes)
    requires Inv(s) && ExecuteVote(s, querier, sender, category, entryId, votes).Ok?
    ensures Inv(ExecuteVote(s, querier, sender, category, entryId, votes).value)
  {
    var t := ExecuteVote(s, querier, sender, category, entryId, votes).value;
    forall id: U8 | 1 <= id <= t.entryId
      ensures IdUsed(t, id)
    {
      assert IdUsed(s, id);
    }
    forall key | key in t.entryVotes
      ensures BallotAllowed(t, key)
    {
      if key == (entryId, sender) {
        assert (category, entryId) in t.categoryEntries;
      } else {
        assert BallotAllowed(s, key);
      }
    }
  }

  /** Every execute message keeps the invariant. */
  lemma ExecutePreservesInv(s: Store, querier: Querier, valid: AddrValidator, sender: Addr, msg: ExecuteMsg)
    requires Inv(s) && Execute(s, querier, valid, sender, msg).Ok?
    ensures Inv(Execute(s, querier, valid, sender, msg).value)
  {
    match msg
    case AddCategory(category) => AddCategoryPreservesInv(s, querier, sender, category);
    case AddEntry(name, category, makerAddr, makerName, breeder, genetics, farmer) =>
      AddEntryPreservesInv(s, querier, valid, sender, name, category, makerAddr, makerName, breeder, genetics, farmer);
    case Vote(category, entryId, votes) => VotePreservesInv(s, querier, sender, category, entryId, votes);
  }

  /** A new entry never lands on a used key, and its id is above every id
      already stored: ids are never reused. */
  lemma AddEntryUsesFreshId(s: Store, querier: Querier, valid: AddrValidator, sender: Addr,
                            name: string, category: string, makerAddr: string, makerName: string,
                            breeder: string, genetics: string, farmer: string)
    requires Inv(s)
    requires ExecuteAddEntry(s, querier, valid, sender, name, category, makerAddr, makerName, breeder, genetics, farmer).Ok?
    ensures forall key :: key in s.categoryEntries ==> key.1 < s.entryId + 1
    ensures !IdUsed(s, s.entryId + 1)
  {
  }

  /** No handler rewrites or removes a stored entry, and only Vote touches a
      ballot: it writes the one key (entry id, sender). */
  lemma ExecuteKeepsRecords(s: Store, querier: Querier, valid: AddrValidator, sender: Addr, msg: ExecuteMsg)
    requires Inv(s) && Execute(s, querier, valid, sender, msg).Ok?
    ensures forall key :: key in s.categoryEntries ==>
      key in Execute(s, querier, valid, sender, msg).value.categoryEntries &&
      Execute(s, querier, valid, sender, msg).value.categoryEntries[key] == s.categoryEntries[key]
    ensures forall key :: key in s.entryVotes && !(msg.Vote? && key == (msg.entryId, sender)) ==>
      key in Execute(s, querier, valid, sender, msg).value.entryVotes &&
      Execute(s, querier, valid, sender, msg).value.entryVotes[key] == s.entryVotes[key]
  {
    if msg.AddEntry? {
      AddEntryUsesFreshId(s, querier, valid, sender, msg.name, msg.category, msg.makerAddr,
                          msg.makerName, msg.breeder, msg.genetics, msg.farmer);
    }
  }

  /** Voting again on the same entry replaces the judge's ballot: the second
      ballot is the one stored, and the number of ballots does not grow. */
  lemma VoteAgainReplaces(s: Store, querier: Querier, sender: Addr, category: string,
                          entryId: U8, first: Votes, second: Votes)
    requires ExecuteVote(s, querier, sender, category, entryId, first).Ok?
    ensures ExecuteVote(ExecuteVote(s, querier, sender, category, entryId, first).value,
                        querier, sender, category, entryId, second)
            == Ok(s.(entryVotes := s.entryVotes[(entryId, sender) := second]))
    ensures |s.(entryVotes := s.entryVotes[(entryId, sender) := second]).entryVotes|
            == |ExecuteVote(s, querier, sender, category, entryId, first).value.entryVotes|
  {
    var t := ExecuteVote(s, querier, sender, category, entryId, first).value;
    assert t.entryVotes[(entryId, sender) := second] == s.entryVotes[(entryId, sender) := second];
  }
}
