# Judged-competition voting contract, modelled in Dafny

This project models the CosmWasm voting contract of a judged competition.
Organizers, who are the members of an admin cw4 group, open categories and
register entries. Each entry gets the next id of one global `u8` counter.
Judges, who are the members of a makers cw4 group, give each entry a ballot
of four `Uint128` scores (look, smell, taste, post-melt). A judge may not vote
on an entry they made. Queries read the category list, one entry, a page of a
category's entries, one ballot, and a page of an entry's ballots with a
field-wise tally.

The model has two layers, plus concrete scenarios:

- `Handlers` and `Queries` state what each handler and query does, as
  functions from the stored state (`State.Store`) to a new store, a response
  or an error.
  - `Handlers.Inv` is the invariant of every reachable store: unique
    categories, entry ids dense in 1..counter and unique across categories,
    and every ballot for an existing entry that its judge did not make.
  - Instantiate establishes `Inv` and every execute message preserves it.
- `Contract.VotingContract` is the contract as a class. Its fields are the
  storage items `CONFIG`, `CATEGORIES`, `ENTRY_ID`, `CATEGORY_ENTRIES` and
  `ENTRY_VOTES`.
  - Its execute methods update the fields in place. A failed call leaves
    every field as it was.
  - Its query methods scan the key sets with loops and compute the tally with
    checked additions. Each method is proved equal to the function that
    specifies it.
- `Range` models the storage range scan:
  `prefix(p).range(exclusive start, ascending).take(limit)`.
  - `Range.Page` computes the scan as a function, over any strict total order
    on keys.
  - `Range.IsPage` describes a page declaratively: at most `limit` keys, all
    present and past the start, strictly ascending, and none skipped.
  - The two are proved equivalent. `Range.Scan` is the loop that computes a
    page.
- `AddrOrder.Less` is the lexicographic order on address strings, and is
  proved to be a strict total order.
- `Scenarios` replays the calls of the repository's entries and tally tests from
  instantiate onward. It proves the calls build the expected stores, and that
  the queries then return exactly the values those tests expect.

Two host capabilities are parameters of the model:

- The cw4 `Member` query is a function `(group, address) -> MemberAnswer`.
  The answer is a weight (present or absent) or a failed query.
- `addr_validate` is a predicate on strings. A valid address is used
  unchanged.

The tally scans judges in ascending address order (src/contract.rs:288).
The tests expect "fifth_maker" first and "third_maker" last
(src/tests.rs:792-815).

## Model

| member | source | states |
|---|---|---|
| Handlers.CheckMembership | src/contract.rs:168-202 | a recorded weight of any value, 0 included, authorizes; no weight is `Unauthorized`; a failed query is an error; each outcome holds exactly in its case |
| Handlers.Instantiate | src/contract.rs:25-47 | succeeds iff both group addresses are valid, otherwise `InvalidAddress`; the new store holds the two groups, no categories, counter 0, no entries and no ballots |
| Handlers.ExecuteAddCategory | src/contract.rs:77-97 | the membership error comes first; `InvalidCategory` iff the sender is authorized and the name is already listed; otherwise the name is appended at the end and nothing else changes |
| Handlers.ExecuteAddEntry | src/contract.rs:99-137 | errors in the order membership, unlisted category, counter at 255 (`Overflow`), invalid maker address; success iff none applies; the entry is stored under (category, counter + 1), the counter becomes counter + 1, config, categories and ballots are unchanged |
| Handlers.ExecuteVote | src/contract.rs:139-166 | errors in the order membership of the makers group, unlisted category, no entry under (category, id) (`NotFound`), sender is the entry's maker (`InvalidMaker`); success iff none applies; the ballot is written under (entry id, sender) and nothing else changes |
| Handlers.Execute | src/contract.rs:49-75 | dispatch to the three handlers; no execute message changes the config |
| Handlers.InstantiateEstablishesInv | src/contract.rs:33-44 | the store right after instantiate satisfies the invariant |
| Handlers.AddCategoryPreservesInv | src/contract.rs:86-94 | appending a new category keeps the invariant, so categories stay unique |
| Handlers.AddEntryPreservesInv | src/contract.rs:114-134 | storing an entry under the next id keeps entries under their own listed category, ids dense in 1..counter, ids unique across categories and ballots valid |
| Handlers.VotePreservesInv | src/contract.rs:150-163 | an accepted ballot is for an existing entry whose maker is not the judge, so the invariant is kept |
| Handlers.ExecutePreservesInv | src/contract.rs:56-74 | every execute message keeps the invariant |
| Handlers.AddEntryUsesFreshId | src/contract.rs:119-134 | in a store with the invariant, the new id is above every stored id and no category already uses it, so ids are never reused |
| Handlers.ExecuteKeepsRecords | src/contract.rs:133-163 | no execute message rewrites or removes a stored entry; only a vote changes a ballot, and only the one under (entry id, sender) |
| Handlers.VoteAgainReplaces | src/contract.rs:163 | a second ballot from the same judge on the same entry replaces the first: the store is the original with only the second ballot written, and the number of ballots does not grow |
| Queries.EntryQuery | src/contract.rs:233-236 | the entry stored under (category, id) iff that key is present, otherwise `NotFound` |
| Queries.EntryIdPage | src/contract.rs:244-250 | the ids the entries scan visits form a page (in the sense of `Range.IsPage`) of the category's ids past `start_after`, and each is stored under the category |
| Queries.EntryResponses | src/contract.rs:251-258 | the per-item map of the entries query: turns the visited ids into responses; what the query returns as a whole is stated by `Queries.EntriesQuerySpec` |
| Queries.EntriesQuerySpec | src/contract.rs:238-261 | the returned ids are at most `limit` (30 by default) of the category's ids past `start_after`, strictly ascending, with none skipped; each item carries the stored entry |
| Queries.VotesQuery | src/contract.rs:263-267 | an invalid address is `InvalidAddress`; otherwise the stored ballot iff one exists, else `NotFound` |
| Queries.TotalPrefix | src/contract.rs:292-295 | a running field total never decreases as ballots are added |
| Queries.TotalAppend | src/contract.rs:292-295 | adding a ballot adds its score to the running total of each field |
| Queries.BallotsOf | src/contract.rs:290-291 | the per-item load of the tally query: fetches the stored ballot of each visited judge; what the query returns as a whole is stated by `Queries.TallyVotesQuerySpec` |
| Queries.JudgePage | src/contract.rs:286-289 | the judges the tally scan visits form a page of the entry's judges past `start_after`, ascending by address, and each has a stored ballot |
| Queries.TallyAppend | src/contract.rs:296-303 | a fitting ballot added to a fitting page adds exactly one record, with the judge, the ballot and its sum |
| Queries.TallyStep | src/contract.rs:290-301 | the page through ballot k fits in `Uint128` iff the four running totals plus ballot k, and ballot k's own sum, all stay below 2^128; a prefix that does not fit makes the whole page fail; a fitting step adds one record |
| Queries.TallyShape | src/contract.rs:296-305 | the records of a tally list the page's judges and ballots in order, each with its ballot sum, and the response sum is the field-wise total of the page |
| Queries.TallyVotesQuerySpec | src/contract.rs:269-308 | a successful tally lists a page of the entry's judges past `start_after` (ascending, at most `limit`, none skipped); each record has the entry id, the stored ballot and the ballot's four-field sum; the response sum is the field-wise total of exactly the returned records, not of every ballot of the entry |
| Queries.TallyVotesQueryFails | src/contract.rs:276-300 | an invalid `start_after` is `InvalidAddress`; otherwise the query fails with `Overflow` iff some sum over the page leaves `Uint128` |
| Queries.IdLessIsStrictTotal | src/state.rs:36 | `u8` entry ids are keys in a strict total order |
| Range.First | src/contract.rs:245-249 | the first key past the exclusive start: none iff no key lies past it, otherwise the least key past it |
| Range.PageIsPage | src/contract.rs:247-250 | the scan's page is at most `limit` keys, all present and past the start, strictly ascending, and a key past the start that is left out comes after a full page |
| Range.PageUnique | src/contract.rs:247-250 | any sequence with those four properties is the scan's page, so `IsPage` pins the page down (the converse of `PageIsPage`) |
| Range.ConsIsPage | src/contract.rs:247-250 | the first key past the start followed by a page past that key is a page |
| Range.PageHead | src/contract.rs:247-250 | a non-empty page starts with the first key past the start |
| Range.PageTail | src/contract.rs:247-250 | what follows the head of a page is a page past the head, one shorter |
| Range.FindFirst | src/contract.rs:249 | one pass over the key set finds the first key past the start |
| Range.Scan | src/contract.rs:247-250 | the loop that takes the first key past the last one returned, until `limit` keys are returned or none is left, returns exactly the scan's page |
| AddrOrder.LessIrreflexive | src/contract.rs:288 | no address sorts before itself |
| AddrOrder.LessTransitive | src/contract.rs:288 | address order is transitive |
| AddrOrder.LessTotal | src/contract.rs:288 | of two different addresses, one sorts before the other |
| AddrOrder.LessIsStrictTotal | src/contract.rs:288 | addresses are keys in a strict total order |
| Contract.Contains | src/contract.rs:89 | the linear scan finds the name iff it is in the list |
| Contract.Instantiate | src/contract.rs:25-47 | an invalid group address is `InvalidAddress`; otherwise a fresh contract whose fields are the instantiate store and satisfy the invariant |
| Contract.TallyPage | src/contract.rs:279-305 | the loop with checked `Uint128` additions returns the tally of the page when every sum fits, and `Overflow` otherwise |
| Contract.VotingContract.constructor | src/contract.rs:36-44 | a contract with the given config, no categories, counter 0, no entries and no ballots; it satisfies the invariant |
| Contract.VotingContract.ExecuteAddCategory | src/contract.rs:77-97 | the outcome and the new fields are those of `Handlers.ExecuteAddCategory`; on an error no field changes; the invariant is kept |
| Contract.VotingContract.ExecuteAddEntry | src/contract.rs:99-137 | the outcome and the new fields are those of `Handlers.ExecuteAddEntry`; on an error no field changes; the invariant is kept |
| Contract.VotingContract.ExecuteVote | src/contract.rs:139-166 | the outcome and the new fields are those of `Handlers.ExecuteVote`; on an error no field changes; the invariant is kept |
| Contract.VotingContract.Execute | src/contract.rs:49-75 | the outcome and the new fields are those of `Handlers.Execute`; on an error no field changes; the invariant is kept |
| Contract.VotingContract.QueryCategories | src/contract.rs:228-231 | the whole category list, in insertion order, unpaginated |
| Contract.VotingContract.QueryEntry | src/contract.rs:233-236 | the result of `Queries.EntryQuery` on the current fields |
| Contract.VotingContract.QueryEntries | src/contract.rs:238-261 | the scan over the category's ids returns `Queries.EntriesQuery`, whose meaning `Queries.EntriesQuerySpec` states |
| Contract.VotingContract.QueryVotes | src/contract.rs:263-267 | the result of `Queries.VotesQuery` on the current fields |
| Contract.VotingContract.QueryTallyVotes | src/contract.rs:269-308 | the scan over the entry's judges and the checked sums return `Queries.TallyVotesQuery`, whose meaning `Queries.TallyVotesQuerySpec` and `Queries.TallyVotesQueryFails` state |
| Scenarios.VotedStoreReached | src/tests.rs:709-778 | instantiate with two valid groups, then the test's calls (the admin adds "category_1" and the first maker's entry; the four other makers each vote on entry 1), all succeed and leave exactly the store the tally scenarios start from |
| Scenarios.EntriesStoreReached | src/tests.rs:578-617 | instantiate with two valid groups, then the test's calls (the admin adds "category_1" and the entries of the first, second and third maker), all succeed and leave exactly the store the entries scenario starts from |
| Scenarios.MakerOrder | src/tests.rs:792-815 | "fifth_maker" < "fourth_maker" < "juno..secondmaker" < "third_maker" |
| Scenarios.PageOfAllFour | src/tests.rs:780-791 | with four judges in order and room for all of them, the page from the start is all four, in order |
| Scenarios.PageOfTwoPast | src/tests.rs:801-815 | with four judges a < b < c < d, the page of two past b is [c, d] |
| Scenarios.TallyOfAllFour | src/tests.rs:780-799 | four ballots from ordered judges: the default tally is the tally of all four, in address order |
| Scenarios.TallyOfTwoPast | src/tests.rs:801-820 | four ballots from ordered judges a < b < c < d: the tally of two past b is the tally of c's and d's ballots |
| Scenarios.TallyFirstPage | src/tests.rs:780-799 | the test's unpaginated tally: four records, the fifth maker's first with sum 2353 and the fourth maker's next with sum 1550, aggregate (2778, 1636, 2735, 1208) |
| Scenarios.TallySecondPage | src/tests.rs:801-820 | the test's tally past "fourth_maker" with limit 2: the second maker (sum 2845), then the third maker (sum 1609), aggregate (1225, 1079, 1720, 430) over those two only |
| Scenarios.EntriesOfCategory | src/tests.rs:619-692 | the test's entries of "category_1": three from the start with the second maker's entry in the middle, only the third maker's past id 2, and only the second maker's with limit 1 past id 1 |

## Left out

- Contract version bookkeeping is not modelled: `set_contract_version`/cw2 (src/contract.rs:20-22, 31). It has no effect on the contract's behaviour.
- The `Response` attributes, `to_binary` serialization and the `entry_point` wiring of `query` (src/contract.rs:46, 204-226) are not modelled. Each query is modelled on its own.
- The cw4 `Member` cross-contract query is an abstract parameter. It is a call into another contract. Its failure is modelled as the error `QuerierFailure`.
- `addr_validate` and `maybe_addr` are an abstract predicate on strings. Their format rules belong to the host.
- The `item.unwrap()` panics inside the range iterators (src/contract.rs:252, 291) are not modelled. They fire only when storage does not decode.
- Storage access is modelled as always succeeding. That covers the `CONFIG` and `CATEGORIES` loads (src/contract.rs:86, 114, 150, 169, 187, 229) and the `ENTRY_ID` load (src/contract.rs:119). Instantiate saves all three, so these loads cannot miss after it. It also covers every `save(...)?` (src/contract.rs:40-44, 94, 133-134, 163), whose only failures are serialization or host storage errors.
- The message and response types of src/msg.rs are mirrored as datatypes (`InstantiateMsg`, `ExecuteMsg`, `EntriesResponse`, `VotesResponse`, `TallyVotesResponse`). Their JSON schema annotations are not modelled.
  - The schema annotation at src/msg.rs:48 claims the tally query returns `Vec<TallyVotesResponse>`. The handler returns a single `TallyVotesResponse` (src/contract.rs:274, 305), and the model follows the handler.
- Handlers.ExecuteAddEntry: the `u8` increment at src/contract.rs:119 is modelled as an abort (`Overflow`) when the counter is 255. This assumes the release build keeps overflow checks on, as CosmWasm contracts conventionally do. Cargo.toml is not part of this model. Without the checks, the counter would wrap to 0.
- Every `Uint128` addition in the tally (src/contract.rs:292-300) is modelled as `Overflow` when it passes 2^128, because `Uint128` addition panics on overflow. The model does not say which of the additions panicked, only that the query aborts.
- Gas, storage-key encoding and the bank module of the test harness are not modelled.
