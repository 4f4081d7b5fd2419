/** The contract's records and storage layout. */
module State {

  /** Exclusive upper bound of a Uint128. */
  const U128_LIMIT: int := 0x1_0000_0000_0000_0000_0000_0000_0000_0000

  /** Largest value of a u8. */
  const U8_MAX: int := 255

  type U8 = x: int | 0 <= x <= U8_MAX
  type Uint128 = x: int | 0 <= x < U128_LIMIT

  /** A validated address; validation keeps the string as given. */
  type Addr = string

  /** The two cw4 groups consulted for authorization. */
  datatype Config = Config(adminsCw4Group: Addr, makersCw4Group: Addr)

  /** One judge's ballot: four scores. */
  datatype Votes = Votes(look: Uint128, smell: Uint128, taste: Uint128, postMelt: Uint128)

  datatype Entry = Entry(
    name: string,
    category: string,
    makerAddr: Addr,
    makerName: string,
    breeder: string,
    genetics: string,
    farmer: string)

  /** CATEGORY_ENTRIES is keyed by (category name, entry id). */
  type EntryKey = (string, U8)

  /** ENTRY_VOTES is keyed by (entry id, judge address). */
  type VoteKey = (U8, Addr)

  /** Everything the contract keeps in storage, as one value: the CONFIG,
      ENTRY_ID and CATEGORIES items and the CATEGORY_ENTRIES and ENTRY_VOTES maps. */
  datatype Store = Store(
    config: Config,
    categories: seq<string>,
    entryId: U8,
    categoryEntries: map<EntryKey, Entry>,
    entryVotes: map<VoteKey, Votes>)
}
