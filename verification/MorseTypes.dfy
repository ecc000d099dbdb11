/** The Morse entities that the migration fixtures are made of. */
module MorseTypes {
  import opened MachineInts
  import opened Wrappers

  // Keys and addresses are kept as what they are derived from: derivation from the seed
  // is injective, and the addresses that were meant to be invalid are marked by how they were
  // changed.
  datatype Key = Key(seed: Uint64)

  datatype Address = Derived(key: Key) | TooShort(key: Key) | TooLong(key: Key) | NonHex(key: Key)

  // Unnamed is the empty type name.
  datatype AccountType = ExternallyOwned | Module(name: string) | Unnamed

  // An exported account; its JSON is taken for its contents.
  datatype AuthAccount = AuthAccount(accountType: AccountType, address: Address, coins: seq<int>)

  // An exported application or validator.
  datatype StakedActor = StakedActor(address: Address, stakedTokens: string)

  // One coin as a coin set: a zero coin is dropped.  (A negative one panics.)
  function NewCoins(amount: int): (coins: seq<int>)
    ensures |coins| <= 1 && (coins == [] <==> amount == 0)
  {
    if amount == 0 then [] else [amount]
  }

  // What a claimable account says.
  datatype Claim = Claim(
    src: Address,
    output: Option<Address>,
    unstaked: int,
    applicationStake: int,
    supplierStake: int,
    unstakingTime: int)

  // A claimable account: one object, shared by the account state and the fixtures.
  class ClaimableAccount {
    var src: Address
    var output: Option<Address>
    var unstaked: int
    var applicationStake: int
    var supplierStake: int
    var unstakingTime: int

    constructor (src: Address, unstaked: int, applicationStake: int, supplierStake: int)
      ensures Value() == Claim(src, None, unstaked, applicationStake, supplierStake, 0)
    {
      this.src, this.output, this.unstakingTime := src, None, 0;
      this.unstaked, this.applicationStake, this.supplierStake := unstaked, applicationStake, supplierStake;
    }

    function Value(): Claim
      reads this
    {
      Claim(src, output, unstaked, applicationStake, supplierStake, unstakingTime)
    }
  }

  function Sum(xs: seq<int>): int {
    if |xs| == 0 then 0 else Sum(xs[..|xs| - 1]) + xs[|xs| - 1]
  }

  lemma SumOfCoins(amount: int)
    ensures Sum(NewCoins(amount)) == amount
  {
    if amount != 0 {
      assert [amount][..0] == [];
    }
  }

  function Coins(accounts: seq<AuthAccount>): int {
    if |accounts| == 0 then 0
    else Coins(accounts[..|accounts| - 1]) + Sum(accounts[|accounts| - 1].coins)
  }
}
