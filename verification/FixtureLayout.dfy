/**
 * What the fixture builder is to build: the order of the slots that a configuration asks
 * for, and what each slot contributes to the export, the claimable accounts and the
 * groups.  The conservation, coverage and adjacency laws are about these.
 */
module FixtureLayout {
  import opened MachineInts
  import opened Wrappers
  import opened MorseTypes
  import Decimal

  datatype UnstakedType = EOA | InvalidTooShort | InvalidTooLong | NonHexAddress | ModuleAccount | NonCustodialOwner

  datatype StakedType = Standard | Orphaned | Unbonding | Unbonded | NonCustodial

  datatype Kind = Account(unstaked: UnstakedType) | Application(app: StakedType) | Validator(val: StakedType)

  // A slot of the account table: what is in it, and its number within its kind.
  datatype Slot = Slot(kind: Kind, actorIndex: nat)

  datatype Balances = Balances(staked: int, unstaked: int)

  // How many of each kind, and the functions that set balances, stakes, names and times.
  datatype Config = Config(
    numAccountsValid: Uint64,
    numApplicationsValid: Uint64,
    numValidatorsValid: Uint64,
    numNonCustodialValidators: Uint64,
    numModuleAccounts: Uint64,
    numAddressTooShort: Uint64,
    numAddressTooLong: Uint64,
    numNonHexAddress: Uint64,
    numApplicationsOrphaned: Uint64,
    numValidatorsOrphaned: Uint64,
    numApplicationsUnbondingBegan: Uint64,
    numApplicationsUnbondingEnded: Uint64,
    numValidatorsUnbondingBegan: Uint64,
    numValidatorsUnbondingEnded: Uint64,
    balanceFn: Option<(Uint64, nat, UnstakedType) -> int>,
    applicationFn: Option<(Uint64, nat, StakedType) -> Balances>,
    validatorFn: Option<(Uint64, nat, StakedType) -> Balances>,
    moduleNameFn: Option<(Uint64, nat) -> string>,
    applicationTimeFn: Option<(Uint64, nat, StakedType) -> int>,
    validatorTimeFn: Option<(Uint64, nat, StakedType) -> int>)

  function SlotCount(cfg: Config): nat {
    cfg.numAccountsValid + cfg.numApplicationsValid + cfg.numValidatorsValid + cfg.numModuleAccounts
    + 2 * cfg.numNonCustodialValidators
    + cfg.numAddressTooShort + cfg.numAddressTooLong + cfg.numNonHexAddress
    + cfg.numApplicationsOrphaned + cfg.numValidatorsOrphaned
    + cfg.numApplicationsUnbondingBegan + cfg.numApplicationsUnbondingEnded
    + cfg.numValidatorsUnbondingBegan + cfg.numValidatorsUnbondingEnded
  }

  // The table is made this long: the sum in 64 bits.
  function GetTotalAccounts(cfg: Config): Uint64 {
    SlotCount(cfg) % TWO_TO_64
  }

  function Several(kind: Kind, n: nat): (slots: seq<Slot>)
    ensures |slots| == n
  {
    seq(n, i requires 0 <= i < n => Slot(kind, i))
  }

  // Owner and validator in turn.
  function Pairs(n: nat): (slots: seq<Slot>)
    ensures |slots| == 2 * n
  {
    if n == 0 then []
    else Pairs(n - 1) + [Slot(Account(NonCustodialOwner), n - 1), Slot(Validator(NonCustodial), n - 1)]
  }

  // The pairs that are left after the first k.
  ghost function PairsSplit(n: nat, k: nat): (rest: seq<Slot>)
    requires k <= n
    ensures Pairs(n) == Pairs(k) + rest
  {
    if k == n then [] else PairsSplit(n - 1, k) + Pairs(n)[2 * n - 2..]
  }

  function AccountSlots(cfg: Config): seq<Slot> {
    Several(Account(EOA), cfg.numAccountsValid)
    + Several(Account(ModuleAccount), cfg.numModuleAccounts)
    + Several(Account(InvalidTooShort), cfg.numAddressTooShort)
    + Several(Account(InvalidTooLong), cfg.numAddressTooLong)
    + Several(Account(NonHexAddress), cfg.numNonHexAddress)
  }

  function ApplicationSlots(cfg: Config): seq<Slot> {
    Several(Application(Standard), cfg.numApplicationsValid)
    + Several(Application(Orphaned), cfg.numApplicationsOrphaned)
    + Several(Application(Unbonding), cfg.numApplicationsUnbondingBegan)
    + Several(Application(Unbonded), cfg.numApplicationsUnbondingEnded)
  }

  function ValidatorSlots(cfg: Config): seq<Slot> {
    Several(Validator(Standard), cfg.numValidatorsValid)
    + Several(Validator(Orphaned), cfg.numValidatorsOrphaned)
    + Pairs(cfg.numNonCustodialValidators)
    + Several(Validator(Unbonding), cfg.numValidatorsUnbondingBegan)
    + Several(Validator(Unbonded), cfg.numValidatorsUnbondingEnded)
  }

  function Layout(cfg: Config): (slots: seq<Slot>)
    ensures |slots| == SlotCount(cfg)
  {
    AccountSlots(cfg) + ApplicationSlots(cfg) + ValidatorSlots(cfg)
  }

  // --- One slot -----------------------------------------------------------------------

  function AddressOf(i: Uint64, t: UnstakedType): Address {
    match t
    case InvalidTooShort => TooShort(Key(i))
    case InvalidTooLong => TooLong(Key(i))
    case NonHexAddress => NonHex(Key(i))
    case _ => Derived(Key(i))
  }

  predicate Ends(t: StakedType) {
    t == Unbonding || t == Unbonded
  }

  predicate IsInt64(x: int) {
    MIN_INT64 <= x <= MAX_INT64
  }

  // Slot i can be built: the functions it needs are set, stakes fit 64 bits, coins are not
  // negative, and an account's one coin is there to be read (a zero coin would not be).
  predicate Builds(cfg: Config, i: Uint64, s: Slot) {
    match s.kind
    case Account(t) =>
      && (t == ModuleAccount ==> cfg.moduleNameFn.Some?)
      && cfg.balanceFn.Some? && (cfg.balanceFn.value)(i, s.actorIndex, t) > 0
    case Application(t) =>
      && cfg.applicationFn.Some?
      && (var b := (cfg.applicationFn.value)(i, s.actorIndex, t);
          IsInt64(b.staked) && (t != Orphaned ==> b.unstaked >= 0))
      && (Ends(t) ==> cfg.applicationTimeFn.Some?)
    case Validator(t) =>
      && cfg.validatorFn.Some?
      && (var b := (cfg.validatorFn.value)(i, s.actorIndex, t);
          IsInt64(b.staked) && (t != Orphaned ==> b.unstaked >= 0))
      && (Ends(t) ==> cfg.validatorTimeFn.Some?)
  }

  // The balances that slot i is given.
  function BalancesOf(cfg: Config, i: Uint64, s: Slot): Balances
    requires Builds(cfg, i, s)
  {
    match s.kind
    case Account(t) => Balances(0, (cfg.balanceFn.value)(i, s.actorIndex, t))
    case Application(t) => (cfg.applicationFn.value)(i, s.actorIndex, t)
    case Validator(t) => (cfg.validatorFn.value)(i, s.actorIndex, t)
  }

  // Its claimable account.
  function ClaimOf(cfg: Config, i: Uint64, s: Slot): Claim
    requires Builds(cfg, i, s)
  {
    var b := BalancesOf(cfg, i, s);
    match s.kind
    case Account(t) => Claim(AddressOf(i, t), None, b.unstaked, 0, 0, 0)
    case Application(t) =>
      Claim(Derived(Key(i)), None, if t == Orphaned then 0 else b.unstaked, b.staked, 0,
            if Ends(t) then (cfg.applicationTimeFn.value)(i, s.actorIndex, t) else 0)
    case Validator(t) =>
      Claim(Derived(Key(i)), if t == NonCustodial then Some(Derived(Key((i - 1) % TWO_TO_64))) else None,
            if t == Orphaned then 0 else b.unstaked, 0, b.staked,
            if Ends(t) then (cfg.validatorTimeFn.value)(i, s.actorIndex, t) else 0)
  }

  // What it adds to the three lists of the export.
  function ApplicationsFrom(cfg: Config, i: Uint64, s: Slot): seq<StakedActor>
    requires Builds(cfg, i, s)
  {
    if s.kind.Application? then [StakedActor(Derived(Key(i)), Decimal.Print(BalancesOf(cfg, i, s).staked))] else []
  }

  function ValidatorsFrom(cfg: Config, i: Uint64, s: Slot): seq<StakedActor>
    requires Builds(cfg, i, s)
  {
    if s.kind.Validator? then [StakedActor(Derived(Key(i)), Decimal.Print(BalancesOf(cfg, i, s).staked))] else []
  }

  predicate IsOrphaned(kind: Kind) {
    kind == Application(Orphaned) || kind == Validator(Orphaned)
  }

  function AccountsFrom(cfg: Config, i: Uint64, s: Slot): seq<AuthAccount>
    requires Builds(cfg, i, s)
  {
    if IsOrphaned(s.kind) then []
    else
      var coins := NewCoins(BalancesOf(cfg, i, s).unstaked);
      match s.kind
      case Account(t) =>
        [AuthAccount(match t
                     case ModuleAccount => Module((cfg.moduleNameFn.value)(i, s.actorIndex))
                     case NonCustodialOwner => Unnamed
                     case _ => ExternallyOwned,
                     AddressOf(i, t), coins)]
      case _ => [AuthAccount(ExternallyOwned, Derived(Key(i)), coins)]
  }

  // The unstaked side of a staked actor, which an orphaned one does not have.
  lemma UnstakedSide(cfg: Config, i: Uint64, s: Slot)
    requires Builds(cfg, i, s) && !s.kind.Account?
    ensures s.kind.Application? ==> ValidatorsFrom(cfg, i, s) == []
    ensures s.kind.Validator? ==> ApplicationsFrom(cfg, i, s) == []
    ensures var unstaked := BalancesOf(cfg, i, s).unstaked;
            if IsOrphaned(s.kind) then ClaimOf(cfg, i, s).unstaked == 0 && AccountsFrom(cfg, i, s) == []
            else
              && ClaimOf(cfg, i, s).unstaked == unstaked
              && AccountsFrom(cfg, i, s) == [AuthAccount(ExternallyOwned, Derived(Key(i)), NewCoins(unstaked))]
  {
  }

  // --- All slots ----------------------------------------------------------------------

  ghost predicate AllBuild(cfg: Config, slots: seq<Slot>) {
    |slots| < TWO_TO_64 && forall i :: 0 <= i < |slots| ==> Builds(cfg, i, slots[i])
  }

  ghost function ClaimsOf(cfg: Config, slots: seq<Slot>): (claims: seq<Claim>)
    requires AllBuild(cfg, slots)
    ensures |claims| == |slots|
  {
    if |slots| == 0 then []
    else ClaimsOf(cfg, slots[..|slots| - 1]) + [ClaimOf(cfg, |slots| - 1, slots[|slots| - 1])]
  }

  ghost function ApplicationsOf(cfg: Config, slots: seq<Slot>): seq<StakedActor>
    requires AllBuild(cfg, slots)
  {
    if |slots| == 0 then []
    else ApplicationsOf(cfg, slots[..|slots| - 1]) + ApplicationsFrom(cfg, |slots| - 1, slots[|slots| - 1])
  }

  ghost function ValidatorsOf(cfg: Config, slots: seq<Slot>): seq<StakedActor>
    requires AllBuild(cfg, slots)
  {
    if |slots| == 0 then []
    else ValidatorsOf(cfg, slots[..|slots| - 1]) + ValidatorsFrom(cfg, |slots| - 1, slots[|slots| - 1])
  }

  ghost function AccountsOf(cfg: Config, slots: seq<Slot>): seq<AuthAccount>
    requires AllBuild(cfg, slots)
  {
    if |slots| == 0 then []
    else AccountsOf(cfg, slots[..|slots| - 1]) + AccountsFrom(cfg, |slots| - 1, slots[|slots| - 1])
  }

  // The slots of one kind, in order.
  function IndicesOf(slots: seq<Slot>, kind: Kind): seq<nat> {
    if |slots| == 0 then []
    else IndicesOf(slots[..|slots| - 1], kind) + if slots[|slots| - 1].kind == kind then [|slots| - 1] else []
  }

  lemma IndicesSnoc(slots: seq<Slot>, s: Slot)
    ensures forall kind :: IndicesOf(slots + [s], kind) ==
                              IndicesOf(slots, kind) + if kind == s.kind then [|slots|] else []
  {
    assert (slots + [s])[..|slots|] == slots;
  }

  // One slot more.
  lemma LayoutSnoc(cfg: Config, slots: seq<Slot>, s: Slot)
    requires AllBuild(cfg, slots) && |slots| + 1 < TWO_TO_64 && Builds(cfg, |slots|, s)
    ensures AllBuild(cfg, slots + [s])
    ensures ClaimsOf(cfg, slots + [s]) == ClaimsOf(cfg, slots) + [ClaimOf(cfg, |slots|, s)]
    ensures ApplicationsOf(cfg, slots + [s]) == ApplicationsOf(cfg, slots) + ApplicationsFrom(cfg, |slots|, s)
    ensures ValidatorsOf(cfg, slots + [s]) == ValidatorsOf(cfg, slots) + ValidatorsFrom(cfg, |slots|, s)
    ensures AccountsOf(cfg, slots + [s]) == AccountsOf(cfg, slots) + AccountsFrom(cfg, |slots|, s)
  {
    hide Builds, ClaimOf, ApplicationsFrom, ValidatorsFrom, AccountsFrom;
    var grown := slots + [s];
    assert grown[..|grown| - 1] == slots;
  }

  lemma ClaimAt(cfg: Config, slots: seq<Slot>, i: nat)
    requires AllBuild(cfg, slots) && i < |slots|
    ensures ClaimsOf(cfg, slots)[i] == ClaimOf(cfg, i, slots[i])
  {
    hide Builds, ClaimOf;
    if i < |slots| - 1 {
      ClaimAt(cfg, slots[..|slots| - 1], i);
    }
  }

  // --- Conservation -------------------------------------------------------------------

  function Unstaked(claims: seq<Claim>): int {
    if |claims| == 0 then 0 else Unstaked(claims[..|claims| - 1]) + claims[|claims| - 1].unstaked
  }

  function ApplicationStakes(claims: seq<Claim>): int {
    if |claims| == 0 then 0 else ApplicationStakes(claims[..|claims| - 1]) + claims[|claims| - 1].applicationStake
  }

  function SupplierStakes(claims: seq<Claim>): int {
    if |claims| == 0 then 0 else SupplierStakes(claims[..|claims| - 1]) + claims[|claims| - 1].supplierStake
  }

  // The tokens that a list of staked actors says are staked, once read back.
  function StakedTokens(actors: seq<StakedActor>): Option<int> {
    if |actors| == 0 then Some(0)
    else match (StakedTokens(actors[..|actors| - 1]), Decimal.ParseInt64(actors[|actors| - 1].stakedTokens))
      case (Some(sum), Some(x)) => Some(sum + x)
      case _ => None
  }

  // No token is lost or made up between the export and the claimable accounts.
  ghost predicate Conserved(claims: seq<Claim>, applications: seq<StakedActor>, validators: seq<StakedActor>,
                            accounts: seq<AuthAccount>) {
    && Unstaked(claims) == Coins(accounts)
    && StakedTokens(applications) == Some(ApplicationStakes(claims))
    && StakedTokens(validators) == Some(SupplierStakes(claims))
  }

  lemma SlotBalances(cfg: Config, i: Uint64, s: Slot)
    requires Builds(cfg, i, s)
    ensures Balanced(ClaimOf(cfg, i, s), ApplicationsFrom(cfg, i, s), ValidatorsFrom(cfg, i, s),
                     AccountsFrom(cfg, i, s))
  {
    Decimal.ParseReadsPrint(BalancesOf(cfg, i, s).staked);
    SumOfCoins(BalancesOf(cfg, i, s).unstaked);
    hide Decimal.ParseInt64, Decimal.Print, Sum, NewCoins;
  }

  lemma ClaimsSnoc(claims: seq<Claim>, c: Claim)
    ensures Unstaked(claims + [c]) == Unstaked(claims) + c.unstaked
    ensures ApplicationStakes(claims + [c]) == ApplicationStakes(claims) + c.applicationStake
    ensures SupplierStakes(claims + [c]) == SupplierStakes(claims) + c.supplierStake
  {
    assert (claims + [c])[..|claims|] == claims;
  }

  // Reading one more staked actor, or none.
  lemma StakedSnoc(actors: seq<StakedActor>, more: seq<StakedActor>, sum: int, stake: int)
    requires StakedTokens(actors) == Some(sum)
    requires (more == [] && stake == 0) || (|more| == 1 && Decimal.ParseInt64(more[0].stakedTokens) == Some(stake))
    ensures StakedTokens(actors + more) == Some(sum + stake)
  {
    hide Decimal.ParseInt64;
    if more == [] {
      assert actors + more == actors;
    } else {
      assert (actors + more)[..|actors|] == actors;
    }
  }

  lemma CoinsSnoc(accounts: seq<AuthAccount>, more: seq<AuthAccount>, amount: int)
    requires (more == [] && amount == 0) || (|more| == 1 && Sum(more[0].coins) == amount)
    ensures Coins(accounts + more) == Coins(accounts) + amount
  {
    hide Sum;
    if more == [] {
      assert accounts + more == accounts;
    } else {
      assert (accounts + more)[..|accounts|] == accounts;
    }
  }

  // What one slot adds keeps the books balanced.
  ghost predicate Balanced(claim: Claim, applications: seq<StakedActor>, validators: seq<StakedActor>,
                           accounts: seq<AuthAccount>) {
    && ((applications == [] && claim.applicationStake == 0) ||
        (|applications| == 1 && Decimal.ParseInt64(applications[0].stakedTokens) == Some(claim.applicationStake)))
    && ((validators == [] && claim.supplierStake == 0) ||
        (|validators| == 1 && Decimal.ParseInt64(validators[0].stakedTokens) == Some(claim.supplierStake)))
    && ((accounts == [] && claim.unstaked == 0) || (|accounts| == 1 && Sum(accounts[0].coins) == claim.unstaked))
  }

  lemma ConservedSnoc(claims: seq<Claim>, applications: seq<StakedActor>, validators: seq<StakedActor>,
                      accounts: seq<AuthAccount>, claim: Claim, application: seq<StakedActor>,
                      validator: seq<StakedActor>, account: seq<AuthAccount>)
    requires Conserved(claims, applications, validators, accounts)
    requires Balanced(claim, application, validator, account)
    ensures Conserved(claims + [claim], applications + application, validators + validator, accounts + account)
  {
    hide Unstaked, ApplicationStakes, SupplierStakes, StakedTokens, Coins, Sum, Decimal.ParseInt64;
    ClaimsSnoc(claims, claim);
    StakedSnoc(applications, application, ApplicationStakes(claims), claim.applicationStake);
    StakedSnoc(validators, validator, SupplierStakes(claims), claim.supplierStake);
    CoinsSnoc(accounts, account, claim.unstaked);
  }

  lemma {:induction false} Conservation(cfg: Config, slots: seq<Slot>)
    requires AllBuild(cfg, slots)
    ensures Conserved(ClaimsOf(cfg, slots), ApplicationsOf(cfg, slots), ValidatorsOf(cfg, slots),
                      AccountsOf(cfg, slots))
  {
    if |slots| > 0 {
      var init, i, s := slots[..|slots| - 1], |slots| - 1, slots[|slots| - 1];
      Conservation(cfg, init);
      SlotBalances(cfg, i, s);
      hide Balanced, Conserved, Builds, ClaimOf, ApplicationsFrom, ValidatorsFrom, AccountsFrom;
      ConservedSnoc(ClaimsOf(cfg, init), ApplicationsOf(cfg, init), ValidatorsOf(cfg, init), AccountsOf(cfg, init),
                    ClaimOf(cfg, i, s), ApplicationsFrom(cfg, i, s), ValidatorsFrom(cfg, i, s),
                    AccountsFrom(cfg, i, s));
    }
  }

  // --- Coverage -----------------------------------------------------------------------

  // The groups' index lists are the positions of their kind, all of them and in order.
  lemma {:induction false} IndicesExact(slots: seq<Slot>, kind: Kind)
    ensures forall i: nat :: i in IndicesOf(slots, kind) <==> i < |slots| && slots[i].kind == kind
    ensures forall j, k :: 0 <= j < k < |IndicesOf(slots, kind)| ==>
              IndicesOf(slots, kind)[j] < IndicesOf(slots, kind)[k]
  {
    if |slots| > 0 {
      var init := slots[..|slots| - 1];
      IndicesExact(init, kind);
      forall j | 0 <= j < |IndicesOf(init, kind)| ensures IndicesOf(init, kind)[j] < |slots| - 1 {
        assert IndicesOf(init, kind)[j] in IndicesOf(init, kind);
      }
    }
  }

  function CountOf(slots: seq<Slot>, kind: Kind): nat {
    |IndicesOf(slots, kind)|
  }

  lemma {:induction false} CountAppend(a: seq<Slot>, b: seq<Slot>, kind: Kind)
    ensures CountOf(a + b, kind) == CountOf(a, kind) + CountOf(b, kind)
  {
    if |b| == 0 {
      assert a + b == a;
    } else {
      CountAppend(a, b[..|b| - 1], kind);
      assert (a + b)[..|a + b| - 1] == a + b[..|b| - 1];
    }
  }

  lemma {:induction false} CountSeveral(k: Kind, n: nat, kind: Kind)
    ensures CountOf(Several(k, n), kind) == if k == kind then n else 0
  {
    if n > 0 {
      CountSeveral(k, n - 1, kind);
      assert Several(k, n)[..n - 1] == Several(k, n - 1);
    }
  }

  lemma {:induction false} CountPairs(n: nat, kind: Kind)
    ensures CountOf(Pairs(n), kind) ==
            if kind == Account(NonCustodialOwner) || kind == Validator(NonCustodial) then n else 0
  {
    if n > 0 {
      CountPairs(n - 1, kind);
      var owner, validator := Slot(Account(NonCustodialOwner), n - 1), Slot(Validator(NonCustodial), n - 1);
      assert Pairs(n) == (Pairs(n - 1) + [owner]) + [validator];
      CountAppend(Pairs(n - 1) + [owner], [validator], kind);
      CountAppend(Pairs(n - 1), [owner], kind);
      assert [owner][..0] == [] && [validator][..0] == [];
    }
  }

  // What the configuration asks for of each kind.
  function Configured(cfg: Config, kind: Kind): nat {
    match kind
    case Account(EOA) => cfg.numAccountsValid
    case Account(InvalidTooShort) => cfg.numAddressTooShort
    case Account(InvalidTooLong) => cfg.numAddressTooLong
    case Account(NonHexAddress) => cfg.numNonHexAddress
    case Account(ModuleAccount) => cfg.numModuleAccounts
    case Account(NonCustodialOwner) => cfg.numNonCustodialValidators
    case Application(Standard) => cfg.numApplicationsValid
    case Application(Orphaned) => cfg.numApplicationsOrphaned
    case Application(Unbonding) => cfg.numApplicationsUnbondingBegan
    case Application(Unbonded) => cfg.numApplicationsUnbondingEnded
    case Application(NonCustodial) => 0
    case Validator(Standard) => cfg.numValidatorsValid
    case Validator(Orphaned) => cfg.numValidatorsOrphaned
    case Validator(Unbonding) => cfg.numValidatorsUnbondingBegan
    case Validator(Unbonded) => cfg.numValidatorsUnbondingEnded
    case Validator(NonCustodial) => cfg.numNonCustodialValidators
  }

  // Each kind has exactly the configured number of slots.
  lemma GroupSizes(cfg: Config, kind: Kind)
    ensures CountOf(Layout(cfg), kind) == Configured(cfg, kind)
  {
    CountAppend(AccountSlots(cfg) + ApplicationSlots(cfg), ValidatorSlots(cfg), kind);
    CountAppend(AccountSlots(cfg), ApplicationSlots(cfg), kind);
    AccountSizes(cfg, kind);
    ApplicationSizes(cfg, kind);
    ValidatorSizes(cfg, kind);
    hide CountOf, AccountSlots, ApplicationSlots, ValidatorSlots;
  }

  lemma AccountSizes(cfg: Config, kind: Kind)
    ensures CountOf(AccountSlots(cfg), kind) ==
            if kind.Account? && kind.unstaked != NonCustodialOwner then Configured(cfg, kind) else 0
  {
    var a, b := Several(Account(EOA), cfg.numAccountsValid), Several(Account(ModuleAccount), cfg.numModuleAccounts);
    var c := Several(Account(InvalidTooShort), cfg.numAddressTooShort);
    var d := Several(Account(InvalidTooLong), cfg.numAddressTooLong);
    var e := Several(Account(NonHexAddress), cfg.numNonHexAddress);
    CountAppend(a + b + c + d, e, kind);
    CountAppend(a + b + c, d, kind);
    CountAppend(a + b, c, kind);
    CountAppend(a, b, kind);
    hide CountOf;
    CountSeveral(Account(EOA), cfg.numAccountsValid, kind);
    CountSeveral(Account(ModuleAccount), cfg.numModuleAccounts, kind);
    CountSeveral(Account(InvalidTooShort), cfg.numAddressTooShort, kind);
    CountSeveral(Account(InvalidTooLong), cfg.numAddressTooLong, kind);
    CountSeveral(Account(NonHexAddress), cfg.numNonHexAddress, kind);
  }

  lemma ApplicationSizes(cfg: Config, kind: Kind)
    ensures CountOf(ApplicationSlots(cfg), kind) == if kind.Application? then Configured(cfg, kind) else 0
  {
    var a := Several(Application(Standard), cfg.numApplicationsValid);
    var b := Several(Application(Orphaned), cfg.numApplicationsOrphaned);
    var c := Several(Application(Unbonding), cfg.numApplicationsUnbondingBegan);
    var d := Several(Application(Unbonded), cfg.numApplicationsUnbondingEnded);
    CountAppend(a + b + c, d, kind);
    CountAppend(a + b, c, kind);
    CountAppend(a, b, kind);
    hide CountOf;
    CountSeveral(Application(Standard), cfg.numApplicationsValid, kind);
    CountSeveral(Application(Orphaned), cfg.numApplicationsOrphaned, kind);
    CountSeveral(Application(Unbonding), cfg.numApplicationsUnbondingBegan, kind);
    CountSeveral(Application(Unbonded), cfg.numApplicationsUnbondingEnded, kind);
  }

  lemma ValidatorSizes(cfg: Config, kind: Kind)
    ensures CountOf(ValidatorSlots(cfg), kind) ==
            if kind.Validator? || kind == Account(NonCustodialOwner) then Configured(cfg, kind) else 0
  {
    var a := Several(Validator(Standard), cfg.numValidatorsValid);
    var b := Several(Validator(Orphaned), cfg.numValidatorsOrphaned);
    var c := Pairs(cfg.numNonCustodialValidators);
    var d := Several(Validator(Unbonding), cfg.numValidatorsUnbondingBegan);
    var e := Several(Validator(Unbonded), cfg.numValidatorsUnbondingEnded);
    CountAppend(a + b + c + d, e, kind);
    CountAppend(a + b + c, d, kind);
    CountAppend(a + b, c, kind);
    CountAppend(a, b, kind);
    hide CountOf;
    CountSeveral(Validator(Standard), cfg.numValidatorsValid, kind);
    CountSeveral(Validator(Orphaned), cfg.numValidatorsOrphaned, kind);
    CountPairs(cfg.numNonCustodialValidators, kind);
    CountSeveral(Validator(Unbonding), cfg.numValidatorsUnbondingBegan, kind);
    CountSeveral(Validator(Unbonded), cfg.numValidatorsUnbondingEnded, kind);
  }

  // --- Adjacency ----------------------------------------------------------------------

  // Owners and non-custodial validators come in pairs, an owner right before its validator.
  ghost predicate OwnersAdjacent(slots: seq<Slot>) {
    && (forall i :: 0 <= i < |slots| && slots[i].kind == Validator(NonCustodial) ==>
          i > 0 && slots[i - 1] == Slot(Account(NonCustodialOwner), slots[i].actorIndex))
    && (forall i :: 0 <= i < |slots| && slots[i].kind == Account(NonCustodialOwner) ==>
          i + 1 < |slots| && slots[i + 1] == Slot(Validator(NonCustodial), slots[i].actorIndex))
  }

  lemma {:induction false} PairsAdjacent(n: nat)
    ensures OwnersAdjacent(Pairs(n))
  {
    if n > 0 {
      PairsAdjacent(n - 1);
    }
  }

  lemma AdjacentAppend(a: seq<Slot>, b: seq<Slot>)
    requires OwnersAdjacent(a) && OwnersAdjacent(b)
    ensures OwnersAdjacent(a + b)
  {
    var c := a + b;
    assert forall i :: 0 <= i < |a| ==> c[i] == a[i];
    assert forall i :: |a| <= i < |c| ==> c[i] == b[i - |a|];
  }

  // So the j-th validator's slot comes right after the j-th owner's.
  lemma {:induction false} OwnersMatch(slots: seq<Slot>)
    requires OwnersAdjacent(slots)
    ensures var owners := IndicesOf(slots, Account(NonCustodialOwner));
            var validators := IndicesOf(slots, Validator(NonCustodial));
            |owners| == |validators| && forall j :: 0 <= j < |owners| ==> validators[j] == owners[j] + 1
  {
    if |slots| > 0 {
      var last := |slots| - 1;
      var init := slots[..last];
      if slots[last].kind == Validator(NonCustodial) {
        assert init[..last - 1] == slots[..last - 1];
        OwnersMatch(slots[..last - 1]);
      } else {
        OwnersMatch(init);
      }
    }
  }

  lemma UnpairedAdjacent(slots: seq<Slot>)
    requires forall s <- slots :: s.kind != Validator(NonCustodial) && s.kind != Account(NonCustodialOwner)
    ensures OwnersAdjacent(slots)
  {
  }

  lemma LayoutAdjacent(cfg: Config)
    ensures OwnersAdjacent(Layout(cfg))
  {
    var before := AccountSlots(cfg) + ApplicationSlots(cfg)
      + Several(Validator(Standard), cfg.numValidatorsValid) + Several(Validator(Orphaned), cfg.numValidatorsOrphaned);
    var pairs := Pairs(cfg.numNonCustodialValidators);
    var after := Several(Validator(Unbonding), cfg.numValidatorsUnbondingBegan)
      + Several(Validator(Unbonded), cfg.numValidatorsUnbondingEnded);
    assert Layout(cfg) == before + pairs + after;
    UnpairedAdjacent(before);
    PairsAdjacent(cfg.numNonCustodialValidators);
    UnpairedAdjacent(after);
    hide OwnersAdjacent, Layout, Pairs;
    AdjacentAppend(before, pairs);
    AdjacentAppend(before + pairs, after);
  }

  lemma LayoutOwnersMatch(cfg: Config)
    ensures var owners := IndicesOf(Layout(cfg), Account(NonCustodialOwner));
            var validators := IndicesOf(Layout(cfg), Validator(NonCustodial));
            && |owners| == |validators| == cfg.numNonCustodialValidators
            && forall j :: 0 <= j < |owners| ==> validators[j] == owners[j] + 1
  {
    hide Layout, IndicesOf, OwnersAdjacent;
    LayoutAdjacent(cfg);
    OwnersMatch(Layout(cfg));
    GroupSizes(cfg, Account(NonCustodialOwner));
  }

  // So its output address is the source address of the slot before, its owner's.
  lemma OwnerIsPaid(cfg: Config, i: nat)
    requires AllBuild(cfg, Layout(cfg)) && i < |Layout(cfg)| && Layout(cfg)[i].kind == Validator(NonCustodial)
    ensures i > 0 && Layout(cfg)[i - 1] == Slot(Account(NonCustodialOwner), Layout(cfg)[i].actorIndex)
    ensures ClaimOf(cfg, i, Layout(cfg)[i]).output == Some(ClaimOf(cfg, i - 1, Layout(cfg)[i - 1]).src)
  {
    LayoutAdjacent(cfg);
    hide Layout;
  }
}
