/**
 * What fixtures are for their users: what each claimable account says, where its slot stands
 * in the export, and in which order the slots come -- all from the configuration, apart from
 * how the layout is put together.
 */
module FixtureFacts {
  import opened MachineInts
  import opened Wrappers
  import opened MorseTypes
  import opened FixtureLayout
  import Decimal

  // --- What an entry says -------------------------------------------------------------

  // The claimable account of slot i has the address of its key, spoilt where it is to be
  // invalid; the balances that the configured function of its kind gives for it, of the kind
  // of stake it has; and an unstaking time if its actor has begun to leave.
  ghost predicate AsConfigured(cfg: Config, i: Uint64, s: Slot, c: Claim) {
    match s.kind
    case Account(t) =>
      && (t == InvalidTooShort ==> c.src == TooShort(Key(i)))
      && (t == InvalidTooLong ==> c.src == TooLong(Key(i)))
      && (t == NonHexAddress ==> c.src == NonHex(Key(i)))
      && (t == EOA || t == ModuleAccount || t == NonCustodialOwner ==> c.src == Derived(Key(i)))
      && cfg.balanceFn.Some? && c.unstaked == (cfg.balanceFn.value)(i, s.actorIndex, t)
      && c.applicationStake == 0 && c.supplierStake == 0
      && c.unstakingTime == 0 && c.output == None
    case Application(t) =>
      && c.src == Derived(Key(i)) && c.output == None && c.supplierStake == 0
      && cfg.applicationFn.Some?
      && c.applicationStake == (cfg.applicationFn.value)(i, s.actorIndex, t).staked
      && (t != Orphaned ==> c.unstaked == (cfg.applicationFn.value)(i, s.actorIndex, t).unstaked)
      && (t == Orphaned ==> c.unstaked == 0)
      && (t == Unbonding || t == Unbonded ==>
            cfg.applicationTimeFn.Some? && c.unstakingTime == (cfg.applicationTimeFn.value)(i, s.actorIndex, t))
      && (t == Standard || t == Orphaned || t == NonCustodial ==> c.unstakingTime == 0)
    case Validator(t) =>
      && c.src == Derived(Key(i)) && (t != NonCustodial ==> c.output == None) && c.applicationStake == 0
      && cfg.validatorFn.Some?
      && c.supplierStake == (cfg.validatorFn.value)(i, s.actorIndex, t).staked
      && (t != Orphaned ==> c.unstaked == (cfg.validatorFn.value)(i, s.actorIndex, t).unstaked)
      && (t == Orphaned ==> c.unstaked == 0)
      && (t == Unbonding || t == Unbonded ==>
            cfg.validatorTimeFn.Some? && c.unstakingTime == (cfg.validatorTimeFn.value)(i, s.actorIndex, t))
      && (t == Standard || t == Orphaned || t == NonCustodial ==> c.unstakingTime == 0)
  }

  lemma ClaimIsAsConfigured(cfg: Config, i: Uint64, s: Slot)
    requires Builds(cfg, i, s)
    ensures AsConfigured(cfg, i, s, ClaimOf(cfg, i, s))
  {
  }

  predicate Fits64(x: int) {
    -0x8000_0000_0000_0000 <= x < 0x8000_0000_0000_0000
  }

  // What stops a slot from being built, and nothing else does: a function that is not set, an
  // account without a positive balance, a stake beyond 64 bits, or a negative unstaked balance
  // of an actor that is to have one.
  lemma BuildsUnless(cfg: Config, i: Uint64, s: Slot)
    ensures !Builds(cfg, i, s) <==>
            || (s.kind == Account(ModuleAccount) && cfg.moduleNameFn.None?)
            || (s.kind.Account? && cfg.balanceFn.None?)
            || (s.kind.Account? && (cfg.balanceFn.value)(i, s.actorIndex, s.kind.unstaked) <= 0)
            || (s.kind.Application? && cfg.applicationFn.None?)
            || (s.kind.Application? && !Fits64((cfg.applicationFn.value)(i, s.actorIndex, s.kind.app).staked))
            || (s.kind.Application? && s.kind.app != Orphaned &&
                (cfg.applicationFn.value)(i, s.actorIndex, s.kind.app).unstaked < 0)
            || (s.kind in {Application(Unbonding), Application(Unbonded)} && cfg.applicationTimeFn.None?)
            || (s.kind.Validator? && cfg.validatorFn.None?)
            || (s.kind.Validator? && !Fits64((cfg.validatorFn.value)(i, s.actorIndex, s.kind.val).staked))
            || (s.kind.Validator? && s.kind.val != Orphaned &&
                (cfg.validatorFn.value)(i, s.actorIndex, s.kind.val).unstaked < 0)
            || (s.kind in {Validator(Unbonding), Validator(Unbonded)} && cfg.validatorTimeFn.None?)
  {
  }

  // --- Where it stands in the export --------------------------------------------------

  datatype List = Accounts | Applications | Validators

  // Orphaned actors have no account; the others stand with their kind as well.
  predicate Appears(kind: Kind, list: List) {
    match list
    case Accounts => kind != Application(Orphaned) && kind != Validator(Orphaned)
    case Applications => kind.Application?
    case Validators => kind.Validator?
  }

  ghost function Listed(slots: seq<Slot>, list: List): set<nat> {
    set i: nat | i < |slots| && Appears(slots[i].kind, list)
  }

  // An exported account for this claim.
  ghost predicate AccountFor(cfg: Config, i: Uint64, s: Slot, a: AuthAccount, c: Claim) {
    && a.address == c.src && Sum(a.coins) == c.unstaked
    && (s.kind == Account(ModuleAccount) ==>
          cfg.moduleNameFn.Some? && a.accountType == Module((cfg.moduleNameFn.value)(i, s.actorIndex)))
    && (s.kind == Account(NonCustodialOwner) ==> a.accountType == Unnamed)
    && (s.kind != Account(ModuleAccount) && s.kind != Account(NonCustodialOwner) ==> a.accountType == ExternallyOwned)
  }

  ghost predicate ActorFor(actor: StakedActor, src: Address, stake: int) {
    actor.address == src && Decimal.ParseInt64(actor.stakedTokens) == Some(stake)
  }

  // Slot i, whose claim is c, stands in each list that it appears in, after as many others as
  // appear there before it.
  ghost predicate InExport(cfg: Config, slots: seq<Slot>, i: nat, c: Claim, applications: seq<StakedActor>,
                           validators: seq<StakedActor>, accounts: seq<AuthAccount>)
    requires i < |slots| && i < TWO_TO_64
  {
    var kind := slots[i].kind;
    && (Appears(kind, Accounts) ==>
          var k := |Listed(slots[..i], Accounts)|;
          k < |accounts| && AccountFor(cfg, i, slots[i], accounts[k], c))
    && (Appears(kind, Applications) ==>
          var k := |Listed(slots[..i], Applications)|;
          k < |applications| && ActorFor(applications[k], c.src, c.applicationStake))
    && (Appears(kind, Validators) ==>
          var k := |Listed(slots[..i], Validators)|;
          k < |validators| && ActorFor(validators[k], c.src, c.supplierStake))
  }

  lemma ListedSnoc(slots: seq<Slot>, list: List)
    requires |slots| > 0
    ensures var n := |slots| - 1;
            |Listed(slots, list)| == |Listed(slots[..n], list)| + if Appears(slots[n].kind, list) then 1 else 0
  {
    var n := |slots| - 1;
    assert Listed(slots, list) == Listed(slots[..n], list) + if Appears(slots[n].kind, list) then {n} else {};
  }

  lemma {:induction false} ExportLengths(cfg: Config, slots: seq<Slot>)
    requires AllBuild(cfg, slots)
    ensures |AccountsOf(cfg, slots)| == |Listed(slots, Accounts)|
    ensures |ApplicationsOf(cfg, slots)| == |Listed(slots, Applications)|
    ensures |ValidatorsOf(cfg, slots)| == |Listed(slots, Validators)|
  {
    if |slots| > 0 {
      ExportLengths(cfg, slots[..|slots| - 1]);
      ListedSnoc(slots, Accounts);
      ListedSnoc(slots, Applications);
      ListedSnoc(slots, Validators);
      FromLengths(cfg, |slots| - 1, slots[|slots| - 1]);
      hide Listed, Builds, AccountsFrom, ApplicationsFrom, ValidatorsFrom;
    }
  }

  lemma FromLengths(cfg: Config, i: Uint64, s: Slot)
    requires Builds(cfg, i, s)
    ensures |AccountsFrom(cfg, i, s)| == if Appears(s.kind, Accounts) then 1 else 0
    ensures |ApplicationsFrom(cfg, i, s)| == if Appears(s.kind, Applications) then 1 else 0
    ensures |ValidatorsFrom(cfg, i, s)| == if Appears(s.kind, Validators) then 1 else 0
  {
  }

  lemma FromFits(cfg: Config, i: Uint64, s: Slot)
    requires Builds(cfg, i, s)
    ensures var c := ClaimOf(cfg, i, s);
            && (forall a <- AccountsFrom(cfg, i, s) :: AccountFor(cfg, i, s, a, c))
            && (forall a <- ApplicationsFrom(cfg, i, s) :: ActorFor(a, c.src, c.applicationStake))
            && (forall a <- ValidatorsFrom(cfg, i, s) :: ActorFor(a, c.src, c.supplierStake))
  {
    Decimal.ParseReadsPrint(BalancesOf(cfg, i, s).staked);
    SumOfCoins(BalancesOf(cfg, i, s).unstaked);
    hide Decimal.ParseInt64, Decimal.Print, Sum, NewCoins;
  }

  lemma InExportGrows(cfg: Config, slots: seq<Slot>, i: nat, c: Claim, applications: seq<StakedActor>,
                      validators: seq<StakedActor>, accounts: seq<AuthAccount>, more: seq<StakedActor>,
                      moreValidators: seq<StakedActor>, moreAccounts: seq<AuthAccount>)
    requires i < |slots| - 1 && i < TWO_TO_64
    requires InExport(cfg, slots[..|slots| - 1], i, c, applications, validators, accounts)
    ensures InExport(cfg, slots, i, c, applications + more, validators + moreValidators, accounts + moreAccounts)
  {
    assert slots[..|slots| - 1][..i] == slots[..i];
    hide Listed, AccountFor, ActorFor, Appears;
  }

  lemma LastIsExported(cfg: Config, slots: seq<Slot>)
    requires AllBuild(cfg, slots) && |slots| > 0
    ensures var n := |slots| - 1;
            InExport(cfg, slots, n, ClaimOf(cfg, n, slots[n]), ApplicationsOf(cfg, slots), ValidatorsOf(cfg, slots),
                     AccountsOf(cfg, slots))
  {
    var n := |slots| - 1;
    ExportLengths(cfg, slots[..n]);
    FromLengths(cfg, n, slots[n]);
    FromFits(cfg, n, slots[n]);
    hide Listed, Builds, AccountFor, ActorFor, ClaimOf, Appears, AccountsFrom, ApplicationsFrom, ValidatorsFrom;
  }

  lemma {:induction false} SlotIsExported(cfg: Config, slots: seq<Slot>, i: nat)
    requires AllBuild(cfg, slots) && i < |slots|
    ensures InExport(cfg, slots, i, ClaimOf(cfg, i, slots[i]), ApplicationsOf(cfg, slots), ValidatorsOf(cfg, slots),
                     AccountsOf(cfg, slots))
  {
    hide InExport, Builds, ClaimOf, AccountsFrom, ApplicationsFrom, ValidatorsFrom;
    var n := |slots| - 1;
    if i < n {
      var init, s := slots[..n], slots[n];
      SlotIsExported(cfg, init, i);
      InExportGrows(cfg, slots, i, ClaimOf(cfg, i, slots[i]), ApplicationsOf(cfg, init), ValidatorsOf(cfg, init),
                    AccountsOf(cfg, init), ApplicationsFrom(cfg, n, s), ValidatorsFrom(cfg, n, s),
                    AccountsFrom(cfg, n, s));
    } else {
      LastIsExported(cfg, slots);
    }
  }

  // --- In which order -----------------------------------------------------------------

  // Kinds come in this order; an owner and its validator take one place.
  function Place(kind: Kind): nat {
    match kind
    case Account(EOA) => 0
    case Account(ModuleAccount) => 1
    case Account(InvalidTooShort) => 2
    case Account(InvalidTooLong) => 3
    case Account(NonHexAddress) => 4
    case Application(Standard) => 5
    case Application(Orphaned) => 6
    case Application(Unbonding) => 7
    case Application(Unbonded) => 8
    case Application(NonCustodial) => 8
    case Validator(Standard) => 9
    case Validator(Orphaned) => 10
    case Account(NonCustodialOwner) => 11
    case Validator(NonCustodial) => 11
    case Validator(Unbonding) => 12
    case Validator(Unbonded) => 13
  }

  ghost predicate InOrder(slots: seq<Slot>) {
    forall i, j :: 0 <= i < j < |slots| ==> Place(slots[i].kind) <= Place(slots[j].kind)
  }

  // Slots of a kind are numbered from 0.
  ghost predicate Numbered(slots: seq<Slot>) {
    forall i :: 0 <= i < |slots| ==> slots[i].actorIndex == CountOf(slots[..i], slots[i].kind)
  }

  // Both, with all places from `from` on and before `to`.
  ghost predicate Arranged(slots: seq<Slot>, from: nat, to: nat) {
    InOrder(slots) && Numbered(slots) && forall s <- slots :: from <= Place(s.kind) < to
  }

  lemma NumberedAppend(a: seq<Slot>, b: seq<Slot>, mid: nat)
    requires Numbered(a) && Numbered(b)
    requires (forall s <- a :: Place(s.kind) < mid) && (forall s <- b :: mid <= Place(s.kind))
    ensures Numbered(a + b)
  {
    var c := a + b;
    hide CountOf, Place;
    forall i | 0 <= i < |c|
      ensures c[i].actorIndex == CountOf(c[..i], c[i].kind)
    {
      if i < |a| {
        assert c[..i] == a[..i];
      } else {
        assert c[..i] == a + b[..i - |a|] && c[i] in b;
        CountAppend(a, b[..i - |a|], c[i].kind);
        NoneOf(a, c[i].kind, mid);
      }
    }
  }

  lemma ArrangedAppend(a: seq<Slot>, b: seq<Slot>, from: nat, mid: nat, to: nat)
    requires Arranged(a, from, mid) && Arranged(b, mid, to) && from <= mid <= to
    ensures Arranged(a + b, from, to)
  {
    NumberedAppend(a, b, mid);
    hide Place, Numbered;
    var c := a + b;
    assert forall s <- c :: s in a || s in b;
    forall i, j | 0 <= i < j < |c|
      ensures Place(c[i].kind) <= Place(c[j].kind)
    {
      assert i < |a| ==> c[i] in a;
      assert j >= |a| ==> c[j] in b;
    }
  }

  lemma {:induction false} NoneOf(slots: seq<Slot>, kind: Kind, mid: nat)
    requires (forall s <- slots :: Place(s.kind) < mid) && mid <= Place(kind)
    ensures CountOf(slots, kind) == 0
  {
    hide Place;
    if |slots| > 0 {
      assert slots[|slots| - 1] in slots;
      NoneOf(slots[..|slots| - 1], kind, mid);
    }
  }

  lemma SeveralArranged(kind: Kind, n: nat)
    ensures Arranged(Several(kind, n), Place(kind), Place(kind) + 1)
  {
    forall i | 0 <= i < n
      ensures Several(kind, n)[i].actorIndex == CountOf(Several(kind, n)[..i], kind)
    {
      assert Several(kind, n)[..i] == Several(kind, i);
      CountSeveral(kind, i, kind);
    }
  }

  lemma NumberedSnoc(slots: seq<Slot>, s: Slot)
    requires Numbered(slots) && s.actorIndex == CountOf(slots, s.kind)
    ensures Numbered(slots + [s])
  {
    var more := slots + [s];
    hide CountOf;
    forall i | 0 <= i < |more|
      ensures more[i].actorIndex == CountOf(more[..i], more[i].kind)
    {
      assert more[..i] == slots[..i];
      assert slots[..|slots|] == slots;
    }
  }

  lemma {:induction false} PairsNumbered(n: nat)
    ensures Numbered(Pairs(n))
  {
    if n > 0 {
      PairsNumbered(n - 1);
      var owner, validator := Slot(Account(NonCustodialOwner), n - 1), Slot(Validator(NonCustodial), n - 1);
      CountPairs(n - 1, Account(NonCustodialOwner));
      CountPairs(n - 1, Validator(NonCustodial));
      CountAppend(Pairs(n - 1), [owner], Validator(NonCustodial));
      assert [owner][..0] == [];
      NumberedSnoc(Pairs(n - 1), owner);
      NumberedSnoc(Pairs(n - 1) + [owner], validator);
      assert Pairs(n) == Pairs(n - 1) + [owner] + [validator];
    }
  }

  lemma {:induction false} PairsInPlace(n: nat)
    ensures forall s <- Pairs(n) :: Place(s.kind) == 11
  {
    if n > 0 {
      PairsInPlace(n - 1);
    }
  }

  lemma PairsArranged(n: nat)
    ensures Arranged(Pairs(n), 11, 12)
  {
    PairsNumbered(n);
    PairsInPlace(n);
    hide Pairs, Place;
  }

  lemma ApplicationsArranged(cfg: Config)
    ensures Arranged(ApplicationSlots(cfg), 5, 9)
  {
    var a := Several(Application(Standard), cfg.numApplicationsValid);
    var b := Several(Application(Orphaned), cfg.numApplicationsOrphaned);
    var c := Several(Application(Unbonding), cfg.numApplicationsUnbondingBegan);
    var d := Several(Application(Unbonded), cfg.numApplicationsUnbondingEnded);
    SeveralArranged(Application(Standard), cfg.numApplicationsValid);
    SeveralArranged(Application(Orphaned), cfg.numApplicationsOrphaned);
    SeveralArranged(Application(Unbonding), cfg.numApplicationsUnbondingBegan);
    SeveralArranged(Application(Unbonded), cfg.numApplicationsUnbondingEnded);
    hide Arranged;
    ArrangedAppend(a, b, 5, 6, 7);
    ArrangedAppend(a + b, c, 5, 7, 8);
    ArrangedAppend(a + b + c, d, 5, 8, 9);
  }

  // Five batches in their places.
  lemma FiveArranged(a: seq<Slot>, b: seq<Slot>, c: seq<Slot>, d: seq<Slot>, e: seq<Slot>, from: nat)
    requires Arranged(a, from, from + 1) && Arranged(b, from + 1, from + 2) && Arranged(c, from + 2, from + 3)
    requires Arranged(d, from + 3, from + 4) && Arranged(e, from + 4, from + 5)
    ensures Arranged(a + b + c + d + e, from, from + 5)
  {
    hide Arranged;
    ArrangedAppend(a, b, from, from + 1, from + 2);
    ArrangedAppend(a + b, c, from, from + 2, from + 3);
    ArrangedAppend(a + b + c, d, from, from + 3, from + 4);
    ArrangedAppend(a + b + c + d, e, from, from + 4, from + 5);
  }

  lemma ValidatorsArranged(cfg: Config)
    ensures Arranged(ValidatorSlots(cfg), 9, 14)
  {
    SeveralArranged(Validator(Standard), cfg.numValidatorsValid);
    SeveralArranged(Validator(Orphaned), cfg.numValidatorsOrphaned);
    PairsArranged(cfg.numNonCustodialValidators);
    SeveralArranged(Validator(Unbonding), cfg.numValidatorsUnbondingBegan);
    SeveralArranged(Validator(Unbonded), cfg.numValidatorsUnbondingEnded);
    hide Arranged, Several, Pairs;
    FiveArranged(Several(Validator(Standard), cfg.numValidatorsValid),
                 Several(Validator(Orphaned), cfg.numValidatorsOrphaned),
                 Pairs(cfg.numNonCustodialValidators),
                 Several(Validator(Unbonding), cfg.numValidatorsUnbondingBegan),
                 Several(Validator(Unbonded), cfg.numValidatorsUnbondingEnded), 9);
  }

  lemma AccountsArranged(cfg: Config)
    ensures Arranged(AccountSlots(cfg), 0, 5)
  {
    SeveralArranged(Account(EOA), cfg.numAccountsValid);
    SeveralArranged(Account(ModuleAccount), cfg.numModuleAccounts);
    SeveralArranged(Account(InvalidTooShort), cfg.numAddressTooShort);
    SeveralArranged(Account(InvalidTooLong), cfg.numAddressTooLong);
    SeveralArranged(Account(NonHexAddress), cfg.numNonHexAddress);
    hide Arranged, Several;
    FiveArranged(Several(Account(EOA), cfg.numAccountsValid),
                 Several(Account(ModuleAccount), cfg.numModuleAccounts),
                 Several(Account(InvalidTooShort), cfg.numAddressTooShort),
                 Several(Account(InvalidTooLong), cfg.numAddressTooLong),
                 Several(Account(NonHexAddress), cfg.numNonHexAddress), 0);
  }

  // The layout has its kinds in the documented order, each numbered from 0.
  lemma LayoutArranged(cfg: Config)
    ensures Arranged(Layout(cfg), 0, 14)
  {
    AccountsArranged(cfg);
    ApplicationsArranged(cfg);
    ValidatorsArranged(cfg);
    hide Arranged, AccountSlots, ApplicationSlots, ValidatorSlots;
    ArrangedAppend(AccountSlots(cfg), ApplicationSlots(cfg), 0, 5, 9);
    ArrangedAppend(AccountSlots(cfg) + ApplicationSlots(cfg), ValidatorSlots(cfg), 0, 9, 14);
  }
}
