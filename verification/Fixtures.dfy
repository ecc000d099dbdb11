/**
 * The migration fixture builder as an object: one preallocated account table filled
 * through one running index, export lists, and groups that share the table's objects.
 * Building either fails -- as the source panics -- or produces the layout exactly.
 */
module Fixtures {
  import opened MachineInts
  import opened Wrappers
  import opened MorseTypes
  import opened FixtureLayout
  import opened FixtureFacts
  import Decimal

  // A grouped actor: the claimable account is the table's own object.
  datatype Fixture = Fixture(claimable: ClaimableAccount, key: Key)

  class MigrationFixtures {
    const cfg: Config
    const table: array<ClaimableAccount?>
    var currentIndex: Uint64
    var applications: seq<StakedActor>
    var validators: seq<StakedActor>
    var accounts: seq<AuthAccount>
    var groups: map<Kind, seq<Fixture>>
    ghost var slots: seq<Slot>   // the slots built so far

    constructor (cfg: Config)
      ensures Valid() && slots == [] && this.cfg == cfg && table.Length == GetTotalAccounts(cfg) && fresh(table)
    {
      this.cfg := cfg;
      this.table := new ClaimableAccount?[GetTotalAccounts(cfg)](_ => null);
      currentIndex, applications, validators, accounts, groups, slots := 0, [], [], [], map[], [];
    }

    function Group(kind: Kind): seq<Fixture>
      reads this`groups
    {
      if kind in groups then groups[kind] else []
    }

    ghost function Objects(): set<ClaimableAccount>
      reads table
    {
      set i | 0 <= i < table.Length && table[i] != null :: table[i]
    }

    // The front of the table holds the claims, each in an object of its own, and the rest
    // is nil.
    ghost predicate TableHolds(claims: seq<Claim>)
      reads table, Objects()
    {
      && |claims| <= table.Length < TWO_TO_64
      && (forall i :: 0 <= i < |claims| ==> table[i] != null && table[i].Value() == claims[i])
      && (forall i, j :: 0 <= i < j < |claims| ==> table[i] != table[j])
      && (forall i :: |claims| <= i < table.Length ==> table[i] == null)
    }

    // A group lists the given slots, in order, by the table's own objects.
    ghost predicate GroupHolds(kind: Kind, indices: seq<nat>)
      reads this`groups, table
    {
      && |Group(kind)| == |indices|
      && forall j :: 0 <= j < |indices| ==>
           && indices[j] < table.Length
           && indices[j] < TWO_TO_64
           && Group(kind)[j].claimable == table[indices[j]]
           && Group(kind)[j].key == Key(indices[j])
    }

    ghost predicate GroupsHold(slots: seq<Slot>)
      reads this`groups, table
    {
      forall kind :: GroupHolds(kind, IndicesOf(slots, kind))
    }

    // What is built is what the layout says, slot for slot.
    ghost predicate Valid()
      reads this, table, Objects()
    {
      && AllBuild(cfg, slots)
      && currentIndex == |slots|
      && TableHolds(ClaimsOf(cfg, slots))
      && applications == ApplicationsOf(cfg, slots)
      && validators == ValidatorsOf(cfg, slots)
      && accounts == AccountsOf(cfg, slots)
      && GroupsHold(slots)
    }

    method NextAllAccountsIndex() returns (index: Uint64)
      modifies this`currentIndex
      ensures index == old(currentIndex) && currentIndex == (index + 1) % TWO_TO_64
    {
      currentIndex := (currentIndex + 1) % TWO_TO_64;
      index := (currentIndex - 1) % TWO_TO_64;
    }

    // The last step of every addition: the fixture joins its group.
    method JoinGroup(kind: Kind, ghost actorIndex: nat, claimable: ClaimableAccount, index: Uint64)
      requires index == |slots| < table.Length && table[index] == claimable && GroupsHold(slots)
      modifies this`groups, this`slots
      ensures slots == old(slots) + [Slot(kind, actorIndex)] && GroupsHold(slots)
    {
      groups := groups[kind := Group(kind) + [Fixture(claimable, Key(index))]];
      slots := slots + [Slot(kind, actorIndex)];
      IndicesSnoc(old(slots), Slot(kind, actorIndex));
      hide IndicesOf;
    }

    // What leaves the table and its objects alone leaves the claims as they are.
    twostate lemma TableStays(claims: seq<Claim>)
      requires old(TableHolds(claims))
      requires forall i :: 0 <= i < table.Length ==> table[i] == old(table[i])
      requires forall o <- old(Objects()) :: o.Value() == old(o.Value())
      ensures TableHolds(claims)
    {
    }

    // Writing one object into the next entry, and nothing else, adds its claim to the table.
    twostate lemma TableGrows(claims: seq<Claim>)
      requires old(TableHolds(claims)) && |claims| < table.Length
      requires forall i :: 0 <= i < table.Length && i != |claims| ==> table[i] == old(table[i])
      requires forall o <- old(Objects()) :: o.Value() == old(o.Value())
      requires table[|claims|] != null && forall i :: 0 <= i < table.Length ==> old(table[i]) != table[|claims|]
      ensures TableHolds(claims + [table[|claims|].Value()])
    {
    }

    // And every group keeps its members, which were written before.
    twostate lemma GroupsStay(i: nat)
      requires i < table.Length && old(table[i]) == null && old(GroupsHold(slots))
      requires forall k :: 0 <= k < table.Length && k != i ==> table[k] == old(table[k])
      requires groups == old(groups) && slots == old(slots)
      ensures GroupsHold(slots)
    {
      hide IndicesOf;
    }

    // The export grows too: once slot s is written, exported and grouped, all is well.
    lemma Grows(was: seq<Slot>, s: Slot)
      requires AllBuild(cfg, was) && |was| < table.Length < TWO_TO_64 && Builds(cfg, |was|, s)
      requires slots == was + [s] && currentIndex == |slots|
      requires TableHolds(ClaimsOf(cfg, was) + [ClaimOf(cfg, |was|, s)])
      requires GroupsHold(slots)
      requires applications == ApplicationsOf(cfg, was) + ApplicationsFrom(cfg, |was|, s)
      requires validators == ValidatorsOf(cfg, was) + ValidatorsFrom(cfg, |was|, s)
      requires accounts == AccountsOf(cfg, was) + AccountsFrom(cfg, |was|, s)
      ensures Valid()
    {
      LayoutSnoc(cfg, was, s);
      hide GroupsHold, TableHolds, Builds, ClaimOf, ApplicationsFrom, ValidatorsFrom, AccountsFrom, AllBuild,
           ClaimsOf, ApplicationsOf, ValidatorsOf, AccountsOf;
    }

    // Where the next slot goes.
    lemma NextSlot()
      requires Valid()
      ensures AllBuild(cfg, slots) && currentIndex == |slots| <= table.Length < TWO_TO_64
      ensures TableHolds(ClaimsOf(cfg, slots)) && GroupsHold(slots)
      ensures |slots| < table.Length ==> table[|slots|] == null
      ensures applications == ApplicationsOf(cfg, slots) && validators == ValidatorsOf(cfg, slots)
      ensures accounts == AccountsOf(cfg, slots)
    {
    }

    // Exports an account and makes its claimable account; none where the source panics.
    method ExportAccount(index: Uint64, actorIndex: nat, t: UnstakedType) returns (claimable: ClaimableAccount?)
      modifies this`accounts
      ensures claimable != null <==> Builds(cfg, index, Slot(Account(t), actorIndex))
      ensures claimable != null ==>
                fresh(claimable) && claimable.Value() == ClaimOf(cfg, index, Slot(Account(t), actorIndex))
      ensures claimable != null ==> accounts == old(accounts) + AccountsFrom(cfg, index, Slot(Account(t), actorIndex))
    {
      var address := AddressOf(index, t);
      var accountType := Unnamed;
      if t == ModuleAccount {
        if cfg.moduleNameFn.None? {
          return null;
        }
        accountType := Module((cfg.moduleNameFn.value)(index, actorIndex));
      } else if t != NonCustodialOwner {   // an owner's account is left without a type
        accountType := ExternallyOwned;
      }
      if cfg.balanceFn.None? {
        return null;
      }
      var balance := (cfg.balanceFn.value)(index, actorIndex, t);
      if balance < 0 {   // the coin set panics
        return null;
      }
      var coins := NewCoins(balance);
      accounts := accounts + [AuthAccount(accountType, address, coins)];
      if |coins| == 0 {   // there is no first coin
        return null;
      }
      claimable := new ClaimableAccount(address, coins[0], 0, 0);
    }

    method AddAccount(actorIndex: nat, t: UnstakedType) returns (ok: bool)
      requires Valid()
      modifies this, table
      ensures ok <==> |old(slots)| < table.Length && Builds(cfg, |old(slots)|, Slot(Account(t), actorIndex))
      ensures ok ==> Valid() && slots == old(slots) + [Slot(Account(t), actorIndex)]
      ensures ok ==> fresh(table[|old(slots)|]) && forall i :: 0 <= i < |old(slots)| ==> table[i] == old(table[i])
    {
      NextSlot();
      ghost var was := ClaimsOf(cfg, slots);
      hide AllBuild, ClaimsOf, ApplicationsOf, ValidatorsOf, AccountsOf, TableHolds, GroupsHold, Valid, Group, Builds,
           ClaimOf, AccountsFrom;
      var index := NextAllAccountsIndex();
      var claimable := ExportAccount(index, actorIndex, t);
      if claimable == null || index >= table.Length {
        return false;
      }
      table[index] := claimable;
      TableGrows(was);
      GroupsStay(index);
      JoinGroup(Account(t), actorIndex, claimable, index);
      Grows(old(slots), Slot(Account(t), actorIndex));
      return true;
    }

    // The unstaked side of a staked actor: an exported account, and the balance written
    // into the object already in the table.
    method AddUnstakedAccountForStakedActor(i: Uint64, unstaked: int) returns (ok: bool)
      requires i < table.Length && table[i] != null
      modifies this`accounts, table[i]
      ensures ok <==> unstaked >= 0
      ensures ok ==> accounts == old(accounts) + [AuthAccount(ExternallyOwned, Derived(Key(i)), NewCoins(unstaked))]
      ensures ok ==> table[i].Value() == old(table[i].Value()).(unstaked := unstaked)
    {
      if unstaked < 0 {   // the coin set panics
        return false;
      }
      accounts := accounts + [AuthAccount(ExternallyOwned, Derived(Key(i)), NewCoins(unstaked))];
      table[i].unstaked := unstaked;
      return true;
    }

    // Slot s has been exported as a staked actor, and its claimable account made; nothing
    // else of it is in place yet.
    ghost predicate Exported(s: Slot, claimable: ClaimableAccount)
      reads this, table, Objects(), claimable
    {
      && AllBuild(cfg, slots) && |slots| < table.Length < TWO_TO_64 && currentIndex == |slots| + 1
      && TableHolds(ClaimsOf(cfg, slots)) && GroupsHold(slots)
      && (forall i :: 0 <= i < table.Length ==> table[i] != claimable)
      && accounts == AccountsOf(cfg, slots)
      && (Builds(cfg, |slots|, s) ==>
            && claimable.Value() == ClaimOf(cfg, |slots|, s).(unstaked := 0)
            && applications == ApplicationsOf(cfg, slots) + ApplicationsFrom(cfg, |slots|, s)
            && validators == ValidatorsOf(cfg, slots) + ValidatorsFrom(cfg, |slots|, s))
    }

    // Writes a staked actor's entry, and its unstaked side unless it is orphaned.
    method AddStakedActor(s: Slot, claimable: ClaimableAccount, i: Uint64, unstaked: int) returns (ok: bool)
      requires !s.kind.Account? && i == |slots| && Exported(s, claimable)
      requires Builds(cfg, i, s) <==> IsOrphaned(s.kind) || unstaked >= 0
      requires Builds(cfg, i, s) ==> unstaked == BalancesOf(cfg, i, s).unstaked
      modifies table, claimable, this`accounts, this`groups, this`slots
      ensures ok <==> Builds(cfg, i, s)
      ensures table[i] == claimable && forall k :: 0 <= k < table.Length && k != i ==> table[k] == old(table[k])
      ensures ok ==> Valid() && slots == old(slots) + [s]
    {
      ghost var was := ClaimsOf(cfg, slots);
      assert table[i] == null;
      hide TableHolds, GroupsHold, Builds, AllBuild, ClaimOf, ClaimsOf, ApplicationsOf, ValidatorsOf, AccountsOf,
           AccountsFrom, ApplicationsFrom, ValidatorsFrom, BalancesOf;
      table[i] := claimable;
      if !IsOrphaned(s.kind) {
        ok := AddUnstakedAccountForStakedActor(i, unstaked);
        if !ok {
          return false;
        }
      }
      UnstakedSide(cfg, i, s);
      TableGrows(was);
      GroupsStay(i);
      JoinGroup(s.kind, s.actorIndex, claimable, i);
      Grows(old(slots), s);
      return true;
    }

    // Exports an application and makes its claimable account, still without the unstaked
    // balance, which is returned beside it.
    method ExportApplication(index: Uint64, actorIndex: nat, t: StakedType)
        returns (claimable: ClaimableAccount?, unstaked: int)
      modifies this`applications
      ensures claimable != null && (t != Orphaned ==> unstaked >= 0) <==>
              Builds(cfg, index, Slot(Application(t), actorIndex))
      ensures claimable != null ==> fresh(claimable)
      ensures claimable != null && (t != Orphaned ==> unstaked >= 0) ==>
                var s := Slot(Application(t), actorIndex);
                && unstaked == BalancesOf(cfg, index, s).unstaked
                && claimable.Value() == ClaimOf(cfg, index, s).(unstaked := 0)
                && applications == old(applications) + ApplicationsFrom(cfg, index, s)
      ensures claimable != null && (t == Unbonding || t == Unbonded) ==>
                cfg.applicationTimeFn.Some? &&
                claimable.unstakingTime == (cfg.applicationTimeFn.value)(index, actorIndex, t)
      ensures claimable != null && t != Unbonding && t != Unbonded ==> claimable.unstakingTime == 0
    {
      hide Decimal.Print, Decimal.ParseInt64;
      if cfg.applicationFn.None? {
        return null, 0;
      }
      var balances := (cfg.applicationFn.value)(index, actorIndex, t);
      if !IsInt64(balances.staked) {
        return null, 0;
      }
      var application := StakedActor(Derived(Key(index)), Decimal.Print(balances.staked));
      applications := applications + [application];
      Decimal.ParseReadsPrint(balances.staked);
      var stake := Decimal.ParseInt64(application.stakedTokens);
      if stake.None? {
        return null, 0;
      }
      claimable := new ClaimableAccount(application.address, 0, stake.value, 0);
      if t == Unbonding || t == Unbonded {
        if cfg.applicationTimeFn.None? {
          return null, 0;
        }
        claimable.unstakingTime := (cfg.applicationTimeFn.value)(index, actorIndex, t);
      }
      unstaked := balances.unstaked;
    }

    // Likewise a validator; the slot before a non-custodial one is taken for its owner's.
    method ExportValidator(index: Uint64, actorIndex: nat, t: StakedType)
        returns (claimable: ClaimableAccount?, unstaked: int)
      modifies this`validators
      ensures claimable != null && (t != Orphaned ==> unstaked >= 0) <==>
              Builds(cfg, index, Slot(Validator(t), actorIndex))
      ensures claimable != null ==> fresh(claimable)
      ensures claimable != null && (t != Orphaned ==> unstaked >= 0) ==>
                var s := Slot(Validator(t), actorIndex);
                && unstaked == BalancesOf(cfg, index, s).unstaked
                && claimable.Value() == ClaimOf(cfg, index, s).(unstaked := 0)
                && validators == old(validators) + ValidatorsFrom(cfg, index, s)
      ensures claimable != null && (t == Unbonding || t == Unbonded) ==>
                cfg.validatorTimeFn.Some? &&
                claimable.unstakingTime == (cfg.validatorTimeFn.value)(index, actorIndex, t)
      ensures claimable != null && t != Unbonding && t != Unbonded ==> claimable.unstakingTime == 0
    {
      hide Decimal.Print, Decimal.ParseInt64;
      if cfg.validatorFn.None? {
        return null, 0;
      }
      var balances := (cfg.validatorFn.value)(index, actorIndex, t);
      if !IsInt64(balances.staked) {
        return null, 0;
      }
      var validator := StakedActor(Derived(Key(index)), Decimal.Print(balances.staked));
      validators := validators + [validator];
      Decimal.ParseReadsPrint(balances.staked);
      var stake := Decimal.ParseInt64(validator.stakedTokens);
      if stake.None? {
        return null, 0;
      }
      claimable := new ClaimableAccount(validator.address, 0, 0, stake.value);
      match t {
        case Standard | Orphaned =>
        case NonCustodial =>
          claimable.output := Some(Derived(Key((index - 1) % TWO_TO_64)));
        case Unbonding | Unbonded =>
          if cfg.validatorTimeFn.None? {
            return null, 0;
          }
          claimable.unstakingTime := (cfg.validatorTimeFn.value)(index, actorIndex, t);
      }
      unstaked := balances.unstaked;
    }

    method AddApplication(actorIndex: nat, t: StakedType) returns (ok: bool)
      requires Valid()
      modifies this, table
      ensures ok <==> |old(slots)| < table.Length && Builds(cfg, |old(slots)|, Slot(Application(t), actorIndex))
      ensures ok ==> Valid() && slots == old(slots) + [Slot(Application(t), actorIndex)]
      ensures ok ==> fresh(table[|old(slots)|]) && forall i :: 0 <= i < |old(slots)| ==> table[i] == old(table[i])
    {
      NextSlot();
      hide AllBuild, ClaimsOf, ApplicationsOf, ValidatorsOf, AccountsOf, TableHolds, GroupsHold, Valid, Group, Builds,
           ClaimOf, BalancesOf;
      var index := NextAllAccountsIndex();
      var claimable, unstaked := ExportApplication(index, actorIndex, t);
      if claimable == null || index >= table.Length {
        return false;
      }
      assert TableHolds(ClaimsOf(cfg, slots)) by {
        TableStays(ClaimsOf(cfg, slots));
      }
      ok := AddStakedActor(Slot(Application(t), actorIndex), claimable, index, unstaked);
    }

    method AddValidator(actorIndex: nat, t: StakedType) returns (ok: bool)
      requires Valid()
      modifies this, table
      ensures ok <==> |old(slots)| < table.Length && Builds(cfg, |old(slots)|, Slot(Validator(t), actorIndex))
      ensures ok ==> Valid() && slots == old(slots) + [Slot(Validator(t), actorIndex)]
      ensures ok ==> fresh(table[|old(slots)|]) && forall i :: 0 <= i < |old(slots)| ==> table[i] == old(table[i])
    {
      NextSlot();
      hide AllBuild, ClaimsOf, ApplicationsOf, ValidatorsOf, AccountsOf, TableHolds, GroupsHold, Valid, Group, Builds,
           ClaimOf, BalancesOf;
      var index := NextAllAccountsIndex();
      var claimable, unstaked := ExportValidator(index, actorIndex, t);
      if claimable == null || index >= table.Length {
        return false;
      }
      assert TableHolds(ClaimsOf(cfg, slots)) by {
        TableStays(ClaimsOf(cfg, slots));
      }
      ok := AddStakedActor(Slot(Validator(t), actorIndex), claimable, index, unstaked);
    }

    // The table has room for these slots, and each of them can be built.
    ghost predicate Room(slots: seq<Slot>) {
      |slots| <= table.Length && AllBuild(cfg, slots)
    }

    lemma RoomShrinks(a: seq<Slot>, b: seq<Slot>, rest: seq<Slot>)
      ensures Room(a + (b + rest)) ==> Room(a + b)
    {
      hide Builds;
      assert a + (b + rest) == (a + b) + rest;
      assert forall i :: 0 <= i < |a + b| ==> ((a + b) + rest)[i] == (a + b)[i];
    }

    lemma RoomForOne(s: Slot)
      requires Valid()
      ensures Room(slots + [s]) <==> |slots| < table.Length && Builds(cfg, |slots|, s)
    {
      hide Builds, Valid;
      NextSlot();
      if Room(slots + [s]) {
        assert (slots + [s])[|slots|] == s;
      }
    }

    // One round of the loops that add n actors of a kind, or n pairs.
    lemma SeveralRound(start: seq<Slot>, kind: Kind, n: nat, i: nat)
      requires i < n
      ensures start + Several(kind, i) + [Slot(kind, i)] == start + Several(kind, i + 1)
      ensures Room(start + Several(kind, n)) ==> Room(start + Several(kind, i + 1))
    {
      hide Room;
      assert Several(kind, n) == Several(kind, i + 1) + Several(kind, n)[i + 1..];
      RoomShrinks(start, Several(kind, i + 1), Several(kind, n)[i + 1..]);
    }

    lemma PairsRound(start: seq<Slot>, n: nat, i: nat)
      requires i < n
      ensures var owner, validator := Slot(Account(NonCustodialOwner), i), Slot(Validator(NonCustodial), i);
              && start + Pairs(i) + [owner] + [validator] == start + Pairs(i + 1)
              && (Room(start + Pairs(n)) ==> Room(start + Pairs(i + 1)) && Room(start + Pairs(i) + [owner]))
    {
      hide Room;
      var owner, validator := Slot(Account(NonCustodialOwner), i), Slot(Validator(NonCustodial), i);
      RoomShrinks(start, Pairs(i + 1), PairsSplit(n, i + 1));
      RoomShrinks(start + Pairs(i), [owner], [validator]);
      assert start + Pairs(i) + ([owner] + [validator]) == start + Pairs(i + 1);
    }

    method Add(s: Slot) returns (ok: bool)
      requires Valid()
      modifies this, table
      ensures ok <==> Room(old(slots) + [s])
      ensures ok ==> Valid() && slots == old(slots) + [s]
    {
      RoomForOne(s);
      hide Builds, Valid, Room;
      match s.kind
      case Account(t) => ok := AddAccount(s.actorIndex, t);
      case Application(t) => ok := AddApplication(s.actorIndex, t);
      case Validator(t) => ok := AddValidator(s.actorIndex, t);
    }

    // One of the loops: n actors of a kind.
    method AddSeveral(kind: Kind, n: nat) returns (ok: bool)
      requires Valid()
      modifies this, table
      ensures ok <==> Room(old(slots) + Several(kind, n))
      ensures ok ==> Valid() && slots == old(slots) + Several(kind, n)
    {
      NextSlot();
      assert Room(slots) && slots + Several(kind, 0) == slots;
      hide Builds, Valid, Room, Several;
      for i := 0 to n
        invariant Valid() && slots == old(slots) + Several(kind, i) && Room(slots)
      {
        SeveralRound(old(slots), kind, n, i);
        ok := Add(Slot(kind, i));
        if !ok {
          return false;
        }
      }
      return true;
    }

    // Each owner is added right before its validator.
    method AddNonCustodial(n: nat) returns (ok: bool)
      requires Valid()
      modifies this, table
      ensures ok <==> Room(old(slots) + Pairs(n))
      ensures ok ==> Valid() && slots == old(slots) + Pairs(n)
    {
      NextSlot();
      assert Room(slots) && slots + Pairs(0) == slots;
      hide Builds, Valid, Room, Pairs;
      for i := 0 to n
        invariant Valid() && slots == old(slots) + Pairs(i) && Room(slots)
      {
        PairsRound(old(slots), n, i);
        ok := Add(Slot(Account(NonCustodialOwner), i));
        if !ok {
          return false;
        }
        ok := Add(Slot(Validator(NonCustodial), i));
        if !ok {
          return false;
        }
      }
      return true;
    }

    lemma RoomPrefix(a: seq<Slot>, b: seq<Slot>)
      ensures Room(a + b) ==> Room(a)
    {
      RoomShrinks([], a, b);
      assert [] + (a + b) == a + b && [] + a == a;
    }

    // The fourteen loops, in three sections.
    method GenerateAccounts() returns (ok: bool)
      requires Valid()
      modifies this, table
      ensures ok <==> Room(old(slots) + AccountSlots(cfg))
      ensures ok ==> Valid() && slots == old(slots) + AccountSlots(cfg)
    {
      ghost var a := slots + Several(Account(EOA), cfg.numAccountsValid);
      ghost var b := a + Several(Account(ModuleAccount), cfg.numModuleAccounts);
      ghost var c := b + Several(Account(InvalidTooShort), cfg.numAddressTooShort);
      ghost var d := c + Several(Account(InvalidTooLong), cfg.numAddressTooLong);
      ghost var e := d + Several(Account(NonHexAddress), cfg.numNonHexAddress);
      RoomPrefix(a, Several(Account(ModuleAccount), cfg.numModuleAccounts));
      RoomPrefix(b, Several(Account(InvalidTooShort), cfg.numAddressTooShort));
      RoomPrefix(c, Several(Account(InvalidTooLong), cfg.numAddressTooLong));
      RoomPrefix(d, Several(Account(NonHexAddress), cfg.numNonHexAddress));
      assert e == slots + AccountSlots(cfg);
      hide Valid, Room, Several, Pairs, AccountSlots;
      ok := AddSeveral(Account(EOA), cfg.numAccountsValid);
      if !ok {
        return false;
      }
      ok := AddSeveral(Account(ModuleAccount), cfg.numModuleAccounts);
      if !ok {
        return false;
      }
      ok := AddSeveral(Account(InvalidTooShort), cfg.numAddressTooShort);
      if !ok {
        return false;
      }
      ok := AddSeveral(Account(InvalidTooLong), cfg.numAddressTooLong);
      if !ok {
        return false;
      }
      ok := AddSeveral(Account(NonHexAddress), cfg.numNonHexAddress);
    }

    method GenerateApplications() returns (ok: bool)
      requires Valid()
      modifies this, table
      ensures ok <==> Room(old(slots) + ApplicationSlots(cfg))
      ensures ok ==> Valid() && slots == old(slots) + ApplicationSlots(cfg)
    {
      ghost var a := slots + Several(Application(Standard), cfg.numApplicationsValid);
      ghost var b := a + Several(Application(Orphaned), cfg.numApplicationsOrphaned);
      ghost var c := b + Several(Application(Unbonding), cfg.numApplicationsUnbondingBegan);
      ghost var d := c + Several(Application(Unbonded), cfg.numApplicationsUnbondingEnded);
      RoomPrefix(a, Several(Application(Orphaned), cfg.numApplicationsOrphaned));
      RoomPrefix(b, Several(Application(Unbonding), cfg.numApplicationsUnbondingBegan));
      RoomPrefix(c, Several(Application(Unbonded), cfg.numApplicationsUnbondingEnded));
      assert d == slots + ApplicationSlots(cfg);
      hide Valid, Room, Several, Pairs, ApplicationSlots;
      ok := AddSeveral(Application(Standard), cfg.numApplicationsValid);
      if !ok {
        return false;
      }
      ok := AddSeveral(Application(Orphaned), cfg.numApplicationsOrphaned);
      if !ok {
        return false;
      }
      ok := AddSeveral(Application(Unbonding), cfg.numApplicationsUnbondingBegan);
      if !ok {
        return false;
      }
      ok := AddSeveral(Application(Unbonded), cfg.numApplicationsUnbondingEnded);
    }

    method GenerateValidators() returns (ok: bool)
      requires Valid()
      modifies this, table
      ensures ok <==> Room(old(slots) + ValidatorSlots(cfg))
      ensures ok ==> Valid() && slots == old(slots) + ValidatorSlots(cfg)
    {
      ghost var a := slots + Several(Validator(Standard), cfg.numValidatorsValid);
      ghost var b := a + Several(Validator(Orphaned), cfg.numValidatorsOrphaned);
      ghost var c := b + Pairs(cfg.numNonCustodialValidators);
      ghost var d := c + Several(Validator(Unbonding), cfg.numValidatorsUnbondingBegan);
      ghost var e := d + Several(Validator(Unbonded), cfg.numValidatorsUnbondingEnded);
      RoomPrefix(a, Several(Validator(Orphaned), cfg.numValidatorsOrphaned));
      RoomPrefix(b, Pairs(cfg.numNonCustodialValidators));
      RoomPrefix(c, Several(Validator(Unbonding), cfg.numValidatorsUnbondingBegan));
      RoomPrefix(d, Several(Validator(Unbonded), cfg.numValidatorsUnbondingEnded));
      assert e == slots + ValidatorSlots(cfg);
      hide Valid, Room, Several, Pairs, ValidatorSlots;
      ok := AddSeveral(Validator(Standard), cfg.numValidatorsValid);
      if !ok {
        return false;
      }
      ok := AddSeveral(Validator(Orphaned), cfg.numValidatorsOrphaned);
      if !ok {
        return false;
      }
      ok := AddNonCustodial(cfg.numNonCustodialValidators);
      if !ok {
        return false;
      }
      ok := AddSeveral(Validator(Unbonding), cfg.numValidatorsUnbondingBegan);
      if !ok {
        return false;
      }
      ok := AddSeveral(Validator(Unbonded), cfg.numValidatorsUnbondingEnded);
    }

    method Generate() returns (ok: bool)
      requires Valid() && slots == []
      modifies this, table
      ensures ok <==> Room(Layout(cfg))
      ensures ok ==> Valid() && slots == Layout(cfg)
    {
      RoomPrefix(AccountSlots(cfg), ApplicationSlots(cfg));
      RoomPrefix(AccountSlots(cfg) + ApplicationSlots(cfg), ValidatorSlots(cfg));
      assert [] + AccountSlots(cfg) == AccountSlots(cfg);
      assert Layout(cfg) == AccountSlots(cfg) + ApplicationSlots(cfg) + ValidatorSlots(cfg);
      hide Valid, Room, AccountSlots, ApplicationSlots, ValidatorSlots, Layout;
      ok := GenerateAccounts();
      if !ok {
        return false;
      }
      ok := GenerateApplications();
      if !ok {
        return false;
      }
      ok := GenerateValidators();
    }

    // --- What holds of a valid object ---------------------------------------------------

    // What the written entries say.
    ghost function Claims(n: nat): (claims: seq<Claim>)
      requires n <= table.Length && forall i :: 0 <= i < n ==> table[i] != null
      reads table, Objects()
      ensures |claims| == n && forall i :: 0 <= i < n ==> claims[i] == table[i].Value()
    {
      if n == 0 then []
      else
        assert table[n - 1] in Objects();
        Claims(n - 1) + [table[n - 1].Value()]
    }

    // The tokens of the export are the tokens to be claimed.
    lemma TokensConserved()
      requires Valid()
      ensures |slots| <= table.Length && forall i :: 0 <= i < |slots| ==> table[i] != null
      ensures Conserved(Claims(|slots|), applications, validators, accounts)
    {
      Conservation(cfg, slots);
      hide Conserved, AllBuild;
      assert Claims(|slots|) == ClaimsOf(cfg, slots);
    }

    // A group has as many members as there are slots of its kind.
    lemma GroupSized(kind: Kind)
      requires Valid()
      ensures |Group(kind)| == CountOf(slots, kind)
    {
      assert GroupHolds(kind, IndicesOf(slots, kind));
    }

    // Every written entry is in its group, by its own object.
    lemma EntryIsGrouped(i: nat)
      requires Valid() && i < |slots|
      ensures exists j :: 0 <= j < |Group(slots[i].kind)| && Group(slots[i].kind)[j] == Fixture(table[i], Key(i))
    {
      var indices := IndicesOf(slots, slots[i].kind);
      IndicesExact(slots, slots[i].kind);
      hide IndicesOf, AllBuild, Group, ClaimsOf, ApplicationsOf, ValidatorsOf, AccountsOf;
      var j :| 0 <= j < |indices| && indices[j] == i;
      assert GroupHolds(slots[i].kind, indices);
      assert Group(slots[i].kind)[j] == Fixture(table[i], Key(i));
    }

    // And every member of a group is an entry of that kind.
    lemma MemberIsEntry(kind: Kind, j: nat) returns (i: nat)
      requires Valid() && j < |Group(kind)|
      ensures j < |IndicesOf(slots, kind)| && i == IndicesOf(slots, kind)[j]
      ensures i < |slots| && slots[i].kind == kind && Group(kind)[j] == Fixture(table[i], Key(i))
    {
      IndicesExact(slots, kind);
      hide IndicesOf, AllBuild, Group, ClaimsOf, ApplicationsOf, ValidatorsOf, AccountsOf;
      assert GroupHolds(kind, IndicesOf(slots, kind));
      i := IndicesOf(slots, kind)[j];
      assert i in IndicesOf(slots, kind);
    }

    // No object is in two places, so the groups partition the written entries.
    lemma MembersDiffer(kind: Kind, j: nat, other: Kind, k: nat)
      requires Valid() && j < |Group(kind)| && k < |Group(other)|
      requires Group(kind)[j].claimable == Group(other)[k].claimable
      ensures kind == other && j == k
    {
      var i := MemberIsEntry(kind, j);
      var l := MemberIsEntry(other, k);
      IndicesExact(slots, kind);
      hide IndicesOf, AllBuild, Group, ClaimsOf, ApplicationsOf, ValidatorsOf, AccountsOf;
      assert table[i] == table[l];
      assert i == l;
    }

    // Each non-custodial validator is paid to its owner, number for number.
    lemma OwnersArePaid(j: nat)
      requires Valid() && slots == Layout(cfg) && j < cfg.numNonCustodialValidators
      ensures j < |Group(Account(NonCustodialOwner))| && j < |Group(Validator(NonCustodial))|
      ensures Group(Validator(NonCustodial))[j].claimable.output ==
              Some(Group(Account(NonCustodialOwner))[j].claimable.src)
    {
      hide Valid, Layout, IndicesOf, Group;
      LayoutOwnersMatch(cfg);
      GroupSized(Account(NonCustodialOwner));
      GroupSized(Validator(NonCustodial));
      var owner := MemberIsEntry(Account(NonCustodialOwner), j);
      var validator := MemberIsEntry(Validator(NonCustodial), j);
      OwnerEntryPrecedes(validator);
    }

    // A non-custodial validator is paid to the account in the entry before its own.
    lemma OwnerEntryPrecedes(i: nat)
      requires Valid() && slots == Layout(cfg) && i < |slots| && slots[i].kind == Validator(NonCustodial)
      ensures i > 0 && slots[i - 1] == Slot(Account(NonCustodialOwner), slots[i].actorIndex)
      ensures i < table.Length && table[i - 1] != null && table[i] != null && table[i].output == Some(table[i - 1].src)
    {
      OwnerIsPaid(cfg, i);
      ClaimAt(cfg, slots, i);
      ClaimAt(cfg, slots, i - 1);
      hide AllBuild, ClaimsOf, ClaimOf, Layout;
    }

    ghost predicate OwnersPaid()
      reads this`groups
      reads set f <- Group(Account(NonCustodialOwner)) :: f.claimable
      reads set f <- Group(Validator(NonCustodial)) :: f.claimable
    {
      var owners, validators := Group(Account(NonCustodialOwner)), Group(Validator(NonCustodial));
      && |owners| == |validators|
      && forall j :: 0 <= j < |owners| ==> validators[j].claimable.output == Some(owners[j].claimable.src)
    }

    // Every entry says what the configuration wants of its slot and stands in the export, and
    // nothing else does.
    ghost predicate EntriesTell()
      reads this, table, Objects()
    {
      && |slots| <= table.Length && |slots| < TWO_TO_64
      && |accounts| == |Listed(slots, Accounts)|
      && |applications| == |Listed(slots, Applications)|
      && |validators| == |Listed(slots, Validators)|
      && forall i :: 0 <= i < |slots| ==>
           && table[i] != null
           && AsConfigured(cfg, i, slots[i], table[i].Value())
           && InExport(cfg, slots, i, table[i].Value(), applications, validators, accounts)
    }

    lemma EntryTells(i: nat)
      requires Valid() && i < |slots|
      ensures i < table.Length && table[i] != null && i < TWO_TO_64
      ensures AsConfigured(cfg, i, slots[i], table[i].Value())
      ensures InExport(cfg, slots, i, table[i].Value(), applications, validators, accounts)
    {
      ClaimAt(cfg, slots, i);
      ClaimIsAsConfigured(cfg, i, slots[i]);
      SlotIsExported(cfg, slots, i);
      hide ClaimsOf, ApplicationsOf, ValidatorsOf, AccountsOf, ClaimOf, Builds, InExport, AsConfigured, GroupsHold;
    }

    lemma ValidEntriesTell()
      requires Valid()
      ensures EntriesTell()
    {
      NextSlot();
      ExportLengths(cfg, slots);
      hide Valid, AsConfigured, InExport, Listed, ApplicationsOf, ValidatorsOf, AccountsOf, TableHolds, GroupsHold;
      forall i | 0 <= i < |slots|
        ensures table[i] != null
        ensures AsConfigured(cfg, i, slots[i], table[i].Value())
        ensures InExport(cfg, slots, i, table[i].Value(), applications, validators, accounts)
      {
        EntryTells(i);
      }
    }

    // What complete fixtures are: the table is full, its slots come in the documented order,
    // the groups have the configured sizes, every entry says what is configured and stands in
    // the export, no tokens are lost or made up, and every non-custodial validator is paid to
    // its owner.
    ghost predicate Complete()
      reads this, table, Objects()
      reads set f <- Group(Account(NonCustodialOwner)) :: f.claimable
      reads set f <- Group(Validator(NonCustodial)) :: f.claimable
    {
      && currentIndex == GetTotalAccounts(cfg) == table.Length == SlotCount(cfg)
      && (forall i :: 0 <= i < table.Length ==> table[i] != null)
      && Arranged(slots, 0, 14)
      && (forall kind :: |Group(kind)| == Configured(cfg, kind))
      && EntriesTell()
      && Conserved(Claims(table.Length), applications, validators, accounts)
      && OwnersPaid()
    }

    lemma AllOwnersPaid()
      requires Valid() && slots == Layout(cfg)
      ensures OwnersPaid()
    {
      GroupSized(Account(NonCustodialOwner));
      GroupSized(Validator(NonCustodial));
      GroupSizes(cfg, Account(NonCustodialOwner));
      GroupSizes(cfg, Validator(NonCustodial));
      hide Valid, Layout, Group, CountOf;
      forall j | 0 <= j < cfg.numNonCustodialValidators
        ensures Group(Validator(NonCustodial))[j].claimable.output ==
                Some(Group(Account(NonCustodialOwner))[j].claimable.src)
      {
        OwnersArePaid(j);
      }
    }

    lemma AllGroupsSized()
      requires Valid() && slots == Layout(cfg)
      ensures forall kind :: |Group(kind)| == Configured(cfg, kind)
    {
      hide Valid, Layout, Group, CountOf, Configured;
      forall kind ensures |Group(kind)| == Configured(cfg, kind) {
        GroupSized(kind);
        GroupSizes(cfg, kind);
      }
    }

    lemma TableIsFull()
      requires Valid() && slots == Layout(cfg) && table.Length == GetTotalAccounts(cfg)
      ensures currentIndex == GetTotalAccounts(cfg) == table.Length == SlotCount(cfg) == |slots|
    {
      NextSlot();
      hide Valid, SlotCount, Layout;
    }

    lemma ValidIsComplete()
      requires Valid() && slots == Layout(cfg) && table.Length == GetTotalAccounts(cfg)
      ensures Complete()
    {
      TableIsFull();
      TokensConserved();
      AllOwnersPaid();
      AllGroupsSized();
      ValidEntriesTell();
      LayoutArranged(cfg);
      hide Valid, EntriesTell, Arranged, Layout, Group, Conserved, Configured, Claims, OwnersPaid,
           GetTotalAccounts, SlotCount;
    }
  }

  // The whole of it: fixtures come out exactly when the total fits 64 bits and every slot
  // can be built, and then they are complete.
  method NewMorseFixtures(cfg: Config) returns (fixtures: MigrationFixtures?)
    ensures fixtures != null <==> SlotCount(cfg) < TWO_TO_64 && AllBuild(cfg, Layout(cfg))
    ensures fixtures != null ==>
              fresh(fixtures) && fixtures.cfg == cfg && fixtures.Valid() && fixtures.slots == Layout(cfg)
    ensures fixtures != null ==> fixtures.Complete()
  {
    hide MigrationFixtures.Valid, MigrationFixtures.Complete;
    fixtures := new MigrationFixtures(cfg);
    var ok := fixtures.Generate();
    if !ok {
      return null;
    }
    fixtures.ValidIsComplete();
  }
}
