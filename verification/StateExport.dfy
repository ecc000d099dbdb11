/**
 * The index-driven generator of a Morse state export together with the claimable accounts
 * that should come of it.
 */
module StateExport {
  import opened MachineInts
  import opened Wrappers
  import opened MorseTypes
  import Decimal
  import Amounts

  datatype ActorType = Unstaked | Application | Supplier | Unknown(code: int)

  // Entry i can be generated: its type is known and its coins are not negative.
  predicate Generates(dist: Uint64 -> ActorType, i: Uint64) {
    && !dist(i).Unknown?
    && Amounts.UnstakedBalance(i) >= 0
    && (dist(i).Application? ==> Amounts.ApplicationStake(i) >= 0)
    && (dist(i).Supplier? ==> Amounts.SupplierStake(i) >= 0)
  }

  // What stops an entry, and nothing else does.
  lemma GeneratesUnless(dist: Uint64 -> ActorType, i: Uint64)
    ensures !Generates(dist, i) <==>
            || (dist(i) != Unstaked && dist(i) != Application && dist(i) != Supplier)
            || Amounts.UnstakedBalance(i) < 0
            || (dist(i) == Application && Amounts.ApplicationStake(i) < 0)
            || (dist(i) == Supplier && Amounts.SupplierStake(i) < 0)
  {
  }

  function ApplicationAt(i: Uint64): StakedActor {
    StakedActor(Derived(Key(i)), Decimal.Print(Amounts.ApplicationStake(i)))
  }

  function ValidatorAt(i: Uint64): StakedActor {
    StakedActor(Derived(Key(i)), Decimal.Print(Amounts.SupplierStake(i)))
  }

  function AccountAt(i: Uint64): AuthAccount {
    AuthAccount(ExternallyOwned, Derived(Key(i)), NewCoins(Amounts.UnstakedBalance(i)))
  }

  // How many of the first n entries are of the given type.
  function Count(dist: Uint64 -> ActorType, t: ActorType, n: nat): nat
    requires n <= MAX_INT64
  {
    if n == 0 then 0 else Count(dist, t, n - 1) + if dist(n - 1) == t then 1 else 0
  }

  // Entry i and the exports tell the same story.
  ghost predicate Agrees(dist: Uint64 -> ActorType, i: nat, claim: Claim,
                         applications: seq<StakedActor>, validators: seq<StakedActor>, accounts: seq<AuthAccount>)
    requires i < MAX_INT64
  {
    && claim.src == Derived(Key(i)) && claim.output == None && claim.unstakingTime == 0
    && claim.unstaked == Amounts.UnstakedBalance(i)
    && i < |accounts| && accounts[i].accountType == ExternallyOwned
    && accounts[i].address == claim.src && Sum(accounts[i].coins) == claim.unstaked
    && (if dist(i) == Application then
          var k := Count(dist, Application, i);
          && claim.applicationStake == Amounts.ApplicationStake(i)
          && k < |applications| && applications[k].address == claim.src
          && Decimal.ParseInt64(applications[k].stakedTokens) == Some(claim.applicationStake)
        else claim.applicationStake == 0)
    && (if dist(i) == Supplier then
          var k := Count(dist, Supplier, i);
          && claim.supplierStake == Amounts.SupplierStake(i)
          && k < |validators| && validators[k].address == claim.src
          && Decimal.ParseInt64(validators[k].stakedTokens) == Some(claim.supplierStake)
        else claim.supplierStake == 0)
  }

  lemma AmountsAreInt64(i: Uint64)
    ensures MIN_INT64 <= Amounts.ApplicationStake(i) <= MAX_INT64
    ensures MIN_INT64 <= Amounts.SupplierStake(i) <= MAX_INT64
  {
  }

  function ApplicationsOf(dist: Uint64 -> ActorType, n: nat): seq<StakedActor>
    requires n <= MAX_INT64
  {
    if n == 0 then []
    else ApplicationsOf(dist, n - 1) + if dist(n - 1) == Application then [ApplicationAt(n - 1)] else []
  }

  function ValidatorsOf(dist: Uint64 -> ActorType, n: nat): seq<StakedActor>
    requires n <= MAX_INT64
  {
    if n == 0 then []
    else ValidatorsOf(dist, n - 1) + if dist(n - 1) == Supplier then [ValidatorAt(n - 1)] else []
  }

  function AccountsOf(n: nat): (accounts: seq<AuthAccount>)
    requires n <= MAX_INT64
    ensures |accounts| == n
  {
    seq(n, i requires 0 <= i < n => AccountAt(i))
  }

  function ClaimAt(dist: Uint64 -> ActorType, i: Uint64): Claim {
    Claim(Derived(Key(i)), None, Amounts.UnstakedBalance(i),
          if dist(i).Application? then Amounts.ApplicationStake(i) else 0,
          if dist(i).Supplier? then Amounts.SupplierStake(i) else 0, 0)
  }

  // Entry i's actor stands in the export list at the place its type's count gives.
  lemma {:induction false} ListedAt(dist: Uint64 -> ActorType, n: nat, i: nat)
    requires i < n <= MAX_INT64
    ensures |ApplicationsOf(dist, n)| == Count(dist, Application, n)
    ensures |ValidatorsOf(dist, n)| == Count(dist, Supplier, n)
    ensures dist(i) == Application ==>
              Count(dist, Application, i) < |ApplicationsOf(dist, n)|
              && ApplicationsOf(dist, n)[Count(dist, Application, i)] == ApplicationAt(i)
    ensures dist(i) == Supplier ==>
              Count(dist, Supplier, i) < |ValidatorsOf(dist, n)|
              && ValidatorsOf(dist, n)[Count(dist, Supplier, i)] == ValidatorAt(i)
    decreases n
  {
    hide ApplicationAt, ValidatorAt;
    if n > 1 {
      ListedAt(dist, n - 1, if i < n - 1 then i else 0);
    }
  }

  lemma EntryAgrees(dist: Uint64 -> ActorType, n: nat, i: nat)
    requires i < n <= MAX_INT64
    ensures Agrees(dist, i, ClaimAt(dist, i), ApplicationsOf(dist, n), ValidatorsOf(dist, n), AccountsOf(n))
  {
    ListedAt(dist, n, i);
    ParsesBack(i);
    SumOfCoins(Amounts.UnstakedBalance(i));
    hide Decimal.ParseInt64, Decimal.Print, Sum, NewCoins, Amounts.UnstakedBalance, Amounts.ApplicationStake,
         Amounts.SupplierStake, ApplicationsOf, ValidatorsOf;
    assert AccountsOf(n)[i] == AccountAt(i);
  }

  lemma ParsesBack(i: Uint64)
    ensures Decimal.ParseInt64(ApplicationAt(i).stakedTokens) == Some(Amounts.ApplicationStake(i))
    ensures Decimal.ParseInt64(ValidatorAt(i).stakedTokens) == Some(Amounts.SupplierStake(i))
  {
    AmountsAreInt64(i);
    Decimal.ParseReadsPrint(Amounts.ApplicationStake(i));
    Decimal.ParseReadsPrint(Amounts.SupplierStake(i));
    hide Decimal.ParseInt64, Decimal.Print, Amounts.ApplicationStake, Amounts.SupplierStake;
  }

  method GenMorseClaimableAccount(i: Uint64, dist: Uint64 -> ActorType) returns (account: ClaimableAccount)
    requires Generates(dist, i)
    ensures fresh(account) && account.Value() == ClaimAt(dist, i)
  {
    var appStake, supplierStake := 0, 0;
    match dist(i) {
      case Unstaked =>
      case Application => appStake := Amounts.ApplicationStake(i);
      case Supplier => supplierStake := Amounts.SupplierStake(i);
    }
    account := new ClaimableAccount(Derived(Key(i)), Amounts.UnstakedBalance(i), appStake, supplierStake);
  }

  // Generates until it panics.  When it does not, everything it returns agrees entry by
  // entry, each claimable account an object of its own.
  method NewMorseStateExportAndAccountState(numAccounts: nat, dist: Uint64 -> ActorType)
    returns (ok: bool, applications: seq<StakedActor>, validators: seq<StakedActor>, accounts: seq<AuthAccount>,
             state: array<ClaimableAccount?>)
    requires numAccounts <= MAX_INT64
    ensures ok <==> forall i :: 0 <= i < numAccounts ==> Generates(dist, i)
    ensures ok ==> state.Length == numAccounts == |accounts|
    ensures ok ==> |applications| == Count(dist, Application, numAccounts)
    ensures ok ==> |validators| == Count(dist, Supplier, numAccounts)
    ensures ok ==> forall i :: 0 <= i < numAccounts ==>
                     && state[i] != null
                     && state[i].Value() == ClaimAt(dist, i)
                     && Agrees(dist, i, state[i].Value(), applications, validators, accounts)
    ensures ok ==> forall i, j :: 0 <= i < j < numAccounts ==> state[i] != state[j]
  {
    hide Agrees, Count, ApplicationAt, ValidatorAt, AccountAt, Amounts.UnstakedBalance, Amounts.ApplicationStake,
         Amounts.SupplierStake;
    applications, validators, accounts := [], [], [];
    state := new ClaimableAccount?[numAccounts](_ => null);
    for i := 0 to numAccounts
      invariant forall j :: 0 <= j < i ==> Generates(dist, j)
      invariant fresh(state) && accounts == AccountsOf(i)
      invariant applications == ApplicationsOf(dist, i) && validators == ValidatorsOf(dist, i)
      invariant forall j :: 0 <= j < i ==>
                  state[j] != null && fresh(state[j]) && state[j].Value() == ClaimAt(dist, j)
      invariant forall j, k :: 0 <= j < k < i ==> state[j] != state[k]
    {
      match dist(i) {
        case Unstaked =>
        case Application =>
          applications := applications + [ApplicationAt(i)];
        case Supplier =>
          validators := validators + [ValidatorAt(i)];
        case Unknown(_) =>
          assert !Generates(dist, i);
          ok := false;
          return;
      }
      if !Generates(dist, i) {   // a negative coin
        ok := false;
        return;
      }
      accounts := accounts + [AccountAt(i)];
      var account := GenMorseClaimableAccount(i, dist);
      state[i] := account;
    }
    ok := true;
    Lengths(dist, numAccounts);
    forall i | 0 <= i < numAccounts
      ensures Agrees(dist, i, ClaimAt(dist, i), applications, validators, accounts)
    {
      EntryAgrees(dist, numAccounts, i);
    }
  }

  lemma Lengths(dist: Uint64 -> ActorType, n: nat)
    requires n <= MAX_INT64
    ensures |ApplicationsOf(dist, n)| == Count(dist, Application, n)
    ensures |ValidatorsOf(dist, n)| == Count(dist, Supplier, n)
  {
    if n > 0 {
      ListedAt(dist, n, 0);
    }
  }
}
