/**
 Fees recorded per slot. `SlotFees` is the value of one entry of the index; class
 `SlotPriorityFees` is the entry the tracker updates in place.
 */
module FeeModel {
  import opened Sequences
  import opened SlotWindow

  type Pubkey = nat
  type Fee = nat

  datatype Version = LegacyV0 | V1

  datatype Fees = Fees(nonVote: seq<Fee>, vote: seq<Fee>) {
    function Add(fee: Fee, isVote: bool): Fees {
      if isVote then this.(vote := vote + [fee]) else this.(nonVote := nonVote + [fee])
    }

    /** What a query takes: vote fees first, when they are wanted at all. */
    function Collect(includeVote: bool): seq<Fee> {
      (if includeVote then vote else []) + nonVote
    }

    function Kind(isVote: bool): seq<Fee> {
      if isVote then vote else nonVote
    }
  }

  const NoFees := Fees([], [])

  function Single(fee: Fee, isVote: bool): Fees {
    if isVote then Fees([], [fee]) else Fees([fee], [])
  }

  function Lookup<K(==)>(m: map<K, Fees>, k: K): Fees {
    if k in m then m[k] else NoFees
  }

  datatype SlotFees = SlotFees(slot: Slot, fees: Fees, accounts: map<Pubkey, Fees>, versions: map<Version, Fees>) {
    function Account(a: Pubkey): Fees {
      Lookup(accounts, a)
    }

    function OfVersion(v: Version): Fees {
      Lookup(versions, v)
    }
  }

  /** Every account of a fresh slot gets the same one fee; repeats overwrite each other. */
  function FreshAccounts(accounts: seq<Pubkey>, fee: Fee, isVote: bool): map<Pubkey, Fees> {
    if accounts == [] then map[]
    else FreshAccounts(accounts[..|accounts|-1], fee, isVote)[accounts[|accounts|-1] := Single(fee, isVote)]
  }

  function FirstFee(slot: Slot, accounts: seq<Pubkey>, fee: Fee, isVote: bool, version: Version): SlotFees {
    SlotFees(slot, Single(fee, isVote), FreshAccounts(accounts, fee, isVote), map[version := Single(fee, isVote)])
  }

  function AddTo<K(==)>(m: map<K, Fees>, k: K, fee: Fee, isVote: bool): map<K, Fees> {
    m[k := if k in m then m[k].Add(fee, isVote) else Single(fee, isVote)]
  }

  /** Every occurrence of an account adds the fee once more. */
  function AddAccounts(m: map<Pubkey, Fees>, accounts: seq<Pubkey>, fee: Fee, isVote: bool): map<Pubkey, Fees> {
    if accounts == [] then m
    else AddTo(AddAccounts(m, accounts[..|accounts|-1], fee, isVote), accounts[|accounts|-1], fee, isVote)
  }

  function NextFee(s: SlotFees, accounts: seq<Pubkey>, fee: Fee, isVote: bool, version: Version): SlotFees {
    SlotFees(s.slot, s.fees.Add(fee, isVote), AddAccounts(s.accounts, accounts, fee, isVote), AddTo(s.versions, version, fee, isVote))
  }

  function Count<T(==)>(s: seq<T>, x: T): nat {
    if s == [] then 0 else Count(s[..|s|-1], x) + (if s[|s|-1] == x then 1 else 0)
  }

  lemma {:induction false} CountPositive<T>(s: seq<T>, x: T)
    ensures Count(s, x) > 0 <==> x in s
  {
    if s != [] {
      CountPositive(s[..|s|-1], x);
      assert s == s[..|s|-1] + [s[|s|-1]];
    }
  }

  lemma {:induction false} CountIsMultiplicity<T>(s: seq<T>, x: T)
    ensures Count(s, x) == multiset(s)[x]
  {
    if s != [] {
      CountIsMultiplicity(s[..|s|-1], x);
      assert s == s[..|s|-1] + [s[|s|-1]];
    }
  }

  function Repeat(s: seq<nat>, n: nat): seq<nat> {
    if n == 0 then [] else Repeat(s, n - 1) + s
  }

  lemma {:induction false} FreshAccountsAre(accounts: seq<Pubkey>, fee: Fee, isVote: bool)
    ensures var m := FreshAccounts(accounts, fee, isVote);
      m.Keys == Elements(accounts) && forall a :: a in m ==> m[a] == Single(fee, isVote)
  {
    if accounts != [] {
      var n := |accounts| - 1;
      FreshAccountsAre(accounts[..n], fee, isVote);
      assert Elements(accounts) == Elements(accounts[..n]) + {accounts[n]};
    }
  }

  lemma AddToIs<K>(m: map<K, Fees>, k: K, fee: Fee, isVote: bool)
    ensures AddTo(m, k, fee, isVote).Keys == m.Keys + {k}
    ensures forall j :: Lookup(AddTo(m, k, fee, isVote), j) == if j == k then Lookup(m, k).Add(fee, isVote) else Lookup(m, j)
  {
  }

  lemma AddToKinds(m: map<Pubkey, Fees>, k: Pubkey, fee: Fee, isVote: bool, a: Pubkey)
    ensures var r := Lookup(AddTo(m, k, fee, isVote), a);
      && r.Kind(isVote) == (if k == a then Lookup(m, a).Kind(isVote) + [fee] else Lookup(m, a).Kind(isVote))
      && r.Kind(!isVote) == Lookup(m, a).Kind(!isVote)
  {
    AddToIs(m, k, fee, isVote);
  }

  lemma RepeatMore(before: seq<nat>, part: seq<nat>, n: nat)
    ensures (before + Repeat(part, n)) + part == before + Repeat(part, n + 1)
  {
    assert Repeat(part, n + 1) == Repeat(part, n) + part;
  }

  lemma {:induction false} AddAccountsKeys(m: map<Pubkey, Fees>, accounts: seq<Pubkey>, fee: Fee, isVote: bool)
    ensures AddAccounts(m, accounts, fee, isVote).Keys == m.Keys + Elements(accounts)
  {
    if accounts != [] {
      var n := |accounts| - 1;
      AddAccountsKeys(m, accounts[..n], fee, isVote);
      assert Elements(accounts) == Elements(accounts[..n]) + {accounts[n]};
    }
  }

  lemma AddAccountsStep(m: map<Pubkey, Fees>, before: map<Pubkey, Fees>, k: Pubkey, fee: Fee, isVote: bool, a: Pubkey, n: nat)
    requires Lookup(before, a).Kind(isVote) == Lookup(m, a).Kind(isVote) + Repeat([fee], n)
    requires Lookup(before, a).Kind(!isVote) == Lookup(m, a).Kind(!isVote)
    ensures var r := Lookup(AddTo(before, k, fee, isVote), a);
      && r.Kind(isVote) == Lookup(m, a).Kind(isVote) + Repeat([fee], if k == a then n + 1 else n)
      && r.Kind(!isVote) == Lookup(m, a).Kind(!isVote)
  {
    AddToKinds(before, k, fee, isVote, a);
    RepeatMore(Lookup(m, a).Kind(isVote), [fee], n);
  }

  /** What a later push does to one account's lists: one more entry per occurrence, of the push's kind only. */
  lemma {:induction false} AddAccountsAre(m: map<Pubkey, Fees>, accounts: seq<Pubkey>, fee: Fee, isVote: bool, a: Pubkey)
    ensures var r := Lookup(AddAccounts(m, accounts, fee, isVote), a);
      && r.Kind(isVote) == Lookup(m, a).Kind(isVote) + Repeat([fee], Count(accounts, a))
      && r.Kind(!isVote) == Lookup(m, a).Kind(!isVote)
  {
    if accounts != [] {
      var n := |accounts| - 1;
      AddAccountsAre(m, accounts[..n], fee, isVote, a);
      AddAccountsStep(m, AddAccounts(m, accounts[..n], fee, isVote), accounts[n], fee, isVote, a, Count(accounts[..n], a));
    }
  }

  // ---------------------------------------------------------------- what every entry keeps

  /** The two version lists together are the slot's list, for votes and non-votes separately. */
  ghost predicate VersionsPartition(s: SlotFees) {
    forall isVote: bool ::
      multiset(s.fees.Kind(isVote)) == multiset(s.OfVersion(LegacyV0).Kind(isVote)) + multiset(s.OfVersion(V1).Kind(isVote))
  }

  /** An account's fees are among its slot's fees of the same kind. */
  ghost predicate AccountsWithinSlot(s: SlotFees) {
    forall a: Pubkey, isVote: bool, x: Fee :: x in s.Account(a).Kind(isVote) ==> x in s.fees.Kind(isVote)
  }

  ghost predicate GoodEntry(s: SlotFees) {
    && VersionsPartition(s)
    && AccountsWithinSlot(s)
    && |s.fees.Collect(true)| > 0
  }

  lemma {:induction false} RepeatMember(s: seq<nat>, n: nat, x: nat)
    ensures x in Repeat(s, n) <==> n > 0 && x in s
  {
    if n > 0 {
      RepeatMember(s, n - 1, x);
    }
  }

  lemma FirstFeeGood(slot: Slot, accounts: seq<Pubkey>, fee: Fee, isVote: bool, version: Version)
    ensures GoodEntry(FirstFee(slot, accounts, fee, isVote, version))
  {
    var s := FirstFee(slot, accounts, fee, isVote, version);
    forall a: Pubkey, kind: bool, x: Fee | x in s.Account(a).Kind(kind) ensures x in s.fees.Kind(kind) {
      FreshAccountsAre(accounts, fee, isVote);
      assert a in s.accounts;
    }
    assert VersionsPartition(s) by {
      assert s.OfVersion(version) == s.fees;
      assert s.OfVersion(if version == V1 then LegacyV0 else V1) == NoFees;
    }
  }

  lemma NextFeeGood(s: SlotFees, accounts: seq<Pubkey>, fee: Fee, isVote: bool, version: Version)
    requires GoodEntry(s)
    ensures GoodEntry(NextFee(s, accounts, fee, isVote, version))
  {
    var r := NextFee(s, accounts, fee, isVote, version);
    forall a: Pubkey, kind: bool, x: Fee | x in r.Account(a).Kind(kind) ensures x in r.fees.Kind(kind) {
      NextAccountWithin(s, accounts, fee, isVote, version, a, kind, x);
    }
    forall kind: bool ensures
      multiset(r.fees.Kind(kind)) == multiset(r.OfVersion(LegacyV0).Kind(kind)) + multiset(r.OfVersion(V1).Kind(kind))
    {
      assert multiset(s.fees.Kind(kind)) == multiset(s.OfVersion(LegacyV0).Kind(kind)) + multiset(s.OfVersion(V1).Kind(kind));
      VersionsStay(s.fees, s.versions, fee, isVote, version, kind);
    }
    assert |r.fees.Collect(true)| > |s.fees.Collect(true)|;
  }

  lemma VersionsStay(fees: Fees, versions: map<Version, Fees>, fee: Fee, isVote: bool, version: Version, kind: bool)
    requires multiset(fees.Kind(kind)) == multiset(Lookup(versions, LegacyV0).Kind(kind)) + multiset(Lookup(versions, V1).Kind(kind))
    ensures var after := AddTo(versions, version, fee, isVote);
      multiset(fees.Add(fee, isVote).Kind(kind)) == multiset(Lookup(after, LegacyV0).Kind(kind)) + multiset(Lookup(after, V1).Kind(kind))
  {
    AddToIs(versions, version, fee, isVote);
    if kind == isVote {
      assert Lookup(versions, version).Add(fee, isVote).Kind(kind) == Lookup(versions, version).Kind(kind) + [fee];
    }
  }

  lemma NextAccountWithin(s: SlotFees, accounts: seq<Pubkey>, fee: Fee, isVote: bool, version: Version, a: Pubkey, kind: bool, x: Fee)
    requires AccountsWithinSlot(s)
    requires x in NextFee(s, accounts, fee, isVote, version).Account(a).Kind(kind)
    ensures x in NextFee(s, accounts, fee, isVote, version).fees.Kind(kind)
  {
    AddAccountsAre(s.accounts, accounts, fee, isVote, a);
    RepeatMember([fee], Count(accounts, a), x);
    if x in s.Account(a).Kind(kind) {
      assert x in s.fees.Kind(kind);
    }
  }

  // ---------------------------------------------------------------- the entry updated in place

  class SlotPriorityFees {
    var slot: Slot
    var fees: Fees
    var accountFees: map<Pubkey, Fees>
    var versionFees: map<Version, Fees>

    function View(): SlotFees
      reads this
    {
      SlotFees(slot, fees, accountFees, versionFees)
    }

    constructor NewWithVersion(slot: Slot, accounts: seq<Pubkey>, fee: Fee, isVote: bool, version: Version)
      ensures View() == FirstFee(slot, accounts, fee, isVote, version)
    {
      this.slot := slot;
      this.fees := Single(fee, isVote);
      this.versionFees := map[version := Single(fee, isVote)];
      this.accountFees := map[];
      new;
      for i := 0 to |accounts|
        invariant this.slot == slot && fees == Single(fee, isVote) && versionFees == map[version := Single(fee, isVote)]
        invariant accountFees == FreshAccounts(accounts[..i], fee, isVote)
      {
        assert accounts[..i+1][..i] == accounts[..i];
        accountFees := accountFees[accounts[i] := fees];
      }
      assert accounts[..|accounts|] == accounts;
    }

    method AddVersionFee(version: Version, fee: Fee, isVote: bool)
      modifies this`versionFees
      ensures versionFees == AddTo(old(versionFees), version, fee, isVote)
    {
      if version in versionFees {
        versionFees := versionFees[version := versionFees[version].Add(fee, isVote)];
      } else {
        versionFees := versionFees[version := Single(fee, isVote)];
      }
    }

    /** The update of an entry that is already there. */
    method Record(accounts: seq<Pubkey>, fee: Fee, isVote: bool, version: Version)
      modifies this
      ensures View() == NextFee(old(View()), accounts, fee, isVote, version)
    {
      fees := fees.Add(fee, isVote);
      AddVersionFee(version, fee, isVote);
      ghost var before := accountFees;
      for i := 0 to |accounts|
        invariant slot == old(slot) && fees == old(fees).Add(fee, isVote)
        invariant versionFees == AddTo(old(versionFees), version, fee, isVote)
        invariant accountFees == AddAccounts(before, accounts[..i], fee, isVote)
      {
        assert accounts[..i+1][..i] == accounts[..i];
        var a := accounts[i];
        if a in accountFees {
          accountFees := accountFees[a := accountFees[a].Add(fee, isVote)];
        } else {
          accountFees := accountFees[a := Single(fee, isVote)];
        }
      }
      assert accounts[..|accounts|] == accounts;
    }
  }
}
