/**
 * The querysets of banks/views.py as ordered, filtered views of the tables.
 * Django applies a model's `Meta.ordering` to every queryset built on it,
 * so each branch queryset here, filtered or not, comes out in
 * (bank name, branch name) order (banks/models.py:33) and each bank
 * queryset in name order (banks/models.py:13).
 */
module Queries {
  import opened Text
  import opened Lists
  import opened Records
  import opened Store

  /** The bank a branch's foreign key names (`branch.bank`). */
  function Owner(t: Tables, br: Branch): (b: Bank)
    requires br.bankId in BankIds(t.banks)
    ensures b in t.banks && b.id == br.bankId
  {
    FindBank(t.banks, br.bankId).value
  }

  /**
   * `bank__name` of a branch; a branch whose bank is missing (which a
   * consistent store never holds) sorts under the empty name.
   */
  function OwnerName(t: Tables, br: Branch): string
  {
    if br.bankId in BankIds(t.banks) then Owner(t, br).name else ""
  }

  /** `Meta.ordering = ['bank__name', 'branch']` for branches. */
  function BranchKey(t: Tables): Branch -> SortKey
  {
    (br: Branch) => (OwnerName(t, br), br.name)
  }

  /** `Bank.objects.all()`: every bank, by name. */
  function OrderedBanks(t: Tables): (r: seq<Bank>)
    ensures multiset(r) == multiset(t.banks)
    ensures forall b :: b in r <==> b in t.banks
    ensures forall i, j :: 0 <= i < j < |r| ==> StrLe(r[i].name, r[j].name)
  {
    var r := SortBy(t.banks, BankKey);
    assert forall b :: b in r <==> b in multiset(r);
    assert forall i, j :: 0 <= i < j < |r| ==> KeyLe(BankKey(r[i]), BankKey(r[j]));
    r
  }

  /** `Branch.objects.all()`: every branch, by bank name and then branch name. */
  function OrderedBranches(t: Tables): (r: seq<Branch>)
    ensures multiset(r) == multiset(t.branches)
    ensures |r| == |t.branches|
    ensures forall br :: br in r <==> br in t.branches
    ensures Sorted(r, BranchKey(t))
  {
    var r := SortBy(t.branches, BranchKey(t));
    assert forall br :: br in r <==> br in multiset(r);
    assert |r| == |multiset(r)| == |multiset(t.branches)|;
    r
  }

  /** The branches whose foreign key is `bankId`, in table order. */
  function Owned(branches: seq<Branch>, bankId: int): (r: seq<Branch>)
    ensures forall br :: br in r <==> br in branches && br.bankId == bankId
  {
    Filter(branches, (br: Branch) => br.bankId == bankId)
  }

  /**
   * `Branch.objects.filter(bank_id=bank_id)`: exactly the branches of that
   * bank, as many as the table holds, in the default order.
   */
  function BranchesOfBank(t: Tables, bankId: int): (r: seq<Branch>)
    ensures forall br :: br in r <==> br in t.branches && br.bankId == bankId
    ensures |r| == |Owned(t.branches, bankId)|
    ensures Sorted(r, BranchKey(t))
  {
    var p := (br: Branch) => br.bankId == bankId;
    FilterPermutation(OrderedBranches(t), t.branches, p);
    FilterSorted(OrderedBranches(t), p, BranchKey(t));
    Filter(OrderedBranches(t), p)
  }

  /** The filter does not check the bank: an unknown id gives no rows, not an error. */
  lemma BranchesOfUnknownBank(t: Tables, bankId: int)
    requires Consistent(t)
    requires bankId !in BankIds(t.banks)
    ensures BranchesOfBank(t, bankId) == []
  {
  }

  /** `filter(ifsc__iexact=q)` over the default order. */
  function IfscMatches(t: Tables, q: string): (r: seq<Branch>)
    ensures forall br :: br in r <==> br in t.branches && IExact(br.ifsc, q)
    ensures Sorted(r, BranchKey(t))
  {
    var p := (br: Branch) => IExact(br.ifsc, q);
    FilterSorted(OrderedBranches(t), p, BranchKey(t));
    Filter(OrderedBranches(t), p)
  }

  /** `filter(city__icontains=q)` over the default order. */
  function CityMatches(t: Tables, q: string): (r: seq<Branch>)
    ensures forall br :: br in r <==> br in t.branches && IContains(br.city, q)
    ensures |r| == |Filter(t.branches, (br: Branch) => IContains(br.city, q))|
    ensures Sorted(r, BranchKey(t))
  {
    var p := (br: Branch) => IContains(br.city, q);
    FilterPermutation(OrderedBranches(t), t.branches, p);
    FilterSorted(OrderedBranches(t), p, BranchKey(t));
    Filter(OrderedBranches(t), p)
  }
}
