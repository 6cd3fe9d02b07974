/**
 * The projections of banks/serializers.py and the `to_dict*` methods of
 * models.py, as pure functions from records to projection records.
 * Timestamps (`created_at`, `updated_at`) are not part of the records and
 * so not of the projections either.
 */
module Serializers {
  import opened Wrappers
  import opened Lists
  import opened Records
  import opened Store
  import opened Queries

  /** `BankSerializer` (id, name, code), which is also Flask's `Bank.to_dict`. */
  datatype BankData = BankData(id: int, name: string, code: Option<string>)

  /** `BranchListSerializer`: the summary of a branch, with its bank's name and code. */
  datatype BranchSummary = BranchSummary(
    id: string, name: string, ifsc: string, city: string, state: string,
    bankName: string, bankCode: Option<string>)

  /** `BranchDetailSerializer`: every branch column but the district, with its bank nested. */
  datatype BranchDetail = BranchDetail(
    id: string, name: string, ifsc: string, address: string, city: string, state: string,
    bank: BankData)

  /** `BankWithBranchesSerializer`. */
  datatype BankWithBranches = BankWithBranches(
    id: int, name: string, code: Option<string>, branchCount: nat, branches: seq<BranchSummary>)

  /** Flask `Branch.to_dict`. */
  datatype BranchDict = BranchDict(
    id: string, name: string, ifsc: string, address: string, city: string, state: string,
    bankId: int)

  /** Flask `Branch.to_dict_with_bank`. */
  datatype BranchWithBankDict = BranchWithBankDict(
    id: string, name: string, ifsc: string, address: string, city: string, state: string,
    bank: Option<BankData>)

  /** Flask `Bank.to_dict_with_branches`. */
  datatype BankWithBranchesDict = BankWithBranchesDict(
    id: int, name: string, code: Option<string>, branches: seq<BranchDict>)

  /** The bank a bank projection describes. */
  function BankOfData(d: BankData): Bank
  {
    Bank(d.id, d.name, d.code)
  }

  /** The bank projection carries the whole bank: it can be read back. */
  function SerializeBank(b: Bank): (d: BankData)
    ensures BankOfData(d) == b
  {
    BankData(b.id, b.name, b.code)
  }

  /** The branch a detail projection describes, given the one column it drops. */
  function BranchOfDetail(d: BranchDetail, district: Option<string>): Branch
  {
    Branch(d.ifsc, d.bank.id, d.name, d.address, d.city, district, d.state)
  }

  /**
   * The detail projection of a branch and its bank: the nested bank is the
   * full bank projection, and the branch can be read back from it but for
   * its district.
   */
  function Detail(br: Branch, bank: Bank): (d: BranchDetail)
    requires bank.id == br.bankId
    ensures d.bank == SerializeBank(bank)
    ensures BranchOfDetail(d, br.district) == br
    ensures d.id == d.ifsc
  {
    BranchDetail(br.ifsc, br.name, br.ifsc, br.address, br.city, br.state, SerializeBank(bank))
  }

  /** The summary fields, read off a detail projection. */
  function SummaryOfDetail(d: BranchDetail): BranchSummary
  {
    BranchSummary(d.id, d.name, d.ifsc, d.city, d.state, d.bank.name, d.bank.code)
  }

  /**
   * The summary projection of a branch and its bank: what the detail
   * projection shows, less the address and with the bank flattened to its
   * name and code.
   */
  function Summarize(br: Branch, bank: Bank): (s: BranchSummary)
    requires bank.id == br.bankId
    ensures s == SummaryOfDetail(Detail(br, bank))
  {
    BranchSummary(br.ifsc, br.name, br.ifsc, br.city, br.state, bank.name, bank.code)
  }

  /** The summary does not depend on the address or the district. */
  lemma SummaryOmitsAddress(br: Branch, bank: Bank, address: string, district: Option<string>)
    requires bank.id == br.bankId
    ensures Summarize(br.(address := address, district := district), bank) == Summarize(br, bank)
  {
  }

  /** The summary projections of branches whose banks exist, element by element. */
  function Summaries(t: Tables, s: seq<Branch>): (r: seq<BranchSummary>)
    requires forall br :: br in s ==> br.bankId in BankIds(t.banks)
    ensures |r| == |s|
    ensures forall i :: 0 <= i < |s| ==> r[i] == Summarize(s[i], Owner(t, s[i]))
  {
    seq(|s|, i requires 0 <= i < |s| => Summarize(s[i], Owner(t, s[i])))
  }

  /** Summarizing branches of one bank yields the summaries of exactly those branches. */
  lemma SummariesOfOwned(t: Tables, bank: Bank, owned: seq<Branch>)
    requires forall br :: br in owned ==> br.bankId == bank.id && br.bankId in BankIds(t.banks) && Owner(t, br) == bank
    ensures forall s :: s in Summaries(t, owned) <==> exists br :: br in owned && s == Summarize(br, bank)
  {
    var sums := Summaries(t, owned);
    forall s | s in sums ensures exists br :: br in owned && s == Summarize(br, bank) {
      var i :| 0 <= i < |sums| && sums[i] == s;
      assert owned[i] in owned;
    }
    forall s | exists br :: br in owned && s == Summarize(br, bank) ensures s in sums {
      var br :| br in owned && s == Summarize(br, bank);
      var i :| 0 <= i < |owned| && owned[i] == br;
      assert sums[i] == s;
    }
  }

  /** The summaries of a bank's branches are the summaries of exactly the branches it owns. */
  lemma SummariesOfBank(t: Tables, bank: Bank)
    requires Consistent(t)
    requires bank in t.banks
    ensures forall br :: br in BranchesOfBank(t, bank.id) ==> br.bankId in BankIds(t.banks)
    ensures forall s :: s in Summaries(t, BranchesOfBank(t, bank.id)) <==>
              exists br :: br in t.branches && br.bankId == bank.id && s == Summarize(br, bank)
  {
    var owned := BranchesOfBank(t, bank.id);
    forall br | br in owned ensures br.bankId == bank.id && br.bankId in BankIds(t.banks) && Owner(t, br) == bank {
      FindBankUnique(t.banks, bank);
    }
    SummariesOfOwned(t, bank, owned);
  }

  /** Summaries listed in (bank name, branch name) order, as a client sees them. */
  ghost predicate SummariesOrdered(r: seq<BranchSummary>)
  {
    forall i, j :: 0 <= i < j < |r| ==> KeyLe((r[i].bankName, r[i].name), (r[j].bankName, r[j].name))
  }

  /** Summaries of a sorted sequence of branches come out in the same order. */
  lemma SummariesKeepOrder(t: Tables, s: seq<Branch>)
    requires forall br :: br in s ==> br.bankId in BankIds(t.banks)
    requires Sorted(s, BranchKey(t))
    ensures SummariesOrdered(Summaries(t, s))
  {
    var r := Summaries(t, s);
    forall i, j | 0 <= i < j < |r|
      ensures KeyLe((r[i].bankName, r[i].name), (r[j].bankName, r[j].name))
    {
      assert KeyLe(BranchKey(t)(s[i]), BranchKey(t)(s[j]));
    }
  }

  /**
   * `BankWithBranchesSerializer` on a bank of the store: `branches` is the
   * bank's related branches in the default order, `branch_count` is a
   * separate count of them, and the two agree.
   */
  function WithBranches(t: Tables, bank: Bank): (r: BankWithBranches)
    requires Consistent(t)
    requires bank in t.banks
    ensures SerializeBank(bank) == BankData(r.id, r.name, r.code)
    ensures r.branchCount == |r.branches|
    ensures r.branchCount == |Owned(t.branches, bank.id)|
    ensures forall s :: s in r.branches <==>
              exists br :: br in t.branches && br.bankId == bank.id && s == Summarize(br, bank)
    ensures SummariesOrdered(r.branches)
  {
    SummariesOfBank(t, bank);
    var owned := BranchesOfBank(t, bank.id);
    SummariesKeepOrder(t, owned);
    BankWithBranches(bank.id, bank.name, bank.code, |Owned(t.branches, bank.id)|, Summaries(t, owned))
  }

  /** The branch a Flask branch dictionary describes, given the one column it drops. */
  function BranchOfDict(d: BranchDict, district: Option<string>): Branch
  {
    Branch(d.ifsc, d.bankId, d.name, d.address, d.city, district, d.state)
  }

  /** Flask `Branch.to_dict`: every column but the district, with the bank's own id. */
  function ToDict(br: Branch): (d: BranchDict)
    ensures BranchOfDict(d, br.district) == br
    ensures d.id == d.ifsc
  {
    BranchDict(br.ifsc, br.name, br.ifsc, br.address, br.city, br.state, br.bankId)
  }

  /**
   * Flask `Branch.to_dict_with_bank`: the `to_dict` columns with the bank
   * id replaced by the bank's projection, or by nothing when the branch has
   * no bank.
   */
  function ToDictWithBank(t: Tables, br: Branch): (d: BranchWithBankDict)
    ensures d.bank.Some? <==> br.bankId in BankIds(t.banks)
    ensures d.bank.Some? ==> d.bank.value.id == br.bankId && BankOfData(d.bank.value) in t.banks
    ensures var plain := ToDict(br);
            (plain.id, plain.name, plain.ifsc, plain.address, plain.city, plain.state)
            == (d.id, d.name, d.ifsc, d.address, d.city, d.state)
  {
    var bank := match FindBank(t.banks, br.bankId)
      case Some(b) => Some(SerializeBank(b))
      case None => None;
    BranchWithBankDict(br.ifsc, br.name, br.ifsc, br.address, br.city, br.state, bank)
  }

  /** Dictionaries made element by element include the dictionary of each element. */
  lemma DictsCover(branches: seq<Branch>, dicts: seq<BranchDict>)
    requires |dicts| == |branches|
    requires forall i :: 0 <= i < |branches| ==> dicts[i] == ToDict(branches[i])
    ensures forall br :: br in branches ==> ToDict(br) in dicts
  {
    forall br | br in branches ensures ToDict(br) in dicts {
      var i :| 0 <= i < |branches| && branches[i] == br;
      assert dicts[i] == ToDict(br);
    }
  }

  /**
   * Flask `Bank.to_dict_with_branches`: the bank's projection and one
   * `to_dict` per branch of the bank, in relationship (table) order.
   */
  function ToDictWithBranches(t: Tables, bank: Bank): (d: BankWithBranchesDict)
    ensures SerializeBank(bank) == BankData(d.id, d.name, d.code)
    ensures |d.branches| == |Owned(t.branches, bank.id)|
    ensures forall i :: 0 <= i < |d.branches| ==> d.branches[i] == ToDict(Owned(t.branches, bank.id)[i])
    ensures forall br :: br in t.branches && br.bankId == bank.id ==> ToDict(br) in d.branches
    ensures forall x :: x in d.branches ==> x.bankId == bank.id
  {
    var owned := Owned(t.branches, bank.id);
    var dicts := seq(|owned|, i requires 0 <= i < |owned| => ToDict(owned[i]));
    DictsCover(owned, dicts);
    BankWithBranchesDict(bank.id, bank.name, bank.code, dicts)
  }
}
