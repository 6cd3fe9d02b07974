/**
 * The read endpoints of banks/views.py, each a query over the tables
 * followed by its serializer, and `branch_search`, the one view with
 * decisions of its own. HTTP plumbing, pagination and JSON rendering are
 * the framework's; a view's result here is the body it would render, and
 * `branch_search` returns one of its four outcomes.
 */
module Views {
  import opened Wrappers
  import opened Text
  import opened Lists
  import opened Records
  import opened Store
  import opened Queries
  import opened Serializers

  /** `BankListView`: every bank once, by name. */
  function BankList(t: Tables): (r: seq<BankData>)
    ensures |r| == |t.banks|
    ensures forall i, j :: 0 <= i < j < |r| ==> StrLe(r[i].name, r[j].name)
    ensures forall b :: b in t.banks <==> SerializeBank(b) in r
  {
    var ordered := OrderedBanks(t);
    var r := seq(|ordered|, i requires 0 <= i < |ordered| => SerializeBank(ordered[i]));
    forall b | b in t.banks ensures SerializeBank(b) in r {
      var i :| 0 <= i < |ordered| && ordered[i] == b;
      assert r[i] == SerializeBank(b);
    }
    forall b | SerializeBank(b) in r ensures b in t.banks {
      var i :| 0 <= i < |r| && r[i] == SerializeBank(b);
      assert BankOfData(r[i]) == ordered[i];
    }
    r
  }

  /** `BankDetailView`: the bank with that id, or nothing (a 404). */
  function BankDetail(t: Tables, id: int): (r: Option<BankData>)
    ensures r.Some? <==> id in BankIds(t.banks)
    ensures r.Some? ==> r.value.id == id && BankOfData(r.value) in t.banks
  {
    match FindBank(t.banks, id)
    case Some(b) => Some(SerializeBank(b))
    case None => None
  }

  /** The summary of a branch of a consistent store, with its own bank. */
  ghost predicate SummaryOf(t: Tables, s: BranchSummary, br: Branch)
  {
    br.bankId in BankIds(t.banks) && s == Summarize(br, Owner(t, br))
  }

  /** `s` is the summary of some branch of the table. */
  ghost predicate SummarizesBranch(t: Tables, s: BranchSummary)
  {
    exists br :: br in t.branches && SummaryOf(t, s, br)
  }

  /** `s` is the summary of some branch of the table that bank `bankId` owns. */
  ghost predicate SummarizesBranchOf(t: Tables, s: BranchSummary, bankId: int)
  {
    exists br :: br in t.branches && br.bankId == bankId && SummaryOf(t, s, br)
  }

  /** `s` is the summary of some branch of the table whose city contains `q`. */
  ghost predicate SummarizesCityMatch(t: Tables, s: BranchSummary, q: string)
  {
    exists br :: br in t.branches && IContains(br.city, q) && SummaryOf(t, s, br)
  }

  /** Some entry of `r` is the summary of `br`. */
  ghost predicate HasSummaryOf(t: Tables, r: seq<BranchSummary>, br: Branch)
  {
    exists i :: 0 <= i < |r| && SummaryOf(t, r[i], br)
  }

  /** Every branch of `s` has its summary among the summaries of `s`. */
  lemma SummariesComplete(t: Tables, s: seq<Branch>)
    requires forall br :: br in s ==> br.bankId in BankIds(t.banks)
    ensures forall br :: br in s ==> HasSummaryOf(t, Summaries(t, s), br)
  {
    var r := Summaries(t, s);
    forall br | br in s ensures HasSummaryOf(t, r, br) {
      var i :| 0 <= i < |s| && s[i] == br;
      assert SummaryOf(t, r[i], br);
    }
  }

  /**
   * `BankBranchesView`: a summary of each branch of that bank, in order;
   * the bank itself is not looked up, so an unknown id lists nothing.
   */
  function BankBranches(t: Tables, bankId: int): (r: seq<BranchSummary>)
    requires Consistent(t)
    ensures |r| == |Owned(t.branches, bankId)|
    ensures forall i :: 0 <= i < |r| ==> SummarizesBranchOf(t, r[i], bankId)
    ensures forall br :: br in t.branches && br.bankId == bankId ==> HasSummaryOf(t, r, br)
    ensures SummariesOrdered(r)
    ensures bankId !in BankIds(t.banks) ==> r == []
  {
    var owned := BranchesOfBank(t, bankId);
    SummariesKeepOrder(t, owned);
    SummariesComplete(t, owned);
    var r := Summaries(t, owned);
    forall i | 0 <= i < |r| ensures SummarizesBranchOf(t, r[i], bankId) {
      assert owned[i] in owned;
    }
    r
  }

  /** Every summary of the ordered branches is the summary of a branch of the table. */
  lemma OrderedSummariesSound(t: Tables)
    requires Consistent(t)
    ensures forall br :: br in OrderedBranches(t) ==> br.bankId in BankIds(t.banks)
    ensures var r := Summaries(t, OrderedBranches(t));
            forall i :: 0 <= i < |r| ==> SummarizesBranch(t, r[i])
  {
    var ordered := OrderedBranches(t);
    var r := Summaries(t, ordered);
    forall i | 0 <= i < |r| ensures SummarizesBranch(t, r[i]) {
      assert ordered[i] in ordered;
    }
  }

  /** `BranchListView`: a summary of every branch, in (bank name, branch name) order. */
  function BranchList(t: Tables): (r: seq<BranchSummary>)
    requires Consistent(t)
    ensures |r| == |t.branches|
    ensures forall i :: 0 <= i < |r| ==> SummarizesBranch(t, r[i])
    ensures forall br :: br in t.branches ==> HasSummaryOf(t, r, br)
    ensures SummariesOrdered(r)
  {
    OrderedSummariesSound(t);
    SummariesComplete(t, OrderedBranches(t));
    SummariesKeepOrder(t, OrderedBranches(t));
    Summaries(t, OrderedBranches(t))
  }

  /** `BranchDetailView`: the branch with that key and its bank, or nothing (a 404). */
  function BranchDetailOf(t: Tables, ifsc: string): (r: Option<BranchDetail>)
    requires Consistent(t)
    ensures r.Some? <==> ifsc in Ifscs(t.branches)
    ensures r.Some? ==> r.value.ifsc == ifsc
    ensures r.Some? ==> exists br :: br in t.branches && br.bankId in BankIds(t.banks) && r.value == Detail(br, Owner(t, br))
  {
    match FindBranch(t.branches, ifsc)
    case Some(br) => Some(Detail(br, Owner(t, br)))
    case None => None
  }

  /** The four outcomes of `branch_search`. */
  datatype SearchResponse =
    | BadRequest(error: string)                    // 400, body {'error': ...}
    | NotFound(message: string)                    // 404, body {'message': ...}
    | FoundBranch(branch: BranchDetail)            // 200, body {'branch': ...}
    | FoundBranches(branches: seq<BranchSummary>)  // 200, body {'branches': [...]}

  /** Python truth of a query parameter: present and not the empty string. */
  predicate Given(param: Option<string>)
  {
    param.Some? && param.value != ""
  }

  /** The IFSC branch of `branch_search`: the detail of the first match, or a 404. */
  function IfscSearch(t: Tables, q: string): (r: SearchResponse)
    requires Consistent(t)
    ensures r.NotFound? || r.FoundBranch?
    ensures r.NotFound? <==> forall br :: br in t.branches ==> !IExact(br.ifsc, q)
    ensures r.FoundBranch? ==>
              exists br :: br in t.branches && br.bankId in BankIds(t.banks) && IExact(br.ifsc, q)
                           && r.branch == Detail(br, Owner(t, br))
  {
    var matches := IfscMatches(t, q);
    if matches == [] then NotFound("No branches found")
    else
      assert matches[0] in matches;
      FoundBranch(Detail(matches[0], Owner(t, matches[0])))
  }

  /** Each summary of the city matches is the summary of a branch whose city matches. */
  lemma CityMatchSummaries(t: Tables, q: string)
    requires Consistent(t)
    ensures forall br :: br in CityMatches(t, q) ==> br.bankId in BankIds(t.banks)
    ensures var r := Summaries(t, CityMatches(t, q));
            forall i :: 0 <= i < |r| ==>
              SummarizesCityMatch(t, r[i], q)
  {
    var matches := CityMatches(t, q);
    var r := Summaries(t, matches);
    forall i | 0 <= i < |r|
      ensures SummarizesCityMatch(t, r[i], q)
    {
      assert matches[i] in matches;
      assert SummaryOf(t, r[i], matches[i]);
    }
  }

  /** The city branch of `branch_search`: the summaries of every match, in order, or a 404. */
  function CitySearch(t: Tables, q: string): (r: SearchResponse)
    requires Consistent(t)
    ensures r.NotFound? || r.FoundBranches?
    ensures r.NotFound? <==> forall br :: br in t.branches ==> !IContains(br.city, q)
    ensures r.FoundBranches? ==>
              && r.branches != []
              && |r.branches| == |Filter(t.branches, (br: Branch) => IContains(br.city, q))|
              && (forall i :: 0 <= i < |r.branches| ==>
                    SummarizesCityMatch(t, r.branches[i], q))
              && (forall br :: br in t.branches && IContains(br.city, q) ==> HasSummaryOf(t, r.branches, br))
              && SummariesOrdered(r.branches)
  {
    var matches := CityMatches(t, q);
    if matches == [] then
      NotFound("No branches found")
    else
      assert matches[0] in matches;
      CityMatchSummaries(t, q);
      SummariesComplete(t, matches);
      SummariesKeepOrder(t, matches);
      FoundBranches(Summaries(t, matches))
  }

  /**
   * `branch_search`: 400 without either parameter; otherwise the IFSC,
   * when given, selects by case-insensitive equality and the city is
   * ignored, else the city selects by case-insensitive substring; no match
   * is a 404; an IFSC search answers with the detail of the first match, a
   * city search with the summaries of all of them.
   */
  function BranchSearch(t: Tables, ifsc: Option<string>, city: Option<string>): (r: SearchResponse)
    requires Consistent(t)
    ensures r.BadRequest? <==> !Given(ifsc) && !Given(city)
    ensures Given(ifsc) ==> r == IfscSearch(t, ifsc.value)
    ensures !Given(ifsc) && Given(city) ==> r == CitySearch(t, city.value)
  {
    if !Given(ifsc) && !Given(city) then
      BadRequest("Please provide either ifsc or city parameter")
    else if Given(ifsc) then
      IfscSearch(t, ifsc.value)
    else
      CitySearch(t, city.value)
  }

  /** With an IFSC given, the city parameter makes no difference. */
  lemma SearchIgnoresCity(t: Tables, ifsc: Option<string>, city1: Option<string>, city2: Option<string>)
    requires Consistent(t)
    requires Given(ifsc)
    ensures BranchSearch(t, ifsc, city1) == BranchSearch(t, ifsc, city2)
  {
  }

  /** Two IFSC queries that differ only in case give the same answer. */
  lemma IfscSearchIgnoresCase(t: Tables, q1: string, q2: string)
    requires Consistent(t)
    requires IExact(q1, q2)
    ensures IfscSearch(t, q1) == IfscSearch(t, q2)
  {
    IExactIff(q1, q2);
    forall br: Branch | br in OrderedBranches(t) ensures IExact(br.ifsc, q1) == IExact(br.ifsc, q2) {
      IExactIff(br.ifsc, q1);
      IExactIff(br.ifsc, q2);
    }
    FilterExt(OrderedBranches(t), (br: Branch) => IExact(br.ifsc, q1), (br: Branch) => IExact(br.ifsc, q2));
  }

  /** Two city queries that differ only in case give the same answer. */
  lemma CitySearchIgnoresCase(t: Tables, q1: string, q2: string)
    requires Consistent(t)
    requires IExact(q1, q2)
    ensures CitySearch(t, q1) == CitySearch(t, q2)
  {
    IExactIff(q1, q2);
    FilterExt(OrderedBranches(t), (br: Branch) => IContains(br.city, q1), (br: Branch) => IContains(br.city, q2));
  }

  /**
   * An IFSC search answers with the first match in the default order: no
   * matching branch sorts before the one returned.
   */
  lemma IfscSearchReturnsFirst(t: Tables, q: string, br: Branch)
    requires Consistent(t)
    requires br in t.branches && IExact(br.ifsc, q)
    ensures IfscSearch(t, q).FoundBranch?
    ensures var d := IfscSearch(t, q).branch;
            KeyLe((d.bank.name, d.name), (OwnerName(t, br), br.name))
  {
    var matches := IfscMatches(t, q);
    assert br in matches;
    var j :| 0 <= j < |matches| && matches[j] == br;
    assert matches[0] in matches;
    if j == 0 {
      StrLeRefl(OwnerName(t, br));
      StrLeRefl(br.name);
    } else {
      assert KeyLe(BranchKey(t)(matches[0]), BranchKey(t)(matches[j]));
    }
  }
}
