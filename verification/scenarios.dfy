/**
 * The fixtures of tests/test_api.py as tables, and what the model says the
 * endpoints answer on them, derived from the endpoints' contracts alone.
 */
module Scenarios {
  import opened Wrappers
  import opened Text
  import opened Lists
  import opened Records
  import opened Store
  import opened Queries
  import opened Serializers
  import opened Views

  /** `BranchAPITest`: one bank with a Mumbai branch and a Delhi branch. */
  const TestBank := Bank(1, "Test Bank", Some("TEST"))
  const Mumbai := Branch("TEST0000001", 1, "Mumbai Branch", "123 Test Street, Mumbai", "Mumbai", None, "Maharashtra")
  const Delhi := Branch("TEST0000002", 1, "Delhi Branch", "456 Test Street, Delhi", "Delhi", None, "Delhi")

  /** The tables of the fixture. */
  ghost predicate IsBranchFixture(t: Tables)
  {
    t.banks == [TestBank] && t.branches == [Mumbai, Delhi]
  }

  /** The fixture satisfies every constraint of the database. */
  lemma BranchFixtureConsistent(t: Tables)
    requires IsBranchFixture(t)
    ensures Consistent(t)
  {
    assert BankIds(t.banks) == {1} by {
      assert forall b :: b in t.banks <==> b == TestBank;
    }
    assert forall br :: br in t.branches <==> br == Mumbai || br == Delhi;
    assert Mumbai.ifsc != Delhi.ifsc by {
      assert Mumbai.ifsc[10] != Delhi.ifsc[10];
    }
  }

  /** `BankAPITest`: two banks, one branch each. */
  const Sbi := Bank(1, "State Bank of India", Some("SBI"))
  const Hdfc := Bank(2, "HDFC Bank", Some("HDFC"))

  /** `test_branch_search_no_params`: no parameter is a 400. */
  lemma SearchWithoutParams(t: Tables)
    requires IsBranchFixture(t)
    ensures Consistent(t) && BranchSearch(t, None, None).BadRequest?
  {
    BranchFixtureConsistent(t);
  }

  /** With an IFSC given, `branch_search` on the fixture is the IFSC search. */
  lemma IfscRoute(t: Tables, q: string)
    requires IsBranchFixture(t) && q != ""
    ensures Consistent(t) && BranchSearch(t, Some(q), None) == IfscSearch(t, q)
  {
    BranchFixtureConsistent(t);
  }

  /** With only a city given, `branch_search` on the fixture is the city search. */
  lemma CityRoute(t: Tables, q: string)
    requires IsBranchFixture(t) && q != ""
    ensures Consistent(t) && BranchSearch(t, None, Some(q)) == CitySearch(t, q)
  {
    BranchFixtureConsistent(t);
  }

  /** Of two branches, an IFSC the first one has is found. */
  lemma IfscFoundOfTwo(t: Tables, q: string, hit: Branch, miss: Branch)
    requires Consistent(t) && t.branches == [hit, miss]
    requires IExact(hit.ifsc, q)
    ensures IfscSearch(t, q).FoundBranch?
  {
    assert hit in t.branches;
  }

  /** The branch found is the only one of the two whose IFSC equals the query. */
  lemma IfscFoundIsHit(t: Tables, q: string, hit: Branch, miss: Branch)
    requires Consistent(t) && t.branches == [hit, miss]
    requires !IExact(miss.ifsc, q)
    requires IfscSearch(t, q).FoundBranch?
    ensures var d := IfscSearch(t, q).branch;
            d.name == hit.name && d.ifsc == hit.ifsc
  {
    var r := IfscSearch(t, q);
    var br :| br in t.branches && br.bankId in BankIds(t.banks) && IExact(br.ifsc, q)
              && r.branch == Detail(br, Owner(t, br));
    assert br == hit;
  }

  /** The query of the IFSC test matches the Mumbai branch's IFSC only. */
  lemma IfscQueryMatches(q: string)
    requires q == "TEST0000001"
    ensures IExact(Mumbai.ifsc, q) && !IExact(Delhi.ifsc, q)
  {
    IExactRefl(q);
    IExactMismatch(Delhi.ifsc, q, 10);
  }

  /** The query of the city test is in the Mumbai branch's city only. */
  lemma CityQueryMatches(q: string)
    requires q == "Mumbai"
    ensures IContains(Mumbai.city, q) && !IContains(Delhi.city, q)
  {
    IContainsSelf(q);
    IContainsLonger(Delhi.city, q);
  }

  /** Of two branches, when only the first one's city contains the query, exactly one is found. */
  lemma CityFoundOfTwo(t: Tables, q: string, hit: Branch, miss: Branch)
    requires Consistent(t) && t.branches == [hit, miss]
    requires IContains(hit.city, q) && !IContains(miss.city, q)
    ensures var r := CitySearch(t, q);
            r.FoundBranches? && |r.branches| == 1
  {
    assert Filter(t.branches, (br: Branch) => IContains(br.city, q)) == [hit] by {
      assert t.branches[1..] == [miss] && t.branches[1..][1..] == [];
    }
    assert hit in t.branches;
  }

  /** The one branch found is the one whose city contains the query. */
  lemma CityFoundIsHit(t: Tables, q: string, hit: Branch, miss: Branch)
    requires Consistent(t) && t.branches == [hit, miss]
    requires IContains(hit.city, q) && !IContains(miss.city, q)
    requires CitySearch(t, q).FoundBranches? && |CitySearch(t, q).branches| == 1
    ensures CitySearch(t, q).branches[0].city == hit.city
  {
    var r := CitySearch(t, q);
    assert SummarizesCityMatch(t, r.branches[0], q);
    var br :| br in t.branches && IContains(br.city, q) && SummaryOf(t, r.branches[0], br);
    assert br == hit;
  }

  /** On the fixture, the IFSC of the Mumbai branch finds it. */
  lemma IfscFixture(t: Tables, q: string)
    requires IsBranchFixture(t) && q == "TEST0000001"
    ensures Consistent(t) && var r := IfscSearch(t, q);
            r.FoundBranch? && r.branch.name == "Mumbai Branch" && r.branch.ifsc == q
  {
    BranchFixtureConsistent(t);
    IfscQueryMatches(q);
    IfscFoundOfTwo(t, q, Mumbai, Delhi);
    IfscFoundIsHit(t, q, Mumbai, Delhi);
  }

  /** On the fixture, "Mumbai" occurs in the Mumbai branch's city only. */
  lemma CityFixture(t: Tables, q: string)
    requires IsBranchFixture(t) && q == "Mumbai"
    ensures Consistent(t) && var r := CitySearch(t, q);
            r.FoundBranches? && |r.branches| == 1 && r.branches[0].city == q
  {
    BranchFixtureConsistent(t);
    CityQueryMatches(q);
    CityFoundOfTwo(t, q, Mumbai, Delhi);
    CityFoundIsHit(t, q, Mumbai, Delhi);
  }

  /** On the fixture, an IFSC that neither branch has finds nothing. */
  lemma UnknownIfscFixture(t: Tables, q: string)
    requires IsBranchFixture(t) && q == "NONEXISTENT"
    ensures Consistent(t) && IfscSearch(t, q).NotFound?
  {
    BranchFixtureConsistent(t);
    IExactMismatch(Mumbai.ifsc, q, 0);
    IExactMismatch(Delhi.ifsc, q, 0);
    assert forall br :: br in t.branches ==> br == Mumbai || br == Delhi;
  }

  /** `test_branch_search_by_ifsc`: the exact IFSC finds the Mumbai branch. */
  lemma SearchByIfsc(t: Tables, q: string)
    requires IsBranchFixture(t) && q == "TEST0000001"
    ensures Consistent(t) && var r := BranchSearch(t, Some(q), None);
            r.FoundBranch? && r.branch.name == "Mumbai Branch" && r.branch.ifsc == q
  {
    IfscFixture(t, q);
    IfscRoute(t, q);
  }

  /** `test_branch_search_not_found`: an IFSC no branch has is a 404. */
  lemma SearchByUnknownIfsc(t: Tables, q: string)
    requires IsBranchFixture(t) && q == "NONEXISTENT"
    ensures Consistent(t) && BranchSearch(t, Some(q), None).NotFound?
  {
    UnknownIfscFixture(t, q);
    IfscRoute(t, q);
  }

  /** `test_branch_search_by_city`: the city finds exactly one branch, in Mumbai. */
  lemma SearchByCity(t: Tables, q: string)
    requires IsBranchFixture(t) && q == "Mumbai"
    ensures Consistent(t) && var r := BranchSearch(t, None, Some(q));
            r.FoundBranches? && |r.branches| == 1 && r.branches[0].city == q
  {
    CityFixture(t, q);
    CityRoute(t, q);
  }

  /** `test_bank_list_api`: the banks come out by name, HDFC first. */
  lemma BankListByName()
    ensures var r := BankList(Tables([Sbi, Hdfc], []));
            |r| == 2 && r[0].name == "HDFC Bank" && r[1].name == "State Bank of India"
  {
    var r := BankList(Tables([Sbi, Hdfc], []));
    assert SerializeBank(Sbi) in r && SerializeBank(Hdfc) in r;
    assert !StrLe(Sbi.name, Hdfc.name);
  }
}
