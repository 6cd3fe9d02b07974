/**
 * The two tables `banks` and `branches` and the constraints the database
 * enforces on them (banks/models.py:4-41, models.py:4-73): the bank id and
 * the IFSC are primary keys, the bank code is unique, every branch's
 * foreign key names an existing bank, deleting a bank cascades to its
 * branches, and every column fits its declared width. The widths are
 * refused as a backend with `VARCHAR(n)` columns refuses them; `create`
 * itself does not check `max_length`.
 *
 * `Tables` is a snapshot of both tables, rows in insertion order; the
 * operations on it are pure. `Store` is the database itself, whose methods
 * replace its tables in place.
 */
module Store {
  import opened Wrappers
  import opened Records
  import opened Lists

  datatype Tables = Tables(banks: seq<Bank>, branches: seq<Branch>)

  /** Why the database refuses a write. */
  datatype StoreError =
    | DuplicateKey   // primary key or unique column already taken
    | UnknownBank    // foreign key names no bank
    | ValueTooLong   // a column exceeds its declared width

  function BankIds(banks: seq<Bank>): set<int>
  {
    set b | b in banks :: b.id
  }

  function Codes(banks: seq<Bank>): set<string>
  {
    set b | b in banks && b.code.Some? :: b.code.value
  }

  function Ifscs(branches: seq<Branch>): set<string>
  {
    set br | br in branches :: br.ifsc
  }

  /** No row occurs twice and no two banks share an id or a code. */
  ghost predicate UniqueBanks(banks: seq<Bank>)
  {
    && (forall b :: multiset(banks)[b] <= 1)
    && (forall b, c :: b in banks && c in banks && b.id == c.id ==> b == c)
    && (forall b, c :: b in banks && c in banks && b.code.Some? && b.code == c.code ==> b == c)
  }

  /** No row occurs twice and no two branches share an IFSC. */
  ghost predicate UniqueBranches(branches: seq<Branch>)
  {
    && (forall br :: multiset(branches)[br] <= 1)
    && (forall br, other :: br in branches && other in branches && br.ifsc == other.ifsc ==> br == other)
  }

  /** The constraints the database keeps on its two tables. */
  ghost predicate Consistent(t: Tables)
  {
    && UniqueBanks(t.banks)
    && UniqueBranches(t.branches)
    && (forall br :: br in t.branches ==> br.bankId in BankIds(t.banks))
    && (forall b :: b in t.banks ==> BankFits(b))
    && (forall br :: br in t.branches ==> BranchFits(br))
  }

  /** Primary-key lookup of a bank. */
  function FindBank(banks: seq<Bank>, id: int): (r: Option<Bank>)
    ensures r.Some? <==> id in BankIds(banks)
    ensures r.Some? ==> r.value in banks && r.value.id == id
  {
    if banks == [] then None
    else
      assert banks == [banks[0]] + banks[1..];
      if banks[0].id == id then Some(banks[0]) else FindBank(banks[1..], id)
  }

  /** Primary-key lookup of a branch. */
  function FindBranch(branches: seq<Branch>, ifsc: string): (r: Option<Branch>)
    ensures r.Some? <==> ifsc in Ifscs(branches)
    ensures r.Some? ==> r.value in branches && r.value.ifsc == ifsc
  {
    if branches == [] then None
    else
      assert branches == [branches[0]] + branches[1..];
      if branches[0].ifsc == ifsc then Some(branches[0]) else FindBranch(branches[1..], ifsc)
  }

  /** With unique ids, the bank found by id is the only bank with that id. */
  lemma FindBankUnique(banks: seq<Bank>, b: Bank)
    requires UniqueBanks(banks)
    requires b in banks
    ensures FindBank(banks, b.id) == Some(b)
  {
  }

  lemma BankIdsSnoc(banks: seq<Bank>, b: Bank)
    ensures BankIds(banks + [b]) == BankIds(banks) + {b.id}
  {
    assert forall c :: c in banks + [b] <==> c in banks || c == b;
  }

  /** `Bank.objects.create`: refused on a taken id or code, or an overlong column. */
  function InsertBank(t: Tables, b: Bank): (r: Result<Tables, StoreError>)
    ensures r.Success? <==>
              b.id !in BankIds(t.banks) && (b.code.Some? ==> b.code.value !in Codes(t.banks)) && BankFits(b)
    ensures r.Success? ==> r.value == Tables(t.banks + [b], t.branches)
    ensures r.Failure? ==>
              (r.error == DuplicateKey <==> b.id in BankIds(t.banks) || (b.code.Some? && b.code.value in Codes(t.banks)))
    ensures r.Failure? ==> r.error != UnknownBank
    ensures Consistent(t) && r.Success? ==> Consistent(r.value)
  {
    if b.id in BankIds(t.banks) || (b.code.Some? && b.code.value in Codes(t.banks)) then Failure(DuplicateKey)
    else if !BankFits(b) then Failure(ValueTooLong)
    else
      var banks := t.banks + [b];
      assert Consistent(t) ==> Consistent(Tables(banks, t.branches)) by {
        if Consistent(t) {
          assert b !in t.banks;
          assert forall c :: c in banks ==> c in t.banks || c == b;
          assert BankIds(t.banks) <= BankIds(banks);
        }
      }
      Success(Tables(banks, t.branches))
  }

  /** `Branch.objects.create`: refused on a taken IFSC, an unknown bank, or an overlong column. */
  function InsertBranch(t: Tables, br: Branch): (r: Result<Tables, StoreError>)
    ensures r.Success? <==>
              br.ifsc !in Ifscs(t.branches) && br.bankId in BankIds(t.banks) && BranchFits(br)
    ensures r.Success? ==> r.value == Tables(t.banks, t.branches + [br])
    ensures r.Failure? ==> (r.error == DuplicateKey <==> br.ifsc in Ifscs(t.branches))
    ensures r.Failure? ==> (r.error == UnknownBank <==> br.ifsc !in Ifscs(t.branches) && br.bankId !in BankIds(t.banks))
    ensures Consistent(t) && r.Success? ==> Consistent(r.value)
  {
    if br.ifsc in Ifscs(t.branches) then Failure(DuplicateKey)
    else if br.bankId !in BankIds(t.banks) then Failure(UnknownBank)
    else if !BranchFits(br) then Failure(ValueTooLong)
    else
      var branches := t.branches + [br];
      assert Consistent(t) ==> Consistent(Tables(t.banks, branches)) by {
        if Consistent(t) {
          assert br !in t.branches;
          assert forall x :: x in branches ==> x in t.branches || x == br;
        }
      }
      Success(Tables(t.banks, branches))
  }

  /** Deleting a bank; `on_delete=CASCADE` deletes its branches with it. */
  function CascadeDeleteBank(t: Tables, id: int): (r: Tables)
    ensures forall b :: b in r.banks <==> b in t.banks && b.id != id
    ensures forall br :: br in r.branches <==> br in t.branches && br.bankId != id
    ensures id !in BankIds(r.banks)
    ensures Consistent(t) ==> Consistent(r)
  {
    var r := Tables(Filter(t.banks, (b: Bank) => b.id != id), Filter(t.branches, (br: Branch) => br.bankId != id));
    assert Consistent(t) ==> Consistent(r) by {
      if Consistent(t) {
        forall br | br in r.branches ensures br.bankId in BankIds(r.banks) {
          var b :| b in t.banks && b.id == br.bankId;
          assert b in r.banks;
        }
      }
    }
    r
  }

  /**
   * Taking a branch out of its bank's `branches` collection; with
   * `delete-orphan` the orphan is deleted. A branch of another bank, or an
   * IFSC that is not there, leaves the tables as they are.
   */
  function RemoveOrphan(t: Tables, bankId: int, ifsc: string): (r: Tables)
    ensures r.banks == t.banks
    ensures forall br :: br in r.branches <==> br in t.branches && !(br.bankId == bankId && br.ifsc == ifsc)
    ensures Consistent(t) ==> Consistent(r)
  {
    Tables(t.banks, Filter(t.branches, (br: Branch) => !(br.bankId == bankId && br.ifsc == ifsc)))
  }

  /** The database: two tables that its methods replace in place. */
  class Store {
    var banks: seq<Bank>
    var branches: seq<Branch>

    function Snapshot(): Tables
      reads this
    {
      Tables(banks, branches)
    }

    ghost predicate Valid()
      reads this
    {
      Consistent(Snapshot())
    }

    /** An empty database. */
    constructor ()
      ensures Valid()
      ensures banks == [] && branches == []
    {
      banks := [];
      branches := [];
    }

    /** `Bank.objects.create(...)`: the new bank, or the error the database raises. */
    method CreateBank(b: Bank) returns (r: Result<Bank, StoreError>)
      requires Valid()
      modifies this
      ensures Valid()
      ensures r.Success? <==> InsertBank(old(Snapshot()), b).Success?
      ensures r.Success? ==> r.value == b && Snapshot() == InsertBank(old(Snapshot()), b).value
      ensures r.Failure? ==> r.error == InsertBank(old(Snapshot()), b).error && Snapshot() == old(Snapshot())
    {
      var res := InsertBank(Snapshot(), b);
      if res.Success? {
        banks, branches := res.value.banks, res.value.branches;
        r := Success(b);
      } else {
        r := Failure(res.error);
      }
    }

    /**
     * `Branch.objects.create(...)`: the new branch, or the error the
     * database raises; a refused insert changes nothing.
     */
    method CreateBranch(br: Branch) returns (r: Result<Branch, StoreError>)
      requires Valid()
      modifies this
      ensures Valid()
      ensures r.Success? <==> br.ifsc !in Ifscs(old(branches)) && br.bankId in BankIds(old(banks)) && BranchFits(br)
      ensures r.Success? ==> r.value == br && banks == old(banks) && branches == old(branches) + [br]
      ensures r.Failure? ==> r.error == InsertBranch(old(Snapshot()), br).error && Snapshot() == old(Snapshot())
    {
      var res := InsertBranch(Snapshot(), br);
      if res.Success? {
        branches := res.value.branches;
        r := Success(br);
      } else {
        r := Failure(res.error);
      }
    }

    /**
     * `Bank.objects.get_or_create(id=id, defaults={'name': name})`: the
     * bank with that id and `false` when there is one; otherwise a new bank
     * of that name and `true`, or the error the insert raises.
     */
    method GetOrCreateBank(id: int, name: string) returns (r: Result<(Bank, bool), StoreError>)
      requires Valid()
      modifies this
      ensures Valid()
      ensures id in BankIds(old(banks)) ==>
                r == Success((FindBank(old(banks), id).value, false)) && Snapshot() == old(Snapshot())
      ensures id !in BankIds(old(banks)) ==>
                var added := InsertBank(old(Snapshot()), Bank(id, name, None));
                && (added.Success? ==> r == Success((Bank(id, name, None), true)) && Snapshot() == added.value)
                && (added.Failure? ==> r == Failure(added.error) && Snapshot() == old(Snapshot()))
    {
      var found := FindBank(banks, id);
      if found.Some? {
        r := Success((found.value, false));
      } else {
        var created := CreateBank(Bank(id, name, None));
        if created.Success? {
          r := Success((created.value, true));
        } else {
          r := Failure(created.error);
        }
      }
    }

    /** Deleting one bank, and by cascade all of its branches and no other. */
    method DeleteBank(id: int)
      requires Valid()
      modifies this
      ensures Valid()
      ensures Snapshot() == CascadeDeleteBank(old(Snapshot()), id)
    {
      var t := CascadeDeleteBank(Snapshot(), id);
      banks, branches := t.banks, t.branches;
    }

    /** Detaching a branch from its bank, which deletes it. */
    method DetachBranch(bankId: int, ifsc: string)
      requires Valid()
      modifies this
      ensures Valid()
      ensures Snapshot() == RemoveOrphan(old(Snapshot()), bankId, ifsc)
    {
      var t := RemoveOrphan(Snapshot(), bankId, ifsc);
      branches := t.branches;
    }

    /** Rolling back a transaction: the tables return to the snapshot taken at its start. */
    method Restore(saved: Tables)
      requires Consistent(saved)
      modifies this
      ensures Valid()
      ensures Snapshot() == saved
    {
      banks, branches := saved.banks, saved.branches;
    }

    /** `Branch.objects.all().delete()`. */
    method DeleteAllBranches()
      requires Valid()
      modifies this
      ensures Valid()
      ensures banks == old(banks) && branches == []
    {
      branches := [];
    }

    /** `Bank.objects.all().delete()`, cascading to every branch. */
    method DeleteAllBanks()
      requires Valid()
      modifies this
      ensures Valid()
      ensures banks == [] && branches == []
    {
      banks, branches := [], [];
    }
  }
}
