/**
 * The two entities of the directory, Bank and Branch, in one canonical
 * schema.
 *
 * The repository carries two schemas: banks/models.py (Django) and
 * models.py (Flask). This model fixes one record per entity:
 *
 *   Bank.id        <- Django `Bank.id` (externally supplied), Flask `Bank.id`
 *   Bank.name      <- `name` in both
 *   Bank.code      <- Flask `Bank.code`; absent from the Django model but
 *                     read by its serializers, so optional here
 *   Branch.ifsc    <- the primary key (Django `ifsc`); a serializer's or
 *                     Flask dictionary's Branch `id` is this key
 *   Branch.bankId  <- the foreign key (`bank` / `bank_id`)
 *   Branch.name    <- Django `branch`, Flask and serializer `name`
 *   Branch.address, city, state <- the same names in both
 *   Branch.district <- Django only, so optional here
 *
 * Timestamps (`created_at`, `updated_at`) are clock values and are not
 * part of the records.
 */
module Records {
  import opened Wrappers
  import opened Lists

  /** Column widths of banks/models.py, and the code width of models.py. */
  const MaxBankName := 49
  const MaxBankCode := 10
  const MaxIfsc := 11
  const MaxBranchName := 74
  const MaxAddress := 195
  const MaxCity := 50
  const MaxDistrict := 50
  const MaxState := 26

  datatype Bank = Bank(id: int, name: string, code: Option<string>)

  datatype Branch = Branch(
    ifsc: string,
    bankId: int,
    name: string,
    address: string,
    city: string,
    district: Option<string>,
    state: string)

  /** Every column of a bank fits its declared width. */
  predicate BankFits(b: Bank)
  {
    |b.name| <= MaxBankName && (b.code.Some? ==> |b.code.value| <= MaxBankCode)
  }

  /** Every column of a branch fits its declared width. */
  predicate BranchFits(br: Branch)
  {
    && |br.ifsc| <= MaxIfsc
    && |br.name| <= MaxBranchName
    && |br.address| <= MaxAddress
    && |br.city| <= MaxCity
    && (br.district.Some? ==> |br.district.value| <= MaxDistrict)
    && |br.state| <= MaxState
  }

  /** `str(bank)`: the bank's name. */
  function BankStr(b: Bank): (s: string)
    ensures s == b.name
  {
    b.name
  }

  /** `str(branch)`: the branch name, a spaced dash, the owning bank's `str`. */
  function BranchStr(br: Branch, bank: Bank): (s: string)
    requires bank.id == br.bankId
    ensures |s| == |br.name| + 3 + |BankStr(bank)|
    ensures s[..|br.name|] == br.name
    ensures s[|br.name|..|br.name| + 3] == " - "
    ensures s[|s| - |BankStr(bank)|..] == BankStr(bank)
  {
    br.name + " - " + BankStr(bank)
  }

  /** The string form test_models.py expects of its fixture branch. */
  lemma BranchStrExample()
    ensures BranchStr(Branch("TEST0000001", 1, "Test Branch", "123 Test Street", "Test City",
                             Some("Test District"), "Test State"),
                      Bank(1, "Test Bank", None))
            == "Test Branch - Test Bank"
  {
  }

  /** `Meta.ordering = ['name']` for banks. */
  function BankKey(b: Bank): SortKey
  {
    (b.name, "")
  }
}
