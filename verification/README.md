# Bank branch directory, modelled in Dafny

This project models the core of a small bank and branch directory. Banks
own branches. A branch is keyed by its IFSC code (Indian Financial System
Code) and belongs to exactly one bank. Deleting a bank deletes its
branches. The model covers five parts of the directory:

- **The two tables and their constraints** (`store.dfy`). `Tables` is a
  snapshot of both tables with pure insert and delete operations. The
  class `Store` is the database: its methods replace its tables in place
  and keep `Consistent` as their invariant. That invariant covers unique
  keys, an existing bank behind every branch's foreign key, and column
  widths (the `max_length` of each `CharField`, enforced as a database
  with `VARCHAR(n)` columns enforces it).
- **The querysets of the read endpoints** (`queries.dfy`). Each queryset
  is an ordered, filtered view of the tables. Django applies a model's
  `Meta.ordering` to every queryset built on it. So branch querysets,
  including the search querysets and the one `.first()` reads, come out
  in (bank name, branch name) order, and bank querysets come out in name
  order.
- **The serializers and the Flask `to_dict*` methods** (`serializers.dfy`).
  These are pure projections from records to projection records.
- **The read views and `branch_search`** (`views.dfy`). `branch_search`
  returns one of four outcomes: 400, 404, one detail record, or a list of
  summaries.
- **The bulk import command** (`load_real_data.dfy`). It is a loop over
  rows that are already parsed, against the `Store` class. It is proved
  against `Replay`, a function that specifies the tables the loop builds.

`text.dfy` defines Django's `iexact` and `icontains` by ASCII lower-casing,
and the code-point order used for sorting. `lists.dfy` defines an insertion
sort and a filter. `scenarios.dfy` derives, from the contracts alone, what the endpoints
answer on the fixtures of `tests/test_api.py`.

The repository has two schemas: `banks/models.py` for Django and
`models.py` for Flask. The model fixes one record per entity, and the
mapping is documented at the top of `records.dfy`:

- A branch's key is its IFSC. A serializer's or Flask dictionary's branch
  `id` is that key.
- Django's `branch` column is the branch `name`.
- The bank `code` is optional. Only Flask declares it, but the Django
  serializers read it.
- The `district` is optional. Only Django has it.

The Django serializers list fields (`code`, and a branch `id` and `name`)
that `banks/models.py` does not declare. They are read here under this
canonical schema.

## Model

| member | source | states |
|---|---|---|
| Records.BankStr | banks/models.py:15-16 | `str(bank)` is the bank's name |
| Records.BranchStr | banks/models.py:40-41 | `str(branch)` is the branch name, then " - ", then the bank's `str`, which is its name |
| Records.BranchStrExample | tests/test_models.py:53-55 | the fixture branch prints as "Test Branch - Test Bank" |
| Store.FindBank | banks/models.py:6 | primary-key lookup: it finds a bank exactly when one has that id, and the bank it returns has that id |
| Store.FindBranch | banks/models.py:21 | primary-key lookup by IFSC: it finds a branch exactly when one has that IFSC |
| Store.FindBankUnique | banks/models.py:6 | under unique ids, looking up a bank's id returns that very bank |
| Store.InsertBank | banks/models.py:6-7 | a bank insert succeeds if and only if its id is new, its code (if any) is new, and its columns fit. On success the bank is appended; otherwise the error says which rule failed. Consistency is preserved |
| Store.InsertBranch | banks/models.py:21-27 | a branch insert succeeds if and only if its IFSC is new, its bank exists, and its columns fit. A duplicate IFSC is DuplicateKey and an unknown bank is UnknownBank. Consistency is preserved |
| Store.CascadeDeleteBank | banks/models.py:22 | deleting a bank removes exactly that bank and exactly its branches. No bank with that id remains and consistency is preserved |
| Store.RemoveOrphan | models.py:14 | `delete-orphan`: removes exactly the detached branch of that bank and keeps consistency |
| Store.Store.CreateBank | banks/models.py:6-7 | `Bank.objects.create`: succeeds exactly when `InsertBank` does. On failure it raises that error and leaves the store unchanged |
| Store.Store.CreateBranch | banks/models.py:21-27 | `Branch.objects.create`: succeeds if and only if the IFSC is new, the bank exists and the columns fit, and then appends the branch. A refused insert (such as a duplicate IFSC) leaves the store unchanged |
| Store.Store.GetOrCreateBank | banks/management/commands/load_real_data.py:42-45 | `get_or_create`: an existing id returns that bank and `created = false` with the store unchanged. Otherwise it inserts a bank with that name and no code, or raises with the store unchanged |
| Store.Store.DeleteBank | banks/models.py:22 | the new tables are the cascade delete of the old ones |
| Store.Store.DetachBranch | models.py:14 | the new tables are the old ones less the orphaned branch |
| Store.Store.DeleteAllBranches | banks/management/commands/load_real_data.py:27 | empties the branches and keeps the banks |
| Store.Store.DeleteAllBanks | banks/management/commands/load_real_data.py:28 | empties both tables |
| Store.Store.Restore | banks/management/commands/load_real_data.py:26 | a rollback returns the tables to the snapshot taken when the transaction began |
| Lists.SortBy | banks/models.py:33 | the ordering used for querysets is a permutation of its input and sorted by key |
| Text.IExactIff | banks/views.py:123 | `iexact` holds if and only if the two lower-cased strings are equal |
| Text.IContainsIff | banks/views.py:125 | `icontains` holds if and only if the needle occurs in the haystack at some position, up to case |
| Queries.Owner | banks/models.py:22 | a branch's `bank` is a bank of the table carrying the branch's foreign key |
| Queries.OrderedBanks | banks/models.py:13 | `Bank.objects.all()` holds every bank once, with names in ascending order |
| Queries.OrderedBranches | banks/models.py:33 | `Branch.objects.all()` holds every branch once, sorted by (bank name, branch name) |
| Queries.Owned | models.py:14 | a bank's related branches are exactly the branches whose foreign key is its id |
| Queries.BranchesOfBank | banks/views.py:46-48 | `filter(bank_id=...)` returns exactly that bank's branches, as many as the table holds, in the default order |
| Queries.BranchesOfUnknownBank | banks/views.py:46-48 | the bank is not looked up, so an unknown id gives the empty list and not an error |
| Queries.IfscMatches | banks/views.py:122-123 | `filter(ifsc__iexact=q)` returns exactly the branches whose IFSC equals q up to case, in the default order |
| Queries.CityMatches | banks/views.py:124-125 | `filter(city__icontains=q)` returns exactly the branches whose city contains q up to case, as many as the table holds, in the default order |
| Serializers.SerializeBank | banks/serializers.py:5-11 | the bank projection (also Flask `Bank.to_dict`, models.py:16-22) carries id, name and code, so the bank can be read back from it |
| Serializers.Detail | banks/serializers.py:24-31 | the detail projection nests the full projection of the owning bank, its `id` is the IFSC, and the branch can be read back from it except for its district |
| Serializers.Summarize | banks/serializers.py:14-21 | the summary is the detail projection less the address, with the bank flattened into `bank_name` and `bank_code` |
| Serializers.SummaryOmitsAddress | banks/serializers.py:21 | the summary does not depend on the address or the district |
| Serializers.Summaries | banks/serializers.py:36 | `many=True` summarizes element by element, each branch with its own bank |
| Serializers.SummariesOfOwned | banks/serializers.py:36 | summarizing branches of one bank yields the summaries of exactly those branches |
| Serializers.SummariesOfBank | banks/serializers.py:36 | the summaries of a bank's related branches are the summaries of exactly the branches it owns |
| Serializers.WithBranches | banks/serializers.py:34-42 | `branch_count` equals the length of `branches` and the number of branches the bank owns. Each entry is the summary of an owned branch, every owned branch has one, and they come in (bank name, branch name) order |
| Serializers.ToDict | models.py:51-61 | `Branch.to_dict` carries every scalar column unchanged and the branch's own `bank_id`; the branch can be read back from it except for its district |
| Serializers.ToDictWithBank | models.py:63-73 | `bank` is the owning bank's `to_dict` when the bank exists and `None` otherwise. The other fields equal `to_dict`'s |
| Serializers.ToDictWithBranches | models.py:24-31 | one `to_dict` per branch of the bank, in relationship (table) order, beside the bank's id, name and code. Every owned branch is listed, and only owned branches |
| Views.BankList | banks/views.py:17-24 | every bank exactly once, with names in ascending order |
| Views.BankDetail | banks/views.py:27-35 | found exactly when a bank has that id, and then it is that bank's projection |
| Serializers.SummariesKeepOrder | banks/models.py:33 | summaries of a sorted branch sequence are ordered by (bank name, name) |
| Views.BankBranches | banks/views.py:38-48 | one summary per branch of that bank, each the summary of such a branch, in order, and every branch of that bank has its summary in the list. An unknown bank id lists nothing |
| Views.BranchList | banks/views.py:51-58 | a summary of every branch and of nothing else, in (bank name, branch name) order |
| Views.BranchDetailOf | banks/views.py:61-69 | found exactly when a branch has that IFSC, and then it is that branch's detail with its own bank |
| Views.IfscSearch | banks/views.py:122-137 | a 404 if and only if no IFSC matches up to case. Otherwise the detail of a matching branch with its bank |
| Views.CityMatchSummaries | banks/views.py:139-141 | each city-mode summary is the summary of a branch whose city matches |
| Views.CitySearch | banks/views.py:124-141 | a 404 if and only if no city contains the query up to case. Otherwise a non-empty list with one summary per matching branch, each the summary of a match, in order, and every matching branch has its summary in the list |
| Views.BranchSearch | banks/views.py:104-141 | a 400 if and only if both parameters are missing or empty. A given IFSC selects the IFSC search; otherwise a given city selects the city search |
| Views.SearchIgnoresCity | banks/views.py:122-125 | with an IFSC given, the city parameter changes nothing |
| Views.IfscSearchIgnoresCase | banks/views.py:123 | IFSC queries equal up to case give the same answer |
| Views.CitySearchIgnoresCase | banks/views.py:125 | city queries equal up to case give the same answer |
| Views.IfscSearchReturnsFirst | banks/views.py:134-137 | an IFSC search finds something whenever a branch matches, and no match sorts before the one returned |
| Import.Replay | banks/management/commands/load_real_data.py:36-73 | the import attempts one insert per row, so it never makes more branches than there are rows |
| Import.StepFailure | banks/management/commands/load_real_data.py:41-45 | when creating a bank raises, that row changes no table |
| Import.StepBanks | banks/management/commands/load_real_data.py:41-50 | a row whose bank creation does not raise leaves its bank in the table, added only when its id is new |
| Import.StepBranches | banks/management/commands/load_real_data.py:53-73 | a row adds its branch exactly when the IFSC is new and the columns fit. Otherwise the branch is skipped |
| Import.StepIfscs | banks/management/commands/load_real_data.py:53-73 | after a row, its IFSC is taken whenever its branch fits, and earlier IFSCs stay taken |
| Import.StepConsistent | banks/management/commands/load_real_data.py:36-73 | one row keeps the store's constraints and adds a bank only under a new id |
| Import.StepKeepsBranches | banks/management/commands/load_real_data.py:53-73 | a row never removes a branch |
| Import.ReplayConsistent | banks/management/commands/load_real_data.py:36-73 | the imported tables keep every constraint, with as many banks as bank ids |
| Import.ReplayStopsAtFailure | banks/management/commands/load_real_data.py:42-45 | once a bank creation raises, later rows change nothing |
| Import.ReplayBankIds | banks/management/commands/load_real_data.py:37-50 | without a raise, the bank ids are exactly the distinct ids of the rows, one bank per id |
| Import.ReplayBankFromFirstRow | banks/management/commands/load_real_data.py:41-50 | every bank is the one described by the first row with its id; later rows reuse it |
| Import.ReplayIfscPresent | banks/management/commands/load_real_data.py:53-73 | without a raise, every row whose branch fits has its IFSC in the table |
| Import.ReplayBranchOrigin | banks/management/commands/load_real_data.py:54-62 | every imported branch came from a row, and no earlier row with that IFSC fit the columns |
| Import.EarlierDuplicateWins | banks/management/commands/load_real_data.py:54-62 | with two rows sharing an IFSC of which the earlier fits, a later row's branch is kept only as a copy of a row at or before the earlier one (that the first fitting row's own branch is kept is `Import.FirstFittingRowKept`) |
| Import.FirstFittingRowKept | banks/management/commands/load_real_data.py:53-62 | without a raise, the first row of an IFSC whose branch fits the columns has exactly its own branch in the table |
| Import.ImportBank | banks/management/commands/load_real_data.py:41-45 | the bank half of a loop body: a raise leaves the store unchanged and is the failing `Step`; otherwise the row's bank is in `banks_created` and the rest of the `Step` is the branch insert. The branches table is untouched |
| Import.ImportRow | banks/management/commands/load_real_data.py:37-73 | one loop body changes the store as one `Step` does, keeps `banks_created` in step with the banks table, and counts a successful insert |
| Import.LoadRealData | banks/management/commands/load_real_data.py:11-79 | a missing CSV leaves the store unchanged. A bank creation that raises rolls back to the old store. Otherwise the tables are `Replay(rows)` (emptied first, then loaded) and the reported counts are the numbers of banks and branches in them |
| Import.StepAsWritten | banks/management/commands/load_real_data.py:36-73 | one pass of the loop as written: a raise ends the loop; once the transaction is marked for rollback nothing takes effect; a refused branch insert is exactly what marks it; a pass that does not raise puts the row's bank id in `banks_created` |
| Import.PassAsWritten | banks/management/commands/load_real_data.py:26-73 | the loop as written counts at most one branch per row and, unless it raised, `banks_created` holds exactly the rows' bank ids |
| Import.AsWrittenAgreesWhileClean | banks/management/commands/load_real_data.py:26-73 | while no insert was refused and nothing raised, the loop as written builds the tables `Replay` builds, and its counters count their banks and branches |
| Import.LoadAsWritten | banks/management/commands/load_real_data.py:26-79 | the command as written aborts exactly when a bank creation raises; every run without a raise reports `Loaded` with the number of distinct bank ids and its branch counter, even when a refused insert rolled the tables back; a raise or a refused insert leaves the old tables; with neither, it reports and leaves what `LoadRealData` does |
| Import.DuplicateRowRollsBackAsWritten | banks/management/commands/load_real_data.py:26-73 | as written, a repeated row makes the command report one bank and one branch while the store keeps its old contents |
| Scenarios.BranchFixtureConsistent | tests/test_api.py:66-85 | the branch test fixture satisfies every database constraint |
| Scenarios.SearchWithoutParams | tests/test_api.py:123-129 | a search without parameters is a 400 |
| Scenarios.IfscFoundOfTwo | banks/views.py:122-137 | of two branches, an IFSC query the first one matches is found |
| Scenarios.IfscFoundIsHit | banks/views.py:122-137 | of two branches, when the second does not match the IFSC, the detail returned is the first one's |
| Scenarios.CityFoundOfTwo | banks/views.py:124-141 | of two branches, when only the first one's city contains the query, the city search lists exactly one summary |
| Scenarios.CityFoundIsHit | banks/views.py:124-141 | that one summary carries the matching branch's city |
| Scenarios.IfscFixture | tests/test_api.py:105-112 | the Mumbai IFSC finds the Mumbai branch |
| Scenarios.SearchByIfsc | tests/test_api.py:105-112 | searching by the Mumbai IFSC returns the Mumbai branch's detail |
| Scenarios.UnknownIfscFixture | tests/test_api.py:131-137 | an IFSC that neither fixture branch has finds nothing |
| Scenarios.SearchByUnknownIfsc | tests/test_api.py:131-137 | an unknown IFSC is a 404 |
| Scenarios.CityFixture | tests/test_api.py:114-121 | "Mumbai" matches exactly one branch, the one in Mumbai |
| Scenarios.SearchByCity | tests/test_api.py:114-121 | a city search for "Mumbai" returns one summary, whose city is Mumbai |
| Scenarios.BankListByName | tests/test_api.py:33-41 | the bank list puts "HDFC Bank" before "State Bank of India" |

## Left out

- Timestamps (`created_at`, `updated_at`) are clock values and are not part of the records or projections.
- HTTP plumbing, pagination (the `results` wrapper) and JSON rendering belong to the framework. Views return the body they would render, or an outcome datatype.
- `api_overview` and the documentation decorators of banks/views.py are a static dictionary and metadata.
- banks/urls.py, banks/admin.py, database.py and banks/management/commands/init_data.py are not part of this model. They are routing, admin configuration, engine setup and fixture seeding.
- CSV reading and parsing (`open`, `csv.DictReader`, `int(row['bank_id'])`) are left out. The rows arrive parsed and the file-existence check is a boolean input.
- Progress and status messages on stdout are left out.
- Case-insensitive matching uses ASCII lower-casing, not full Unicode case folding.
- Sorting compares strings by code point, not by a database collation.
- Bank ids are unbounded integers. The 64-bit width of `BigIntegerField` is not modelled.
- Column widths follow banks/models.py, plus the 10-character bank code of models.py. The wider Flask widths (names up to 100, state up to 50, unbounded address) are not modelled separately, and Flask's non-null `code` is optional here.
- Column widths: the `ValueTooLong` refusals assume a database backend that enforces `VARCHAR(n)` widths. Django's `objects.create` runs no `max_length` validation and SQLite stores overlong strings, so on such a backend an overlong value is stored rather than refused.
- Store.Store.CreateBranch: a refused insert is modelled as leaving the transaction usable. The broken-transaction effect this has inside the import's `transaction.atomic` is modelled only in `Import.LoadAsWritten` (see Findings).
- Import.LoadRealData: models the loop with each refused branch insert simply skipped, which is the behaviour the loop's `except` evidently intends. A bank creation that raises is modelled as ending the command with the tables rolled back.

## Findings

| source | as written | input that shows it | evidently intended | confidence | as-written member | corrected member |
|---|---|---|---|---|---|---|
| banks/management/commands/load_real_data.py:26-73 | The loop catches a failed `Branch.objects.create` inside one `transaction.atomic` block, with no savepoint of its own. Django then marks the transaction for rollback, every later query in the block fails, and leaving the block rolls back all changes. The command still reports success with its counts | a CSV that repeats one fitting row: the command reports 1 bank and 1 branch loaded, while the store keeps its old contents | a refused row is skipped and the other rows are committed, e.g. each create runs in its own nested `atomic` | medium; follows Django's documented transaction rules, not executed | Import.DuplicateRowRollsBackAsWritten | Import.ReplayIfscPresent |
