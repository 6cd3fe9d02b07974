/**
 * The bulk import of banks/management/commands/load_real_data.py: clear
 * both tables, then for each row get or create its bank by the external
 * bank id (remembered in `banks_created`) and attempt one branch insert,
 * skipping a row whose insert the database refuses and counting the ones
 * it accepts.
 *
 * The CSV file is not read here: the rows arrive already parsed, and the
 * existence check on the file is a boolean input.
 */
module Import {
  import opened Wrappers
  import opened Records
  import opened Store

  /** One parsed row of bank_branches.csv. */
  datatype Row = Row(
    bankId: int, bankName: string,
    ifsc: string, branch: string, address: string, city: string, district: string, state: string)

  /** The bank a row creates when its id is new. */
  function RowBank(row: Row): Bank
  {
    Bank(row.bankId, row.bankName, None)
  }

  /** The branch a row attempts to insert. */
  function RowBranch(row: Row): Branch
  {
    Branch(row.ifsc, row.bankId, row.branch, row.address, row.city, Some(row.district), row.state)
  }

  /** What the command reports. */
  datatype ImportOutcome =
    | FileNotFound
    | Loaded(banks: nat, branches: nat)
    | Aborted(bankId: int)   // creating this bank raised, which ends the command

  /** The tables after some rows, and the bank id whose creation raised, if one did. */
  datatype Progress = Progress(tables: Tables, failedBank: Option<int>)

  /** One attempted branch insert; a refused insert leaves the tables as they were. */
  function AttemptBranch(t: Tables, row: Row): Tables
  {
    match InsertBranch(t, RowBranch(row))
    case Success(t') => t'
    case Failure(_) => t
  }

  /** The two outcomes of an attempted branch insert. */
  lemma AttemptBranchEffect(t: Tables, row: Row)
    ensures InsertBranch(t, RowBranch(row)).Success? ==>
              AttemptBranch(t, row) == Tables(t.banks, t.branches + [RowBranch(row)])
    ensures InsertBranch(t, RowBranch(row)).Failure? ==> AttemptBranch(t, row) == t
    ensures Consistent(t) ==> Consistent(AttemptBranch(t, row))
  {
  }

  /** One iteration of the import loop. */
  function Step(p: Progress, row: Row): Progress
  {
    if p.failedBank.Some? then p
    else if row.bankId in BankIds(p.tables.banks) then Progress(AttemptBranch(p.tables, row), None)
    else
      match InsertBank(p.tables, RowBank(row))
      case Failure(_) => Progress(p.tables, Some(row.bankId))
      case Success(t) => Progress(AttemptBranch(t, row), None)
  }

  /** The tables the import builds from `rows`, starting from empty tables. */
  function Replay(rows: seq<Row>): (p: Progress)
    ensures |p.tables.branches| <= |rows|
  {
    if rows == [] then Progress(Tables([], []), None)
    else Step(Replay(rows[..|rows| - 1]), rows[|rows| - 1])
  }

  /** The rows before the last one. */
  function Init(rows: seq<Row>): seq<Row>
    requires rows != []
  {
    rows[..|rows| - 1]
  }

  /** Replaying a prefix one row longer is one more step. */
  lemma ReplayExtends(rows: seq<Row>, k: nat)
    requires k < |rows|
    ensures Replay(rows[..k + 1]) == Step(Replay(rows[..k]), rows[k])
  {
    assert rows[..k + 1][..k] == rows[..k];
  }

  /** Replaying a sequence is stepping on from its initial part. */
  lemma ReplayLast(rows: seq<Row>)
    requires rows != []
    ensures Replay(rows) == Step(Replay(Init(rows)), rows[|rows| - 1])
    ensures Replay(rows).failedBank.None? ==> Replay(Init(rows)).failedBank.None?
    ensures forall j :: 0 <= j < |Init(rows)| ==> Init(rows)[j] == rows[j]
  {
  }

  /** A step that raises changes no table. */
  lemma StepFailure(p: Progress, row: Row)
    requires p.failedBank.None? && Step(p, row).failedBank.Some?
    ensures Step(p, row).tables == p.tables
    ensures Step(p, row).failedBank == Some(row.bankId)
  {
  }

  /** A step that does not raise leaves the row's bank in the table, added if it was new. */
  lemma StepBanks(p: Progress, row: Row)
    requires p.failedBank.None? && Step(p, row).failedBank.None?
    ensures BankIds(Step(p, row).tables.banks) == BankIds(p.tables.banks) + {row.bankId}
    ensures forall b :: b in Step(p, row).tables.banks <==>
              b in p.tables.banks || (b == RowBank(row) && row.bankId !in BankIds(p.tables.banks))
  {
    if row.bankId !in BankIds(p.tables.banks) {
      assert BankIds(p.tables.banks + [RowBank(row)]) == BankIds(p.tables.banks) + {row.bankId};
    }
  }

  /**
   * A step that does not raise adds the row's branch when its IFSC is new
   * and it fits the columns, and otherwise keeps the branches as they were.
   */
  lemma StepBranches(p: Progress, row: Row)
    requires p.failedBank.None? && Step(p, row).failedBank.None?
    ensures forall br :: br in Step(p, row).tables.branches <==>
              br in p.tables.branches ||
              (br == RowBranch(row) && br.ifsc !in Ifscs(p.tables.branches) && BranchFits(br))
  {
    var t := if row.bankId in BankIds(p.tables.banks) then p.tables
             else InsertBank(p.tables, RowBank(row)).value;
    assert row.bankId in BankIds(t.banks) && t.branches == p.tables.branches;
    assert Step(p, row).tables == AttemptBranch(t, row);
  }

  /**
   * After a step that does not raise, the row's IFSC is taken whenever its
   * branch fits, and every IFSC taken before still is.
   */
  lemma StepIfscs(p: Progress, row: Row)
    requires p.failedBank.None? && Step(p, row).failedBank.None?
    ensures Ifscs(p.tables.branches) <= Ifscs(Step(p, row).tables.branches)
    ensures BranchFits(RowBranch(row)) ==> row.ifsc in Ifscs(Step(p, row).tables.branches)
  {
    StepBranches(p, row);
    if BranchFits(RowBranch(row)) && row.ifsc !in Ifscs(p.tables.branches) {
      assert RowBranch(row) in Step(p, row).tables.branches;
    }
  }

  /** A step keeps the constraints, and adds a bank only under a new id. */
  lemma StepConsistent(p: Progress, row: Row)
    requires Consistent(p.tables)
    requires |p.tables.banks| == |BankIds(p.tables.banks)|
    ensures Consistent(Step(p, row).tables)
    ensures |Step(p, row).tables.banks| == |BankIds(Step(p, row).tables.banks)|
  {
    if p.failedBank.None? {
      var t := p.tables;
      if row.bankId !in BankIds(t.banks) {
        var added := InsertBank(t, RowBank(row));
        if added.Success? {
          BankIdsSnoc(t.banks, RowBank(row));
          t := added.value;
        } else {
          assert Step(p, row).tables == p.tables;
          return;
        }
      }
      assert Step(p, row).tables == AttemptBranch(t, row);
      AttemptBranchEffect(t, row);
    }
  }

  /** A step never removes a branch. */
  lemma StepKeepsBranches(p: Progress, row: Row)
    ensures forall br :: br in p.tables.branches ==> br in Step(p, row).tables.branches
  {
    if p.failedBank.None? && Step(p, row).failedBank.None? {
      StepBranches(p, row);
    }
  }

  /**
   * The imported tables keep every constraint of the database, and no two
   * of their banks share an id, so there are as many banks as bank ids.
   */
  lemma {:induction false} ReplayConsistent(rows: seq<Row>)
    ensures Consistent(Replay(rows).tables)
    ensures |Replay(rows).tables.banks| == |BankIds(Replay(rows).tables.banks)|
  {
    if rows != [] {
      var prev := Replay(Init(rows));
      var row := rows[|rows| - 1];
      ReplayLast(rows);
      ReplayConsistent(Init(rows));
      if prev.failedBank.None? && Step(prev, row).failedBank.None? {
        StepBanks(prev, row);
        StepConsistent(prev, row);
      }
    }
  }

  /** Once a bank creation has raised, later rows change nothing. */
  lemma {:induction false} ReplayStopsAtFailure(rows: seq<Row>, k: nat)
    requires k <= |rows|
    requires Replay(rows[..k]).failedBank.Some?
    ensures Replay(rows) == Replay(rows[..k])
  {
    if k < |rows| {
      var init := rows[..|rows| - 1];
      assert init[..k] == rows[..k];
      ReplayStopsAtFailure(init, k);
    } else {
      assert rows[..k] == rows;
    }
  }

  /** The bank ids of a sequence of rows. */
  function RowBankIds(rows: seq<Row>): set<int>
  {
    set row | row in rows :: row.bankId
  }

  lemma RowBankIdsSnoc(init: seq<Row>, row: Row)
    ensures RowBankIds(init + [row]) == RowBankIds(init) + {row.bankId}
  {
    assert forall r :: r in init + [row] <==> r in init || r == row;
  }

  /**
   * When no bank creation raised, the import made one bank per distinct
   * bank id of the rows, and no other: the banks table has exactly as many
   * rows as there are distinct ids.
   */
  lemma {:induction false} ReplayBankIds(rows: seq<Row>)
    requires Replay(rows).failedBank.None?
    ensures BankIds(Replay(rows).tables.banks) == RowBankIds(rows)
    ensures |Replay(rows).tables.banks| == |RowBankIds(rows)|
  {
    ReplayConsistent(rows);
    ReplayBankIdsRec(rows);
  }

  lemma {:induction false} ReplayBankIdsRec(rows: seq<Row>)
    requires Replay(rows).failedBank.None?
    ensures BankIds(Replay(rows).tables.banks) == RowBankIds(rows)
  {
    if rows != [] {
      var init := Init(rows);
      var row := rows[|rows| - 1];
      var prev := Replay(init);
      ReplayLast(rows);
      ReplayBankIdsRec(init);
      StepBanks(prev, row);
      assert rows == init + [row];
      RowBankIdsSnoc(init, row);
      calc {
        BankIds(Replay(rows).tables.banks);
        BankIds(Step(prev, row).tables.banks);
        BankIds(prev.tables.banks) + {row.bankId};
        RowBankIds(init) + {row.bankId};
        RowBankIds(rows);
      }
    }
  }

  /** Row `k` is the first row that carries bank id `id`. */
  ghost predicate FirstWithBankId(rows: seq<Row>, k: int, id: int)
  {
    0 <= k < |rows| && rows[k].bankId == id && forall j :: 0 <= j < k ==> rows[j].bankId != id
  }

  /** A bank the last step added is the last row's, and no earlier row carries its id. */
  lemma NewBankFromLastRow(rows: seq<Row>, b: Bank)
    requires rows != []
    requires b in Replay(rows).tables.banks && b !in Replay(Init(rows)).tables.banks
    ensures FirstWithBankId(rows, |rows| - 1, b.id) && b == RowBank(rows[|rows| - 1])
  {
    var init := Init(rows);
    var row := rows[|rows| - 1];
    var prev := Replay(init);
    ReplayLast(rows);
    if prev.failedBank.Some? || Step(prev, row).failedBank.Some? {
      assert false;
    }
    StepBanks(prev, row);
    assert b == RowBank(row) && b.id !in BankIds(prev.tables.banks);
    ReplayBankIds(init);
    forall j | 0 <= j < |init| ensures rows[j].bankId != b.id {
      assert init[j] in init;
    }
  }

  /** Every bank is the one the first row carrying its id describes; later rows reuse it. */
  lemma {:induction false} ReplayBankFromFirstRow(rows: seq<Row>, b: Bank)
    requires b in Replay(rows).tables.banks
    ensures exists k :: FirstWithBankId(rows, k, b.id) && b == RowBank(rows[k])
  {
    var init := Init(rows);
    ReplayLast(rows);
    if b in Replay(init).tables.banks {
      ReplayBankFromFirstRow(init, b);
      var k :| FirstWithBankId(init, k, b.id) && b == RowBank(init[k]);
      assert FirstWithBankId(rows, k, b.id);
    } else {
      NewBankFromLastRow(rows, b);
    }
  }

  /** The last row's IFSC is in the table after its step, when its branch fits. */
  lemma ReplayLastIfsc(rows: seq<Row>)
    requires rows != []
    requires Replay(rows).failedBank.None?
    ensures BranchFits(RowBranch(rows[|rows| - 1])) ==> rows[|rows| - 1].ifsc in Ifscs(Replay(rows).tables.branches)
  {
    ReplayLast(rows);
    StepIfscs(Replay(Init(rows)), rows[|rows| - 1]);
  }

  /**
   * When no bank creation raised, every row whose branch fits the columns
   * has its IFSC in the branches table: its own insert succeeded, or an
   * earlier row had taken the IFSC.
   */
  lemma {:induction false} ReplayIfscPresent(rows: seq<Row>, k: nat)
    requires Replay(rows).failedBank.None?
    requires k < |rows|
    requires BranchFits(RowBranch(rows[k]))
    ensures rows[k].ifsc in Ifscs(Replay(rows).tables.branches)
  {
    var init := Init(rows);
    ReplayLast(rows);
    if k < |init| {
      StepIfscs(Replay(init), rows[|rows| - 1]);
      assert init[k] == rows[k];
      ReplayIfscPresent(init, k);
    } else {
      ReplayLastIfsc(rows);
      assert k == |rows| - 1;
    }
  }

  /**
   * Where a branch of the imported table came from: row `k` produced it,
   * and no earlier row with the same IFSC had a branch that fit the columns.
   */
  ghost predicate KeptFrom(rows: seq<Row>, k: int, br: Branch)
  {
    && 0 <= k < |rows|
    && RowBranch(rows[k]) == br
    && forall j :: 0 <= j < k && rows[j].ifsc == br.ifsc ==> !BranchFits(RowBranch(rows[j]))
  }

  /** Each imported branch is the first insertable row for its IFSC. */
  lemma {:induction false} ReplayBranchOrigin(rows: seq<Row>, br: Branch)
    requires br in Replay(rows).tables.branches
    ensures exists k :: KeptFrom(rows, k, br)
  {
    var init := Init(rows);
    var row := rows[|rows| - 1];
    var prev := Replay(init);
    ReplayLast(rows);
    if br in prev.tables.branches {
      ReplayBranchOrigin(init, br);
      var k :| KeptFrom(init, k, br);
      assert KeptFrom(rows, k, br);
    } else {
      if prev.failedBank.Some? || Step(prev, row).failedBank.Some? {
        assert false;
      }
      StepBranches(prev, row);
      assert br == RowBranch(row) && br.ifsc !in Ifscs(prev.tables.branches);
      forall j | 0 <= j < |init| && rows[j].ifsc == br.ifsc ensures !BranchFits(RowBranch(rows[j])) {
        if BranchFits(RowBranch(rows[j])) {
          ReplayIfscPresent(init, j);
          assert false;
        }
      }
      assert KeptFrom(rows, |init|, br);
    }
  }

  /**
   * Two rows with one IFSC: when the earlier one's branch fits, the later
   * one's branch is in the table only as a copy of a row at or before the
   * earlier one, so a later duplicate never replaces an earlier branch.
   */
  lemma EarlierDuplicateWins(rows: seq<Row>, i: nat, j: nat)
    requires i < j < |rows|
    requires rows[i].ifsc == rows[j].ifsc
    requires BranchFits(RowBranch(rows[i]))
    requires RowBranch(rows[j]) in Replay(rows).tables.branches
    ensures exists k :: 0 <= k <= i && RowBranch(rows[k]) == RowBranch(rows[j])
  {
    ReplayBranchOrigin(rows, RowBranch(rows[j]));
    var k :| KeptFrom(rows, k, RowBranch(rows[j]));
    assert k <= i;
  }

  /**
   * The earlier fitting row wins: when no bank creation raised, the first
   * row of an IFSC whose branch fits the columns has exactly its own branch
   * in the table.
   */
  lemma {:induction false} FirstFittingRowKept(rows: seq<Row>, i: nat)
    requires Replay(rows).failedBank.None?
    requires i < |rows|
    requires BranchFits(RowBranch(rows[i]))
    requires forall j :: 0 <= j < i && rows[j].ifsc == rows[i].ifsc ==> !BranchFits(RowBranch(rows[j]))
    ensures RowBranch(rows[i]) in Replay(rows).tables.branches
  {
    ReplayIfscHolder(rows, i);
    var br :| br in Replay(rows).tables.branches && br.ifsc == rows[i].ifsc;
    ReplayBranchKept(rows, br);
    var k :| KeptFrom(rows, k, br);
    KeptIsFirstFitting(rows, i, k, br);
  }

  /** Some branch of the table holds the IFSC of each fitting row. */
  lemma {:induction false} ReplayIfscHolder(rows: seq<Row>, i: nat)
    requires Replay(rows).failedBank.None?
    requires i < |rows|
    requires BranchFits(RowBranch(rows[i]))
    ensures exists br :: br in Replay(rows).tables.branches && br.ifsc == rows[i].ifsc
  {
    ReplayIfscPresent(rows, i);
    assert rows[i].ifsc in Ifscs(Replay(rows).tables.branches);
  }

  /** Every imported branch fits the columns and was kept from some row. */
  lemma {:induction false} ReplayBranchKept(rows: seq<Row>, br: Branch)
    requires br in Replay(rows).tables.branches
    ensures BranchFits(br)
    ensures exists k :: KeptFrom(rows, k, br)
  {
    ReplayConsistent(rows);
    ReplayBranchOrigin(rows, br);
  }

  /** The row a fitting branch was kept from is the first fitting row of its IFSC. */
  lemma KeptIsFirstFitting(rows: seq<Row>, i: nat, k: int, br: Branch)
    requires i < |rows|
    requires BranchFits(RowBranch(rows[i]))
    requires forall j :: 0 <= j < i && rows[j].ifsc == rows[i].ifsc ==> !BranchFits(RowBranch(rows[j]))
    requires KeptFrom(rows, k, br) && BranchFits(br) && br.ifsc == rows[i].ifsc
    ensures br == RowBranch(rows[i])
  {
    if k < i {
      assert false;
    } else if k > i {
      assert false;
    }
  }

  /**
   * The loop as written runs inside one `transaction.atomic` block and
   * swallows a refused `Branch.objects.create` without a savepoint of its
   * own. The refused insert marks the transaction for rollback: from then
   * on every query in the block raises, so later branch inserts fail (and
   * are swallowed too), a later `get_or_create` raises out of the command,
   * and leaving the block rolls every change back, the two deletes
   * included. `poisoned` records that the transaction is so marked.
   */
  datatype Pass = Pass(tables: Tables, created: set<int>, branches: nat, poisoned: bool, raised: Option<int>)

  /**
   * One iteration of the loop as written. A raise ends the loop; once the
   * transaction is marked for rollback nothing takes effect any more; a
   * refused branch insert is what marks it; and every row that does not
   * raise leaves its bank id in `banks_created`.
   */
  function StepAsWritten(p: Pass, row: Row): (r: Pass)
    ensures p.raised.Some? ==> r == p
    ensures p.poisoned ==> r.poisoned && r.tables == p.tables && r.created == p.created && r.branches == p.branches
    ensures p.raised.None? && !p.poisoned && r.raised.None? ==> (r.poisoned <==> r.branches == p.branches)
    ensures r.branches <= p.branches + 1
    ensures r.raised.None? ==> r.created == p.created + {row.bankId}
  {
    if p.raised.Some? then p
    else if row.bankId !in p.created && p.poisoned then p.(raised := Some(row.bankId))
    else if row.bankId !in p.created && row.bankId !in BankIds(p.tables.banks)
            && InsertBank(p.tables, RowBank(row)).Failure? then p.(raised := Some(row.bankId))
    else if p.poisoned then p
    else
      var t := if row.bankId in p.created || row.bankId in BankIds(p.tables.banks) then p.tables
               else InsertBank(p.tables, RowBank(row)).value;
      var created := p.created + {row.bankId};
      match InsertBranch(t, RowBranch(row))
      case Success(t') => Pass(t', created, p.branches + 1, false, None)
      case Failure(_) => Pass(t, created, p.branches, true, None)
  }

  /**
   * The loop as written over `rows`, after both tables were emptied: it
   * counts at most one branch per row, and unless it raised,
   * `banks_created` holds exactly the rows' bank ids.
   */
  function PassAsWritten(rows: seq<Row>): (r: Pass)
    ensures r.branches <= |rows|
    ensures r.raised.None? ==> r.created == RowBankIds(rows)
  {
    if rows == [] then Pass(Tables([], []), {}, 0, false, None)
    else
      var init, last := rows[..|rows| - 1], rows[|rows| - 1];
      assert rows == init + [last];
      RowBankIdsSnoc(init, last);
      StepAsWritten(PassAsWritten(init), last)
  }

  /**
   * As long as no insert was refused and no bank creation raised, the loop
   * as written builds what `Replay` builds, `banks_created` names the banks
   * of the table and the branch counter counts its branches.
   */
  lemma {:induction false} AsWrittenAgreesWhileClean(rows: seq<Row>)
    requires PassAsWritten(rows).raised.None? && !PassAsWritten(rows).poisoned
    ensures Replay(rows) == Progress(PassAsWritten(rows).tables, None)
    ensures PassAsWritten(rows).created == BankIds(PassAsWritten(rows).tables.banks)
    ensures PassAsWritten(rows).branches == |PassAsWritten(rows).tables.branches|
  {
    if rows != [] {
      var init, row := Init(rows), rows[|rows| - 1];
      var prev := PassAsWritten(init);
      assert PassAsWritten(rows) == StepAsWritten(prev, row);
      ReplayLast(rows);
      AsWrittenAgreesWhileClean(init);
      var t := prev.tables;
      StepCases(t, row);
      AttemptBranchEffect(t, row);
      if row.bankId !in BankIds(t.banks) {
        var t1 := InsertBank(t, RowBank(row)).value;
        AttemptBranchEffect(t1, row);
        BankIdsSnoc(t.banks, RowBank(row));
      }
    }
  }

  /**
   * The command as written, on a store holding `before`: what it reports
   * and the tables it leaves once the transaction has committed or rolled
   * back. A raise aborts it and a refused insert rolls it back, yet reports
   * the number of distinct bank ids as the banks loaded; with neither, it
   * does what `LoadRealData` does.
   */
  function LoadAsWritten(before: Tables, rows: seq<Row>): (r: (ImportOutcome, Tables))
    ensures r.0.Aborted? <==> PassAsWritten(rows).raised.Some?
    ensures PassAsWritten(rows).raised.Some? || PassAsWritten(rows).poisoned ==> r.1 == before
    ensures r.0.Loaded? ==> r.0.banks == |RowBankIds(rows)|
    ensures PassAsWritten(rows).raised.None? ==> r.0 == Loaded(|RowBankIds(rows)|, PassAsWritten(rows).branches)
    ensures PassAsWritten(rows).raised.None? && !PassAsWritten(rows).poisoned ==>
              && Replay(rows).failedBank.None?
              && r == (Loaded(|Replay(rows).tables.banks|, |Replay(rows).tables.branches|), Replay(rows).tables)
  {
    var p := PassAsWritten(rows);
    if p.raised.Some? then (Aborted(p.raised.value), before)
    else if p.poisoned then (Loaded(|p.created|, p.branches), before)
    else
      AsWrittenAgreesWhileClean(rows);
      ReplayBankIds(rows);
      (Loaded(|p.created|, p.branches), p.tables)
  }

  /**
   * A CSV that repeats a row: as written, the command reports one bank and
   * one branch loaded, yet the transaction rolls back and the store keeps
   * whatever it held before; skipping the refused row instead, as `Replay`
   * does, loads the bank and the branch.
   */
  lemma DuplicateRowRollsBackAsWritten(before: Tables, row: Row)
    requires BankFits(RowBank(row)) && BranchFits(RowBranch(row))
    ensures LoadAsWritten(before, [row, row]) == (Loaded(1, 1), before)
    ensures Replay([row, row]) == Progress(Tables([RowBank(row)], [RowBranch(row)]), None)
  {
    RepeatedRowAsWritten(row);
    RepeatedRowReplayed(row);
  }

  /** The loop as written over a repeated row: the second insert marks the transaction. */
  lemma RepeatedRowAsWritten(row: Row)
    requires BankFits(RowBank(row)) && BranchFits(RowBranch(row))
    ensures PassAsWritten([row, row]) == Pass(Tables([RowBank(row)], [RowBranch(row)]), {row.bankId}, 1, true, None)
  {
    var one := Tables([RowBank(row)], [RowBranch(row)]);
    assert [row, row][..1] == [row] && [row][..0] == [];
    assert PassAsWritten([row]) == Pass(one, {row.bankId}, 1, false, None);
    assert Ifscs(one.branches) == {row.ifsc};
  }

  /** `Replay` over a repeated row skips the second branch. */
  lemma RepeatedRowReplayed(row: Row)
    requires BankFits(RowBank(row)) && BranchFits(RowBranch(row))
    ensures Replay([row, row]) == Progress(Tables([RowBank(row)], [RowBranch(row)]), None)
  {
    var one := Tables([RowBank(row)], [RowBranch(row)]);
    assert [row, row][..1] == [row] && [row][..0] == [];
    assert Replay([row]) == Progress(one, None);
    assert BankIds(one.banks) == {row.bankId};
    assert Ifscs(one.branches) == {row.ifsc};
  }

  /** `banks_created` names exactly the banks of the table, each under its own id. */
  ghost predicate TracksBanks(created: map<int, Bank>, banks: seq<Bank>)
  {
    && created.Keys == BankIds(banks)
    && forall id :: id in created ==> created[id].id == id
  }

  /** The three ways a step from a state without failure can go. */
  lemma StepCases(t: Tables, row: Row)
    ensures row.bankId in BankIds(t.banks) ==>
              Step(Progress(t, None), row) == Progress(AttemptBranch(t, row), None)
    ensures row.bankId !in BankIds(t.banks) && InsertBank(t, RowBank(row)).Failure? ==>
              Step(Progress(t, None), row) == Progress(t, Some(row.bankId))
    ensures row.bankId !in BankIds(t.banks) && InsertBank(t, RowBank(row)).Success? ==>
              Step(Progress(t, None), row) == Progress(AttemptBranch(InsertBank(t, RowBank(row)).value, row), None)
  {
  }

  /** Recording a newly created bank keeps `banks_created` in step with the table. */
  lemma TracksBanksSnoc(created: map<int, Bank>, banks: seq<Bank>, b: Bank)
    requires TracksBanks(created, banks)
    ensures TracksBanks(created[b.id := b], banks + [b])
  {
    BankIdsSnoc(banks, b);
  }

  /**
   * The first half of a pass of the loop body of `Command.handle`: get or
   * create the row's bank unless `banks_created` already has it. `raised`
   * is set when creating the bank raised; otherwise what remains of the
   * step is the branch insert.
   */
  method ImportBank(store: Store, created: map<int, Bank>, row: Row)
      returns (created': map<int, Bank>, raised: bool)
    requires store.Valid()
    requires TracksBanks(created, store.banks)
    modifies store
    ensures store.Valid()
    ensures store.branches == old(store.branches)
    ensures raised ==>
              && store.Snapshot() == old(store.Snapshot())
              && Step(Progress(old(store.Snapshot()), None), row) == Progress(store.Snapshot(), Some(row.bankId))
    ensures !raised ==>
              && TracksBanks(created', store.banks)
              && row.bankId in created'
              && Step(Progress(old(store.Snapshot()), None), row) == Progress(AttemptBranch(store.Snapshot(), row), None)
  {
    ghost var t := store.Snapshot();
    StepCases(t, row);
    created', raised := created, false;
    if row.bankId !in created {
      var got := store.GetOrCreateBank(row.bankId, row.bankName);
      if got.Failure? {
        raised := true;
        return;
      }
      created' := created[row.bankId := got.value.0];
      TracksBanksSnoc(created, t.banks, RowBank(row));
    }
  }

  /**
   * One pass of the loop body of `Command.handle`: get or create the row's
   * bank unless `banks_created` already has it, then try to create the
   * branch. The store changes as `Step` says; `raised` is set when creating
   * the bank raised, and `added` when the branch insert succeeded.
   */
  method ImportRow(store: Store, created: map<int, Bank>, row: Row)
      returns (created': map<int, Bank>, raised: bool, added: bool)
    requires store.Valid()
    requires TracksBanks(created, store.banks)
    modifies store
    ensures store.Valid()
    ensures Step(Progress(old(store.Snapshot()), None), row)
            == Progress(store.Snapshot(), if raised then Some(row.bankId) else None)
    ensures !raised ==> TracksBanks(created', store.banks)
    ensures |store.branches| == |old(store.branches)| + (if added then 1 else 0)
  {
    added := false;
    created', raised := ImportBank(store, created, row);
    if raised {
      return;
    }
    ghost var t1 := store.Snapshot();
    var bank := created'[row.bankId];
    var result := store.CreateBranch(
      Branch(row.ifsc, bank.id, row.branch, row.address, row.city, Some(row.district), row.state));
    added := result.Success?;
    AttemptBranchEffect(t1, row);
    assert store.Snapshot() == AttemptBranch(t1, row);
  }

  /**
   * `Command.handle`: nothing happens when the CSV file is missing;
   * otherwise, in one transaction, both tables are emptied, branches first,
   * and the rows are imported one by one. When creating a bank raises, the
   * exception leaves the transaction, which rolls back, and the command
   * fails. Otherwise the tables end as `Replay(rows)` builds them and the
   * reported counts are the number of banks and of branches in them.
   */
  method LoadRealData(store: Store, csvExists: bool, rows: seq<Row>) returns (outcome: ImportOutcome)
    requires store.Valid()
    modifies store
    ensures store.Valid()
    ensures !csvExists ==> outcome == FileNotFound && store.Snapshot() == old(store.Snapshot())
    ensures csvExists && Replay(rows).failedBank.Some? ==>
              outcome == Aborted(Replay(rows).failedBank.value) && store.Snapshot() == old(store.Snapshot())
    ensures csvExists && Replay(rows).failedBank.None? ==>
              store.Snapshot() == Replay(rows).tables && outcome == Loaded(|store.banks|, |store.branches|)
  {
    if !csvExists {
      return FileNotFound;
    }
    ghost var saved := store.Snapshot();
    var rollback := store.Snapshot();
    store.DeleteAllBranches();
    store.DeleteAllBanks();
    var banksCreated: map<int, Bank> := map[];
    var branchesCreated := 0;
    var i := 0;
    assert rows[..0] == [];
    while i < |rows|
      invariant 0 <= i <= |rows|
      invariant store.Valid()
      invariant rollback == saved && Consistent(rollback)
      invariant Replay(rows[..i]) == Progress(store.Snapshot(), None)
      invariant TracksBanks(banksCreated, store.banks)
      invariant branchesCreated == |store.branches|
    {
      ReplayExtends(rows, i);
      var raised, added;
      banksCreated, raised, added := ImportRow(store, banksCreated, rows[i]);
      if raised {
        ReplayStopsAtFailure(rows, i + 1);
        store.Restore(rollback);
        return Aborted(rows[i].bankId);
      }
      if added {
        branchesCreated := branchesCreated + 1;
      }
      i := i + 1;
    }
    assert rows[..i] == rows;
    ReplayConsistent(rows);
    outcome := Loaded(|banksCreated|, branchesCreated);
  }
}
