/** Derived accounted rows (accounting.go buildAccountedRecord; accounting_v2.go buildAccountedPlan
    and applyClassCorrection) and the ledger invariant they keep. */
module Derived {
  import opened Types
  import opened Matching
  import opened Evidence

  type ClassMap = map<ConnKey, AccountingClass>

  /** The columns a row projects onto dimensions. */
  datatype Names = Names(process: string, host: string, destIP: string, network: string, rule: string,
                         rulePayload: string, finalProxy: string, topGroup: string)

  datatype AccountedRow = AccountedRow(seqno: nat, key: ConnKey, at: Time, interval: Option<Interval>, exact: bool,
                                       route: Route, names: Names, raw: Bytes, accounted: Bytes,
                                       decided: AccountingClass)

  function AccountedBytes(c: AccountingClass, raw: Bytes): Bytes {
    if c.ConfirmedDuplicate? then NO_BYTES else raw
  }

  /** An unknown connection falls back to unique. */
  function ClassFor(classes: ClassMap, k: ConnKey): AccountingClass {
    if k in classes then classes[k] else Unique
  }

  function NamesOf(d: Draft, route: Route): Names {
    Names(d.meta.process, d.meta.host, d.meta.destIP, d.meta.network, d.meta.rule, d.meta.rulePayload,
          if route.Direct? then "DIRECT" else if d.meta.chains != [] then d.meta.chains[0] else "",
          if !route.Direct? && d.meta.chains != [] then d.meta.chains[|d.meta.chains| - 1] else "")
  }

  function BuildRecord(it: TrafficItem, c: AccountingClass): AccountedRow {
    var route := if it.body.route.NoRoute? then Unknown else it.body.route;
    AccountedRow(it.seqno, it.key, it.body.at, it.body.interval, it.body.precision.ExactSnapshot?, route,
                 NamesOf(it.body, route), it.body.delta, AccountedBytes(c, it.body.delta), c)
  }

  predicate HasBytes(it: TrafficItem) {
    it.body.delta.up != 0 || it.body.delta.down != 0
  }

  /** Zero-byte evidence is compacted away. */
  function Nonzero(items: seq<TrafficItem>): seq<TrafficItem> {
    if items == [] then []
    else
      var it := items[|items| - 1];
      Nonzero(items[..|items| - 1]) + if HasBytes(it) then [it] else []
  }

  function PlanRows(items: seq<TrafficItem>, classes: ClassMap): seq<AccountedRow> {
    if items == [] then []
    else
      var it := items[|items| - 1];
      PlanRows(items[..|items| - 1], classes)
      + if HasBytes(it) then [BuildRecord(it, ClassFor(classes, it.key))] else []
  }

  lemma {:induction false} NonzeroConcat(a: seq<TrafficItem>, b: seq<TrafficItem>)
    ensures Nonzero(a + b) == Nonzero(a) + Nonzero(b)
  {
    if b == [] {
      assert a + b == a;
    } else {
      NonzeroConcat(a, b[..|b| - 1]);
      assert (a + b)[..|a + b| - 1] == a + b[..|b| - 1];
    }
  }

  lemma {:induction false} NonzeroMembers(items: seq<TrafficItem>)
    ensures forall it :: it in Nonzero(items) <==> it in items && HasBytes(it)
  {
    if items != [] {
      NonzeroMembers(items[..|items| - 1]);
      assert items == items[..|items| - 1] + [items[|items| - 1]];
    }
  }

  // ---------------------------------------------------------------------------------------------
  // The ledger
  // ---------------------------------------------------------------------------------------------

  /** The row holds the item's evidence, accounted by the stored class of its connection. A row's own
      class column may lag behind the stored class, but not across the confirmed-duplicate line. */
  predicate Books(r: AccountedRow, it: TrafficItem, classes: ClassMap) {
    && r == BuildRecord(it, r.decided)
    && (r.decided.ConfirmedDuplicate? <==> ClassFor(classes, it.key).ConfirmedDuplicate?)
  }

  ghost predicate Ledger(rows: seq<AccountedRow>, items: seq<TrafficItem>, classes: ClassMap) {
    |rows| == |items| && forall i :: 0 <= i < |rows| ==> Books(rows[i], items[i], classes)
  }

  lemma LedgerAccounts(rows: seq<AccountedRow>, items: seq<TrafficItem>, classes: ClassMap)
    requires Ledger(rows, items, classes)
    ensures forall r :: r in rows ==> r.accounted == AccountedBytes(ClassFor(classes, r.key), r.raw)
  {
  }

  lemma LedgerConcat(a: seq<AccountedRow>, b: seq<AccountedRow>, x: seq<TrafficItem>, y: seq<TrafficItem>,
                     classes: ClassMap)
    requires Ledger(a, x, classes) && Ledger(b, y, classes)
    ensures Ledger(a + b, x + y, classes)
  {
  }

  lemma {:induction false} PlanIsLedger(items: seq<TrafficItem>, planned: ClassMap, stored: ClassMap)
    requires forall it :: it in items ==> ClassFor(planned, it.key) == ClassFor(stored, it.key)
    ensures Ledger(PlanRows(items, planned), Nonzero(items), stored)
  {
    if items != [] {
      var front, it := items[..|items| - 1], items[|items| - 1];
      PlanIsLedger(front, planned, stored);
      if HasBytes(it) {
        LedgerConcat(PlanRows(front, planned), [BuildRecord(it, ClassFor(planned, it.key))],
                     Nonzero(front), [it], stored);
      }
    }
  }

  // ---------------------------------------------------------------------------------------------
  // Class corrections
  // ---------------------------------------------------------------------------------------------

  /** Rows whose bytes do not change are skipped, class column included. */
  function CorrectRow(r: AccountedRow, changes: ClassMap): AccountedRow {
    if r.key !in changes || AccountedBytes(changes[r.key], r.raw) == r.accounted then r
    else r.(accounted := AccountedBytes(changes[r.key], r.raw), decided := changes[r.key])
  }

  function CorrectRows(rows: seq<AccountedRow>, changes: ClassMap): seq<AccountedRow> {
    seq(|rows|, i requires 0 <= i < |rows| => CorrectRow(rows[i], changes))
  }

  lemma CorrectedRowBooks(r: AccountedRow, it: TrafficItem, classes: ClassMap, changes: ClassMap)
    requires Books(r, it, classes) && HasBytes(it)
    ensures Books(CorrectRow(r, changes), it, classes + changes)
  {
  }

  lemma CorrectionKeepsLedger(rows: seq<AccountedRow>, items: seq<TrafficItem>, classes: ClassMap, changes: ClassMap)
    requires Ledger(rows, items, classes) && forall it :: it in items ==> HasBytes(it)
    ensures Ledger(CorrectRows(rows, changes), items, classes + changes)
  {
    forall i | 0 <= i < |rows| ensures Books(CorrectRows(rows, changes)[i], items[i], classes + changes) {
      assert items[i] in items;
      CorrectedRowBooks(rows[i], items[i], classes, changes);
    }
  }

  // ---------------------------------------------------------------------------------------------
  // Totals
  // ---------------------------------------------------------------------------------------------

  function RawTotal(rows: seq<AccountedRow>): Bytes {
    if rows == [] then NO_BYTES
    else
      var front, r := RawTotal(rows[..|rows| - 1]), rows[|rows| - 1];
      Bytes(front.up + r.raw.up, front.down + r.raw.down)
  }

  function AccountedTotal(rows: seq<AccountedRow>): Bytes {
    if rows == [] then NO_BYTES
    else
      var front, r := AccountedTotal(rows[..|rows| - 1]), rows[|rows| - 1];
      Bytes(front.up + r.accounted.up, front.down + r.accounted.down)
  }

  lemma {:induction false} TotalsConcat(a: seq<AccountedRow>, b: seq<AccountedRow>)
    ensures RawTotal(a + b) == Bytes(RawTotal(a).up + RawTotal(b).up, RawTotal(a).down + RawTotal(b).down)
    ensures AccountedTotal(a + b)
            == Bytes(AccountedTotal(a).up + AccountedTotal(b).up, AccountedTotal(a).down + AccountedTotal(b).down)
  {
    if b == [] {
      assert a + b == a;
    } else {
      TotalsConcat(a, b[..|b| - 1]);
      assert (a + b)[..|a + b| - 1] == a + b[..|b| - 1];
    }
  }

  lemma {:induction false} CorrectionKeepsRaw(rows: seq<AccountedRow>, changes: ClassMap)
    ensures RawTotal(CorrectRows(rows, changes)) == RawTotal(rows)
  {
    if rows != [] {
      CorrectionKeepsRaw(rows[..|rows| - 1], changes);
      assert CorrectRows(rows, changes)[..|rows| - 1] == CorrectRows(rows[..|rows| - 1], changes);
    }
  }

  /** Accounted bytes never exceed raw bytes, so the publish-time invariant check cannot fail. */
  lemma {:induction false} AccountedWithinRaw(rows: seq<AccountedRow>)
    requires forall r :: r in rows ==> 0 <= r.raw.up && 0 <= r.raw.down
    requires forall r :: r in rows ==> r.accounted == r.raw || r.accounted == NO_BYTES
    ensures AccountedTotal(rows).AtMost(RawTotal(rows))
    ensures AccountedTotal(rows).up >= 0 && AccountedTotal(rows).down >= 0
  {
    if rows != [] {
      AccountedWithinRaw(rows[..|rows| - 1]);
      assert rows[|rows| - 1] in rows;
    }
  }
}
