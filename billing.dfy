/** The billing engine of src/app/api/billing-runs/run/route.ts, which
    scripts/billing.js repeats for batch use. The monthly run is one
    transaction: it claims the month by inserting a `billing_runs` row whose
    `run_month` is unique, debits the monthly fee from every wallet whose balance
    covers it, and writes the charged and skipped counts back to the run row.
    The registration fee is then debited once per wallet, from the wallets that
    cover it and have no earlier "registration" ledger row. */
module Billing {
  import opened Js
  import opened Schema
  import opened Sql
  import opened Access

  const Forbidden: string := "Forbidden."
  const FeeNotConfigured: string := "Monthly fee not configured."
  const AlreadyCharged: string := "Monthly fee already charged."
  const RegistrationNotConfigured: string := "Registration fee not configured."

  /** `MonthlyResult`: `{ ran: false, reason }` or `{ ran: true, charged, skipped,
      monthlyFee, runMonth }`. */
  datatype MonthlyResult =
    | MonthlyNotRun(reason: string)
    | MonthlyRan(charged: nat, skipped: nat, monthlyFee: int, runMonth: string)

  /** `RegistrationResult`: `{ ran: false, reason }` or `{ ran: true, charged,
      skipped, registrationFee }`. */
  datatype RegistrationResult =
    | RegistrationNotRun(reason: string)
    | RegistrationRan(charged: nat, skipped: nat, registrationFee: int)

  /** The body of the route's reply: `{ monthly, registration }`. */
  datatype BillingReport = BillingReport(monthly: MonthlyResult, registration: RegistrationResult)

  /** The script's results carry no fee and no month: `{ ran: false, reason }` or
      `{ ran: true, charged, skipped }`. */
  datatype RunSummary = NotRun(reason: string) | Ran(charged: nat, skipped: nat)

  datatype CycleSummary = CycleSummary(monthly: RunSummary, registration: RunSummary)

  function MonthlySummary(m: MonthlyResult): RunSummary {
    match m
    case MonthlyNotRun(reason) => NotRun(reason)
    case MonthlyRan(charged, skipped, _, _) => Ran(charged, skipped)
  }

  function RegistrationSummary(r: RegistrationResult): RunSummary {
    match r
    case RegistrationNotRun(reason) => NotRun(reason)
    case RegistrationRan(charged, skipped, _) => Ran(charged, skipped)
  }

  // ---------------------------------------------------------------------------
  // The statements of the monthly run

  /** `where balance >= $1`: the wallet covers the fee. */
  function Covers(fee: int): Wallet -> bool {
    (w: Wallet) => w.balance >= fee
  }

  /** The complement of `Covers`. */
  function FallsShort(fee: int): Wallet -> bool {
    (w: Wallet) => w.balance < fee
  }

  /** The billing month already has its run row. */
  predicate RunExists(runs: seq<BillingRun>, month: string) {
    exists r :: r in runs && r.runMonth == month
  }

  /** The unique constraint on `billing_runs.run_month`. */
  predicate UniqueMonths(runs: seq<BillingRun>) {
    forall i, j :: 0 <= i < j < |runs| ==> runs[i].runMonth != runs[j].runMonth
  }

  /** `insert into billing_runs … on conflict (run_month) do nothing returning id`:
      the row goes in exactly when its month is new, and `inserted` tells whether a
      row came back. */
  function InsertRun(runs: seq<BillingRun>, run: BillingRun): (r: (seq<BillingRun>, bool))
    ensures r.1 <==> !RunExists(runs, run.runMonth)
    ensures r.0 == if r.1 then runs + [run] else runs
    ensures UniqueMonths(runs) ==> UniqueMonths(r.0)
  {
    if RunExists(runs, run.runMonth) then (runs, false) else (runs + [run], true)
  }

  /** `update billing_runs set charged_count = $1, skipped_count = $2 where
      run_month = …`. */
  function UpdateRunCounts(runs: seq<BillingRun>, month: string, charged: int, skipped: int): (r: seq<BillingRun>)
    ensures |r| == |runs|
    ensures forall i :: 0 <= i < |runs| && runs[i].runMonth != month ==> r[i] == runs[i]
    ensures forall i :: 0 <= i < |runs| && runs[i].runMonth == month ==>
              r[i] == runs[i].(chargedCount := charged, skippedCount := skipped)
  {
    seq(|runs|, i requires 0 <= i < |runs| =>
      if runs[i].runMonth == month then runs[i].(chargedCount := charged, skippedCount := skipped) else runs[i])
  }

  /** The counts written to a freshly claimed month land on its run row alone. */
  lemma CountsOfNewRun(runs: seq<BillingRun>, run: BillingRun, charged: int, skipped: int)
    requires !RunExists(runs, run.runMonth)
    ensures UpdateRunCounts(runs + [run], run.runMonth, charged, skipped)
            == runs + [run.(chargedCount := charged, skippedCount := skipped)]
  {
    assert forall i :: 0 <= i < |runs| ==> runs[i] in runs;
  }

  /** One debit of `fee` per wallet of `ws`, in wallet order, with no `created_by`. */
  function Debits(ws: seq<Wallet>, fee: int, reason: string, note: string, now: int): (rows: seq<WalletTx>)
    ensures |rows| == |ws|
    ensures forall i :: 0 <= i < |ws| ==> rows[i] == WalletTx(ws[i].id, -fee, reason, Some(note), None, now)
  {
    seq(|ws|, i requires 0 <= i < |ws| => WalletTx(ws[i].id, -fee, reason, Some(note), None, now))
  }

  // ---------------------------------------------------------------------------
  // Balances: `wallets.balance` is the maintained sum of the wallet's ledger

  /** The wallet ids are the table's key. */
  predicate UniqueWalletIds(ws: seq<Wallet>) {
    forall i, j :: 0 <= i < j < |ws| ==> ws[i].id != ws[j].id
  }

  /** The sum of the amounts of `rows` booked to the wallet `walletId`. */
  function Booked(rows: seq<WalletTx>, walletId: string): int {
    if rows == [] then 0
    else (if rows[0].walletId == walletId then rows[0].amount else 0) + Booked(rows[1..], walletId)
  }

  /** The wallet table once the amount of each new ledger row is added to its
      wallet's balance. */
  function Settled(wallets: seq<Wallet>, rows: seq<WalletTx>): (r: seq<Wallet>)
    ensures |r| == |wallets|
  {
    seq(|wallets|, i requires 0 <= i < |wallets| =>
      wallets[i].(balance := wallets[i].balance + Booked(rows, wallets[i].id)))
  }

  lemma {:induction false} BookedAppend(a: seq<WalletTx>, b: seq<WalletTx>, walletId: string)
    ensures Booked(a + b, walletId) == Booked(a, walletId) + Booked(b, walletId)
  {
    if a == [] {
      assert a + b == b;
    } else {
      assert (a + b)[1..] == a[1..] + b;
      BookedAppend(a[1..], b, walletId);
    }
  }

  /** How many wallets of `ws` satisfy `p` and carry the id `walletId`. */
  function Hits(ws: seq<Wallet>, p: Wallet -> bool, walletId: string): nat {
    if ws == [] then 0
    else (if p(ws[0]) && ws[0].id == walletId then 1 else 0) + Hits(ws[1..], p, walletId)
  }

  /** The debits of the wallets satisfying `p` book −fee to a wallet id once per
      such wallet carrying it. */
  lemma {:induction false} DebitsBooked(ws: seq<Wallet>, p: Wallet -> bool, fee: int, reason: string, note: string,
                                        now: int, walletId: string)
    ensures Booked(Debits(Where(ws, p), fee, reason, note, now), walletId) == -fee * Hits(ws, p, walletId)
  {
    if ws != [] {
      var rest := ws[1..];
      DebitsBooked(rest, p, fee, reason, note, now, walletId);
      var tail := Debits(Where(rest, p), fee, reason, note, now);
      var h := Hits(rest, p, walletId);
      if p(ws[0]) {
        var head := [WalletTx(ws[0].id, -fee, reason, Some(note), None, now)];
        assert Where(ws, p) == [ws[0]] + Where(rest, p);
        DebitsCons(ws[0], Where(rest, p), fee, reason, note, now);
        BookedAppend(head, tail, walletId);
        assert head[1..] == [];
        if ws[0].id == walletId {
          OneMore(-fee, h);
        }
      } else {
        assert Where(ws, p) == Where(rest, p);
      }
    }
  }

  lemma DebitsCons(w: Wallet, ws: seq<Wallet>, fee: int, reason: string, note: string, now: int)
    ensures Debits([w] + ws, fee, reason, note, now)
            == [WalletTx(w.id, -fee, reason, Some(note), None, now)] + Debits(ws, fee, reason, note, now)
  {
    var l := Debits([w] + ws, fee, reason, note, now);
    var r := [WalletTx(w.id, -fee, reason, Some(note), None, now)] + Debits(ws, fee, reason, note, now);
    assert forall i :: 0 <= i < |l| ==> l[i] == r[i] by {
      assert forall i :: 0 < i < |l| ==> ([w] + ws)[i] == ws[i - 1];
    }
  }

  lemma OneMore(a: int, n: nat)
    ensures a * (1 + n) == a + a * n
  {
  }

  /** A wallet id absent from `ws` has no hit. */
  lemma {:induction false} HitsAbsent(ws: seq<Wallet>, p: Wallet -> bool, walletId: string)
    requires forall i :: 0 <= i < |ws| ==> ws[i].id != walletId
    ensures Hits(ws, p, walletId) == 0
  {
    if ws != [] {
      HitsAbsent(ws[1..], p, walletId);
    }
  }

  /** With unique ids, wallet i is hit once when it satisfies `p` and never otherwise. */
  lemma {:induction false} HitsUnique(ws: seq<Wallet>, p: Wallet -> bool, i: nat)
    requires UniqueWalletIds(ws) && i < |ws|
    ensures Hits(ws, p, ws[i].id) == if p(ws[i]) then 1 else 0
  {
    var rest := ws[1..];
    assert UniqueWalletIds(rest) by {
      assert forall k :: 0 <= k < |rest| ==> rest[k] == ws[k + 1];
    }
    if i == 0 {
      assert forall k :: 0 <= k < |rest| ==> rest[k] == ws[k + 1];
      HitsAbsent(rest, p, ws[0].id);
    } else {
      assert ws[0].id != ws[i].id && rest[i - 1] == ws[i];
      HitsUnique(rest, p, i - 1);
    }
  }

  /** Once the monthly debits are booked, a wallet that covered the fee has lost
      exactly the fee and every other wallet keeps its balance: no wallet is left
      below zero by the run. */
  lemma MonthlySettlement(wallets: seq<Wallet>, fee: int, note: string, now: int)
    requires UniqueWalletIds(wallets)
    ensures var after := Settled(wallets, MonthlyCharges(wallets, fee, note, now));
            forall i :: 0 <= i < |wallets| ==>
              && after[i] == wallets[i].(balance := after[i].balance)
              && after[i].balance == if wallets[i].balance >= fee then wallets[i].balance - fee else wallets[i].balance
  {
    forall i | 0 <= i < |wallets|
      ensures Booked(MonthlyCharges(wallets, fee, note, now), wallets[i].id)
              == if wallets[i].balance >= fee then -fee else 0
    {
      DebitsBooked(wallets, Covers(fee), fee, "monthly", note, now, wallets[i].id);
      HitsUnique(wallets, Covers(fee), i);
    }
  }

  /** `"Monthly fee " + YYYY-MM`. */
  function MonthlyNote(yearMonth: string): string { "Monthly fee " + yearMonth }

  /** `insert into wallet_transactions … select w.id, -$1, 'monthly', $2 from
      wallets w where w.balance >= $1`. */
  function MonthlyCharges(wallets: seq<Wallet>, fee: int, note: string, now: int): seq<WalletTx> {
    Debits(Where(wallets, Covers(fee)), fee, "monthly", note, now)
  }

  /** The monthly debits are exactly one −fee "monthly" row per wallet that covers
      the fee, and none for a wallet below it (wallet ids being the table's key). */
  lemma MonthlyChargesExactlyCovering(wallets: seq<Wallet>, fee: int, note: string, now: int)
    ensures var rows := MonthlyCharges(wallets, fee, note, now);
            && |rows| == Count(wallets, Covers(fee))
            && (forall t :: t in rows ==> t.amount == -fee && t.reason == "monthly"
                                          && t.note == Some(note) && t.createdBy == None && t.createdAt == now)
            && (forall w :: w in wallets && w.balance >= fee ==>
                  WalletTx(w.id, -fee, "monthly", Some(note), None, now) in rows)
            && (forall t :: t in rows ==> exists w :: w in wallets && w.id == t.walletId && w.balance >= fee)
    ensures (forall v, w :: v in wallets && w in wallets && v.id == w.id ==> v == w) ==>
              forall w :: w in wallets && w.balance < fee ==>
                forall t :: t in MonthlyCharges(wallets, fee, note, now) ==> t.walletId != w.id
  {
    var ws := Where(wallets, Covers(fee));
    var rows := MonthlyCharges(wallets, fee, note, now);
    forall w | w in wallets && w.balance >= fee
      ensures WalletTx(w.id, -fee, "monthly", Some(note), None, now) in rows
    {
      assert Covers(fee)(w);
      var i :| 0 <= i < |ws| && ws[i] == w;
      assert rows[i] == WalletTx(w.id, -fee, "monthly", Some(note), None, now);
    }
    forall t | t in rows
      ensures exists w :: w in wallets && w.id == t.walletId && w.balance >= fee
    {
      var i :| 0 <= i < |rows| && rows[i] == t;
      assert ws[i] in ws;
    }
  }

  /** `skipped = max(0, total − eligible)` is the number of wallets below the fee. */
  lemma SkippedAreShort(wallets: seq<Wallet>, fee: int)
    ensures Max(0, |wallets| - Count(wallets, Covers(fee))) == Count(wallets, FallsShort(fee))
  {
    CountComplement(wallets, Covers(fee), FallsShort(fee));
  }

  /** What a monthly run reports when nothing fails: the fee check, then the
      once-per-month check, then the counts. */
  function MonthlyOutcome(fee: int, wallets: seq<Wallet>, runs: seq<BillingRun>,
                          month: string, yearMonth: string): MonthlyResult
  {
    if fee <= 0 then MonthlyNotRun(FeeNotConfigured)
    else if RunExists(runs, month) then MonthlyNotRun(AlreadyCharged)
    else MonthlyRan(Count(wallets, Covers(fee)), Count(wallets, FallsShort(fee)), fee, yearMonth)
  }

  /** The run row a successful monthly run leaves behind. */
  function RunRow(fee: int, wallets: seq<Wallet>, month: string, now: int): BillingRun {
    BillingRun(month, now, fee, Count(wallets, Covers(fee)), Count(wallets, FallsShort(fee)))
  }

  /** A month is billed at most once: after a run that charged, every later run for
      the same month reports "already charged" or an unconfigured fee, whatever the
      fee and the wallets are by then. */
  lemma MonthBilledOnce(fee: int, wallets: seq<Wallet>, runs: seq<BillingRun>, month: string,
                        yearMonth: string, now: int, fee': int, wallets': seq<Wallet>, yearMonth': string)
    requires MonthlyOutcome(fee, wallets, runs, month, yearMonth).MonthlyRan?
    ensures var again := MonthlyOutcome(fee', wallets', runs + [RunRow(fee, wallets, month, now)], month, yearMonth');
            again == MonthlyNotRun(AlreadyCharged) || again == MonthlyNotRun(FeeNotConfigured)
  {
    assert RunRow(fee, wallets, month, now) in runs + [RunRow(fee, wallets, month, now)];
  }

  /** `runMonthlyBilling`. `month` is the database's `date_trunc('month', now())`,
      `yearMonth` the `YYYY-MM` of the clock and `now` the time of the statements;
      `fails` says that one of the statements after the run row's insert throws,
      in which case the transaction is rolled back and the error re-thrown (None).
      Each debit lowers its wallet's balance as it is booked. */
  method RunMonthlyBilling(db: Database, month: string, yearMonth: string, now: int, fails: bool)
    returns (result: Option<MonthlyResult>)
    modifies db`billingRuns, db`walletTransactions, db`wallets
    ensures var fee := FeeValue(db.settings.monthlyFee);
            && (fee <= 0 || RunExists(old(db.billingRuns), month) || fails ==>
                  && db.billingRuns == old(db.billingRuns) && db.walletTransactions == old(db.walletTransactions)
                  && db.wallets == old(db.wallets))
            && (fee > 0 && !RunExists(old(db.billingRuns), month) && fails ==> result == None)
            && (fee <= 0 || RunExists(old(db.billingRuns), month) || !fails ==>
                  result == Some(MonthlyOutcome(fee, old(db.wallets), old(db.billingRuns), month, yearMonth)))
            && (fee > 0 && !RunExists(old(db.billingRuns), month) && !fails ==>
                  var rows := MonthlyCharges(old(db.wallets), fee, MonthlyNote(yearMonth), now);
                  && db.billingRuns == old(db.billingRuns) + [RunRow(fee, old(db.wallets), month, now)]
                  && db.walletTransactions == old(db.walletTransactions) + rows
                  && db.wallets == Settled(old(db.wallets), rows))
    ensures UniqueMonths(old(db.billingRuns)) ==> UniqueMonths(db.billingRuns)
  {
    // begin
    var savedRuns, savedTxs, savedWallets := db.billingRuns, db.walletTransactions, db.wallets;
    var monthlyFee := FeeValue(db.settings.monthlyFee);
    if monthlyFee <= 0 {
      db.billingRuns, db.walletTransactions := savedRuns, savedTxs;
      return Some(MonthlyNotRun(FeeNotConfigured));
    }
    var claim := InsertRun(db.billingRuns, BillingRun(month, now, monthlyFee, 0, 0));
    db.billingRuns := claim.0;
    if !claim.1 {
      db.billingRuns, db.walletTransactions := savedRuns, savedTxs;
      return Some(MonthlyNotRun(AlreadyCharged));
    }
    var total := |savedWallets|;
    var eligible := Count(savedWallets, Covers(monthlyFee));
    var rows := MonthlyCharges(savedWallets, monthlyFee, MonthlyNote(yearMonth), now);
    db.walletTransactions := db.walletTransactions + rows;
    db.wallets := Settled(savedWallets, rows);
    var charged := |rows|;
    var skipped := Max(0, total - eligible);
    db.billingRuns := UpdateRunCounts(db.billingRuns, month, charged, skipped);
    if fails {
      // catch: rollback, then rethrow
      db.billingRuns, db.walletTransactions, db.wallets := savedRuns, savedTxs, savedWallets;
      return None;
    }
    // commit
    SkippedAreShort(savedWallets, monthlyFee);
    assert charged == Count(savedWallets, Covers(monthlyFee));
    assert skipped == Count(savedWallets, FallsShort(monthlyFee));
    CountsOfNewRun(savedRuns, BillingRun(month, now, monthlyFee, 0, 0), charged, skipped);
    result := Some(MonthlyRan(charged, skipped, monthlyFee, yearMonth));
    assert result == Some(MonthlyOutcome(monthlyFee, savedWallets, savedRuns, month, yearMonth));
  }

  // ---------------------------------------------------------------------------
  // Registration fees

  /** `exists (select 1 from wallet_transactions t where t.wallet_id = w.id and
      t.reason = 'registration')`. */
  predicate Registered(txs: seq<WalletTx>, walletId: string) {
    exists t :: t in txs && t.walletId == walletId && t.reason == "registration"
  }

  /** The wallets counted as `total`: no registration row yet. */
  function Unregistered(txs: seq<WalletTx>): Wallet -> bool {
    (w: Wallet) => !Registered(txs, w.id)
  }

  /** The wallets counted as `eligible` and debited. */
  function Registrable(txs: seq<WalletTx>, fee: int): Wallet -> bool {
    (w: Wallet) => w.balance >= fee && !Registered(txs, w.id)
  }

  /** The unregistered wallets that cannot pay yet. */
  function UnregisteredShort(txs: seq<WalletTx>, fee: int): Wallet -> bool {
    (w: Wallet) => w.balance < fee && !Registered(txs, w.id)
  }

  /** `insert … select w.id, -$1, 'registration', 'Registration fee' from wallets w
      where w.balance >= $1 and not exists (…)`. The `not exists` reads the ledger
      as it was before the statement. */
  function RegistrationCharges(wallets: seq<Wallet>, txs: seq<WalletTx>, fee: int, now: int): seq<WalletTx> {
    Debits(Where(wallets, Registrable(txs, fee)), fee, "registration", "Registration fee", now)
  }

  /** Every wallet that covers the fee and was not registered gets exactly this
      registration row, and every row belongs to such a wallet. */
  lemma RegistrationChargesExactlyRegistrable(wallets: seq<Wallet>, txs: seq<WalletTx>, fee: int, now: int)
    ensures var rows := RegistrationCharges(wallets, txs, fee, now);
            && |rows| == Count(wallets, Registrable(txs, fee))
            && (forall w :: w in wallets && w.balance >= fee && !Registered(txs, w.id) ==>
                  WalletTx(w.id, -fee, "registration", Some("Registration fee"), None, now) in rows)
            && (forall t :: t in rows ==>
                  && t.reason == "registration" && t.amount == -fee
                  && exists w :: w in wallets && w.id == t.walletId && w.balance >= fee && !Registered(txs, w.id))
  {
    var ws := Where(wallets, Registrable(txs, fee));
    var rows := RegistrationCharges(wallets, txs, fee, now);
    forall w | w in wallets && w.balance >= fee && !Registered(txs, w.id)
      ensures WalletTx(w.id, -fee, "registration", Some("Registration fee"), None, now) in rows
    {
      assert Registrable(txs, fee)(w);
      var i :| 0 <= i < |ws| && ws[i] == w;
      assert rows[i] == WalletTx(w.id, -fee, "registration", Some("Registration fee"), None, now);
    }
    forall t | t in rows
      ensures exists w :: w in wallets && w.id == t.walletId && w.balance >= fee && !Registered(txs, w.id)
    {
      var i :| 0 <= i < |rows| && rows[i] == t;
      assert ws[i] in ws;
    }
  }

  /** The registration fee is charged once per wallet: a second run straight after
      the first, over the same wallets, charges nobody. */
  lemma RegistrationChargedOnce(wallets: seq<Wallet>, txs: seq<WalletTx>, fee: int, now: int, later: int)
    ensures RegistrationCharges(wallets, txs + RegistrationCharges(wallets, txs, fee, now), fee, later) == []
  {
    var first := RegistrationCharges(wallets, txs, fee, now);
    var txs' := txs + first;
    RegistrationChargesExactlyRegistrable(wallets, txs, fee, now);
    forall w | w in wallets
      ensures !Registrable(txs', fee)(w)
    {
      if w.balance >= fee {
        if Registered(txs, w.id) {
          var t :| t in txs && t.walletId == w.id && t.reason == "registration";
          assert t in txs';
        } else {
          var t := WalletTx(w.id, -fee, "registration", Some("Registration fee"), None, now);
          assert t in first;
          assert t in txs';
        }
      }
    }
    assert Count(wallets, Registrable(txs', fee)) == 0;
  }

  /** `skipped = max(0, total − eligible)` is the number of unregistered wallets that
      cannot pay the fee. */
  lemma RegistrationSkippedAreShort(wallets: seq<Wallet>, txs: seq<WalletTx>, fee: int)
    ensures Max(0, Count(wallets, Unregistered(txs)) - Count(wallets, Registrable(txs, fee)))
            == Count(wallets, UnregisteredShort(txs, fee))
  {
    CountSplit(wallets, Unregistered(txs), Registrable(txs, fee), UnregisteredShort(txs, fee));
  }

  /** What a registration run reports. */
  function RegistrationOutcome(fee: int, wallets: seq<Wallet>, txs: seq<WalletTx>): RegistrationResult {
    if fee <= 0 then RegistrationNotRun(RegistrationNotConfigured)
    else RegistrationRan(Count(wallets, Registrable(txs, fee)), Count(wallets, UnregisteredShort(txs, fee)), fee)
  }

  /** The ledger after a registration step that did not fail. */
  function LedgerAfterRegistration(fee: int, wallets: seq<Wallet>, txs: seq<WalletTx>, now: int): seq<WalletTx> {
    if fee > 0 then txs + RegistrationCharges(wallets, txs, fee, now) else txs
  }

  /** The wallet table after a registration step that did not fail. */
  function WalletsAfterRegistration(fee: int, wallets: seq<Wallet>, txs: seq<WalletTx>, now: int): seq<Wallet> {
    if fee > 0 then Settled(wallets, RegistrationCharges(wallets, txs, fee, now)) else wallets
  }

  /** `runRegistrationFees`: no transaction; four statements on the pool, of which
      only the last, the insert, writes. `fails` says that one of them throws (None);
      a statement that throws writes nothing, so the ledger is then as it was. The
      balances read are those the wallets hold now; each debit lowers its wallet's
      balance as it is booked. */
  method RunRegistrationFees(db: Database, now: int, fails: bool) returns (result: Option<RegistrationResult>)
    modifies db`walletTransactions, db`wallets
    ensures fails ==> result == None && db.walletTransactions == old(db.walletTransactions)
                      && db.wallets == old(db.wallets)
    ensures !fails ==>
              var fee := FeeValue(db.settings.registrationFee);
              && result == Some(RegistrationOutcome(fee, old(db.wallets), old(db.walletTransactions)))
              && db.walletTransactions == LedgerAfterRegistration(fee, old(db.wallets), old(db.walletTransactions), now)
              && db.wallets == WalletsAfterRegistration(fee, old(db.wallets), old(db.walletTransactions), now)
  {
    if fails {
      return None;
    }
    var registrationFee := FeeValue(db.settings.registrationFee);
    if registrationFee <= 0 {
      return Some(RegistrationNotRun(RegistrationNotConfigured));
    }
    var total: int := Count(db.wallets, Unregistered(db.walletTransactions));
    var eligible: int := Count(db.wallets, Registrable(db.walletTransactions, registrationFee));
    var rows := RegistrationCharges(db.wallets, db.walletTransactions, registrationFee, now);
    RegistrationSkippedAreShort(db.wallets, db.walletTransactions, registrationFee);
    db.walletTransactions := db.walletTransactions + rows;
    db.wallets := Settled(db.wallets, rows);
    var charged := |rows|;
    var skipped := Max(0, total - eligible);
    result := Some(RegistrationRan(charged, skipped, registrationFee));
  }

  // ---------------------------------------------------------------------------
  // The two entry points

  /** The monthly run throws: the fee is positive, the month is not billed yet and a
      statement after the claim fails. */
  predicate MonthlyThrows(fee: int, runs: seq<BillingRun>, month: string, fails: bool) {
    fails && fee > 0 && !RunExists(runs, month)
  }

  /** The ledger after a monthly run that did not fail. */
  function LedgerAfterMonthly(fee: int, wallets: seq<Wallet>, runs: seq<BillingRun>, txs: seq<WalletTx>,
                              month: string, yearMonth: string, now: int): seq<WalletTx> {
    if MonthlyOutcome(fee, wallets, runs, month, yearMonth).MonthlyRan?
    then txs + MonthlyCharges(wallets, fee, MonthlyNote(yearMonth), now)
    else txs
  }

  /** The wallet table after a monthly run that did not fail. */
  function WalletsAfterMonthly(fee: int, wallets: seq<Wallet>, runs: seq<BillingRun>, month: string,
                               yearMonth: string, now: int): seq<Wallet> {
    if MonthlyOutcome(fee, wallets, runs, month, yearMonth).MonthlyRan?
    then Settled(wallets, MonthlyCharges(wallets, fee, MonthlyNote(yearMonth), now))
    else wallets
  }

  /** The run table after a monthly run that did not fail. */
  function RunsAfterMonthly(fee: int, wallets: seq<Wallet>, runs: seq<BillingRun>, month: string,
                            yearMonth: string, now: int): seq<BillingRun> {
    if MonthlyOutcome(fee, wallets, runs, month, yearMonth).MonthlyRan?
    then runs + [RunRow(fee, wallets, month, now)]
    else runs
  }

  /** `POST /api/billing-runs/run`: superadmins only; the monthly run, then the
      registration fees over the ledger and the balances the monthly run left. A
      monthly run that throws (`fails`) ends the request with a 500 and the
      registration step never runs. A registration step that throws
      (`registrationFails`) also ends it with a 500, but the monthly run has
      committed by then and its rows stay. */
  method Post(db: Database, access: Option<AccessContext>, month: string, yearMonth: string, now: int,
              fails: bool, registrationFails: bool)
    returns (reply: Reply<BillingReport>)
    modifies db`billingRuns, db`walletTransactions, db`wallets
    ensures !(access.Some? && access.value.role == Superadmin) ==>
              && reply == Fail(403, Forbidden)
              && db.billingRuns == old(db.billingRuns) && db.walletTransactions == old(db.walletTransactions)
              && db.wallets == old(db.wallets)
    ensures access.Some? && access.value.role == Superadmin
            && MonthlyThrows(FeeValue(db.settings.monthlyFee), old(db.billingRuns), month, fails) ==>
              && reply == Fail(500, InternalError)
              && db.billingRuns == old(db.billingRuns) && db.walletTransactions == old(db.walletTransactions)
              && db.wallets == old(db.wallets)
    ensures access.Some? && access.value.role == Superadmin
            && !MonthlyThrows(FeeValue(db.settings.monthlyFee), old(db.billingRuns), month, fails) && registrationFails ==>
              var mFee := FeeValue(db.settings.monthlyFee);
              && reply == Fail(500, InternalError)
              && db.billingRuns == RunsAfterMonthly(mFee, old(db.wallets), old(db.billingRuns), month, yearMonth, now)
              && db.walletTransactions
                 == LedgerAfterMonthly(mFee, old(db.wallets), old(db.billingRuns), old(db.walletTransactions), month, yearMonth, now)
              && db.wallets == WalletsAfterMonthly(mFee, old(db.wallets), old(db.billingRuns), month, yearMonth, now)
    ensures reply.Ok? ==>
              var mFee, rFee := FeeValue(db.settings.monthlyFee), FeeValue(db.settings.registrationFee);
              var monthly := MonthlyOutcome(mFee, old(db.wallets), old(db.billingRuns), month, yearMonth);
              var ledger := LedgerAfterMonthly(mFee, old(db.wallets), old(db.billingRuns), old(db.walletTransactions), month, yearMonth, now);
              var wallets := WalletsAfterMonthly(mFee, old(db.wallets), old(db.billingRuns), month, yearMonth, now);
              && access.Some? && access.value.role == Superadmin
              && reply.body == BillingReport(monthly, RegistrationOutcome(rFee, wallets, ledger))
              && db.billingRuns == RunsAfterMonthly(mFee, old(db.wallets), old(db.billingRuns), month, yearMonth, now)
              && db.walletTransactions == LedgerAfterRegistration(rFee, wallets, ledger, now)
              && db.wallets == WalletsAfterRegistration(rFee, wallets, ledger, now)
    ensures access.Some? && access.value.role == Superadmin ==>
              (reply.Ok? <==> !MonthlyThrows(FeeValue(db.settings.monthlyFee), old(db.billingRuns), month, fails)
                              && !registrationFails)
    ensures reply == Fail(403, Forbidden) || reply == Fail(500, InternalError) || reply.Ok?
  {
    if !(access.Some? && access.value.role == Superadmin) {
      return Fail(403, Forbidden);
    }
    var monthly := RunMonthlyBilling(db, month, yearMonth, now, fails);
    if monthly.None? {
      return Fail(500, InternalError);
    }
    var registration := RunRegistrationFees(db, now, registrationFails);
    if registration.None? {
      return Fail(500, InternalError);
    }
    reply := Ok(BillingReport(monthly.value, registration.value));
  }

  /** `runBillingCycle` of scripts/billing.js: the same two runs in the same order on
      one connection, reporting only `ran`, `reason`, `charged` and `skipped`. A run
      that throws rejects the cycle (None); a throwing registration step leaves the
      committed monthly run in place. */
  method RunBillingCycle(db: Database, month: string, yearMonth: string, now: int, fails: bool,
                         registrationFails: bool)
    returns (result: Option<CycleSummary>)
    modifies db`billingRuns, db`walletTransactions, db`wallets
    ensures result.None? <==> MonthlyThrows(FeeValue(db.settings.monthlyFee), old(db.billingRuns), month, fails)
                              || registrationFails
    ensures MonthlyThrows(FeeValue(db.settings.monthlyFee), old(db.billingRuns), month, fails) ==>
              && db.billingRuns == old(db.billingRuns) && db.walletTransactions == old(db.walletTransactions)
              && db.wallets == old(db.wallets)
    ensures !MonthlyThrows(FeeValue(db.settings.monthlyFee), old(db.billingRuns), month, fails) ==>
              var mFee, rFee := FeeValue(db.settings.monthlyFee), FeeValue(db.settings.registrationFee);
              var ledger := LedgerAfterMonthly(mFee, old(db.wallets), old(db.billingRuns), old(db.walletTransactions), month, yearMonth, now);
              var wallets := WalletsAfterMonthly(mFee, old(db.wallets), old(db.billingRuns), month, yearMonth, now);
              && db.billingRuns == RunsAfterMonthly(mFee, old(db.wallets), old(db.billingRuns), month, yearMonth, now)
              && db.walletTransactions == (if registrationFails then ledger else LedgerAfterRegistration(rFee, wallets, ledger, now))
              && db.wallets == (if registrationFails then wallets else WalletsAfterRegistration(rFee, wallets, ledger, now))
    ensures result.Some? ==>
              var mFee, rFee := FeeValue(db.settings.monthlyFee), FeeValue(db.settings.registrationFee);
              var ledger := LedgerAfterMonthly(mFee, old(db.wallets), old(db.billingRuns), old(db.walletTransactions), month, yearMonth, now);
              var wallets := WalletsAfterMonthly(mFee, old(db.wallets), old(db.billingRuns), month, yearMonth, now);
              && result.value.monthly == MonthlySummary(MonthlyOutcome(mFee, old(db.wallets), old(db.billingRuns), month, yearMonth))
              && result.value.registration == RegistrationSummary(RegistrationOutcome(rFee, wallets, ledger))
    ensures UniqueMonths(old(db.billingRuns)) ==> UniqueMonths(db.billingRuns)
  {
    var monthly := RunMonthlyBilling(db, month, yearMonth, now, fails);
    if monthly.None? {
      return None;
    }
    var registration := RunRegistrationFees(db, now, registrationFails);
    if registration.None? {
      return None;
    }
    result := Some(CycleSummary(MonthlySummary(monthly.value), RegistrationSummary(registration.value)));
  }

  /** The registration step reads the balances the monthly debits left: with one
      wallet of balance 100, a monthly fee of 70 and a registration fee of 50, the
      wallet is charged the month, then skipped for registration at 30. */
  lemma RegistrationSeesMonthlyDebits()
    ensures var ws := [Wallet("w", "c", "s", 100)];
            var runs: seq<BillingRun> := [];
            var ledger := LedgerAfterMonthly(70, ws, runs, [], "2024-05-01", "2024-05", 0);
            var after := WalletsAfterMonthly(70, ws, runs, "2024-05-01", "2024-05", 0);
            && after == [Wallet("w", "c", "s", 30)]
            && RegistrationOutcome(50, after, ledger) == RegistrationRan(0, 1, 50)
  {
    var ws := [Wallet("w", "c", "s", 100)];
    assert Where(ws, Covers(70)) == ws;
    assert Where(ws, FallsShort(70)) == [];
    var rows := MonthlyCharges(ws, 70, MonthlyNote("2024-05"), 0);
    assert rows == [WalletTx("w", -70, "monthly", Some(MonthlyNote("2024-05")), None, 0)];
    assert Booked(rows, "w") == -70;
    var after := Settled(ws, rows);
    assert after == [Wallet("w", "c", "s", 30)];
    assert !Registered(rows, "w");
    assert Where(after, Registrable(rows, 50)) == [];
    assert Where(after, UnregisteredShort(rows, 50)) == after;
  }

  // ---------------------------------------------------------------------------

  /** A monthly fee of 70 over balances 100, 50 and 70 charges two wallets and
      skips one. */
  lemma MonthlyExample()
    ensures var ws := [Wallet("a", "c", "s1", 100), Wallet("b", "c", "s2", 50), Wallet("d", "c", "s3", 70)];
            MonthlyOutcome(70, ws, [], "2024-05-01", "2024-05") == MonthlyRan(2, 1, 70, "2024-05")
  {
    var ws := [Wallet("a", "c", "s1", 100), Wallet("b", "c", "s2", 50), Wallet("d", "c", "s3", 70)];
    assert ws[1..] == [ws[1], ws[2]] && ws[2..] == [ws[2]];
    assert Where(ws, Covers(70)) == [ws[0], ws[2]];
    assert Where(ws, FallsShort(70)) == [ws[1]];
  }
}
