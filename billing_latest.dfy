/** `GET /api/billing-runs/latest` of src/app/api/billing-runs/latest/route.ts:
    the most recently executed billing run, and whether the current month has
    been billed. A read of `billing_runs` and nothing else. */
module BillingLatest {
  import opened Js
  import opened Schema
  import opened Sql
  import opened Access
  import opened Billing

  /** `lastRun`: the stored month, time, fee and counts of one run. */
  datatype LastRun = LastRun(runMonth: string, executedAt: int, monthlyFee: int,
                             chargedCount: int, skippedCount: int)

  datatype LatestReport = LatestReport(lastRun: Option<LastRun>, currentMonthBilled: bool)

  function ExecutedAt(r: BillingRun): int { r.executedAt }

  function Any(r: BillingRun): bool { true }

  function ToLastRun(r: BillingRun): LastRun {
    LastRun(r.runMonth, r.executedAt, r.monthlyFee, r.chargedCount, r.skippedCount)
  }

  /** `select … from billing_runs order by executed_at desc limit 1`, then `rows[0]`
      or null. */
  function LatestRun(runs: seq<BillingRun>): (r: Option<BillingRun>)
    ensures r.None? <==> runs == []
    ensures r.Some? ==> r.value in runs && forall x :: x in runs ==> x.executedAt <= r.value.executedAt
  {
    var top := Top(runs, Any, ExecutedAt, 1);
    if top == [] then
      assert Count(runs, Any) == 0;
      None
    else
      var sel := Select(runs, Any, ExecutedAt);
      assert top[0] == sel[0];
      forall x | x in runs
        ensures x.executedAt <= top[0].executedAt
      {
        assert x in sel;
        var i :| 0 <= i < |sel| && sel[i] == x;
        assert i == 0 || ExecutedAt(sel[0]) >= ExecutedAt(sel[i]);
      }
      Some(top[0])
  }

  /** The `GET` handler: 403 unless the coarse role is superadmin or admin;
      `currentMonthBilled` is whether a run row exists for `month`, the first day of
      the current month. */
  function Get(access: Option<AccessContext>, runs: seq<BillingRun>, month: string): (reply: Reply<LatestReport>)
    ensures reply.Fail? <==> access.None? || (access.value.role != Superadmin && access.value.role != Admin)
    ensures reply.Fail? ==> reply == Fail(403, Forbidden)
    ensures reply.Ok? ==> (reply.body.currentMonthBilled <==> exists r :: r in runs && r.runMonth == month)
    ensures reply.Ok? ==> (reply.body.lastRun.None? <==> runs == [])
    ensures reply.Ok? && reply.body.lastRun.Some? ==>
              exists r :: r in runs && reply.body.lastRun.value == ToLastRun(r)
                          && forall x :: x in runs ==> x.executedAt <= r.executedAt
  {
    if access.None? || (access.value.role != Superadmin && access.value.role != Admin) then
      Fail(403, Forbidden)
    else
      var last := LatestRun(runs);
      Ok(LatestReport(if last.Some? then Some(ToLastRun(last.value)) else None, RunExists(runs, month)))
  }

  /** After a monthly run that charged, the endpoint reports the month as billed
      and, when no earlier run carries a later time, shows that run's stored fee and
      counts as the last run. */
  lemma BilledMonthIsReported(access: Option<AccessContext>, fee: int, wallets: seq<Wallet>,
                              runs: seq<BillingRun>, month: string, yearMonth: string, now: int)
    requires access.Some? && (access.value.role == Superadmin || access.value.role == Admin)
    requires MonthlyOutcome(fee, wallets, runs, month, yearMonth).MonthlyRan?
    requires forall x :: x in runs ==> x.executedAt < now
    ensures var reply := Get(access, runs + [RunRow(fee, wallets, month, now)], month);
            && reply.Ok? && reply.body.currentMonthBilled
            && reply.body.lastRun == Some(LastRun(month, now, fee, Count(wallets, Covers(fee)),
                                                  Count(wallets, FallsShort(fee))))
  {
    var row := RunRow(fee, wallets, month, now);
    var all := runs + [row];
    assert row in all;
    var last := LatestRun(all);
    assert last.value !in runs;
  }
}
