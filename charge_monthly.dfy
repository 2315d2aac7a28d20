/** `POST /api/wallets/charge-monthly` of src/app/api/wallets/charge-monthly/route.ts:
    an ad-hoc debit of the monthly fee from every wallet in the caller's scope, with
    no balance check and no once-per-month guard. The rows go to the database as
    one multi-row insert whose SQL text carries numbered placeholders `$1, $2, …`;
    the loop that builds the tuples and the parameter list is modelled as written,
    and the database's binding of each placeholder to its parameter is modelled too,
    so that the proof shows every wallet's tuple binds that wallet's own values. */
module ChargeMonthly {
  import opened Js
  import opened Schema
  import opened Sql
  import opened Access

  const Forbidden: string := "Forbidden."
  const FeeNotConfigured: string := "Monthly fee not configured."
  const NoWallets: string := "No wallets available."

  /** A bound query parameter: the `string | number` entries of `inserts`. */
  datatype Param = Text(text: string) | Num(num: int)

  // ---------------------------------------------------------------------------
  // The SQL text of the placeholders

  predicate IsDigit(c: char) { '0' <= c <= '9' }

  /** `$k`. */
  function Placeholder(k: nat): string { "$" + NatToString(k) }

  /** `parts.join(", ")`. */
  function JoinComma(parts: seq<string>): string {
    if parts == [] then "" else if |parts| == 1 then parts[0] else parts[0] + ", " + JoinComma(parts[1..])
  }

  /** The tuple `($o+1, $o+2, $o+3, $o+4, $o+5)` pushed for the wallet at offset `o`. */
  function TupleText(offset: nat): string {
    "(" + JoinComma(seq(5, i requires 0 <= i < 5 => Placeholder(offset + i + 1))) + ")"
  }

  /** The five parameters pushed for one wallet, in the column order
      (wallet_id, amount, reason, note, created_by). */
  function RowParams(walletId: string, fee: int, userId: string): seq<Param> {
    [Text(walletId), Num(-fee), Text("monthly"), Text("Monthly fee"), Text(userId)]
  }

  /** `values` after the loop has visited `n` wallets. */
  function BatchTuples(n: nat): (values: seq<string>)
    ensures |values| == n
  {
    seq(n, i requires 0 <= i < n => TupleText(5 * i))
  }

  /** `inserts` after the loop has visited the wallets `ids`. */
  function BatchParams(ids: seq<string>, fee: int, userId: string): (inserts: seq<Param>)
    ensures |inserts| == 5 * |ids|
  {
    if ids == [] then [] else BatchParams(ids[..|ids| - 1], fee, userId) + RowParams(ids[|ids| - 1], fee, userId)
  }

  /** The `rows.forEach` loop: one tuple and five parameters per wallet. */
  method BuildBatch(ids: seq<string>, fee: int, userId: string)
    returns (values: seq<string>, inserts: seq<Param>)
    ensures values == BatchTuples(|ids|)
    ensures inserts == BatchParams(ids, fee, userId)
    ensures |values| == |ids| && |inserts| == 5 * |ids|
  {
    values, inserts := [], [];
    var index := 0;
    while index < |ids|
      invariant 0 <= index <= |ids|
      invariant values == BatchTuples(index)
      invariant inserts == BatchParams(ids[..index], fee, userId)
    {
      var offset := index * 5;
      values := values + [TupleText(offset)];
      inserts := inserts + RowParams(ids[index], fee, userId);
      assert ids[..index + 1][..index] == ids[..index];
      index := index + 1;
    }
    assert ids[..index] == ids;
  }

  // ---------------------------------------------------------------------------
  // How the database reads the placeholders

  /** Length of the run of decimal digits at the start of `s`. */
  function DigitRun(s: string): (n: nat)
    ensures n <= |s|
    ensures forall i :: 0 <= i < n ==> IsDigit(s[i])
    ensures n < |s| ==> !IsDigit(s[n])
  {
    if s != [] && IsDigit(s[0]) then 1 + DigitRun(s[1..]) else 0
  }

  /** The value of a decimal digit string. */
  function DigitsValue(s: string): int {
    if s == [] then 0 else DigitsValue(s[..|s| - 1]) * 10 + (s[|s| - 1] as int - '0' as int)
  }

  /** The numbers of the `$n` placeholders in a SQL text, in order of appearance. */
  function Placeholders(s: string): seq<int>
    decreases |s|
  {
    if s == [] then []
    else if s[0] == '$' && DigitRun(s[1..]) > 0 then
      var n := DigitRun(s[1..]);
      [DigitsValue(s[1..1 + n])] + Placeholders(s[1 + n..])
    else Placeholders(s[1..])
  }

  /** The parameters the placeholders `nums` stand for (`$k` is `inserts[k-1]`), or
      None when one of them has no parameter. */
  function Bind(nums: seq<int>, inserts: seq<Param>): (r: Option<seq<Param>>)
    ensures r.Some? <==> forall i :: 0 <= i < |nums| ==> 1 <= nums[i] <= |inserts|
    ensures r.Some? ==> |r.value| == |nums| && forall i :: 0 <= i < |nums| ==> r.value[i] == inserts[nums[i] - 1]
  {
    if forall i :: 0 <= i < |nums| ==> 1 <= nums[i] <= |inserts| then
      Some(seq(|nums|, i requires 0 <= i < |nums| && 1 <= nums[i] <= |inserts| => inserts[nums[i] - 1]))
    else None
  }

  /** One ledger row from five bound values, when each has the column's type. */
  function RowOf(ps: seq<Param>, now: int): Option<WalletTx> {
    if |ps| == 5 && ps[0].Text? && ps[1].Num? && ps[2].Text? && ps[3].Text? && ps[4].Text? then
      Some(WalletTx(ps[0].text, ps[1].num, ps[2].text, Some(ps[3].text), Some(ps[4].text), now))
    else None
  }

  predicate TupleBinds(tuple: string, inserts: seq<Param>) {
    var b := Bind(Placeholders(tuple), inserts);
    b.Some? && RowOf(b.value, 0).Some?
  }

  /** `insert into wallet_transactions (…) values <tuples>` with the parameter list
      `inserts`: one row per tuple, or a failed statement (None) when any tuple does
      not bind. */
  function ExecuteInsert(values: seq<string>, inserts: seq<Param>, now: int): (r: Option<seq<WalletTx>>)
    ensures r.Some? ==> |r.value| == |values|
  {
    if forall i :: 0 <= i < |values| ==> TupleBinds(values[i], inserts) then
      Some(seq(|values|, i requires 0 <= i < |values| && TupleBinds(values[i], inserts) =>
                          RowOf(Bind(Placeholders(values[i]), inserts).value, now).value))
    else None
  }

  // ---------------------------------------------------------------------------
  // Placeholders of a tuple

  lemma {:induction false} DigitsValueOfNatToString(n: nat)
    ensures DigitsValue(NatToString(n)) == n
  {
    if n >= 10 {
      var s := NatToString(n);
      assert s[..|s| - 1] == NatToString(n / 10);
      DigitsValueOfNatToString(n / 10);
    }
  }

  lemma {:induction false} DigitRunOf(d: string, rest: string)
    requires forall i :: 0 <= i < |d| ==> IsDigit(d[i])
    requires rest == [] || !IsDigit(rest[0])
    ensures DigitRun(d + rest) == |d|
  {
    if d == [] {
      assert d + rest == rest;
    } else {
      assert (d + rest)[0] == d[0];
      assert (d + rest)[1..] == d[1..] + rest;
      DigitRunOf(d[1..], rest);
    }
  }

  /** A `$` followed by a maximal run of digits reads as one placeholder. */
  lemma DollarDigits(d: string, rest: string)
    requires d != [] && forall i :: 0 <= i < |d| ==> IsDigit(d[i])
    requires rest == [] || !IsDigit(rest[0])
    ensures Placeholders(['$'] + d + rest) == [DigitsValue(d)] + Placeholders(rest)
  {
    var t := ['$'] + d + rest;
    assert t[0] == '$';
    assert t[1..] == d + rest;
    DigitRunOf(d, rest);
    assert t[1..1 + |d|] == d;
    assert t[1 + |d|..] == rest;
  }

  lemma {:induction false} SkipPlain(p: string, rest: string)
    requires forall i :: 0 <= i < |p| ==> p[i] != '$'
    ensures Placeholders(p + rest) == Placeholders(rest)
  {
    if p != [] {
      assert (p + rest)[0] == p[0];
      assert (p + rest)[1..] == p[1..] + rest;
      SkipPlain(p[1..], rest);
    } else {
      assert p + rest == rest;
    }
  }

  /** `p` is a placeholder `$d` whose digits `d` read as `k`. */
  predicate PlaceholderOf(p: string, k: int) {
    |p| >= 2 && p[0] == '$' && (forall i :: 1 <= i < |p| ==> IsDigit(p[i])) && DigitsValue(p[1..]) == k
  }

  lemma JoinCommaUnfold(ps: seq<string>, rest: string)
    requires |ps| >= 2
    ensures JoinComma(ps) + rest == ps[0] + (", " + (JoinComma(ps[1..]) + rest))
  {
  }

  /** A placeholder followed by text that does not continue its digits reads as its number. */
  lemma PlaceholderThen(p: string, k: int, rest: string)
    requires PlaceholderOf(p, k)
    requires rest == [] || !IsDigit(rest[0])
    ensures Placeholders(p + rest) == [k] + Placeholders(rest)
  {
    var d := p[1..];
    assert p == ['$'] + d;
    DollarDigits(d, rest);
  }

  lemma ConsAppend(s: seq<int>, t: seq<int>)
    requires s != []
    ensures [s[0]] + (s[1..] + t) == s + t
  {
    assert s == [s[0]] + s[1..];
  }

  /** A comma-separated list of placeholders reads back as their numbers. */
  lemma {:induction false} JoinPlaceholders(ps: seq<string>, nums: seq<int>, rest: string)
    requires |ps| == |nums| >= 1
    requires forall i :: 0 <= i < |ps| ==> PlaceholderOf(ps[i], nums[i])
    requires rest == [] || !IsDigit(rest[0])
    ensures Placeholders(JoinComma(ps) + rest) == nums + Placeholders(rest)
    decreases |ps|
  {
    if |ps| == 1 {
      PlaceholderThen(ps[0], nums[0], rest);
      assert nums == [nums[0]];
    } else {
      var tail := JoinComma(ps[1..]) + rest;
      JoinCommaUnfold(ps, rest);
      PlaceholderThen(ps[0], nums[0], ", " + tail);
      SkipPlain(", ", tail);
      JoinPlaceholders(ps[1..], nums[1..], rest);
      calc {
        Placeholders(JoinComma(ps) + rest);
        Placeholders(ps[0] + (", " + tail));
        [nums[0]] + Placeholders(", " + tail);
        [nums[0]] + Placeholders(tail);
        [nums[0]] + (nums[1..] + Placeholders(rest));
        { ConsAppend(nums, Placeholders(rest)); }
        nums + Placeholders(rest);
      }
    }
  }

  lemma PlaceholderReads(k: nat)
    ensures PlaceholderOf(Placeholder(k), k)
  {
    var p := Placeholder(k);
    assert p[1..] == NatToString(k);
    DigitsValueOfNatToString(k);
  }

  /** Reading a tuple back gives exactly the five numbers it was built from. */
  lemma TuplePlaceholders(offset: nat)
    ensures Placeholders(TupleText(offset)) == [offset + 1, offset + 2, offset + 3, offset + 4, offset + 5]
  {
    var ps := seq(5, i requires 0 <= i < 5 => Placeholder(offset + i + 1));
    var nums := [offset + 1, offset + 2, offset + 3, offset + 4, offset + 5];
    forall i | 0 <= i < 5
      ensures PlaceholderOf(ps[i], nums[i])
    {
      PlaceholderReads(offset + i + 1);
    }
    var items := JoinComma(ps);
    assert TupleText(offset) == "(" + (items + ")");
    SkipPlain("(", items + ")");
    JoinPlaceholders(ps, nums, ")");
    SkipPlain(")", []);
    assert ")" + [] == ")";
  }

  /** The parameters of wallet `i` sit at positions 5i … 5i+4 of `inserts`. */
  lemma {:induction false} BatchParamsSlice(ids: seq<string>, fee: int, userId: string, i: nat)
    requires i < |ids|
    ensures BatchParams(ids, fee, userId)[5 * i..5 * i + 5] == RowParams(ids[i], fee, userId)
  {
    var init := ids[..|ids| - 1];
    assert BatchParams(ids, fee, userId) == BatchParams(init, fee, userId) + RowParams(ids[|ids| - 1], fee, userId);
    if i < |ids| - 1 {
      BatchParamsSlice(init, fee, userId, i);
      assert init[i] == ids[i];
    }
  }

  /** The intended debit rows: one −fee "monthly" row per wallet, authored by the caller. */
  function ChargeRows(ids: seq<string>, fee: int, userId: string, now: int): (rows: seq<WalletTx>)
    ensures |rows| == |ids|
  {
    seq(|ids|, i requires 0 <= i < |ids| => WalletTx(ids[i], -fee, "monthly", Some("Monthly fee"), Some(userId), now))
  }

  /** Tuple i of the batch binds exactly the five parameters pushed for wallet i. */
  lemma TupleBindsWallet(ids: seq<string>, fee: int, userId: string, i: nat)
    requires i < |ids|
    ensures Bind(Placeholders(TupleText(5 * i)), BatchParams(ids, fee, userId)) == Some(RowParams(ids[i], fee, userId))
  {
    var offset := 5 * i;
    TuplePlaceholders(offset);
    BatchParamsSlice(ids, fee, userId, i);
    BindFive(offset, BatchParams(ids, fee, userId));
  }

  /** Placeholders `$o+1` … `$o+5` bind the five parameters from position o on. */
  lemma BindFive(offset: nat, inserts: seq<Param>)
    requires offset + 5 <= |inserts|
    ensures Bind([offset + 1, offset + 2, offset + 3, offset + 4, offset + 5], inserts) == Some(inserts[offset..offset + 5])
  {
    var nums := [offset + 1, offset + 2, offset + 3, offset + 4, offset + 5];
    var b := Bind(nums, inserts);
    assert b.value == inserts[offset..offset + 5];
  }

  /** The statement the loop builds binds tuple i to the parameters of wallet i, so the
      database inserts exactly the intended rows, in wallet order. */
  lemma BatchInsertsIntendedRows(ids: seq<string>, fee: int, userId: string, now: int)
    ensures ExecuteInsert(BatchTuples(|ids|), BatchParams(ids, fee, userId), now) == Some(ChargeRows(ids, fee, userId, now))
  {
    var values := BatchTuples(|ids|);
    var inserts := BatchParams(ids, fee, userId);
    var rows := ChargeRows(ids, fee, userId, now);
    forall i | 0 <= i < |ids|
      ensures TupleBinds(values[i], inserts)
      ensures RowOf(Bind(Placeholders(values[i]), inserts).value, now) == Some(rows[i])
    {
      TupleBindsWallet(ids, fee, userId, i);
    }
    var r := ExecuteInsert(values, inserts, now);
    assert r.Some?;
    assert r.value == rows;
  }

  // ---------------------------------------------------------------------------
  // The handler

  /** The coarse gate. */
  predicate ChargesWallets(access: Option<AccessContext>) {
    access.Some? && (access.value.role == Superadmin || access.value.role == Admin)
  }

  /** The wallets the caller may charge: all of them for a superadmin, those of
      administered clubs for an admin. */
  predicate InScope(access: AccessContext, ms: seq<Membership>, w: Wallet) {
    access.role == Superadmin || HoldsRoleIn(ms, access.userId, w.clubId, {Admin})
  }

  function ScopeOf(access: AccessContext, ms: seq<Membership>): Wallet -> bool {
    (w: Wallet) => InScope(access, ms, w)
  }

  function WalletIds(ws: seq<Wallet>): (ids: seq<string>)
    ensures |ids| == |ws| && forall i :: 0 <= i < |ws| ==> ids[i] == ws[i].id
  {
    seq(|ws|, i requires 0 <= i < |ws| => ws[i].id)
  }

  /** Builds the multi-row insert for the wallets `ids` and executes it: the rows
      inserted are exactly the intended debit rows, in wallet order. */
  method InsertBatch(ids: seq<string>, fee: int, userId: string, now: int)
    returns (rows: seq<WalletTx>)
    ensures rows == ChargeRows(ids, fee, userId, now)
  {
    var values, inserts := BuildBatch(ids, fee, userId);
    BatchInsertsIntendedRows(ids, fee, userId, now);
    rows := ExecuteInsert(values, inserts, now).value;
  }

  /** Every wallet in scope has its debit row among the intended rows. */
  lemma ScopeIsCharged(wallets: seq<Wallet>, a: AccessContext, ms: seq<Membership>, fee: int, now: int)
    ensures var rows := ChargeRows(WalletIds(Where(wallets, ScopeOf(a, ms))), fee, a.userId, now);
            forall w :: w in wallets && InScope(a, ms, w) ==>
              WalletTx(w.id, -fee, "monthly", Some("Monthly fee"), Some(a.userId), now) in rows
  {
    var scope := Where(wallets, ScopeOf(a, ms));
    var rows := ChargeRows(WalletIds(scope), fee, a.userId, now);
    forall w | w in wallets && InScope(a, ms, w)
      ensures WalletTx(w.id, -fee, "monthly", Some("Monthly fee"), Some(a.userId), now) in rows
    {
      assert ScopeOf(a, ms)(w);
      var i :| 0 <= i < |scope| && scope[i] == w;
      assert rows[i] == WalletTx(w.id, -fee, "monthly", Some("Monthly fee"), Some(a.userId), now);
    }
  }

  /** `POST`: 403 below admin; 400 without a positive monthly fee or without a wallet
      in scope, with no writes; otherwise every wallet in scope gets one −fee
      "monthly" row, whatever its balance, and `billed` is the number of wallets. */
  method Post(db: Database, access: Option<AccessContext>, now: int)
    returns (reply: Reply<nat>)
    modifies db`walletTransactions
    ensures !ChargesWallets(access) ==> reply == Fail(403, Forbidden)
    ensures ChargesWallets(access) && FeeValue(db.settings.monthlyFee) <= 0 ==> reply == Fail(400, FeeNotConfigured)
    ensures ChargesWallets(access) && FeeValue(db.settings.monthlyFee) > 0
            && (forall w :: w in db.wallets ==> !InScope(access.value, db.memberships, w))
            ==> reply == Fail(400, NoWallets)
    ensures ChargesWallets(access) && FeeValue(db.settings.monthlyFee) > 0
            && (exists w :: w in db.wallets && InScope(access.value, db.memberships, w))
            ==> reply.Ok?
    ensures reply.Fail? ==> db.walletTransactions == old(db.walletTransactions)
    ensures reply.Ok? ==>
              var a, ms := access.value, db.memberships;
              var scope := Where(db.wallets, ScopeOf(a, ms));
              && reply.body == |scope| && |scope| > 0
              && db.walletTransactions == old(db.walletTransactions)
                   + ChargeRows(WalletIds(scope), FeeValue(db.settings.monthlyFee), access.value.userId, now)
    ensures reply.Ok? ==> forall w :: w in db.wallets && InScope(access.value, db.memberships, w) ==>
              WalletTx(w.id, -FeeValue(db.settings.monthlyFee), "monthly", Some("Monthly fee"),
                       Some(access.value.userId), now) in db.walletTransactions
  {
    if !ChargesWallets(access) {
      return Fail(403, Forbidden);
    }
    var a := access.value;
    var monthlyFee := FeeValue(db.settings.monthlyFee);
    if monthlyFee <= 0 {
      return Fail(400, FeeNotConfigured);
    }
    var ms := db.memberships;
    var scope := Where(db.wallets, ScopeOf(a, ms));
    if |scope| == 0 {
      assert forall w :: w in db.wallets ==> !InScope(a, ms, w);
      return Fail(400, NoWallets);
    }
    assert scope[0] in scope;
    var rows := InsertBatch(WalletIds(scope), monthlyFee, a.userId, now);
    db.walletTransactions := db.walletTransactions + rows;
    reply := Ok(|scope|);
    ScopeIsCharged(db.wallets, a, ms, monthlyFee, now);
    assert forall t :: t in rows ==> t in db.walletTransactions;
  }
}
