/** `GET` and `POST /api/wallets/transactions` of
    src/app/api/wallets/transactions/route.ts: the wallet ledger. Superadmins and
    admins list the ten newest entries in their scope and append manual entries;
    an admin only for wallets of clubs they administer. */
module WalletTransactions {
  import opened Js
  import opened Schema
  import opened Sql
  import opened Auth
  import opened Access
  import TrainingSessions

  const Forbidden: string := "Forbidden."
  const FieldsRequired: string := "Wallet, amount, and reason are required."
  const WalletNotFound: string := "Wallet not found."

  /** How many ledger rows `GET` returns at most. */
  const PageSize: int := 10

  /** The coarse gate of both handlers. */
  predicate ManagesWallets(access: Option<AccessContext>) {
    access.Some? && (access.value.role == Superadmin || access.value.role == Admin)
  }

  function TxCreatedAt(t: WalletTx): int { t.createdAt }

  /** A ledger row of a wallet whose club `userId` administers. */
  predicate AdminScope(wallets: seq<Wallet>, ms: seq<Membership>, userId: string, t: WalletTx) {
    exists w :: w in wallets && w.id == t.walletId && HoldsRoleIn(ms, userId, w.clubId, {Admin})
  }

  /** The inner joins of `GET`: the row's wallet exists, and so do that wallet's
      club and its student's profile. */
  predicate Joined(wallets: seq<Wallet>, clubs: seq<Club>, profiles: seq<Profile>, t: WalletTx) {
    var w := FindWallet(wallets, t.walletId);
    w.Some? && TrainingSessions.FindClub(clubs, w.value.clubId).Some? && FindProfile(profiles, w.value.studentId).Some?
  }

  /** The rows the caller's listing draws from: the joined ones, all of them for a
      superadmin and the admin scope otherwise. */
  function Listed(a: AccessContext, wallets: seq<Wallet>, ms: seq<Membership>, clubs: seq<Club>,
                  profiles: seq<Profile>): WalletTx -> bool {
    (t: WalletTx) => Joined(wallets, clubs, profiles, t) && (a.role == Superadmin || AdminScope(wallets, ms, a.userId, t))
  }

  /** `GET`: 403 below admin; otherwise the newest ten ledger rows, of every wallet for a
      superadmin and of administered clubs' wallets for an admin; rows whose wallet,
      club or student profile is missing drop out of the joins. */
  function List(access: Option<AccessContext>, wallets: seq<Wallet>, ms: seq<Membership>, clubs: seq<Club>,
                profiles: seq<Profile>, txs: seq<WalletTx>): (r: Reply<seq<WalletTx>>)
    ensures r.Fail? <==> !ManagesWallets(access)
    ensures r.Fail? ==> r == Fail(403, Forbidden)
    ensures r.Ok? ==> SortedDesc(r.body, TxCreatedAt) && |r.body| <= PageSize
                      && forall t :: t in r.body ==> t in txs && Joined(wallets, clubs, profiles, t)
    ensures r.Ok? && access.value.role == Admin ==>
              forall t :: t in r.body ==> AdminScope(wallets, ms, access.value.userId, t)
    ensures r.Ok? && |r.body| < PageSize ==>
              forall t :: t in txs && Listed(access.value, wallets, ms, clubs, profiles)(t) ==> t in r.body
    ensures r.Ok? ==> |r.body| == Min(PageSize, Count(txs, Listed(access.value, wallets, ms, clubs, profiles)))
    ensures r.Ok? ==> forall t, u :: t in r.body && u in txs && u !in r.body && Listed(access.value, wallets, ms, clubs, profiles)(u)
                                     ==> u.createdAt <= t.createdAt
  {
    if !ManagesWallets(access) then Fail(403, Forbidden)
    else
      var p := Listed(access.value, wallets, ms, clubs, profiles);
      TopIsNewest(txs, p, TxCreatedAt, PageSize);
      Ok(Top(txs, p, TxCreatedAt, PageSize))
  }

  /** The JSON body; `amount` is `Number(body?.amount)`. */
  datatype TxBody = TxBody(walletId: Option<string>, amount: JsNumber, reason: Option<string>,
                           note: Option<string>)

  /** The values `POST` inserts, before the amount reaches the numeric column. */
  datatype NewTx = NewTx(walletId: string, amount: JsNumber, reason: string, note: Option<string>,
                         createdBy: string)

  /** `rows[0]` of `select club_id from wallets where id = $1`. */
  function FindWallet(wallets: seq<Wallet>, id: string): (r: Option<Wallet>)
    ensures r.Some? <==> exists w :: w in wallets && w.id == id
    ensures r.Some? ==> r.value in wallets && r.value.id == id
  {
    if wallets == [] then None
    else if wallets[0].id == id then Some(wallets[0])
    else FindWallet(wallets[1..], id)
  }

  predicate FieldsValid(body: TxBody) {
    Truthy(body.walletId) && body.amount != NaN && Truthy(body.reason)
  }

  /** The check chain of `POST`: coarse role 403, invalid field 400; then, for an admin
      only, unknown wallet 404 and a wallet outside their clubs 403. */
  function PostDecision(access: Option<AccessContext>, body: TxBody, wallets: seq<Wallet>,
                        ms: seq<Membership>): (r: Reply<NewTx>)
    ensures !ManagesWallets(access) ==> r == Fail(403, Forbidden)
    ensures r == Fail(400, FieldsRequired) <==> ManagesWallets(access) && !FieldsValid(body)
    ensures r == Fail(404, WalletNotFound) <==>
              ManagesWallets(access) && FieldsValid(body) && access.value.role == Admin
              && (FindWallet(wallets, body.walletId.value).None? || FindWallet(wallets, body.walletId.value).value.clubId == "")
    ensures r.Fail? ==> r.status in {400, 403, 404}
    ensures r.Ok? ==> ManagesWallets(access) && FieldsValid(body)
                      && r.body == NewTx(body.walletId.value, body.amount, body.reason.value,
                                         TrimmedOrNull(body.note), access.value.userId)
    ensures r.Ok? && access.value.role == Admin ==>
              exists w :: w in wallets && w.id == r.body.walletId
                          && GetClubRole(ms, access.value.userId, w.clubId) == Some(Admin)
    ensures ManagesWallets(access) && access.value.role == Superadmin && FieldsValid(body) ==> r.Ok?
    ensures ManagesWallets(access) && access.value.role == Admin && FieldsValid(body)
            && FindWallet(wallets, body.walletId.value).Some? && FindWallet(wallets, body.walletId.value).value.clubId != ""
            && GetClubRole(ms, access.value.userId, FindWallet(wallets, body.walletId.value).value.clubId) == Some(Admin)
            ==> r.Ok?
    ensures ManagesWallets(access) && access.value.role == Admin && FieldsValid(body)
            && FindWallet(wallets, body.walletId.value).Some? && FindWallet(wallets, body.walletId.value).value.clubId != ""
            && GetClubRole(ms, access.value.userId, FindWallet(wallets, body.walletId.value).value.clubId) != Some(Admin)
            ==> r == Fail(403, Forbidden)
  {
    if !ManagesWallets(access) then Fail(403, Forbidden)
    else if !FieldsValid(body) then Fail(400, FieldsRequired)
    else
      var a := access.value;
      var ok := Ok(NewTx(body.walletId.value, body.amount, body.reason.value, TrimmedOrNull(body.note), a.userId));
      if a.role == Admin then
        var wallet := FindWallet(wallets, body.walletId.value);
        if wallet.None? || wallet.value.clubId == "" then Fail(404, WalletNotFound)
        else if GetClubRole(ms, a.userId, wallet.value.clubId) != Some(Admin) then Fail(403, Forbidden)
        else ok
      else ok
  }

  /** Any finite amount passes validation, zero and negative ones included: a
      superadmin's request with a wallet and a reason is always accepted. */
  lemma AnyFiniteAmountAccepted(access: Option<AccessContext>, walletId: string, amount: int,
                                reason: string, note: Option<string>, wallets: seq<Wallet>, ms: seq<Membership>)
    requires access.Some? && access.value.role == Superadmin
    requires walletId != "" && reason != ""
    ensures var r := PostDecision(access, TxBody(Some(walletId), Finite(amount), Some(reason), note), wallets, ms);
            r.Ok? && r.body.amount == Finite(amount)
  {
  }

  /** `POST`: a failed check writes nothing; success appends exactly one ledger row
      whose author is the caller. An amount of ±Infinity passes the checks and is
      refused by the numeric column. */
  method Post(db: Database, access: Option<AccessContext>, body: TxBody, now: int)
    returns (reply: Reply<()>)
    modifies db`walletTransactions
    ensures var d := PostDecision(access, body, old(db.wallets), old(db.memberships));
            && (d.Fail? ==> reply == Fail(d.status, d.error) && db.walletTransactions == old(db.walletTransactions))
            && (d.Ok? && !d.body.amount.Finite? ==>
                  reply == Fail(500, InternalError) && db.walletTransactions == old(db.walletTransactions))
            && (d.Ok? && d.body.amount.Finite? ==>
                  && reply == Ok(())
                  && db.walletTransactions == old(db.walletTransactions)
                       + [WalletTx(d.body.walletId, d.body.amount.value, d.body.reason, d.body.note,
                                   Some(d.body.createdBy), now)])
  {
    var d := PostDecision(access, body, db.wallets, db.memberships);
    if d.Fail? {
      return Fail(d.status, d.error);
    }
    var n := d.body;
    if !n.amount.Finite? {
      return Fail(500, InternalError);
    }
    db.walletTransactions := db.walletTransactions
      + [WalletTx(n.walletId, n.amount.value, n.reason, n.note, Some(n.createdBy), now)];
    reply := Ok(());
  }
}
