/** Refresh-token families: app/core/auth/service.py, app/core/auth/repository.py and the transaction
    boundary of app/database/session.py. This is the refresh-token rotation recommended in section
    4.14.2 of RFC 9700.

    A row's id is its position in the table: rows are only ever appended. Requests are serial
    transactions. Row-level security is not modelled, so the two look-ups of one token are one. */
module RefreshTokens {
  import opened Wrappers

  datatype TokenRow = TokenRow(
    userId: string, organizationId: string, familyId: string,
    tokenHash: string, expiresAt: int, revokedAt: Option<int>)

  datatype Denial = InvalidRefreshToken | RefreshTokenReused | RefreshTokenExpired | DuplicateTokenHash

  /** What a service call hands back, or the exception it raises. */
  datatype Reply =
    | Session(userId: string, organizationId: string, tokenHash: string)
    | LoggedOut
    | Revoked(count: nat)
    | Raised(denial: Denial)

  /** The state of the open transaction when the service call ends. */
  datatype Tx = Tx(rows: seq<TokenRow>, reply: Reply)

  /** Thirty days, in seconds. */
  const REFRESH_TOKEN_LIFETIME: int := 2592000

  function Find(rows: seq<TokenRow>, tokenHash: string): (r: Option<nat>)
    ensures r.Some? ==> r.value < |rows| && rows[r.value].tokenHash == tokenHash
    ensures r.None? ==> forall i :: 0 <= i < |rows| ==> rows[i].tokenHash != tokenHash
  {
    if rows == [] then None
    else if rows[|rows| - 1].tokenHash == tokenHash then Some(|rows| - 1)
    else Find(rows[..|rows| - 1], tokenHash)
  }

  predicate Live(row: TokenRow) { row.revokedAt.None? }

  function RevokeIf(row: TokenRow, chosen: bool, at: int): TokenRow {
    if chosen && Live(row) then row.(revokedAt := Some(at)) else row
  }

  function RevokeFamilyRows(rows: seq<TokenRow>, familyId: string, at: int): seq<TokenRow> {
    seq(|rows|, i requires 0 <= i < |rows| => RevokeIf(rows[i], rows[i].familyId == familyId, at))
  }

  function FamilyLiveCount(rows: seq<TokenRow>, familyId: string): nat {
    if rows == [] then 0 else
      var last := rows[|rows| - 1];
      FamilyLiveCount(rows[..|rows| - 1], familyId) + (if last.familyId == familyId && Live(last) then 1 else 0)
  }

  predicate OwnedBy(row: TokenRow, userId: string, organizationId: string) {
    row.userId == userId && row.organizationId == organizationId
  }

  function RevokeUserRows(rows: seq<TokenRow>, userId: string, organizationId: string, at: int): seq<TokenRow> {
    seq(|rows|, i requires 0 <= i < |rows| => RevokeIf(rows[i], OwnedBy(rows[i], userId, organizationId), at))
  }

  function LiveCount(rows: seq<TokenRow>, userId: string, organizationId: string): nat {
    if rows == [] then 0 else
      var last := rows[|rows| - 1];
      LiveCount(rows[..|rows| - 1], userId, organizationId)
      + (if OwnedBy(last, userId, organizationId) && Live(last) then 1 else 0)
  }

  function IssueTx(rows: seq<TokenRow>, userId: string, organizationId: string, familyId: string,
                   tokenHash: string, issuedAt: int): Tx {
    if Find(rows, tokenHash).Some? then Tx(rows, Raised(DuplicateTokenHash)) else
      var row := TokenRow(userId, organizationId, familyId, tokenHash, issuedAt + REFRESH_TOKEN_LIFETIME, None);
      Tx(rows + [row], Session(userId, organizationId, tokenHash))
  }

  function RefreshTx(rows: seq<TokenRow>, tokenHash: string, now: int, issuedAt: int, newHash: string): Tx {
    match Find(rows, tokenHash)
    case None => Tx(rows, Raised(InvalidRefreshToken))
    case Some(i) =>
      var row := rows[i];
      if row.revokedAt.Some? then
        Tx(RevokeFamilyRows(rows, row.familyId, now), Raised(RefreshTokenReused))
      else if row.expiresAt <= now then
        Tx(rows, Raised(RefreshTokenExpired))
      else
        IssueTx(rows[i := row.(revokedAt := Some(now))],
                row.userId, row.organizationId, row.familyId, newHash, issuedAt)
  }

  function LogoutTx(rows: seq<TokenRow>, tokenHash: string, now: int): Tx {
    match Find(rows, tokenHash)
    case None => Tx(rows, LoggedOut)
    case Some(i) =>
      Tx(if Live(rows[i]) then rows[i := rows[i].(revokedAt := Some(now))] else rows, LoggedOut)
  }

  function Peeked(rows: seq<TokenRow>, tokenHash: string, now: int): Option<nat> {
    var found := Find(rows, tokenHash);
    if found.Some? && Live(rows[found.value]) && rows[found.value].expiresAt > now then found else None
  }

  /** The table as one open transaction sees it, with the repository's statements and the service
      calls made of them. */
  class TokenSession {
    var rows: seq<TokenRow>

    constructor (committed: seq<TokenRow>)
      ensures rows == committed
    {
      rows := committed;
    }

    method GetRefreshTokenByHash(tokenHash: string) returns (found: Option<nat>)
      ensures found == Find(rows, tokenHash)
    {
      var n := |rows|;
      assert rows[..n] == rows;
      while n > 0
        invariant 0 <= n <= |rows|
        invariant Find(rows, tokenHash) == Find(rows[..n], tokenHash)
      {
        assert rows[..n][..n - 1] == rows[..n - 1];
        if rows[n - 1].tokenHash == tokenHash {
          return Some(n - 1);
        }
        n := n - 1;
      }
      return None;
    }

    /** The column is unique, so a hash already in the table is refused. */
    method InsertRefreshToken(row: TokenRow) returns (inserted: bool)
      modifies this
      ensures inserted == Find(old(rows), row.tokenHash).None?
      ensures rows == if inserted then old(rows) + [row] else old(rows)
    {
      var clash := GetRefreshTokenByHash(row.tokenHash);
      inserted := clash.None?;
      if inserted {
        rows := rows + [row];
      }
    }

    method RevokeRefreshToken(id: nat, at: int) returns (found: bool)
      modifies this
      ensures found == (id < |old(rows)|)
      ensures rows == if found then old(rows)[id := old(rows)[id].(revokedAt := Some(at))] else old(rows)
    {
      found := id < |rows|;
      if found {
        rows := rows[id := rows[id].(revokedAt := Some(at))];
      }
    }

    method RevokeFamily(familyId: string, at: int) returns (count: nat)
      modifies this
      ensures rows == RevokeFamilyRows(old(rows), familyId, at)
      ensures count == FamilyLiveCount(old(rows), familyId)
    {
      var i := 0;
      count := 0;
      while i < |rows|
        invariant 0 <= i <= |rows| == |old(rows)|
        invariant forall k :: 0 <= k < i ==> rows[k] == RevokeIf(old(rows)[k], old(rows)[k].familyId == familyId, at)
        invariant forall k :: i <= k < |rows| ==> rows[k] == old(rows)[k]
        invariant count == FamilyLiveCount(old(rows)[..i], familyId)
      {
        assert old(rows)[..i + 1][..i] == old(rows)[..i];
        if rows[i].familyId == familyId && rows[i].revokedAt.None? {
          rows := rows[i := rows[i].(revokedAt := Some(at))];
          count := count + 1;
        }
        i := i + 1;
      }
      assert old(rows)[..i] == old(rows);
    }

    method RevokeAllForUser(userId: string, organizationId: string, at: int) returns (count: nat)
      modifies this
      ensures rows == RevokeUserRows(old(rows), userId, organizationId, at)
      ensures count == LiveCount(old(rows), userId, organizationId)
    {
      var i := 0;
      count := 0;
      while i < |rows|
        invariant 0 <= i <= |rows| == |old(rows)|
        invariant forall k :: 0 <= k < i ==>
          rows[k] == RevokeIf(old(rows)[k], OwnedBy(old(rows)[k], userId, organizationId), at)
        invariant forall k :: i <= k < |rows| ==> rows[k] == old(rows)[k]
        invariant count == LiveCount(old(rows)[..i], userId, organizationId)
      {
        assert old(rows)[..i + 1][..i] == old(rows)[..i];
        if OwnedBy(rows[i], userId, organizationId) && rows[i].revokedAt.None? {
          rows := rows[i := rows[i].(revokedAt := Some(at))];
          count := count + 1;
        }
        i := i + 1;
      }
      assert old(rows)[..i] == old(rows);
    }

    method IssueSession(userId: string, organizationId: string, familyId: string, tokenHash: string, issuedAt: int)
      returns (reply: Reply)
      modifies this
      ensures Tx(rows, reply) == IssueTx(old(rows), userId, organizationId, familyId, tokenHash, issuedAt)
    {
      var row := TokenRow(userId, organizationId, familyId, tokenHash, issuedAt + REFRESH_TOKEN_LIFETIME, None);
      var inserted := InsertRefreshToken(row);
      reply := if inserted then Session(userId, organizationId, tokenHash) else Raised(DuplicateTokenHash);
    }

    method PeekRefreshToken(tokenHash: string, now: int) returns (found: Option<nat>)
      ensures found == Peeked(rows, tokenHash, now)
    {
      found := GetRefreshTokenByHash(tokenHash);
      if found.Some? && (rows[found.value].revokedAt.Some? || rows[found.value].expiresAt <= now) {
        found := None;
      }
    }

    method Refresh(tokenHash: string, now: int, issuedAt: int, newHash: string) returns (reply: Reply)
      modifies this
      ensures Tx(rows, reply) == RefreshTx(old(rows), tokenHash, now, issuedAt, newHash)
    {
      var found := GetRefreshTokenByHash(tokenHash);
      if found.None? {
        return Raised(InvalidRefreshToken);
      }
      var row := rows[found.value];
      if row.revokedAt.Some? {
        var count := RevokeFamily(row.familyId, now);
        return Raised(RefreshTokenReused);
      }
      if row.expiresAt <= now {
        return Raised(RefreshTokenExpired);
      }
      var revoked := RevokeRefreshToken(found.value, now);
      reply := IssueSession(row.userId, row.organizationId, row.familyId, newHash, issuedAt);
    }

    method Logout(tokenHash: string, now: int)
      modifies this
      ensures Tx(rows, LoggedOut) == LogoutTx(old(rows), tokenHash, now)
    {
      var found := GetRefreshTokenByHash(tokenHash);
      if found.None? || rows[found.value].revokedAt.Some? {
        return;
      }
      var revoked := RevokeRefreshToken(found.value, now);
    }
  }

  // ---------- Requests and the commit boundary ----------

  datatype Request =
    | Login(userId: string, organizationId: string, familyId: string, tokenHash: string, issuedAt: int)
    | Refresh(tokenHash: string, now: int, issuedAt: int, newHash: string)
    | Logout(tokenHash: string, now: int)
    | LogoutAll(userId: string, organizationId: string, now: int)

  function InTransaction(rows: seq<TokenRow>, r: Request): Tx {
    match r
    case Login(user, org, family, hash, issuedAt) => IssueTx(rows, user, org, family, hash, issuedAt)
    case Refresh(hash, now, issuedAt, newHash) => RefreshTx(rows, hash, now, issuedAt, newHash)
    case Logout(hash, now) => LogoutTx(rows, hash, now)
    case LogoutAll(user, org, now) =>
      Tx(RevokeUserRows(rows, user, org, now), Revoked(LiveCount(rows, user, org)))
  }

  /** Commit on a normal return, roll back when an exception escapes. */
  function After(rows: seq<TokenRow>, r: Request): seq<TokenRow> {
    var tx := InTransaction(rows, r);
    if tx.reply.Raised? then rows else tx.rows
  }

  class AuthDatabase {
    var committed: seq<TokenRow>

    constructor ()
      ensures committed == []
    {
      committed := [];
    }

    method Handle(r: Request) returns (reply: Reply)
      modifies this
      ensures reply == InTransaction(old(committed), r).reply
      ensures committed == After(old(committed), r)
    {
      var session := new TokenSession(committed);
      match r {
        case Login(user, org, family, hash, issuedAt) =>
          reply := session.IssueSession(user, org, family, hash, issuedAt);
        case Refresh(hash, now, issuedAt, newHash) =>
          reply := session.Refresh(hash, now, issuedAt, newHash);
        case Logout(hash, now) =>
          session.Logout(hash, now);
          reply := LoggedOut;
        case LogoutAll(user, org, now) =>
          var count := session.RevokeAllForUser(user, org, now);
          reply := Revoked(count);
      }
      if !reply.Raised? {
        committed := session.rows;
      }
    }
  }

  // ---------- What every step keeps ----------

  ghost predicate HashesAreUnique(rows: seq<TokenRow>) {
    forall i, j :: 0 <= i < j < |rows| ==> rows[i].tokenHash != rows[j].tokenHash
  }

  /** Only the newest token of a family can be unrevoked, so at most one is. */
  ghost predicate OnlyNewestIsLive(rows: seq<TokenRow>) {
    forall i, j :: 0 <= i < j < |rows| && rows[i].familyId == rows[j].familyId ==> !Live(rows[i])
  }

  ghost predicate OneOwnerPerFamily(rows: seq<TokenRow>) {
    forall i, j :: 0 <= i < j < |rows| && rows[i].familyId == rows[j].familyId ==>
      OwnedBy(rows[j], rows[i].userId, rows[i].organizationId)
  }

  ghost predicate Invariant(rows: seq<TokenRow>) {
    HashesAreUnique(rows) && OnlyNewestIsLive(rows) && OneOwnerPerFamily(rows)
  }

  ghost predicate HasFamily(rows: seq<TokenRow>, familyId: string) {
    exists i :: 0 <= i < |rows| && rows[i].familyId == familyId
  }

  /** Login draws a family id that no row carries. */
  ghost predicate Fresh(rows: seq<TokenRow>, r: Request) {
    r.Login? ==> !HasFamily(rows, r.familyId)
  }

  /** Nothing but a revocation ever happens to a row, and a revoked row never changes again. */
  ghost predicate Extends(before: seq<TokenRow>, after: seq<TokenRow>) {
    && |before| <= |after|
    && forall i :: 0 <= i < |before| ==>
         && after[i] == before[i].(revokedAt := after[i].revokedAt)
         && (!Live(before[i]) ==> after[i] == before[i])
  }

  lemma RevokingKeepsInvariant(rows: seq<TokenRow>, rows': seq<TokenRow>)
    requires Invariant(rows) && |rows'| == |rows| && Extends(rows, rows')
    ensures Invariant(rows')
  {
  }

  lemma AppendingKeepsInvariant(rows: seq<TokenRow>, row: TokenRow)
    requires Invariant(rows) && Find(rows, row.tokenHash).None? && NoneLive(rows, row.familyId)
    requires forall i :: 0 <= i < |rows| && rows[i].familyId == row.familyId ==>
               OwnedBy(row, rows[i].userId, rows[i].organizationId)
    ensures Invariant(rows + [row])
    ensures Extends(rows, rows + [row])
  {
    hide Find;
  }

  lemma StepKeepsInvariant(rows: seq<TokenRow>, r: Request)
    requires Invariant(rows) && Fresh(rows, r)
    ensures Invariant(After(rows, r))
    ensures Extends(rows, After(rows, r))
  {
    hide Find;
    var rows' := After(rows, r);
    if InTransaction(rows, r).reply.Session? {
      var row := rows'[|rows|];
      if r.Refresh? {
        OneLiveInFamily(rows, Find(rows, r.tokenHash).value);
      }
      RevokingKeepsInvariant(rows, rows'[..|rows|]);
      AppendingKeepsInvariant(rows'[..|rows|], row);
      assert rows' == rows'[..|rows|] + [row];
    } else {
      RevokingKeepsInvariant(rows, rows');
    }
  }

  /** If one token of a family is live, no other one is. */
  lemma OneLiveInFamily(rows: seq<TokenRow>, i: nat)
    requires Invariant(rows) && i < |rows| && Live(rows[i])
    ensures forall k :: 0 <= k < |rows| && k != i && rows[k].familyId == rows[i].familyId ==> !Live(rows[k])
  {
  }

  lemma FoundIsUnique(rows: seq<TokenRow>, i: nat)
    requires HashesAreUnique(rows) && i < |rows|
    ensures Find(rows, rows[i].tokenHash) == Some(i)
  {
  }

  /** All the states a serial history passes through, the first of them empty. */
  ghost function Run(rs: seq<Request>): seq<TokenRow> {
    if rs == [] then [] else After(Run(rs[..|rs| - 1]), rs[|rs| - 1])
  }

  ghost predicate History(rs: seq<Request>) {
    forall k :: 0 <= k < |rs| ==> Fresh(Run(rs[..k]), rs[k])
  }

  lemma HistoryPrefix(rs: seq<Request>, k: nat)
    requires History(rs) && k <= |rs|
    ensures History(rs[..k])
  {
    hide Fresh, Run;
    forall i | 0 <= i < k
      ensures Fresh(Run(rs[..k][..i]), rs[..k][i])
    {
      assert rs[..k][..i] == rs[..i];
    }
  }

  lemma LastStep(rs: seq<Request>)
    requires History(rs) && rs != []
    ensures History(rs[..|rs| - 1])
    ensures Fresh(Run(rs[..|rs| - 1]), rs[|rs| - 1])
    ensures Run(rs) == After(Run(rs[..|rs| - 1]), rs[|rs| - 1])
  {
    hide Fresh, After;
    HistoryPrefix(rs, |rs| - 1);
  }

  lemma EmptyKeepsInvariant()
    ensures Run([]) == [] && Invariant([])
  {
  }

  lemma {:induction false} RunKeepsInvariant(rs: seq<Request>)
    requires History(rs)
    ensures Invariant(Run(rs))
  {
    hide *;
    if rs == [] {
      EmptyKeepsInvariant();
    } else {
      LastStep(rs);
      RunKeepsInvariant(rs[..|rs| - 1]);
      StepKeepsInvariant(Run(rs[..|rs| - 1]), rs[|rs| - 1]);
    }
  }

  lemma ExtendsItself(rows: seq<TokenRow>)
    ensures Extends(rows, rows)
  {
  }

  lemma ExtendsThrough(a: seq<TokenRow>, b: seq<TokenRow>, c: seq<TokenRow>)
    requires Extends(a, b) && Extends(b, c)
    ensures Extends(a, c)
  {
  }

  /** No token is ever un-revoked or altered, from any point of a history to any later one. */
  lemma {:induction false} RunExtends(rs: seq<Request>, k: nat)
    requires History(rs) && k <= |rs|
    ensures Extends(Run(rs[..k]), Run(rs))
  {
    hide *;
    if k == |rs| {
      assert rs[..k] == rs;
      ExtendsItself(Run(rs));
    } else {
      var n := |rs| - 1;
      LastStep(rs);
      assert rs[..n][..k] == rs[..k];
      RunExtends(rs[..n], k);
      RunKeepsInvariant(rs[..n]);
      StepKeepsInvariant(Run(rs[..n]), rs[n]);
      ExtendsThrough(Run(rs[..k]), Run(rs[..n]), Run(rs));
    }
  }

  // ---------- Rotation ----------

  ghost predicate Redeems(rows: seq<TokenRow>, r: Request, tokenHash: string) {
    r.Refresh? && r.tokenHash == tokenHash && InTransaction(rows, r).reply.Session?
  }

  /** A token buys at most one session by refresh in a whole history. */
  lemma RedeemedAtMostOnce(rs: seq<Request>, i: nat, j: nat, tokenHash: string)
    requires History(rs) && i < j < |rs|
    requires Redeems(Run(rs[..i]), rs[i], tokenHash)
    ensures !Redeems(Run(rs[..j]), rs[j], tokenHash)
  {
    hide *;
    var at := RedeemingRevokes(Run(rs[..i]), rs[i], tokenHash);
    assert rs[..i + 1][..i] == rs[..i] && rs[..i + 1][i] == rs[i];
    HistoryPrefix(rs, i + 1);
    LastStep(rs[..i + 1]);
    HistoryPrefix(rs, j);
    assert rs[..j][..i + 1] == rs[..i + 1];
    RunExtends(rs[..j], i + 1);
    RunKeepsInvariant(rs[..j]);
    RevokedIsNotRedeemed(Run(rs[..i + 1]), Run(rs[..j]), rs[j], tokenHash, at);
  }

  lemma RedeemingRevokes(rows: seq<TokenRow>, r: Request, tokenHash: string) returns (at: nat)
    requires Redeems(rows, r, tokenHash)
    ensures
      var rows' := After(rows, r);
      at < |rows'| && rows'[at].tokenHash == tokenHash && rows'[at].revokedAt.Some?
  {
    at := Find(rows, tokenHash).value;
  }

  lemma RevokedIsNotRedeemed(rows: seq<TokenRow>, rows': seq<TokenRow>, r: Request, tokenHash: string, at: nat)
    requires Invariant(rows') && Extends(rows, rows') && at < |rows|
    requires rows[at].tokenHash == tokenHash && rows[at].revokedAt.Some?
    ensures !Redeems(rows', r, tokenHash)
  {
    FoundIsUnique(rows', at);
  }

  /** `peek_refresh_token` answers exactly the question "would `refresh` succeed now". */
  lemma PeekIffRefreshSucceeds(rows: seq<TokenRow>, tokenHash: string, now: int, issuedAt: int, newHash: string)
    requires Find(rows, newHash).None?
    ensures Peeked(rows, tokenHash, now).Some? <==>
            RefreshTx(rows, tokenHash, now, issuedAt, newHash).reply.Session?
    ensures Peeked(rows, tokenHash, now).Some? ==>
      var row := rows[Peeked(rows, tokenHash, now).value];
      && row.tokenHash == tokenHash
      && RefreshTx(rows, tokenHash, now, issuedAt, newHash).reply
         == Session(row.userId, row.organizationId, newHash)
  {
    var found := Find(rows, tokenHash);
    if found.Some? {
      var rows' := rows[found.value := rows[found.value].(revokedAt := Some(now))];
      assert forall k :: 0 <= k < |rows| ==> rows'[k].tokenHash == rows[k].tokenHash;
      assert Find(rows', newHash).None?;
    }
  }

  /** Rotation moves the family on by one token: the presented one dies, the new one is live, belongs
      to the same user, organization and family, and nothing else in the table changes. */
  lemma RefreshRotates(rows: seq<TokenRow>, r: Request)
    requires Invariant(rows) && r.Refresh? && InTransaction(rows, r).reply.Session?
    ensures
      var i, rows' := Find(rows, r.tokenHash).value, After(rows, r);
      var n := |rows|;
      && |rows'| == n + 1 && Live(rows[i]) && !Live(rows'[i]) && Live(rows'[n])
      && rows[i].tokenHash == r.tokenHash && rows'[i] == rows[i].(revokedAt := Some(r.now))
      && rows'[n] == TokenRow(rows[i].userId, rows[i].organizationId, rows[i].familyId, r.newHash,
                              r.issuedAt + 2592000, None)
      && (forall k :: 0 <= k < n && k != i ==> rows'[k] == rows[k])
      && (forall k :: 0 <= k < n && rows'[k].familyId == rows[i].familyId ==> !Live(rows'[k]))
  {
    OneLiveInFamily(rows, Find(rows, r.tokenHash).value);
  }

  /** A token issued at login buys a session for exactly thirty days, if nothing happens in between. */
  lemma LoginTokenLastsThirtyDays(rows: seq<TokenRow>, login: Request, now: int, issuedAt: int, newHash: string)
    requires Invariant(rows) && Fresh(rows, login) && login.Login?
    requires Find(rows, login.tokenHash).None? && Find(rows, newHash).None? && newHash != login.tokenHash
    ensures
      var reply := RefreshTx(After(rows, login), login.tokenHash, now, issuedAt, newHash).reply;
      if now < login.issuedAt + 2592000
      then reply == Session(login.userId, login.organizationId, newHash)
      else reply == Raised(RefreshTokenExpired)
  {
    hide Find;
    var rows' := After(rows, login);
    StepKeepsInvariant(rows, login);
    FoundIsUnique(rows', |rows|);
    assert Find(rows', newHash).None?;
    hide Invariant, After;
    PeekIffRefreshSucceeds(rows', login.tokenHash, now, issuedAt, newHash);
  }

  // ---------- Dead families ----------

  /** The family exists and none of its tokens is unrevoked. */
  ghost predicate Dead(rows: seq<TokenRow>, familyId: string) {
    HasFamily(rows, familyId) && NoneLive(rows, familyId)
  }

  ghost predicate NoneLive(rows: seq<TokenRow>, familyId: string) {
    forall i :: 0 <= i < |rows| && rows[i].familyId == familyId ==> !Live(rows[i])
  }

  lemma StepKeepsDead(rows: seq<TokenRow>, r: Request, familyId: string)
    requires Invariant(rows) && Fresh(rows, r) && Dead(rows, familyId)
    ensures Dead(After(rows, r), familyId)
  {
    StepKeepsInvariant(rows, r);
    var i :| 0 <= i < |rows| && rows[i].familyId == familyId;
    if InTransaction(rows, r).reply.Session? {
      IssuedFamily(rows, r);
    }
    hide InTransaction, Invariant, Fresh;
    assert After(rows, r)[i].familyId == familyId;
  }

  /** A session's row is in a new family, or in that of a live token. */
  lemma IssuedFamily(rows: seq<TokenRow>, r: Request)
    requires Fresh(rows, r) && InTransaction(rows, r).reply.Session?
    ensures |After(rows, r)| == |rows| + 1
    ensures
      var family := After(rows, r)[|rows|].familyId;
      !HasFamily(rows, family) || exists k :: 0 <= k < |rows| && rows[k].familyId == family && Live(rows[k])
  {
    hide Find;
  }

  /** Once dead, a family is dead in every later state of every history. */
  lemma {:induction false} DeadStaysDead(rs: seq<Request>, k: nat, familyId: string)
    requires History(rs) && k <= |rs|
    requires Dead(Run(rs[..k]), familyId)
    ensures Dead(Run(rs), familyId)
  {
    hide *;
    if k == |rs| {
      assert rs[..k] == rs;
    } else {
      var n := |rs| - 1;
      LastStep(rs);
      assert rs[..n][..k] == rs[..k];
      DeadStaysDead(rs[..n], k, familyId);
      RunKeepsInvariant(rs[..n]);
      StepKeepsDead(Run(rs[..n]), rs[n], familyId);
    }
  }

  /** Logging out with the live token of a family kills the family, and nothing else. */
  lemma LogoutKillsFamily(rows: seq<TokenRow>, r: Request)
    requires Invariant(rows) && r.Logout? && Find(rows, r.tokenHash).Some?
    requires Live(rows[Find(rows, r.tokenHash).value])
    ensures Dead(After(rows, r), rows[Find(rows, r.tokenHash).value].familyId)
    ensures |After(rows, r)| == |rows|
    ensures forall k :: 0 <= k < |rows| && k != Find(rows, r.tokenHash).value ==> After(rows, r)[k] == rows[k]
  {
    var i := Find(rows, r.tokenHash).value;
    var rows' := After(rows, r);
    assert rows'[i].familyId == rows[i].familyId;
    OneLiveInFamily(rows, i);
  }

  /** A client may repeat a logout: it never fails, and after the first it changes nothing. */
  lemma LogoutIsIdempotent(rows: seq<TokenRow>, r: Request, again: Request)
    requires HashesAreUnique(rows) && r.Logout? && again.Logout? && again.tokenHash == r.tokenHash
    ensures InTransaction(rows, r).reply == LoggedOut
    ensures After(After(rows, r), again) == After(rows, r)
  {
    var rows' := After(rows, r);
    if Find(rows, r.tokenHash).Some? {
      var i := Find(rows, r.tokenHash).value;
      assert HashesAreUnique(rows') && rows'[i].tokenHash == r.tokenHash;
      FoundIsUnique(rows', i);
    }
  }

  /** Logging out everywhere kills every family of the user in that organization, reports how many
      were live, and touches no row of anyone else. */
  lemma LogoutAllKillsFamilies(rows: seq<TokenRow>, r: Request)
    requires Invariant(rows) && r.LogoutAll?
    ensures forall i :: 0 <= i < |rows| && OwnedBy(rows[i], r.userId, r.organizationId) ==>
              Dead(After(rows, r), rows[i].familyId)
    ensures forall i :: 0 <= i < |rows| && !OwnedBy(rows[i], r.userId, r.organizationId) ==>
              After(rows, r)[i] == rows[i]
    ensures |After(rows, r)| == |rows| && LiveCount(After(rows, r), r.userId, r.organizationId) == 0
  {
    var rows' := After(rows, r);
    forall i | 0 <= i < |rows| && OwnedBy(rows[i], r.userId, r.organizationId)
      ensures Dead(rows', rows[i].familyId)
    {
      assert rows'[i].familyId == rows[i].familyId;
      forall k | 0 <= k < |rows'| && rows'[k].familyId == rows[i].familyId
        ensures !Live(rows'[k])
      {
        assert OwnedBy(rows[k], r.userId, r.organizationId);
      }
    }
    AllRevokedCountsZero(rows', r.userId, r.organizationId);
  }

  lemma {:induction false} AllRevokedCountsZero(rows: seq<TokenRow>, userId: string, organizationId: string)
    requires forall i :: 0 <= i < |rows| && OwnedBy(rows[i], userId, organizationId) ==> !Live(rows[i])
    ensures LiveCount(rows, userId, organizationId) == 0
  {
    if rows == [] {
    } else {
      AllRevokedCountsZero(rows[..|rows| - 1], userId, organizationId);
    }
  }

  // ---------- Reuse ----------

  ghost predicate IsReplay(rows: seq<TokenRow>, r: Request) {
    r.Refresh? && Find(rows, r.tokenHash).Some? && !Live(rows[Find(rows, r.tokenHash).value])
  }

  /** Replaying a revoked token kills its whole family inside the transaction, and is denied. */
  lemma ReplayKillsFamilyInTransaction(rows: seq<TokenRow>, r: Request)
    requires IsReplay(rows, r)
    ensures InTransaction(rows, r).reply == Raised(RefreshTokenReused)
    ensures Dead(InTransaction(rows, r).rows, rows[Find(rows, r.tokenHash).value].familyId)
  {
    var i := Find(rows, r.tokenHash).value;
    assert InTransaction(rows, r).rows[i].familyId == rows[i].familyId;
  }

  /** Revoking a family revokes one token while it is alive and none once it is dead. */
  lemma {:induction false} FamilyHasOneLive(rows: seq<TokenRow>, familyId: string)
    requires OnlyNewestIsLive(rows)
    ensures FamilyLiveCount(rows, familyId) == if NoneLive(rows, familyId) then 0 else 1
  {
    if rows == [] {
    } else {
      var n := |rows| - 1;
      FamilyHasOneLive(rows[..n], familyId);
      if rows[n].familyId == familyId {
        assert NoneLive(rows[..n], familyId);
      }
    }
  }

  ghost function Newest(rows: seq<TokenRow>, familyId: string): (i: nat)
    requires HasFamily(rows, familyId)
    ensures i < |rows| && rows[i].familyId == familyId
    ensures forall j :: i < j < |rows| ==> rows[j].familyId != familyId
  {
    if rows[|rows| - 1].familyId == familyId then |rows| - 1 else
      var i :| 0 <= i < |rows| && rows[i].familyId == familyId;
      assert rows[..|rows| - 1][i].familyId == familyId;
      Newest(rows[..|rows| - 1], familyId)
  }

  /** The promise that a replayed token ends its family does not survive the commit boundary: the
      exception that denies the request also rolls the revocation back. In the committed state the
      family is dead after a replay exactly when its newest token had already been revoked. */
  lemma ReplayEndsFamilyIff(rows: seq<TokenRow>, r: Request)
    requires Invariant(rows) && IsReplay(rows, r)
    ensures HasFamily(rows, rows[Find(rows, r.tokenHash).value].familyId)
    ensures
      var family := rows[Find(rows, r.tokenHash).value].familyId;
      Dead(After(rows, r), family) <==> !Live(rows[Newest(rows, family)])
  {
    var family := rows[Find(rows, r.tokenHash).value].familyId;
    var newest := Newest(rows, family);
    ReplayKillsFamilyInTransaction(rows, r);
    forall i | 0 <= i < |rows| && rows[i].familyId == family && i != newest
      ensures !Live(rows[i])
    {
      assert i < newest;
    }
  }

  /** A run on which the promise fails: log in, rotate, replay the first token. The replay is denied,
      yet the family lives on and its second token still buys a session. */
  lemma ReplayedFamilyLivesOn() returns (rs: seq<Request>, replay: Request, next: Request)
    ensures History(rs + [replay]) && IsReplay(Run(rs), replay)
    ensures InTransaction(Run(rs), replay).reply == Raised(RefreshTokenReused)
    ensures !Dead(Run(rs + [replay]), "family")
    ensures InTransaction(Run(rs + [replay]), next).reply == Session("user", "org", "t3")
  {
    hide Find, After, InTransaction, Dead, IsReplay;
    rs := [LOGIN, ROTATE];
    replay := Request.Refresh("t1", 20, 20, "stolen");
    next := Request.Refresh("t2", 30, 30, "t3");
    LoginThenRotate();
    ReplayChangesNothing(replay, next);
    var all := rs + [replay];
    assert all[..0] == [] && all[..1] == [LOGIN] && all[..2] == rs && rs[..1] == [LOGIN] && [LOGIN][..0] == [];
    assert Run([]) == [];
    assert Run([LOGIN]) == [ISSUED];
    assert Run(rs) == ROTATED;
    assert Run(all) == ROTATED;
  }

  const LOGIN := Login("user", "org", "family", "t1", 0)
  const ROTATE := Request.Refresh("t1", 10, 10, "t2")
  const ISSUED := TokenRow("user", "org", "family", "t1", 2592000, None)
  const ROTATED := [TokenRow("user", "org", "family", "t1", 2592000, Some(10)),
                    TokenRow("user", "org", "family", "t2", 2592010, None)]

  lemma LoginThenRotate()
    ensures After([], LOGIN) == [ISSUED] && After([ISSUED], ROTATE) == ROTATED
  {
    assert "t1" != "t2";
    FoundIsUnique([ISSUED], 0);
    hide Find;
    assert Find([ISSUED.(revokedAt := Some(10))], "t2").None?;
  }

  lemma ReplayChangesNothing(replay: Request, next: Request)
    requires replay == Request.Refresh("t1", 20, 20, "stolen") && next == Request.Refresh("t2", 30, 30, "t3")
    ensures IsReplay(ROTATED, replay) && InTransaction(ROTATED, replay).reply == Raised(RefreshTokenReused)
    ensures After(ROTATED, replay) == ROTATED && !Dead(ROTATED, "family")
    ensures InTransaction(ROTATED, next).reply == Session("user", "org", "t3")
  {
    assert "t1" != "t2" && "t1" != "t3" && "t2" != "t3";
    FoundIsUnique(ROTATED, 0);
    FoundIsUnique(ROTATED, 1);
    hide Find;
    assert Find([ROTATED[0], ROTATED[1].(revokedAt := Some(30))], "t3").None?;
    assert Live(ROTATED[1]);
  }
}
