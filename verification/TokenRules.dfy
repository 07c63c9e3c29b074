/** What each request leaves in the token table, field by field, and how long tokens last:
    app/core/auth/service.py:601-753 and app/core/auth/repository.py:35-179. */
module TokenRules {
  import opened Wrappers
  import opened RefreshTokens

  // ---------- Lifetimes ----------

  /** Login adds one unrevoked token that expires thirty days after its issue. */
  lemma LoginAddsOneToken(rows: seq<TokenRow>, r: Request)
    requires r.Login? && forall k :: 0 <= k < |rows| ==> rows[k].tokenHash != r.tokenHash
    ensures After(rows, r)
            == rows + [TokenRow(r.userId, r.organizationId, r.familyId, r.tokenHash, r.issuedAt + 2592000, None)]
    ensures InTransaction(rows, r).reply == Session(r.userId, r.organizationId, r.tokenHash)
  {
  }

  /** A token whose hash, owner and expiry are known, not yet revoked. */
  ghost predicate Usable(rows: seq<TokenRow>, tokenHash: string, userId: string, organizationId: string,
                         expiresAt: int) {
    exists i :: 0 <= i < |rows| && rows[i].tokenHash == tokenHash && rows[i].revokedAt == None
                && rows[i].userId == userId && rows[i].organizationId == organizationId
                && rows[i].expiresAt == expiresAt
  }

  ghost predicate NewHash(rows: seq<TokenRow>, tokenHash: string) {
    forall k :: 0 <= k < |rows| ==> rows[k].tokenHash != tokenHash
  }

  /** A usable token buys its owner a session before its expiry, and not at it. The token it is exchanged for
      is the owner's too, and is good for thirty days from its own issue, however old the first one was. */
  lemma RefreshStartsThirtyDays(rows: seq<TokenRow>, r: Request, userId: string, organizationId: string, expiresAt: int)
    requires Invariant(rows) && r.Refresh? && NewHash(rows, r.newHash)
    requires Usable(rows, r.tokenHash, userId, organizationId, expiresAt)
    ensures r.now < expiresAt ==>
      && InTransaction(rows, r).reply == Session(userId, organizationId, r.newHash)
      && Usable(After(rows, r), r.newHash, userId, organizationId, r.issuedAt + 2592000)
      && |After(rows, r)| == |rows| + 1 && After(rows, r)[|rows|].tokenHash == r.newHash
      && (forall k :: 0 <= k < |rows| ==> After(rows, r)[k].tokenHash == rows[k].tokenHash)
    ensures r.now >= expiresAt ==> InTransaction(rows, r).reply == Raised(RefreshTokenExpired) && After(rows, r) == rows
  {
    var i :| 0 <= i < |rows| && rows[i].tokenHash == r.tokenHash && rows[i].revokedAt == None
             && rows[i].userId == userId && rows[i].organizationId == organizationId
             && rows[i].expiresAt == expiresAt;
    FoundIsUnique(rows, i);
    hide Find;
    var rows' := rows[i := rows[i].(revokedAt := Some(r.now))];
    assert forall k :: 0 <= k < |rows| ==> rows'[k].tokenHash == rows[k].tokenHash;
    assert Find(rows', r.newHash).None?;
    if r.now < expiresAt {
      assert After(rows, r)[|rows|].tokenHash == r.newHash;
    }
  }

  /** Refreshes that each present the token of the one before, within thirty days of its issue. */
  ghost predicate Chain(tokenHash: string, expiresAt: int, rs: seq<Request>)
    decreases |rs|
  {
    rs == [] ||
    (rs[0].Refresh? && rs[0].tokenHash == tokenHash && rs[0].now < expiresAt
     && Chain(rs[0].newHash, rs[0].issuedAt + 2592000, rs[1..]))
  }

  ghost predicate NewHashes(rows: seq<TokenRow>, rs: seq<Request>) {
    && (forall k :: 0 <= k < |rs| ==> rs[k].Refresh? && NewHash(rows, rs[k].newHash))
    && forall j, k :: 0 <= j < k < |rs| ==> rs[j].newHash != rs[k].newHash
  }

  /** Every one of the requests is answered with a session of the owner. */
  ghost predicate Served(rows: seq<TokenRow>, userId: string, organizationId: string, rs: seq<Request>)
    decreases |rs|
  {
    rs == [] ||
    (rs[0].Refresh? && InTransaction(rows, rs[0]).reply == Session(userId, organizationId, rs[0].newHash)
     && Served(After(rows, rs[0]), userId, organizationId, rs[1..]))
  }

  /** Someone who comes back at least every thirty days stays logged in for ever. */
  lemma {:induction false} ChainNeverExpires(rows: seq<TokenRow>, tokenHash: string, userId: string,
                                             organizationId: string, expiresAt: int, rs: seq<Request>)
    requires Invariant(rows) && Usable(rows, tokenHash, userId, organizationId, expiresAt)
    requires NewHashes(rows, rs) && Chain(tokenHash, expiresAt, rs)
    ensures Served(rows, userId, organizationId, rs)
    decreases |rs|
  {
    hide Invariant, Usable, After, InTransaction;
    if rs == [] {
    } else {
      var r, rows' := rs[0], After(rows, rs[0]);
      RefreshStartsThirtyDays(rows, r, userId, organizationId, expiresAt);
      RefreshIsFresh(rows, r);
      StepKeepsInvariant(rows, r);
      forall k | 0 <= k < |rs[1..]|
        ensures rs[1..][k].Refresh? && NewHash(rows', rs[1..][k].newHash)
      {
        assert rs[1..][k] == rs[k + 1];
      }
      ChainNeverExpires(rows', r.newHash, userId, organizationId, r.issuedAt + 2592000, rs[1..]);
    }
  }

  lemma RefreshIsFresh(rows: seq<TokenRow>, r: Request)
    requires r.Refresh?
    ensures Fresh(rows, r)
  {
  }

  // ---------- Who is denied, and what for ----------

  /** The answer to a refresh, from the presented token's row: unknown, revoked, expired, or a session of its
      owner under the new hash. */
  lemma RefreshAnswers(rows: seq<TokenRow>, r: Request)
    requires HashesAreUnique(rows) && r.Refresh? && NewHash(rows, r.newHash)
    ensures NewHash(rows, r.tokenHash) ==>
      InTransaction(rows, r).reply == Raised(InvalidRefreshToken) && After(rows, r) == rows
    ensures forall i :: 0 <= i < |rows| && rows[i].tokenHash == r.tokenHash ==>
      InTransaction(rows, r).reply ==
        if rows[i].revokedAt != None then Raised(RefreshTokenReused)
        else if rows[i].expiresAt <= r.now then Raised(RefreshTokenExpired)
        else Session(rows[i].userId, rows[i].organizationId, r.newHash)
  {
    hide Find;
    forall i | 0 <= i < |rows| && rows[i].tokenHash == r.tokenHash
      ensures InTransaction(rows, r).reply ==
        if rows[i].revokedAt != None then Raised(RefreshTokenReused)
        else if rows[i].expiresAt <= r.now then Raised(RefreshTokenExpired)
        else Session(rows[i].userId, rows[i].organizationId, r.newHash)
    {
      FoundIsUnique(rows, i);
      var rows' := rows[i := rows[i].(revokedAt := Some(r.now))];
      assert forall k :: 0 <= k < |rows| ==> rows'[k].tokenHash == rows[k].tokenHash;
      assert Find(rows', r.newHash).None?;
    }
  }

  /** What a replay does to the open transaction: the family's live tokens are revoked at that moment, and no
      other row changes. */
  lemma ReplayRevokesTheFamily(rows: seq<TokenRow>, r: Request, i: nat, k: nat)
    requires HashesAreUnique(rows) && r.Refresh? && i < |rows| && k < |rows|
    requires rows[i].tokenHash == r.tokenHash && rows[i].revokedAt != None
    ensures |InTransaction(rows, r).rows| == |rows|
    ensures InTransaction(rows, r).rows[k] ==
      if rows[k].familyId == rows[i].familyId && rows[k].revokedAt == None then rows[k].(revokedAt := Some(r.now))
      else rows[k]
  {
    FoundIsUnique(rows, i);
    hide Find;
  }

  // ---------- Logging out ----------

  /** Logging out revokes the presented token at that moment, if it was not revoked, and touches no other. */
  lemma LogoutRevokesOneToken(rows: seq<TokenRow>, r: Request, k: nat)
    requires HashesAreUnique(rows) && r.Logout? && k < |rows|
    ensures |After(rows, r)| == |rows|
    ensures After(rows, r)[k] ==
      if rows[k].tokenHash == r.tokenHash && rows[k].revokedAt == None then rows[k].(revokedAt := Some(r.now))
      else rows[k]
  {
    FoundIsUnique(rows, k);
    hide Find;
  }

  ghost function LiveRowsOf(rows: seq<TokenRow>, userId: string, organizationId: string): set<int> {
    set i | 0 <= i < |rows| && rows[i].userId == userId && rows[i].organizationId == organizationId
            && rows[i].revokedAt == None
  }

  lemma {:induction false} LiveCountIsCardinality(rows: seq<TokenRow>, userId: string, organizationId: string)
    ensures LiveCount(rows, userId, organizationId) == |LiveRowsOf(rows, userId, organizationId)|
  {
    if rows == [] {
      assert LiveRowsOf(rows, userId, organizationId) == {};
    } else {
      var n := |rows| - 1;
      LiveCountIsCardinality(rows[..n], userId, organizationId);
      LiveRowsPush(rows, userId, organizationId);
      hide LiveRowsOf;
    }
  }

  lemma LiveRowsPush(rows: seq<TokenRow>, userId: string, organizationId: string)
    requires rows != []
    ensures
      var n := |rows| - 1;
      var before, after := LiveRowsOf(rows[..n], userId, organizationId), LiveRowsOf(rows, userId, organizationId);
      && n !in before
      && after == if OwnedBy(rows[n], userId, organizationId) && Live(rows[n]) then before + {n} else before
  {
    var n := |rows| - 1;
    assert forall i :: 0 <= i < n ==> rows[..n][i] == rows[i];
  }

  /** Logging out everywhere revokes, at that moment, every live token of that user in that organization, says
      how many there were, and touches no other: not the user's in another organization, and nobody else's. */
  lemma LogoutAllRevokesTheUsersTokens(rows: seq<TokenRow>, r: Request, k: nat)
    requires r.LogoutAll? && k < |rows|
    ensures InTransaction(rows, r).reply == Revoked(|LiveRowsOf(rows, r.userId, r.organizationId)|)
    ensures |After(rows, r)| == |rows|
    ensures After(rows, r)[k] ==
      if rows[k].userId == r.userId && rows[k].organizationId == r.organizationId && rows[k].revokedAt == None
      then rows[k].(revokedAt := Some(r.now)) else rows[k]
  {
    LiveCountIsCardinality(rows, r.userId, r.organizationId);
  }

  /** An owner is a user in an organization. */
  lemma FamilyHasOneOwner(rs: seq<Request>, i: nat, j: nat)
    requires History(rs) && i < |Run(rs)| && j < |Run(rs)| && Run(rs)[i].familyId == Run(rs)[j].familyId
    ensures Run(rs)[i].userId == Run(rs)[j].userId && Run(rs)[i].organizationId == Run(rs)[j].organizationId
  {
    hide *;
    RunKeepsInvariant(rs);
    SameOwner(Run(rs), if i < j then i else j, if i < j then j else i);
  }

  lemma SameOwner(rows: seq<TokenRow>, i: nat, j: nat)
    requires Invariant(rows) && i <= j < |rows| && rows[i].familyId == rows[j].familyId
    ensures rows[i].userId == rows[j].userId && rows[i].organizationId == rows[j].organizationId
  {
    hide HashesAreUnique, OnlyNewestIsLive;
    assert i < j ==> OwnedBy(rows[j], rows[i].userId, rows[i].organizationId);
  }
}
