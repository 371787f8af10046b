/** The session operations column by column. */
module SessionLaws {
  import opened Wrappers
  import opened Sessions
  import Lists

  /** What each revoking update makes of a row: revoked at most once, by its own column only. */
  lemma RevokedByColumn(rows: seq<Row>, i: nat, session: nat, user: nat, token: string, at: int, reason: string)
    requires i < |rows|
    ensures var row := rows[i];
            var closed := row.(revokedAt := Some(at), revokedReason := Some(reason));
            && Revoked(rows, OfSession(session), at, reason)[i]
                 == (if row.revokedAt == None && row.sessionId == session then closed else row)
            && Revoked(rows, OfUser(user), at, reason)[i]
                 == (if row.revokedAt == None && row.userId == user then closed else row)
            && Revoked(rows, OfToken(token), at, reason)[i]
                 == (if row.revokedAt == None && row.tokenHash == token then closed else row)
    ensures forall sel :: |Revoked(rows, sel, at, reason)| == |rows|
  {
  }

  /** The number an update answers counts the positions at which revokedAt changed from nothing to a time. */
  lemma FlippedByColumn(before: seq<Row>, after: seq<Row>, i: nat)
    requires |before| == |after|
    ensures i in Flipped(before, after) <==> i < |before| && before[i].revokedAt == None && after[i].revokedAt != None
  {
  }

  lemma TouchedByColumn(rows: seq<Row>, token: string, at: int, i: nat)
    requires i < |rows|
    ensures |Touched(rows, token, at)| == |rows|
    ensures Touched(rows, token, at)[i] == if rows[i].tokenHash == token then rows[i].(lastUsedAt := Some(at)) else rows[i]
  {
  }

  /** A row is refused exactly when its token hash or its token identifier is already there. */
  lemma CollidesByColumn(rows: seq<Row>, row: Row)
    ensures Collides(rows, row) <==>
              exists i: nat | i < |rows| :: rows[i].tokenHash == row.tokenHash || rows[i].tokenJti == row.tokenJti
  {
  }

  /** Which sessions are active: those of the user, not revoked, whose expiry is later than now. */
  lemma ActiveByColumn(row: Row, user: nat, now: int)
    ensures Active([row], user, now) == if row.userId == user && row.revokedAt == None && now < row.expiresAt then [row] else []
    ensures Active([], user, now) == []
  {
    assert [row][..0] == [];
  }

  /** Every row is judged on its own, and the order stays. */
  lemma {:induction false} ActiveRowByRow(rows: seq<Row>, more: seq<Row>, user: nat, now: int)
    ensures Active(rows + more, user, now) == Active(rows, user, now) + Active(more, user, now)
  {
    if more == [] {
      assert rows + more == rows;
    } else {
      var last, all := |more| - 1, rows + more;
      var init := more[..last];
      ActiveRowByRow(rows, init, user, now);
      assert all[..|all| - 1] == rows + init;
      assert all[|all| - 1] == more[last];
      Lists.Rebracket(Active(rows, user, now), Active(init, user, now), if ActiveFor(more[last], user, now) then [more[last]] else []);
    }
  }

  /** Rows sort by creation time whatever else they hold: the list is determined up to rows created at one time. */
  lemma InsertedByTime(newer: seq<Row>, row: Row, older: seq<Row>)
    requires forall r <- newer :: r.createdAt >= row.createdAt
    requires forall r <- older :: r.createdAt < row.createdAt
    ensures InsertDesc(newer + older, row) == newer + [row] + older
  {
    if newer == [] {
      assert newer + older == older;
      if older != [] {
        assert older[0] in older;
      }
    } else {
      assert newer[0] in newer && (newer + older)[1..] == newer[1..] + older;
      InsertedByTime(newer[1..], row, older);
      assert [newer[0]] + (newer[1..] + [row] + older) == newer + [row] + older;
    }
  }

  /** The k-th row of a page is the row `offset + k` of the whole list; a page is short only at the end. */
  lemma PageByPosition(rows: seq<Row>, limit: nat, offset: nat, k: nat)
    ensures k < |Page(rows, limit, offset)| <==> k < limit && offset + k < |rows|
    ensures k < |Page(rows, limit, offset)| ==> Page(rows, limit, offset)[k] == rows[offset + k]
  {
  }
}
