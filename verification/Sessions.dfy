/**
 * The table of refresh sessions: created, touched and revoked, never deleted. A row is identified by its
 * position, which no operation changes.
 */
module Sessions {
  import opened Wrappers

  datatype Row = Row(
    organizationId: nat, userId: nat, sessionId: nat, tokenHash: string, tokenJti: string,
    deviceName: Option<string>, userAgent: Option<string>, ipAddress: Option<string>,
    createdAt: int, expiresAt: int, lastUsedAt: Option<int>, revokedAt: Option<int>, revokedReason: Option<string>)
  {
    /** The row as it was created, whatever has happened to it since. */
    function Identity(): Row { this.(lastUsedAt := None, revokedAt := None, revokedReason := None) }

    predicate Open() { revokedAt.None? }
  }

  /** The WHERE clauses of the three revoking updates. */
  datatype Selector = OfSession(sessionId: nat) | OfUser(userId: nat) | OfToken(tokenHash: string) {
    predicate Selects(row: Row) {
      match this
      case OfSession(id) => row.sessionId == id
      case OfUser(id) => row.userId == id
      case OfToken(hash) => row.tokenHash == hash
    }
  }

  function RevokedRow(row: Row, sel: Selector, at: int, reason: string): Row {
    if sel.Selects(row) && row.Open() then row.(revokedAt := Some(at), revokedReason := Some(reason)) else row
  }

  function Revoked(rows: seq<Row>, sel: Selector, at: int, reason: string): seq<Row> {
    seq(|rows|, i requires 0 <= i < |rows| => RevokedRow(rows[i], sel, at, reason))
  }

  function Touched(rows: seq<Row>, tokenHash: string, at: int): seq<Row> {
    seq(|rows|, i requires 0 <= i < |rows| =>
      if rows[i].tokenHash == tokenHash then rows[i].(lastUsedAt := Some(at)) else rows[i])
  }

  /** The unique columns. */
  ghost predicate TokensUnique(rows: seq<Row>) {
    forall i, j | 0 <= i < j < |rows| :: rows[i].tokenHash != rows[j].tokenHash && rows[i].tokenJti != rows[j].tokenJti
  }

  predicate Collides(rows: seq<Row>, row: Row) {
    exists r <- rows :: r.tokenHash == row.tokenHash || r.tokenJti == row.tokenJti
  }

  // ---------------------------------------------------------------------------------------------
  // Queries
  // ---------------------------------------------------------------------------------------------

  predicate ActiveFor(row: Row, userId: nat, now: int) {
    row.userId == userId && row.Open() && row.expiresAt > now
  }

  function Active(rows: seq<Row>, userId: nat, now: int): seq<Row> {
    if rows == [] then []
    else
      var last := |rows| - 1;
      Active(rows[..last], userId, now) + (if ActiveFor(rows[last], userId, now) then [rows[last]] else [])
  }

  /** Insert into a list ordered by descending creation time, after rows created at the same time. */
  function InsertDesc(sorted: seq<Row>, row: Row): seq<Row> {
    if sorted == [] || sorted[0].createdAt < row.createdAt then [row] + sorted
    else [sorted[0]] + InsertDesc(sorted[1..], row)
  }

  function NewestFirst(rows: seq<Row>): seq<Row> {
    if rows == [] then [] else InsertDesc(NewestFirst(rows[..|rows| - 1]), rows[|rows| - 1])
  }

  /** LIMIT and OFFSET */
  function Page(rows: seq<Row>, limit: nat, offset: nat): seq<Row> {
    if offset >= |rows| then [] else if offset + limit >= |rows| then rows[offset..] else rows[offset..offset + limit]
  }

  function WithSession(rows: seq<Row>, sessionId: nat): seq<Row> {
    if rows == [] then []
    else
      var last := |rows| - 1;
      WithSession(rows[..last], sessionId) + (if rows[last].sessionId == sessionId then [rows[last]] else [])
  }

  class AuthSessionRepository {
    var rows: seq<Row>

    ghost predicate Valid() reads this { TokensUnique(rows) }

    constructor ()
      ensures Valid() && rows == []
    {
      rows := [];
    }

    /** None where the database rejects a repeated token hash or identifier. */
    method CreateSession(organizationId: nat, userId: nat, sessionId: nat, tokenHash: string, tokenJti: string,
                         deviceName: Option<string>, userAgent: Option<string>, ipAddress: Option<string>,
                         expiresAt: int, createdAt: int)
      returns (created: Option<Row>)
      requires Valid()
      modifies this
      ensures Valid()
      ensures var row := Row(organizationId, userId, sessionId, tokenHash, tokenJti, deviceName, userAgent, ipAddress,
                             createdAt, expiresAt, None, None, None);
              if Collides(old(rows), row) then created == None && rows == old(rows)
              else created == Some(row) && rows == old(rows) + [row]
    {
      var row := Row(organizationId, userId, sessionId, tokenHash, tokenJti, deviceName, userAgent, ipAddress,
                     createdAt, expiresAt, None, None, None);
      if exists r <- rows :: r.tokenHash == row.tokenHash || r.tokenJti == row.tokenJti {
        return None;
      }
      rows := rows + [row];
      return Some(row);
    }

    /** UPDATE ... WHERE selected AND revoked_at IS NULL; the result is the number of rows changed. */
    method MarkRevoked(sel: Selector, at: int, reason: string) returns (count: nat)
      requires Valid()
      modifies this
      ensures Valid()
      ensures rows == Revoked(old(rows), sel, at, reason)
      ensures count == |Flipped(old(rows), rows)|
    {
      count := 0;
      var current, updated: seq<Row> := rows, [];
      ghost var target := Revoked(current, sel, at, reason);
      for i := 0 to |current|
        invariant updated == target[..i]
        invariant count == |FlippedUpTo(current, target, i)|
      {
        var row := current[i];
        OneMoreBelow(i, FlippedAt(current, target));
        if sel.Selects(row) && row.revokedAt == None {
          row := row.(revokedAt := Some(at), revokedReason := Some(reason));
          count := count + 1;
        }
        updated := updated + [row];
      }
      RevokedStaysUnique(current, sel, at, reason);
      rows := updated;
    }

    method MarkSessionRevoked(sessionId: nat, revokedAt: int, reason: string) returns (count: nat)
      requires Valid()
      modifies this
      ensures Valid()
      ensures rows == Revoked(old(rows), OfSession(sessionId), revokedAt, reason) && count == |Flipped(old(rows), rows)|
    {
      count := MarkRevoked(OfSession(sessionId), revokedAt, reason);
    }

    method MarkUserSessionsRevoked(userId: nat, revokedAt: int, reason: string) returns (count: nat)
      requires Valid()
      modifies this
      ensures Valid()
      ensures rows == Revoked(old(rows), OfUser(userId), revokedAt, reason) && count == |Flipped(old(rows), rows)|
    {
      count := MarkRevoked(OfUser(userId), revokedAt, reason);
    }

    method MarkTokenRevoked(tokenHash: string, revokedAt: int, reason: string) returns (count: nat)
      requires Valid()
      modifies this
      ensures Valid()
      ensures rows == Revoked(old(rows), OfToken(tokenHash), revokedAt, reason) && count == |Flipped(old(rows), rows)|
    {
      count := MarkRevoked(OfToken(tokenHash), revokedAt, reason);
    }

    method UpdateLastUsed(tokenHash: string, lastUsedAt: int) returns (count: nat)
      requires Valid()
      modifies this
      ensures Valid()
      ensures rows == Touched(old(rows), tokenHash, lastUsedAt)
      ensures count == (if exists r <- old(rows) :: r.tokenHash == tokenHash then 1 else 0)
    {
      count := 0;
      ghost var before := rows;
      for i := 0 to |rows|
        invariant |rows| == |before|
        invariant forall j | 0 <= j < i ::
          rows[j] == if before[j].tokenHash == tokenHash then before[j].(lastUsedAt := Some(lastUsedAt)) else before[j]
        invariant forall j | i <= j < |rows| :: rows[j] == before[j]
        invariant count == if exists j | 0 <= j < i :: before[j].tokenHash == tokenHash then 1 else 0
      {
        if rows[i].tokenHash == tokenHash {
          rows := rows[i := rows[i].(lastUsedAt := Some(lastUsedAt))];
          count := count + 1;
        }
      }
    }

    /** scalar_one_or_none(): uniqueness leaves at most one row to find. */
    method GetSessionByTokenHash(tokenHash: string) returns (found: Option<Row>)
      requires Valid()
      ensures found.None? <==> forall r <- rows :: r.tokenHash != tokenHash
      ensures forall i | 0 <= i < |rows| && rows[i].tokenHash == tokenHash :: found == Some(rows[i])
    {
      for i := 0 to |rows|
        invariant forall j | 0 <= j < i :: rows[j].tokenHash != tokenHash
      {
        if rows[i].tokenHash == tokenHash {
          return Some(rows[i]);
        }
      }
      return None;
    }

    method ListActiveSessionsForUser(userId: nat, limit: nat, offset: nat, now: int) returns (page: seq<Row>)
      ensures page == Page(NewestFirst(Active(rows, userId, now)), limit, offset)
      ensures |page| <= limit && Descending(page)
      ensures forall r <- page :: r in rows && ActiveFor(r, userId, now)
    {
      var active := Active(rows, userId, now);
      page := Page(NewestFirst(active), limit, offset);
      ActiveExact(rows, userId, now);
      PageOfSorted(active, limit, offset);
    }

    method CountActiveSessionsForUser(userId: nat, now: int) returns (count: nat)
      ensures count == |Active(rows, userId, now)|
    {
      count := 0;
      for i := 0 to |rows|
        invariant count == |Active(rows[..i], userId, now)|
      {
        assert rows[..i + 1][..i] == rows[..i];
        if ActiveFor(rows[i], userId, now) {
          count := count + 1;
        }
      }
      assert rows[..|rows|] == rows;
    }

    /** The newest row of a session, revoked or not. */
    method GetSessionById(sessionId: nat) returns (found: Option<Row>)
      ensures found.None? <==> forall r <- rows :: r.sessionId != sessionId
      ensures found.Some? ==>
                && found.value in rows && found.value.sessionId == sessionId
                && forall r <- rows :: r.sessionId == sessionId ==> r.createdAt <= found.value.createdAt
    {
      var sorted := NewestFirst(WithSession(rows, sessionId));
      WithSessionExact(rows, sessionId);
      NewestFirstSorts(WithSession(rows, sessionId));
      if sorted == [] {
        assert multiset(WithSession(rows, sessionId)) == multiset{};
        assert forall r <- rows :: r.sessionId == sessionId ==> r in multiset(WithSession(rows, sessionId));
        return None;
      }
      assert sorted[0] in multiset(WithSession(rows, sessionId));
      forall r | r in rows && r.sessionId == sessionId ensures r.createdAt <= sorted[0].createdAt {
        assert r in multiset(sorted);
      }
      return Some(sorted[0]);
    }
  }

  /** The positions at which an update turned an open row into a revoked one. */
  ghost function Flipped(before: seq<Row>, after: seq<Row>): set<nat>
    requires |before| == |after|
  {
    FlippedUpTo(before, after, |before|)
  }

  ghost function FlippedUpTo(before: seq<Row>, after: seq<Row>, n: nat): set<nat> {
    Below(n, FlippedAt(before, after))
  }

  ghost function FlippedAt(before: seq<Row>, after: seq<Row>): nat -> bool {
    (i: nat) => i < |before| && i < |after| && before[i].Open() && !after[i].Open()
  }

  ghost function Below(n: nat, p: nat -> bool): set<nat> {
    set i: nat | i < n && p(i)
  }

  lemma OneMoreBelow(n: nat, p: nat -> bool)
    ensures |Below(n + 1, p)| == |Below(n, p)| + (if p(n) then 1 else 0)
  {
    if p(n) {
      assert Below(n + 1, p) == Below(n, p) + {n};
    } else {
      assert Below(n + 1, p) == Below(n, p);
    }
  }

  lemma RevokedStaysUnique(rows: seq<Row>, sel: Selector, at: int, reason: string)
    requires TokensUnique(rows)
    ensures TokensUnique(Revoked(rows, sel, at, reason))
  {
  }

  lemma {:induction false} ActiveExact(rows: seq<Row>, userId: nat, now: int)
    ensures forall r :: r in Active(rows, userId, now) <==> r in rows && ActiveFor(r, userId, now)
  {
    if rows == [] {
    } else {
      var last := |rows| - 1;
      ActiveExact(rows[..last], userId, now);
      assert forall r :: r in rows <==> r in rows[..last] || r == rows[last];
    }
  }

  lemma {:induction false} WithSessionExact(rows: seq<Row>, sessionId: nat)
    ensures forall r :: r in WithSession(rows, sessionId) <==> r in rows && r.sessionId == sessionId
  {
    if rows == [] {
    } else {
      var last := |rows| - 1;
      WithSessionExact(rows[..last], sessionId);
      assert forall r :: r in rows <==> r in rows[..last] || r == rows[last];
    }
  }

  // ---------------------------------------------------------------------------------------------
  // Ordering and paging
  // ---------------------------------------------------------------------------------------------

  ghost predicate Descending(rows: seq<Row>) {
    forall i, j | 0 <= i < j < |rows| :: rows[i].createdAt >= rows[j].createdAt
  }

  lemma PageOfSorted(active: seq<Row>, limit: nat, offset: nat)
    ensures var page := Page(NewestFirst(active), limit, offset);
            |page| <= limit && Descending(page) && forall r <- page :: r in active
  {
    var sorted := NewestFirst(active);
    NewestFirstSorts(active);
    SameMembers(sorted, active);
    PageIsSlice(sorted, limit, offset);
  }

  lemma SameMembers(a: seq<Row>, b: seq<Row>)
    requires multiset(a) == multiset(b)
    ensures forall r <- a :: r in b
  {
    forall r | r in a ensures r in b {
      assert r in multiset(b);
    }
  }

  lemma PageIsSlice(rows: seq<Row>, limit: nat, offset: nat)
    requires Descending(rows)
    ensures var page := Page(rows, limit, offset);
            |page| <= limit && Descending(page) && forall r <- page :: r in rows
  {
  }

  lemma PrependDescending(row: Row, rows: seq<Row>)
    requires Descending(rows) && forall r <- rows :: r.createdAt <= row.createdAt
    ensures Descending([row] + rows)
    ensures multiset([row] + rows) == multiset(rows) + multiset{row}
  {
    forall i, j | 0 <= i < j < |[row] + rows| ensures ([row] + rows)[i].createdAt >= ([row] + rows)[j].createdAt {
      assert ([row] + rows)[j] in rows;
    }
  }

  lemma {:induction false} InsertDescSorts(sorted: seq<Row>, row: Row)
    requires Descending(sorted)
    ensures Descending(InsertDesc(sorted, row))
    ensures multiset(InsertDesc(sorted, row)) == multiset(sorted) + multiset{row}
  {
    if sorted == [] || sorted[0].createdAt < row.createdAt {
      assert forall i | 0 <= i < |sorted| :: sorted[i].createdAt <= sorted[0].createdAt;
      PrependDescending(row, sorted);
    } else {
      InsertDescSorts(sorted[1..], row);
      var rest := InsertDesc(sorted[1..], row);
      assert sorted == [sorted[0]] + sorted[1..];
      forall r | r in rest ensures r.createdAt <= sorted[0].createdAt {
        assert r in multiset(rest);
        assert r in multiset(sorted[1..]) || r == row;
      }
      PrependDescending(sorted[0], rest);
    }
  }

  /** The list view is a reordering of the active rows, newest first. */
  lemma {:induction false} NewestFirstSorts(rows: seq<Row>)
    ensures Descending(NewestFirst(rows))
    ensures multiset(NewestFirst(rows)) == multiset(rows)
    ensures |NewestFirst(rows)| == |rows|
  {
    if rows == [] {
    } else {
      var last := |rows| - 1;
      NewestFirstSorts(rows[..last]);
      InsertDescSorts(NewestFirst(rows[..last]), rows[last]);
      assert rows == rows[..last] + [rows[last]];
      assert |multiset(NewestFirst(rows))| == |multiset(rows)|;
    }
  }

  // ---------------------------------------------------------------------------------------------
  // Runs of operations
  // ---------------------------------------------------------------------------------------------

  datatype Op =
    | Create(row: Row)
    | Revoke(sel: Selector, at: int, reason: string)
    | Touch(tokenHash: string, at: int)

  function Apply(rows: seq<Row>, op: Op): seq<Row> {
    match op
    case Create(row) => if Collides(rows, row.Identity()) then rows else rows + [row.Identity()]
    case Revoke(sel, at, reason) => Revoked(rows, sel, at, reason)
    case Touch(hash, at) => Touched(rows, hash, at)
  }

  function RunOps(rows: seq<Row>, ops: seq<Op>): seq<Row> {
    if ops == [] then rows else Apply(RunOps(rows, ops[..|ops| - 1]), ops[|ops| - 1])
  }

  /** No row disappears or changes identity, and a revocation once recorded keeps its time and reason. */
  ghost predicate Preserved(before: seq<Row>, after: seq<Row>) {
    && |before| <= |after|
    && (forall i | 0 <= i < |before| ::
          && after[i].Identity() == before[i].Identity()
          && (!before[i].Open() ==> after[i].revokedAt == before[i].revokedAt && after[i].revokedReason == before[i].revokedReason))
  }

  lemma {:induction false} RevocationsAreFinal(rows: seq<Row>, ops: seq<Op>)
    ensures Preserved(rows, RunOps(rows, ops))
  {
    if ops == [] {
    } else {
      RevocationsAreFinal(rows, ops[..|ops| - 1]);
    }
  }

  lemma {:induction false} TokensStayUnique(rows: seq<Row>, ops: seq<Op>)
    requires TokensUnique(rows)
    ensures TokensUnique(RunOps(rows, ops))
  {
    if ops == [] {
    } else {
      TokensStayUnique(rows, ops[..|ops| - 1]);
    }
  }

  /** A revoking update flips exactly the open selected rows; repeating it flips none and changes nothing. */
  lemma RevokeTwice(rows: seq<Row>, sel: Selector, at: int, reason: string, at': int, reason': string)
    ensures var once := Revoked(rows, sel, at, reason);
            && (forall i: nat | i < |rows| :: i in Flipped(rows, once) <==> sel.Selects(rows[i]) && rows[i].Open())
            && Revoked(once, sel, at', reason') == once
            && Flipped(once, Revoked(once, sel, at', reason')) == {}
  {
    var once := Revoked(rows, sel, at, reason);
    assert forall i | 0 <= i < |rows| :: Revoked(once, sel, at', reason')[i] == once[i];
  }

  lemma {:induction false} ActivePointwise(a: seq<Row>, b: seq<Row>, userId: nat, now: int)
    requires |a| == |b|
    requires forall i | 0 <= i < |a| :: if ActiveFor(a[i], userId, now) then b[i] == a[i] else !ActiveFor(b[i], userId, now)
    ensures Active(a, userId, now) == Active(b, userId, now)
  {
    if a == [] {
    } else {
      ActivePointwise(a[..|a| - 1], b[..|b| - 1], userId, now);
    }
  }

  lemma {:induction false} NoneActive(rows: seq<Row>, userId: nat, now: int)
    ensures Active(rows, userId, now) == [] <==> forall i | 0 <= i < |rows| :: !ActiveFor(rows[i], userId, now)
  {
    if rows == [] {
    } else {
      NoneActive(rows[..|rows| - 1], userId, now);
    }
  }

  /** Revoking a user leaves that user without active sessions at any time, and every other user's as they were. */
  lemma RevokeUserIsolated(rows: seq<Row>, userId: nat, other: nat, at: int, reason: string, now: int)
    requires other != userId
    ensures var after := Revoked(rows, OfUser(userId), at, reason);
            && Active(after, userId, now) == []
            && Active(after, other, now) == Active(rows, other, now)
            && (forall i | 0 <= i < |rows| && rows[i].userId != userId :: after[i] == rows[i])
  {
    var after := Revoked(rows, OfUser(userId), at, reason);
    NoneActive(after, userId, now);
    ActivePointwise(rows, after, other, now);
  }

  /** Once revoked, a user stays without active sessions through every run that creates none for that user. */
  lemma {:induction false} StaysLoggedOut(rows: seq<Row>, ops: seq<Op>, userId: nat, now: int)
    requires Active(rows, userId, now) == []
    requires forall op <- ops :: op.Create? ==> op.row.userId != userId
    ensures Active(RunOps(rows, ops), userId, now) == []
  {
    if ops == [] {
    } else {
      var last := |ops| - 1;
      StaysLoggedOut(rows, ops[..last], userId, now);
      var before := RunOps(rows, ops[..last]);
      NoneActive(before, userId, now);
      NoneActive(Apply(before, ops[last]), userId, now);
      assert ops[last] in ops;
    }
  }
}
