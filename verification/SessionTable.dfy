/**
 The `sessions` table and the three statements the proxy runs on it. Times are nanoseconds.
 */
module SessionTable {
  import opened Lifetime

  datatype CookieMeta = CookieMeta(
    originalMaxAge: int, expires: int, secure: bool, httpOnly: bool, path: string, sameSite: string)

  /** The JSON object in the session_data column. */
  datatype SessionData = SessionData(
    cookie: CookieMeta, userId: string, verified: bool, origin: string, userAgent: string, ip: string)

  datatype Row = Row(
    id: string, sessionId: string, userId: string, data: SessionData, createdAt: int, updatedAt: int)

  /** buildSessionData at clock reading `now`. */
  function BuildSessionData(userId: string, days: Int64, now: int): SessionData {
    var meta := CookieMeta(MaxAgeMillis(days), now + ExpiryNanos(days), true, true, "/ghost", "none");
    SessionData(meta, userId, true, "", "", "")
  }

  // ------------------------------------------------------------- SELECT

  /** user_id = ? AND created_at >= ? */
  predicate Matches(row: Row, userId: string, cutoff: int) {
    row.userId == userId && row.createdAt >= cutoff
  }

  predicate NoMatch(rows: seq<Row>, userId: string, cutoff: int) {
    forall r <- rows :: !Matches(r, userId, cutoff)
  }

  /** A row that ORDER BY created_at DESC LIMIT 1 may return; among equal times any one may come first. */
  predicate NewestMatch(rows: seq<Row>, i: nat, userId: string, cutoff: int) {
    i < |rows| && Matches(rows[i], userId, cutoff) &&
    forall r <- rows :: Matches(r, userId, cutoff) ==> r.createdAt <= rows[i].createdAt
  }

  /** When some row matches, some matching row is newest. */
  lemma {:induction false} NewestExists(rows: seq<Row>, userId: string, cutoff: int)
    ensures NoMatch(rows, userId, cutoff) || exists i: nat :: NewestMatch(rows, i, userId, cutoff)
  {
    if !NoMatch(rows, userId, cutoff) {
      var n := |rows| - 1;
      NewestExists(rows[..n], userId, cutoff);
      assert rows == rows[..n] + [rows[n]];
      if NoMatch(rows[..n], userId, cutoff) {
        assert NewestMatch(rows, n, userId, cutoff);
      } else {
        var i: nat :| NewestMatch(rows[..n], i, userId, cutoff);
        var newest := if Matches(rows[n], userId, cutoff) && rows[n].createdAt > rows[i].createdAt then n else i;
        assert NewestMatch(rows, newest, userId, cutoff);
      }
    }
  }

  // ------------------------------------------------------------- UPDATE and INSERT

  function RefreshedRow(row: Row, sessionId: string, data: SessionData, now: int): Row {
    if row.sessionId == sessionId then row.(data := data, updatedAt := now) else row
  }

  /** SET session_data = ?, updated_at = ? WHERE session_id = ? */
  function Refreshed(rows: seq<Row>, sessionId: string, data: SessionData, now: int): (r: seq<Row>)
    ensures |r| == |rows|
  {
    seq(|rows|, i requires 0 <= i < |rows| => RefreshedRow(rows[i], sessionId, data, now))
  }

  function Ids(rows: seq<Row>): set<string> {
    set r <- rows :: r.sessionId
  }

  predicate DistinctIds(rows: seq<Row>) {
    forall i, j :: 0 <= i < j < |rows| ==> rows[i].sessionId != rows[j].sessionId
  }

  lemma RefreshedIds(rows: seq<Row>, sessionId: string, data: SessionData, now: int)
    ensures Ids(Refreshed(rows, sessionId, data, now)) == Ids(rows)
    ensures DistinctIds(rows) ==> DistinctIds(Refreshed(rows, sessionId, data, now))
  {
    var after := Refreshed(rows, sessionId, data, now);
    forall id | id in Ids(rows) ensures id in Ids(after) {
      var i :| 0 <= i < |rows| && rows[i].sessionId == id;
      assert after[i] in after;
    }
  }
}
