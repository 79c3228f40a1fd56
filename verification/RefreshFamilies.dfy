/**
 Refresh-token families. A login starts a family; each rotation revokes the presented token
 and links it to its replacement; presenting a token a second time revokes the family, the
 scheme of section 4.14.2 of RFC 9700. Each repository call is one serial step.
 */
module RefreshFamilies {
  import opened RoomState

  type Jti = int

  datatype Family = Family(user: int, family: int)

  datatype Row = Row(
    family: Family,
    version: int,
    expires: Millis,
    revokedAt: Option<Millis>,
    rotatedTo: Option<Jti>)

  datatype Record = Record(family: Family, jti: Jti, version: int, expires: Millis)

  datatype Result = Done | InvalidToken | Replay | Persistence

  type Rows = map<Jti, Row>

  predicate WellFormed(rec: Record) {
    rec.family.user != 0 && rec.family.family != 0 && 0 < rec.version
  }

  /** The unique index on the hash and the check on the expiry. */
  predicate Insertable(rows: Rows, rec: Record, now: Millis) {
    rec.jti !in rows && now < rec.expires
  }

  function Insert(rows: Rows, rec: Record): Rows {
    rows[rec.jti := Row(rec.family, rec.version, rec.expires, None, None)]
  }

  function Revoke(row: Row, now: Millis): Row {
    row.(revokedAt := if row.revokedAt.Some? then row.revokedAt else Some(now))
  }

  function RevokeAll(rows: Rows, f: Family, now: Millis): Rows {
    map j | j in rows :: if rows[j].family == f then Revoke(rows[j], now) else rows[j]
  }

  predicate Spent(row: Row) {
    row.revokedAt.Some? || row.rotatedTo.Some?
  }

  predicate Fits(row: Row, rec: Record, now: Millis) {
    now < row.expires && row.family == rec.family && row.version == rec.version
  }

  // ------------------------------------------------------------------ the calls as functions

  datatype Call =
    | Register(rec: Record, now: Millis)
    | Rotate(presented: Jti, rec: Record, now: Millis)
    | RevokeFamily(user: int, presented: Jti, now: Millis)

  function Outcome(rows: Rows, c: Call): Result {
    match c
    case Register(rec, now) =>
      if !WellFormed(rec) then InvalidToken else if Insertable(rows, rec, now) then Done else Persistence
    case Rotate(p, rec, now) =>
      if !WellFormed(rec) || p !in rows then InvalidToken
      else if Spent(rows[p]) then Replay
      else if !Fits(rows[p], rec, now) then InvalidToken
      else if Insertable(rows, rec, now) then Done else Persistence
    case RevokeFamily(user, p, now) =>
      if user == 0 || p !in rows || rows[p].family.user != user then InvalidToken else Done
  }

  function After(rows: Rows, c: Call): Rows {
    match c
    case Register(rec, now) => if Outcome(rows, c) == Done then Insert(rows, rec) else rows
    case Rotate(p, rec, now) =>
      if !WellFormed(rec) || p !in rows then rows
      else if Spent(rows[p]) then RevokeAll(rows, rows[p].family, now)
      else if !Fits(rows[p], rec, now) then rows[p := Revoke(rows[p], now)]
      else if Insertable(rows, rec, now) then
        Insert(rows, rec)[p := rows[p].(revokedAt := Some(now), rotatedTo := Some(rec.jti))]
      else rows
    case RevokeFamily(user, p, now) =>
      if Outcome(rows, c) == Done then RevokeAll(rows, rows[p].family, now) else rows
  }

  class Repository {
    var rows: Rows

    constructor ()
      ensures rows == map[]
    {
      rows := map[];
    }

    method Register(rec: Record, now: Millis) returns (result: Result)
      modifies this
      ensures result == Outcome(old(rows), Call.Register(rec, now)) && rows == After(old(rows), Call.Register(rec, now))
    {
      if !WellFormed(rec) { return InvalidToken; }
      if !Insertable(rows, rec, now) { return Persistence; }
      rows := Insert(rows, rec);
      return Done;
    }

    method Rotate(presented: Jti, rec: Record, now: Millis) returns (result: Result)
      modifies this
      ensures result == Outcome(old(rows), Call.Rotate(presented, rec, now))
      ensures rows == After(old(rows), Call.Rotate(presented, rec, now))
    {
      if !WellFormed(rec) { return InvalidToken; }
      if presented !in rows { return InvalidToken; }
      var row := rows[presented];
      if row.revokedAt.Some? || row.rotatedTo.Some? {
        rows := RevokeAll(rows, row.family, now);
        return Replay;
      }
      if now >= row.expires || row.family != rec.family || row.version != rec.version {
        rows := rows[presented := row.(revokedAt := Some(now))];
        return InvalidToken;
      }
      if !Insertable(rows, rec, now) { return Persistence; }
      rows := Insert(rows, rec);
      rows := rows[presented := row.(revokedAt := Some(now), rotatedTo := Some(rec.jti))];
      return Done;
    }

    method RevokeFamily(user: int, presented: Jti, now: Millis) returns (result: Result)
      modifies this
      ensures result == Outcome(old(rows), Call.RevokeFamily(user, presented, now))
      ensures rows == After(old(rows), Call.RevokeFamily(user, presented, now))
    {
      if user == 0 { return InvalidToken; }
      if presented !in rows || rows[presented].family.user != user { return InvalidToken; }
      rows := RevokeAll(rows, rows[presented].family, now);
      return Done;
    }
  }

  // ------------------------------------------------------------------ families are chains

  /** The tokens of a family in the order of their rotations: each but the last is revoked and
      linked to the next, the last is linked to nothing, and no token occurs twice. */
  ghost predicate Chain(rows: Rows, f: Family, c: seq<Jti>) {
    && c != []
    && (forall i :: 0 <= i < |c| ==> c[i] in rows && rows[c[i]].family == f)
    && (forall i, j :: 0 <= i < j < |c| ==> c[i] != c[j])
    && (forall i :: 0 <= i < |c| - 1 ==> rows[c[i]].rotatedTo == Some(c[i + 1]) && rows[c[i]].revokedAt.Some?)
    && rows[c[|c| - 1]].rotatedTo == None
  }

  ghost predicate Chained(rows: Rows, chains: map<Family, seq<Jti>>) {
    && (forall f :: f in chains ==> Chain(rows, f, chains[f]))
    && (forall j :: j in rows ==> rows[j].family in chains && j in chains[rows[j].family])
  }

  /** Login starts a family that no row has; the other calls come from anybody. */
  ghost predicate Proper(rows: Rows, c: Call) {
    c.Register? ==> forall j :: j in rows ==> rows[j].family != c.rec.family
  }

  function Grown(rows: Rows, chains: map<Family, seq<Jti>>, c: Call): map<Family, seq<Jti>> {
    if Outcome(rows, c) != Done || c.RevokeFamily? then chains
    else if c.Register? then chains[c.rec.family := [c.rec.jti]]
    else if c.rec.family in chains then chains[c.rec.family := chains[c.rec.family] + [c.rec.jti]]
    else chains
  }

  /** The rows have the families and links they had, and nothing is unrevoked. */
  ghost predicate OnlyRevoked(rows: Rows, after: Rows) {
    && after.Keys == rows.Keys
    && forall j :: j in rows ==>
         && after[j].family == rows[j].family && after[j].rotatedTo == rows[j].rotatedTo
         && (rows[j].revokedAt.Some? ==> after[j].revokedAt.Some?)
  }

  lemma ChainRevoked(rows: Rows, after: Rows, f: Family, c: seq<Jti>)
    requires OnlyRevoked(rows, after) && Chain(rows, f, c)
    ensures Chain(after, f, c)
  {
    forall i | 0 <= i < |c| ensures c[i] in after && after[c[i]].family == f && after[c[i]].rotatedTo == rows[c[i]].rotatedTo {
      assert c[i] in rows;
    }
    forall i | 0 <= i < |c| - 1 ensures after[c[i]].rotatedTo == Some(c[i + 1]) && after[c[i]].revokedAt.Some? {
      assert c[i] in rows;
    }
  }

  /** Revoking rows, without new rows or links, leaves chains alone. */
  lemma RevokingKeeps(rows: Rows, after: Rows, chains: map<Family, seq<Jti>>)
    requires Chained(rows, chains) && OnlyRevoked(rows, after)
    ensures Chained(after, chains)
  {
    forall f | f in chains ensures Chain(after, f, chains[f]) {
      ChainRevoked(rows, after, f, chains[f]);
    }
    forall j | j in after ensures after[j].family in chains && j in chains[after[j].family] {
      assert j in rows;
    }
  }

  lemma RegisterKeeps(rows: Rows, chains: map<Family, seq<Jti>>, c: Call)
    requires Chained(rows, chains) && c.Register? && Proper(rows, c) && Outcome(rows, c) == Done
    ensures Chained(After(rows, c), Grown(rows, chains, c))
  {
    var after, more := After(rows, c), Grown(rows, chains, c);
    forall f | f in more ensures Chain(after, f, more[f]) { RegisterChain(rows, chains, c, f); }
    forall j | j in after ensures after[j].family in more && j in more[after[j].family] {
      if j != c.rec.jti { assert rows[j].family != c.rec.family; }
    }
  }

  lemma RegisterChain(rows: Rows, chains: map<Family, seq<Jti>>, c: Call, f: Family)
    requires Chained(rows, chains) && c.Register? && Proper(rows, c) && Outcome(rows, c) == Done && f in Grown(rows, chains, c)
    ensures Chain(After(rows, c), f, Grown(rows, chains, c)[f])
  {
    if f != c.rec.family { assert Chain(rows, f, chains[f]); }
  }

  /** Only the last token of a chain can still be unspent. */
  lemma UnspentIsLast(rows: Rows, f: Family, c: seq<Jti>, j: Jti)
    requires Chain(rows, f, c) && j in c && rows[j].revokedAt.None?
    ensures j == c[|c| - 1]
  {
    var i :| 0 <= i < |c| && c[i] == j;
  }

  /** The replacement extends the chain of its family. */
  lemma ChainExtends(rows: Rows, chain: seq<Jti>, c: Call)
    requires c.Rotate? && Outcome(rows, c) == Done && Chain(rows, c.rec.family, chain) && c.presented in chain
    ensures Chain(After(rows, c), c.rec.family, chain + [c.rec.jti])
  {
    UnspentIsLast(rows, c.rec.family, chain, c.presented);
  }

  lemma ChainApart(rows: Rows, f: Family, chain: seq<Jti>, c: Call)
    requires c.Rotate? && Outcome(rows, c) == Done && Chain(rows, f, chain) && f != c.rec.family
    ensures Chain(After(rows, c), f, chain)
  {
  }

  lemma RotateKeeps(rows: Rows, chains: map<Family, seq<Jti>>, c: Call)
    requires Chained(rows, chains) && c.Rotate? && Outcome(rows, c) == Done
    ensures Chained(After(rows, c), Grown(rows, chains, c))
  {
    var after, more, g := After(rows, c), Grown(rows, chains, c), c.rec.family;
    assert rows[c.presented].family == g && c.presented in chains[g];
    forall f | f in more ensures Chain(after, f, more[f]) {
      if f == g {
        ChainExtends(rows, chains[g], c);
      } else {
        ChainApart(rows, f, chains[f], c);
      }
    }
    assert (chains[g] + [c.rec.jti])[|chains[g]|] == c.rec.jti;
    forall j | j in after ensures after[j].family in more && j in more[after[j].family] {
      if j in rows { assert j in chains[rows[j].family]; }
    }
  }

  lemma OtherCallsRevoke(rows: Rows, c: Call)
    requires Outcome(rows, c) != Done || c.RevokeFamily?
    ensures OnlyRevoked(rows, After(rows, c))
  {
  }

  lemma CallKeeps(rows: Rows, chains: map<Family, seq<Jti>>, c: Call)
    requires Chained(rows, chains) && Proper(rows, c)
    ensures Chained(After(rows, c), Grown(rows, chains, c))
  {
    if c.Register? && Outcome(rows, c) == Done {
      RegisterKeeps(rows, chains, c);
    } else if c.Rotate? && Outcome(rows, c) == Done {
      RotateKeeps(rows, chains, c);
    } else {
      OtherCallsRevoke(rows, c);
      RevokingKeeps(rows, After(rows, c), chains);
    }
  }

  // ------------------------------------------------------------------ whole runs

  ghost predicate Goes(states: seq<Rows>, calls: seq<Call>, i: nat)
    requires i < |calls| < |states|
  {
    Proper(states[i], calls[i]) && states[i + 1] == After(states[i], calls[i])
  }

  ghost predicate IsRun(states: seq<Rows>, calls: seq<Call>) {
    |states| == |calls| + 1 && states[0] == map[] && forall i :: 0 <= i < |calls| ==> Goes(states, calls, i)
  }

  /** In every reachable table the tokens of each family form one simple chain: no branches,
      no cycles, nothing outside. */
  lemma {:induction false} FamiliesAreChains(states: seq<Rows>, calls: seq<Call>, n: nat)
    returns (chains: map<Family, seq<Jti>>)
    requires IsRun(states, calls) && n < |states|
    ensures Chained(states[n], chains)
    decreases n
  {
    if n == 0 {
      chains := map[];
    } else {
      chains := FamiliesAreChains(states, calls, n - 1);
      assert Goes(states, calls, n - 1);
      CallKeeps(states[n - 1], chains, calls[n - 1]);
      chains := Grown(states[n - 1], chains, calls[n - 1]);
    }
  }

  /** A family never has two unrevoked tokens. */
  lemma OneLiveToken(states: seq<Rows>, calls: seq<Call>, n: nat, a: Jti, b: Jti)
    requires IsRun(states, calls) && n < |states| && a in states[n] && b in states[n]
    requires states[n][a].family == states[n][b].family
    requires states[n][a].revokedAt.None? && states[n][b].revokedAt.None?
    ensures a == b
  {
    var chains := FamiliesAreChains(states, calls, n);
    var f := states[n][a].family;
    UnspentIsLast(states[n], f, chains[f], a);
    UnspentIsLast(states[n], f, chains[f], b);
  }

  /** All tokens of the family are revoked. */
  ghost predicate Dead(rows: Rows, f: Family) {
    && (exists j :: j in rows && rows[j].family == f)
    && (forall j :: j in rows && rows[j].family == f ==> rows[j].revokedAt.Some?)
  }

  lemma DeadStays(rows: Rows, c: Call, f: Family)
    requires Dead(rows, f) && Proper(rows, c)
    ensures Dead(After(rows, c), f)
  {
    var j :| j in rows && rows[j].family == f;
    assert j in After(rows, c) && After(rows, c)[j].family == f;
  }

  lemma {:induction false} DeadForever(states: seq<Rows>, calls: seq<Call>, i: nat, j: nat, f: Family)
    requires IsRun(states, calls) && i <= j < |states| && Dead(states[i], f)
    ensures Dead(states[j], f)
    decreases j
  {
    if i < j {
      DeadForever(states, calls, i, j - 1, f);
      assert Goes(states, calls, j - 1);
      DeadStays(states[j - 1], calls[j - 1], f);
    }
  }

  /** After a replay, or a logout, no token of the family is ever rotated successfully again. */
  lemma ReplayKillsFamily(states: seq<Rows>, calls: seq<Call>, i: nat, k: nat, f: Family)
    requires IsRun(states, calls) && i < k < |calls| && calls[k].Rotate?
    requires (calls[i].Rotate? && Outcome(states[i], calls[i]) == Replay)
          || (calls[i].RevokeFamily? && Outcome(states[i], calls[i]) == Done)
    requires f == states[i][calls[i].presented].family
    requires calls[k].presented in states[k] && states[k][calls[k].presented].family == f
    ensures Outcome(states[k], calls[k]) != Done
  {
    assert Goes(states, calls, i);
    var p := calls[i].presented;
    assert p in states[i + 1] && states[i + 1][p].family == f;
    assert Dead(states[i + 1], f);
    DeadForever(states, calls, i + 1, k, f);
  }

  // ------------------------------------------------------------------ what a call answers

  /** A complete record. */
  predicate Complete(rec: Record) {
    rec.family.user != 0 && rec.family.family != 0 && 1 <= rec.version
  }

  /** The row has neither been revoked nor rotated. */
  predicate Live(row: Row) {
    row.revokedAt == None && row.rotatedTo == None
  }

  /** The replacement is for the same user, family and version, before the row expires. */
  predicate Renews(row: Row, rec: Record, now: Millis) {
    && now < row.expires && row.family.user == rec.family.user && row.family.family == rec.family.family
    && row.version == rec.version
  }

  predicate New(rows: Rows, rec: Record, now: Millis) {
    rec.jti !in rows && now < rec.expires
  }

  /** The record is in the table as a fresh row. */
  ghost predicate Added(rows: Rows, rec: Record, after: Rows) {
    && after.Keys == rows.Keys + {rec.jti} && rec.jti in after
    && after[rec.jti].family == rec.family && after[rec.jti].version == rec.version && after[rec.jti].expires == rec.expires
    && after[rec.jti].revokedAt == None && after[rec.jti].rotatedTo == None
  }

  /** Just the rows of the family are revoked, those that were not at the given time. */
  ghost predicate FamilyRevoked(rows: Rows, f: Family, now: Millis, after: Rows) {
    && after.Keys == rows.Keys
    && forall j :: j in rows ==>
         after[j] == if rows[j].family == f && rows[j].revokedAt == None then rows[j].(revokedAt := Some(now)) else rows[j]
  }

  /** A rotation succeeds exactly for a live, unexpired token of the replacement's user, family and
      version, and a new replacement: the token is then revoked and linked to the replacement. */
  lemma RotateAnswers(rows: Rows, p: Jti, rec: Record, now: Millis)
    ensures var c := Call.Rotate(p, rec, now);
            var result, after := Outcome(rows, c), After(rows, c);
            && (result == Done <==>
                  Complete(rec) && p in rows && Live(rows[p]) && Renews(rows[p], rec, now) && New(rows, rec, now))
            && (result == Replay <==> Complete(rec) && p in rows && !Live(rows[p]))
            && (result == Persistence <==>
                  Complete(rec) && p in rows && Live(rows[p]) && Renews(rows[p], rec, now) && !New(rows, rec, now))
            && (result == Done ==>
                  && Added(rows - {p}, rec, after - {p}) && p in after && p != rec.jti
                  && after[p] == rows[p].(revokedAt := Some(now), rotatedTo := Some(rec.jti))
                  && forall j :: j in rows && j != p ==> after[j] == rows[j])
            && (result == Replay ==> FamilyRevoked(rows, rows[p].family, now, after))
            && (result == Persistence ==> after == rows)
            && (result == InvalidToken ==>
                  after == if Complete(rec) && p in rows then rows[p := rows[p].(revokedAt := Some(now))] else rows)
  {
    var after := After(rows, Call.Rotate(p, rec, now));
    if Outcome(rows, Call.Rotate(p, rec, now)) == Done {
      assert (after - {p}).Keys == (rows - {p}).Keys + {rec.jti};
    }
  }

  lemma RegisterAnswers(rows: Rows, rec: Record, now: Millis)
    ensures var c := Call.Register(rec, now);
            var result, after := Outcome(rows, c), After(rows, c);
            && (result == Done <==> Complete(rec) && New(rows, rec, now))
            && (result == InvalidToken <==> !Complete(rec))
            && (result == Done ==> Added(rows, rec, after) && forall j :: j in rows ==> after[j] == rows[j])
            && (result != Done ==> after == rows)
  {
  }

  lemma RevokeAnswers(rows: Rows, user: int, p: Jti, now: Millis)
    ensures var c := Call.RevokeFamily(user, p, now);
            var result, after := Outcome(rows, c), After(rows, c);
            && (result == Done <==> user != 0 && p in rows && rows[p].family.user == user)
            && (result != Done ==> result == InvalidToken && after == rows)
            && (result == Done ==> FamilyRevoked(rows, rows[p].family, now, after))
  {
  }

  // ------------------------------------------------------------------ where a rotation comes from

  /** Call i of the run registered the token, or rotated another to it. */
  ghost predicate IssuedBy(states: seq<Rows>, calls: seq<Call>, i: int, j: Jti, row: Row) {
    && 0 <= i < |calls| < |states| && Outcome(states[i], calls[i]) == Done
    && (calls[i].Register? || calls[i].Rotate?) && calls[i].rec.jti == j
    && calls[i].rec.family == row.family && calls[i].rec.version == row.version && calls[i].rec.expires == row.expires
  }

  /** A call adds at most its own record, and leaves family, version and expiry of a row alone. */
  lemma RowsStay(rows: Rows, c: Call, j: Jti)
    requires j in After(rows, c)
    ensures j !in rows ==> (c.Register? || c.Rotate?) && Outcome(rows, c) == Done && c.rec.jti == j
                           && After(rows, c)[j] == Row(c.rec.family, c.rec.version, c.rec.expires, None, None)
    ensures j in rows ==> After(rows, c)[j].family == rows[j].family && After(rows, c)[j].version == rows[j].version
                          && After(rows, c)[j].expires == rows[j].expires
                          && (!Live(rows[j]) ==> !Live(After(rows, c)[j]))
  {
  }

  lemma {:induction false} RowIsIssued(states: seq<Rows>, calls: seq<Call>, n: nat, j: Jti) returns (i: int)
    requires IsRun(states, calls) && n < |states| && j in states[n]
    ensures 0 <= i < n && IssuedBy(states, calls, i, j, states[n][j])
    decreases n
  {
    i := n - 1;
    if 0 < n {
      assert Goes(states, calls, n - 1);
      RowsStay(states[n - 1], calls[n - 1], j);
      if j in states[n - 1] { i := RowIsIssued(states, calls, n - 1, j); }
    }
  }

  lemma {:induction false} DeadRowStays(states: seq<Rows>, calls: seq<Call>, i: nat, k: nat, j: Jti)
    requires IsRun(states, calls) && i <= k < |states| && j in states[i] && !Live(states[i][j])
    ensures j in states[k] && !Live(states[k][j])
    decreases k
  {
    if i < k {
      DeadRowStays(states, calls, i, k - 1, j);
      assert Goes(states, calls, k - 1);
      RowsStay(states[k - 1], calls[k - 1], j);
    }
  }

  /** Over every run: a rotation that succeeds presents a token that an earlier call issued to the
      same user, family and version, that has not expired, and that was never rotated before. */
  lemma RotationIsEarned(states: seq<Rows>, calls: seq<Call>, n: nat) returns (i: int)
    requires IsRun(states, calls) && n < |calls| && calls[n].Rotate? && Outcome(states[n], calls[n]) == Done
    ensures 0 <= i < n && Outcome(states[i], calls[i]) == Done && (calls[i].Register? || calls[i].Rotate?)
    ensures var first, c := calls[i].rec, calls[n];
            first.jti == c.presented && first.family == c.rec.family && first.version == c.rec.version && c.now < first.expires
    ensures forall k :: 0 <= k < n && calls[k].Rotate? && calls[k].presented == calls[n].presented ==>
              Outcome(states[k], calls[k]) != Done
  {
    var p := calls[n].presented;
    RotateAnswers(states[n], p, calls[n].rec, calls[n].now);
    i := RowIsIssued(states, calls, n, p);
    forall k | 0 <= k < n && calls[k].Rotate? && calls[k].presented == p ensures Outcome(states[k], calls[k]) != Done {
      assert Goes(states, calls, k);
      RotateAnswers(states[k], p, calls[k].rec, calls[k].now);
      if Outcome(states[k], calls[k]) == Done { DeadRowStays(states, calls, k + 1, n, p); }
    }
  }
}
