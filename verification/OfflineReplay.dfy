/**
  One pass of the offline queue's replay (apps/web/src/features/offline/useOfflineQueue.ts) over
  the rows that the fetch wrapper queued.

  Main results: a row leaves the queue only with a final answer of the server, and every other
  row stays (`NothingIsLost`); and the pass, described as first in, first out, is so for every
  behaviour of server and storage exactly when no row that is backing off stands before one that
  is not (`DrainIsFifoIff`, with the counterexample in `LaterEditOvertakes`).
 */
module OfflineReplay {

  const MAX_BACKOFF_MS := 30_000

  /** A queued mutation, without its request. */
  datatype Row = Row(id: nat, createdAt: int, attempts: nat)

  datatype Outcome = Status(code: nat) | NetworkError

  function Pow2(n: nat): nat {
    if n == 0 then 1 else 2 * Pow2(n - 1)
  }

  /** backoffMs */
  function Backoff(attempts: nat): int {
    var base := 1_000 * Pow2(if attempts == 0 then 0 else attempts - 1);
    if base < MAX_BACKOFF_MS then base else MAX_BACKOFF_MS
  }

  /** The pass leaves the row for later; the window is counted from the row's creation. */
  predicate BackingOff(row: Row, now: int) {
    row.attempts > 0 && now - row.createdAt < Backoff(row.attempts)
  }

  /** Accepted or rejected for good: either way the row is dropped. */
  predicate Final(o: Outcome) {
    o.Status? && (200 <= o.code < 300 || 400 <= o.code < 500)
  }

  /** What a pass did: the rows it sent, in order, and the queue it leaves. */
  datatype Pass = Pass(sent: seq<nat>, kept: seq<Row>)

  /**
    The pass from row `i` on; `clock(k)` is the time read at row k, `server` what each row's
    request meets, and `db` whether IndexedDB takes the change to the row that follows. If it
    does not, the rejection ends the pass and the row stays as it was.
   */
  function Drain(rows: seq<Row>, i: nat, clock: nat -> int, server: nat -> Outcome, db: nat -> bool): Pass
    requires i <= |rows|
    decreases |rows| - i
  {
    if i == |rows| then Pass([], [])
    else
      var row := rows[i];
      if BackingOff(row, clock(i)) then
        var rest := Drain(rows, i + 1, clock, server, db);
        Pass(rest.sent, [row] + rest.kept)
      else if !db(row.id) then Pass([row.id], rows[i..])
      else if Final(server(row.id)) then
        var rest := Drain(rows, i + 1, clock, server, db);
        Pass([row.id] + rest.sent, rest.kept)
      else Pass([row.id], [row.(attempts := row.attempts + 1)] + rows[i + 1..])
  }

  /** peekAll returns the rows by ascending key. */
  ghost predicate Ascending(rows: seq<Row>) {
    forall i, j :: 0 <= i < j < |rows| ==> rows[i].id < rows[j].id
  }

  // ---------- waiting ----------

  /** How long a row waits after so many failed attempts: a second, doubled each time, half a minute at most. */
  function WaitTable(attempts: nat): int {
    match attempts
    case 0 => 0
    case 1 => 1_000
    case 2 => 2_000
    case 3 => 4_000
    case 4 => 8_000
    case 5 => 16_000
    case _ => 30_000
  }

  lemma {:induction false} Pow2Grows(n: nat, m: nat)
    requires n <= m
    ensures Pow2(n) <= Pow2(m)
    decreases m - n
  {
    if n < m { Pow2Grows(n, m - 1); }
  }

  /** A row is passed over exactly while it is younger than its wait, counted from its creation. */
  lemma WaitsIff(row: Row, now: int)
    ensures BackingOff(row, now) <==> row.attempts > 0 && now - row.createdAt < WaitTable(row.attempts)
  {
    assert Pow2(2) == 4;
    assert Pow2(3) == 8;
    assert Pow2(4) == 16;
    assert Pow2(5) == 32;
    if row.attempts >= 6 { Pow2Grows(5, row.attempts - 1); }
  }

  // ---------- nothing is lost ----------

  lemma {:induction false} SentAreRows(
    rows: seq<Row>, i: nat, clock: nat -> int, server: nat -> Outcome, db: nat -> bool, id: nat)
    requires i <= |rows| && id in Drain(rows, i, clock, server, db).sent
    ensures exists k :: i <= k < |rows| && rows[k].id == id && !BackingOff(rows[k], clock(k))
    decreases |rows| - i
  {
    hide BackingOff, Final;
    if i < |rows| && !(id == rows[i].id && !BackingOff(rows[i], clock(i))) {
      SentAreRows(rows, i + 1, clock, server, db, id);
    }
  }

  /**
    A row that was not sent, or whose change the queue did not take, is kept as it is; one that met
    a final answer is gone; one that met another answer is kept with one more attempt.
   */
  ghost predicate Accounted(p: Pass, row: Row, server: nat -> Outcome, db: nat -> bool) {
    var o := server(row.id);
    if row.id !in p.sent || !db(row.id) then IsKept(p, row)
    else if o.Status? && (200 <= o.code <= 299 || 400 <= o.code <= 499) then IsGone(p, row)
    else IsKept(p, row.(attempts := row.attempts + 1))
  }

  ghost predicate IsGone(p: Pass, row: Row) {
    forall r :: r in p.kept ==> r.id != row.id
  }

  ghost predicate IsKept(p: Pass, row: Row) {
    row in p.kept && forall r :: r in p.kept && r.id == row.id ==> r == row
  }

  /** Another row at the head of the pass changes nothing for this one. */
  lemma OtherRowFirst(p: Pass, row: Row, server: nat -> Outcome, db: nat -> bool, sent: seq<nat>, kept: seq<Row>)
    requires Accounted(p, row, server, db) && row.id !in sent && forall r :: r in kept ==> r.id != row.id
    ensures Accounted(Pass(sent + p.sent, kept + p.kept), row, server, db)
  {
  }

  /**
    No queued mutation disappears without a final answer of the server to it: a row is gone if and
    only if it was sent, met one and could be deleted, and otherwise it is kept, with one more
    attempt exactly if it met another answer and the queue took that.
   */
  lemma {:induction false} NothingIsLost(
    rows: seq<Row>, i: nat, clock: nat -> int, server: nat -> Outcome, db: nat -> bool, k: nat)
    requires i <= k < |rows| && Ascending(rows)
    ensures Accounted(Drain(rows, i, clock, server, db), rows[k], server, db)
    decreases |rows| - i
  {
    hide BackingOff, Final, Accounted;
    var first := rows[i];
    if k == i {
      HeadAccounted(rows, i, clock, server, db);
    } else if BackingOff(first, clock(i)) || (db(first.id) && Final(server(first.id))) {
      var rest := Drain(rows, i + 1, clock, server, db);
      var (sent, kept) := if BackingOff(first, clock(i)) then ([], [first]) else ([first.id], []);
      assert [] + rest.sent == rest.sent && [] + rest.kept == rest.kept;
      NothingIsLost(rows, i + 1, clock, server, db, k);
      OtherRowFirst(rest, rows[k], server, db, sent, kept);
    } else {
      LaterAccounted(rows, i, clock, server, db, k);
    }
  }

  /** The first row of a pass. */
  lemma HeadAccounted(rows: seq<Row>, i: nat, clock: nat -> int, server: nat -> Outcome, db: nat -> bool)
    requires i < |rows| && Ascending(rows)
    ensures Accounted(Drain(rows, i, clock, server, db), rows[i], server, db)
  {
    hide BackingOff, IsKept, IsGone;
    var row, p := rows[i], Drain(rows, i, clock, server, db);
    if BackingOff(row, clock(i)) || (db(row.id) && Final(server(row.id))) {
      HeadPasses(rows, i, clock, server, db);
    } else {
      HeadStops(rows, i, clock, server, db);
    }
  }

  lemma HeadPasses(rows: seq<Row>, i: nat, clock: nat -> int, server: nat -> Outcome, db: nat -> bool)
    requires i < |rows| && Ascending(rows)
    requires BackingOff(rows[i], clock(i)) || (db(rows[i].id) && Final(server(rows[i].id)))
    ensures var row, p := rows[i], Drain(rows, i, clock, server, db);
            if BackingOff(row, clock(i)) then row.id !in p.sent && IsKept(p, row)
            else row.id in p.sent && IsGone(p, row)
  {
    hide BackingOff, Final;
    NotAmongLater(rows, i, clock, server, db);
  }

  lemma HeadStops(rows: seq<Row>, i: nat, clock: nat -> int, server: nat -> Outcome, db: nat -> bool)
    requires i < |rows| && Ascending(rows)
    requires !BackingOff(rows[i], clock(i)) && !(db(rows[i].id) && Final(server(rows[i].id)))
    ensures var row, p := rows[i], Drain(rows, i, clock, server, db);
            row.id in p.sent && IsKept(p, if db(row.id) then row.(attempts := row.attempts + 1) else row)
  {
    hide BackingOff, Final;
    var row := rows[i];
    assert rows[i..] == [row] + rows[i + 1..];
    forall r | r in rows[i + 1..] ensures r.id != row.id {
      var k :| 0 <= k < |rows[i + 1..]| && rows[i + 1..][k] == r;
      assert rows[i + 1 + k] == r;
    }
  }

  /** A row after the one at which the pass stops. */
  lemma LaterAccounted(rows: seq<Row>, i: nat, clock: nat -> int, server: nat -> Outcome, db: nat -> bool, k: nat)
    requires i < k < |rows| && Ascending(rows)
    requires !BackingOff(rows[i], clock(i)) && !(db(rows[i].id) && Final(server(rows[i].id)))
    ensures Accounted(Drain(rows, i, clock, server, db), rows[k], server, db)
  {
    hide BackingOff, Final, Drain;
    var p, row := Drain(rows, i, clock, server, db), rows[k];
    StopShape(rows, i, clock, server, db);
    assert row.id != rows[i].id && p.kept[1..][k - i - 1] == p.kept[k - i] == row;
    forall r | r in p.kept && r.id == row.id ensures r == row {
      assert p.kept == [p.kept[0]] + p.kept[1..];
      SameRow(rows, i, k, r);
    }
  }

  /** What a pass that stops at its first row leaves. */
  lemma StopShape(rows: seq<Row>, i: nat, clock: nat -> int, server: nat -> Outcome, db: nat -> bool)
    requires i < |rows| && !BackingOff(rows[i], clock(i)) && !(db(rows[i].id) && Final(server(rows[i].id)))
    ensures var p := Drain(rows, i, clock, server, db);
            && p.sent == [rows[i].id] && |p.kept| == |rows| - i && p.kept[1..] == rows[i + 1..]
            && p.kept[0] == if db(rows[i].id) then rows[i].(attempts := rows[i].attempts + 1) else rows[i]
  {
    hide BackingOff, Final;
    assert rows[i..][1..] == rows[i + 1..];
  }

  lemma SameRow(rows: seq<Row>, i: nat, k: nat, r: Row)
    requires i < k < |rows| && Ascending(rows) && r.id == rows[k].id && (r.id == rows[i].id || r in rows[i + 1..])
    ensures r == rows[k]
  {
    if r in rows[i + 1..] {
      var m :| 0 <= m < |rows[i + 1..]| && rows[i + 1..][m] == r;
      assert rows[i + 1 + m] == r;
    }
  }

  /**
    Where a pass stops: at the first row sent whose answer is not final, or whose change the queue
    does not take. It is the last row sent; it is kept, with one more attempt if the queue took
    that; and every later row is kept as it was.
   */
  lemma {:induction false} StopsAt(
    rows: seq<Row>, i: nat, clock: nat -> int, server: nat -> Outcome, db: nat -> bool, k: nat)
    requires i <= k < |rows| && Ascending(rows) && rows[k].id in Drain(rows, i, clock, server, db).sent
    requires var o := server(rows[k].id);
             !db(rows[k].id) || o.NetworkError? || !(200 <= o.code <= 299 || 400 <= o.code <= 499)
    ensures EndsWith(Drain(rows, i, clock, server, db), rows, k, db)
    decreases |rows| - i
  {
    hide BackingOff, EndsWith;
    var first := rows[i];
    if BackingOff(first, clock(i)) || (db(first.id) && Final(server(first.id))) {
      NotTheFirst(rows, i, clock, server, db, k);
      StopsAt(rows, i + 1, clock, server, db, k);
      EndOfPass(rows, i, clock, server, db, k);
    } else {
      StopsHere(rows, i, clock, server, db, k);
    }
  }

  /** The pass sent row k last and kept it, with one more attempt if the queue took that, and all after it. */
  ghost predicate EndsWith(p: Pass, rows: seq<Row>, k: nat, db: nat -> bool)
    requires k < |rows|
  {
    var row, left := rows[k], |rows| - k;
    && p.sent != [] && p.sent[|p.sent| - 1] == row.id && |p.kept| >= left
    && p.kept[|p.kept| - left..] ==
       (if db(row.id) then [row.(attempts := row.attempts + 1)] else [row]) + rows[k + 1..]
  }

  lemma StopsHere(rows: seq<Row>, i: nat, clock: nat -> int, server: nat -> Outcome, db: nat -> bool, k: nat)
    requires i <= k < |rows| && Ascending(rows) && rows[k].id in Drain(rows, i, clock, server, db).sent
    requires !BackingOff(rows[i], clock(i)) && !(db(rows[i].id) && Final(server(rows[i].id)))
    ensures k == i && EndsWith(Drain(rows, i, clock, server, db), rows, k, db)
  {
    hide BackingOff, Final;
    assert Drain(rows, i, clock, server, db).sent == [rows[i].id];
    SameId(rows, i, k);
    StopKeeps(rows, i, clock, server, db);
  }

  lemma SameId(rows: seq<Row>, i: nat, k: nat)
    requires i <= k < |rows| && Ascending(rows) && rows[k].id == rows[i].id
    ensures k == i
  {
  }

  lemma StopKeeps(rows: seq<Row>, i: nat, clock: nat -> int, server: nat -> Outcome, db: nat -> bool)
    requires i < |rows| && !BackingOff(rows[i], clock(i)) && !(db(rows[i].id) && Final(server(rows[i].id)))
    ensures EndsWith(Drain(rows, i, clock, server, db), rows, i, db)
  {
    hide BackingOff, Final, Drain;
    var p := Drain(rows, i, clock, server, db);
    StopShape(rows, i, clock, server, db);
    assert p.kept[0..] == p.kept == [p.kept[0]] + p.kept[1..];
  }

  lemma NotTheFirst(rows: seq<Row>, i: nat, clock: nat -> int, server: nat -> Outcome, db: nat -> bool, k: nat)
    requires i <= k < |rows| && Ascending(rows) && rows[k].id in Drain(rows, i, clock, server, db).sent
    requires BackingOff(rows[i], clock(i)) || (db(rows[i].id) && Final(server(rows[i].id)))
    requires !db(rows[k].id) || !Final(server(rows[k].id))
    ensures i < k && rows[k].id in Drain(rows, i + 1, clock, server, db).sent
  {
    hide BackingOff, Final;
    NotAmongLater(rows, i, clock, server, db);
  }

  lemma EndOfPass(rows: seq<Row>, i: nat, clock: nat -> int, server: nat -> Outcome, db: nat -> bool, k: nat)
    requires i < k < |rows| && EndsWith(Drain(rows, i + 1, clock, server, db), rows, k, db)
    requires BackingOff(rows[i], clock(i)) || (db(rows[i].id) && Final(server(rows[i].id)))
    ensures EndsWith(Drain(rows, i, clock, server, db), rows, k, db)
  {
    hide BackingOff, Final;
    var rest := Drain(rows, i + 1, clock, server, db);
    TailOf(rows[i], rest.kept, |rows| - k);
  }

  lemma TailOf<T>(x: T, xs: seq<T>, n: nat)
    requires n <= |xs|
    ensures ([x] + xs)[|xs| + 1 - n..] == xs[|xs| - n..]
  {
  }

  /** A row whose request meets no final answer is still in the queue after the pass, sent or not. */
  lemma UnansweredIsKept(rows: seq<Row>, clock: nat -> int, server: nat -> Outcome, db: nat -> bool, k: nat)
    requires k < |rows| && Ascending(rows)
    requires var o := server(rows[k].id); o.NetworkError? || !(200 <= o.code <= 299 || 400 <= o.code <= 499)
    ensures var p, row := Drain(rows, 0, clock, server, db), rows[k];
            row in p.kept || row.(attempts := row.attempts + 1) in p.kept
  {
    hide Drain;
    NothingIsLost(rows, 0, clock, server, db, k);
  }

  lemma NotAmongLater(rows: seq<Row>, i: nat, clock: nat -> int, server: nat -> Outcome, db: nat -> bool)
    requires i < |rows| && Ascending(rows)
    ensures var rest := Drain(rows, i + 1, clock, server, db);
            rows[i].id !in rest.sent && forall r :: r in rest.kept ==> r.id != rows[i].id
  {
    hide BackingOff, Final;
    KeptAreRows(rows, i + 1, clock, server, db);
    if rows[i].id in Drain(rows, i + 1, clock, server, db).sent {
      SentAreRows(rows, i + 1, clock, server, db, rows[i].id);
    }
  }

  lemma {:induction false} KeptAreRows(
    rows: seq<Row>, i: nat, clock: nat -> int, server: nat -> Outcome, db: nat -> bool)
    requires i <= |rows|
    ensures forall r :: r in Drain(rows, i, clock, server, db).kept ==>
              exists k :: i <= k < |rows| && rows[k].id == r.id
    decreases |rows| - i
  {
    if i < |rows| {
      KeptAreRows(rows, i + 1, clock, server, db);
    }
  }

  // ---------- first in, first out? ----------

  /** What was sent are the first rows of the queue, each once, in their order. */
  ghost predicate InOrder(rows: seq<Row>, sent: seq<nat>) {
    |sent| <= |rows| && forall k :: 0 <= k < |sent| ==> sent[k] == rows[k].id
  }

  /** Rows that back off stand only behind rows that do not. */
  ghost predicate WaitersLast(rows: seq<Row>, clock: nat -> int) {
    forall i, j :: 0 <= i < j < |rows| && BackingOff(rows[i], clock(i)) ==> BackingOff(rows[j], clock(j))
  }

  lemma {:induction false} SentIsPrefix(
    rows: seq<Row>, i: nat, clock: nat -> int, server: nat -> Outcome, db: nat -> bool)
    requires i <= |rows| && WaitersLast(rows, clock)
    ensures InOrder(rows[i..], Drain(rows, i, clock, server, db).sent)
    decreases |rows| - i
  {
    if i < |rows| {
      var sent := Drain(rows, i, clock, server, db).sent;
      if BackingOff(rows[i], clock(i)) {
        if sent != [] { SentAreRows(rows, i, clock, server, db, sent[0]); }
      } else {
        SentIsPrefix(rows, i + 1, clock, server, db);
      }
    }
  }

  lemma {:induction false} AllAcceptedSendsEligible(rows: seq<Row>, i: nat, clock: nat -> int, k: nat)
    requires i <= k < |rows| && !BackingOff(rows[k], clock(k))
    ensures rows[k].id in Drain(rows, i, clock, _ => Status(200), _ => true).sent
    decreases k - i
  {
    if i < k { AllAcceptedSendsEligible(rows, i + 1, clock, k); }
  }

  /** A row sent out of its turn: when everything is accepted, one that waits is overtaken by one that does not. */
  lemma Overtaken(rows: seq<Row>, clock: nat -> int, i: nat, j: nat)
    requires Ascending(rows) && i < j < |rows| && BackingOff(rows[i], clock(i)) && !BackingOff(rows[j], clock(j))
    ensures !InOrder(rows, Drain(rows, 0, clock, _ => Status(200), _ => true).sent)
  {
    var sent := Drain(rows, 0, clock, _ => Status(200), _ => true).sent;
    AllAcceptedSendsEligible(rows, 0, clock, j);
    var k :| 0 <= k < |sent| && sent[k] == rows[j].id;
    if InOrder(rows, sent) {
      assert k == j && sent[i] == rows[i].id && rows[i].id in sent;
      SentAreRows(rows, 0, clock, _ => Status(200), _ => true, rows[i].id);
      assert false;
    }
  }

  /**
    The pass keeps the queue's order against every behaviour of server and storage if and only
    if no row in its backoff window precedes a row outside its own.
   */
  lemma DrainIsFifoIff(rows: seq<Row>, clock: nat -> int)
    requires Ascending(rows)
    ensures (forall server: nat -> Outcome, db: nat -> bool :: InOrder(rows, Drain(rows, 0, clock, server, db).sent))
            <==> WaitersLast(rows, clock)
  {
    if WaitersLast(rows, clock) {
      forall server: nat -> Outcome, db: nat -> bool ensures InOrder(rows, Drain(rows, 0, clock, server, db).sent) {
        SentIsPrefix(rows, 0, clock, server, db);
        assert rows[0..] == rows;
      }
    } else {
      var i, j :| 0 <= i < j < |rows| && BackingOff(rows[i], clock(i)) && !BackingOff(rows[j], clock(j));
      Overtaken(rows, clock, i, j);
    }
  }

  /** An edit queued at 0 ms fails once; at 800 ms the edit queued after it is sent and the first is not. */
  lemma LaterEditOvertakes()
    ensures var rows := [Row(1, 0, 1), Row(2, 500, 0)];
            Drain(rows, 0, _ => 800, _ => Status(200), _ => true) == Pass([2], [Row(1, 0, 1)])
  {
    var rows := [Row(1, 0, 1), Row(2, 500, 0)];
    assert Backoff(1) == 1_000;
    assert Drain(rows, 2, _ => 800, _ => Status(200), _ => true) == Pass([], []);
    assert Drain(rows, 1, _ => 800, _ => Status(200), _ => true) == Pass([2], []);
  }

  /** `replay`: the loop over the rows, stopping at the first transient failure of the server or of IndexedDB. */
  method Replay(rows: seq<Row>, clock: nat -> int, server: nat -> Outcome, db: nat -> bool)
    returns (sent: seq<nat>, kept: seq<Row>)
    ensures Pass(sent, kept) == Drain(rows, 0, clock, server, db)
  {
    hide BackingOff, Final;
    sent, kept := [], [];
    Unchanged(sent, kept);
    var i := 0;
    while i < |rows|
      invariant i <= |rows|
      invariant Drain(rows, 0, clock, server, db) == After(sent, kept, Drain(rows, i, clock, server, db))
    {
      var row := rows[i];
      if BackingOff(row, clock(i)) {
        Regroup(kept, [row], Drain(rows, i + 1, clock, server, db).kept);
        kept := kept + [row];
      } else if Final(server(row.id)) {
        // dequeue
        if !db(row.id) {
          return sent + [row.id], kept + rows[i..];
        }
        Regroup(sent, [row.id], Drain(rows, i + 1, clock, server, db).sent);
        sent := sent + [row.id];
      } else {
        // incrementAttempt
        var left := if db(row.id) then [row.(attempts := row.attempts + 1)] + rows[i + 1..] else rows[i..];
        return sent + [row.id], kept + left;
      }
      i := i + 1;
    }
    Unchanged(sent, kept);
  }

  /** A pass that has sent and kept something before. */
  function After(sent: seq<nat>, kept: seq<Row>, rest: Pass): Pass {
    Pass(sent + rest.sent, kept + rest.kept)
  }

  lemma Regroup<T>(a: seq<T>, b: seq<T>, c: seq<T>)
    ensures a + (b + c) == (a + b) + c
  {
  }

  lemma Unchanged(sent: seq<nat>, kept: seq<Row>)
    ensures After(sent, kept, Pass([], [])) == Pass(sent, kept)
    ensures forall p: Pass :: After([], [], p) == p
  {
    assert sent + [] == sent && kept + [] == kept;
    forall p: Pass ensures After([], [], p) == p { assert [] + p.sent == p.sent && [] + p.kept == p.kept; }
  }
}
