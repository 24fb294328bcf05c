/** Re-encryption of every ciphertext column under a new master key. Authenticated
    encryption is symbolic: a ciphertext opens under exactly the key and the
    associated data it was sealed with. */
module KeyRotation {
  import opened Basics

  type Key = int

  /** A column value: empty text, or a sealed text with its random nonce. */
  datatype Cell = Empty | Sealed(key: Key, aad: string, plain: string, nonce: int)

  function Open(key: Key, aad: string, c: Cell): Option<string> {
    if c.Sealed? && c.key == key && c.aad == aad then Some(c.plain) else None
  }

  /** A row: its primary key, the associated data of each ciphertext column (a
      function of key columns that rotation never writes), and the columns. */
  datatype Row = Row(id: string, aads: seq<string>, cells: seq<Cell>)

  ghost predicate WellFormed(r: Row) {
    |r.aads| == |r.cells|
  }

  /** Column `i` of `after` says under the new key what it said under the old one. */
  ghost predicate Carried(before: Row, after: Row, i: nat, prior: Key, next: Key)
    requires WellFormed(before) && WellFormed(after) && i < |before.cells| == |after.cells|
  {
    if before.cells[i].Empty? then after.cells[i].Empty?
    else
      && Open(prior, before.aads[i], before.cells[i]).Some?
      && Open(next, after.aads[i], after.cells[i]) == Open(prior, before.aads[i], before.cells[i])
  }

  /** The first `n` columns are carried over, the others and the keys untouched. */
  ghost predicate CarriedUpTo(before: Row, after: Row, n: nat, prior: Key, next: Key) {
    && WellFormed(before) && WellFormed(after)
    && after.id == before.id && after.aads == before.aads && n <= |before.cells| == |after.cells|
    && (forall i :: 0 <= i < n ==> Carried(before, after, i, prior, next))
    && (forall i :: n <= i < |before.cells| ==> after.cells[i] == before.cells[i])
  }

  ghost predicate Rotated(before: Row, after: Row, prior: Key, next: Key) {
    CarriedUpTo(before, after, |before.cells|, prior, next)
  }

  ghost predicate Openable(r: Row, prior: Key) {
    WellFormed(r) && forall i :: 0 <= i < |r.cells| && r.cells[i].Sealed? ==> Open(prior, r.aads[i], r.cells[i]).Some?
  }

  // ---- a table whose rows are addressed by physical location ----

  /** A location and the row version found there when the cursor was declared. */
  datatype Item = Item(ctid: nat, row: Row)

  /** Where each row of the cursor snapshot lives now, and which of them are done. */
  ghost predicate Tracking(snapshot: seq<Item>, at: seq<nat>, rows: map<nat, Row>, free: nat, done: nat, prior: Key,
                           next: Key) {
    && |at| == |snapshot| && done <= |at|
    && (forall j :: 0 <= j < |at| ==> at[j] in rows && at[j] < free)
    && (forall c :: c in rows ==> exists j :: 0 <= j < |at| && at[j] == c)
    && (forall i, j :: 0 <= i < j < |at| ==> at[i] != at[j])
    && (forall j :: 0 <= j < done ==> Rotated(snapshot[j].row, rows[at[j]], prior, next))
    && (forall j :: done <= j < |at| ==> at[j] == snapshot[j].ctid && rows[at[j]] == snapshot[j].row)
  }

  /** The cursor's snapshot: every row of the table once, in some order. */
  ghost predicate Snapshot(snapshot: seq<Item>, rows: map<nat, Row>) {
    && (forall j :: 0 <= j < |snapshot| ==> snapshot[j].ctid in rows && rows[snapshot[j].ctid] == snapshot[j].row)
    && (forall c :: c in rows ==> exists j :: 0 <= j < |snapshot| && snapshot[j].ctid == c)
    && (forall i, j :: 0 <= i < j < |snapshot| ==> snapshot[i].ctid != snapshot[j].ctid)
  }

  class HeapTable {
    var rows: map<nat, Row>
    /** Every location from here on is unused; dead versions are never reused. */
    var free: nat
    /** Columns written so far: primary key and column number. */
    ghost var writes: seq<(string, nat)>

    constructor (rows: map<nat, Row>, free: nat)
      ensures this.rows == rows && this.free == free && writes == []
    {
      this.rows, this.free, writes := rows, free, [];
    }

    /** UPDATE ... WHERE ctid: the new version gets a new location, and a stale
        location finds nothing. */
    method Update(ctid: nat, column: nat, c: Cell) returns (found: bool, moved: nat)
      modifies this
      ensures found == (ctid in old(rows) && column < |old(rows)[ctid].cells|)
      ensures if found then
          && moved == old(free) && free == old(free) + 1
          && rows == (old(rows) - {ctid})[moved := Put(old(rows)[ctid], column, c)]
          && writes == old(writes) + [(old(rows)[ctid].id, column)]
        else rows == old(rows) && free == old(free) && writes == old(writes)
    {
      if ctid !in rows || column >= |rows[ctid].cells| { return false, 0; }
      var r := rows[ctid];
      moved, free := free, free + 1;
      rows := (rows - {ctid})[moved := Put(r, column, c)];
      writes := writes + [(r.id, column)];
      return true, moved;
    }
  }

  function Put(r: Row, column: nat, c: Cell): Row
    requires column < |r.cells|
  {
    r.(cells := r.cells[column := c])
  }

  /** Re-sealing the next column extends the part that is carried over; an empty
      column is carried over as it is. */
  lemma CarryStep(before: Row, mid: Row, i: nat, prior: Key, next: Key, nonce: int)
    requires CarriedUpTo(before, mid, i, prior, next) && i < |before.cells|
    requires before.cells[i].Sealed? ==> Open(prior, before.aads[i], before.cells[i]).Some?
    ensures before.cells[i].Empty? ==> CarriedUpTo(before, mid, i + 1, prior, next)
    ensures before.cells[i].Sealed? ==>
      CarriedUpTo(before, Put(mid, i, Sealed(next, before.aads[i], before.cells[i].plain, nonce)), i + 1, prior, next)
  {
    if before.cells[i].Sealed? {
      var c := Sealed(next, before.aads[i], before.cells[i].plain, nonce);
      var after := Put(mid, i, c);
      forall k | 0 <= k < i + 1 ensures Carried(before, after, k, prior, next) {
        assert k < i ==> Carried(before, mid, k, prior, next);
      }
    } else {
      forall k | 0 <= k < i + 1 ensures Carried(before, mid, k, prior, next) {
        assert k < i ==> Carried(before, mid, k, prior, next);
      }
    }
  }

  /** Replacing the row at `here`, itself the replacement of the row at `home`. */
  lemma Moves(before: map<nat, Row>, home: nat, was: map<nat, Row>, here: nat, moved: nat, now: map<nat, Row>)
    requires here in was && was == (before - {home})[here := was[here]]
    requires here == home || here !in before
    requires moved !in was && moved in now && now == (was - {here})[moved := now[moved]]
    ensures now == (before - {home})[moved := now[moved]]
  {
    var goal := (before - {home})[moved := now[moved]];
    assert now.Keys == goal.Keys;
    forall c | c in now ensures now[c] == goal[c] {}
  }

  /** The non-empty columns among the first `n` of a row, in order. */
  ghost function Written(r: Row, n: nat): seq<(string, nat)>
    requires n <= |r.cells|
  {
    if n == 0 then [] else Written(r, n - 1) + if r.cells[n - 1].Sealed? then [(r.id, n - 1)] else []
  }

  /** The non-empty columns of the first `n` snapshot rows, in order. */
  ghost function AllWritten(snapshot: seq<Item>, n: nat): seq<(string, nat)>
    requires n <= |snapshot|
  {
    if n == 0 then [] else AllWritten(snapshot, n - 1) + Written(snapshot[n - 1].row, |snapshot[n - 1].row.cells|)
  }

  /** Where a row may have gone: still at home, or at a location unused before. */
  ghost predicate Moved(ctid: nat, home: nat, from: nat, free: nat) {
    ctid < free && from <= free && (ctid == home || from <= ctid)
  }

  /** The inner loop over one fetched row. Each update moves the row, so the address
      used for the next column is the one the update returned. */
  method RotateRow(t: HeapTable, item: Item, prior: Key, next: Key, nonces: (string, int) -> int)
    returns (ok: bool, ctid: nat)
    requires item.ctid in t.rows && t.rows[item.ctid] == item.row && WellFormed(item.row)
    requires forall c :: c in t.rows ==> c < t.free
    modifies t
    ensures ok <==> Openable(item.row, prior)
    ensures ok ==>
      && ctid in t.rows && Moved(ctid, item.ctid, old(t.free), t.free)
      && Rotated(item.row, t.rows[ctid], prior, next)
      && t.rows == (old(t.rows) - {item.ctid})[ctid := t.rows[ctid]]
      && t.writes == old(t.writes) + Written(item.row, |item.row.cells|)
  {
    ok, ctid := true, item.ctid;
    var r := item.row;
    for i := 0 to |r.cells|
      invariant ctid in t.rows && Moved(ctid, item.ctid, old(t.free), t.free)
      invariant CarriedUpTo(r, t.rows[ctid], i, prior, next)
      invariant t.rows == (old(t.rows) - {item.ctid})[ctid := t.rows[ctid]]
      invariant t.writes == old(t.writes) + Written(r, i)
      invariant forall j :: 0 <= j < i && r.cells[j].Sealed? ==> Open(prior, r.aads[j], r.cells[j]).Some?
    {
      hide CarriedUpTo;
      assert WellFormed(t.rows[ctid]) && |t.rows[ctid].cells| == |r.cells| && t.rows[ctid].id == r.id by {
        Shape(r, t.rows[ctid], i, prior, next);
      }
      if r.cells[i].Sealed? {
        var plain := Open(prior, r.aads[i], r.cells[i]);
        if plain.None? { return false, ctid; }
        CarryStep(r, t.rows[ctid], i, prior, next, nonces(r.id, i));
        ghost var was, here := t.rows, ctid;
        var found, moved := t.Update(ctid, i, Sealed(next, r.aads[i], plain.value, nonces(r.id, i)));
        ctid := moved;
        assert t.rows == (old(t.rows) - {item.ctid})[ctid := t.rows[ctid]] by {
          Moves(old(t.rows), item.ctid, was, here, ctid, t.rows);
        }
      } else {
        CarryStep(r, t.rows[ctid], i, prior, next, 0);
      }
    }
  }

  lemma Shape(before: Row, after: Row, n: nat, prior: Key, next: Key)
    requires CarriedUpTo(before, after, n, prior, next)
    ensures WellFormed(after) && |after.cells| == |before.cells| && after.id == before.id
  {}

  // ---- a whole table: nested loops over batches of the cursor ----

  const BATCH := 200

  lemma TrackStep(snapshot: seq<Item>, at: seq<nat>, rows: map<nat, Row>, free: nat, j: nat, ctid: nat,
                  after: map<nat, Row>, later: nat, prior: Key, next: Key)
    requires Tracking(snapshot, at, rows, free, j, prior, next) && j < |at|
    requires ctid in after && Moved(ctid, at[j], free, later) && Rotated(snapshot[j].row, after[ctid], prior, next)
    requires after == (rows - {at[j]})[ctid := after[ctid]]
    ensures Tracking(snapshot, at[j := ctid], after, later, j + 1, prior, next)
  {
    hide Rotated;
    var where: seq<nat> := at[j := ctid];
    forall i, k | 0 <= i < k < |where| ensures where[i] != where[k] {
      assert at[i] != at[k];
    }
    forall i | 0 <= i < |where| ensures where[i] in after && where[i] < later {
      assert i != j ==> at[i] in rows && at[i] != at[j];
    }
    forall c | c in after ensures exists i :: 0 <= i < |where| && where[i] == c {
      if c == ctid {
        assert where[j] == c;
      } else {
        var i :| 0 <= i < |at| && at[i] == c;
        assert where[i] == c;
      }
    }
    forall i | 0 <= i < j + 1 ensures Rotated(snapshot[i].row, after[where[i]], prior, next) {
      assert i < j ==> at[i] != at[j] && at[i] in rows && Rotated(snapshot[i].row, rows[at[i]], prior, next);
    }
    forall i | j + 1 <= i < |where| ensures where[i] == snapshot[i].ctid && after[where[i]] == snapshot[i].row {
      assert at[i] == snapshot[i].ctid && at[j] != at[i];
    }
  }

  ghost predicate ValidRows(rows: map<nat, Row>) {
    && (forall c :: c in rows ==> WellFormed(rows[c]))
    && (forall c, d :: c in rows && d in rows && rows[c].id == rows[d].id ==> c == d)
  }

  ghost predicate AllOpenable(rows: map<nat, Row>, prior: Key) {
    forall c :: c in rows ==> Openable(rows[c], prior)
  }

  /** Every row of `before` is in `after`, rotated, and `after` has no other row. */
  ghost predicate TableRotated(before: map<nat, Row>, after: map<nat, Row>, prior: Key, next: Key) {
    && ValidRows(after)
    && (forall c :: c in before ==> exists d :: d in after && Rotated(before[c], after[d], prior, next))
    && (forall d :: d in after ==> exists c :: c in before && Rotated(before[c], after[d], prior, next))
  }

  lemma RotatedShape(before: Row, after: Row, prior: Key, next: Key)
    requires Rotated(before, after, prior, next)
    ensures WellFormed(after) && after.id == before.id
  {}

  lemma TrackStart(snapshot: seq<Item>, at: seq<nat>, rows: map<nat, Row>, free: nat, prior: Key, next: Key)
    requires Snapshot(snapshot, rows) && |at| == |snapshot| && forall c :: c in rows ==> c < free
    requires forall j :: 0 <= j < |at| ==> at[j] == snapshot[j].ctid
    ensures Tracking(snapshot, at, rows, free, 0, prior, next) && AllWritten(snapshot, 0) == []
  {
    forall c | c in rows ensures exists j :: 0 <= j < |at| && at[j] == c {
      var j :| 0 <= j < |snapshot| && snapshot[j].ctid == c;
      assert at[j] == c;
    }
  }

  lemma TrackedIds(snapshot: seq<Item>, at: seq<nat>, after: map<nat, Row>, free: nat, prior: Key, next: Key)
    requires Tracking(snapshot, at, after, free, |snapshot|, prior, next)
    ensures forall j :: 0 <= j < |at| ==> WellFormed(after[at[j]]) && after[at[j]].id == snapshot[j].row.id
  {
    hide Rotated, WellFormed;
    forall j | 0 <= j < |at| ensures WellFormed(after[at[j]]) && after[at[j]].id == snapshot[j].row.id {
      RotatedShape(snapshot[j].row, after[at[j]], prior, next);
    }
  }

  lemma SnapshotIdsDiffer(snapshot: seq<Item>, rows: map<nat, Row>)
    requires ValidRows(rows) && Snapshot(snapshot, rows)
    ensures forall i, j :: 0 <= i < |snapshot| && 0 <= j < |snapshot| && snapshot[i].row.id == snapshot[j].row.id ==>
      i == j
  {
    hide WellFormed;
    forall i, j | 0 <= i < |snapshot| && 0 <= j < |snapshot| && snapshot[i].row.id == snapshot[j].row.id
      ensures i == j
    {
      assert rows[snapshot[i].ctid].id == rows[snapshot[j].ctid].id;
    }
  }

  lemma TrackedIdsDiffer(snapshot: seq<Item>, at: seq<nat>, before: map<nat, Row>, after: map<nat, Row>, free: nat,
                         prior: Key, next: Key)
    requires ValidRows(before) && Snapshot(snapshot, before)
    requires Tracking(snapshot, at, after, free, |snapshot|, prior, next)
    ensures ValidRows(after)
  {
    TrackedIds(snapshot, at, after, free, prior, next);
    SnapshotIdsDiffer(snapshot, before);
    hide Rotated, WellFormed, Snapshot;
    forall c, d | c in after && d in after && after[c].id == after[d].id ensures c == d {
      var i :| 0 <= i < |at| && at[i] == c;
      var j :| 0 <= j < |at| && at[j] == d;
    }
    forall c | c in after ensures WellFormed(after[c]) {
      var i :| 0 <= i < |at| && at[i] == c;
    }
  }

  lemma RowIsRotated(snapshot: seq<Item>, at: seq<nat>, before: map<nat, Row>, after: map<nat, Row>, free: nat,
                     j: nat, prior: Key, next: Key)
    requires Snapshot(snapshot, before) && j < |snapshot|
    requires Tracking(snapshot, at, after, free, |snapshot|, prior, next)
    ensures |at| == |snapshot| && snapshot[j].ctid in before && at[j] in after
    ensures Rotated(before[snapshot[j].ctid], after[at[j]], prior, next)
  {
    hide Rotated;
  }

  lemma TrackedTableIsRotated(snapshot: seq<Item>, at: seq<nat>, before: map<nat, Row>, after: map<nat, Row>,
                              free: nat, prior: Key, next: Key)
    requires ValidRows(before) && Snapshot(snapshot, before)
    requires Tracking(snapshot, at, after, free, |snapshot|, prior, next)
    ensures TableRotated(before, after, prior, next)
  {
    TrackedIdsDiffer(snapshot, at, before, after, free, prior, next);
    forall c | c in before ensures exists d :: d in after && Rotated(before[c], after[d], prior, next) {
      hide Rotated, ValidRows, Tracking;
      var j :| 0 <= j < |snapshot| && snapshot[j].ctid == c;
      RowIsRotated(snapshot, at, before, after, free, j, prior, next);
    }
    forall d | d in after ensures exists c :: c in before && Rotated(before[c], after[d], prior, next) {
      hide Rotated, ValidRows, Snapshot;
      var j :| 0 <= j < |at| && at[j] == d;
      RowIsRotated(snapshot, at, before, after, free, j, prior, next);
    }
    hide Rotated, ValidRows, Snapshot, Tracking;
  }

  method Fetch(snapshot: seq<Item>, from: nat) returns (batch: seq<Item>)
    requires from <= |snapshot|
    ensures batch <= snapshot[from..] && |batch| <= BATCH
    ensures batch == [] ==> from == |snapshot|
  {
    var upto := if from + BATCH <= |snapshot| then from + BATCH else |snapshot|;
    batch := snapshot[from..upto];
  }

  /** All rows of one table, in the order the cursor yields them. `free` is the first
      location never used. */
  method RotateTable(rows: map<nat, Row>, free: nat, snapshot: seq<Item>, prior: Key, next: Key,
                     nonces: (string, int) -> int)
    returns (ok: bool, after: map<nat, Row>, later: nat, ghost writes: seq<(string, nat)>)
    requires ValidRows(rows) && Snapshot(snapshot, rows)
    requires forall c :: c in rows ==> c < free
    ensures ok <==> AllOpenable(rows, prior)
    ensures ok ==> TableRotated(rows, after, prior, next) && forall c :: c in after ==> c < later
    ensures ok ==> writes == AllWritten(snapshot, |snapshot|)
  {
    hide Tracking, Snapshot, Openable, AllOpenable, ValidRows, Rotated, TableRotated, AllWritten, Written;
    var t := new HeapTable(rows, free);
    ghost var at: seq<nat> := seq(|snapshot|, j requires 0 <= j < |snapshot| => snapshot[j].ctid);
    TrackStart(snapshot, at, rows, free, prior, next);
    var k := 0;
    var batch := Fetch(snapshot, k);
    while batch != []
      invariant k <= |snapshot| && batch <= snapshot[k..] && (batch == [] ==> k == |snapshot|)
      invariant fresh(t) && Tracking(snapshot, at, t.rows, t.free, k, prior, next)
      invariant t.writes == AllWritten(snapshot, k)
      invariant forall j :: 0 <= j < k ==> Openable(snapshot[j].row, prior)
      decreases |snapshot| - k
    {
      for i := 0 to |batch|
        invariant k + |batch| <= |snapshot|
        invariant fresh(t) && Tracking(snapshot, at, t.rows, t.free, k + i, prior, next)
        invariant t.writes == AllWritten(snapshot, k + i)
        invariant forall j :: 0 <= j < k + i ==> Openable(snapshot[j].row, prior)
      {
        var item := batch[i];
        assert item == snapshot[k + i] by { assert batch[i] == snapshot[k..][i]; }
        TrackedHome(snapshot, at, t.rows, t.free, k + i, prior, next);
        SnapshotRow(snapshot, rows, k + i);
        ghost var was, bound, home := t.rows, t.free, k + i;
        var fine, ctid := RotateRow(t, item, prior, next, nonces);
        if !fine {
          OneUnopenable(snapshot, rows, home, prior);
          return false, rows, free, [];
        }
        TrackStep(snapshot, at, was, bound, home, ctid, t.rows, t.free, prior, next);
        at := at[home := ctid];
        WriteStep(snapshot, home);
      }
      k := k + |batch|;
      batch := Fetch(snapshot, k);
    }
    TrackedTableIsRotated(snapshot, at, rows, t.rows, t.free, prior, next);
    OpenableAll(snapshot, rows, prior);
    TrackedBound(snapshot, at, t.rows, t.free, k, prior, next);
    return true, t.rows, t.free, t.writes;
  }

  lemma WriteStep(snapshot: seq<Item>, n: nat)
    requires n < |snapshot|
    ensures AllWritten(snapshot, n + 1) == AllWritten(snapshot, n) + Written(snapshot[n].row, |snapshot[n].row.cells|)
  {}

  lemma TrackedHome(snapshot: seq<Item>, at: seq<nat>, rows: map<nat, Row>, free: nat, j: nat, prior: Key, next: Key)
    requires Tracking(snapshot, at, rows, free, j, prior, next) && j < |snapshot|
    ensures |at| == |snapshot| && at[j] == snapshot[j].ctid && at[j] in rows && rows[at[j]] == snapshot[j].row
    ensures forall c :: c in rows ==> c < free
  {
    TrackedBound(snapshot, at, rows, free, j, prior, next);
  }

  lemma TrackedBound(snapshot: seq<Item>, at: seq<nat>, rows: map<nat, Row>, free: nat, j: nat, prior: Key, next: Key)
    requires Tracking(snapshot, at, rows, free, j, prior, next)
    ensures forall c :: c in rows ==> c < free
  {
    forall c | c in rows ensures c < free {
      var i :| 0 <= i < |at| && at[i] == c;
    }
  }

  lemma SnapshotRow(snapshot: seq<Item>, rows: map<nat, Row>, j: nat)
    requires ValidRows(rows) && Snapshot(snapshot, rows) && j < |snapshot|
    ensures WellFormed(snapshot[j].row)
  {}

  lemma OneUnopenable(snapshot: seq<Item>, rows: map<nat, Row>, j: nat, prior: Key)
    requires ValidRows(rows) && Snapshot(snapshot, rows) && j < |snapshot| && !Openable(snapshot[j].row, prior)
    ensures !AllOpenable(rows, prior)
  {
    assert rows[snapshot[j].ctid] == snapshot[j].row;
  }

  lemma OpenableAll(snapshot: seq<Item>, rows: map<nat, Row>, prior: Key)
    requires ValidRows(rows) && Snapshot(snapshot, rows)
    requires forall j :: 0 <= j < |snapshot| ==> Openable(snapshot[j].row, prior)
    ensures AllOpenable(rows, prior)
  {
    forall c | c in rows ensures Openable(rows[c], prior) {
      var j :| 0 <= j < |snapshot| && snapshot[j].ctid == c;
    }
  }

  // ---- each non-empty column is written exactly once ----

  ghost predicate Distinct(w: seq<(string, nat)>) {
    forall a, b :: 0 <= a < b < |w| ==> w[a] != w[b]
  }

  ghost predicate Filled(r: Row, p: (string, nat)) {
    p.0 == r.id && p.1 < |r.cells| && r.cells[p.1].Sealed?
  }

  lemma {:induction false} WrittenExactly(r: Row, n: nat)
    requires n <= |r.cells|
    ensures Distinct(Written(r, n))
    ensures forall p: (string, nat) :: p in Written(r, n) <==> Filled(r, p) && p.1 < n
  {
    if n > 0 {
      WrittenExactly(r, n - 1);
      assert (r.id, n - 1) !in Written(r, n - 1);
    }
  }

  /** Whatever the batches and however rows move, the writes of a table's rotation are
      its non-empty columns, each once. */
  lemma {:induction false} EachColumnOnce(snapshot: seq<Item>, n: nat)
    requires n <= |snapshot|
    requires forall i, j :: 0 <= i < j < |snapshot| ==> snapshot[i].row.id != snapshot[j].row.id
    ensures Distinct(AllWritten(snapshot, n))
    ensures forall p: (string, nat) :: p in AllWritten(snapshot, n) <==>
      exists j :: 0 <= j < n && Filled(snapshot[j].row, p)
  {
    if n > 0 {
      EachColumnOnce(snapshot, n - 1);
      var last := snapshot[n - 1].row;
      WrittenExactly(last, |last.cells|);
      var done, more := AllWritten(snapshot, n - 1), Written(last, |last.cells|);
      assert AllWritten(snapshot, n) == done + more;
      forall p | p in more ensures p !in done && Filled(snapshot[n - 1].row, p) {}
    }
  }

  // ---- tables addressed by primary key, read in full before the updates ----

  /** The first column must hold a ciphertext; the second, if any, may be empty. */
  ghost predicate Readable(r: Row, prior: Key) {
    Openable(r, prior) && |r.cells| > 0 && r.cells[0].Sealed?
  }

  ghost predicate Listed(order: seq<string>, rows: map<string, Row>) {
    && (forall id :: id in rows <==> id in order)
    && (forall id :: id in rows ==> WellFormed(rows[id]) && 1 <= |rows[id].cells| <= 2)
  }

  ghost predicate KeyedReadable(rows: map<string, Row>, prior: Key) {
    forall id :: id in rows ==> Readable(rows[id], prior)
  }

  ghost predicate KeyedRotated(before: map<string, Row>, after: map<string, Row>, prior: Key, next: Key) {
    after.Keys == before.Keys && forall id :: id in before ==> Rotated(before[id], after[id], prior, next)
  }

  function Resealed(r: Row, next: Key, plains: seq<Option<string>>, nonces: (string, int) -> int): Row
    requires WellFormed(r) && |plains| == |r.cells|
  {
    r.(cells := seq(|r.cells|, i requires 0 <= i < |r.cells| =>
      if plains[i].Some? then Sealed(next, r.aads[i], plains[i].value, nonces(r.id, i)) else Empty))
  }

  lemma ResealedIsRotated(r: Row, prior: Key, next: Key, plains: seq<Option<string>>, nonces: (string, int) -> int)
    requires WellFormed(r) && |plains| == |r.cells| && Openable(r, prior)
    requires forall i :: 0 <= i < |plains| ==> plains[i] == Open(prior, r.aads[i], r.cells[i])
    ensures Rotated(r, Resealed(r, next, plains, nonces), prior, next)
  {
    var after := Resealed(r, next, plains, nonces);
    forall i | 0 <= i < |r.cells| ensures Carried(r, after, i, prior, next) {}
  }

  method RotateKeyed(rows: map<string, Row>, order: seq<string>, prior: Key, next: Key,
                     nonces: (string, int) -> int)
    returns (ok: bool, after: map<string, Row>)
    requires Listed(order, rows)
    ensures ok <==> KeyedReadable(rows, prior)
    ensures ok ==> KeyedRotated(rows, after, prior, next)
  {
    after := rows;
    for k := 0 to |order|
      invariant after.Keys == rows.Keys
      invariant forall j :: 0 <= j < k ==> order[j] in rows && Readable(rows[order[j]], prior)
      invariant forall j :: 0 <= j < k ==> Rotated(rows[order[j]], after[order[j]], prior, next)
    {
      hide Rotated;
      var id := order[k];
      var r := rows[id];
      var data := Open(prior, r.aads[0], r.cells[0]);
      if data.None? { return false, rows; }
      var plains := [data];
      if |r.cells| == 2 {
        var secret := Open(prior, r.aads[1], r.cells[1]);
        if r.cells[1].Sealed? && secret.None? { return false, rows; }
        plains := [data, secret];
      }
      ResealedIsRotated(r, prior, next, plains, nonces);
      after := after[id := Resealed(r, next, plains, nonces)];
    }
    return true, after;
  }

  lemma RotatedIsValid(before: map<nat, Row>, after: map<nat, Row>, prior: Key, next: Key)
    requires TableRotated(before, after, prior, next)
    ensures ValidRows(after)
  {}

  // ---- the whole vault in one transaction ----

  const CHECK_AAD := "vault-key-check"
  const CHECK_TEXT := "remoter-vault-v1"

  class Vault {
    /** Hosts, AI settings and AI tasks. */
    var keyed: seq<map<string, Row>>
    /** Bindings, install jobs, rollups, traffic, events and alert rules. */
    var monitor: seq<map<nat, Row>>
    /** Per monitoring table, the first location never used. */
    var free: seq<nat>
    var check: Cell

    ghost predicate Readable(prior: Key)
      reads this
    {
      && (forall i :: 0 <= i < |keyed| ==> KeyedReadable(keyed[i], prior))
      && (forall i :: 0 <= i < |monitor| ==> AllOpenable(monitor[i], prior))
    }

    ghost predicate Valid()
      reads this
    {
      && |free| == |monitor|
      && (forall i :: 0 <= i < |monitor| ==> ValidRows(monitor[i]) && forall c :: c in monitor[i] ==> c < free[i])
    }

    /** The transaction works on its own copy of the tables; only the commit at the
        end replaces them. `orders` and `snapshots` are the row orders the database
        happens to return. */
    method RotateKey(orders: seq<seq<string>>, snapshots: seq<seq<Item>>, prior: Key, next: Key,
                     nonces: (string, int) -> int) returns (ok: bool)
      requires Valid() && |orders| == |keyed| && |snapshots| == |monitor|
      requires forall i :: 0 <= i < |keyed| ==> Listed(orders[i], keyed[i])
      requires forall i :: 0 <= i < |monitor| ==> Snapshot(snapshots[i], monitor[i])
      modifies this
      ensures Valid()
      ensures ok <==> old(Readable(prior))
      ensures !ok ==> keyed == old(keyed) && monitor == old(monitor) && free == old(free) && check == old(check)
      ensures ok ==>
        && |keyed| == |old(keyed)| && |monitor| == |old(monitor)|
        && (forall i :: 0 <= i < |keyed| ==> KeyedRotated(old(keyed)[i], keyed[i], prior, next))
        && (forall i :: 0 <= i < |monitor| ==> TableRotated(old(monitor)[i], monitor[i], prior, next))
        && Open(next, CHECK_AAD, check) == Some(CHECK_TEXT)
    {
      hide KeyedRotated, TableRotated, KeyedReadable, AllOpenable, ValidRows, Listed, Snapshot;
      var tables: seq<map<string, Row>> := [];
      for i := 0 to |keyed|
        invariant |tables| == i && unchanged(this)
        invariant forall j :: 0 <= j < i ==>
          KeyedReadable(keyed[j], prior) && KeyedRotated(keyed[j], tables[j], prior, next)
      {
        var fine, after := RotateKeyed(keyed[i], orders[i], prior, next, nonces);
        if !fine { return false; }
        tables := tables + [after];
      }
      var heaps: seq<map<nat, Row>>, ends: seq<nat> := [], [];
      for i := 0 to |monitor|
        invariant |heaps| == |ends| == i && unchanged(this)
        invariant forall j :: 0 <= j < i ==> ValidRows(heaps[j]) && forall c :: c in heaps[j] ==> c < ends[j]
        invariant forall j :: 0 <= j < i ==>
          AllOpenable(monitor[j], prior) && TableRotated(monitor[j], heaps[j], prior, next)
      {
        var fine, after, end, _ := RotateTable(monitor[i], free[i], snapshots[i], prior, next, nonces);
        if !fine { return false; }
        RotatedIsValid(monitor[i], after, prior, next);
        heaps, ends := heaps + [after], ends + [end];
      }
      keyed, monitor, free, check := tables, heaps, ends, Sealed(next, CHECK_AAD, CHECK_TEXT, nonces("", 0));
      return true;
    }
  }

  // ---- what a rotation means ----

  /** Rotating twice is a rotation from the first key to the last: no plaintext
      degrades along a chain of rotations. */
  lemma RotationsCompose(a: Row, b: Row, c: Row, first: Key, second: Key, third: Key)
    requires Rotated(a, b, first, second) && Rotated(b, c, second, third)
    ensures Rotated(a, c, first, third)
  {
    forall i | 0 <= i < |a.cells| ensures Carried(a, c, i, first, third) {
      assert Carried(a, b, i, first, second) && Carried(b, c, i, second, third);
    }
  }

  /** The retired key opens nothing any more, and the new one opens each column under its own
      associated data only, to the text it had. */
  lemma OldKeyOpensNothing(before: Row, after: Row, prior: Key, next: Key, i: nat)
    requires Rotated(before, after, prior, next) && prior != next && i < |after.cells|
    ensures forall aad :: Open(prior, aad, after.cells[i]) == None
    ensures after.cells[i].Empty? <==> before.cells[i].Empty?
    ensures before.cells[i].Sealed? ==> Open(next, before.aads[i], after.cells[i]) == Some(before.cells[i].plain)
    ensures forall aad :: aad != before.aads[i] ==> Open(next, aad, after.cells[i]) == None
  {
    assert Carried(before, after, i, prior, next);
  }

  /** An interrupted rotation cannot be finished by another run: a row that mixes
      both keys opens fully under neither, which is why rotation is one transaction. */
  lemma MixedRowsAreStuck(before: Row, mid: Row, n: nat, prior: Key, next: Key)
    requires CarriedUpTo(before, mid, n, prior, next) && prior != next
    requires exists i :: 0 <= i < n && before.cells[i].Sealed?
    requires Openable(before, prior)
    ensures !Openable(mid, prior)
    ensures Openable(mid, next) <==> forall i :: n <= i < |before.cells| ==> before.cells[i].Empty?
  {
    var i :| 0 <= i < n && before.cells[i].Sealed?;
    assert Carried(before, mid, i, prior, next);
    assert mid.cells[i].Sealed? && Open(prior, mid.aads[i], mid.cells[i]).None?;
    if forall k :: n <= k < |before.cells| ==> before.cells[k].Empty? {
      forall k | 0 <= k < |mid.cells| && mid.cells[k].Sealed? ensures Open(next, mid.aads[k], mid.cells[k]).Some? {
        assert k < n ==> Carried(before, mid, k, prior, next);
      }
    } else {
      var k :| n <= k < |before.cells| && before.cells[k].Sealed?;
      assert mid.cells[k] == before.cells[k] && Open(prior, before.aads[k], before.cells[k]).Some?;
    }
  }
}
