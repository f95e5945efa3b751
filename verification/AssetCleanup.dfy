/**
 The hourly sweep over expired rows: for each row of a snapshot, delete its objects one
 by one, then the row; any failure is logged and the next row is tried. Other processes may
 change the table and the store before every call. One shape serves both tables: an
 extracted asset has one object key, a subtitle job one or two.
 */
module AssetCleanup {
  import opened Common

  datatype Entry = Entry(keys: seq<string>, expiresAt: int)
  datatype Table = Table(rows: map<nat, Entry>, objects: set<string>)

  /** What another process may do in between. A renewal is a put of the object and of the row. */
  datatype Change = PutObject(key: string) | PutRow(id: nat, entry: Entry) | DropRow(id: nat)

  datatype Call = Done | Failed | DoneThenThrew
  datatype ObjectCall = ObjectCall(before: seq<Change>, result: Call)
  datatype Turn = Turn(objects: seq<ObjectCall>, before: seq<Change>, row: Call)

  type Listed = (nat, Entry)

  function ApplyOne(t: Table, c: Change): Table {
    match c
    case PutObject(key) => t.(objects := t.objects + {key})
    case PutRow(id, entry) => t.(rows := t.rows[id := entry])
    case DropRow(id) => t.(rows := map i | i in t.rows && i != id :: t.rows[i])
  }

  function Apply(t: Table, cs: seq<Change>): Table {
    if cs == [] then t else ApplyOne(Apply(t, cs[..|cs| - 1]), cs[|cs| - 1])
  }

  /** The oracle for the k-th object; beyond its length calls succeed undisturbed. */
  function CallAt(calls: seq<ObjectCall>, k: nat): ObjectCall {
    if k < |calls| then calls[k] else ObjectCall([], Done)
  }

  function DeleteObject(t: Table, key: string, call: ObjectCall): Table {
    var t1 := Apply(t, call.before);
    if call.result.Failed? then t1 else t1.(objects := t1.objects - {key})
  }

  /** Deletes the first `n` keys in turn; stops at the first call that throws. */
  function DeleteObjects(t: Table, keys: seq<string>, calls: seq<ObjectCall>, n: nat): (Table, bool)
    requires n <= |keys|
  {
    if n == 0 then (t, true)
    else
      var (t1, ok) := DeleteObjects(t, keys, calls, n - 1);
      if !ok then (t1, false)
      else (DeleteObject(t1, keys[n - 1], CallAt(calls, n - 1)), CallAt(calls, n - 1).result.Done?)
  }

  function DeleteRow(t: Table, id: nat, call: Call): Table {
    if call.Failed? then t else t.(rows := map i | i in t.rows && i != id :: t.rows[i])
  }

  /** One pass of the loop body, under its `try`. */
  function CleanOne(t: Table, row: Listed, turn: Turn): Table {
    var (t1, ok) := DeleteObjects(t, row.1.keys, turn.objects, |row.1.keys|);
    if ok then DeleteRow(Apply(t1, turn.before), row.0, turn.row) else t1
  }

  type Turns = map<nat, Turn>

  function TurnOf(turns: Turns, id: nat): Turn {
    if id in turns then turns[id] else Turn([], [], Done)
  }

  function Sweep(t: Table, list: seq<Listed>, turns: Turns): Table {
    if list == [] then t
    else
      var last := list[|list| - 1];
      CleanOne(Sweep(t, list[..|list| - 1], turns), last, TurnOf(turns, last.0))
  }

  /** What `findMany({ expiresAt: { lte: now } })` may return: all expired rows, each once, in any order. */
  ghost predicate Snapshot(rows: map<nat, Entry>, now: int, list: seq<Listed>) {
    && (forall k :: 0 <= k < |list| ==> list[k].0 in rows && list[k].1 == rows[list[k].0] && list[k].1.expiresAt <= now)
    && (forall id :: id in rows && rows[id].expiresAt <= now ==> Lists(list, id))
    && (forall j, k :: 0 <= j < k < |list| ==> list[j].0 != list[k].0)
  }

  predicate Lists(list: seq<Listed>, id: nat) {
    exists k :: 0 <= k < |list| && list[k].0 == id
  }

  lemma ListsMore(list: seq<Listed>, n: nat, id: nat)
    requires n <= |list|
    ensures Lists(list[..n], id) ==> Lists(list, id)
  {
    if Lists(list[..n], id) {
      var k :| 0 <= k < n && list[..n][k].0 == id;
      assert list[k].0 == id;
    }
  }

  /** Every object call of the turn goes through. */
  predicate ObjectsDone(row: Listed, turn: Turn) {
    forall k :: 0 <= k < |row.1.keys| ==> CallAt(turn.objects, k).result.Done?
  }

  predicate Undisturbed(turn: Turn) {
    turn.before == [] && forall k :: 0 <= k < |turn.objects| ==> turn.objects[k].before == []
  }

  ghost predicate AllUndisturbed(turns: Turns) {
    forall id :: id in turns ==> Undisturbed(turns[id])
  }

  // ---- one row ----

  /** Deleting objects succeeds exactly when every call does, and never touches a row by itself. */
  lemma {:induction false} DeleteObjectsEffect(t: Table, keys: seq<string>, calls: seq<ObjectCall>, n: nat)
    requires n <= |keys|
    ensures var (t', ok) := DeleteObjects(t, keys, calls, n);
            ok <==> forall k :: 0 <= k < n ==> CallAt(calls, k).result.Done?
  {
    if n > 0 { DeleteObjectsEffect(t, keys, calls, n - 1); }
  }

  lemma {:induction false} DeleteObjectsUndisturbed(t: Table, keys: seq<string>, calls: seq<ObjectCall>, n: nat)
    requires n <= |keys| && forall k :: 0 <= k < |calls| ==> calls[k].before == []
    ensures var (t', ok) := DeleteObjects(t, keys, calls, n);
            && t'.rows == t.rows && t'.objects <= t.objects
            && (ok ==> forall k :: 0 <= k < n ==> keys[k] !in t'.objects)
            && (forall key :: key in t.objects && key !in keys ==> key in t'.objects)
  {
    if n > 0 { DeleteObjectsUndisturbed(t, keys, calls, n - 1); }
  }

  /** Undisturbed: the row goes exactly when all its objects went first and its own call took effect. */
  lemma CleanOneUndisturbed(t: Table, row: Listed, turn: Turn)
    requires Undisturbed(turn)
    ensures var t' := CleanOne(t, row, turn);
            && t'.objects <= t.objects
            && (forall key :: key in t.objects && key !in row.1.keys ==> key in t'.objects)
            && (forall id :: id != row.0 ==> (id in t'.rows <==> id in t.rows))
            && (row.0 in t'.rows <==> row.0 in t.rows && !(ObjectsDone(row, turn) && !turn.row.Failed?))
            && (forall id :: id in t'.rows ==> t'.rows[id] == t.rows[id])
            && (ObjectsDone(row, turn) ==> forall k :: 0 <= k < |row.1.keys| ==> row.1.keys[k] !in t'.objects)
  {
    DeleteObjectsEffect(t, row.1.keys, turn.objects, |row.1.keys|);
    DeleteObjectsUndisturbed(t, row.1.keys, turn.objects, |row.1.keys|);
  }

  // ---- the whole sweep, with any failures but no interleaved change ----

  /** The row's turn removes it. */
  predicate Removes(row: Listed, turns: Turns) {
    ObjectsDone(row, TurnOf(turns, row.0)) && !TurnOf(turns, row.0).row.Failed?
  }

  /** The rows whose turn ended in the `catch`, each of them logged once: an object call or the row's own call threw. */
  function FailedTurns(list: seq<Listed>, turns: Turns): nat {
    if list == [] then 0
    else
      var last := list[|list| - 1];
      var turn := TurnOf(turns, last.0);
      FailedTurns(list[..|list| - 1], turns) + if ObjectsDone(last, turn) && turn.row.Done? then 0 else 1
  }

  /** None is logged exactly if every call of every row went through. */
  lemma {:induction false} NothingLoggedIff(list: seq<Listed>, turns: Turns)
    ensures FailedTurns(list, turns) == 0 <==>
              forall k :: 0 <= k < |list| ==>
                ObjectsDone(list[k], TurnOf(turns, list[k].0)) && TurnOf(turns, list[k].0).row.Done?
  {
    if list != [] {
      var n := |list| - 1;
      NothingLoggedIff(list[..n], turns);
      assert forall k :: 0 <= k < n ==> list[..n][k] == list[k];
    }
  }

  lemma {:induction false} SweepUndisturbed(t: Table, list: seq<Listed>, turns: Turns)
    requires AllUndisturbed(turns)
    requires forall j, k :: 0 <= j < k < |list| ==> list[j].0 != list[k].0
    ensures var t' := Sweep(t, list, turns);
            && t'.objects <= t.objects
            && (forall id :: id in t'.rows ==> id in t.rows && t'.rows[id] == t.rows[id])
            && (forall id :: id in t.rows && !Lists(list, id) ==> id in t'.rows)
            && (forall k :: 0 <= k < |list| ==>
                  (list[k].0 in t'.rows <==> list[k].0 in t.rows && !Removes(list[k], turns)))
            && (forall k, i :: 0 <= k < |list| && Removes(list[k], turns) && 0 <= i < |list[k].1.keys| ==>
                  list[k].1.keys[i] !in t'.objects)
  {
    if list != [] {
      var n := |list| - 1;
      var init := list[..n];
      SweepUndisturbed(t, init, turns);
      CleanOneUndisturbed(Sweep(t, init, turns), list[n], TurnOf(turns, list[n].0));
      forall k | 0 <= k < n ensures init[k] == list[k] {}
      forall id: nat ensures Lists(init, id) ==> Lists(list, id) {
        ListsMore(list, n, id);
      }
      assert !Lists(init, list[n].0);
    }
  }

  /** No row disappears while an object of it is left. */
  lemma NoRowGoesBeforeItsObjects(t: Table, now: int, list: seq<Listed>, turns: Turns, id: nat)
    requires Snapshot(t.rows, now, list) && AllUndisturbed(turns)
    requires id in t.rows && id !in Sweep(t, list, turns).rows
    ensures t.rows[id].expiresAt <= now
    ensures forall key :: key in t.rows[id].keys ==> key !in Sweep(t, list, turns).objects
  {
    SweepUndisturbed(t, list, turns);
    assert Lists(list, id);
    var k :| 0 <= k < |list| && list[k].0 == id;
    assert Removes(list[k], turns);
    forall key | key in t.rows[id].keys ensures key !in Sweep(t, list, turns).objects {
      var i :| 0 <= i < |list[k].1.keys| && list[k].1.keys[i] == key;
    }
  }

  /** A row is gone after the sweep exactly when it was expired and its turn removed it; the rest is as it was. */
  lemma RemovedIff(t: Table, now: int, list: seq<Listed>, turns: Turns, id: nat)
    requires Snapshot(t.rows, now, list) && AllUndisturbed(turns) && id in t.rows
    ensures var t' := Sweep(t, list, turns);
            && (id !in t'.rows <==> t.rows[id].expiresAt <= now && Removes((id, t.rows[id]), turns))
            && (id in t'.rows ==> t'.rows[id] == t.rows[id])
  {
    SweepUndisturbed(t, list, turns);
    if Lists(list, id) {
      var k :| 0 <= k < |list| && list[k].0 == id;
      assert list[k] == (id, t.rows[id]);
    }
  }

  /** With no failures at all, nothing that was expired at the snapshot is left, row or object. */
  lemma CleanSweepLeavesNoneExpired(t: Table, now: int, list: seq<Listed>, turns: Turns)
    requires Snapshot(t.rows, now, list) && AllUndisturbed(turns)
    requires forall k :: 0 <= k < |list| ==> Removes(list[k], turns)
    ensures var t' := Sweep(t, list, turns);
            && (forall id :: id in t'.rows <==> id in t.rows && t.rows[id].expiresAt > now)
            && (forall id, key :: id in t.rows && t.rows[id].expiresAt <= now && key in t.rows[id].keys ==> key !in t'.objects)
  {
    SweepUndisturbed(t, list, turns);
    var t' := Sweep(t, list, turns);
    forall id | id in t.rows
      ensures id in t'.rows <==> t.rows[id].expiresAt > now
      ensures id !in t'.rows ==> forall key :: key in t.rows[id].keys ==> key !in t'.objects
    {
      if Lists(list, id) {
        var k :| 0 <= k < |list| && list[k].0 == id;
      }
      if id !in t'.rows {
        NoRowGoesBeforeItsObjects(t, now, list, turns, id);
      }
    }
  }

  /** Whatever failed is swept again: a later sweep lists every row the first one failed on. */
  lemma FailedRowsComeBack(t: Table, now: int, list: seq<Listed>, turns: Turns, later: int, next: seq<Listed>, k: nat)
    requires Snapshot(t.rows, now, list) && AllUndisturbed(turns) && k < |list| && !Removes(list[k], turns)
    requires now <= later && Snapshot(Sweep(t, list, turns).rows, later, next)
    ensures list[k] in next
  {
    SweepUndisturbed(t, list, turns);
    var id := list[k].0;
    assert Lists(next, id);
    var j :| 0 <= j < |next| && next[j].0 == id;
    assert next[j] == list[k];
  }

  // ---- interleaved changes ----

  /** One of the first `n` object calls throws. */
  predicate Stopped(calls: seq<ObjectCall>, n: nat) {
    exists k :: 0 <= k < n && !CallAt(calls, k).result.Done?
  }

  /** The other processes' part alone: every change that would have been made, in the same order. */
  function ChangesOfObjects(keys: seq<string>, calls: seq<ObjectCall>, n: nat): seq<Change>
    requires n <= |keys|
  {
    if n == 0 then []
    else if Stopped(calls, n - 1) then ChangesOfObjects(keys, calls, n - 1)
    else ChangesOfObjects(keys, calls, n - 1) + CallAt(calls, n - 1).before
  }

  function ChangesOfTurn(row: Listed, turn: Turn): seq<Change> {
    ChangesOfObjects(row.1.keys, turn.objects, |row.1.keys|)
    + if ObjectsDone(row, turn) then turn.before else []
  }

  function ChangesOf(list: seq<Listed>, turns: Turns): seq<Change> {
    if list == [] then []
    else
      var last := list[|list| - 1];
      ChangesOf(list[..|list| - 1], turns) + ChangesOfTurn(last, TurnOf(turns, last.0))
  }

  /** Two tables that hold the same about row `id`. */
  predicate Agree(a: Table, b: Table, id: nat) {
    (id in a.rows <==> id in b.rows) && (id in a.rows ==> a.rows[id] == b.rows[id])
  }

  lemma {:induction false} ApplyConcat(t: Table, a: seq<Change>, b: seq<Change>)
    ensures Apply(t, a + b) == Apply(Apply(t, a), b)
  {
    if b == [] {
      assert a + b == a;
    } else {
      var n := |b| - 1;
      ApplyConcat(t, a, b[..n]);
      assert (a + b)[..|a + b| - 1] == a + b[..n];
    }
  }

  lemma {:induction false} ApplyAgrees(a: Table, b: Table, cs: seq<Change>, id: nat)
    requires Agree(a, b, id)
    ensures Agree(Apply(a, cs), Apply(b, cs), id)
  {
    if cs != [] { ApplyAgrees(a, b, cs[..|cs| - 1], id); }
  }

  lemma {:induction false} ObjectsAgree(a: Table, b: Table, keys: seq<string>, calls: seq<ObjectCall>, n: nat, id: nat)
    requires n <= |keys| && Agree(a, b, id)
    ensures Agree(DeleteObjects(a, keys, calls, n).0, Apply(b, ChangesOfObjects(keys, calls, n)), id)
  {
    if n > 0 {
      ObjectsAgree(a, b, keys, calls, n - 1, id);
      DeleteObjectsEffect(a, keys, calls, n - 1);
      var done := DeleteObjects(a, keys, calls, n - 1);
      if done.1 {
        var cs := ChangesOfObjects(keys, calls, n - 1);
        ApplyConcat(b, cs, CallAt(calls, n - 1).before);
        ApplyAgrees(done.0, Apply(b, cs), CallAt(calls, n - 1).before, id);
      }
    }
  }

  /** The state a listed row's own delete call meets, after the earlier calls of its turn. */
  function AtRowCall(t: Table, row: Listed, turn: Turn): Table {
    Apply(DeleteObjects(t, row.1.keys, turn.objects, |row.1.keys|).0, turn.before)
  }

  /** Up to its own delete call, a turn changes no row by itself, not even the one it is about. */
  lemma OwnTurnAgrees(a: Table, b: Table, row: Listed, turn: Turn, id: nat)
    requires Agree(a, b, id)
    ensures ObjectsDone(row, turn) ==> Agree(AtRowCall(a, row, turn), Apply(b, ChangesOfTurn(row, turn)), id)
    ensures !ObjectsDone(row, turn) ==> Agree(CleanOne(a, row, turn), Apply(b, ChangesOfTurn(row, turn)), id)
  {
    var keys := row.1.keys;
    ObjectsAgree(a, b, keys, turn.objects, |keys|, id);
    DeleteObjectsEffect(a, keys, turn.objects, |keys|);
    var cs := ChangesOfObjects(keys, turn.objects, |keys|);
    var done := DeleteObjects(a, keys, turn.objects, |keys|).0;
    if ObjectsDone(row, turn) {
      ApplyConcat(b, cs, turn.before);
      ApplyAgrees(done, Apply(b, cs), turn.before, id);
    } else {
      assert cs + [] == cs;
    }
  }

  lemma TurnAgrees(a: Table, b: Table, row: Listed, turn: Turn, id: nat)
    requires Agree(a, b, id)
    requires id == row.0 ==> !ObjectsDone(row, turn) || turn.row.Failed?
    ensures Agree(CleanOne(a, row, turn), Apply(b, ChangesOfTurn(row, turn)), id)
  {
    OwnTurnAgrees(a, b, row, turn, id);
    DeleteObjectsEffect(a, row.1.keys, turn.objects, |row.1.keys|);
  }

  /**
   For any failures and any interleaved changes: a row that is not listed, or whose turn failed on
   an object or on its own delete call, ends as if the sweep had not run. So the sweep takes a row
   only after every object call of that row went through.
   */
  lemma {:induction false} UnremovedRowsUntouched(t: Table, list: seq<Listed>, turns: Turns, id: nat)
    requires forall k :: 0 <= k < |list| && list[k].0 == id ==> !Removes(list[k], turns)
    ensures Agree(Sweep(t, list, turns), Apply(t, ChangesOf(list, turns)), id)
  {
    if list != [] {
      var n := |list| - 1;
      var init := list[..n];
      UnremovedRowsUntouched(t, init, turns, id);
      var turn := TurnOf(turns, list[n].0);
      TurnAgrees(Sweep(t, init, turns), Apply(t, ChangesOf(init, turns)), list[n], turn, id);
      ApplyConcat(t, ChangesOf(init, turns), ChangesOfTurn(list[n], turn));
    }
  }

  /** Non-interference: on every row that was not expired at the snapshot, the sweep acts as if it had not run. */
  lemma UnlistedRowsUntouched(t: Table, list: seq<Listed>, turns: Turns, id: nat)
    requires !Lists(list, id)
    ensures Agree(Sweep(t, list, turns), Apply(t, ChangesOf(list, turns)), id)
  {
    UnremovedRowsUntouched(t, list, turns, id);
  }

  /** The last thing a list of changes does to row `id`: nothing, put this entry, or drop it. */
  function LastFor(cs: seq<Change>, id: nat): Option<Option<Entry>> {
    if cs == [] then None
    else
      match cs[|cs| - 1]
      case PutRow(i, entry) => if i == id then Some(Some(entry)) else LastFor(cs[..|cs| - 1], id)
      case DropRow(i) => if i == id then Some(None) else LastFor(cs[..|cs| - 1], id)
      case PutObject(_) => LastFor(cs[..|cs| - 1], id)
  }

  lemma {:induction false} LastForDecides(t: Table, cs: seq<Change>, id: nat)
    ensures var t' := Apply(t, cs);
            match LastFor(cs, id)
            case None => Agree(t', t, id)
            case Some(None) => id !in t'.rows
            case Some(Some(entry)) => id in t'.rows && t'.rows[id] == entry
  {
    if cs != [] { LastForDecides(t, cs[..|cs| - 1], id); }
  }

  /**
   The sweep removes a row that is no longer expired exactly when the last thing done to the row
   between the snapshot and its delete call, during earlier rows' turns or its own, was a renewal:
   it deletes by id and does not look again.
   */
  lemma LostRenewalIff(t: Table, now: int, list: seq<Listed>, turns: Turns, k: nat)
    requires Snapshot(t.rows, now, list) && k < |list|
    requires Removes(list[k], turns)
    ensures var row := list[k];
            var turn := TurnOf(turns, row.0);
            var reached := Sweep(t, list[..k], turns);
            var met := AtRowCall(reached, row, turn);
            var last := LastFor(ChangesOf(list[..k], turns) + ChangesOfTurn(row, turn), row.0);
            && row.0 !in CleanOne(reached, row, turn).rows
            && ((row.0 in met.rows && met.rows[row.0].expiresAt > now)
                <==> (last.Some? && last.value.Some? && last.value.value.expiresAt > now))
  {
    var row := list[k];
    var turn := TurnOf(turns, row.0);
    var earlier := ChangesOf(list[..k], turns);
    var reached := Sweep(t, list[..k], turns);
    assert !Lists(list[..k], row.0);
    UnlistedRowsUntouched(t, list[..k], turns, row.0);
    OwnTurnAgrees(reached, Apply(t, earlier), row, turn, row.0);
    DeleteObjectsEffect(reached, row.1.keys, turn.objects, |row.1.keys|);
    ApplyConcat(t, earlier, ChangesOfTurn(row, turn));
    LastForDecides(t, earlier + ChangesOfTurn(row, turn), row.0);
  }

  /** A concrete lost renewal: the worker stores the asset anew before the row is deleted. */
  lemma RenewalCanBeLost()
    ensures var stale := Entry(["assets/v/video"], 5);
            var renewed := Entry(["assets/v/video"], 100);
            var t := Table(map[7 := stale], {"assets/v/video"});
            var turn := Turn([ObjectCall([], Done)], [PutObject("assets/v/video"), PutRow(7, renewed)], Done);
            && Snapshot(t.rows, 10, [(7, stale)])
            && Sweep(t, [(7, stale)], map[7 := turn]) == Table(map[], {"assets/v/video"})
  {
    var stale := Entry(["assets/v/video"], 5);
    var renewed := Entry(["assets/v/video"], 100);
    var t := Table(map[7 := stale], {"assets/v/video"});
    var turn := Turn([ObjectCall([], Done)], [PutObject("assets/v/video"), PutRow(7, renewed)], Done);
    var list: seq<Listed> := [(7, stale)];
    assert list[0].0 == 7;
    var (t1, ok) := DeleteObjects(t, stale.keys, turn.objects, 1);
    assert DeleteObjects(t, stale.keys, turn.objects, 0) == (t, true);
    assert t1 == Table(map[7 := stale], {}) && ok;
    var cs := turn.before;
    assert cs[..1] == [PutObject("assets/v/video")] && cs[..1][..0] == [];
    assert Apply(t1, cs[..1]) == Table(map[7 := stale], {"assets/v/video"});
    assert Apply(t1, cs) == Table(map[7 := renewed], {"assets/v/video"});
    assert list[..0] == [] && Sweep(t, list[..0], map[7 := turn]) == t;
    assert CleanOne(t, list[0], turn) == Table(map[], {"assets/v/video"});
  }
}
