/**
 The sweep as a replay of everything that happens during it, its own effective calls and other
 processes' changes in one order; and what that says about the objects of rows that stay.
 */
module CleanupReplay {
  import opened Common
  import opened AssetCleanup

  /** What happens during a sweep, in order: other processes' changes, and the sweep's own calls that take effect. */
  datatype Op = Other(change: Change) | ObjectDeleted(key: string) | RowDeleted(id: nat)

  function Others(cs: seq<Change>): seq<Op> {
    if cs == [] then [] else Others(cs[..|cs| - 1]) + [Other(cs[|cs| - 1])]
  }

  /** The changes before a delete call, and the call if it takes effect. */
  function OpsOfCall(before: seq<Change>, own: Op, call: Call): seq<Op> {
    Others(before) + if call.Failed? then [] else [own]
  }

  function OpsOfObjects(keys: seq<string>, calls: seq<ObjectCall>, n: nat): seq<Op>
    requires n <= |keys|
  {
    if n == 0 then []
    else if Stopped(calls, n - 1) then OpsOfObjects(keys, calls, n - 1)
    else
      var call := CallAt(calls, n - 1);
      OpsOfObjects(keys, calls, n - 1) + OpsOfCall(call.before, ObjectDeleted(keys[n - 1]), call.result)
  }

  function OpsOfTurn(row: Listed, turn: Turn): seq<Op> {
    OpsOfObjects(row.1.keys, turn.objects, |row.1.keys|)
    + if ObjectsDone(row, turn) then OpsOfCall(turn.before, RowDeleted(row.0), turn.row) else []
  }

  function Ops(list: seq<Listed>, turns: Turns): seq<Op> {
    if list == [] then []
    else
      var last := list[|list| - 1];
      Ops(list[..|list| - 1], turns) + OpsOfTurn(last, TurnOf(turns, last.0))
  }

  function ApplyOp(t: Table, op: Op): Table {
    match op
    case Other(change) => ApplyOne(t, change)
    case ObjectDeleted(key) => t.(objects := t.objects - {key})
    case RowDeleted(id) => t.(rows := map i | i in t.rows && i != id :: t.rows[i])
  }

  function Replay(t: Table, ops: seq<Op>): Table {
    if ops == [] then t else ApplyOp(Replay(t, ops[..|ops| - 1]), ops[|ops| - 1])
  }

  lemma {:induction false} ReplayConcat(t: Table, a: seq<Op>, b: seq<Op>)
    ensures Replay(t, a + b) == Replay(Replay(t, a), b)
  {
    if b == [] {
      assert a + b == a;
    } else {
      ReplayConcat(t, a, b[..|b| - 1]);
      assert (a + b)[..|a + b| - 1] == a + b[..|b| - 1];
    }
  }

  lemma {:induction false} ReplayOthers(t: Table, cs: seq<Change>)
    ensures Replay(t, Others(cs)) == Apply(t, cs)
  {
    if cs != [] { ReplayOthers(t, cs[..|cs| - 1]); }
  }

  lemma CallReplays(t: Table, before: seq<Change>, own: Op, call: Call)
    ensures Replay(t, OpsOfCall(before, own, call)) == if call.Failed? then Apply(t, before) else ApplyOp(Apply(t, before), own)
  {
    ReplayOthers(t, before);
    if call.Failed? {
      assert OpsOfCall(before, own, call) == Others(before);
    } else {
      ReplayConcat(t, Others(before), [own]);
      assert [own][..0] == [];
    }
  }

  lemma {:induction false} ObjectsReplay(t: Table, keys: seq<string>, calls: seq<ObjectCall>, n: nat)
    requires n <= |keys|
    ensures Replay(t, OpsOfObjects(keys, calls, n)) == DeleteObjects(t, keys, calls, n).0
  {
    if n > 0 {
      ObjectsReplay(t, keys, calls, n - 1);
      DeleteObjectsEffect(t, keys, calls, n - 1);
      var (t1, ok) := DeleteObjects(t, keys, calls, n - 1);
      assert ok <==> !Stopped(calls, n - 1);
      if ok {
        var call := CallAt(calls, n - 1);
        var own := ObjectDeleted(keys[n - 1]);
        ReplayConcat(t, OpsOfObjects(keys, calls, n - 1), OpsOfCall(call.before, own, call.result));
        CallReplays(t1, call.before, own, call.result);
      }
    }
  }

  lemma TurnReplays(t: Table, row: Listed, turn: Turn)
    ensures Replay(t, OpsOfTurn(row, turn)) == CleanOne(t, row, turn)
  {
    var keys := row.1.keys;
    var objects := OpsOfObjects(keys, turn.objects, |keys|);
    ObjectsReplay(t, keys, turn.objects, |keys|);
    DeleteObjectsEffect(t, keys, turn.objects, |keys|);
    if ObjectsDone(row, turn) {
      ReplayConcat(t, objects, OpsOfCall(turn.before, RowDeleted(row.0), turn.row));
      CallReplays(Replay(t, objects), turn.before, RowDeleted(row.0), turn.row);
    } else {
      assert OpsOfTurn(row, turn) == objects;
    }
  }

  /** The sweep is the replay of what happened during it. */
  lemma {:induction false} SweepIsReplay(t: Table, list: seq<Listed>, turns: Turns)
    ensures Sweep(t, list, turns) == Replay(t, Ops(list, turns))
  {
    if list != [] {
      var n := |list| - 1;
      SweepIsReplay(t, list[..n], turns);
      TurnReplays(Sweep(t, list[..n], turns), list[n], TurnOf(turns, list[n].0));
      ReplayConcat(t, Ops(list[..n], turns), OpsOfTurn(list[n], TurnOf(turns, list[n].0)));
    }
  }

  /** The other processes' part of it. */
  function ChangesIn(ops: seq<Op>): seq<Change> {
    if ops == [] then []
    else
      ChangesIn(ops[..|ops| - 1])
      + match ops[|ops| - 1] case Other(change) => [change] case ObjectDeleted(_) => [] case RowDeleted(_) => []
  }

  lemma {:induction false} ChangesInConcat(a: seq<Op>, b: seq<Op>)
    ensures ChangesIn(a + b) == ChangesIn(a) + ChangesIn(b)
  {
    if b == [] {
      assert a + b == a;
    } else {
      ChangesInConcat(a, b[..|b| - 1]);
      assert (a + b)[..|a + b| - 1] == a + b[..|b| - 1];
    }
  }

  lemma {:induction false} ChangesInOthers(cs: seq<Change>)
    ensures ChangesIn(Others(cs)) == cs
  {
    if cs != [] {
      ChangesInOthers(cs[..|cs| - 1]);
      assert Others(cs)[..|Others(cs)| - 1] == Others(cs[..|cs| - 1]);
    }
  }

  lemma ChangesInCall(before: seq<Change>, own: Op, call: Call)
    requires !own.Other?
    ensures ChangesIn(OpsOfCall(before, own, call)) == before
  {
    ChangesInOthers(before);
    ChangesInConcat(Others(before), if call.Failed? then [] else [own]);
    assert [own][..0] == [];
  }

  lemma {:induction false} ChangesInObjects(keys: seq<string>, calls: seq<ObjectCall>, n: nat)
    requires n <= |keys|
    ensures ChangesIn(OpsOfObjects(keys, calls, n)) == ChangesOfObjects(keys, calls, n)
  {
    if n > 0 {
      ChangesInObjects(keys, calls, n - 1);
      if !Stopped(calls, n - 1) {
        var call := CallAt(calls, n - 1);
        var own := ObjectDeleted(keys[n - 1]);
        var front, last := OpsOfObjects(keys, calls, n - 1), OpsOfCall(call.before, own, call.result);
        assert OpsOfObjects(keys, calls, n) == front + last;
        ChangesInConcat(front, last);
        ChangesInCall(call.before, own, call.result);
      }
    }
  }

  lemma ChangesInTurn(row: Listed, turn: Turn)
    ensures ChangesIn(OpsOfTurn(row, turn)) == ChangesOfTurn(row, turn)
  {
    var keys := row.1.keys;
    var rest := if ObjectsDone(row, turn) then OpsOfCall(turn.before, RowDeleted(row.0), turn.row) else [];
    ChangesInObjects(keys, turn.objects, |keys|);
    ChangesInConcat(OpsOfObjects(keys, turn.objects, |keys|), rest);
    ChangesInCall(turn.before, RowDeleted(row.0), turn.row);
  }

  lemma {:induction false} ChangesInSweep(list: seq<Listed>, turns: Turns)
    ensures ChangesIn(Ops(list, turns)) == ChangesOf(list, turns)
  {
    if list != [] {
      var n := |list| - 1;
      var turn := TurnOf(turns, list[n].0);
      ChangesInSweep(list[..n], turns);
      ChangesInTurn(list[n], turn);
      ChangesInConcat(Ops(list[..n], turns), OpsOfTurn(list[n], turn));
    }
  }

  /** The last thing done to the object `key`: nothing, a put (true), or the sweep's delete (false). */
  function LastOnObject(ops: seq<Op>, key: string): Option<bool> {
    if ops == [] then None
    else
      var last := ops[|ops| - 1];
      if last == Other(PutObject(key)) then Some(true)
      else if last == ObjectDeleted(key) then Some(false)
      else LastOnObject(ops[..|ops| - 1], key)
  }

  lemma {:induction false} LastOnObjectDecides(t: Table, ops: seq<Op>, key: string)
    ensures key in Replay(t, ops).objects <==>
              match LastOnObject(ops, key) case None => key in t.objects case Some(put) => put
    ensures LastOnObject(ops, key).None? ==> (key in Apply(t, ChangesIn(ops)).objects <==> key in t.objects)
  {
    if ops != [] {
      var init, last := ops[..|ops| - 1], ops[|ops| - 1];
      LastOnObjectDecides(t, init, key);
      if last.Other? {
        ApplyConcat(t, ChangesIn(init), [last.change]);
        assert [last.change][..0] == [];
      } else {
        assert ChangesIn(init) + [] == ChangesIn(init);
      }
    }
  }

  /** An unexpired row with its object `key` in the store. */
  predicate Served(t: Table, now: int, id: nat, key: string) {
    id in t.rows && t.rows[id].expiresAt > now && key in t.rows[id].keys && key in t.objects
  }

  /**
   A row that stays can still lose its object. For any failures and any interleaved changes: a row
   the sweep does not remove, which the other processes leave unexpired with its object in the store,
   ends without that object exactly if the last thing done to it was a delete call of the sweep.
   */
  lemma SurvivorLosesObjectIff(t: Table, now: int, list: seq<Listed>, turns: Turns, id: nat, key: string)
    requires forall k :: 0 <= k < |list| && list[k].0 == id ==> !Removes(list[k], turns)
    requires Served(Apply(t, ChangesOf(list, turns)), now, id, key)
    ensures Served(Sweep(t, list, turns), now, id, key) <==> LastOnObject(Ops(list, turns), key) != Some(false)
    ensures id in Sweep(t, list, turns).rows && Sweep(t, list, turns).rows[id].expiresAt > now
  {
    UnremovedRowsUntouched(t, list, turns, id);
    SweepIsReplay(t, list, turns);
    ChangesInSweep(list, turns);
    LastOnObjectDecides(t, Ops(list, turns), key);
  }

  /** A concrete one: the asset is renewed before its object is deleted, and the delete of the row fails. */
  lemma SurvivorCanLoseObject()
    ensures var stale := Entry(["assets/v/video"], 5);
            var renewed := Entry(["assets/v/video"], 100);
            var t := Table(map[7 := stale], {"assets/v/video"});
            var turn := Turn([ObjectCall([PutObject("assets/v/video"), PutRow(7, renewed)], Done)], [], Failed);
            && Snapshot(t.rows, 10, [(7, stale)])
            && Sweep(t, [(7, stale)], map[7 := turn]) == Table(map[7 := renewed], {})
  {
    var stale := Entry(["assets/v/video"], 5);
    var renewed := Entry(["assets/v/video"], 100);
    var t := Table(map[7 := stale], {"assets/v/video"});
    var cs := [PutObject("assets/v/video"), PutRow(7, renewed)];
    var turn := Turn([ObjectCall(cs, Done)], [], Failed);
    var list: seq<Listed> := [(7, stale)];
    assert list[0].0 == 7;
    assert cs[..1] == [PutObject("assets/v/video")] && cs[..1][..0] == [];
    assert Apply(t, cs[..1]) == t;
    assert Apply(t, cs) == Table(map[7 := renewed], {"assets/v/video"});
    assert DeleteObjects(t, stale.keys, turn.objects, 0) == (t, true);
    assert DeleteObject(t, "assets/v/video", turn.objects[0]) == Table(map[7 := renewed], {});
    assert DeleteObjects(t, stale.keys, turn.objects, 1) == (Table(map[7 := renewed], {}), true);
    assert list[..0] == [] && Sweep(t, list[..0], map[7 := turn]) == t;
    assert CleanOne(t, list[0], turn) == Table(map[7 := renewed], {});
  }
}
