/**
 AssetCleanupService as the code has it: two snapshots, two loops, each deleting objects
 and rows one by one under a `try` whose `catch` only logs.
 */
module AssetCleanupJobs {
  import opened Common
  import S = AssetCleanup

  class AssetCleanupService {
    var assets: map<nat, S.Entry>
    var jobs: map<nat, S.Entry>
    var objects: set<string>
    var failures: nat

    /** `findMany({ where: { expiresAt: { lte: now } } })`: the store picks the order. */
    static method FindExpired(rows: map<nat, S.Entry>, now: int) returns (list: seq<S.Listed>)
      ensures S.Snapshot(rows, now, list)
    {
      list := [];
      var ids := rows.Keys;
      while ids != {}
        invariant ids <= rows.Keys
        invariant forall k :: 0 <= k < |list| ==>
                    list[k].0 in rows && list[k].1 == rows[list[k].0] && list[k].1.expiresAt <= now && list[k].0 !in ids
        invariant forall id :: id in rows && id !in ids && rows[id].expiresAt <= now ==> S.Lists(list, id)
        invariant forall j, k :: 0 <= j < k < |list| ==> list[j].0 != list[k].0
        decreases |ids|
      {
        var id :| id in ids;
        ids := ids - {id};
        if rows[id].expiresAt <= now {
          ghost var before := list;
          list := list + [(id, rows[id])];
          assert list[|before|].0 == id;
          forall i | S.Lists(before, i) ensures S.Lists(list, i) {
            assert before == list[..|before|];
            S.ListsMore(list, |before|, i);
          }
        }
      }
    }

    /** The object deletions of one row; false if a call threw. */
    method DeleteObjects(rows: map<nat, S.Entry>, keys: seq<string>, calls: seq<S.ObjectCall>)
      returns (rows': map<nat, S.Entry>, ok: bool)
      modifies this`objects
      ensures (S.Table(rows', objects), ok) == S.DeleteObjects(S.Table(rows, old(objects)), keys, calls, |keys|)
      ensures ok <==> forall k :: 0 <= k < |keys| ==> S.CallAt(calls, k).result.Done?
    {
      S.DeleteObjectsEffect(S.Table(rows, objects), keys, calls, |keys|);
      var t := S.Table(rows, objects);
      var n := 0;
      ok := true;
      while n < |keys| && ok
        invariant 0 <= n <= |keys|
        invariant ok ==> (t, true) == S.DeleteObjects(S.Table(rows, old(objects)), keys, calls, n)
        invariant !ok ==> (t, false) == S.DeleteObjects(S.Table(rows, old(objects)), keys, calls, |keys|)
      {
        t := S.DeleteObject(t, keys[n], S.CallAt(calls, n));
        ok := S.CallAt(calls, n).result.Done?;
        n := n + 1;
        if !ok {
          StaysFailed(S.Table(rows, old(objects)), keys, calls, n, |keys|);
        }
      }
      rows', objects := t.rows, t.objects;
    }

    static lemma {:induction false} StaysFailed(t: S.Table, keys: seq<string>, calls: seq<S.ObjectCall>, n: nat, m: nat)
      requires n <= m <= |keys| && !S.DeleteObjects(t, keys, calls, n).1
      ensures S.DeleteObjects(t, keys, calls, m) == S.DeleteObjects(t, keys, calls, n)
    {
      if n < m { StaysFailed(t, keys, calls, n, m - 1); }
    }

    /** One loop: sweeps a snapshot of one table. */
    method SweepRows(rows: map<nat, S.Entry>, list: seq<S.Listed>, turns: S.Turns) returns (rows': map<nat, S.Entry>)
      modifies this`objects, this`failures
      ensures S.Table(rows', objects) == S.Sweep(S.Table(rows, old(objects)), list, turns)
      ensures failures == old(failures) + S.FailedTurns(list, turns)
    {
      rows' := rows;
      var i := 0;
      while i < |list|
        invariant 0 <= i <= |list|
        invariant S.Table(rows', objects) == S.Sweep(S.Table(rows, old(objects)), list[..i], turns)
        invariant failures == old(failures) + S.FailedTurns(list[..i], turns)
      {
        var turn := S.TurnOf(turns, list[i].0);
        var deleted;
        rows', deleted := DeleteObjects(rows', list[i].1.keys, turn.objects);
        if deleted {
          var t := S.DeleteRow(S.Apply(S.Table(rows', objects), turn.before), list[i].0, turn.row);
          rows', objects := t.rows, t.objects;
        }
        if !deleted || !turn.row.Done? {
          failures := failures + 1;
        }
        assert list[..i + 1][..i] == list[..i];
        i := i + 1;
      }
      assert list[..|list|] == list;
    }

    /** Sweeps both tables and reports how many rows were found expired, whatever became of them. */
    method CleanupExpiredAssets(now: int, later: int, assetTurns: S.Turns, jobTurns: S.Turns)
      returns (count: nat, ghost expiredAssets: seq<S.Listed>, ghost expiredJobs: seq<S.Listed>)
      modifies this
      ensures S.Snapshot(old(assets), now, expiredAssets) && S.Snapshot(old(jobs), later, expiredJobs)
      ensures count == |expiredAssets| + |expiredJobs|
      ensures failures == old(failures) + S.FailedTurns(expiredAssets, assetTurns) + S.FailedTurns(expiredJobs, jobTurns)
      ensures var afterAssets := S.Sweep(S.Table(old(assets), old(objects)), expiredAssets, assetTurns);
              && assets == afterAssets.rows
              && S.Table(jobs, objects) == S.Sweep(S.Table(old(jobs), afterAssets.objects), expiredJobs, jobTurns)
    {
      var list := FindExpired(assets, now);
      expiredAssets := list;
      assets := SweepRows(assets, list, assetTurns);
      var jobList := FindExpired(jobs, later);
      expiredJobs := jobList;
      jobs := SweepRows(jobs, jobList, jobTurns);
      count := |list| + |jobList|;
    }
  }
}
