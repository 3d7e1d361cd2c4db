/** The poller's duplicate suppression: `select_new_commits` and the polling cycle of __init__.py. */
module Polling {
  import opened Domain

  /** What the poller did: a successful fetch with the clock reading its cutoff used, or a put
      with the stamp recorded for it. */
  datatype PollEvent = Fetched(ids: seq<int>, at: int) | Put(id: int, stamp: int)

  ghost predicate Distinct(ids: seq<int>) {
    forall i, j :: 0 <= i < j < |ids| ==> ids[i] != ids[j]
  }

  /** The tracked ids that survive a fetch: still fetched, and stamped at or after the cutoff. */
  predicate Survives(tracker: map<int, int>, ids: seq<int>, cutoff: int, id: int) {
    id in tracker && id in ids && tracker[id] >= cutoff
  }

  function Pruned(tracker: map<int, int>, ids: seq<int>, cutoff: int): map<int, int> {
    map id | id in tracker && Survives(tracker, ids, cutoff, id) :: tracker[id]
  }

  /** The fetched ids that are not tracked, in fetch order. */
  function Untracked(ids: seq<int>, tracker: map<int, int>): (untracked: seq<int>)
    ensures forall id :: id in untracked <==> id in ids && id !in tracker
  {
    if ids == [] then []
    else
      var rest := Untracked(ids[1..], tracker);
      if ids[0] in tracker then rest else [ids[0]] + rest
  }

  /** Selecting goes commit by commit, in order, ... */
  lemma {:induction false} UntrackedAppend(a: seq<int>, b: seq<int>, tracker: map<int, int>)
    ensures Untracked(a + b, tracker) == Untracked(a, tracker) + Untracked(b, tracker)
  {
    if a == [] {
      assert a + b == b;
    } else {
      assert (a + b)[1..] == a[1..] + b;
      UntrackedAppend(a[1..], b, tracker);
    }
  }

  /** ... and takes a commit exactly when it is not tracked. */
  lemma UntrackedOne(id: int, tracker: map<int, int>)
    ensures Untracked([id], tracker) == if id in tracker then [] else [id]
  {
    assert [id][1..] == [];
  }

  /** The commits a cycle puts on the queue. */
  function Due(tracker: map<int, int>, ids: seq<int>, cutoff: int): (due: seq<int>)
    ensures forall id :: id in due <==> id in ids && !Survives(tracker, ids, cutoff, id)
  {
    Untracked(ids, Pruned(tracker, ids, cutoff))
  }

  lemma {:induction false} UntrackedDistinct(ids: seq<int>, tracker: map<int, int>)
    requires Distinct(ids)
    ensures Distinct(Untracked(ids, tracker))
  {
    if ids != [] {
      UntrackedDistinct(ids[1..], tracker);
      assert forall k :: 0 <= k < |ids[1..]| ==> ids[1..][k] == ids[k + 1] != ids[0];
      assert ids[0] !in ids[1..];
    }
  }

  /** Some fetch strictly after event `i` and before event `j` let go of the put at `i`: the commit had
      left the queue, or its stamp had fallen out of the window. */
  ghost predicate LetGo(history: seq<PollEvent>, window: int, i: nat, j: nat)
    requires i < |history| && history[i].Put? && j <= |history|
  {
    exists k :: i < k < j && history[k].Fetched? && Expires(history[k], history[i], window)
  }

  ghost predicate Expires(fetch: PollEvent, put: PollEvent, window: int)
    requires fetch.Fetched? && put.Put?
  {
    put.id !in fetch.ids || fetch.at - put.stamp > window
  }

  /** Events `i` and `j`, in this order, put the same commit. */
  ghost predicate SamePut(history: seq<PollEvent>, i: int, j: int) {
    0 <= i < j < |history| && history[i].Put? && history[j].Put? && history[i].id == history[j].id
  }

  /** Two puts of one commit are separated by a fetch that let go of the first. */
  ghost predicate Spaced(history: seq<PollEvent>, window: int) {
    forall i, j :: SamePut(history, i, j) ==> LetGo(history, window, i, j)
  }

  /** A put that no fetch has let go of is still tracked under its stamp. */
  ghost predicate Remembered(history: seq<PollEvent>, window: int, tracker: map<int, int>) {
    forall i :: 0 <= i < |history| && history[i].Put? ==>
      LetGo(history, window, i, |history|)
      || (history[i].id in tracker && tracker[history[i].id] == history[i].stamp)
  }

  function TimeOf(e: PollEvent): int { if e.Fetched? then e.at else e.stamp }

  ghost predicate Chronological(history: seq<PollEvent>, now: int) {
    (forall i, j :: 0 <= i < j < |history| ==> TimeOf(history[i]) <= TimeOf(history[j]))
    && (forall i :: 0 <= i < |history| ==> TimeOf(history[i]) <= now)
  }

  lemma LetGoGrows(history: seq<PollEvent>, window: int, i: nat, j: nat, more: seq<PollEvent>)
    requires i < |history| && history[i].Put? && j <= |history| && LetGo(history, window, i, j)
    ensures forall j' :: j <= j' <= |history + more| ==> LetGo(history + more, window, i, j')
  {
    var k :| i < k < j && history[k].Fetched? && Expires(history[k], history[i], window);
    assert (history + more)[k] == history[k];
  }

  /** A fetch followed by its pruning keeps every put that the fetch does not let go of. */
  lemma RememberAcrossFetch(history: seq<PollEvent>, window: int, tracker: map<int, int>,
                            ids: seq<int>, at: int)
    requires Spaced(history, window) && Remembered(history, window, tracker)
    ensures Spaced(history + [Fetched(ids, at)], window)
    ensures Remembered(history + [Fetched(ids, at)], window, Pruned(tracker, ids, at - window))
  {
    var pruned := Pruned(tracker, ids, at - window);
    var next := history + [Fetched(ids, at)];
    forall i, j | SamePut(next, i, j)
      ensures LetGo(next, window, i, j)
    {
      assert SamePut(history, i, j);
      LetGoGrows(history, window, i, j, [Fetched(ids, at)]);
    }
    forall i | 0 <= i < |next| && next[i].Put?
      ensures LetGo(next, window, i, |next|)
              || (next[i].id in pruned && pruned[next[i].id] == next[i].stamp)
    {
      if LetGo(history, window, i, |history|) {
        LetGoGrows(history, window, i, |history|, [Fetched(ids, at)]);
      } else if !Survives(tracker, ids, at - window, next[i].id) {
        assert Expires(next[|history|], next[i], window);
      }
    }
  }

  /** Putting a commit that is not tracked keeps the puts spaced. */
  lemma RememberAcrossPut(history: seq<PollEvent>, window: int, tracker: map<int, int>, id: int, stamp: int)
    requires Spaced(history, window) && Remembered(history, window, tracker) && id !in tracker
    ensures Spaced(history + [Put(id, stamp)], window)
    ensures Remembered(history + [Put(id, stamp)], window, tracker[id := stamp])
  {
    var next := history + [Put(id, stamp)];
    forall i, j | SamePut(next, i, j)
      ensures LetGo(next, window, i, j)
    {
      if j < |history| {
        assert SamePut(history, i, j);
        LetGoGrows(history, window, i, j, [Put(id, stamp)]);
      } else {
        LetGoGrows(history, window, i, |history|, [Put(id, stamp)]);
      }
    }
    forall i | 0 <= i < |history| && next[i].Put? && LetGo(history, window, i, |history|)
      ensures LetGo(next, window, i, |next|)
    {
      LetGoGrows(history, window, i, |history|, [Put(id, stamp)]);
    }
  }

  /** Any two puts of one commit, over the whole life of the poller: a fetch between them did not
      return the commit, or more than the window lies between their stamps. */
  lemma PutsAreSeparated(history: seq<PollEvent>, window: int, now: int, i: nat, j: nat)
    requires Spaced(history, window) && Chronological(history, now)
    requires SamePut(history, i, j)
    ensures history[j].stamp - history[i].stamp > window
            || exists k :: i < k < j && history[k].Fetched? && history[i].id !in history[k].ids
  {
  }

  /** Some element of a set: iteration over a dictionary in whatever order. */
  method AnyOf(ids: set<int>) returns (id: int)
    requires ids != {}
    ensures id in ids
  {
    assert (forall x :: x !in ids) ==> ids == {};
    id :| id in ids;
  }

  class Poller {
    const window: nat
    var recentlyEnqueued: map<int, int>
    /** What has been put on the task queue so far. */
    var enqueued: seq<int>
    /** The last reading of the monotonic clock. */
    var now: int
    ghost var history: seq<PollEvent>

    ghost predicate Valid()
      reads this
    {
      Spaced(history, window) && Remembered(history, window, recentlyEnqueued)
      && Chronological(history, now)
      && forall id :: id in recentlyEnqueued ==> recentlyEnqueued[id] <= now
    }

    constructor (suppression: nat, start: int)
      ensures Valid() && window == suppression && recentlyEnqueued == map[] && enqueued == [] && history == []
    {
      window := suppression;
      recentlyEnqueued, enqueued, now, history := map[], [], start, [];
    }

    /** `time.monotonic()`: any reading that is not earlier than the last one. */
    method Monotonic() returns (t: int)
      modifies this`now
      ensures t == now >= old(now)
    {
      t := *;
      if t < now { t := now; }
      now := t;
    }

    method SelectNewCommits(commits: seq<int>) returns (selected: seq<int>, cutoff: int)
      modifies this`recentlyEnqueued, this`now
      ensures now >= old(now) && cutoff == now - window
      ensures recentlyEnqueued == Pruned(old(recentlyEnqueued), commits, cutoff)
      ensures selected == Due(old(recentlyEnqueued), commits, cutoff)
      ensures forall id :: id in recentlyEnqueued <==>
                id in old(recentlyEnqueued) && id in commits && old(recentlyEnqueued)[id] >= cutoff
      ensures forall id :: id in recentlyEnqueued ==> recentlyEnqueued[id] == old(recentlyEnqueued)[id]
      ensures selected == Untracked(commits, recentlyEnqueued)
    {
      var time := Monotonic();
      cutoff := time - window;
      ghost var before := recentlyEnqueued;
      var left := recentlyEnqueued.Keys;
      while left != {}
        invariant now == time
        invariant left <= before.Keys
        invariant recentlyEnqueued ==
                  map id | id in before && (id in left || Survives(before, commits, cutoff, id)) :: before[id]
        decreases left
      {
        var id := AnyOf(left);
        left := left - {id};
        if id !in commits || recentlyEnqueued[id] < cutoff {
          recentlyEnqueued := recentlyEnqueued - {id};
        }
      }
      assert recentlyEnqueued == Pruned(before, commits, cutoff);
      selected := Untracked(commits, recentlyEnqueued);
    }

    /** One `task_queue.put` and its stamp. */
    method PutCommit(id: int)
      requires Valid() && id !in recentlyEnqueued
      modifies this
      ensures Valid() && now >= old(now) && enqueued == old(enqueued) + [id]
      ensures recentlyEnqueued == old(recentlyEnqueued)[id := now]
      ensures history == old(history) + [Put(id, now)]
    {
      enqueued := enqueued + [id];
      var stamp := Monotonic();
      RememberAcrossPut(history, window, recentlyEnqueued, id, stamp);
      history := history + [Put(id, stamp)];
      recentlyEnqueued := recentlyEnqueued[id := stamp];
    }

    /** The loop that puts the selected commits one by one. */
    method PutAll(commits: seq<int>)
      requires Valid() && Distinct(commits)
      requires forall id :: id in commits ==> id !in recentlyEnqueued
      modifies this
      ensures Valid() && now >= old(now) && enqueued == old(enqueued) + commits
      ensures old(history) <= history
      ensures forall id :: id in recentlyEnqueued <==> id in old(recentlyEnqueued) || id in commits
      ensures forall id :: id in recentlyEnqueued ==>
                recentlyEnqueued[id] >= if id in commits then old(now) else old(recentlyEnqueued)[id]
    {
      for i := 0 to |commits|
        invariant Valid() && old(now) <= now && old(history) <= history
        invariant enqueued == old(enqueued) + commits[..i]
        invariant forall id :: id in recentlyEnqueued <==> id in old(recentlyEnqueued) || id in commits[..i]
        invariant forall id :: id in recentlyEnqueued ==>
                    recentlyEnqueued[id] >= if id in commits[..i] then old(now) else old(recentlyEnqueued)[id]
      {
        assert commits[i] !in commits[..i];
        assert commits[..i + 1] == commits[..i] + [commits[i]];
        PutCommit(commits[i]);
      }
      assert commits[..|commits|] == commits;
    }

    /** One turn of the polling loop up to the sleep. The ids of one fetch are distinct: they are
        primary keys of the commits table. A failed fetch puts nothing and prunes nothing. After a
        successful one the tracked ids are the fetched ids, stamped at or after the cutoff. */
    method Cycle(fetch: Result<seq<int>>)
      requires Valid() && (fetch.Ok? ==> Distinct(fetch.value))
      modifies this
      ensures Valid() && old(history) <= history && old(now) <= now
      ensures fetch.Err? ==> enqueued == old(enqueued) && recentlyEnqueued == old(recentlyEnqueued)
      ensures fetch.Ok? ==>
                |history| > |old(history)| && history[|old(history)|].Fetched?
                && var at := history[|old(history)|].at;
                history[|old(history)|] == Fetched(fetch.value, at) && old(now) <= at
                && enqueued == old(enqueued) + Due(old(recentlyEnqueued), fetch.value, at - window)
                && (forall id :: id in recentlyEnqueued <==> id in fetch.value)
                && (forall id :: id in recentlyEnqueued ==> recentlyEnqueued[id] >= at - window)
    {
      if fetch.Err? { return; }
      var commits := Select(fetch.value);
      PutAll(commits);
    }

    /** The select step of a cycle, with the fetch recorded. */
    method Select(ids: seq<int>) returns (due: seq<int>)
      requires Valid() && Distinct(ids)
      modifies this`recentlyEnqueued, this`now, this`history
      ensures Valid() && now >= old(now) && history == old(history) + [Fetched(ids, now)]
      ensures recentlyEnqueued == Pruned(old(recentlyEnqueued), ids, now - window)
      ensures due == Due(old(recentlyEnqueued), ids, now - window) && Distinct(due)
    {
      var cutoff;
      due, cutoff := SelectNewCommits(ids);
      RememberAcrossFetch(history, window, old(recentlyEnqueued), ids, now);
      history := history + [Fetched(ids, now)];
      UntrackedDistinct(ids, recentlyEnqueued);
    }
  }
}
