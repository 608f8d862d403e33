/**
 * Editing a slideshow queue: the deferred-edit reconciliation of `applyPendingQueueChanges`
 * (src/control/control.js:1181-1203), the index clamp shared with `handleQueueItemRemove`
 * (1591-1625) and the drag-drop move (1574-1584). Entries are identified by path.
 */
module QueueEdit {
  import opened Content

  /** `queue.some(q => q.path === p)`. */
  predicate HasPath(q: seq<QueueEntry>, p: string) {
    exists i :: 0 <= i < |q| && q[i].path == p
  }

  /** No two entries share a path. */
  predicate UniquePaths(q: seq<QueueEntry>) {
    forall i, j :: 0 <= i < j < |q| ==> q[i].path != q[j].path
  }

  /** `queue.findIndex(q => q.path === p)`: the first entry with that path, or -1. */
  function FirstIndexOf(q: seq<QueueEntry>, p: string): (i: int)
    ensures -1 <= i < |q|
    ensures i >= 0 ==> q[i].path == p
    ensures forall j :: 0 <= j < |q| && (i < 0 || j < i) ==> q[j].path != p
  {
    if q == [] then -1
    else if q[0].path == p then 0
    else
      var k := FirstIndexOf(q[1..], p);
      if k < 0 then -1 else k + 1
  }

  /** `if (!queue.some(...)) queue.push(a)` for each pending add, in order. */
  function AppendMissing(q: seq<QueueEntry>, adds: seq<QueueEntry>): seq<QueueEntry>
    decreases |adds|
  {
    if adds == [] then q
    else AppendMissing(if HasPath(q, adds[0].path) then q else q + [adds[0]], adds[1..])
  }

  /** `splice(findIndex(...), 1)` when found: the first entry with path `p` is taken out. */
  function RemoveFirst(q: seq<QueueEntry>, p: string): (r: seq<QueueEntry>)
    ensures !HasPath(q, p) ==> r == q
    ensures HasPath(q, p) ==>
      var i := FirstIndexOf(q, p); |r| == |q| - 1 && r == q[..i] + q[i + 1..]
    ensures multiset(r) <= multiset(q)
  {
    var i := FirstIndexOf(q, p);
    FoundIffHasPath(q, p);
    if i >= 0 then
      assert q == q[..i] + [q[i]] + q[i + 1..];
      assert multiset(q) == multiset(q[..i]) + multiset{q[i]} + multiset(q[i + 1..]);
      q[..i] + q[i + 1..]
    else q
  }

  /** `findIndex` finds an entry exactly when `some` says there is one. */
  lemma FoundIffHasPath(q: seq<QueueEntry>, p: string)
    ensures HasPath(q, p) <==> FirstIndexOf(q, p) >= 0
  {
    if HasPath(q, p) {
      var j :| 0 <= j < |q| && q[j].path == p;
      assert FirstIndexOf(q, p) >= 0;
    }
  }

  /** The removal loop over the pending-remove paths, in order. */
  function RemoveEach(q: seq<QueueEntry>, removes: seq<string>): seq<QueueEntry>
    decreases |removes|
  {
    if removes == [] then q else RemoveEach(RemoveFirst(q, removes[0]), removes[1..])
  }

  /** The entries of `q` whose path is not among `paths`, in order (reference for RemoveEach). */
  function Keep(q: seq<QueueEntry>, paths: seq<string>): (r: seq<QueueEntry>)
    ensures |r| <= |q|
  {
    if q == [] then []
    else (if q[0].path in paths then [] else [q[0]]) + Keep(q[1..], paths)
  }

  /**
   * `if (index >= len) index = Math.max(0, len - 1)`: only an index past the end is moved,
   * to the last entry (or 0 for an empty queue).
   */
  function ClampIndex(index: int, len: nat): (r: int)
    ensures index < len ==> r == index
    ensures 0 <= index ==> 0 <= r && (r < len || r == 0)
    ensures len > 0 && index >= len ==> r == len - 1
  {
    if index >= len then (if len - 1 > 0 then len - 1 else 0) else index
  }

  /** The staged show after `applyPendingQueueChanges`. */
  function ApplyPendingChanges(s: Show): (r: Show)
    ensures r.pendingAdds == [] && r.pendingRemoves == []
    ensures 0 <= s.index ==> IndexOk(r)
    ensures r.(queue := s.queue, index := s.index, pendingAdds := s.pendingAdds, pendingRemoves := s.pendingRemoves) == s
  {
    var q := RemoveEach(AppendMissing(s.queue, s.pendingAdds), s.pendingRemoves);
    s.(queue := q, index := ClampIndex(s.index, |q|), pendingAdds := [], pendingRemoves := [])
  }

  // ---------------------------------------------------------------------------------------
  // The two forEach loops of applyPendingQueueChanges, as loops.

  method MergePendingAdds(queue: seq<QueueEntry>, adds: seq<QueueEntry>) returns (q: seq<QueueEntry>)
    ensures q == AppendMissing(queue, adds)
  {
    q := queue;
    var i := 0;
    while i < |adds|
      invariant 0 <= i <= |adds|
      invariant AppendMissing(q, adds[i..]) == AppendMissing(queue, adds)
    {
      assert adds[i..][1..] == adds[i + 1..];
      if !HasPath(q, adds[i].path) {
        q := q + [adds[i]];
      }
      i := i + 1;
    }
  }

  method DropPendingRemoves(queue: seq<QueueEntry>, removes: seq<string>) returns (q: seq<QueueEntry>)
    ensures q == RemoveEach(queue, removes)
  {
    q := queue;
    var i := 0;
    while i < |removes|
      invariant 0 <= i <= |removes|
      invariant RemoveEach(q, removes[i..]) == RemoveEach(queue, removes)
    {
      ghost var before := q;
      assert removes[i..][0] == removes[i] && removes[i..][1..] == removes[i + 1..];
      assert RemoveEach(q, removes[i..]) == RemoveEach(RemoveFirst(q, removes[i]), removes[i + 1..]);
      var idx := FindIndex(q, removes[i]);
      FoundIffHasPath(q, removes[i]);
      if idx >= 0 {
        q := q[..idx] + q[idx + 1..];
      }
      assert q == RemoveFirst(before, removes[i]);
      i := i + 1;
    }
  }

  /** `findIndex` as the search loop it is. */
  method FindIndex(q: seq<QueueEntry>, p: string) returns (idx: int)
    ensures idx == FirstIndexOf(q, p)
  {
    idx := 0;
    while idx < |q| && q[idx].path != p
      invariant 0 <= idx <= |q|
      invariant forall j :: 0 <= j < idx ==> q[j].path != p
    {
      idx := idx + 1;
    }
    if idx == |q| {
      idx := -1;
    }
    FirstIndexIsFirst(q, p, idx);
  }

  lemma {:induction false} FirstIndexIsFirst(q: seq<QueueEntry>, p: string, k: int)
    requires -1 <= k < |q|
    requires k >= 0 ==> q[k].path == p
    requires forall j :: 0 <= j < |q| && (k < 0 || j < k) ==> q[j].path != p
    ensures FirstIndexOf(q, p) == k
  {
    if q != [] && q[0].path != p {
      FirstIndexIsFirst(q[1..], p, if k < 0 then -1 else k - 1);
    }
  }

  // ---------------------------------------------------------------------------------------
  // What the reconciliation promises.

  /**
   * Pending adds only extend the queue: the old entries keep their places, every appended
   * entry is a pending add whose path was not yet in the queue, every pending path ends up
   * in the queue, and a queue without duplicate paths stays without.
   */
  lemma {:induction false} AppendMissingSpec(q: seq<QueueEntry>, adds: seq<QueueEntry>)
    ensures var r := AppendMissing(q, adds);
      && q <= r
      && (forall k :: |q| <= k < |r| ==> r[k] in adds && !HasPath(q, r[k].path))
      && (forall a :: a in adds ==> HasPath(r, a.path))
      && (UniquePaths(q) ==> UniquePaths(r))
    decreases |adds|
  {
    if adds != [] {
      var a := adds[0];
      var q' := if HasPath(q, a.path) then q else q + [a];
      AppendMissingSpec(q', adds[1..]);
      var r := AppendMissing(q', adds[1..]);
      assert q <= q';
      forall k | |q| <= k < |r|
        ensures r[k] in adds && !HasPath(q, r[k].path)
      {
        if k < |q'| {
          assert r[k] == q'[k] == a;
        } else {
          assert r[k] in adds[1..];
          assert !HasPath(q', r[k].path);
          assert forall i :: 0 <= i < |q| ==> q'[i] == q[i];
        }
      }
      forall b | b in adds
        ensures HasPath(r, b.path)
      {
        if b == a {
          if HasPath(q, a.path) {
            var i :| 0 <= i < |q| && q[i].path == a.path;
            assert r[i] == q[i];
          } else {
            assert r[|q|] == a;
          }
        } else {
          assert b in adds[1..];
        }
      }
      if UniquePaths(q) {
        if !HasPath(q, a.path) {
          assert UniquePaths(q');
        }
      }
    }
  }

  lemma {:induction false} KeepUnchanged(q: seq<QueueEntry>, paths: seq<string>)
    requires forall i :: 0 <= i < |q| ==> q[i].path !in paths
    ensures Keep(q, paths) == q
  {
    if q != [] {
      KeepUnchanged(q[1..], paths);
    }
  }

  lemma {:induction false} KeepKeep(q: seq<QueueEntry>, a: seq<string>, b: seq<string>)
    ensures Keep(Keep(q, a), b) == Keep(q, a + b)
  {
    if q != [] {
      KeepKeep(q[1..], a, b);
      var x := q[0];
      var t := Keep(q[1..], a);
      assert x.path in a + b <==> x.path in a || x.path in b;
      assert Keep(q, a + b) == (if x.path in a + b then [] else [x]) + Keep(q[1..], a + b);
      if x.path in a {
        assert Keep(q, a) == t;
      } else {
        assert Keep(q, a) == [x] + t;
        assert ([x] + t)[0] == x && ([x] + t)[1..] == t;
        assert Keep([x] + t, b) == (if x.path in b then [] else [x]) + Keep(t, b);
      }
    }
  }

  lemma {:induction false} KeepConcat(a: seq<QueueEntry>, b: seq<QueueEntry>, paths: seq<string>)
    ensures Keep(a + b, paths) == Keep(a, paths) + Keep(b, paths)
  {
    if a != [] {
      KeepConcat(a[1..], b, paths);
      assert (a + b)[0] == a[0] && (a + b)[1..] == a[1..] + b;
    } else {
      assert a + b == b;
    }
  }

  lemma {:induction false} KeepSubset(q: seq<QueueEntry>, paths: seq<string>)
    ensures UniquePaths(q) ==> UniquePaths(Keep(q, paths))
    ensures forall e :: e in Keep(q, paths) ==> e in q && e.path !in paths
  {
    if q != [] {
      KeepSubset(q[1..], paths);
      var k := Keep(q[1..], paths);
      if UniquePaths(q) && q[0].path !in paths {
        assert UniquePaths(q[1..]);
        assert forall e :: e in k ==> e in q[1..];
        forall i, j | 0 <= i < j < |[q[0]] + k|
          ensures ([q[0]] + k)[i].path != ([q[0]] + k)[j].path
        {
          if i == 0 {
            var e := k[j - 1];
            assert e in q[1..];
            var m :| 0 <= m < |q[1..]| && q[1..][m] == e;
            assert q[m + 1] == e;
          }
        }
      }
    }
  }

  /** On a queue without duplicate paths, removing the first match is removing every match. */
  lemma {:induction false} RemoveFirstUnique(q: seq<QueueEntry>, p: string)
    requires UniquePaths(q)
    ensures RemoveFirst(q, p) == Keep(q, [p])
  {
    var i := FirstIndexOf(q, p);
    if i < 0 {
      KeepUnchanged(q, [p]);
    } else {
      assert forall j :: 0 <= j < |q| && j != i ==> q[j].path != p;
      RemoveOnlyMatch(q, i, p);
    }
  }

  lemma {:induction false} RemoveOnlyMatch(q: seq<QueueEntry>, i: nat, p: string)
    requires i < |q| && q[i].path == p
    requires forall j :: 0 <= j < |q| && j != i ==> q[j].path != p
    ensures q[..i] + q[i + 1..] == Keep(q, [p])
  {
    var t := q[1..];
    assert forall j :: 0 <= j < |t| && j != i - 1 ==> t[j].path != p by {
      forall j | 0 <= j < |t| && j != i - 1 ensures t[j].path != p {
        assert t[j] == q[j + 1];
      }
    }
    if i == 0 {
      KeepUnchanged(t, [p]);
    } else {
      RemoveOnlyMatch(t, i - 1, p);
      assert q[..i] == [q[0]] + t[..i - 1];
      assert q[i + 1..] == t[i..];
    }
  }

  /**
   * On a queue without duplicate paths the removal loop drops exactly the entries whose
   * path is pending removal and keeps all others, in order.
   */
  lemma {:induction false} RemoveEachUnique(q: seq<QueueEntry>, removes: seq<string>)
    requires UniquePaths(q)
    ensures RemoveEach(q, removes) == Keep(q, removes)
    decreases |removes|
  {
    if removes == [] {
      KeepUnchanged(q, removes);
    } else {
      RemoveFirstUnique(q, removes[0]);
      KeepSubset(q, [removes[0]]);
      RemoveEachUnique(RemoveFirst(q, removes[0]), removes[1..]);
      KeepKeep(q, [removes[0]], removes[1..]);
      assert [removes[0]] + removes[1..] == removes;
    }
  }

  /** Whatever the queue, the removal loop only ever takes entries out. */
  lemma {:induction false} RemoveEachShrinks(q: seq<QueueEntry>, removes: seq<string>)
    ensures multiset(RemoveEach(q, removes)) <= multiset(q)
    ensures |RemoveEach(q, removes)| + |removes| >= |q|
    decreases |removes|
  {
    if removes != [] {
      RemoveEachShrinks(RemoveFirst(q, removes[0]), removes[1..]);
    }
  }

  /**
   * Reconciling is done once: afterwards nothing is pending, the index is a queue position,
   * and reconciling again changes nothing.
   */
  lemma ApplyPendingOnce(s: Show)
    requires 0 <= s.index
    ensures var r := ApplyPendingChanges(s);
      && r.pendingAdds == [] && r.pendingRemoves == [] && IndexOk(r)
      && ApplyPendingChanges(r) == r
  {
  }

  /**
   * With distinct paths, the reconciled queue is the old queue plus the new pending adds,
   * minus every entry whose path is pending removal.
   */
  lemma ApplyPendingContents(s: Show)
    requires UniquePaths(s.queue)
    ensures ApplyPendingChanges(s).queue == Keep(AppendMissing(s.queue, s.pendingAdds), s.pendingRemoves)
    ensures UniquePaths(ApplyPendingChanges(s).queue)
  {
    AppendMissingSpec(s.queue, s.pendingAdds);
    var merged := AppendMissing(s.queue, s.pendingAdds);
    RemoveEachUnique(merged, s.pendingRemoves);
    KeepSubset(merged, s.pendingRemoves);
  }

  // ---------------------------------------------------------------------------------------
  // The drag-drop reorder.

  /** `const [moved] = queue.splice(from, 1); queue.splice(to, 0, moved)`. */
  function Move(q: seq<QueueEntry>, from: nat, to: nat): (r: seq<QueueEntry>)
    requires from < |q| && to < |q|
    ensures |r| == |q| && r[to] == q[from]
    ensures r[..to] + r[to + 1..] == q[..from] + q[from + 1..]
    ensures multiset(r) == multiset(q)
  {
    var moved := q[from];
    var rest := q[..from] + q[from + 1..];
    assert q == q[..from] + [moved] + q[from + 1..];
    assert multiset(q) == multiset(rest) + multiset{moved};
    assert rest == rest[..to] + rest[to..];
    assert multiset(rest[..to] + [moved] + rest[to..]) == multiset(rest[..to]) + multiset{moved} + multiset(rest[to..]);
    var r := rest[..to] + [moved] + rest[to..];
    assert r[..to] == rest[..to] && r[to + 1..] == rest[to..];
    r
  }
}
