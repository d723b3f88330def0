/** Finding and signalling the descendants of a process, as src/platform/process-control.ts does it
    from a table of pids and parent pids. */
module ProcessTree {

  datatype Row = Row(pid: int, parent: int)

  ghost predicate UniquePids(rows: seq<Row>) {
    forall j, k | 0 <= j < k < |rows| :: rows[j].pid != rows[k].pid
  }

  ghost predicate IsChild(rows: seq<Row>, child: int, parent: int) {
    Row(child, parent) in rows
  }

  /** `to` is `n` generations below `from`. */
  ghost predicate Reaches(rows: seq<Row>, from: int, to: int, n: nat)
    decreases n
  {
    n > 0 && exists parent ::
      IsChild(rows, to, parent) && if n == 1 then parent == from else Reaches(rows, from, parent, n - 1)
  }

  ghost predicate Descends(rows: seq<Row>, from: int, to: int) {
    exists n: nat :: Reaches(rows, from, to, n)
  }

  /** The children of a process, in the order of the table. */
  function ChildrenOf(rows: seq<Row>, parent: int): seq<int> {
    if rows == [] then []
    else
      var n := |rows| - 1;
      ChildrenOf(rows[..n], parent) + (if rows[n].parent == parent then [rows[n].pid] else [])
  }

  // ---------------------------------------------------------------- the traversal

  /** The stack and the list of processes found so far. */
  datatype Walk = Walk(pending: seq<int>, found: seq<int>)

  function Start(rows: seq<Row>, root: int): Walk {
    Walk(ChildrenOf(rows, root), [])
  }

  /** Pop one process and push its children. */
  function Step(rows: seq<Row>, w: Walk): Walk {
    if w.pending == [] then w
    else
      var current := w.pending[|w.pending| - 1];
      Walk(w.pending[..|w.pending| - 1] + ChildrenOf(rows, current), w.found + [current])
  }

  function Walked(rows: seq<Row>, root: int, n: nat): Walk {
    if n == 0 then Start(rows, root) else Step(rows, Walked(rows, root, n - 1))
  }

  /** Every listed process has its parent listed as found before it, or is a child of the root. */
  ghost predicate ParentsFirst(rows: seq<Row>, root: int, found: seq<int>, limit: nat, pid: int) {
    exists parent :: IsChild(rows, pid, parent) && (parent == root || parent in found[..if limit <= |found| then limit else |found|])
  }

  ghost predicate Distinct(pids: seq<int>) {
    forall j, k | 0 <= j < k < |pids| :: pids[j] != pids[k]
  }

  ghost predicate WalkInv(rows: seq<Row>, root: int, w: Walk) {
    && Distinct(w.found + w.pending)
    && (forall k | 0 <= k < |w.found| :: ParentsFirst(rows, root, w.found, k, w.found[k]))
    && (forall pid | pid in w.pending :: ParentsFirst(rows, root, w.found, |w.found|, pid))
    && (forall pid, parent | IsChild(rows, pid, parent) && (parent == root || parent in w.found) ::
          pid in w.found || pid in w.pending)
  }

  // ---------------------------------------------------------------- children and parents

  lemma {:induction false} ChildrenAre(rows: seq<Row>, parent: int)
    ensures forall pid :: pid in ChildrenOf(rows, parent) <==> IsChild(rows, pid, parent)
  {
    if rows != [] {
      var n := |rows| - 1;
      ChildrenAre(rows[..n], parent);
      forall pid ensures IsChild(rows, pid, parent) <==> IsChild(rows[..n], pid, parent) || rows[n] == Row(pid, parent) {
        assert rows == rows[..n] + [rows[n]];
      }
    }
  }

  lemma {:induction false} ChildrenAreDistinct(rows: seq<Row>, parent: int)
    requires UniquePids(rows)
    ensures Distinct(ChildrenOf(rows, parent))
  {
    if rows != [] {
      var n := |rows| - 1;
      ChildrenAreDistinct(rows[..n], parent);
      ChildrenAre(rows[..n], parent);
      var before := ChildrenOf(rows[..n], parent);
      forall j | 0 <= j < |before| ensures before[j] != rows[n].pid {
        assert IsChild(rows[..n], before[j], parent);
        var k :| 0 <= k < n && rows[..n][k] == Row(before[j], parent);
        assert rows[k].pid != rows[n].pid;
      }
    }
  }

  lemma OneParent(rows: seq<Row>, pid: int, p: int, q: int)
    requires UniquePids(rows) && IsChild(rows, pid, p) && IsChild(rows, pid, q)
    ensures p == q
  {
  }

  lemma ChildDescends(rows: seq<Row>, from: int, parent: int, pid: int)
    requires IsChild(rows, pid, parent) && (parent == from || Descends(rows, from, parent))
    ensures Descends(rows, from, pid)
  {
    if parent == from {
      assert Reaches(rows, from, pid, 1);
    } else {
      var n: nat :| Reaches(rows, from, parent, n);
      assert Reaches(rows, from, pid, n + 1);
    }
  }

  lemma {:induction false} DescentComposes(rows: seq<Row>, a: int, b: int, c: int, n: nat)
    requires Descends(rows, a, b) && Reaches(rows, b, c, n)
    ensures Descends(rows, a, c)
    decreases n
  {
    var parent :| IsChild(rows, c, parent) && if n == 1 then parent == b else Reaches(rows, b, parent, n - 1);
    if n > 1 {
      DescentComposes(rows, a, b, parent, n - 1);
    }
    ChildDescends(rows, a, parent, c);
  }

  /** A descent starts with a child. */
  lemma {:induction false} FirstStep(rows: seq<Row>, from: int, to: int, n: nat) returns (child: int)
    requires Reaches(rows, from, to, n)
    ensures IsChild(rows, child, from) && (child == to || Descends(rows, child, to))
    decreases n
  {
    var parent :| IsChild(rows, to, parent) && if n == 1 then parent == from else Reaches(rows, from, parent, n - 1);
    if n == 1 {
      child := to;
    } else {
      child := FirstStep(rows, from, parent, n - 1);
      ChildDescends(rows, child, parent, to);
    }
  }

  // ---------------------------------------------------------------- what each step keeps

  lemma StartKeepsInv(rows: seq<Row>, root: int)
    requires UniquePids(rows)
    ensures WalkInv(rows, root, Start(rows, root))
  {
    ChildrenAre(rows, root);
    ChildrenAreDistinct(rows, root);
    var w := Start(rows, root);
    assert w.found + w.pending == w.pending;
  }

  /** What is listed descends from the root. */
  lemma {:induction false} FoundDescends(rows: seq<Row>, root: int, found: seq<int>, k: nat)
    requires k < |found| && forall j | 0 <= j < |found| :: ParentsFirst(rows, root, found, j, found[j])
    ensures Descends(rows, root, found[k])
    decreases k
  {
    var parent :| IsChild(rows, found[k], parent) && (parent == root || parent in found[..k]);
    if parent != root {
      var j :| 0 <= j < k && found[j] == parent;
      FoundDescends(rows, root, found, j);
    }
    ChildDescends(rows, root, parent, found[k]);
  }

  lemma PendingDescends(rows: seq<Row>, root: int, w: Walk, pid: int)
    requires WalkInv(rows, root, w) && pid in w.pending
    ensures Descends(rows, root, pid)
  {
    assert ParentsFirst(rows, root, w.found, |w.found|, pid);
    var parent :| IsChild(rows, pid, parent) && (parent == root || parent in w.found[..|w.found|]);
    if parent != root {
      var j :| 0 <= j < |w.found| && w.found[j] == parent;
      FoundDescends(rows, root, w.found, j);
    }
    ChildDescends(rows, root, parent, pid);
  }

  /** A child of the process on top of the stack is listed nowhere yet. */
  lemma ChildrenAreNew(rows: seq<Row>, root: int, w: Walk, pid: int)
    requires UniquePids(rows) && WalkInv(rows, root, w) && w.pending != [] && !Descends(rows, root, root)
    requires IsChild(rows, pid, w.pending[|w.pending| - 1])
    ensures pid !in w.found && pid !in w.pending
  {
    var current := w.pending[|w.pending| - 1];
    PendingDescends(rows, root, w, current);
    forall k | 0 <= k < |w.found| ensures w.found[k] != current {
      assert (w.found + w.pending)[k] != (w.found + w.pending)[|w.found| + |w.pending| - 1];
    }
    if pid in w.found {
      var k :| 0 <= k < |w.found| && w.found[k] == pid;
      assert ParentsFirst(rows, root, w.found, k, w.found[k]);
      var parent :| IsChild(rows, pid, parent) && (parent == root || parent in w.found[..k]);
      OneParent(rows, pid, parent, current);
      assert false;
    }
    if pid in w.pending {
      assert ParentsFirst(rows, root, w.found, |w.found|, pid);
      var parent :| IsChild(rows, pid, parent) && (parent == root || parent in w.found[..|w.found|]);
      OneParent(rows, pid, parent, current);
      assert false;
    }
  }

  lemma StepStaysDistinct(rows: seq<Row>, root: int, w: Walk)
    requires UniquePids(rows) && WalkInv(rows, root, w) && w.pending != [] && !Descends(rows, root, root)
    ensures var w' := Step(rows, w); Distinct(w'.found + w'.pending)
  {
    var m := |w.pending| - 1;
    var current := w.pending[m];
    var children := ChildrenOf(rows, current);
    ChildrenAre(rows, current);
    ChildrenAreDistinct(rows, current);
    forall pid | pid in children ensures pid !in w.found && pid !in w.pending {
      ChildrenAreNew(rows, root, w, pid);
    }
    hide WalkInv, ChildrenOf, UniquePids, Descends;
    ListedStayDistinct(w.found, w.pending, children);
  }

  lemma ListedStayDistinct(found: seq<int>, pending: seq<int>, children: seq<int>)
    requires Distinct(found + pending) && Distinct(children) && pending != []
    requires forall pid | pid in children :: pid !in found && pid !in pending
    ensures Distinct(found + [pending[|pending| - 1]] + (pending[..|pending| - 1] + children))
  {
    var m := |pending| - 1;
    var listed := found + pending;
    var after := found + [pending[m]] + (pending[..m] + children);
    assert forall k | 0 <= k < |found| :: after[k] == listed[k] && after[k] in found;
    assert after[|found|] == listed[|found| + m] && after[|found|] in pending;
    assert forall k | |found| < k <= |found| + m :: after[k] == listed[k - 1] && after[k] in pending;
    assert forall k | |found| + m < k < |after| :: after[k] == children[k - |found| - m - 1] && after[k] in children;
  }

  lemma ParentStaysFirst(rows: seq<Row>, root: int, found: seq<int>, current: int, k: nat, pid: int)
    requires k <= |found| && ParentsFirst(rows, root, found, k, pid)
    ensures ParentsFirst(rows, root, found + [current], k, pid)
    ensures ParentsFirst(rows, root, found + [current], |found| + 1, pid)
  {
    var after := found + [current];
    assert after[..k] == found[..k] && after[..|found| + 1] == after;
    var parent :| IsChild(rows, pid, parent) && (parent == root || parent in found[..k]);
    if parent != root {
      assert parent in after[..k];
    }
  }

  lemma ChildOfTopHasItsParent(rows: seq<Row>, root: int, found: seq<int>, current: int, pid: int)
    requires IsChild(rows, pid, current)
    ensures ParentsFirst(rows, root, found + [current], |found| + 1, pid)
  {
    var after := found + [current];
    assert after[..|found| + 1] == after && after[|found|] == current;
  }

  lemma StepKeepsInv(rows: seq<Row>, root: int, w: Walk)
    requires UniquePids(rows) && WalkInv(rows, root, w) && !Descends(rows, root, root)
    ensures WalkInv(rows, root, Step(rows, w))
  {
    if w.pending != [] {
      var m := |w.pending| - 1;
      var current := w.pending[m];
      var w' := Step(rows, w);
      assert w.pending == w.pending[..m] + [current];
      StepStaysDistinct(rows, root, w);
      ChildrenAre(rows, current);
      hide ParentsFirst, Descends, ChildrenOf, UniquePids, Distinct, IsChild;
      forall k | 0 <= k < |w'.found| ensures ParentsFirst(rows, root, w'.found, k, w'.found[k]) {
        ParentStaysFirst(rows, root, w.found, current, k, w'.found[k]);
      }
      forall pid | pid in w'.pending ensures ParentsFirst(rows, root, w'.found, |w'.found|, pid) {
        if pid in w.pending {
          ParentStaysFirst(rows, root, w.found, current, |w.found|, pid);
        } else {
          ChildOfTopHasItsParent(rows, root, w.found, current, pid);
        }
      }
    }
  }

  lemma {:induction false} WalksKeepInv(rows: seq<Row>, root: int, n: nat)
    requires UniquePids(rows) && !Descends(rows, root, root)
    ensures WalkInv(rows, root, Walked(rows, root, n))
    ensures Walked(rows, root, n).pending != [] ==> |Walked(rows, root, n).found| == n
  {
    if n == 0 {
      StartKeepsInv(rows, root);
    } else {
      WalksKeepInv(rows, root, n - 1);
      StepKeepsInv(rows, root, Walked(rows, root, n - 1));
    }
  }

  // ---------------------------------------------------------------- it ends, and when it does not

  function Pids(rows: seq<Row>): seq<int> {
    seq(|rows|, k requires 0 <= k < |rows| => rows[k].pid)
  }

  lemma {:induction false} DistinctFits(pids: seq<int>, from: seq<int>)
    requires Distinct(pids) && forall pid | pid in pids :: pid in from
    ensures |pids| <= |from|
    decreases |pids|
  {
    if pids != [] {
      var n := |pids| - 1;
      assert pids[n] in pids;
      var k :| 0 <= k < |from| && from[k] == pids[n];
      var rest := from[..k] + from[k + 1..];
      forall pid | pid in pids[..n] ensures pid in rest {
        assert pid in pids && pid != pids[n];
        var j :| 0 <= j < |from| && from[j] == pid;
        assert j < k ==> rest[j] == pid;
        assert j > k ==> rest[j - 1] == pid;
      }
      DistinctFits(pids[..n], rest);
    }
  }

  lemma FoundFits(rows: seq<Row>, root: int, w: Walk)
    requires WalkInv(rows, root, w)
    ensures |w.found| + |w.pending| <= |rows|
  {
    var listed := w.found + w.pending;
    forall pid | pid in listed ensures pid in Pids(rows) {
      if pid in w.found {
        var k :| 0 <= k < |w.found| && w.found[k] == pid;
        assert ParentsFirst(rows, root, w.found, k, w.found[k]);
      } else {
        assert ParentsFirst(rows, root, w.found, |w.found|, pid);
      }
      var parent :| IsChild(rows, pid, parent);
      var q :| 0 <= q < |rows| && rows[q] == Row(pid, parent);
      assert Pids(rows)[q] == pid;
    }
    DistinctFits(listed, Pids(rows));
  }

  /** Some process on the stack has the root below it. */
  ghost predicate LeadsBack(rows: seq<Row>, root: int, w: Walk) {
    exists pid :: pid in w.pending && (pid == root || Descends(rows, pid, root))
  }

  lemma SomeChildLeadsBack(rows: seq<Row>, root: int, pid: int) returns (child: int)
    requires Descends(rows, root, root) && (pid == root || Descends(rows, pid, root))
    ensures child in ChildrenOf(rows, pid) && (child == root || Descends(rows, child, root))
  {
    ChildrenAre(rows, pid);
    var n: nat :| Reaches(rows, pid, root, n);
    child := FirstStep(rows, pid, root, n);
  }

  lemma {:induction false} CyclesNeverEnd(rows: seq<Row>, root: int, n: nat)
    requires Descends(rows, root, root)
    ensures LeadsBack(rows, root, Walked(rows, root, n))
  {
    hide Descends, ChildrenOf;
    if n == 0 {
      var child := SomeChildLeadsBack(rows, root, root);
      assert child in Start(rows, root).pending;
    } else {
      CyclesNeverEnd(rows, root, n - 1);
      var w := Walked(rows, root, n - 1);
      var w' := Step(rows, w);
      var m := |w.pending| - 1;
      var pid :| pid in w.pending && (pid == root || Descends(rows, pid, root));
      if pid == w.pending[m] {
        var child := SomeChildLeadsBack(rows, root, pid);
        assert child in w'.pending;
      } else {
        assert w.pending == w.pending[..m] + [w.pending[m]];
        assert pid in w'.pending;
      }
    }
  }

  /** The traversal ends exactly when the root is not its own descendant. */
  lemma EndsIff(rows: seq<Row>, root: int)
    requires UniquePids(rows)
    ensures (exists n: nat :: Walked(rows, root, n).pending == []) <==> !Descends(rows, root, root)
  {
    if Descends(rows, root, root) {
      forall n: nat ensures Walked(rows, root, n).pending != [] {
        CyclesNeverEnd(rows, root, n);
      }
    } else {
      var n := |rows| + 1;
      WalksKeepInv(rows, root, n);
      FoundFits(rows, root, Walked(rows, root, n));
      assert Walked(rows, root, n).pending == [];
    }
  }

  // ---------------------------------------------------------------- what it finds

  lemma {:induction false} DescendantsAreFound(rows: seq<Row>, root: int, w: Walk, pid: int, n: nat)
    requires WalkInv(rows, root, w) && w.pending == [] && Reaches(rows, root, pid, n)
    ensures pid in w.found
    decreases n
  {
    var parent :| IsChild(rows, pid, parent) && if n == 1 then parent == root else Reaches(rows, root, parent, n - 1);
    if n > 1 {
      DescendantsAreFound(rows, root, w, parent, n - 1);
    }
  }

  /** A found process comes after each of its ancestors that is found. */
  lemma {:induction false} AncestorsComeFirst(rows: seq<Row>, root: int, found: seq<int>, j: nat, k: nat, n: nat)
    requires UniquePids(rows) && !Descends(rows, root, root) && Distinct(found)
    requires forall i | 0 <= i < |found| :: ParentsFirst(rows, root, found, i, found[i])
    requires j < |found| && k < |found| && Reaches(rows, found[j], found[k], n)
    ensures j < k
    decreases n
  {
    var parent :| IsChild(rows, found[k], parent)
      && if n == 1 then parent == found[j] else Reaches(rows, found[j], parent, n - 1);
    assert ParentsFirst(rows, root, found, k, found[k]);
    var above :| IsChild(rows, found[k], above) && (above == root || above in found[..k]);
    OneParent(rows, found[k], parent, above);
    FoundDescends(rows, root, found, j);
    if parent == root && n > 1 {
      DescentComposes(rows, root, found[j], root, n - 1);
    }
    var i :| 0 <= i < k && found[i] == parent;
    if n > 1 {
      AncestorsComeFirst(rows, root, found, j, i, n - 1);
    }
  }

  function Reversed(pids: seq<int>): (r: seq<int>)
    ensures |r| == |pids| && forall k | 0 <= k < |r| :: r[k] == pids[|pids| - 1 - k]
  {
    seq(|pids|, k requires 0 <= k < |pids| => pids[|pids| - 1 - k])
  }

  /** `children`, grouped by parent with a loop over the table. */
  method GroupChildren(rows: seq<Row>) returns (children: map<int, seq<int>>)
    ensures forall parent :: (if parent in children then children[parent] else []) == ChildrenOf(rows, parent)
  {
    children := map[];
    for n := 0 to |rows|
      invariant forall parent :: (if parent in children then children[parent] else []) == ChildrenOf(rows[..n], parent)
    {
      assert rows[..n + 1][..n] == rows[..n];
      var list := if rows[n].parent in children then children[rows[n].parent] else [];
      children := children[rows[n].parent := list + [rows[n].pid]];
    }
    assert rows[..|rows|] == rows;
  }

  /** `findUnixDescendantPids`: each descendant of the root once and nothing else, every process
      before its ancestors. */
  method FindDescendants(rows: seq<Row>, root: int) returns (pids: seq<int>)
    requires UniquePids(rows) && !Descends(rows, root, root)
    ensures Distinct(pids)
    ensures forall pid :: pid in pids <==> Descends(rows, root, pid)
    ensures forall j, k | 0 <= j < |pids| && 0 <= k < |pids| && Descends(rows, pids[j], pids[k]) :: k < j
  {
    hide WalkInv, Step, Start, Descends, ChildrenOf, Distinct, UniquePids;
    var children := GroupChildren(rows);
    var found: seq<int> := [];
    var pending := if root in children then children[root] else [];
    ghost var n := 0;
    StartIs(rows, root);
    while |pending| > 0
      invariant Walk(pending, found) == Walked(rows, root, n)
      invariant pending != [] ==> |found| == n
      decreases |rows| + 1 - n
    {
      WalksKeepInv(rows, root, n);
      FoundFits(rows, root, Walk(pending, found));
      StepIs(rows, Walk(pending, found));
      WalksKeepInv(rows, root, n + 1);
      var current := pending[|pending| - 1];
      pending := pending[..|pending| - 1];
      found := found + [current];
      if current in children {
        pending := pending + children[current];
      } else {
        assert pending == pending + [];
      }
      n := n + 1;
    }
    WalksKeepInv(rows, root, n);
    pids := Reversed(found);
    FinishedWalk(rows, root, found);
  }

  lemma StartIs(rows: seq<Row>, root: int)
    ensures Start(rows, root) == Walk(ChildrenOf(rows, root), [])
  {
  }

  lemma StepIs(rows: seq<Row>, w: Walk)
    requires w.pending != []
    ensures var current := w.pending[|w.pending| - 1];
      Step(rows, w) == Walk(w.pending[..|w.pending| - 1] + ChildrenOf(rows, current), w.found + [current])
  {
  }

  lemma FoundIsEverything(rows: seq<Row>, root: int, found: seq<int>, pid: int)
    requires WalkInv(rows, root, Walk([], found))
    ensures pid in Reversed(found) <==> Descends(rows, root, pid)
  {
    var pids := Reversed(found);
    if pid in pids {
      var j :| 0 <= j < |pids| && pids[j] == pid;
      FoundDescends(rows, root, found, |pids| - 1 - j);
    }
    if Descends(rows, root, pid) {
      var n: nat :| Reaches(rows, root, pid, n);
      DescendantsAreFound(rows, root, Walk([], found), pid, n);
      var k :| 0 <= k < |found| && found[k] == pid;
      assert pids[|found| - 1 - k] == pid;
    }
  }

  lemma ReversedPutsAncestorsLast(rows: seq<Row>, root: int, found: seq<int>, j: nat, k: nat)
    requires UniquePids(rows) && !Descends(rows, root, root) && Distinct(found)
    requires forall i | 0 <= i < |found| :: ParentsFirst(rows, root, found, i, found[i])
    requires j < |found| && k < |found| && Descends(rows, Reversed(found)[j], Reversed(found)[k])
    ensures k < j
  {
    var from, to := Reversed(found)[j], Reversed(found)[k];
    var n: nat :| Reaches(rows, from, to, n);
    hide *;
    AncestorsComeFirst(rows, root, found, |found| - 1 - j, |found| - 1 - k, n);
  }

  /** What the finished traversal has found, turned round. */
  lemma FinishedWalk(rows: seq<Row>, root: int, found: seq<int>)
    requires UniquePids(rows) && !Descends(rows, root, root) && WalkInv(rows, root, Walk([], found))
    ensures var pids := Reversed(found);
      && Distinct(pids)
      && (forall pid :: pid in pids <==> Descends(rows, root, pid))
      && (forall j, k | 0 <= j < |pids| && 0 <= k < |pids| && Descends(rows, pids[j], pids[k]) :: k < j)
  {
    var pids := Reversed(found);
    assert found + [] == found;
    assert Distinct(found) && Distinct(pids);
    assert forall i | 0 <= i < |found| :: ParentsFirst(rows, root, found, i, found[i]) by {
      hide ParentsFirst;
      assert Walk([], found).found == found;
    }
    hide *;
    forall pid ensures pid in pids <==> Descends(rows, root, pid) {
      FoundIsEverything(rows, root, found, pid);
    }
    forall j, k | 0 <= j < |pids| && 0 <= k < |pids| && Descends(rows, pids[j], pids[k]) ensures k < j {
      ReversedPutsAncestorsLast(rows, root, found, j, k);
    }
  }

  /** The signals of `killProcessTree` on Unix: descendants first, the root last, nobody twice and
      every process before its ancestors. */
  method SignalOrder(rows: seq<Row>, pid: int) returns (targets: seq<int>)
    requires UniquePids(rows) && !Descends(rows, pid, pid)
    ensures pid <= 0 ==> targets == []
    ensures pid > 0 ==> Distinct(targets) && targets != [] && targets[|targets| - 1] == pid
    ensures pid > 0 ==> forall target :: target in targets <==> target == pid || Descends(rows, pid, target)
    ensures forall j, k | 0 <= j < |targets| && 0 <= k < |targets| && Descends(rows, targets[j], targets[k]) :: k < j
  {
    if pid <= 0 {
      return [];
    }
    var pids := FindDescendants(rows, pid);
    targets := pids + [pid];
    forall j, k | 0 <= j < |targets| && 0 <= k < |targets| && Descends(rows, targets[j], targets[k]) ensures k < j {
      if k == |pids| && j < |pids| {
        assert pids[j] in pids;
        var n: nat :| Reaches(rows, pids[j], pid, n);
        DescentComposes(rows, pid, pids[j], pid, n);
      }
    }
  }
}
