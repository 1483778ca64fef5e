/** Parent links as a graph: each row names at most one parent. */
module ParentChains {
  import opened Common

  type Id = nat
  type Graph = map<Id, Option<Id>>

  /** The ancestor `n` links up. */
  function Up(g: Graph, id: Id, n: nat): Option<Id>
    decreases n
  {
    if n == 0 then Some(id)
    else if id in g && g[id].Some? then Up(g, g[id].value, n - 1)
    else None
  }

  ghost predicate Acyclic(g: Graph) {
    forall id: Id, n: nat :: n > 0 ==> Up(g, id, n) != Some(id)
  }

  /** `id` is `ancestor` or below it. */
  ghost predicate Under(g: Graph, id: Id, ancestor: Id) {
    exists n: nat :: Up(g, id, n) == Some(ancestor)
  }

  lemma {:induction false} UpAdds(g: Graph, id: Id, m: nat, n: nat)
    requires Up(g, id, m).Some?
    ensures Up(g, id, m + n) == Up(g, Up(g, id, m).value, n)
    decreases m
  {
    if m > 0 {
      UpAdds(g, g[id].value, m - 1, n);
    }
  }

  lemma {:induction false} UpStaysDefined(g: Graph, id: Id, m: nat, n: nat)
    requires m <= n && Up(g, id, n).Some?
    ensures Up(g, id, m).Some?
    decreases m
  {
    if m > 0 {
      UpStaysDefined(g, g[id].value, m - 1, n - 1);
    }
  }

  /** Below a changed row nothing is changed, until a chain reaches it. */
  lemma {:induction false} UpUnchanged(g: Graph, h: Graph, x: Id, id: Id, n: nat)
    requires forall i :: i != x ==> (i in g <==> i in h) && (i in g ==> g[i] == h[i])
    requires forall k :: 0 <= k < n ==> Up(g, id, k) != Some(x)
    ensures Up(h, id, n) == Up(g, id, n)
    decreases n
  {
    if n > 0 {
      assert Up(g, id, 0) == Some(id);
      if id in g && g[id].Some? {
        forall k | 0 <= k < n - 1 ensures Up(g, g[id].value, k) != Some(x) {
          assert Up(g, id, k + 1) == Up(g, g[id].value, k);
        }
        UpUnchanged(g, h, x, g[id].value, n - 1);
      }
    }
  }

  /** The least number of links that reach an ancestor. */
  lemma {:induction false} FirstReach(g: Graph, id: Id, x: Id, n: nat) returns (m: nat)
    requires Up(g, id, n) == Some(x)
    ensures m <= n && Up(g, id, m) == Some(x) && forall k :: 0 <= k < m ==> Up(g, id, k) != Some(x)
    decreases n
  {
    if k: nat :| 0 <= k < n && Up(g, id, k) == Some(x) {
      m := FirstReach(g, id, x, k);
    } else {
      m := n;
    }
  }

  /** Linking a row to a parent that is not under it keeps the graph acyclic. */
  lemma AttachKeeps(g: Graph, x: Id, p: Id)
    requires Acyclic(g) && !Under(g, p, x)
    ensures Acyclic(g[x := Some(p)])
  {
    var h := g[x := Some(p)];
    forall id: Id, n: nat | n > 0 ensures Up(h, id, n) != Some(id) {
      if Up(h, id, n) == Some(id) {
        if k: nat :| 0 <= k < n && Up(h, id, k) == Some(x) {
          UpAdds(h, id, k, n - k);
          UpAdds(h, id, n, k);
          UpAdds(h, x, n - k, k);
          assert Up(h, x, n) == Some(x);
          assert Up(h, x, n) == Up(h, p, n - 1);
          UpUnchanged(g, h, x, p, n - 1);
        } else {
          UpUnchanged(h, g, x, id, n);
        }
      }
    }
  }

  /** Linking a row to one under it closes a cycle. */
  lemma AttachCloses(g: Graph, x: Id, p: Id)
    requires Under(g, p, x)
    ensures !Acyclic(g[x := Some(p)])
  {
    var h := g[x := Some(p)];
    var n: nat :| Up(g, p, n) == Some(x);
    var m := FirstReach(g, p, x, n);
    UpUnchanged(g, h, x, p, m);
    assert Up(h, x, m + 1) == Up(h, p, m);
  }

  /** A new row, and detached rows, close no cycle. */
  lemma FewerLinksKeep(g: Graph, h: Graph)
    requires Acyclic(g)
    requires forall i :: i in h && h[i].Some? ==> i in g && g[i] == h[i]
    ensures Acyclic(h)
  {
    forall id: Id, n: nat | n > 0 ensures Up(h, id, n) != Some(id) {
      if Up(h, id, n) == Some(id) {
        UpFewer(g, h, id, n);
      }
    }
  }

  lemma {:induction false} UpFewer(g: Graph, h: Graph, id: Id, n: nat)
    requires forall i :: i in h && h[i].Some? ==> i in g && g[i] == h[i]
    requires Up(h, id, n).Some?
    ensures Up(g, id, n) == Up(h, id, n)
    decreases n
  {
    if n > 0 {
      UpFewer(g, h, h[id].value, n - 1);
    }
  }

  // ---- the guard of the work-process routes ----

  const HOPS := 50

  /** Walking up from `cursor` for at most `hops` rows, stopping at a row seen before or missing. */
  function WalkFinds(g: Graph, x: Id, cursor: Option<Id>, seen: set<Id>, hops: nat): bool
    decreases hops
  {
    hops > 0 && cursor.Some? &&
    (cursor.value == x
     || (cursor.value !in seen && cursor.value in g && WalkFinds(g, x, g[cursor.value], seen + {cursor.value}, hops - 1)))
  }

  method WalkUp(g: Graph, x: Id, p: Id) returns (found: bool)
    requires p in g
    ensures found == WalkFinds(g, x, g[p], {p}, 50)
  {
    var cursor, seen, hops := g[p], {p}, 0;
    while hops < HOPS && cursor.Some?
      invariant hops <= HOPS
      invariant WalkFinds(g, x, cursor, seen, HOPS - hops) == WalkFinds(g, x, g[p], {p}, HOPS)
    {
      if cursor.value == x {
        return true;
      }
      if cursor.value in seen {
        return false;
      }
      seen := seen + {cursor.value};
      if cursor.value !in g {
        return false;
      }
      cursor := g[cursor.value];
      hops := hops + 1;
    }
    return false;
  }

  /** `x` is between one and `bound` links above `p`. */
  ghost predicate Within(g: Graph, p: Id, x: Id, bound: nat) {
    Among(g, p, x, 1, bound)
  }

  ghost predicate Among(g: Graph, p: Id, x: Id, least: nat, bound: nat) {
    exists k: nat :: least <= k <= bound && Up(g, p, k) == Some(x)
  }

  ghost predicate SeenIs(g: Graph, p: Id, seen: set<Id>, k: nat) {
    forall id :: id in seen <==> exists j :: 0 <= j < k && Up(g, p, j) == Some(id)
  }

  lemma {:induction false} WalkFindsFrom(g: Graph, x: Id, p: Id, k: nat, seen: set<Id>, hops: nat)
    requires Acyclic(g) && k > 0 && SeenIs(g, p, seen, k)
    ensures WalkFinds(g, x, Up(g, p, k), seen, hops) <==> Among(g, p, x, k, k + hops - 1)
    decreases hops
  {
    var cursor := Up(g, p, k);
    if hops > 0 && cursor.Some? && cursor.value != x {
      var c := cursor.value;
      if c in seen {
        var j :| 0 <= j < k && Up(g, p, j) == Some(c);
        UpAdds(g, p, j, k - j);
        assert false;
      }
      UpAdds(g, p, k, 1);
      assert Up(g, c, 1) == if c in g && g[c].Some? then Some(g[c].value) else None by {
        if c in g && g[c].Some? { assert Up(g, g[c].value, 0) == Some(g[c].value); }
      }
      assert SeenIs(g, p, seen + {c}, k + 1);
      WalkFindsFrom(g, x, p, k + 1, seen + {c}, hops - 1);
    } else if cursor.None? {
      forall j | k <= j && Up(g, p, j).Some? ensures false {
        UpStaysDefined(g, p, k, j);
      }
    }
  }

  /** In a forest the guard finds exactly the ancestors at most that many links up. */
  lemma WalkFindsExactly(g: Graph, x: Id, p: Id, hops: nat)
    requires Acyclic(g) && p in g
    ensures WalkFinds(g, x, g[p], {p}, hops) <==> Within(g, p, x, hops)
  {
    assert Up(g, p, 0) == Some(p);
    assert Up(g, p, 1) == g[p] by {
      if g[p].Some? { assert Up(g, g[p].value, 0) == Some(g[p].value); }
    }
    assert SeenIs(g, p, {p}, 1);
    WalkFindsFrom(g, x, p, 1, {p}, hops);
  }

  /** In any graph, what the guard finds is an ancestor. */
  lemma {:induction false} WalkFindsAncestors(g: Graph, x: Id, id: Id, seen: set<Id>, hops: nat)
    requires id in g && WalkFinds(g, x, g[id], seen, hops)
    ensures Under(g, id, x)
    decreases hops
  {
    var c := g[id].value;
    if c == x {
      assert Up(g, c, 0) == Some(x);
      assert Up(g, id, 1) == Some(x);
    } else {
      WalkFindsAncestors(g, x, c, seen + {c}, hops - 1);
      var n: nat :| Up(g, c, n) == Some(x);
      assert Up(g, id, n + 1) == Some(x);
    }
  }

  // ---- the guard of the reporting chain ----

  /** Following managers from `current`: whether one of the next `left` rows reports to `employee`. */
  function ReportsTo(g: Graph, employee: Id, current: Option<Id>, left: nat): bool
    decreases left
  {
    left > 0 && current.Some? && current.value in g &&
    (g[current.value] == Some(employee) || ReportsTo(g, employee, g[current.value], left - 1))
  }

  /** `g` holds the employees of the workspace that are not deleted. */
  method HasCircularReference(g: Graph, employee: Option<Id>, reportTo: Id, maxDepth: nat) returns (circular: bool)
    ensures circular == (employee.Some? && (employee.value == reportTo || ReportsTo(g, employee.value, Some(reportTo), maxDepth)))
  {
    if employee.None? {
      return false;
    }
    if employee.value == reportTo {
      return true;
    }
    var current, depth := Some(reportTo), 0;
    while current.Some? && depth < maxDepth
      invariant depth <= maxDepth
      invariant ReportsTo(g, employee.value, current, maxDepth - depth) == ReportsTo(g, employee.value, Some(reportTo), maxDepth)
    {
      if current.value !in g {
        break;
      }
      if g[current.value] == Some(employee.value) {
        return true;
      }
      current := g[current.value];
      depth := depth + 1;
    }
    return false;
  }

  /** The reporting guard finds exactly the managers within its depth, cycles or not. */
  lemma {:induction false} ReportsToExactly(g: Graph, employee: Id, current: Id, left: nat)
    ensures ReportsTo(g, employee, Some(current), left) <==> Within(g, current, employee, left)
    decreases left
  {
    if left > 0 && current in g && g[current].Some? {
      var boss := g[current].value;
      assert Up(g, boss, 0) == Some(boss);
      assert Up(g, current, 1) == Some(boss);
      ReportsToExactly(g, employee, boss, left - 1);
      assert forall k :: k > 0 ==> Up(g, current, k) == Up(g, boss, k - 1);
      if Within(g, boss, employee, left - 1) {
        var k :| 1 <= k <= left - 1 && Up(g, boss, k) == Some(employee);
        assert Up(g, current, k + 1) == Some(employee);
      }
      if Within(g, current, employee, left) && boss != employee {
        var k :| 1 <= k <= left && Up(g, current, k) == Some(employee);
        assert Up(g, boss, k - 1) == Some(employee);
      }
    } else if left > 0 {
      assert forall k :: k > 0 ==> Up(g, current, k).None?;
    }
  }

  // ---- what the bound lets through ----

  /** With a self-link refused, a guard of depth `bound` misses exactly the ancestors beyond it. */
  lemma BoundedGuardExactly(g: Graph, x: Id, p: Id, bound: nat)
    requires Acyclic(g) && x != p && !Within(g, p, x, bound)
    ensures Acyclic(g[x := Some(p)]) <==> forall k: nat :: k > bound ==> Up(g, p, k) != Some(x)
  {
    if Under(g, p, x) {
      var n: nat :| Up(g, p, n) == Some(x);
      assert Up(g, p, 0) == Some(p);
      assert n > bound;
      AttachCloses(g, x, p);
      assert !Acyclic(g[x := Some(p)]);
      assert exists k: nat :: k > bound && Up(g, p, k) == Some(x);
    } else {
      AttachKeeps(g, x, p);
    }
  }

  /** A parent with at most `bound` proper ancestors is judged exactly. */
  lemma ShallowIsExact(g: Graph, x: Id, p: Id, bound: nat)
    requires Acyclic(g) && x != p && Up(g, p, bound + 1).None?
    ensures Acyclic(g[x := Some(p)]) <==> !Within(g, p, x, bound)
  {
    assert Up(g, p, 0) == Some(p);
    if Within(g, p, x, bound) {
      AttachCloses(g, x, p);
    } else {
      forall k | k > bound ensures Up(g, p, k).None? {
        if Up(g, p, k).Some? {
          UpStaysDefined(g, p, bound + 1, k);
        }
      }
      BoundedGuardExactly(g, x, p, bound);
    }
  }

  function Link(i: nat): Option<Id> {
    if i == 0 then None else Some(i - 1)
  }

  /** Row `i` under row `i - 1`, down to `n`. */
  function Chain(n: nat): Graph {
    map i | 0 <= i <= n :: Link(i)
  }

  lemma {:induction false} ChainUp(n: nat, i: nat, k: nat)
    requires i <= n
    ensures Up(Chain(n), i, k) == if k <= i then Some(i - k) else None
    decreases k
  {
    if k > 0 && i > 0 {
      ChainUp(n, i - 1, k - 1);
    }
  }

  /** Fifty-two rows in one chain: both guards let the top row be put under the bottom one. */
  lemma LongChainSlipsThrough()
    ensures var g := Chain(51);
            && Acyclic(g)
            && !WalkFinds(g, 0, g[51], {51}, 50) && !ReportsTo(g, 0, Some(51), 50)
            && !Acyclic(g[0 := Some(51)])
  {
    var g := Chain(51);
    forall id: Id, n: nat | n > 0 ensures Up(g, id, n) != Some(id) {
      if id <= 51 { ChainUp(51, id, n); }
    }
    forall k | 0 <= k <= 51 ensures Up(g, 51, k) == Some(51 - k) {
      ChainUp(51, 51, k);
    }
    assert !Within(g, 51, 0, HOPS);
    WalkFindsExactly(g, 0, 51, HOPS);
    ReportsToExactly(g, 0, 51, HOPS);
    assert Up(g, 51, 51) == Some(0);
    AttachCloses(g, 0, 51);
  }
}
