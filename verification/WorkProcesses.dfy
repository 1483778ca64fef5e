/** Work processes form a forest by their parent links; sections show some of them. */
module WorkProcesses {
  import opened Common
  import opened ParentChains

  datatype Process = Process(name: string, section: Option<Id>, parent: Option<Id>)

  type Table = map<Id, Process>

  function Links(t: Table): Graph {
    map id | id in t :: t[id].parent
  }

  ghost predicate Forest(t: Table) {
    && Acyclic(Links(t))
    && forall id :: id in t && t[id].parent.Some? ==> t[id].parent.value in t
  }

  datatype Change = Keep | Detach | AttachTo(parent: Id)

  datatype Answer = Done | Missing | OwnParent | NoSuchParent | Circular | NothingToDo | LinesAttached

  // ---- create and patch ----

  function CreateAnswer(t: Table, parent: Option<Id>): Answer {
    if parent.Some? && parent.value !in t then NoSuchParent else Done
  }

  function PatchAnswer(t: Table, id: Id, name: Option<string>, change: Change): Answer {
    if id !in t then Missing
    else if change == AttachTo(id) then OwnParent
    else if change.AttachTo? && change.parent !in t then NoSuchParent
    else if change.AttachTo? && WalkFinds(Links(t), id, t[change.parent].parent, {change.parent}, HOPS) then Circular
    else if name.None? && change == Keep then NothingToDo
    else Done
  }

  function Patched(t: Table, id: Id, name: Option<string>, change: Change): Table
    requires id in t
  {
    var named := if name.Some? then t[id].(name := name.value) else t[id];
    t[id := match change
            case Keep => named
            case Detach => named.(parent := None)
            case AttachTo(p) => named.(parent := Some(p))]
  }

  // ---- delete ----

  /** The children of a row, in the order the rows are listed. */
  function Children(t: Table, rows: seq<Id>, id: Id): (children: seq<Id>)
    ensures forall c :: c in children <==> c in rows && c in t && t[c].parent == Some(id)
  {
    if rows == [] then []
    else (if rows[0] in t && t[rows[0]].parent == Some(id) then [rows[0]] else []) + Children(t, rows[1..], id)
  }

  const MAX_QUEUE := 100

  /** What a delete leaves: the row gone, the collected rows without section, its children without parent. */
  function Deleted(t: Table, id: Id, collected: set<Id>): Table {
    map i | i in t && i != id ::
      t[i].(section := if i in collected then None else t[i].section,
            parent := if t[i].parent == Some(id) then None else t[i].parent)
  }

  ghost predicate Distinct(s: seq<Id>) {
    forall i, j :: 0 <= i < j < |s| ==> s[i] != s[j]
  }

  /** The row and everything below it. */
  ghost function Subtree(t: Table, id: Id): set<Id> {
    set i | i in t && Under(Links(t), i, id)
  }

  /** Every row is listed once, and none is its own parent. */
  ghost predicate Listed(t: Table, rows: seq<Id>) {
    && Distinct(rows) && (forall id :: id in rows <==> id in t)
    && forall id :: id in t ==> t[id].parent != Some(id)
  }

  class ProcessTable {
    var processes: Table
    var rows: seq<Id>
    var lineProcess: map<Id, Id>

    ghost predicate Valid()
      reads this
    {
      Listed(processes, rows)
    }

    constructor ()
      ensures Valid() && processes == map[] && lineProcess == map[] && Forest(processes)
    {
      processes, rows, lineProcess := map[], [], map[];
    }

    method Create(id: Id, name: string, section: Option<Id>, parent: Option<Id>) returns (answer: Answer)
      requires Valid() && id !in processes
      modifies this
      ensures Valid() && answer == CreateAnswer(old(processes), parent)
      ensures processes == if answer.Done? then old(processes)[id := Process(name, section, parent)] else old(processes)
      ensures lineProcess == old(lineProcess)
    {
      if parent.Some? && parent.value !in processes {
        return NoSuchParent;
      }
      processes := processes[id := Process(name, section, parent)];
      rows := rows + [id];
      return Done;
    }

    method Patch(id: Id, name: Option<string>, change: Change) returns (answer: Answer)
      requires Valid()
      modifies this`processes
      ensures Valid() && answer == PatchAnswer(old(processes), id, name, change)
      ensures processes == if answer.Done? then Patched(old(processes), id, name, change) else old(processes)
    {
      if id !in processes {
        return Missing;
      }
      if change == AttachTo(id) {
        return OwnParent;
      }
      if change.AttachTo? {
        if change.parent !in processes {
          return NoSuchParent;
        }
        var circular := WalkUp(Links(processes), id, change.parent);
        if circular {
          return Circular;
        }
      }
      if name.None? && change == Keep {
        return NothingToDo;
      }
      processes := Patched(processes, id, name, change);
      return Done;
    }

    /** Appending the rows not yet in the queue. */
    static method EnqueueAll(queue: seq<Id>, children: seq<Id>) returns (next: seq<Id>, added: seq<Id>)
      ensures next == Enqueue(queue, children) && next == queue + added
    {
      next, added := queue, [];
      var k := 0;
      assert children[0..] == children;
      while k < |children|
        invariant 0 <= k <= |children|
        invariant Enqueue(next, children[k..]) == Enqueue(queue, children)
        invariant next == queue + added
      {
        EnqueueStep(next, children, k);
        if children[k] !in next {
          next, added := next + [children[k]], added + [children[k]];
        }
        k := k + 1;
      }
      EnqueueNone(next);
      assert children[k..] == [];
    }

    /**
     Collecting the rows below one, level by level, following at most a hundred of them; and
     the row's own children apart.
     */
    method Collect(id: Id) returns (queue: seq<Id>, direct: seq<Id>)
      requires Valid() && id in processes
      ensures Gathered(processes, id, queue)
      ensures forall c :: c in direct <==> c in processes && processes[c].parent == Some(id)
      ensures forall c :: c in direct ==> c in queue
      ensures |queue| > MAX_QUEUE || forall c :: c in Subtree(processes, id) ==> c in queue
    {
      hide Gathered, Subtree, Followed, Enqueue, Listed, Distinct;
      queue, direct := [id], [];
      GatherFirst(processes, id);
      var i := 0;
      while i < |queue| && i < MAX_QUEUE
        invariant 0 <= i <= |queue| && i <= MAX_QUEUE
        invariant Gathered(processes, id, queue) && Followed(processes, queue, i)
        invariant i == 0 ==> queue == [id]
        invariant i > 0 ==> forall c :: c in direct <==> c in processes && processes[c].parent == Some(id)
        invariant |queue| > 0 && (i == 0 ==> direct == []) && forall c :: c in direct ==> c in queue
        decreases MAX_QUEUE - i
      {
        var current := queue[i];
        var children := Children(processes, rows, current);
        LevelKeeps(processes, rows, id, queue, i);
        var added: seq<Id>;
        queue, added := EnqueueAll(queue, children);
        if i == 0 {
          FirstLevel(processes, rows, id);
          direct := added;
        }
        i := i + 1;
      }
      if i == |queue| {
        GatheredAll(processes, id, queue);
      }
    }

    method Delete(id: Id) returns (answer: Answer)
      requires Valid()
      modifies this`processes, this`rows
      ensures Valid()
      ensures answer == if id !in old(processes) then Missing
                        else if exists line :: line in lineProcess && lineProcess[line] == id then LinesAttached
                        else Done
      ensures !answer.Done? ==> processes == old(processes)
      ensures answer.Done? ==> DeletedSome(old(processes), id, processes)
    {
      hide Subtree, Listed, Distinct, Gathered, Deleted;
      if id !in processes {
        return Missing;
      }
      if exists line :: line in lineProcess && lineProcess[line] == id {
        return LinesAttached;
      }
      var queue, direct := Collect(id);
      var collected := set c | c in queue;
      CollectedIs(processes, id, queue, collected);
      ghost var was := processes;
      processes := SectionsCleared(processes, set c | c in queue && c != id);
      processes := ParentsCleared(processes, set c | c in direct);
      processes := processes - {id};
      rows := Without(rows, id);
      DeletedBySteps(was, id, queue, direct);
      DeletedListed(was, old(rows), id, collected);
      assert DeletedSome(was, id, processes);
      return Done;
    }
  }

  /** A delete that collected the children and all of the subtree, or more than a hundred rows of it. */
  ghost predicate DeletedSome(t: Table, id: Id, after: Table) {
    exists collected ::
      && collected <= Subtree(t, id)
      && (forall c :: c in t && t[c].parent == Some(id) ==> c in collected)
      && (collected == Subtree(t, id) || |collected| > MAX_QUEUE)
      && after == Deleted(t, id, collected)
  }

  /** Clearing the section, or the parent, of several rows. */
  function SectionsCleared(t: Table, ids: set<Id>): Table {
    map i | i in t :: if i in ids then t[i].(section := None) else t[i]
  }

  function ParentsCleared(t: Table, ids: set<Id>): Table {
    map i | i in t :: if i in ids then t[i].(parent := None) else t[i]
  }

  lemma DeletedBySteps(t: Table, id: Id, queue: seq<Id>, direct: seq<Id>)
    requires forall c :: c in direct <==> c in t && t[c].parent == Some(id)
    ensures ParentsCleared(SectionsCleared(t, set c | c in queue && c != id), set c | c in direct) - {id}
         == Deleted(t, id, set c | c in queue)
  {
  }

  lemma DeletedListed(t: Table, rows: seq<Id>, id: Id, collected: set<Id>)
    requires Listed(t, rows)
    ensures Listed(Deleted(t, id, collected), Without(rows, id))
  {
  }

  function Without(s: seq<Id>, id: Id): (rest: seq<Id>)
    ensures forall c :: c in rest <==> c in s && c != id
    ensures Distinct(s) ==> Distinct(rest)
  {
    if s == [] then []
    else
      var others := Without(s[1..], id);
      assert Distinct(s) ==> Distinct(s[1..]) && s[0] !in s[1..];
      if s[0] == id then others else [s[0]] + others
  }

  // ---- collecting ----

  /** Distinct rows of the subtree, the row itself first. */
  ghost predicate Gathered(t: Table, id: Id, queue: seq<Id>) {
    && queue != [] && queue[0] == id && Distinct(queue)
    && forall c :: c in queue ==> c in Subtree(t, id)
  }

  /** The children of the first `i` rows are in the queue. */
  ghost predicate Followed(t: Table, queue: seq<Id>, i: nat) {
    i <= |queue| && forall j, c :: 0 <= j < i && c in t && t[c].parent == Some(queue[j]) ==> c in queue
  }

  function Enqueue(queue: seq<Id>, children: seq<Id>): seq<Id>
    decreases |children|
  {
    if children == [] then queue
    else Enqueue(if children[0] in queue then queue else queue + [children[0]], children[1..])
  }

  lemma EnqueueStep(queue: seq<Id>, children: seq<Id>, k: nat)
    requires k < |children|
    ensures Enqueue(queue, children[k..])
         == Enqueue(if children[k] in queue then queue else queue + [children[k]], children[k + 1..])
  {
    assert children[k..][1..] == children[k + 1..];
  }

  lemma EnqueueNone(queue: seq<Id>)
    ensures Enqueue(queue, []) == queue
  {
  }

  lemma {:induction false} EnqueueAdds(queue: seq<Id>, children: seq<Id>)
    requires Distinct(queue)
    ensures queue <= Enqueue(queue, children) && Distinct(Enqueue(queue, children))
    ensures forall c :: c in Enqueue(queue, children) <==> c in queue || c in children
    decreases |children|
  {
    if children != [] {
      EnqueueAdds(if children[0] in queue then queue else queue + [children[0]], children[1..]);
    }
  }

  lemma GatherFirst(t: Table, id: Id)
    requires id in t
    ensures Gathered(t, id, [id]) && Followed(t, [id], 0)
  {
    assert Up(Links(t), id, 0) == Some(id);
  }

  lemma LevelKeeps(t: Table, rows: seq<Id>, id: Id, queue: seq<Id>, i: nat)
    requires Gathered(t, id, queue) && Followed(t, queue, i) && i < |queue|
    requires Listed(t, rows)
    ensures var next := Enqueue(queue, Children(t, rows, queue[i]));
            queue <= next && Gathered(t, id, next) && Followed(t, next, i + 1)
  {
    hide Subtree;
    var children := Children(t, rows, queue[i]);
    EnqueueAdds(queue, children);
    forall c | c in children ensures c in Subtree(t, id) {
      assert queue[i] in queue;
      ChildUnder(t, c, queue[i], id);
    }
    var next := Enqueue(queue, children);
    assert forall j :: 0 <= j <= i ==> next[j] == queue[j];
  }

  lemma FirstLevel(t: Table, rows: seq<Id>, id: Id)
    requires Listed(t, rows) && id in t
    ensures var next := Enqueue([id], Children(t, rows, id));
            |next| > 0 && forall c :: c in next[1..] <==> c in t && t[c].parent == Some(id)
  {
    var children := Children(t, rows, id);
    EnqueueAdds([id], children);
    var next := Enqueue([id], children);
    assert next == [id] + next[1..] && next[0] == id;
  }

  lemma ChildUnder(t: Table, child: Id, current: Id, id: Id)
    requires child in t && t[child].parent == Some(current) && current in Subtree(t, id)
    ensures child in Subtree(t, id)
  {
    var n: nat :| Up(Links(t), current, n) == Some(id);
    assert Up(Links(t), child, n + 1) == Some(id);
  }

  /** A queue followed to its end holds the whole subtree. */
  lemma GatheredAll(t: Table, id: Id, queue: seq<Id>)
    requires Gathered(t, id, queue) && Followed(t, queue, |queue|)
    ensures forall c :: c in Subtree(t, id) ==> c in queue
  {
    forall c | c in Subtree(t, id) ensures c in queue {
      ClosedHolds(t, id, queue, c);
    }
  }

  lemma {:induction false} DistinctCount(s: seq<Id>, all: set<Id>)
    requires Distinct(s) && all == set c | c in s
    ensures |all| == |s|
    decreases |s|
  {
    if s != [] {
      var last := s[|s| - 1];
      var init := s[..|s| - 1];
      var rest := set c | c in init;
      DistinctCount(init, rest);
      assert s == init + [last];
      assert last !in rest && all == rest + {last};
    }
  }

  lemma CollectedIs(t: Table, id: Id, queue: seq<Id>, collected: set<Id>)
    requires Gathered(t, id, queue) && collected == set c | c in queue
    requires |queue| > MAX_QUEUE || forall c :: c in Subtree(t, id) ==> c in queue
    ensures collected <= Subtree(t, id) && (collected == Subtree(t, id) || |collected| > MAX_QUEUE)
  {
    DistinctCount(queue, collected);
  }

  /** In particular, of a subtree of at most a hundred rows everything is collected. */
  lemma SmallSubtreeWhole(t: Table, id: Id, after: Table)
    requires DeletedSome(t, id, after) && |Subtree(t, id)| <= 100
    ensures after == Deleted(t, id, Subtree(t, id))
  {
    hide Subtree, Deleted;
    var collected :| && collected <= Subtree(t, id)
                     && (collected == Subtree(t, id) || |collected| > MAX_QUEUE)
                     && after == Deleted(t, id, collected);
    SubsetSize(collected, Subtree(t, id));
  }

  lemma {:induction false} SubsetSize(a: set<Id>, b: set<Id>)
    requires a <= b
    ensures |a| <= |b|
    decreases a
  {
    if a != {} {
      var x :| x in a;
      SubsetSize(a - {x}, b - {x});
    }
  }

  /** A set holding a row and every child of its members holds the whole subtree. */
  lemma ClosedHolds(t: Table, id: Id, members: seq<Id>, c: Id)
    requires id in members && c in Subtree(t, id)
    requires forall p, k :: p in members && k in t && t[k].parent == Some(p) ==> k in members
    ensures c in members
  {
    var n: nat :| Up(Links(t), c, n) == Some(id);
    ClosedUp(t, id, members, c, n);
  }

  lemma {:induction false} ClosedUp(t: Table, id: Id, members: seq<Id>, c: Id, n: nat)
    requires id in members && Up(Links(t), c, n) == Some(id)
    requires forall p, k :: p in members && k in t && t[k].parent == Some(p) ==> k in members
    ensures c in members
    decreases n
  {
    if n > 0 {
      ClosedUp(t, id, members, t[c].parent.value, n - 1);
    }
  }

  // ---- the forest over every operation ----

  lemma CreateKeepsForest(t: Table, id: Id, process: Process)
    requires Forest(t) && id !in t && CreateAnswer(t, process.parent).Done?
    ensures Forest(t[id := process])
  {
    var g, h := Links(t), Links(t[id := process]);
    if process.parent.Some? {
      if n: nat :| Up(g, process.parent.value, n) == Some(id) {
        ChainStaysInside(t, process.parent.value, n);
      }
      AttachKeeps(g, id, process.parent.value);
      assert h == g[id := process.parent];
    } else {
      FewerLinksKeep(g, h);
    }
  }

  lemma {:induction false} ChainStaysInside(t: Table, id: Id, n: nat)
    requires Forest(t) && id in t && Up(Links(t), id, n).Some?
    ensures Up(Links(t), id, n).value in t
    decreases n
  {
    if n > 0 {
      ChainStaysInside(t, t[id].parent.value, n - 1);
    }
  }

  /** A patch is refused as circular only if it would close a cycle: in any table, forest or not. */
  lemma CircularOnlyIfCycle(t: Table, id: Id, name: Option<string>, change: Change)
    requires PatchAnswer(t, id, name, change).Circular?
    ensures !Acyclic(Links(Patched(t, id, name, change)))
  {
    var g := Links(t);
    WalkFindsAncestors(g, id, change.parent, {change.parent}, HOPS);
    AttachCloses(g, id, change.parent);
    assert Links(Patched(t, id, name, change)) == g[id := Some(change.parent)];
  }

  /** What a patch of a forest answers, in order of its checks, and what an accepted one writes. */
  lemma PatchExactly(t: Table, id: Id, name: Option<string>, change: Change)
    requires Forest(t)
    ensures PatchAnswer(t, id, name, change)
         == if id !in t then Missing
            else match change
                 case Keep => if name.None? then NothingToDo else Done
                 case Detach => Done
                 case AttachTo(p) =>
                   if p == id then OwnParent else if p !in t then NoSuchParent
                   else if Within(Links(t), p, id, 50) then Circular else Done
    ensures id in t ==>
              Patched(t, id, name, change)
              == t[id := Process(if name.Some? then name.value else t[id].name, t[id].section,
                                 match change case Keep => t[id].parent case Detach => None case AttachTo(p) => Some(p))]
  {
    hide Within, WalkFinds, Acyclic;
    if change.AttachTo? && change.parent in t {
      WalkFindsExactly(Links(t), id, change.parent, HOPS);
    }
  }

  /**
   An accepted patch leaves a forest, unless it attaches the row under one of its own
   descendants more than fifty links below; and then it always closes a cycle.
   */
  lemma AcceptedPatchExactly(t: Table, id: Id, name: Option<string>, change: Change)
    requires Forest(t) && PatchAnswer(t, id, name, change).Done?
    ensures Forest(Patched(t, id, name, change))
       <==> !(change.AttachTo? && exists k: nat :: k > 50 && Up(Links(t), change.parent, k) == Some(id))
  {
    var g, h := Links(t), Links(Patched(t, id, name, change));
    if change.AttachTo? {
      assert h == g[id := Some(change.parent)];
      WalkFindsExactly(g, id, change.parent, HOPS);
      BoundedGuardExactly(g, id, change.parent, HOPS);
    } else {
      FewerLinksKeep(g, h);
    }
  }

  /** With at most fifty ancestors above the new parent, the guard is exact. */
  lemma ShallowPatchExactly(t: Table, id: Id, name: Option<string>, change: Change)
    requires Forest(t) && id in t && change.AttachTo? && change.parent in t && change.parent != id
    requires Up(Links(t), change.parent, 51).None?
    ensures PatchAnswer(t, id, name, change).Circular? <==> !Acyclic(Links(Patched(t, id, name, change)))
  {
    var g := Links(t);
    assert Links(Patched(t, id, name, change)) == g[id := Some(change.parent)];
    WalkFindsExactly(g, id, change.parent, HOPS);
    ShallowIsExact(g, id, change.parent, HOPS);
  }

  /** A delete keeps a forest, whatever it collected. */
  lemma DeleteKeepsForest(t: Table, id: Id, collected: set<Id>)
    requires Forest(t)
    ensures Forest(Deleted(t, id, collected))
  {
    FewerLinksKeep(Links(t), Links(Deleted(t, id, collected)));
  }

  /** A delete of a subtree of at most a hundred rows: every row below loses its section, no other row changes. */
  lemma DeleteClearsSubtree(t: Table, id: Id, i: Id)
    requires i in t && i != id
    ensures var after := Deleted(t, id, Subtree(t, id));
            && i in after && id !in after
            && after[i].name == t[i].name
            && after[i].section == (if Under(Links(t), i, id) then None else t[i].section)
            && after[i].parent == (if t[i].parent == Some(id) then None else t[i].parent)
            && (!Under(Links(t), i, id) ==> after[i] == t[i])
            && !Under(Links(after), i, id)
  {
    var g, after := Links(t), Deleted(t, id, Subtree(t, id));
    if t[i].parent == Some(id) {
      assert Up(g, id, 0) == Some(id);
      assert Up(g, i, 1) == Some(id);
    }
    if n: nat :| Up(Links(after), i, n) == Some(id) {
      NeverReaches(t, id, Subtree(t, id), i, n);
    }
  }

  /** After the delete no chain leads to the deleted row. */
  lemma {:induction false} NeverReaches(t: Table, id: Id, collected: set<Id>, i: Id, n: nat)
    requires i != id
    ensures Up(Links(Deleted(t, id, collected)), i, n) != Some(id)
    decreases n
  {
    var h := Links(Deleted(t, id, collected));
    if n > 0 && i in h && h[i].Some? {
      NeverReaches(t, id, collected, h[i].value, n - 1);
    }
  }

  // ---- runs ----

  datatype Operation =
    | Creating(id: Id, process: Process)
    | Patching(id: Id, name: Option<string>, change: Change)
    | Deleting(id: Id, collected: set<Id>)

  /** One operation on the table; refused ones change nothing. */
  function After(t: Table, op: Operation): Table {
    match op
    case Creating(id, process) => if id !in t && CreateAnswer(t, process.parent).Done? then t[id := process] else t
    case Patching(id, name, change) => if PatchAnswer(t, id, name, change).Done? then Patched(t, id, name, change) else t
    case Deleting(id, collected) => Deleted(t, id, collected)
  }

  function AfterAll(t: Table, ops: seq<Operation>): Table
    decreases |ops|
  {
    if ops == [] then t else AfterAll(After(t, ops[0]), ops[1..])
  }

  /** Every row is attached only under parents with at most fifty ancestors. */
  ghost predicate Shallow(t: Table, ops: seq<Operation>)
    decreases |ops|
  {
    ops == [] ||
    (&& (ops[0].Patching? && ops[0].change.AttachTo? ==> Up(Links(t), ops[0].change.parent, HOPS + 1).None?)
     && Shallow(After(t, ops[0]), ops[1..]))
  }

  lemma {:induction false} RunsKeepForest(t: Table, ops: seq<Operation>)
    requires Forest(t) && Shallow(t, ops)
    ensures Forest(AfterAll(t, ops))
    decreases |ops|
  {
    if ops != [] {
      StepKeepsForest(t, ops[0]);
      RunsKeepForest(After(t, ops[0]), ops[1..]);
    }
  }

  lemma StepKeepsForest(t: Table, op: Operation)
    requires Forest(t)
    requires op.Patching? && op.change.AttachTo? ==> Up(Links(t), op.change.parent, HOPS + 1).None?
    ensures Forest(After(t, op))
  {
    match op
    case Creating(id, process) =>
      if id !in t && CreateAnswer(t, process.parent).Done? {
        CreateKeepsForest(t, id, process);
      }
    case Patching(id, name, change) =>
      if PatchAnswer(t, id, name, change).Done? {
        if change.AttachTo? {
          forall k: nat | k > HOPS ensures Up(Links(t), change.parent, k) != Some(id) {
            if Up(Links(t), change.parent, k).Some? {
              UpStaysDefined(Links(t), change.parent, HOPS + 1, k);
            }
          }
        }
        AcceptedPatchExactly(t, id, name, change);
      }
    case Deleting(id, collected) =>
      DeleteKeepsForest(t, id, collected);
  }
}
