/**
 The lossless-JSON walker (packages/seams/src/session-json.ts): an explicit
 stack depth-first walk over a possibly shared or cyclic object graph, with an
 optional detached copy filled in as the walk goes.

 `Snapshot` is the recursive specification; it is shown to accept exactly the
 values from which only lossless values and no cycle can be reached.

 Every lemma turns automatic induction off: a hypothesis over all heaps is never
 what a proof here goes by, and recursive calls say which one is.
 */
module JsonWalk {
  import opened Wrappers

  type ObjId = nat

  datatype Number = Finite(value: real) | NegativeZero | NonFinite

  /** A JavaScript value; `Foreign` is undefined, a function, a symbol or a bigint. */
  datatype Val = Null | Bool(b: bool) | Str(s: string) | Num(n: Number) | Ref(id: ObjId) | Foreign

  datatype OwnKey = OwnKey(name: string, isSymbol: bool, enumerable: bool)

  /** An object: holes of a sparse array are None, `extraKeys` counts own keys other than indices and length. */
  datatype Obj =
    | ArrayObj(plainPrototype: bool, items: seq<Option<Val>>, extraKeys: nat)
    | RecordObj(plainPrototype: bool, keys: seq<OwnKey>, values: seq<Val>)

  type Heap = map<ObjId, Obj>

  predicate Distinct(keys: seq<string>) {
    forall i, j | 0 <= i < j < |keys| :: keys[i] != keys[j]
  }

  function Names(keys: seq<OwnKey>): seq<string> {
    seq(|keys|, i requires 0 <= i < |keys| => keys[i].name)
  }

  /** A key is owned once, and every key has a value. */
  ghost predicate WellFormed(h: Heap) {
    forall id <- h | h[id].RecordObj? :: |h[id].keys| == |h[id].values| && Distinct(Names(h[id].keys))
  }

  /** A detached snapshot as a tree. */
  datatype Tree = Scalar(v: Val) | ArrayTree(values: seq<Tree>) | ObjectTree(keys: seq<string>, values: seq<Tree>)

  predicate LosslessScalar(v: Val) {
    v.Null? || v.Bool? || v.Str? || (v.Num? && v.n.Finite?)
  }

  function Present(items: seq<Option<Val>>): nat {
    if items == [] then 0 else (if items[0].Some? then 1 else 0) + Present(items[1..])
  }

  /** The checks made on a container before its children are visited. */
  predicate PlainContainer(o: Obj) {
    match o
    case ArrayObj(plain, items, extra) => plain && Present(items) + extra == |items|
    case RecordObj(plain, keys, values) => plain && forall k <- keys :: !k.isSymbol && k.enumerable
  }

  function Kids(o: Obj): seq<Option<Val>> {
    match o
    case ArrayObj(_, items, _) => items
    case RecordObj(_, _, values) => seq(|values|, i requires 0 <= i < |values| => Some(values[i]))
  }

  function Build(o: Obj, trees: seq<Tree>): Tree {
    if o.ArrayObj? then ArrayTree(trees) else ObjectTree(Names(o.keys), trees)
  }

  // ---------------------------------------------------------------- recursive specification

  /** The snapshot of `v` below the containers `above`, or None when `v` is not lossless JSON there. */
  function Snapshot(h: Heap, v: Val, above: set<ObjId>): Option<Tree>
    decreases |h.Keys - above|, 0, 0
  {
    if !v.Ref? then (if LosslessScalar(v) then Some(Scalar(v)) else None)
    else if v.id in above || v.id !in h || !PlainContainer(h[v.id]) then None
    else
      assert h.Keys - (above + {v.id}) == (h.Keys - above) - {v.id};
      var trees := SnapshotAll(h, Kids(h[v.id]), above + {v.id});
      if trees.None? then None else Some(Build(h[v.id], trees.value))
  }

  function SnapshotAll(h: Heap, kids: seq<Option<Val>>, above: set<ObjId>): (r: Option<seq<Tree>>)
    ensures r.Some? ==> |r.value| == |kids|
    decreases |h.Keys - above|, 1, |kids|
  {
    if kids == [] then Some([])
    else if kids[0].None? then None
    else
      var head, tail := Snapshot(h, kids[0].value, above), SnapshotAll(h, kids[1..], above);
      if head.None? || tail.None? then None else Some([head.value] + tail.value)
  }

  lemma {:induction false} SnapshotAllPointwise(h: Heap, kids: seq<Option<Val>>, above: set<ObjId>)
    ensures SnapshotAll(h, kids, above).Some? <==>
              forall i | 0 <= i < |kids| :: kids[i].Some? && Snapshot(h, kids[i].value, above).Some?
    ensures SnapshotAll(h, kids, above).Some? ==>
              forall i | 0 <= i < |kids| :: SnapshotAll(h, kids, above).value[i] == Snapshot(h, kids[i].value, above).value
    decreases |kids|
  {
    if kids != [] {
      SnapshotAllPointwise(h, kids[1..], above);
      assert forall i | 1 <= i < |kids| :: kids[i] == kids[1..][i - 1];
      assert forall i | 0 <= i < |kids[1..]| :: kids[1..][i] == kids[i + 1];
    }
  }

  // ---------------------------------------------------------------- what the specification accepts

  /** The value reached from `v` along the child positions `p`. */
  function At(h: Heap, v: Val, p: seq<nat>): Option<Val>
    decreases |p|
  {
    if p == [] then Some(v)
    else if v.Ref? && v.id in h && p[0] < |Kids(h[v.id])| && Kids(h[v.id])[p[0]].Some?
    then At(h, Kids(h[v.id])[p[0]].value, p[1..])
    else None
  }

  /**
   Null, a boolean, a string or a finite number that is not negative zero; or an
   array with a plain prototype, no hole and no own key but its indices; or an
   object with a plain prototype all of whose own keys are enumerable strings.
   */
  predicate Lossless(h: Heap, v: Val) {
    match v
    case Null => true
    case Bool(_) => true
    case Str(_) => true
    case Num(n) => n != NegativeZero && n != NonFinite
    case Foreign => false
    case Ref(id) =>
      id in h &&
      match h[id]
      case ArrayObj(plain, items, extra) => plain && None !in items && extra == 0
      case RecordObj(plain, keys, _) => plain && !exists k <- keys :: k.isSymbol || !k.enumerable
  }

  lemma {:induction false} PresentIs(items: seq<Option<Val>>)
    ensures Present(items) <= |items| && (Present(items) == |items| <==> None !in items)
    decreases |items|
  {
    if items != [] {
      PresentIs(items[1..]);
      assert None in items <==> items[0].None? || None in items[1..];
    }
  }

  /** The checks of the walk on a container and its children's presence are those. */
  lemma {:induction false} LosslessIs(h: Heap, v: Val)
    ensures Lossless(h, v) <==>
              if v.Ref? then v.id in h && PlainContainer(h[v.id]) && forall k <- Kids(h[v.id]) :: k.Some?
              else LosslessScalar(v)
  {
    if v.Ref? && v.id in h {
      match h[v.id]
      case ArrayObj(_, items, _) =>
        PresentIs(items);
        assert (forall k <- items :: k.Some?) <==> None !in items;
      case RecordObj(_, keys, values) =>
        var kids := Kids(h[v.id]);
        assert forall k <- kids :: k.Some?;
    }
  }

  ghost predicate OnCycle(h: Heap, v: Val) {
    exists q :: q != [] && At(h, v, q) == Some(v)
  }

  /** Everything reachable is lossless and nothing reachable lies on a cycle. */
  ghost predicate LosslessTree(h: Heap, v: Val) {
    forall p | At(h, v, p).Some? :: Lossless(h, At(h, v, p).value) && !OnCycle(h, At(h, v, p).value)
  }

  /** Accepted values keep accepted below them, away from the containers above. */
  lemma {:induction false} SnapshotBelow(h: Heap, v: Val, above: set<ObjId>, p: seq<nat>) returns (inner: set<ObjId>)
    requires Snapshot(h, v, above).Some? && At(h, v, p).Some?
    ensures above <= inner && Snapshot(h, At(h, v, p).value, inner).Some?
    ensures At(h, v, p).value.Ref? ==> At(h, v, p).value.id !in above
    decreases |p|
  {
    inner := above;
    if p != [] {
      SnapshotAllPointwise(h, Kids(h[v.id]), above + {v.id});
      inner := SnapshotBelow(h, Kids(h[v.id])[p[0]].value, above + {v.id}, p[1..]);
    }
  }

  lemma {:induction false} AcceptedIsLossless(h: Heap, v: Val, above: set<ObjId>)
    requires Snapshot(h, v, above).Some?
    ensures Lossless(h, v) && !OnCycle(h, v)
  {
    LosslessIs(h, v);
    if v.Ref? {
      SnapshotAllPointwise(h, Kids(h[v.id]), above + {v.id});
      forall q | q != [] && At(h, v, q) == Some(v) ensures false {
        var inner := SnapshotBelow(h, Kids(h[v.id])[q[0]].value, above + {v.id}, q[1..]);
      }
    } else {
      assert forall q :: q != [] ==> At(h, v, q).None?;
    }
  }

  lemma {:induction false} LosslessIsAccepted(h: Heap, v: Val, above: set<ObjId>)
    requires LosslessTree(h, v)
    requires forall p | At(h, v, p).Some? && At(h, v, p).value.Ref? :: At(h, v, p).value.id !in above
    ensures Snapshot(h, v, above).Some?
    decreases |h.Keys - above|
  {
    assert At(h, v, []) == Some(v);
    LosslessIs(h, v);
    if v.Ref? {
      var kids, inner := Kids(h[v.id]), above + {v.id};
      assert h.Keys - inner == (h.Keys - above) - {v.id};
      forall i | 0 <= i < |kids| ensures kids[i].Some? && Snapshot(h, kids[i].value, inner).Some? {
        assert kids[i] in kids;
        var kid := kids[i].value;
        forall p | At(h, kid, p).Some?
          ensures At(h, v, [i] + p) == At(h, kid, p)
          ensures Lossless(h, At(h, kid, p).value) && !OnCycle(h, At(h, kid, p).value)
          ensures At(h, kid, p).value.Ref? ==> At(h, kid, p).value.id !in inner
        {
          assert ([i] + p)[1..] == p;
          assert At(h, v, [i] + p) == At(h, kid, p);
          assert At(h, v, []) == Some(v) && !OnCycle(h, v);
        }
        LosslessIsAccepted(h, kid, inner);
      }
      SnapshotAllPointwise(h, kids, inner);
    }
  }

  /** The specification accepts exactly the values with only lossless, acyclic values reachable. */
  lemma {:induction false} SnapshotIffLosslessTree(h: Heap, v: Val)
    ensures Snapshot(h, v, {}).Some? <==> LosslessTree(h, v)
  {
    if Snapshot(h, v, {}).Some? {
      forall p | At(h, v, p).Some? ensures Lossless(h, At(h, v, p).value) && !OnCycle(h, At(h, v, p).value) {
        var inner := SnapshotBelow(h, v, {}, p);
        AcceptedIsLossless(h, At(h, v, p).value, inner);
      }
    }
    if LosslessTree(h, v) { LosslessIsAccepted(h, v, {}); }
  }

  /** The subtree at child positions `p`. */
  function TreeAt(t: Tree, p: seq<nat>): Option<Tree>
    decreases |p|
  {
    if p == [] then Some(t)
    else if !t.Scalar? && p[0] < |t.values| then TreeAt(t.values[p[0]], p[1..])
    else None
  }

  /** What a node of the snapshot says about the value it stands for. */
  predicate Copies(h: Heap, t: Tree, v: Val) {
    if !v.Ref? then t == Scalar(v)
    else
      v.id in h &&
      if h[v.id].ArrayObj? then t.ArrayTree? && |t.values| == |h[v.id].items|
      else t.ObjectTree? && |t.keys| == |h[v.id].keys| && |t.values| == |h[v.id].values|
           && forall i | 0 <= i < |t.keys| :: t.keys[i] == h[v.id].keys[i].name
  }

  /** The snapshot has the positions of the value it was made from and no others, and at each the same scalar, array or object. */
  lemma {:induction false} SnapshotCopies(h: Heap, v: Val, above: set<ObjId>, p: seq<nat>)
    requires Snapshot(h, v, above).Some?
    ensures var t := TreeAt(Snapshot(h, v, above).value, p);
            (t.Some? <==> At(h, v, p).Some?) && (t.Some? ==> Copies(h, t.value, At(h, v, p).value))
    decreases |p|
  {
    if v.Ref? {
      SnapshotAllPointwise(h, Kids(h[v.id]), above + {v.id});
      if p != [] && p[0] < |Kids(h[v.id])| { SnapshotCopies(h, Kids(h[v.id])[p[0]].value, above + {v.id}, p[1..]); }
    }
  }

  // ---------------------------------------------------------------- the walk

  /** A cell of the detached copy: a scalar, or a reference to a copied container. */
  datatype Cell = Leaf(v: Val) | Node(id: nat)
  datatype Target = ArrayTarget(items: seq<Cell>) | ObjectTarget(keys: seq<string>, items: seq<Cell>)
  type Store = map<nat, Target>

  datatype Destination = Nowhere | Root | Index(target: nat, index: nat) | Property(target: nat, key: string)

  datatype Task =
    | Visit(value: Val, destination: Destination)
    | ArrayItem(source: ObjId, index: nat, target: Option<nat>)
    | ObjectProperty(source: ObjId, key: string, target: Option<nat>)
    | Leave(source: ObjId)

  function Lookup(keys: seq<OwnKey>, values: seq<Val>, key: string): Option<Val>
    requires |keys| == |values|
  {
    if keys == [] then None
    else if keys[0].name == key then Some(values[0])
    else Lookup(keys[1..], values[1..], key)
  }

  /** The value a task is about; absent for a hole. */
  function Subject(h: Heap, t: Task): Option<Val>
    requires WellFormed(h)
  {
    match t
    case Visit(v, _) => Some(v)
    case ArrayItem(s, i, _) => if s in h && h[s].ArrayObj? && i < |h[s].items| then h[s].items[i] else None
    case ObjectProperty(s, k, _) => if s in h && h[s].RecordObj? then Lookup(h[s].keys, h[s].values, k) else None
    case Leave(_) => None
  }

  function DestinationOf(t: Task): Destination {
    match t
    case Visit(_, d) => d
    case ArrayItem(_, i, target) => if target.Some? then Index(target.value, i) else Nowhere
    case ObjectProperty(_, k, target) => if target.Some? then Property(target.value, k) else Nowhere
    case Leave(_) => Nowhere
  }

  /** The task for child `k` of container `id`. */
  function ChildTask(h: Heap, id: ObjId, k: nat, target: Option<nat>): Task
    requires WellFormed(h) && id in h && k < |Kids(h[id])|
  {
    if h[id].ArrayObj? then ArrayItem(id, k, target) else ObjectProperty(id, h[id].keys[k].name, target)
  }

  /** The tasks for children `k` onwards, the first of them on top. */
  function ChildTasks(h: Heap, id: ObjId, k: nat, target: Option<nat>): seq<Task>
    requires WellFormed(h) && id in h && k <= |Kids(h[id])|
    decreases |Kids(h[id])| - k
  {
    if k == |Kids(h[id])| then [] else ChildTasks(h, id, k + 1, target) + [ChildTask(h, id, k, target)]
  }

  lemma {:induction false} LookupAt(keys: seq<OwnKey>, values: seq<Val>, k: nat)
    requires |keys| == |values| && k < |keys| && Distinct(Names(keys))
    ensures Lookup(keys, values, keys[k].name) == Some(values[k])
  {
    if k > 0 {
      assert Names(keys)[0] != Names(keys)[k];
      forall i, j | 0 <= i < j < |keys[1..]| ensures Names(keys[1..])[i] != Names(keys[1..])[j] {
        assert Names(keys)[i + 1] != Names(keys)[j + 1];
      }
      LookupAt(keys[1..], values[1..], k - 1);
    }
  }

  lemma {:induction false} ChildSubject(h: Heap, id: ObjId, k: nat, target: Option<nat>)
    requires WellFormed(h) && id in h && k < |Kids(h[id])|
    ensures Subject(h, ChildTask(h, id, k, target)) == Kids(h[id])[k]
  {
    if h[id].RecordObj? { LookupAt(h[id].keys, h[id].values, k); }
  }

  // ---- acceptance of a stack

  /** Every task on the stack will be accepted when its turn comes, `above` being the open containers now. */
  ghost predicate Accepted(h: Heap, tasks: seq<Task>, above: set<ObjId>)
    requires WellFormed(h)
    decreases |tasks|
  {
    tasks == [] ||
    var top, rest := tasks[|tasks| - 1], tasks[..|tasks| - 1];
    if top.Leave? then Accepted(h, rest, above - {top.source})
    else Subject(h, top).Some? && Snapshot(h, Subject(h, top).value, above).Some? && Accepted(h, rest, above)
  }

  lemma {:induction false} AcceptedChildren(h: Heap, base: seq<Task>, id: ObjId, k: nat, target: Option<nat>, above: set<ObjId>)
    requires WellFormed(h) && id in h && k <= |Kids(h[id])| && id !in above
    ensures Accepted(h, base + [Leave(id)] + ChildTasks(h, id, k, target), above + {id}) <==>
              SnapshotAll(h, Kids(h[id])[k..], above + {id}).Some? && Accepted(h, base, above)
    decreases |Kids(h[id])| - k
  {
    var kids, tasks := Kids(h[id]), base + [Leave(id)] + ChildTasks(h, id, k, target);
    if k == |kids| {
      assert tasks == base + [Leave(id)] && tasks[..|tasks| - 1] == base;
      assert above + {id} - {id} == above;
    } else {
      AcceptedChildren(h, base, id, k + 1, target, above);
      ChildSubject(h, id, k, target);
      assert tasks[..|tasks| - 1] == base + [Leave(id)] + ChildTasks(h, id, k + 1, target);
      assert kids[k..][0] == kids[k] && kids[k..][1..] == kids[k + 1..];
    }
  }

  // ---- termination

  function VisitCost(h: Heap, v: Val, above: set<ObjId>): nat
    decreases |h.Keys - above|, 0, 0
  {
    if v.Ref? && v.id in h && v.id !in above then
      assert h.Keys - (above + {v.id}) == (h.Keys - above) - {v.id};
      2 + KidsCost(h, Kids(h[v.id]), above + {v.id})
    else 1
  }

  function KidsCost(h: Heap, kids: seq<Option<Val>>, above: set<ObjId>): nat
    decreases |h.Keys - above|, 1, |kids|
  {
    if kids == [] then 0
    else 1 + (if kids[0].Some? then VisitCost(h, kids[0].value, above) else 0) + KidsCost(h, kids[1..], above)
  }

  function TaskCost(h: Heap, t: Task, above: set<ObjId>): nat
    requires WellFormed(h)
  {
    if t.Visit? then VisitCost(h, t.value, above)
    else 1 + if Subject(h, t).Some? then VisitCost(h, Subject(h, t).value, above) else 0
  }

  function StackCost(h: Heap, tasks: seq<Task>, above: set<ObjId>): nat
    requires WellFormed(h)
    decreases |tasks|
  {
    if tasks == [] then 0
    else
      var top, rest := tasks[|tasks| - 1], tasks[..|tasks| - 1];
      TaskCost(h, top, above) + StackCost(h, rest, if top.Leave? then above - {top.source} else above)
  }

  lemma {:induction false} StackTop(h: Heap, rest: seq<Task>, top: Task, above: set<ObjId>)
    requires WellFormed(h)
    ensures StackCost(h, rest + [top], above) == TaskCost(h, top, above) + StackCost(h, rest, if top.Leave? then above - {top.source} else above)
  {
    assert (rest + [top])[..|rest|] == rest;
  }

  lemma {:induction false} ChildCost(h: Heap, id: ObjId, k: nat, target: Option<nat>, above: set<ObjId>)
    requires WellFormed(h) && id in h && k < |Kids(h[id])|
    ensures KidsCost(h, Kids(h[id])[k..], above) == TaskCost(h, ChildTask(h, id, k, target), above) + KidsCost(h, Kids(h[id])[k + 1..], above)
  {
    ChildSubject(h, id, k, target);
    var kids := Kids(h[id]);
    assert kids[k..][0] == kids[k] && kids[k..][1..] == kids[k + 1..];
  }

  lemma {:induction false} ChildrenCost(h: Heap, base: seq<Task>, id: ObjId, k: nat, target: Option<nat>, above: set<ObjId>)
    requires WellFormed(h) && id in h && k <= |Kids(h[id])| && id !in above
    ensures StackCost(h, base + [Leave(id)] + ChildTasks(h, id, k, target), above + {id})
              == KidsCost(h, Kids(h[id])[k..], above + {id}) + 1 + StackCost(h, base, above)
    decreases |Kids(h[id])| - k
  {
    var pushed := base + [Leave(id)];
    if k == |Kids(h[id])| {
      assert pushed + [] == pushed && above + {id} - {id} == above;
      StackTop(h, base, Leave(id), above + {id});
    } else {
      var rest, top := pushed + ChildTasks(h, id, k + 1, target), ChildTask(h, id, k, target);
      assert pushed + ChildTasks(h, id, k, target) == rest + [top];
      assert !top.Leave?;
      hide StackCost;
      hide KidsCost;
      hide TaskCost;
      ChildrenCost(h, base, id, k + 1, target, above);
      ChildCost(h, id, k, target, above + {id});
      StackTop(h, rest, top, above + {id});
    }
  }

  // ---- the detached copy

  /** Write a cell: array slots by index, properties by key. */
  function Put(store: Store, d: Destination, x: Cell): Store {
    match d
    case Nowhere => store
    case Root => store
    case Index(t, i) =>
      if t in store && store[t].ArrayTarget? && i <= |store[t].items| then
        store[t := ArrayTarget(store[t].items[..i] + [x] + (if i < |store[t].items| then store[t].items[i + 1..] else []))]
      else store
    case Property(t, k) =>
      if t in store && store[t].ObjectTarget? && k !in store[t].keys then
        store[t := ObjectTarget(store[t].keys + [k], store[t].items + [x])]
      else store
  }

  /** The copy below `x` reads as `t`. */
  ghost predicate Denotes(store: Store, x: Cell, t: Tree)
    decreases t
  {
    match t
    case Scalar(v) => x == Leaf(v)
    case ArrayTree(values) =>
      && x.Node? && x.id in store && store[x.id].ArrayTarget? && |store[x.id].items| == |values|
      && forall i | 0 <= i < |values| :: Denotes(store, store[x.id].items[i], values[i])
    case ObjectTree(keys, values) =>
      && x.Node? && x.id in store && store[x.id].ObjectTarget? && store[x.id].keys == keys && |store[x.id].items| == |values|
      && forall i | 0 <= i < |values| :: Denotes(store, store[x.id].items[i], values[i])
  }

  /** Which tree each copied container is meant to become. */
  type Wanted = map<nat, Tree>

  predicate Wants(want: Wanted, x: Cell, t: Tree) {
    match x
    case Leaf(v) => t == Scalar(v)
    case Node(id) => id in want && want[id] == t
  }

  /** A partly filled container is a prefix of what it is meant to become. */
  ghost predicate Fits(want: Wanted, target: Target, t: Tree) {
    && !t.Scalar? && target.ArrayTarget? == t.ArrayTree? && |target.items| <= |t.values|
    && (t.ObjectTree? ==> |t.keys| == |t.values| && Distinct(t.keys) && target.keys == t.keys[..|target.items|])
    && forall i | 0 <= i < |target.items| :: Wants(want, target.items[i], t.values[i])
  }

  ghost predicate StoreFits(store: Store, want: Wanted) {
    store.Keys == want.Keys && forall id <- store :: Fits(want, store[id], want[id])
  }

  function Filled(store: Store): map<nat, nat> {
    map id | id in store :: |store[id].items|
  }

  /** Does writing to `d` fill child `k` of `t`? */
  predicate FillsChild(t: Tree, k: nat, d: Destination) {
    !t.Scalar? && k < |t.values| &&
    if d.Index? then t.ArrayTree? && d.index == k
    else d.Property? && t.ObjectTree? && k < |t.keys| && t.keys[k] == d.key
  }

  /** Running the stack fills every container in order with exactly the cells it is meant to get. */
  ghost predicate Plan(h: Heap, tasks: seq<Task>, above: set<ObjId>, filled: map<nat, nat>, want: Wanted)
    requires WellFormed(h)
    decreases |tasks|
  {
    if tasks == [] then filled.Keys == want.Keys && forall id <- want :: !want[id].Scalar? && filled[id] == |want[id].values|
    else
      var top, rest := tasks[|tasks| - 1], tasks[..|tasks| - 1];
      if top.Leave? then Plan(h, rest, above - {top.source}, filled, want)
      else
        var d := DestinationOf(top);
        (d.Index? || d.Property?) && d.target in filled && d.target in want &&
        FillsChild(want[d.target], filled[d.target], d) &&
        Subject(h, top).Some? &&
        Snapshot(h, Subject(h, top).value, above) == Some(want[d.target].values[filled[d.target]]) &&
        Plan(h, rest, above, filled[d.target := filled[d.target] + 1], want)
  }

  /** A container not mentioned on the stack, planned complete from the start, does not disturb a plan. */
  lemma {:induction false} PlanWithMore(h: Heap, tasks: seq<Task>, above: set<ObjId>, filled: map<nat, nat>, want: Wanted, id: nat, t: Tree)
    requires WellFormed(h) && Plan(h, tasks, above, filled, want) && id !in want && id !in filled && !t.Scalar?
    ensures Plan(h, tasks, above, filled[id := |t.values|], want[id := t])
    decreases |tasks|
  {
    if tasks != [] {
      var top, rest := tasks[|tasks| - 1], tasks[..|tasks| - 1];
      if top.Leave? {
        PlanWithMore(h, rest, above - {top.source}, filled, want, id, t);
      } else {
        var d := DestinationOf(top);
        var next := filled[d.target := filled[d.target] + 1];
        PlanWithMore(h, rest, above, next, want, id, t);
        assert next[id := |t.values|] == filled[id := |t.values|][d.target := filled[d.target] + 1];
      }
    }
  }

  lemma {:induction false} ChildFills(h: Heap, id: ObjId, k: nat, u: nat, trees: seq<Tree>)
    requires WellFormed(h) && id in h && k < |Kids(h[id])| == |trees|
    ensures var d := DestinationOf(ChildTask(h, id, k, Some(u)));
            (d.Index? || d.Property?) && d.target == u && FillsChild(Build(h[id], trees), k, d)
  {
  }

  lemma {:induction false} PlanOneMore(h: Heap, tasks: seq<Task>, above: set<ObjId>, filled: map<nat, nat>, want: Wanted, top: Task)
    requires WellFormed(h) && !top.Leave?
    requires var d := DestinationOf(top);
             && (d.Index? || d.Property?) && d.target in filled && d.target in want
             && FillsChild(want[d.target], filled[d.target], d)
             && Subject(h, top).Some?
             && Snapshot(h, Subject(h, top).value, above) == Some(want[d.target].values[filled[d.target]])
             && Plan(h, tasks, above, filled[d.target := filled[d.target] + 1], want)
    ensures Plan(h, tasks + [top], above, filled, want)
  {
    assert (tasks + [top])[..|tasks + [top]| - 1] == tasks;
  }

  /** Pushing the last child not pushed yet of a container planned as `trees`. */
  lemma {:induction false} PlanChild(h: Heap, pushed: seq<Task>, id: ObjId, k: nat, u: nat, within: set<ObjId>,
                  filled: map<nat, nat>, want: Wanted, trees: seq<Tree>)
    requires WellFormed(h) && id in h && k < |Kids(h[id])| == |trees|
    requires u in want && want[u] == Build(h[id], trees) && want[u].values == trees
    requires Kids(h[id])[k].Some? && Snapshot(h, Kids(h[id])[k].value, within) == Some(trees[k])
    requires Plan(h, pushed, within, filled[u := k + 1], want)
    ensures Plan(h, pushed + [ChildTask(h, id, k, Some(u))], within, filled[u := k], want)
  {
    hide Plan;
    hide Snapshot;
    ChildSubject(h, id, k, Some(u));
    ChildFills(h, id, k, u, trees);
    assert filled[u := k][u := k + 1] == filled[u := k + 1];
    PlanOneMore(h, pushed, within, filled[u := k], want, ChildTask(h, id, k, Some(u)));
  }

  /** Pushing the children of a container planned as `trees`, each of which is the child's snapshot. */
  lemma {:induction false} PlanChildrenFrom(h: Heap, pushed: seq<Task>, id: ObjId, k: nat, u: nat, within: set<ObjId>,
                                            filled: map<nat, nat>, want: Wanted, trees: seq<Tree>)
    requires WellFormed(h) && id in h && k <= |Kids(h[id])| == |trees|
    requires u in want && want[u] == Build(h[id], trees) && want[u].values == trees
    requires forall i | 0 <= i < |trees| :: Kids(h[id])[i].Some? && Snapshot(h, Kids(h[id])[i].value, within) == Some(trees[i])
    requires Plan(h, pushed, within, filled[u := |trees|], want)
    ensures Plan(h, pushed + ChildTasks(h, id, k, Some(u)), within, filled[u := k], want)
    decreases |trees| - k
  {
    hide Plan;
    hide Snapshot;
    if k == |trees| {
      assert pushed + [] == pushed;
    } else {
      PlanChildrenFrom(h, pushed, id, k + 1, u, within, filled, want, trees);
      PlanChild(h, pushed + ChildTasks(h, id, k + 1, Some(u)), id, k, u, within, filled, want, trees);
      assert pushed + ChildTasks(h, id, k + 1, Some(u)) + [ChildTask(h, id, k, Some(u))] == pushed + ChildTasks(h, id, k, Some(u));
    }
  }

  /** Pushing the leave task and the children of a container whose plan is its snapshot. */
  lemma {:induction false} PlanChildren(h: Heap, base: seq<Task>, id: ObjId, u: nat, above: set<ObjId>, filled: map<nat, nat>, want: Wanted)
    requires WellFormed(h) && id in h && id !in above
    requires u in want && SnapshotAll(h, Kids(h[id]), above + {id}).Some?
    requires want[u] == Build(h[id], SnapshotAll(h, Kids(h[id]), above + {id}).value)
    requires Plan(h, base, above, filled[u := |Kids(h[id])|], want)
    ensures Plan(h, base + [Leave(id)] + ChildTasks(h, id, 0, Some(u)), above + {id}, filled[u := 0], want)
  {
    hide Snapshot;
    hide SnapshotAll;
    var kids, pushed, within := Kids(h[id]), base + [Leave(id)], above + {id};
    var trees := SnapshotAll(h, kids, within).value;
    SnapshotAllPointwise(h, kids, within);
    assert pushed[..|pushed| - 1] == base && within - {id} == above;
    assert Plan(h, pushed, within, filled[u := |kids|], want);
    hide Plan;
    forall i | 0 <= i < |trees| ensures kids[i].Some? && Snapshot(h, kids[i].value, within) == Some(trees[i]) {}
    PlanChildrenFrom(h, pushed, id, 0, u, within, filled, want, trees);
  }

  /** A completely filled store reads as planned. */
  lemma {:induction false} WantedIsDenoted(store: Store, want: Wanted, x: Cell, t: Tree)
    requires StoreFits(store, want) && Wants(want, x, t)
    requires forall id <- want :: !want[id].Scalar? && |store[id].items| == |want[id].values|
    ensures Denotes(store, x, t)
    decreases t
  {
    if x.Node? {
      assert Fits(want, store[x.id], want[x.id]);
      forall i | 0 <= i < |t.values| ensures Denotes(store, store[x.id].items[i], t.values[i]) {
        WantedIsDenoted(store, want, store[x.id].items[i], t.values[i]);
      }
      if t.ObjectTree? { assert t.keys[..|t.keys|] == t.keys; }
    }
  }

  /** One more cell in a container that is a prefix of its plan. */
  function Extended(target: Target, d: Destination, x: Cell): Target {
    if target.ArrayTarget? then ArrayTarget(target.items + [x])
    else ObjectTarget(target.keys + (if d.Property? then [d.key] else []), target.items + [x])
  }

  lemma {:induction false} ExtendedFits(want: Wanted, target: Target, t: Tree, d: Destination, x: Cell)
    requires Fits(want, target, t) && FillsChild(t, |target.items|, d) && Wants(want, x, t.values[|target.items|])
    ensures Fits(want, Extended(target, d, x), t)
  {
    hide Wants;
    var n, more := |target.items|, Extended(target, d, x);
    if d.Property? { assert t.keys[..n + 1] == t.keys[..n] + [d.key]; }
    forall i | 0 <= i < n + 1 ensures Wants(want, more.items[i], t.values[i]) {
      if i < n { assert more.items[i] == target.items[i]; }
    }
  }

  lemma {:induction false} PutExtends(store: Store, want: Wanted, d: Destination, x: Cell)
    requires (d.Index? || d.Property?) && d.target in store && d.target in want
    requires Fits(want, store[d.target], want[d.target]) && FillsChild(want[d.target], |store[d.target].items|, d)
    ensures Put(store, d, x) == store[d.target := Extended(store[d.target], d, x)]
  {
    hide Wants;
    var target, t := store[d.target], want[d.target];
    var n := |target.items|;
    if d.Property? {
      forall j | 0 <= j < n ensures target.keys[j] != d.key { assert t.keys[j] != t.keys[n]; }
    } else {
      assert target.items[..n] + [x] + [] == target.items + [x];
    }
  }

  /** Writing the planned cell keeps every container a prefix of its plan. */
  lemma {:induction false} PutFits(store: Store, want: Wanted, d: Destination, x: Cell)
    requires StoreFits(store, want) && (d.Index? || d.Property?) && d.target in want
    requires FillsChild(want[d.target], |store[d.target].items|, d)
    requires Wants(want, x, want[d.target].values[|store[d.target].items|])
    ensures StoreFits(Put(store, d, x), want)
    ensures Filled(Put(store, d, x)) == Filled(store)[d.target := |store[d.target].items| + 1]
  {
    hide Fits;
    hide Put;
    hide Wants;
    assert Fits(want, store[d.target], want[d.target]);
    PutExtends(store, want, d, x);
    ExtendedFits(want, store[d.target], want[d.target], d, x);
  }

  // ---- one iteration at a time

  ghost predicate Copying(h: Heap, value: Val, tasks: seq<Task>, above: set<ObjId>, root: Option<Cell>, store: Store, want: Wanted)
    requires WellFormed(h) && Snapshot(h, value, {}).Some?
  {
    if root.None? then tasks == [Visit(value, Root)] && above == {} && store == map[] && want == map[]
    else StoreFits(store, want) && Wants(want, root.value, Snapshot(h, value, {}).value) && Plan(h, tasks, above, Filled(store), want)
  }

  /** The loop invariant of the walk. */
  ghost predicate Walking(h: Heap, value: Val, detach: bool, tasks: seq<Task>, above: set<ObjId>,
                          root: Option<Cell>, store: Store, next: nat, want: Wanted)
    requires WellFormed(h)
  {
    && (Snapshot(h, value, {}).Some? <==> Accepted(h, tasks, above))
    && (forall id <- store :: id < next)
    && (detach && Snapshot(h, value, {}).Some? ==> Copying(h, value, tasks, above, root, store, want))
  }

  /** An item or property task turns into the visit of its subject. */
  lemma {:induction false} FetchKeepsWalking(h: Heap, value: Val, detach: bool, rest: seq<Task>, top: Task, above: set<ObjId>,
                          root: Option<Cell>, store: Store, next: nat, want: Wanted)
    requires WellFormed(h) && Walking(h, value, detach, rest + [top], above, root, store, next, want)
    requires !top.Leave? && !top.Visit? && Subject(h, top).Some?
    ensures var visit := Visit(Subject(h, top).value, DestinationOf(top));
            && Walking(h, value, detach, rest + [visit], above, root, store, next, want)
            && StackCost(h, rest + [visit], above) < StackCost(h, rest + [top], above)
  {
    var visit := Visit(Subject(h, top).value, DestinationOf(top));
    assert (rest + [top])[..|rest + [top]| - 1] == rest == (rest + [visit])[..|rest + [visit]| - 1];
  }

  lemma {:induction false} LeaveKeepsWalking(h: Heap, value: Val, detach: bool, rest: seq<Task>, id: ObjId, above: set<ObjId>,
                          root: Option<Cell>, store: Store, next: nat, want: Wanted)
    requires WellFormed(h) && Walking(h, value, detach, rest + [Leave(id)], above, root, store, next, want)
    ensures Walking(h, value, detach, rest, above - {id}, root, store, next, want)
    ensures StackCost(h, rest, above - {id}) < StackCost(h, rest + [Leave(id)], above)
  {
    assert (rest + [Leave(id)])[..|rest + [Leave(id)]| - 1] == rest;
  }

  lemma {:induction false} ScalarKeepsCopying(h: Heap, value: Val, rest: seq<Task>, v: Val, d: Destination, above: set<ObjId>,
                           root: Option<Cell>, store: Store, want: Wanted)
    requires WellFormed(h) && Snapshot(h, value, {}).Some? && LosslessScalar(v)
    requires Copying(h, value, rest + [Visit(v, d)], above, root, store, want)
    ensures Copying(h, value, rest, above, if d.Root? then Some(Leaf(v)) else root, Put(store, d, Leaf(v)), want)
  {
    if root.None? {
      assert (rest + [Visit(v, d)])[|rest|] == Visit(value, Root) && rest == [];
    } else {
      PlanTop(h, rest, v, d, above, Filled(store), want);
      ScalarSnapshot(h, v, above);
      hide Plan;
      hide Snapshot;
      hide StoreFits;
      hide Put;
      PutFits(store, want, d, Leaf(v));
    }
  }

  lemma {:induction false} ScalarSnapshot(h: Heap, v: Val, above: set<ObjId>)
    requires LosslessScalar(v)
    ensures Snapshot(h, v, above) == Some(Scalar(v))
  {
  }

  lemma {:induction false} ScalarKeepsWalking(h: Heap, value: Val, detach: bool, rest: seq<Task>, v: Val, d: Destination, above: set<ObjId>,
                           root: Option<Cell>, store: Store, next: nat, want: Wanted)
    requires WellFormed(h) && Walking(h, value, detach, rest + [Visit(v, d)], above, root, store, next, want)
    requires LosslessScalar(v)
    ensures Walking(h, value, detach, rest, above, if d.Root? then Some(Leaf(v)) else root, Put(store, d, Leaf(v)), next, want)
    ensures StackCost(h, rest, above) < StackCost(h, rest + [Visit(v, d)], above)
  {
    var tasks := rest + [Visit(v, d)];
    assert tasks[..|tasks| - 1] == rest;
    hide Copying;
    if detach && Snapshot(h, value, {}).Some? { ScalarKeepsCopying(h, value, rest, v, d, above, root, store, want); }
  }

  /** A fresh, empty container planned as `t` fits, wherever its reference was written. */
  lemma {:induction false} OpenFits(store: Store, want: Wanted, u: nat, empty: Target, t: Tree)
    requires StoreFits(store, want) && u !in store && empty.items == [] && !t.Scalar?
    requires empty.ArrayTarget? == t.ArrayTree?
    requires t.ObjectTree? ==> |t.keys| == |t.values| && Distinct(t.keys) && empty.keys == []
    ensures StoreFits(store[u := empty], want[u := t]) && Filled(store[u := empty]) == Filled(store)[u := 0]
  {
    forall id | id in store ensures Fits(want[u := t], store[id], want[id]) {
      assert Fits(want, store[id], want[id]);
    }
  }

  function Empty(o: Obj): Target {
    if o.ArrayObj? then ArrayTarget([]) else ObjectTarget([], [])
  }

  /** What opening container `id` at destination `d` does to the copy: reserve `u`, reference it, start it empty. */
  function Open(h: Heap, id: ObjId, d: Destination, store: Store, u: nat): Store
    requires id in h
  {
    Put(store[u := Empty(h[id])], d, Node(u))
  }

  lemma {:induction false} OpenRoot(h: Heap, id: ObjId, u: nat)
    requires WellFormed(h) && id in h && Snapshot(h, Ref(id), {}).Some?
    ensures var t := Snapshot(h, Ref(id), {}).value;
            && StoreFits(map[u := Empty(h[id])], map[u := t])
            && Plan(h, [Leave(id)] + ChildTasks(h, id, 0, Some(u)), {id}, Filled(map[u := Empty(h[id])]), map[u := t])
  {
    var t := Snapshot(h, Ref(id), {}).value;
    OpenFits(map[], map[], u, Empty(h[id]), t);
    assert {} + {id} == {id} && [] + [Leave(id)] == [Leave(id)];
    PlanChildren(h, [], id, u, {}, map[], map[u := t]);
    assert Filled(map[u := Empty(h[id])]) == map[u := 0];
  }

  /** What a plan says about the task on top. */
  lemma {:induction false} PlanTop(h: Heap, rest: seq<Task>, v: Val, d: Destination, above: set<ObjId>, filled: map<nat, nat>, want: Wanted)
    requires WellFormed(h) && Plan(h, rest + [Visit(v, d)], above, filled, want)
    ensures (d.Index? || d.Property?) && d.target in filled && d.target in want && FillsChild(want[d.target], filled[d.target], d)
    ensures Snapshot(h, v, above) == Some(want[d.target].values[filled[d.target]])
    ensures Plan(h, rest, above, filled[d.target := filled[d.target] + 1], want)
  {
    var tasks := rest + [Visit(v, d)];
    assert tasks[..|tasks| - 1] == rest;
  }

  lemma {:induction false} OpenSlotFits(h: Heap, id: ObjId, d: Destination, store: Store, u: nat, want: Wanted, t: Tree)
    requires id in h && u !in store && StoreFits(store, want)
    requires !t.Scalar? && Empty(h[id]).ArrayTarget? == t.ArrayTree? && (t.ObjectTree? ==> |t.keys| == |t.values| && Distinct(t.keys))
    requires (d.Index? || d.Property?) && d.target in want && FillsChild(want[d.target], |store[d.target].items|, d)
    requires t == want[d.target].values[|store[d.target].items|]
    ensures StoreFits(Open(h, id, d, store, u), want[u := t])
    ensures Filled(Open(h, id, d, store, u)) == Filled(store)[d.target := |store[d.target].items| + 1][u := 0]
  {
    var started := store[u := Empty(h[id])];
    OpenFits(store, want, u, Empty(h[id]), t);
    hide StoreFits;
    hide Put;
    hide Filled;
    PutFits(started, want[u := t], d, Node(u));
    FilledSlots(store, started, u, Empty(h[id]), d.target);
  }

  lemma {:induction false} FilledSlots(store: Store, started: Store, u: nat, empty: Target, t: nat)
    requires t in store && u !in store && empty.items == [] && started == store[u := empty]
    ensures Filled(started)[t := |store[t].items| + 1] == Filled(store)[t := |store[t].items| + 1][u := 0]
  {
  }

  lemma {:induction false} OpenSlot(h: Heap, rest: seq<Task>, id: ObjId, d: Destination, above: set<ObjId>, store: Store, u: nat, want: Wanted)
    requires WellFormed(h) && id in h && id !in above && u !in store && StoreFits(store, want)
    requires Plan(h, rest + [Visit(Ref(id), d)], above, Filled(store), want)
    ensures Snapshot(h, Ref(id), above).Some?
    ensures var t := Snapshot(h, Ref(id), above).value;
            && StoreFits(Open(h, id, d, store, u), want[u := t])
            && Plan(h, rest + [Leave(id)] + ChildTasks(h, id, 0, Some(u)), above + {id}, Filled(Open(h, id, d, store, u)), want[u := t])
  {
    PlanTop(h, rest, Ref(id), d, above, Filled(store), want);
    var t := Snapshot(h, Ref(id), above).value;
    OpenSlotFits(h, id, d, store, u, want, t);
    var filled := Filled(store)[d.target := |store[d.target].items| + 1];
    PlanWithMore(h, rest, above, filled, want, u, t);
    PlanChildren(h, rest, id, u, above, filled, want[u := t]);
  }

  lemma {:induction false} ContainerKeepsCopying(h: Heap, value: Val, rest: seq<Task>, id: ObjId, d: Destination, above: set<ObjId>,
                              root: Option<Cell>, store: Store, u: nat, want: Wanted) returns (want': Wanted)
    requires WellFormed(h) && Snapshot(h, value, {}).Some? && id in h && id !in above && u !in store
    requires Copying(h, value, rest + [Visit(Ref(id), d)], above, root, store, want)
    ensures Copying(h, value, rest + [Leave(id)] + ChildTasks(h, id, 0, Some(u)), above + {id},
                    if d.Root? then Some(Node(u)) else root, Open(h, id, d, store, u), want')
  {
    if root.None? {
      assert (rest + [Visit(Ref(id), d)])[|rest|] == Visit(value, Root) && rest == [];
      assert rest + [Leave(id)] == [Leave(id)] && above + {id} == {id};
      want' := map[u := Snapshot(h, value, {}).value];
      OpenRoot(h, id, u);
      assert Open(h, id, d, store, u) == map[u := Empty(h[id])];
    } else {
      want' := want[u := Snapshot(h, Ref(id), above).GetOr(Scalar(Null))];
      PlanTop(h, rest, Ref(id), d, above, Filled(store), want);
      OpenSlot(h, rest, id, d, above, store, u, want);
      assert root.value.Node? ==> root.value.id != u;
    }
  }

  lemma {:induction false} OpenAddsOne(h: Heap, id: ObjId, d: Destination, store: Store, u: nat)
    requires id in h
    ensures Open(h, id, d, store, u).Keys == store.Keys + {u}
  {
  }

  lemma {:induction false} ContainerKeepsWalking(h: Heap, value: Val, detach: bool, rest: seq<Task>, id: ObjId, d: Destination, above: set<ObjId>,
                              root: Option<Cell>, store: Store, next: nat, want: Wanted) returns (want': Wanted)
    requires WellFormed(h) && Walking(h, value, detach, rest + [Visit(Ref(id), d)], above, root, store, next, want)
    requires id in h && id !in above && PlainContainer(h[id])
    ensures var target := if detach then Some(next) else None;
            var tasks := rest + [Leave(id)] + ChildTasks(h, id, 0, target);
            && StackCost(h, tasks, above + {id}) < StackCost(h, rest + [Visit(Ref(id), d)], above)
            && Walking(h, value, detach, tasks, above + {id}, if d.Root? then Some(Node(next)) else root,
                       if detach then Open(h, id, d, store, next) else store, if detach then next + 1 else next, want')
  {
    var target := if detach then Some(next) else None;
    ContainerCost(h, rest, id, d, above, target);
    OpenAddsOne(h, id, d, store, next);
    hide Copying;
    hide Accepted;
    hide StackCost;
    hide Open;
    hide ChildTasks;
    want' := want;
    if detach && Snapshot(h, value, {}).Some? {
      want' := ContainerKeepsCopying(h, value, rest, id, d, above, root, store, next, want);
    }
  }

  /** Opening a container changes neither the verdict nor, but for the better, the work left. */
  lemma {:induction false} ContainerCost(h: Heap, rest: seq<Task>, id: ObjId, d: Destination, above: set<ObjId>, target: Option<nat>)
    requires WellFormed(h) && id in h && id !in above && PlainContainer(h[id])
    ensures var tasks := rest + [Leave(id)] + ChildTasks(h, id, 0, target);
            && StackCost(h, tasks, above + {id}) < StackCost(h, rest + [Visit(Ref(id), d)], above)
            && (Accepted(h, tasks, above + {id}) <==> Accepted(h, rest + [Visit(Ref(id), d)], above))
  {
    var tasks := rest + [Visit(Ref(id), d)];
    assert tasks[..|tasks| - 1] == rest && Kids(h[id])[0..] == Kids(h[id]);
    AcceptedChildren(h, rest, id, 0, target, above);
    ChildrenCost(h, rest, id, 0, target, above);
  }

  // ---- no container is shared within the copy

  /** Slot `i` of container `a` refers to container `u`. */
  predicate RefersTo(store: Store, a: nat, i: nat, u: nat) {
    a in store && i < |store[a].items| && store[a].items[i] == Node(u)
  }

  /** Every container of the copy is referred to from one slot at most, and the root from none. */
  ghost predicate Unshared(store: Store, root: Option<Cell>) {
    && (forall a, i, b, j, u :: RefersTo(store, a, i, u) && RefersTo(store, b, j, u) ==> a == b && i == j)
    && (forall a, i, u :: RefersTo(store, a, i, u) ==> u in store && root != Some(Node(u)))
    && (root.Some? && root.value.Node? ==> root.value.id in store)
  }

  ghost predicate Unreferenced(store: Store, u: nat) {
    forall a, i :: !RefersTo(store, a, i, u)
  }

  /** The cell at child positions `p` below `x`. */
  function CopyAt(store: Store, x: Cell, p: seq<nat>): Option<Cell>
    decreases |p|
  {
    if p == [] then Some(x)
    else if x.Node? && x.id in store && p[0] < |store[x.id].items| then CopyAt(store, store[x.id].items[p[0]], p[1..])
    else None
  }

  lemma {:induction false} LastStep(store: Store, x: Cell, p: seq<nat>, u: nat) returns (a: nat)
    requires p != [] && CopyAt(store, x, p) == Some(Node(u))
    ensures CopyAt(store, x, p[..|p| - 1]) == Some(Node(a)) && RefersTo(store, a, p[|p| - 1], u)
    decreases |p|
  {
    if |p| == 1 {
      a := x.id;
    } else {
      a := LastStep(store, store[x.id].items[p[0]], p[1..], u);
      assert p[..|p| - 1][1..] == p[1..][..|p| - 2];
    }
  }

  /** Containers at different positions of an unshared copy are different containers. */
  lemma {:induction false} PositionsAreDistinct(store: Store, x: Cell, p: seq<nat>, q: seq<nat>, u: nat)
    requires Unshared(store, Some(x)) && CopyAt(store, x, p) == Some(Node(u)) == CopyAt(store, x, q)
    ensures p == q
    decreases |p|
  {
    if p == [] || q == [] {
      if p != [] { var a := LastStep(store, x, p, u); }
      if q != [] { var a := LastStep(store, x, q, u); }
    } else {
      var a := LastStep(store, x, p, u);
      var b := LastStep(store, x, q, u);
      PositionsAreDistinct(store, x, p[..|p| - 1], q[..|q| - 1], a);
      assert p == p[..|p| - 1] + [p[|p| - 1]] && q == q[..|q| - 1] + [q[|q| - 1]];
    }
  }

  /** One more slot, holding a leaf or the only reference to a container. */
  lemma {:induction false} ExtendUnshared(store: Store, root: Option<Cell>, d: Destination, x: Cell)
    requires Unshared(store, root) && (d.Index? || d.Property?) && d.target in store
    requires x.Node? ==> x.id in store && root != Some(x) && Unreferenced(store, x.id)
    ensures Unshared(store[d.target := Extended(store[d.target], d, x)], root)
  {
    var z, t := store[d.target := Extended(store[d.target], d, x)], d.target;
    var n := |store[t].items|;
    forall a: nat, i: nat, u: nat ensures RefersTo(z, a, i, u) <==> RefersTo(store, a, i, u) || (a == t && i == n && x == Node(u)) {
      if a == t && i < n { assert z[t].items[i] == store[t].items[i]; }
    }
  }

  lemma {:induction false} ScalarKeepsUnshared(h: Heap, value: Val, rest: seq<Task>, v: Val, d: Destination, above: set<ObjId>,
                            root: Option<Cell>, store: Store, want: Wanted)
    requires WellFormed(h) && Snapshot(h, value, {}).Some? && Unshared(store, root)
    requires Copying(h, value, rest + [Visit(v, d)], above, root, store, want)
    ensures Unshared(Put(store, d, Leaf(v)), if d.Root? then Some(Leaf(v)) else root)
  {
    if root.None? {
      assert (rest + [Visit(v, d)])[|rest|] == Visit(value, Root) && rest == [];
    } else {
      PlanTop(h, rest, v, d, above, Filled(store), want);
      assert Fits(want, store[d.target], want[d.target]);
      hide Plan;
      hide Snapshot;
      hide Unshared;
      PutExtends(store, want, d, Leaf(v));
      ExtendUnshared(store, root, d, Leaf(v));
    }
  }

  lemma {:induction false} StartUnshared(store: Store, root: Option<Cell>, u: nat, empty: Target, z: Store)
    requires Unshared(store, root) && u !in store && empty.items == [] && z == store[u := empty]
    ensures Unshared(z, root) && root != Some(Node(u)) && Unreferenced(z, u)
  {
    forall a: nat, i: nat, w: nat ensures RefersTo(z, a, i, w) <==> RefersTo(store, a, i, w) {}
  }

  /** The new container is referred to from the one slot that opened it. */
  lemma {:induction false} OpenKeepsUnshared(h: Heap, id: ObjId, d: Destination, root: Option<Cell>, store: Store, u: nat, want: Wanted)
    requires id in h && u !in store && Unshared(store, root)
    requires (d.Index? || d.Property?) && d.target in store && d.target in want
    requires Fits(want, store[d.target], want[d.target]) && FillsChild(want[d.target], |store[d.target].items|, d)
    ensures Unshared(Open(h, id, d, store, u), root)
  {
    var started := store[u := Empty(h[id])];
    StartUnshared(store, root, u, Empty(h[id]), started);
    hide Unshared;
    hide Unreferenced;
    hide Fits;
    hide FillsChild;
    hide Put;
    PutExtends(started, want, d, Node(u));
    ExtendUnshared(started, root, d, Node(u));
  }

  lemma {:induction false} ContainerKeepsUnshared(h: Heap, value: Val, rest: seq<Task>, id: ObjId, d: Destination, above: set<ObjId>,
                               root: Option<Cell>, store: Store, u: nat, want: Wanted)
    requires WellFormed(h) && Snapshot(h, value, {}).Some? && id in h && u !in store && Unshared(store, root)
    requires Copying(h, value, rest + [Visit(Ref(id), d)], above, root, store, want)
    ensures Unshared(Open(h, id, d, store, u), if d.Root? then Some(Node(u)) else root)
  {
    if root.None? {
      var started := store[u := Empty(h[id])];
      assert (rest + [Visit(Ref(id), d)])[|rest|] == Visit(value, Root) && rest == [];
      assert Open(h, id, d, store, u) == started;
    } else {
      hide Unshared;
      PlanTop(h, rest, Ref(id), d, above, Filled(store), want);
      assert Fits(want, store[d.target], want[d.target]);
      OpenKeepsUnshared(h, id, d, root, store, u, want);
    }
  }

  /** Without a copy to fill, no task has a destination. */
  ghost predicate Aimless(tasks: seq<Task>) {
    forall i | 0 <= i < |tasks| :: DestinationOf(tasks[i]) == Nowhere
  }

  lemma {:induction false} ChildrenAreAimless(h: Heap, base: seq<Task>, id: ObjId, k: nat)
    requires WellFormed(h) && id in h && k <= |Kids(h[id])| && Aimless(base)
    ensures Aimless(base + [Leave(id)] + ChildTasks(h, id, k, None))
    decreases |Kids(h[id])| - k
  {
    if k < |Kids(h[id])| {
      ChildrenAreAimless(h, base, id, k + 1);
      var tasks := base + [Leave(id)] + ChildTasks(h, id, k, None);
      var fewer := base + [Leave(id)] + ChildTasks(h, id, k + 1, None);
      assert tasks == fewer + [ChildTask(h, id, k, None)];
    }
  }

  /** Push `leave` and then the children of a container, last child first. */
  method PushChildren(h: Heap, tasks: seq<Task>, id: ObjId, target: Option<nat>) returns (pushed: seq<Task>)
    requires WellFormed(h) && id in h
    ensures pushed == tasks + [Leave(id)] + ChildTasks(h, id, 0, target)
  {
    pushed := tasks + [Leave(id)];
    var index := |Kids(h[id])|;
    while index > 0
      invariant 0 <= index <= |Kids(h[id])|
      invariant pushed == tasks + [Leave(id)] + ChildTasks(h, id, index, target)
    {
      index := index - 1;
      pushed := pushed + [ChildTask(h, id, index, target)];
    }
  }

  /**
   Validate a value, optionally building a detached copy. It terminates on every
   graph, shared or cyclic, accepts exactly what the specification accepts, and
   the copy reads as the specification's tree, with a container of its own at
   every position even where the source shares one.
   */
  method WalkJsonValue(h: Heap, value: Val, detach: bool) returns (ok: bool, root: Option<Cell>, store: Store)
    requires WellFormed(h)
    ensures ok <==> LosslessTree(h, value)
    ensures ok <==> Snapshot(h, value, {}).Some?
    ensures ok && detach ==> root.Some? && Denotes(store, root.value, Snapshot(h, value, {}).value)
    ensures ok && detach ==> Unshared(store, root)
    ensures !detach ==> root.None? && store == map[]
  {
    var above: set<ObjId> := {};
    var tasks := [Visit(value, if detach then Root else Nowhere)];
    var next: nat := 0;
    root, store := None, map[];
    ghost var want: Wanted := map[];
    SnapshotIffLosslessTree(h, value);
    WalkStarts(h, value, detach);
    hide LosslessTree;
    hide Copying;
    hide Unshared;
    hide StackCost;
    hide Put;
    while tasks != []
      invariant Walking(h, value, detach, tasks, above, root, store, next, want)
      invariant detach && Snapshot(h, value, {}).Some? ==> Unshared(store, root)
      invariant !detach ==> Aimless(tasks) && root.None? && store == map[]
      decreases StackCost(h, tasks, above)
    {
      var top, rest := tasks[|tasks| - 1], tasks[..|tasks| - 1];
      assert tasks == rest + [top];
      match top {
        case Leave(id) =>
          LeaveKeepsWalking(h, value, detach, rest, id, above, root, store, next, want);
          tasks, above := rest, above - {id};
        case Visit(v, d) =>
          if v.Ref? {
            if v.id in above || v.id !in h || !PlainContainer(h[v.id]) { return false, None, store; }
            if detach && Snapshot(h, value, {}).Some? {
              ContainerKeepsUnshared(h, value, rest, v.id, d, above, root, store, next, want);
            }
            if !detach { ChildrenAreAimless(h, rest, v.id, 0); }
            ghost var want' := ContainerKeepsWalking(h, value, detach, rest, v.id, d, above, root, store, next, want);
            tasks := PushChildren(h, rest, v.id, if detach then Some(next) else None);
            if d.Root? { root := Some(Node(next)); }
            if detach { store, next := Put(store[next := Empty(h[v.id])], d, Node(next)), next + 1; }
            above, want := above + {v.id}, want';
          } else {
            if !LosslessScalar(v) { return false, None, store; }
            if detach && Snapshot(h, value, {}).Some? { ScalarKeepsUnshared(h, value, rest, v, d, above, root, store, want); }
            ScalarKeepsWalking(h, value, detach, rest, v, d, above, root, store, next, want);
            if d.Root? { root := Some(Leaf(v)); }
            store, tasks := Put(store, d, Leaf(v)), rest;
          }
        case _ =>
          var subject := Subject(h, top);
          if subject.None? { return false, None, store; }
          FetchKeepsWalking(h, value, detach, rest, top, above, root, store, next, want);
          tasks := rest + [Visit(subject.value, DestinationOf(top))];
      }
    }
    ok := true;
    WalkEnds(h, value, detach, above, root, store, next, want);
  }

  lemma {:induction false} WalkStarts(h: Heap, value: Val, detach: bool)
    requires WellFormed(h)
    ensures Walking(h, value, detach, [Visit(value, if detach then Root else Nowhere)], {}, None, map[], 0, map[])
    ensures Unshared(map[], None)
  {
    var tasks := [Visit(value, if detach then Root else Nowhere)];
    assert tasks[..0] == [];
  }

  /** With the stack empty the value is accepted and, detached, the copy is complete. */
  lemma {:induction false} WalkEnds(h: Heap, value: Val, detach: bool, above: set<ObjId>, root: Option<Cell>, store: Store, next: nat, want: Wanted)
    requires WellFormed(h) && Walking(h, value, detach, [], above, root, store, next, want)
    ensures Snapshot(h, value, {}).Some?
    ensures detach ==> root.Some? && Denotes(store, root.value, Snapshot(h, value, {}).value)
  {
    if detach { WantedIsDenoted(store, want, root.value, Snapshot(h, value, {}).value); }
  }
}
