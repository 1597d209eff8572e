/** Parsed files as the objects they are: lists and mappings that splicing copies before it writes,
    a cache that hands out the same list every time, and a deep copy at the end. */
module Parses {
  import opened Text
  import opened Paths
  import opened Tasks
  import opened PartSplit

  // Parsed tasks on the heap

  /** The values of a task's mapping that a copy of the mapping shares: all but its nested lists
      and its include path, which stand in `task` as nothing. */
  class Values {
    var task: Task

    constructor (task: Task)
      ensures this.task == task
    {
      this.task := task;
    }
  }

  /** A task's mapping. */
  class Node {
    var values: Values
    var path: string
    var block: List?
    var rescue: List?
    var always: List?
    ghost var view: Task

    constructor (values: Values, path: string, block: List?, rescue: List?, always: List?, ghost view: Task)
      ensures this.values == values && this.path == path && this.view == view
      ensures this.block == block && this.rescue == rescue && this.always == always
    {
      this.values, this.path, this.view := values, path, view;
      this.block, this.rescue, this.always := block, rescue, always;
    }
  }

  /** A list of tasks. */
  class List {
    var items: seq<Node>
    ghost var view: seq<Task>

    constructor (items: seq<Node>, ghost view: seq<Task>)
      ensures this.items == items && this.view == view
    {
      this.items, this.view := items, view;
    }
  }

  /** Some lists, mappings and shared values. */
  datatype Store = Store(lists: set<List>, nodes: set<Node>, values: set<Values>) {
    ghost function With(other: Store): Store {
      Store(lists + other.lists, nodes + other.nodes, values + other.values)
    }
  }

  const NOTHING: Store := Store({}, {}, {})

  /** The tasks a node stands for, given what its nested lists stand for. */
  ghost predicate NodeHolds(n: Node, s: Store)
    reads n, s.lists, s.values
  {
    && n.values in s.values
    && var t := n.values.task;
       if t.action.Block? then
         && n.block in s.lists && n.rescue in s.lists && n.always in s.lists
         && n.view == t.(action := Block(n.block.view, n.rescue.view, n.always.view))
       else
         && n.block == null && n.rescue == null && n.always == null
         && n.view == if FullyQualified(t.action) then t.(action := t.action.(path := n.path)) else t
  }

  ghost predicate ListHolds(l: List, s: Store)
    reads l, s.nodes
  {
    |l.view| == |l.items| && forall k :: 0 <= k < |l.items| ==> l.items[k] in s.nodes && l.items[k].view == l.view[k]
  }

  /** Everything in the store leads into the store, and stands for what its parts stand for. */
  ghost predicate Closed(s: Store)
    reads s.lists, s.nodes, s.values
  {
    (forall l :: l in s.lists ==> ListHolds(l, s)) && (forall n :: n in s.nodes ==> NodeHolds(n, s))
  }

  lemma ClosedWith(a: Store, b: Store)
    requires Closed(a) && Closed(b)
    ensures Closed(a.With(b)) && Closed(b.With(a))
  {
  }

  lemma ClosedNothing()
    ensures Closed(NOTHING)
  {
  }

  lemma ItemHolds(l: List, s: Store, k: nat)
    requires Closed(s) && l in s.lists && k < |l.items|
    ensures |l.view| == |l.items| && l.items[k] in s.nodes && l.items[k].view == l.view[k]
  {
  }

  lemma ListViewHolds(l: List, s: Store)
    requires Closed(s) && l in s.lists
    ensures |l.view| == |l.items|
  {
  }

  lemma NodeIsHeld(n: Node, s: Store)
    requires Closed(s) && n in s.nodes
    ensures NodeHolds(n, s)
  {
  }

  /** A list of nodes of the store. */
  lemma AddList(l: List, s: Store)
    requires Closed(s) && |l.view| == |l.items|
    requires forall k :: 0 <= k < |l.items| ==> l.items[k] in s.nodes && l.items[k].view == l.view[k]
    ensures Closed(s.With(Store({l}, {}, {})))
  {
  }

  /** A node over lists of the store. */
  lemma AddNode(n: Node, s: Store, values: set<Values>)
    requires Closed(s) && NodeHolds(n, s.With(Store({}, {n}, values)))
    ensures Closed(s.With(Store({}, {n}, values)))
  {
  }

  // Reading a file

  function Shell(t: Task): Task {
    if t.action.Block? then t.(action := Block([], [], []))
    else if FullyQualified(t.action) then t.(action := t.action.(path := ""))
    else t
  }

  method Parse(ts: seq<Task>) returns (l: List, ghost made: Store)
    ensures Closed(made) && l in made.lists && l.view == ts
    ensures fresh(made.lists) && fresh(made.nodes) && fresh(made.values)
    decreases ts, 0
  {
    hide Closed;
    var items: seq<Node> := [];
    made := NOTHING;
    ClosedNothing();
    for i := 0 to |ts|
      invariant Closed(made) && fresh(made.lists) && fresh(made.nodes) && fresh(made.values)
      invariant |items| == i && forall k :: 0 <= k < i ==> items[k] in made.nodes && items[k].view == ts[k]
    {
      var n, more := ParseTask(ts[i]);
      ClosedWith(made, more);
      made := made.With(more);
      items := items + [n];
    }
    l := new List(items, ts);
    AddList(l, made);
    made := made.With(Store({l}, {}, {}));
  }

  method ParseTask(t: Task) returns (n: Node, ghost made: Store)
    ensures Closed(made) && n in made.nodes && n.view == t
    ensures fresh(made.lists) && fresh(made.nodes) && fresh(made.values)
    decreases t, 1
  {
    hide Closed;
    made := NOTHING;
    ClosedNothing();
    var block, rescue, always: List? := null, null, null;
    if t.action.Block? {
      block, rescue, always, made := ParseNested(t);
    }
    var values := new Values(Shell(t));
    n := new Node(values, if FullyQualified(t.action) then t.action.path else "", block, rescue, always, t);
    AddNode(n, made, {values});
    made := made.With(Store({}, {n}, {values}));
  }

  method ParseNested(t: Task) returns (block: List, rescue: List, always: List, ghost made: Store)
    requires t.action.Block?
    ensures Closed(made) && block in made.lists && rescue in made.lists && always in made.lists
    ensures block.view == t.action.block && rescue.view == t.action.rescue && always.view == t.action.always
    ensures fresh(made.lists) && fresh(made.nodes) && fresh(made.values)
    decreases t, 0
  {
    hide Closed;
    block, made := Parse(t.action.block);
    ghost var more;
    rescue, more := Parse(t.action.rescue);
    ClosedWith(made, more);
    made := made.With(more);
    always, more := Parse(t.action.always);
    ClosedWith(made, more);
    made := made.With(more);
  }

  // Copies

  /** What a copy of these tasks has made: lists and mappings of its own, over shared values. */
  ghost predicate Copied(l: List, made: Store, s: Store)
    reads made.lists, made.nodes, s.values
  {
    l in made.lists && Over(made, s)
  }

  /** Lists and mappings that lead into themselves, and into the shared values of the store. */
  ghost predicate Over(made: Store, s: Store)
    reads made.lists, made.nodes, s.values
  {
    made.values == {} && Closed(Store(made.lists, made.nodes, s.values))
  }

  lemma OverNothing(s: Store)
    ensures Over(NOTHING, s)
  {
  }

  lemma OverWith(a: Store, b: Store, s: Store)
    requires Over(a, s) && Over(b, s)
    ensures Over(a.With(b), s)
  {
  }

  lemma OverList(l: List, made: Store, s: Store)
    requires Over(made, s) && |l.view| == |l.items|
    requires forall k :: 0 <= k < |l.items| ==> l.items[k] in made.nodes && l.items[k].view == l.view[k]
    ensures Over(made.With(Store({l}, {}, {})), s)
  {
  }

  lemma OverNode(n: Node, made: Store, s: Store)
    requires Over(made, s) && NodeHolds(n, Store(made.lists, {n}, s.values))
    ensures Over(made.With(Store({}, {n}, {})), s)
  {
  }

  /** `rebase`: a new list of copied mappings, written after they are copied. */
  method RebaseParsed(l: List, source: Dir, base: Dir, ghost s: Store) returns (r: List, ghost made: Store)
    requires Closed(s) && l in s.lists
    ensures Copied(r, made, s) && fresh(made.lists) && fresh(made.nodes)
    ensures r.view == Rebase(l.view, source, base)
    decreases l.view, 0
  {
    hide Closed; hide Over;
    var items: seq<Node> := [];
    ghost var view: seq<Task> := [];
    made := NOTHING;
    OverNothing(s);
    ListViewHolds(l, s);
    for i := 0 to |l.items|
      invariant fresh(made.lists) && fresh(made.nodes) && Over(made, s) && Closed(s)
      invariant |items| == i == |view|
      invariant forall k :: 0 <= k < i ==> items[k] in made.nodes && items[k].view == view[k]
      invariant forall k :: 0 <= k < i ==> view[k] == RebaseTask(l.view[k], source, base)
    {
      ItemHolds(l, s, i);
      var n, more := RebaseNode(l.items[i], source, base, s);
      OverWith(made, more, s);
      made := made.With(more);
      items, view := items + [n], view + [n.view];
    }
    RebasedView(l.view, view, source, base);
    r := new List(items, view);
    OverList(r, made, s);
    made := made.With(Store({r}, {}, {}));
  }

  lemma RebasedView(ts: seq<Task>, view: seq<Task>, source: Dir, base: Dir)
    requires |view| == |ts| && forall k :: 0 <= k < |ts| ==> view[k] == RebaseTask(ts[k], source, base)
    ensures view == Rebase(ts, source, base)
  {
    hide RebaseTask;
    forall k | 0 <= k < |ts| ensures view[k] == Rebase(ts, source, base)[k] {
      RebaseAt(ts, k, source, base);
    }
  }

  method RebaseNode(n: Node, source: Dir, base: Dir, ghost s: Store) returns (task: Node, ghost made: Store)
    requires Closed(s) && n in s.nodes
    ensures task in made.nodes && fresh(made.lists) && fresh(made.nodes) && Over(made, s)
    ensures task.view == RebaseTask(n.view, source, base) && task.values == n.values
    decreases n.view, 2
  {
    hide Closed; hide Over; hide Moved; hide Prefix; hide Tail; hide Rebase;
    NodeIsHeld(n, s);
    OverNothing(s);
    made := NOTHING;
    task := new Node(n.values, n.path, n.block, n.rescue, n.always, n.view);
    if task.block != null {
      var block, rescue, always, nested := RebaseNested(n, source, base, s);
      task.block, task.rescue, task.always, made := block, rescue, always, nested;
    }
    if FullyQualified(task.values.task.action) && !(BRACES <= task.path) {
      task.path := Moved(Prefix(task.path), source, base) + Tail(task.path);
    }
    task.view := RebaseTask(n.view, source, base);
    OverNode(task, made, s);
    made := made.With(Store({}, {task}, {}));
  }

  method RebaseNested(n: Node, source: Dir, base: Dir, ghost s: Store)
    returns (block: List, rescue: List, always: List, ghost made: Store)
    requires Closed(s) && n in s.nodes && NodeHolds(n, s) && n.block != null
    ensures Over(made, s) && fresh(made.lists) && fresh(made.nodes)
    ensures block in made.lists && rescue in made.lists && always in made.lists
    ensures block.view == Rebase(n.view.action.block, source, base)
    ensures rescue.view == Rebase(n.view.action.rescue, source, base)
    ensures always.view == Rebase(n.view.action.always, source, base)
    decreases n.view, 1
  {
    hide Closed; hide Over; hide Rebase;
    block, made := RebaseParsed(n.block, source, base, s);
    ghost var more;
    rescue, more := RebaseParsed(n.rescue, source, base, s);
    OverWith(made, more, s);
    made := made.With(more);
    always, more := RebaseParsed(n.always, source, base, s);
    OverWith(made, more, s);
    made := made.With(more);
  }

  /** `copy.deepcopy`: nothing of the copy is shared. */
  method DeepCopy(l: List, ghost s: Store) returns (r: List, ghost made: Store)
    requires Closed(s) && l in s.lists
    ensures Closed(made) && r in made.lists && r.view == l.view
    ensures fresh(made.lists) && fresh(made.nodes) && fresh(made.values)
    decreases l.view, 0
  {
    hide Closed;
    var items: seq<Node> := [];
    made := NOTHING;
    ClosedNothing();
    ListViewHolds(l, s);
    for i := 0 to |l.items|
      invariant Closed(made) && fresh(made.lists) && fresh(made.nodes) && fresh(made.values) && Closed(s)
      invariant |items| == i && forall k :: 0 <= k < i ==> items[k] in made.nodes && items[k].view == l.view[k]
    {
      ItemHolds(l, s, i);
      var n, more := DeepCopyNode(l.items[i], s);
      ClosedWith(made, more);
      made := made.With(more);
      items := items + [n];
    }
    r := new List(items, l.view);
    AddList(r, made);
    made := made.With(Store({r}, {}, {}));
  }

  method DeepCopyNode(n: Node, ghost s: Store) returns (c: Node, ghost made: Store)
    requires Closed(s) && n in s.nodes
    ensures Closed(made) && c in made.nodes && c.view == n.view
    ensures fresh(made.lists) && fresh(made.nodes) && fresh(made.values)
    decreases n.view, 2
  {
    hide Closed;
    NodeIsHeld(n, s);
    ClosedNothing();
    made := NOTHING;
    var block, rescue, always: List? := null, null, null;
    if n.block != null {
      block, rescue, always, made := DeepCopyNested(n, s);
    }
    var values := new Values(n.values.task);
    c := new Node(values, n.path, block, rescue, always, n.view);
    AddNode(c, made, {values});
    made := made.With(Store({}, {c}, {values}));
  }

  method DeepCopyNested(n: Node, ghost s: Store)
    returns (block: List, rescue: List, always: List, ghost made: Store)
    requires Closed(s) && n in s.nodes && NodeHolds(n, s) && n.block != null
    ensures Closed(made) && block in made.lists && rescue in made.lists && always in made.lists
    ensures block.view == n.block.view && rescue.view == n.rescue.view && always.view == n.always.view
    ensures fresh(made.lists) && fresh(made.nodes) && fresh(made.values)
    decreases n.view, 1
  {
    hide Closed;
    block, made := DeepCopy(n.block, s);
    ghost var more;
    rescue, more := DeepCopy(n.rescue, s);
    ClosedWith(made, more);
    made := made.With(more);
    always, more := DeepCopy(n.always, s);
    ClosedWith(made, more);
    made := made.With(more);
  }

  // The loader and its cache

  /** A task's own part of its tasks: nested lists aside. */
  function Own(t: Task, path: string): Task {
    if FullyQualified(t.action) then t.(action := t.action.(path := path)) else t
  }

  lemma OverLarger(made: Store, s: Store, s': Store)
    requires Over(made, s) && s.values <= s'.values
    ensures Over(made, s')
  {
  }

  /** What is copied is a closed store of its own, over the shared values. */
  lemma OverIsClosed(made: Store, s: Store)
    requires Over(made, s)
    ensures Closed(Store(made.lists, made.nodes, s.values))
  {
  }

  lemma OverAgain(more: Store, made: Store, s: Store)
    requires Over(more, Store(made.lists, made.nodes, s.values))
    ensures Over(more, s)
  {
  }

  predicate Larger(s: Store, s': Store) {
    s.lists <= s'.lists && s.nodes <= s'.nodes && s.values <= s'.values
  }

  predicate Apart(s: Store, s': Store) {
    s.lists !! s'.lists && s.nodes !! s'.nodes && s.values !! s'.values
  }

  predicate KeepsLists(was: map<Dir, List>, now: map<Dir, List>) {
    forall file :: file in was ==> file in now && now[file] == was[file]
  }

  /** Parsed files are read once, and then the same list is served from the cache. */
  class Loader {
    const files: map<Dir, seq<Task>>
    var cache: map<Dir, List>
    ghost var store: Store

    /** Every cached list still stands for the tasks that were loaded. */
    ghost predicate Valid()
      reads this, store.lists, store.nodes, store.values
    {
      && Closed(store)
      && forall file :: file in cache ==> file in files && cache[file] in store.lists && cache[file].view == files[file]
    }

    constructor (files: map<Dir, seq<Task>>)
      ensures Valid() && this.files == files && cache == map[]
    {
      this.files, cache, store := files, map[], NOTHING;
    }

    method Load(file: Dir) returns (r: Result<List>)
      requires Valid()
      modifies this
      ensures Valid() && KeepsLists(old(cache), cache) && Larger(old(store), store)
      ensures r.Ok? <==> file in files
      ensures r.Ok? ==> file in cache && r.value == cache[file]
    {
      hide Closed;
      if file in cache { return Ok(cache[file]); }
      if file !in files { return Failure; }
      var tasks, made := Parse(files[file]);
      ClosedWith(store, made);
      store := store.With(made);
      cache := cache[file := tasks];
      return Ok(cache[file]);
    }

    /** `_splice`: nothing that is cached is written. The result is a list of its own with mappings
        of its own, which share their other values with the parse they were copied from. */
    method SpliceList(fuel: nat, l: List, entry: File) returns (r: Result<List>, ghost made: Store)
      requires Valid() && l in store.lists
      modifies this
      ensures Valid() && KeepsLists(old(cache), cache) && Larger(old(store), store)
      ensures r.Ok? <==> Splice(files, fuel, old(l.view), entry).Ok?
      ensures fresh(made.lists) && fresh(made.nodes)
      ensures r.Ok? ==> Copied(r.value, made, store) && Ok(r.value.view) == Splice(files, fuel, old(l.view), entry)
      decreases fuel, l.view, 0
    {
      hide Closed; hide Over; hide SpliceTask; hide PartOf; hide Splice; hide Prepended;
      ghost var ts, all := l.view, Splice(files, fuel, l.view, entry);
      var out: seq<Node> := [];
      ghost var view: seq<Task> := [];
      made := NOTHING;
      OverNothing(store);
      ListViewHolds(l, store);
      PrependedFirst(files, fuel, ts, entry);
      for i := 0 to |l.items|
        invariant Valid() && l in store.lists && KeepsLists(old(cache), cache) && Larger(old(store), store)
        invariant fresh(made.lists) && fresh(made.nodes) && Over(made, store)
        invariant l.view == ts && |l.items| == |ts| && |view| == |out|
        invariant forall k :: 0 <= k < |out| ==> out[k] in made.nodes && out[k].view == view[k]
        invariant all == Prepended(view, Splice(files, fuel, ts[i..], entry))
      {
        ItemHolds(l, store, i);
        assert ts[i..][0] == ts[i] && ts[i..][1..] == ts[i + 1..];
        ghost var before := store;
        var now, tasks, more := SpliceNode(fuel, l.items[i], entry);
        if now.Failure? {
          PrependedFails(view, files, fuel, ts[i..], entry);
          return Failure, NOTHING;
        }
        OverLarger(made, before, store);
        OverWith(made, more, store);
        PrependedTask(view, files, fuel, ts[i..], entry, tasks);
        made := made.With(more);
        out, view := out + now.value, view + tasks;
      }
      PrependedLast(view, files, fuel, ts, entry);
      var list := new List(out, view);
      OverList(list, made, store);
      made := made.With(Store({list}, {}, {}));
      return Ok(list), made;
    }

    method SpliceNode(fuel: nat, n: Node, entry: File)
      returns (r: Result<seq<Node>>, ghost tasks: seq<Task>, ghost made: Store)
      requires Valid() && n in store.nodes
      modifies this
      ensures Valid() && KeepsLists(old(cache), cache) && Larger(old(store), store)
      ensures r.Ok? <==> SpliceTask(files, fuel, old(n.view), entry).Ok?
      ensures fresh(made.lists) && fresh(made.nodes)
      ensures r.Ok? ==>
                && SpliceTask(files, fuel, old(n.view), entry) == Ok(tasks) && Over(made, store)
                && |tasks| == |r.value|
                && forall k :: 0 <= k < |tasks| ==> r.value[k] in made.nodes && r.value[k].view == tasks[k]
      ensures r.Ok? && PartOf(old(n.view), entry).None? ==> |r.value| == 1 && r.value[0].values == n.values
      decreases fuel, n.view, 2
    {
      hide Closed; hide Over; hide Splice; hide PartOf; hide Rebase;
      NodeIsHeld(n, store);
      BlockIsNoPart(n.view, entry);
      BlockIsNoPart(n.values.task, entry);
      assert !n.values.task.action.Block? ==> n.view == Own(n.values.task, n.path);
      made, tasks := NOTHING, [];
      OverNothing(store);
      match PartOf(Own(n.values.task, n.path), entry) {
        case Some(part) =>
          if fuel == 0 { return Failure, [], NOTHING; }
          r, tasks, made := SplicePart(fuel - 1, part, entry);
        case None =>
          var block, rescue, always, t := n.block, n.rescue, n.always, n.view;
          if n.block != null {
            var nested, inside := SpliceNested(fuel, n, entry);
            if nested.Failure? { return Failure, [], NOTHING; }
            block, rescue, always, made := nested.value.0, nested.value.1, nested.value.2, inside;
            t := n.view.(action := Block(block.view, rescue.view, always.view));
          }
          var task := new Node(n.values, n.path, block, rescue, always, t);
          OverNode(task, made, store);
          made := made.With(Store({}, {task}, {}));
          r, tasks := Ok([task]), [task.view];
      }
    }

    /** A part is loaded, spliced, and its tasks copied once more to be moved. */
    method SplicePart(fuel: nat, part: Dir, entry: File)
      returns (r: Result<seq<Node>>, ghost tasks: seq<Task>, ghost made: Store)
      requires Valid()
      modifies this
      ensures Valid() && KeepsLists(old(cache), cache) && Larger(old(store), store)
      ensures fresh(made.lists) && fresh(made.nodes)
      ensures r.Ok? <==> part in files && Splice(files, fuel, files[part], entry).Ok?
      ensures r.Ok? ==>
                && tasks == Rebase(Splice(files, fuel, files[part], entry).value, Parent(part), Parent(entry))
                && Over(made, store) && |tasks| == |r.value|
                && forall k :: 0 <= k < |tasks| ==> r.value[k] in made.nodes && r.value[k].view == tasks[k]
      decreases fuel
    {
      hide Closed; hide Over; hide Splice; hide PartOf; hide Rebase;
      made, tasks := NOTHING, [];
      var loaded := Load(part);
      if loaded.Failure? { return Failure, [], NOTHING; }
      var inner, inside := SpliceList(fuel, loaded.value, entry);
      if inner.Failure? { return Failure, [], NOTHING; }
      OverIsClosed(inside, store);
      ghost var s := Store(inside.lists, inside.nodes, store.values);
      var moved, more := RebaseParsed(inner.value, Parent(part), Parent(entry), s);
      OverAgain(more, inside, store);
      OverIsClosed(more, store);
      ListOfCopy(moved, more, store);
      return Ok(moved.items), moved.view, more;
    }

    method SpliceNested(fuel: nat, n: Node, entry: File)
      returns (r: Result<(List, List, List)>, ghost made: Store)
      requires Valid() && n in store.nodes && NodeHolds(n, store) && n.block != null
      modifies this
      ensures Valid() && KeepsLists(old(cache), cache) && Larger(old(store), store)
      ensures fresh(made.lists) && fresh(made.nodes)
      ensures var a := old(n.view).action;
              var block, rescue, always := Splice(files, fuel, a.block, entry), Splice(files, fuel, a.rescue, entry),
                                           Splice(files, fuel, a.always, entry);
              && (r.Ok? <==> block.Ok? && rescue.Ok? && always.Ok?)
              && (r.Ok? ==>
                    && r.value.0 in made.lists && r.value.1 in made.lists && r.value.2 in made.lists
                    && Over(made, store) && Ok(r.value.0.view) == block && Ok(r.value.1.view) == rescue
                    && Ok(r.value.2.view) == always)
      decreases fuel, n.view, 1
    {
      hide Closed; hide Over; hide Splice; hide PartOf;
      var first, inBlock := SpliceList(fuel, n.block, entry);
      if first.Failure? { return Failure, NOTHING; }
      ghost var before := store;
      var second, inRescue := SpliceList(fuel, n.rescue, entry);
      if second.Failure? { return Failure, NOTHING; }
      OverLarger(inBlock, before, store);
      OverWith(inBlock, inRescue, store);
      made := inBlock.With(inRescue);
      before := store;
      var third, inAlways := SpliceList(fuel, n.always, entry);
      if third.Failure? { return Failure, NOTHING; }
      OverLarger(made, before, store);
      OverWith(made, inAlways, store);
      made := made.With(inAlways);
      return Ok((first.value, second.value, third.value)), made;
    }

    /** `inline`: the spliced tasks, copied once more down to the last value. Nothing the caller
        gets is in the cache, and nothing in the cache has changed. */
    method Inline(fuel: nat, entry: File) returns (r: Result<List>, ghost made: Store)
      requires Valid()
      modifies this
      ensures Valid() && KeepsLists(old(cache), cache)
      ensures r.Ok? <==> entry in files && Splice(files, fuel, files[entry], entry).Ok?
      ensures r.Ok? ==>
                && Ok(r.value.view) == Splice(files, fuel, files[entry], entry)
                && r.value in made.lists && Closed(made) && Apart(made, store)
                && fresh(made.lists) && fresh(made.nodes) && fresh(made.values)
    {
      hide Closed; hide Over; hide Splice;
      var tasks := Load(entry);
      if tasks.Failure? { return Failure, NOTHING; }
      var spliced, inside := SpliceList(fuel, tasks.value, entry);
      if spliced.Failure? { return Failure, NOTHING; }
      OverIsClosed(inside, store);
      var copy, all := DeepCopy(spliced.value, Store(inside.lists, inside.nodes, store.values));
      return Ok(copy), all;
    }
  }

  lemma BlockIsNoPart(t: Task, entry: File)
    ensures t.action.Block? ==> PartOf(t, entry).None?
  {
  }

  lemma ListOfCopy(l: List, made: Store, s: Store)
    requires Copied(l, made, s)
    ensures |l.view| == |l.items|
    ensures forall k :: 0 <= k < |l.items| ==> l.items[k] in made.nodes && l.items[k].view == l.view[k]
  {
  }

  lemma PrependedFirst(files: map<Dir, seq<Task>>, fuel: nat, ts: seq<Task>, entry: File)
    ensures Splice(files, fuel, ts, entry) == Prepended([], Splice(files, fuel, ts[0..], entry))
  {
    hide Splice;
    var all := Splice(files, fuel, ts, entry);
    assert ts[0..] == ts;
    if all.Ok? { assert [] + all.value == all.value; }
  }

  lemma PrependedLast(done: seq<Task>, files: map<Dir, seq<Task>>, fuel: nat, ts: seq<Task>, entry: File)
    ensures Prepended(done, Splice(files, fuel, ts[|ts|..], entry)) == Ok(done)
  {
    assert ts[|ts|..] == [] && done + [] == done;
  }

  lemma PrependedFails(done: seq<Task>, files: map<Dir, seq<Task>>, fuel: nat, ts: seq<Task>, entry: File)
    requires ts != [] && SpliceTask(files, fuel, ts[0], entry).Failure?
    ensures Prepended(done, Splice(files, fuel, ts, entry)) == Failure
  {
    hide SpliceTask;
  }

  lemma PrependedTask(done: seq<Task>, files: map<Dir, seq<Task>>, fuel: nat, ts: seq<Task>, entry: File,
                      now: seq<Task>)
    requires ts != [] && SpliceTask(files, fuel, ts[0], entry) == Ok(now)
    ensures Prepended(done, Splice(files, fuel, ts, entry))
         == Prepended(done + now, Splice(files, fuel, ts[1..], entry))
  {
    hide SpliceTask;
    var rest := Splice(files, fuel, ts[1..], entry);
    if rest.Ok? { assert done + (now + rest.value) == (done + now) + rest.value; }
  }

  /** One entry after another through one cache: each is inlined to its own spliced tasks, whatever
      was loaded and spliced before it, and every cached parse stays the list that was loaded. */
  method InlineEach(loader: Loader, fuel: nat, entries: seq<File>) returns (lists: seq<Result<List>>)
    requires loader.Valid()
    modifies loader
    ensures loader.Valid() && KeepsLists(old(loader.cache), loader.cache)
    ensures |lists| == |entries|
    ensures forall k :: 0 <= k < |entries| ==> Inlines(loader.files, fuel, entries[k], lists[k])
  {
    hide Closed; hide Splice;
    lists := [];
    for i := 0 to |entries|
      invariant loader.Valid() && KeepsLists(old(loader.cache), loader.cache) && |lists| == i
      invariant forall k :: 0 <= k < i && lists[k].Ok? ==> fresh(lists[k].value)
      invariant forall k :: 0 <= k < i ==> Inlines(loader.files, fuel, entries[k], lists[k])
    {
      var list, made := loader.Inline(fuel, entries[i]);
      lists := lists + [list];
    }
  }

  ghost predicate Inlines(files: map<Dir, seq<Task>>, fuel: nat, entry: File, list: Result<List>)
    reads if list.Ok? then {list.value} else {}
  {
    if entry in files && list.Ok? then Ok(list.value.view) == Splice(files, fuel, files[entry], entry)
    else list.Failure? && (entry in files ==> Splice(files, fuel, files[entry], entry).Failure?)
  }

  /** A caller that writes to an inlined list, down to its shared values, leaves every cached parse
      as it was loaded. */
  method WriteInlined(loader: Loader, l: List, k: nat, task: Task, path: string, ghost made: Store)
    requires loader.Valid() && Closed(made) && Apart(made, loader.store) && l in made.lists && k < |l.items|
    modifies l.items[k], l.items[k].values
    ensures loader.Valid() && l.items[k].values.task == task && l.items[k].path == path
  {
    ItemHolds(l, made, k);
    NodeIsHeld(l.items[k], made);
    l.items[k].values.task := task;
    l.items[k].path := path;
  }
}
