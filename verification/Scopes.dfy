/** The scope a leaf carries: what each block, include and role puts into it, and that nothing of
    it goes unseen. */
module Scopes {
  import opened Text
  import opened Paths
  import opened Tasks
  import opened TaskParts

  // One entry of a scope

  /** Whether a task's condition and variables stand in their own fields only. */
  predicate Parsed(t: Task) { "when" !in t.control && "vars" !in t.control }

  /** The entry, word by word: the words of the include or role, then the task's conditions when
      it has any, its variables when it has any, and every other keyword as it stands. */
  ghost predicate EntryOf(t: Task, extra: Keywords, entry: Keywords) {
    forall word: string ::
      if word in extra then word in entry && entry[word] == extra[word]
      else if word == "when" then
        (word in entry <==> t.when != []) && (word in entry ==> entry[word] == Conditions(t.when))
      else if word == "vars" then
        (word in entry <==> t.vars != map[]) && (word in entry ==> entry[word] == Fields(t.vars))
      else (word in entry <==> word in t.control) && (word in entry ==> entry[word] == t.control[word])
  }

  lemma {:induction false} EntryIsKeywords(t: Task, extra: Keywords, entry: Keywords)
    requires Parsed(t)
    ensures EntryOf(t, extra, entry) <==> entry == KeywordsOf(t) + extra
  {
    var own := KeywordsOf(t) + extra;
    assert EntryOf(t, extra, own);
    if EntryOf(t, extra, entry) {
      forall word: string ensures (word in entry <==> word in own) && (word in entry ==> entry[word] == own[word]) {
      }
    }
  }

  /** Two tasks have one entry exactly when they agree in conditions, variables and every other
      keyword, and none exactly when they have none of them. */
  lemma {:induction false} EntriesDiffer(t: Task, t': Task)
    requires Parsed(t) && Parsed(t')
    ensures KeywordsOf(t) == KeywordsOf(t') <==> t.when == t'.when && t.vars == t'.vars && t.control == t'.control
    ensures KeywordsOf(t) == map[] <==> t.when == [] && t.vars == map[] && t.control == map[]
  {
    var k, k' := KeywordsOf(t), KeywordsOf(t');
    EntryIsKeywords(t, map[], k);
    EntryIsKeywords(t', map[], k');
    assert k + map[] == k && k' + map[] == k';
    if k == k' {
      assert t.when == t'.when by { assert "when" in k <==> t.when != []; }
      assert t.vars == t'.vars by { assert "vars" in k <==> t.vars != map[]; }
      forall word: string
        ensures (word in t.control <==> word in t'.control)
             && (word in t.control ==> t.control[word] == t'.control[word])
      {
        assert word != "when" && word != "vars" ==> (word in k <==> word in t.control);
      }
    }
    if k == map[] {
      assert "when" !in k && "vars" !in k;
      forall word: string ensures word !in t.control {
        assert word != "when" && word != "vars" ==> (word in k <==> word in t.control);
      }
    }
  }

  /** The mark of a block's rescue list, that of its always list, and none are three entries. */
  lemma SectionsDiffer()
    ensures Section("rescue") == map["section" := Scalar("rescue")]
    ensures Section("always") == map["section" := Scalar("always")]
    ensures Section("rescue") != Section("always") && Section("rescue") != map[] && Section("always") != map[]
  {
    assert "rescue"[0] == 'r' && "always"[0] == 'a';
    assert Section("rescue")["section"] == Scalar("rescue") && Section("always")["section"] == Scalar("always");
  }

  // Where each entry is put

  /** A block puts its entry over its three lists, and a mark over the last two. */
  lemma {:induction false} BlockScope(w: Repo, t: Task, at: Place, inherited: seq<Keywords>, depth: nat,
                                      entry: Keywords)
    requires t.action.Block? && Parsed(t) && EntryOf(t, map[], entry) && depth < LIMIT
    ensures var scope := inherited + [entry];
            var rescue, always := scope + [map["section" := Scalar("rescue")]],
                                  scope + [map["section" := Scalar("always")]];
            var main := Flatten(w, t.action.block, at, scope, depth + 1);
            var rescued := Flatten(w, t.action.rescue, at, rescue, depth + 1);
            var after := Flatten(w, t.action.always, at, always, depth + 1);
            FlattenTask(w, t, at, inherited, depth)
            == if main.Failure? || rescued.Failure? || after.Failure? then Failure
               else Ok(main.value + rescued.value + after.value)
  {
    hide Flatten;
    EntryIsKeywords(t, map[], entry);
    assert KeywordsOf(t) + map[] == KeywordsOf(t);
  }

  /** An include puts its entry, with the words of its mapping, over the tasks of its file. */
  lemma {:induction false} IncludeScope(w: Repo, t: Task, at: Place, inherited: seq<Keywords>, depth: nat,
                                        entry: Keywords)
    requires t.action.Include? && Parsed(t) && depth < LIMIT && Find(w, t.action.path, at).Some?
    requires EntryOf(t, if t.action.options.Some? then t.action.options.value else map[], entry)
    ensures var file := Find(w, t.action.path, at).value;
            FlattenTask(w, t, at, inherited, depth)
            == Flatten(w, w.files[file], Place(file, at.chain + [file], at.role), NonEmpty(inherited + [entry]),
                       depth + 1)
  {
    hide Flatten; hide Find; hide KeywordsOf; hide EntryOf;
    EntryIsKeywords(t, if t.action.options.Some? then t.action.options.value else map[], entry);
  }

  /** A role puts its entry, with its own words, over the tasks of its file. */
  lemma {:induction false} RoleScope(w: Repo, t: Task, at: Place, inherited: seq<Keywords>, depth: nat, entry: Keywords)
    requires t.action.Role? && Parsed(t) && depth < LIMIT && EntryOf(t, t.action.extra, entry)
    requires !HasTemplate(t.action.role) && RoleExists(w, t.action.role)
    ensures var file := RoleFile(w, t.action.role, t.action.tasksFrom);
            FlattenTask(w, t, at, inherited, depth)
            == if file !in w.files then Failure
               else Flatten(w, w.files[file], Place(file, at.chain + [file], Some(RoleDir(w, t.action.role))),
                            NonEmpty(inherited + [entry]), depth + 1)
  {
    hide Flatten; hide KeywordsOf; hide EntryOf; hide RoleFile; hide RoleExists; hide RoleDir; hide HasTemplate;
    EntryIsKeywords(t, t.action.extra, entry);
  }

  /** Lists nested forty deep are refused, and no list is before. */
  lemma DepthIsBounded(w: Repo, ts: seq<Task>, at: Place, inherited: seq<Keywords>, depth: nat)
    ensures depth >= 40 ==> Flatten(w, ts, at, inherited, depth) == Failure
    ensures depth < 40 ==> Flatten(w, [], at, inherited, depth) == Ok([])
  {
  }

  // A scope is a prefix

  function Beneath(scope: seq<Keywords>, leaves: seq<Leaf>): (beneath: seq<Leaf>)
    ensures |beneath| == |leaves|
    ensures forall k :: 0 <= k < |leaves| ==>
              beneath[k] == leaves[k].(scope := NonEmpty(scope) + NonEmpty(leaves[k].scope))
  {
    if leaves == [] then []
    else [leaves[0].(scope := NonEmpty(scope) + NonEmpty(leaves[0].scope))] + Beneath(scope, leaves[1..])
  }

  ghost function AllBeneath(scope: seq<Keywords>, r: Result<seq<Leaf>>): Result<seq<Leaf>> {
    if r.Failure? then Failure else Ok(Beneath(scope, r.value))
  }

  lemma {:induction false} BeneathBoth(outer: seq<Keywords>, inner: seq<Keywords>, r: Result<seq<Leaf>>)
    ensures AllBeneath(outer, AllBeneath(inner, r)) == AllBeneath(outer + inner, r)
    ensures AllBeneath(NonEmpty(outer), r) == AllBeneath(outer, r)
  {
    hide NonEmpty;
    NonEmptyTwice(outer);
    NonEmptyAppend(outer, inner);
    if r.Ok? {
      var leaves := r.value;
      assert Beneath(NonEmpty(outer), leaves) == Beneath(outer, leaves);
      forall k | 0 <= k < |leaves|
        ensures Beneath(outer, Beneath(inner, leaves))[k] == Beneath(outer + inner, leaves)[k]
      {
        var own := leaves[k].scope;
        NonEmptyAppend(NonEmpty(inner), NonEmpty(own));
        NonEmptyTwice(inner);
        NonEmptyTwice(own);
        assert NonEmpty(outer) + (NonEmpty(inner) + NonEmpty(own)) == NonEmpty(outer + inner) + NonEmpty(own);
      }
      assert Beneath(outer, Beneath(inner, leaves)) == Beneath(outer + inner, leaves);
    }
  }

  lemma {:induction false} BeneathAppend(scope: seq<Keywords>, xs: seq<Leaf>, ys: seq<Leaf>)
    ensures Beneath(scope, xs + ys) == Beneath(scope, xs) + Beneath(scope, ys)
  {
    hide NonEmpty;
  }

  lemma {:induction false} BeneathThen(scope: seq<Keywords>, a: Result<seq<Leaf>>, b: Result<seq<Leaf>>,
                                       a': Result<seq<Leaf>>, b': Result<seq<Leaf>>)
    requires AllBeneath([], a) == AllBeneath(scope, a') && AllBeneath([], b) == AllBeneath(scope, b')
    requires a.Ok? && b.Ok?
    ensures a'.Ok? && b'.Ok? && Beneath([], a.value + b.value) == Beneath(scope, a'.value + b'.value)
  {
    hide Beneath;
    BeneathAppend([], a.value, b.value);
    BeneathAppend(scope, a'.value, b'.value);
  }

  /** What a list inherits is, empty entries aside, a prefix of every leaf's own scope: it decides
      nothing about which leaves there are, their order or the rest of their scopes. */
  lemma {:induction false} ScopeIsPrefix(w: Repo, ts: seq<Task>, at: Place, inherited: seq<Keywords>, depth: nat)
    ensures AllBeneath([], Flatten(w, ts, at, inherited, depth))
         == AllBeneath(inherited, Flatten(w, ts, at, [], depth))
    decreases Left(depth), ts, 0
  {
    hide FlattenTask; hide Beneath;
    if depth < LIMIT && ts != [] {
      ScopeIsTaskPrefix(w, ts[0], at, inherited, depth);
      ScopeIsPrefix(w, ts[1..], at, inherited, depth);
      var a, b := FlattenTask(w, ts[0], at, inherited, depth), Flatten(w, ts[1..], at, inherited, depth);
      var a', b' := FlattenTask(w, ts[0], at, [], depth), Flatten(w, ts[1..], at, [], depth);
      if a.Ok? && b.Ok? { BeneathThen(inherited, a, b, a', b'); }
    } else if depth < LIMIT {
      NothingBeneath(inherited);
    }
  }

  lemma NothingBeneath(scope: seq<Keywords>)
    ensures Beneath([], []) == Beneath(scope, [])
  {
  }

  lemma {:induction false} OneBeneath(t: Task, inherited: seq<Keywords>)
    ensures Beneath([], [Leaf(t, inherited)]) == Beneath(inherited, [Leaf(t, [])])
  {
    NonEmptyAppend(inherited, []);
    assert NonEmpty([]) == [];
    assert NonEmpty(inherited) + [] == NonEmpty(inherited) && [] + NonEmpty(inherited) == NonEmpty(inherited);
  }

  /** What a task's own leaves stand beneath, or nothing when it is a leaf itself. */
  function Entry(w: Repo, t: Task, at: Place): Option<Keywords> {
    match t.action
    case Block(_, _, _) => Some(KeywordsOf(t))
    case Include(_, path, options) =>
      if Find(w, path, at).None? then None
      else Some(KeywordsOf(t) + (if options.Some? then options.value else map[]))
    case Role(_, role, _, extra) =>
      if !HasTemplate(role) && RoleExists(w, role) then Some(KeywordsOf(t) + extra) else None
    case _ => None
  }

  /** The same task without keywords. */
  function Bare(t: Task): Task {
    Task(None, [], map[], map[],
         match t.action
         case Include(_, path, _) => Include(FqInclude, path, None)
         case Role(_, role, tasksFrom, _) => Role("", role, tasksFrom, map[])
         case _ => t.action)
  }

  lemma {:induction false} ScopeIsTaskPrefix(w: Repo, t: Task, at: Place, inherited: seq<Keywords>, depth: nat)
    requires depth < LIMIT
    ensures AllBeneath([], FlattenTask(w, t, at, inherited, depth))
         == AllBeneath(inherited, FlattenTask(w, t, at, [], depth))
    decreases Left(depth), t, 2
  {
    hide FlattenTask; hide Beneath; hide Entry; hide Bare;
    if Entry(w, t, at).Some? {
      EntryIsPrefix(w, t, at, inherited, depth);
      EntryIsPrefix(w, t, at, [], depth);
      var own := [Entry(w, t, at).value];
      var bare := FlattenTask(w, Bare(t), at, [], depth);
      assert [] + own == own;
      BeneathBoth(inherited, own, bare);
      BeneathBoth(inherited, [], FlattenTask(w, t, at, [], depth));
      assert inherited + [] == inherited;
    } else {
      LeafIsItself(w, t, at, inherited, depth);
      LeafIsItself(w, t, at, [], depth);
      OneBeneath(t, inherited);
    }
  }

  lemma LeafIsItself(w: Repo, t: Task, at: Place, inherited: seq<Keywords>, depth: nat)
    requires depth < LIMIT && Entry(w, t, at).None?
    ensures FlattenTask(w, t, at, inherited, depth) == Ok([Leaf(t, inherited)])
  {
    hide Find; hide RoleExists; hide HasTemplate; hide Flatten; hide KeywordsOf;
  }

  /** The leaves of a block, include or role are those of the bare one, beneath what it inherits
      and its entry. */
  lemma {:induction false} EntryIsPrefix(w: Repo, t: Task, at: Place, inherited: seq<Keywords>, depth: nat)
    requires depth < LIMIT && Entry(w, t, at).Some?
    ensures AllBeneath([], FlattenTask(w, t, at, inherited, depth))
         == AllBeneath(inherited + [Entry(w, t, at).value], FlattenTask(w, Bare(t), at, [], depth))
    decreases Left(depth), t, 1
  {
    hide Find; hide RoleExists; hide RoleFile; hide RoleDir; hide HasTemplate; hide Flatten; hide KeywordsOf;
    hide FlattenFile; hide Beneath;
    var entry := Entry(w, t, at).value;
    NoKeywords(Bare(t));
    var nothing: Keywords := map[];
    assert nothing + nothing == nothing;
    match t.action {
      case Block(_, _, _) => BlockIsPrefix(w, t, at, inherited, depth);
      case Include(_, path, _) =>
        var file := Find(w, path, at).value;
        FileIsPrefix(w, file, Place(file, at.chain + [file], at.role), inherited + [entry], depth);
      case Role(_, role, tasksFrom, _) =>
        var file := RoleFile(w, role, tasksFrom);
        FileIsPrefix(w, file, Place(file, at.chain + [file], Some(RoleDir(w, role))), inherited + [entry], depth);
    }
  }

  lemma NoKeywords(t: Task)
    requires t.when == [] && t.vars == map[] && t.control == map[]
    ensures KeywordsOf(t) == map[]
  {
  }

  lemma {:induction false} FileIsPrefix(w: Repo, file: Dir, at: Place, scope: seq<Keywords>, depth: nat)
    requires depth < LIMIT
    ensures AllBeneath([], FlattenFile(w, file, at, scope, depth))
         == AllBeneath(scope, FlattenFile(w, file, at, [] + [map[]], depth))
    decreases Left(depth) - 1
  {
    hide Flatten; hide Beneath;
    if file in w.files {
      var nothing: seq<Keywords> := [map[]];
      assert [] + nothing == nothing && nothing[1..] == [];
      assert NonEmpty(nothing) == [];
      ScopeIsPrefix(w, w.files[file], at, NonEmpty(scope), depth + 1);
      BeneathBoth(scope, [], Flatten(w, w.files[file], at, [], depth + 1));
    }
  }

  lemma {:induction false} BlockIsPrefix(w: Repo, t: Task, at: Place, inherited: seq<Keywords>, depth: nat)
    requires depth < LIMIT && t.action.Block?
    ensures AllBeneath([], FlattenTask(w, t, at, inherited, depth))
         == AllBeneath(inherited + [KeywordsOf(t)], FlattenTask(w, Bare(t), at, [], depth))
    decreases Left(depth), t, 0
  {
    hide Flatten; hide Beneath; hide KeywordsOf; hide Section;
    var scope, bare := inherited + [KeywordsOf(t)], [] + [KeywordsOf(Bare(t))];
    NoKeywords(Bare(t));
    assert bare == [map[]];
    var rescue, always := [Section("rescue")], [Section("always")];
    SectionIsPrefix(w, t.action.block, at, scope, [], depth + 1);
    SectionIsPrefix(w, t.action.rescue, at, scope, rescue, depth + 1);
    SectionIsPrefix(w, t.action.always, at, scope, always, depth + 1);
    assert scope + [] == scope && bare + [] == bare;
    var a := Flatten(w, t.action.block, at, scope, depth + 1);
    var b := Flatten(w, t.action.rescue, at, scope + rescue, depth + 1);
    var d := Flatten(w, t.action.always, at, scope + always, depth + 1);
    var a' := Flatten(w, t.action.block, at, bare, depth + 1);
    var b' := Flatten(w, t.action.rescue, at, bare + rescue, depth + 1);
    var d' := Flatten(w, t.action.always, at, bare + always, depth + 1);
    if a.Ok? && b.Ok? && d.Ok? {
      BeneathThen(scope, a, b, a', b');
      BeneathThen(scope, Ok(a.value + b.value), d, Ok(a'.value + b'.value), d');
    }
  }

  lemma {:induction false} SectionIsPrefix(w: Repo, ts: seq<Task>, at: Place, scope: seq<Keywords>, mark: seq<Keywords>,
                                           depth: nat)
    ensures AllBeneath([], Flatten(w, ts, at, scope + mark, depth))
         == AllBeneath(scope, Flatten(w, ts, at, [map[]] + mark, depth))
    decreases Left(depth), ts, 1
  {
    hide Flatten; hide Beneath;
    var none: seq<Keywords> := [map[]];
    var leaves := Flatten(w, ts, at, [], depth);
    ScopeIsPrefix(w, ts, at, scope + mark, depth);
    ScopeIsPrefix(w, ts, at, none + mark, depth);
    BeneathBoth(scope, mark, leaves);
    BeneathBoth(none, mark, leaves);
    BeneathBoth(scope, [], Flatten(w, ts, at, none + mark, depth));
    BeneathBoth(none, [], AllBeneath(mark, leaves));
    BeneathBoth([], mark, leaves);
    assert none[1..] == [] && NonEmpty(none) == [] && NonEmpty(none) + NonEmpty(mark) == NonEmpty(mark);
    assert scope + [] == scope && [] + mark == mark;
  }

  // Nothing of a scope goes unseen

  lemma {:induction false} BeneathDiffers(x: seq<Keywords>, y: seq<Keywords>, leaves: seq<Leaf>)
    requires leaves != []
    ensures Beneath(x, leaves) == Beneath(y, leaves) <==> NonEmpty(x) == NonEmpty(y)
  {
    hide NonEmpty;
    if Beneath(x, leaves) == Beneath(y, leaves) {
      var own, a, b := NonEmpty(leaves[0].scope), NonEmpty(x), NonEmpty(y);
      assert Beneath(x, leaves)[0].scope == a + own && Beneath(y, leaves)[0].scope == b + own;
      assert |a| == |b| && (a + own)[..|a|] == a && (b + own)[..|b|] == b;
    }
  }

  lemma {:induction false} TrimmedIsBeneath(leaves: seq<Leaf>)
    ensures Trimmed(leaves) == Beneath([], leaves)
  {
    if leaves != [] {
      TrimmedIsBeneath(leaves[1..]);
      var own := NonEmpty(leaves[0].scope);
      assert [] + own == own;
    }
  }

  lemma {:induction false} LastEntry(scope: seq<Keywords>, x: Keywords, y: Keywords)
    ensures NonEmpty(scope + [x]) == NonEmpty(scope + [y]) <==> x == y
  {
    NonEmptyAppend(scope, [x]);
    NonEmptyAppend(scope, [y]);
    assert [x][1..] == [] && [y][1..] == [];
    var a, b, low := NonEmpty([x]), NonEmpty([y]), NonEmpty(scope);
    assert a == (if x == map[] then [] else [x]) && b == (if y == map[] then [] else [y]);
    assert a == (low + a)[|low|..] && b == (low + b)[|low|..];
  }

  /** Two blocks, includes or roles of the same lists, files or tasks, one of which has a leaf,
      resolve to the same leaves exactly when their entries are the same: a changed, added or
      dropped keyword, condition or variable always shows. */
  lemma {:induction false} KeywordsShow(w: Repo, t: Task, t': Task, at: Place, inherited: seq<Keywords>, depth: nat)
    requires depth < LIMIT && Entry(w, t, at).Some? && Bare(t) == Bare(t')
    requires var leaves := FlattenTask(w, t, at, inherited, depth); leaves.Ok? && leaves.value != []
    ensures Entry(w, t', at).Some?
    ensures Same(FlattenTask(w, t, at, inherited, depth), FlattenTask(w, t', at, inherited, depth))
       <==> Entry(w, t, at) == Entry(w, t', at)
  {
    BareEnters(w, t, t', at);
    hide FlattenTask; hide Entry; hide Bare; hide Beneath; hide NonEmpty;
    EntryIsPrefix(w, t, at, inherited, depth);
    EntryIsPrefix(w, t', at, inherited, depth);
    var x, y := inherited + [Entry(w, t, at).value], inherited + [Entry(w, t', at).value];
    var bare := FlattenTask(w, Bare(t), at, [], depth).value;
    TrimmedIsBeneath(FlattenTask(w, t, at, inherited, depth).value);
    TrimmedIsBeneath(FlattenTask(w, t', at, inherited, depth).value);
    BeneathDiffers(x, y, bare);
    LastEntry(inherited, Entry(w, t, at).value, Entry(w, t', at).value);
  }

  lemma BareEnters(w: Repo, t: Task, t': Task, at: Place)
    requires Entry(w, t, at).Some? && Bare(t) == Bare(t')
    ensures Entry(w, t', at).Some?
  {
    hide Find; hide RoleExists; hide HasTemplate; hide KeywordsOf;
  }

  /** Blocks of the same lists with a leaf resolve alike exactly when they have the same
      conditions, variables and other keywords. */
  lemma {:induction false} BlockShows(w: Repo, t: Task, t': Task, at: Place, inherited: seq<Keywords>, depth: nat)
    requires depth < LIMIT && t.action.Block? && t'.action == t.action && Parsed(t) && Parsed(t')
    requires var leaves := FlattenTask(w, t, at, inherited, depth); leaves.Ok? && leaves.value != []
    ensures Same(FlattenTask(w, t, at, inherited, depth), FlattenTask(w, t', at, inherited, depth))
       <==> t.when == t'.when && t.vars == t'.vars && t.control == t'.control
  {
    hide FlattenTask; hide KeywordsOf;
    KeywordsShow(w, t, t', at, inherited, depth);
    EntriesDiffer(t, t');
  }
}
