/** Moving tasks between an entry file and its parts: which leaves change, and that no other does. */
module PartEquivalence {
  import opened Text
  import opened Paths
  import opened Tasks
  import opened TaskParts
  import opened Chain
  import opened PartSplit

  // An include of a part, moved to the entry

  /** The text of an include once its tasks are read against the entry's directory. */
  function MovedPath(a: Action, part: Dir, entry: Dir): string
    requires a.Include?
  {
    if FullyQualified(a) then Rebased(a.path, Parent(part), Parent(entry)) else a.path
  }

  /** The two texts name the same file, each from the first directory where it names any. */
  ghost predicate SameFound(w: Repo, text: string, folders: seq<Dir>, text': string, folders': seq<Dir>) {
    exists i: nat, j: nat :: FoundAt(w, text, folders, i) && FoundAt(w, text', folders', j)
                             && Anchor(folders[i], text) == Anchor(folders'[j], text')
  }

  /** The move of an include changes nothing: both texts name the same file, from the first
      directory where they name any; or none is there for either, which leaves the task a leaf
      with its text, and the text is the same, as it must be when it stays a template. */
  ghost predicate MoveUnseen(w: Repo, a: Action, part: Dir, entry: Dir, chain: seq<Dir>, role: Option<Dir>)
    requires a.Include?
  {
    var moved := MovedPath(a, part, entry);
    var text, text' := Substituted(w, a.path, role), Substituted(w, moved, role);
    var near, near' := [Parent(part)] + Folders(w, chain, role), [Parent(entry)] + Folders(w, chain, role);
    if HasTemplate(text) || HasTemplate(text') then moved == a.path
    else SameFound(w, text, near, text', near')
         || (Absent(w, text, near) && Absent(w, text', near') && moved == a.path)
  }

  lemma {:induction false} FirstsAgree(w: Repo, text: string, folders: seq<Dir>, text': string, folders': seq<Dir>)
    ensures var first := FirstFile(w.files.Keys, Places(folders, text));
            var first' := FirstFile(w.files.Keys, Places(folders', text'));
            && (SameFound(w, text, folders, text', folders') <==> first.Some? && first == first')
            && (Absent(w, text, folders) <==> first.None?) && (Absent(w, text', folders') <==> first'.None?)
  {
    hide Anchor; hide Absent;
    FirstIsFound(w, text, folders);
    FirstIsFound(w, text', folders');
    var first := FirstFile(w.files.Keys, Places(folders, text));
    var first' := FirstFile(w.files.Keys, Places(folders', text'));
    if first.Some? && first == first' {
      var i: nat :| FoundAt(w, text, folders, i);
      var j: nat :| FoundAt(w, text', folders', j);
    }
  }

  /** So it is in terms of what the lookups return. */
  lemma {:induction false} MoveUnseenLooksUp(w: Repo, a: Action, part: Dir, entry: Dir, chain: seq<Dir>,
                                             role: Option<Dir>)
    requires a.Include?
    ensures var moved := MovedPath(a, part, entry);
            var text, text' := Substituted(w, a.path, role), Substituted(w, moved, role);
            var found := Hit(w, text, Parent(part), Rest(w, text, chain, role));
            MoveUnseen(w, a, part, entry, chain, role)
            <==> if HasTemplate(text) || HasTemplate(text') then moved == a.path
                 else found == Hit(w, text', Parent(entry), Rest(w, text', chain, role))
                      && (found.None? ==> moved == a.path)
  {
    hide Substituted; hide HasTemplate; hide Anchor; hide Rest; hide Rebased; hide Hit; hide Folders; hide Absent;
    hide SameFound; hide FirstFile;
    var moved, folders := MovedPath(a, part, entry), Folders(w, chain, role);
    var text, text' := Substituted(w, a.path, role), Substituted(w, moved, role);
    RestIsFirst(w, text, chain, role);
    RestIsFirst(w, text', chain, role);
    HitIsFirst(w, text, Parent(part), folders);
    HitIsFirst(w, text', Parent(entry), folders);
    FirstsAgree(w, text, [Parent(part)] + folders, text', [Parent(entry)] + folders);
  }

  /** That is exactly when an include that stands in the part, under a chain that ends in the
      part, and the moved one in the entry, under the chain without it, come to the same. */
  lemma {:induction false} MoveUnseenIsExact(w: Repo, a: Action, part: Dir, entry: Dir, chain: seq<Dir>,
                                             role: Option<Dir>)
    requires a.Include?
    ensures var moved := MovedPath(a, part, entry);
            var found := Find(w, a.path, Place(part, chain + [part], role));
            found == Find(w, moved, Place(entry, chain, role)) && (found.None? ==> moved == a.path)
            <==> MoveUnseen(w, a, part, entry, chain, role)
  {
    hide Substituted; hide HasTemplate; hide Anchor; hide Find; hide Rest; hide Rebased; hide MoveUnseen;
    var moved := MovedPath(a, part, entry);
    MoveUnseenLooksUp(w, a, part, entry, chain, role);
    FindParts(w, a.path, Place(part, chain + [part], role));
    FindParts(w, moved, Place(entry, chain, role));
    RestBelow(w, Substituted(w, a.path, role), chain, part, role);
  }

  /** A text stays as it is exactly when it opens with a template, or its literal part names the
      same place from both directories and is spelled as `rebase` spells it. */
  lemma {:induction false} TextStays(text: string, source: Dir, base: Dir)
    ensures Rebased(text, source, base) == text
       <==> BRACES <= text || (Anchor(source, Prefix(text)) == Anchor(base, Prefix(text))
                               && Moved(Prefix(text), base, base) == Prefix(text))
  {
    hide Relpath; hide Anchor; hide Prefix; hide Tail; hide EndsInSlash;
    if !(BRACES <= text) {
      var p, moved := Prefix(text), Moved(Prefix(text), source, base);
      assert text == p + Tail(text) by { PrefixThenTail(text); }
      assert (moved + Tail(text))[..|moved|] == moved;
      if moved + Tail(text) == p + Tail(text) {
        assert |moved| == |p| && moved == (p + Tail(text))[..|p|] == p;
        MovedPlace(p, source, base);
      }
    }
  }

  lemma PrefixThenTail(text: string)
    ensures text == Prefix(text) + Tail(text)
  {
  }

  lemma {:induction false} MovedPlace(prefix: string, source: Dir, base: Dir)
    ensures Anchor(base, Moved(prefix, source, base)) == Anchor(source, prefix)
  {
    hide Relpath; hide Anchor;
    var place := Anchor(source, prefix);
    RelpathLeadsBack(place, base);
    TrailingSlash(base, Relpath(place, base));
    assert Relpath(place, base) + "" == Relpath(place, base);
  }

  /** An include whose path stays a template is unseen exactly when its text stays. */
  lemma {:induction false} TemplatedMove(w: Repo, a: Action, part: Dir, entry: Dir, chain: seq<Dir>, role: Option<Dir>)
    requires a.Include? && FullyQualified(a) && HasTemplate(Substituted(w, a.path, role))
    ensures var p := Prefix(a.path);
            MoveUnseen(w, a, part, entry, chain, role)
            <==> BRACES <= a.path || (Anchor(Parent(part), p) == Anchor(Parent(entry), p)
                                      && Moved(p, Parent(entry), Parent(entry)) == p)
  {
    hide Substituted; hide HasTemplate; hide Anchor; hide Rebased; hide Moved; hide Prefix;
    TextStays(a.path, Parent(part), Parent(entry));
  }

  /** A static include is unseen when its file is there, read from the part's directory, as the
      part suite requires; and when it is not, exactly if further up both texts name the same
      file from the first directory where they name any, or none is there and the text stays. */
  lemma {:induction false} StaticMove(w: Repo, a: Action, part: Dir, entry: Dir, chain: seq<Dir>, role: Option<Dir>)
    requires a.Include? && FullyQualified(a) && BraceFree(a.path) && PlainDir(Parent(part))
    ensures var moved, folders := Rebased(a.path, Parent(part), Parent(entry)), Folders(w, chain, role);
            MoveUnseen(w, a, part, entry, chain, role)
            <==> Anchor(Parent(part), a.path) in w.files
                 || SameFound(w, a.path, folders, moved, folders)
                 || (Absent(w, a.path, folders) && Absent(w, moved, folders) && moved == a.path)
  {
    hide Substituted; hide HasTemplate; hide Anchor; hide Moved; hide Rest; hide Prefix; hide Tail; hide MoveUnseen;
    hide SameFound; hide Absent; hide Folders;
    PlainHasNoTemplate(a.path);
    MovedLeads(a.path, Parent(part), Parent(entry));
    var moved, folders := Rebased(a.path, Parent(part), Parent(entry)), Folders(w, chain, role);
    assert moved == Moved(a.path, Parent(part), Parent(entry)) by { NoTail(a.path); }
    PlainHasNoTemplate(moved);
    SubstitutedNothing(w, a.path, role);
    SubstitutedNothing(w, moved, role);
    MoveUnseenLooksUp(w, a, part, entry, chain, role);
    RestIsFirst(w, a.path, chain, role);
    RestIsFirst(w, moved, chain, role);
    FirstsAgree(w, a.path, folders, moved, folders);
  }

  /** The file is the first a text names further up. */
  ghost predicate First(w: Repo, text: string, folders: seq<Dir>, file: Dir) {
    exists k: nat :: FoundAt(w, text, folders, k) && Anchor(folders[k], text) == file
  }

  /** An include that `rebase` leaves as it is, for its key, its form or its template: it is
      unseen exactly when its path stays a template; or names the same place from the part's
      and the entry's directories; or a file from neither; or from one of them only, and that
      file is the first it names further up. */
  lemma {:induction false} UnmovedMove(w: Repo, a: Action, part: Dir, entry: Dir, chain: seq<Dir>, role: Option<Dir>)
    requires a.Include? && (!FullyQualified(a) || BRACES <= a.path)
    ensures var text, folders := Substituted(w, a.path, role), Folders(w, chain, role);
            var here, there := Anchor(Parent(part), text), Anchor(Parent(entry), text);
            MoveUnseen(w, a, part, entry, chain, role)
            <==> HasTemplate(text) || here == there || (here !in w.files && there !in w.files)
                 || (here in w.files && there !in w.files && First(w, text, folders, here))
                 || (here !in w.files && there in w.files && First(w, text, folders, there))
  {
    hide Substituted; hide HasTemplate; hide Anchor; hide Rest; hide MoveUnseen; hide Folders; hide FoundAt;
    hide Absent;
    var text, folders := Substituted(w, a.path, role), Folders(w, chain, role);
    MoveUnseenLooksUp(w, a, part, entry, chain, role);
    RestIsFirst(w, text, chain, role);
    FirstIsFound(w, text, folders);
    FirstIsNamed(w, text, folders, Anchor(Parent(part), text));
    FirstIsNamed(w, text, folders, Anchor(Parent(entry), text));
  }

  lemma {:induction false} FirstIsNamed(w: Repo, text: string, folders: seq<Dir>, file: Dir)
    ensures First(w, text, folders, file) <==> FirstFile(w.files.Keys, Places(folders, text)) == Some(file)
  {
    hide Anchor; hide Absent;
    FirstIsFound(w, text, folders);
    if FirstFile(w.files.Keys, Places(folders, text)) == Some(file) {
      var k: nat :| FoundAt(w, text, folders, k);
    }
  }

  /** So an include that the suite accepts finds its file in both forms. */
  lemma {:induction false} MovedIsFound(w: Repo, a: Action, part: Dir, entry: Dir, chain: seq<Dir>, role: Option<Dir>)
    requires a.Include? && FullyQualified(a) && BraceFree(a.path) && PlainDir(Parent(part))
    requires Anchor(Parent(part), a.path) in w.files
    ensures var file := Anchor(Parent(part), a.path);
            && Find(w, a.path, Place(part, chain + [part], role)) == Some(file)
            && Find(w, Rebased(a.path, Parent(part), Parent(entry)), Place(entry, chain, role)) == Some(file)
  {
    hide Find; hide Anchor; hide Rebased; hide Rest; hide MoveUnseen; hide HasTemplate;
    PlainHasNoTemplate(a.path);
    FoundHere(w, a.path, Place(part, chain + [part], role));
    StaticMove(w, a, part, entry, chain, role);
    MoveUnseenIsExact(w, a, part, entry, chain, role);
  }

  // Tasks of a part, and everything they include

  ghost predicate PartTask(w: Repo, t: Task, entry: File, part: Dir, chain: seq<Dir>, role: Option<Dir>, depth: nat)
    requires depth < LIMIT
    decreases t, 1
  {
    match t.action
    case Block(block, rescue, always) =>
      && PartTasks(w, block, entry, part, chain, role, depth + 1)
      && PartTasks(w, rescue, entry, part, chain, role, depth + 1)
      && PartTasks(w, always, entry, part, chain, role, depth + 1)
    case Include(_, path, _) =>
      MoveUnseen(w, t.action, part, entry, chain, role) &&
      (match Find(w, path, Place(part, chain + [part], role))
       case Some(file) => UnseenFile(w, file, role, chain, part, [file], depth)
       case None => true)
    case Role(_, name, tasksFrom, _) =>
      !HasTemplate(name) && RoleExists(w, name) ==>
        var file := RoleFile(w, name, tasksFrom);
        UnseenFile(w, file, Some(RoleDir(w, name)), chain, part, [file], depth)
    case _ => true
  }

  /** No include of the part is changed by the move, and none met below them, however deep, sees
      the part. */
  ghost predicate PartTasks(w: Repo, ts: seq<Task>, entry: File, part: Dir, chain: seq<Dir>, role: Option<Dir>,
                            depth: nat)
    decreases ts, 0
  {
    depth < LIMIT && ts != [] ==>
      && PartTask(w, ts[0], entry, part, chain, role, depth)
      && PartTasks(w, ts[1..], entry, part, chain, role, depth)
  }

  ghost predicate SplitTask(w: Repo, t: Task, entry: File, chain: seq<Dir>, role: Option<Dir>, depth: nat)
    requires depth < LIMIT
    decreases t, 1
  {
    match PartOf(t, entry)
    case Some(part) =>
      && !HasTemplate(t.action.path) && part in w.files && NoParts(w.files[part], entry)
      && PartTasks(w, w.files[part], entry, part, chain, role, depth + 1)
    case None =>
      t.action.Block? ==>
        && SplitTasks(w, t.action.block, entry, chain, role, depth + 1)
        && SplitTasks(w, t.action.rescue, entry, chain, role, depth + 1)
        && SplitTasks(w, t.action.always, entry, chain, role, depth + 1)
  }

  /** The tasks of an entry whose parts exist, hold no part of it, and can be moved into it
      unseen. The entry's other includes are free. */
  ghost predicate SplitTasks(w: Repo, ts: seq<Task>, entry: File, chain: seq<Dir>, role: Option<Dir>, depth: nat)
    decreases ts, 0
  {
    depth < LIMIT && ts != [] ==>
      && SplitTask(w, ts[0], entry, chain, role, depth) && SplitTasks(w, ts[1..], entry, chain, role, depth)
  }

  /** A part's tasks, moved to the entry, resolve to the same leaves. */
  lemma {:induction false} MovedFlattens(w: Repo, ts: seq<Task>, entry: File, part: Dir, chain: seq<Dir>,
                                         role: Option<Dir>, inherited: seq<Keywords>, inherited': seq<Keywords>,
                                         depth: nat, depth': nat)
    requires PartTasks(w, ts, entry, part, chain, role, depth)
    requires depth' <= depth && NonEmpty(inherited) == NonEmpty(inherited')
    ensures Same(Flatten(w, ts, Place(part, chain + [part], role), inherited, depth),
                 Flatten(w, Rebase(ts, Parent(part), Parent(entry)), Place(entry, chain, role), inherited', depth'))
    decreases ts, 0
  {
    hide FlattenTask; hide PartTask; hide RebaseTask; hide NonEmpty;
    if depth < LIMIT && ts != [] {
      var moved := Rebase(ts, Parent(part), Parent(entry));
      assert moved[0] == RebaseTask(ts[0], Parent(part), Parent(entry))
          && moved[1..] == Rebase(ts[1..], Parent(part), Parent(entry));
      var at, at' := Place(part, chain + [part], role), Place(entry, chain, role);
      MovedFlattensTask(w, ts[0], entry, part, chain, role, inherited, inherited', depth, depth');
      MovedFlattens(w, ts[1..], entry, part, chain, role, inherited, inherited', depth, depth');
      var a, b := FlattenTask(w, ts[0], at, inherited, depth), Flatten(w, ts[1..], at, inherited, depth);
      if a.Ok? && b.Ok? {
        SameThen(a, b, FlattenTask(w, moved[0], at', inherited', depth'),
                 Flatten(w, moved[1..], at', inherited', depth'));
      }
    }
  }

  lemma {:induction false} MovedFlattensTask(w: Repo, t: Task, entry: File, part: Dir, chain: seq<Dir>,
                                             role: Option<Dir>, inherited: seq<Keywords>, inherited': seq<Keywords>,
                                             depth: nat, depth': nat)
    requires depth' <= depth < LIMIT && PartTask(w, t, entry, part, chain, role, depth)
    requires NonEmpty(inherited) == NonEmpty(inherited')
    ensures Same(FlattenTask(w, t, Place(part, chain + [part], role), inherited, depth),
                 FlattenTask(w, RebaseTask(t, Parent(part), Parent(entry)), Place(entry, chain, role), inherited',
                             depth'))
    decreases t, 1
  {
    if t.action.Block? {
      MovedFlattensBlock(w, t, entry, part, chain, role, inherited, inherited', depth, depth');
    } else if t.action.Include? {
      MovedFlattensInclude(w, t, entry, part, chain, role, inherited, inherited', depth, depth');
    } else {
      MovedFlattensOther(w, t, entry, part, chain, role, inherited, inherited', depth, depth');
    }
  }

  lemma {:induction false} MovedFlattensBlock(w: Repo, t: Task, entry: File, part: Dir, chain: seq<Dir>,
                                              role: Option<Dir>, inherited: seq<Keywords>, inherited': seq<Keywords>,
                                              depth: nat, depth': nat)
    requires t.action.Block? && depth' <= depth < LIMIT && PartTask(w, t, entry, part, chain, role, depth)
    requires NonEmpty(inherited) == NonEmpty(inherited')
    ensures Same(FlattenTask(w, t, Place(part, chain + [part], role), inherited, depth),
                 FlattenTask(w, RebaseTask(t, Parent(part), Parent(entry)), Place(entry, chain, role), inherited',
                             depth'))
    decreases t, 0
  {
    hide PartTasks; hide Flatten; hide NonEmpty; hide FlattenTask; hide Rebase;
    var k := [KeywordsOf(t)];
    var rescued, after := [Section("rescue")], [Section("always")];
    SameScope(inherited, inherited', k);
    SameScope(inherited + k, inherited' + k, rescued);
    SameScope(inherited + k, inherited' + k, after);
    MovedFlattens(w, t.action.block, entry, part, chain, role, inherited + k, inherited' + k, depth + 1, depth' + 1);
    MovedFlattens(w, t.action.rescue, entry, part, chain, role, inherited + k + rescued, inherited' + k + rescued,
                  depth + 1, depth' + 1);
    MovedFlattens(w, t.action.always, entry, part, chain, role, inherited + k + after, inherited' + k + after,
                  depth + 1, depth' + 1);
    BlockSame(w, w, t, RebaseTask(t, Parent(part), Parent(entry)), Place(part, chain + [part], role),
              Place(entry, chain, role), inherited, inherited', depth, depth');
  }

  lemma {:induction false} BelowPart(w: Repo, file: Dir, role: Option<Dir>, chain: seq<Dir>, part: Dir,
                                     inherited: seq<Keywords>, inherited': seq<Keywords>, more: seq<Keywords>,
                                     depth: nat, depth': nat)
    requires depth' <= depth < LIMIT && UnseenFile(w, file, role, chain, part, [file], depth)
    requires NonEmpty(inherited) == NonEmpty(inherited')
    ensures Same(FlattenFile(w, file, Place(file, chain + [part] + [file], role), inherited + more, depth),
                 FlattenFile(w, file, Place(file, chain + [file], role), inherited' + more, depth'))
  {
    hide UnseenFile; hide FlattenFile; hide NonEmpty;
    var none: seq<Dir> := [];
    assert none + [file] == [file] && chain + [part] + none == chain + [part] && chain + none == chain;
    UnseenFlattensFile(w, file, role, chain, part, none, inherited, inherited', more, depth, depth');
  }

  lemma {:induction false} MovedFlattensInclude(w: Repo, t: Task, entry: File, part: Dir, chain: seq<Dir>,
                                                role: Option<Dir>, inherited: seq<Keywords>, inherited': seq<Keywords>,
                                                depth: nat, depth': nat)
    requires t.action.Include? && depth' <= depth < LIMIT && PartTask(w, t, entry, part, chain, role, depth)
    requires NonEmpty(inherited) == NonEmpty(inherited')
    ensures Same(FlattenTask(w, t, Place(part, chain + [part], role), inherited, depth),
                 FlattenTask(w, RebaseTask(t, Parent(part), Parent(entry)), Place(entry, chain, role), inherited',
                             depth'))
  {
    hide Find; hide KeywordsOf; hide FlattenFile; hide NonEmpty; hide Rebased; hide MoveUnseen; hide UnseenFile;
    var t' := RebaseTask(t, Parent(part), Parent(entry));
    assert KeywordsOf(t') == KeywordsOf(t) by { SameKeywords(t, t'); }
    var more := [KeywordsOf(t) + (if t.action.options.Some? then t.action.options.value else map[])];
    MoveUnseenIsExact(w, t.action, part, entry, chain, role);
    assert t'.action.path == MovedPath(t.action, part, entry);
    var found := Find(w, t.action.path, Place(part, chain + [part], role));
    if found.Some? {
      BelowPart(w, found.value, role, chain, part, inherited, inherited', more, depth, depth');
    } else {
      assert t' == t;
      TrimmedOne();
    }
  }

  lemma SameKeywords(t: Task, t': Task)
    requires t'.vars == t.vars && t'.control == t.control && t'.when == t.when
    ensures KeywordsOf(t') == KeywordsOf(t)
  {
  }

  lemma {:induction false} MovedFlattensOther(w: Repo, t: Task, entry: File, part: Dir, chain: seq<Dir>,
                                              role: Option<Dir>, inherited: seq<Keywords>, inherited': seq<Keywords>,
                                              depth: nat, depth': nat)
    requires !t.action.Block? && !t.action.Include? && depth' <= depth < LIMIT
    requires PartTask(w, t, entry, part, chain, role, depth) && NonEmpty(inherited) == NonEmpty(inherited')
    ensures Same(FlattenTask(w, t, Place(part, chain + [part], role), inherited, depth),
                 FlattenTask(w, RebaseTask(t, Parent(part), Parent(entry)), Place(entry, chain, role), inherited',
                             depth'))
  {
    hide KeywordsOf; hide FlattenFile; hide NonEmpty; hide RoleFile; hide RoleExists; hide RoleDir; hide HasTemplate;
    hide UnseenFile;
    TrimmedOne();
    match t.action {
      case Role(_, name, tasksFrom, extra) =>
        if !HasTemplate(name) && RoleExists(w, name) {
          BelowPart(w, RoleFile(w, name, tasksFrom), Some(RoleDir(w, name)), chain, part, inherited, inherited',
                    [KeywordsOf(t) + extra], depth, depth');
        }
      case _ =>
    }
  }

  // An entry and its spliced form

  lemma {:induction false} FlattenAppend(w: Repo, xs: seq<Task>, ys: seq<Task>, at: Place, inherited: seq<Keywords>,
                                         depth: nat)
    requires depth < LIMIT && Flatten(w, xs, at, inherited, depth).Ok? && Flatten(w, ys, at, inherited, depth).Ok?
    ensures Flatten(w, xs + ys, at, inherited, depth)
         == Ok(Flatten(w, xs, at, inherited, depth).value + Flatten(w, ys, at, inherited, depth).value)
  {
    hide FlattenTask;
    if xs == [] {
      assert xs + ys == ys;
      assert [] + Flatten(w, ys, at, inherited, depth).value == Flatten(w, ys, at, inherited, depth).value;
    } else {
      assert (xs + ys)[0] == xs[0] && (xs + ys)[1..] == xs[1..] + ys;
      FlattenAppend(w, xs[1..], ys, at, inherited, depth);
      var head := FlattenTask(w, xs[0], at, inherited, depth).value;
      var mid := Flatten(w, xs[1..], at, inherited, depth).value;
      var last := Flatten(w, ys, at, inherited, depth).value;
      assert head + (mid + last) == (head + mid) + last;
    }
  }

  lemma {:induction false} FlattenOne(w: Repo, t: Task, at: Place, inherited: seq<Keywords>, depth: nat)
    requires depth < LIMIT
    ensures Flatten(w, [t], at, inherited, depth) == FlattenTask(w, t, at, inherited, depth)
  {
    hide FlattenTask;
    assert [t][1..] == [];
    var r := FlattenTask(w, t, at, inherited, depth);
    if r.Ok? { assert r.value + [] == r.value; }
  }

  lemma {:induction false} EmptyScopesUnseen(w: Repo, t: Task, at: Place, inherited: seq<Keywords>,
                                             inherited': seq<Keywords>, depth: nat)
    requires !t.action.Block? && depth < LIMIT && NonEmpty(inherited) == NonEmpty(inherited')
    ensures Same(FlattenTask(w, t, at, inherited, depth), FlattenTask(w, t, at, inherited', depth))
  {
    hide Find; hide KeywordsOf; hide NonEmpty; hide RoleFile; hide RoleExists; hide RoleDir; hide HasTemplate;
    hide Flatten;
    TrimmedOne();
    match t.action {
      case Include(_, _, options) =>
        SameScope(inherited, inherited', [KeywordsOf(t) + (if options.Some? then options.value else map[])]);
      case Role(_, _, _, extra) => SameScope(inherited, inherited', [KeywordsOf(t) + extra]);
      case _ =>
    }
  }

  /** Resolving ignores part splits: the entry as it stands and the entry with its parts
      spliced in give the same leaves, in the same order, with the same scopes. */
  lemma {:induction false} ResolverIgnoresParts(w: Repo, fuel: nat, ts: seq<Task>, entry: File, at: Place,
                                                inherited: seq<Keywords>, inherited': seq<Keywords>, depth: nat)
    requires at.here == entry && SplitTasks(w, ts, entry, at.chain, at.role, depth)
    requires Splice(w.files, fuel, ts, entry).Ok? && NonEmpty(inherited) == NonEmpty(inherited')
    ensures Same(Flatten(w, ts, at, inherited, depth),
                 Flatten(w, Splice(w.files, fuel, ts, entry).value, at, inherited', depth))
    decreases ts, 0
  {
    hide FlattenTask; hide SplitTask; hide SpliceTask; hide NonEmpty;
    if depth < LIMIT && ts != [] {
      ResolverIgnoresPartsTask(w, fuel, ts[0], entry, at, inherited, inherited', depth);
      ResolverIgnoresParts(w, fuel, ts[1..], entry, at, inherited, inherited', depth);
      var head, tail := SpliceTask(w.files, fuel, ts[0], entry).value, Splice(w.files, fuel, ts[1..], entry).value;
      var a, b := FlattenTask(w, ts[0], at, inherited, depth), Flatten(w, ts[1..], at, inherited, depth);
      if a.Ok? && b.Ok? {
        FlattenAppend(w, head, tail, at, inherited', depth);
        SameThen(a, b, Flatten(w, head, at, inherited', depth), Flatten(w, tail, at, inherited', depth));
      }
    }
  }

  lemma {:induction false} ResolverIgnoresPartsTask(w: Repo, fuel: nat, t: Task, entry: File, at: Place,
                                                    inherited: seq<Keywords>, inherited': seq<Keywords>, depth: nat)
    requires at.here == entry && depth < LIMIT && SplitTask(w, t, entry, at.chain, at.role, depth)
    requires SpliceTask(w.files, fuel, t, entry).Ok? && NonEmpty(inherited) == NonEmpty(inherited')
    ensures Same(FlattenTask(w, t, at, inherited, depth),
                 Flatten(w, SpliceTask(w.files, fuel, t, entry).value, at, inherited', depth))
    decreases t, 1
  {
    hide FlattenTask; hide PartOf; hide NonEmpty; hide Flatten; hide PartTasks; hide HasTemplate; hide NoParts;
    match PartOf(t, entry) {
      case Some(part) =>
        SpliceNothing(w.files, fuel - 1, w.files[part], entry);
        PartIsRead(w, t, entry, at, inherited, depth);
        SameScope(inherited, inherited', [map[]]);
        EmptyScope(inherited);
        MovedFlattens(w, w.files[part], entry, part, at.chain, at.role, NonEmpty(inherited), inherited', depth + 1,
                      depth);
      case None =>
        FlattenOne(w, SpliceTask(w.files, fuel, t, entry).value[0], at, inherited', depth);
        if t.action.Block? {
          ResolverIgnoresPartsBlock(w, fuel, t, entry, at, inherited, inherited', depth);
        } else {
          EmptyScopesUnseen(w, t, at, inherited, inherited', depth);
        }
    }
  }

  lemma {:induction false} EmptyScope(inherited: seq<Keywords>)
    ensures NonEmpty(inherited + [map[]]) == NonEmpty(inherited) && NonEmpty(NonEmpty(inherited)) == NonEmpty(inherited)
  {
    var empty: seq<Keywords> := [map[]];
    NonEmptyAppend(inherited, empty);
    NonEmptyTwice(inherited);
    assert empty[1..] == [] && NonEmpty(empty) == [];
  }

  /** In place, a part import is read from the part's file, one level deeper. */
  lemma {:induction false} PartIsRead(w: Repo, t: Task, entry: File, at: Place, inherited: seq<Keywords>, depth: nat)
    requires PartOf(t, entry).Some? && PartOf(t, entry).value in w.files && at.here == entry && depth < LIMIT
    requires !HasTemplate(t.action.path)
    ensures var part := PartOf(t, entry).value;
            FlattenTask(w, t, at, inherited, depth)
            == Flatten(w, w.files[part], Place(part, at.chain + [part], at.role), NonEmpty(inherited), depth + 1)
  {
    hide Find; hide HasTemplate; hide Anchor; hide Flatten; hide NonEmpty; hide EntryStem;
    FoundHere(w, t.action.path, at);
    EmptyScope(inherited);
  }

  lemma {:induction false} ResolverIgnoresPartsBlock(w: Repo, fuel: nat, t: Task, entry: File, at: Place,
                                                     inherited: seq<Keywords>, inherited': seq<Keywords>, depth: nat)
    requires t.action.Block? && PartOf(t, entry).None?
    requires at.here == entry && depth < LIMIT && SplitTask(w, t, entry, at.chain, at.role, depth)
    requires SpliceTask(w.files, fuel, t, entry).Ok? && NonEmpty(inherited) == NonEmpty(inherited')
    ensures Same(FlattenTask(w, t, at, inherited, depth),
                 FlattenTask(w, SpliceTask(w.files, fuel, t, entry).value[0], at, inherited', depth))
    decreases t, 0
  {
    hide FlattenTask; hide PartOf; hide NonEmpty; hide Flatten; hide Splice; hide SplitTasks;
    var k := [KeywordsOf(t)];
    var rescued, after := [Section("rescue")], [Section("always")];
    SameScope(inherited, inherited', k);
    SameScope(inherited + k, inherited' + k, rescued);
    SameScope(inherited + k, inherited' + k, after);
    ResolverIgnoresParts(w, fuel, t.action.block, entry, at, inherited + k, inherited' + k, depth + 1);
    ResolverIgnoresParts(w, fuel, t.action.rescue, entry, at, inherited + k + rescued, inherited' + k + rescued,
                         depth + 1);
    ResolverIgnoresParts(w, fuel, t.action.always, entry, at, inherited + k + after, inherited' + k + after, depth + 1);
    BlockSame(w, w, t, SpliceTask(w.files, fuel, t, entry).value[0], at, at, inherited, inherited', depth, depth);
  }

  // The whole repository, with one entry replaced by its spliced form

  function Unsplit(w: Repo, entry: File, tasks: seq<Task>): Repo { w.(files := w.files[entry := tasks]) }

  lemma {:induction false} SameLookup(w: Repo, w': Repo, path: string, at: Place)
    requires w'.root == w.root && w'.playbook == w.playbook && w'.files.Keys == w.files.Keys
    ensures Find(w', path, at) == Find(w, path, at)
  {
    hide Anchor; hide Replace; hide Absolute; hide HasTemplate;
  }

  lemma {:induction false} SameRoles(w: Repo, w': Repo, name: string, tasksFrom: string)
    requires w'.root == w.root && w'.files.Keys == w.files.Keys
    ensures RoleExists(w', name) == RoleExists(w, name) && RoleDir(w', name) == RoleDir(w, name)
    ensures RoleFile(w', name, tasksFrom) == RoleFile(w, name, tasksFrom)
  {
    hide Anchor;
    assert Roles(w') == Roles(w) && forall file :: file in w.files <==> file in w'.files.Keys;
  }

  ghost predicate SplitBelowTask(w: Repo, entry: File, tasks: seq<Task>, t: Task, at: Place, depth: nat)
    requires depth < LIMIT
    decreases Left(depth), t, 1
  {
    match t.action
    case Block(block, rescue, always) =>
      && SplitBelow(w, entry, tasks, block, at, depth + 1) && SplitBelow(w, entry, tasks, rescue, at, depth + 1)
      && SplitBelow(w, entry, tasks, always, at, depth + 1)
    case Include(_, path, _) =>
      (match Find(w, path, at)
       case Some(file) => SplitBelowFile(w, entry, tasks, Place(file, at.chain + [file], at.role), depth)
       case None => true)
    case Role(_, name, tasksFrom, _) =>
      !HasTemplate(name) && RoleExists(w, name) ==>
        var file := RoleFile(w, name, tasksFrom);
        SplitBelowFile(w, entry, tasks, Place(file, at.chain + [file], Some(RoleDir(w, name))), depth)
    case _ => true
  }

  /** Wherever the resolution of these tasks reaches the entry, the entry's parts can be moved
      into it unseen. `tasks` are the entry's with its parts spliced in. */
  ghost predicate SplitBelow(w: Repo, entry: File, tasks: seq<Task>, ts: seq<Task>, at: Place, depth: nat)
    decreases Left(depth), ts, 0
  {
    depth < LIMIT && ts != [] ==>
      SplitBelowTask(w, entry, tasks, ts[0], at, depth) && SplitBelow(w, entry, tasks, ts[1..], at, depth)
  }

  ghost predicate SplitBelowFile(w: Repo, entry: File, tasks: seq<Task>, at: Place, depth: nat)
    requires depth < LIMIT
    decreases Left(depth) - 1
  {
    at.here in w.files ==>
      if at.here == entry then
        && SplitTasks(w, w.files[entry], entry, at.chain, at.role, depth + 1)
        && SplitBelow(w, entry, tasks, tasks, at, depth + 1)
      else SplitBelow(w, entry, tasks, w.files[at.here], at, depth + 1)
  }

  /** The split can be undone for a whole run: in the repository whose entry file holds the
      spliced tasks, every list of tasks, from wherever and however deep it reaches the entry,
      resolves to the same leaves. */
  lemma {:induction false} UnsplitResolvesTheSame(w: Repo, fuel: nat, entry: File, tasks: seq<Task>, ts: seq<Task>,
                                                  at: Place, inherited: seq<Keywords>, inherited': seq<Keywords>,
                                                  depth: nat)
    requires entry in w.files && Splice(w.files, fuel, w.files[entry], entry) == Ok(tasks)
    requires SplitBelow(w, entry, tasks, ts, at, depth) && NonEmpty(inherited) == NonEmpty(inherited')
    ensures Same(Flatten(w, ts, at, inherited, depth), Flatten(Unsplit(w, entry, tasks), ts, at, inherited', depth))
    decreases Left(depth), ts, 0
  {
    hide FlattenTask; hide SplitBelowTask; hide NonEmpty; hide Splice; hide Unsplit;
    if depth < LIMIT && ts != [] {
      var w' := Unsplit(w, entry, tasks);
      UnsplitTask(w, fuel, entry, tasks, ts[0], at, inherited, inherited', depth);
      UnsplitResolvesTheSame(w, fuel, entry, tasks, ts[1..], at, inherited, inherited', depth);
      var a, b := FlattenTask(w, ts[0], at, inherited, depth), Flatten(w, ts[1..], at, inherited, depth);
      if a.Ok? && b.Ok? {
        SameThen(a, b, FlattenTask(w', ts[0], at, inherited', depth), Flatten(w', ts[1..], at, inherited', depth));
      }
    }
  }

  lemma {:induction false} UnsplitTask(w: Repo, fuel: nat, entry: File, tasks: seq<Task>, t: Task, at: Place,
                                       inherited: seq<Keywords>, inherited': seq<Keywords>, depth: nat)
    requires entry in w.files && Splice(w.files, fuel, w.files[entry], entry) == Ok(tasks)
    requires depth < LIMIT && SplitBelowTask(w, entry, tasks, t, at, depth)
    requires NonEmpty(inherited) == NonEmpty(inherited')
    ensures Same(FlattenTask(w, t, at, inherited, depth),
                 FlattenTask(Unsplit(w, entry, tasks), t, at, inherited', depth))
    decreases Left(depth), t, 1
  {
    hide Find; hide KeywordsOf; hide FlattenFile; hide NonEmpty; hide RoleFile; hide RoleExists; hide RoleDir;
    hide HasTemplate; hide Splice; hide SplitBelow; hide SplitBelowFile; hide Flatten;
    var w' := Unsplit(w, entry, tasks);
    assert w'.files.Keys == w.files.Keys;
    TrimmedOne();
    match t.action {
      case Block(_, _, _) => UnsplitBlock(w, fuel, entry, tasks, t, at, inherited, inherited', depth);
      case Include(_, path, options) =>
        SameLookup(w, w', path, at);
        var more := [KeywordsOf(t) + (if options.Some? then options.value else map[])];
        if Find(w, path, at).Some? {
          var file := Find(w, path, at).value;
          UnsplitFile(w, fuel, entry, tasks, Place(file, at.chain + [file], at.role), inherited, inherited', more,
                      depth);
        }
      case Role(_, name, tasksFrom, extra) =>
        SameRoles(w, w', name, tasksFrom);
        if !HasTemplate(name) && RoleExists(w, name) {
          var file := RoleFile(w, name, tasksFrom);
          UnsplitFile(w, fuel, entry, tasks, Place(file, at.chain + [file], Some(RoleDir(w, name))), inherited,
                      inherited', [KeywordsOf(t) + extra], depth);
        }
      case _ =>
    }
  }

  lemma {:induction false} UnsplitBlock(w: Repo, fuel: nat, entry: File, tasks: seq<Task>, t: Task, at: Place,
                                        inherited: seq<Keywords>, inherited': seq<Keywords>, depth: nat)
    requires entry in w.files && Splice(w.files, fuel, w.files[entry], entry) == Ok(tasks)
    requires t.action.Block? && depth < LIMIT && SplitBelowTask(w, entry, tasks, t, at, depth)
    requires NonEmpty(inherited) == NonEmpty(inherited')
    ensures Same(FlattenTask(w, t, at, inherited, depth),
                 FlattenTask(Unsplit(w, entry, tasks), t, at, inherited', depth))
    decreases Left(depth), t, 0
  {
    hide SplitBelow; hide NonEmpty; hide Flatten; hide FlattenTask; hide Unsplit; hide KeywordsOf; hide Splice;
    var k := [KeywordsOf(t)];
    var rescued, after := [Section("rescue")], [Section("always")];
    SameScope(inherited, inherited', k);
    SameScope(inherited + k, inherited' + k, rescued);
    SameScope(inherited + k, inherited' + k, after);
    UnsplitResolvesTheSame(w, fuel, entry, tasks, t.action.block, at, inherited + k, inherited' + k, depth + 1);
    UnsplitResolvesTheSame(w, fuel, entry, tasks, t.action.rescue, at, inherited + k + rescued,
                           inherited' + k + rescued, depth + 1);
    UnsplitResolvesTheSame(w, fuel, entry, tasks, t.action.always, at, inherited + k + after, inherited' + k + after,
                           depth + 1);
    BlockSame(w, Unsplit(w, entry, tasks), t, t, at, at, inherited, inherited', depth, depth);
  }

  lemma {:induction false} UnsplitFile(w: Repo, fuel: nat, entry: File, tasks: seq<Task>, at: Place,
                                       inherited: seq<Keywords>, inherited': seq<Keywords>, more: seq<Keywords>,
                                       depth: nat)
    requires entry in w.files && Splice(w.files, fuel, w.files[entry], entry) == Ok(tasks)
    requires depth < LIMIT && SplitBelowFile(w, entry, tasks, at, depth)
    requires NonEmpty(inherited) == NonEmpty(inherited')
    ensures Same(FlattenFile(w, at.here, at, inherited + more, depth),
                 FlattenFile(Unsplit(w, entry, tasks), at.here, at, inherited' + more, depth))
    decreases Left(depth) - 1
  {
    hide NonEmpty; hide Flatten; hide Splice; hide SplitTasks; hide SplitBelow;
    SameScope(inherited, inherited', more);
    var scope := NonEmpty(inherited + more);
    if at.here == entry {
      ResolverIgnoresParts(w, fuel, w.files[entry], entry, at, scope, scope, depth + 1);
      UnsplitResolvesTheSame(w, fuel, entry, tasks, tasks, at, scope, scope, depth + 1);
    } else if at.here in w.files {
      UnsplitResolvesTheSame(w, fuel, entry, tasks, w.files[at.here], at, scope, scope, depth + 1);
    }
  }
}
