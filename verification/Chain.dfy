/** When a file on the way to an include changes nothing about what the include finds. */
module Chain {
  import opened Text
  import opened Paths
  import opened Tasks
  import opened TaskParts

  // What an include finds, piece by piece

  /** The last places an include is looked up in: the role's tasks and the playbook's directory. */
  function Outer(w: Repo, text: string, role: Option<Dir>): seq<Dir> {
    (if role.None? then [] else [Anchor(role.value + ["tasks"], text)]) + [Anchor(Parent(w.playbook), text)]
  }

  /** What a text finds from the files above on: the chain, the role, the playbook. */
  function Rest(w: Repo, text: string, chain: seq<Dir>, role: Option<Dir>): Option<Dir> {
    FirstFile(w.files.Keys, Above(chain, text) + Outer(w, text, role))
  }

  /** What it finds from a directory on. */
  function Hit(w: Repo, text: string, dir: Dir, rest: Option<Dir>): Option<Dir> {
    if Anchor(dir, text) in w.files then Some(Anchor(dir, text)) else rest
  }

  lemma {:induction false} FirstAppend(files: set<Dir>, xs: seq<Dir>, ys: seq<Dir>)
    ensures FirstFile(files, xs + ys)
         == if FirstFile(files, xs).Some? then FirstFile(files, xs) else FirstFile(files, ys)
  {
    if xs == [] {
      assert xs + ys == ys;
    } else {
      assert (xs + ys)[0] == xs[0] && (xs + ys)[1..] == xs[1..] + ys;
      FirstAppend(files, xs[1..], ys);
    }
  }

  lemma {:induction false} AboveAppend(low: seq<Dir>, high: seq<Dir>, text: string)
    ensures Above(low + high, text) == Above(high, text) + Above(low, text)
  {
    if high == [] {
      assert low + high == low;
    } else {
      var last := high[|high| - 1];
      assert (low + high)[|low + high| - 1] == last;
      assert (low + high)[..|low + high| - 1] == low + high[..|high| - 1];
      AboveAppend(low, high[..|high| - 1], text);
    }
  }

  lemma {:induction false} FindParts(w: Repo, path: string, at: Place)
    ensures var text := Substituted(w, path, at.role);
            Find(w, path, at) == if HasTemplate(text) then None
                                 else Hit(w, text, Parent(at.here), Rest(w, text, at.chain, at.role))
  {
    hide Substituted; hide HasTemplate; hide Anchor; hide Above;
    var text := Substituted(w, path, at.role);
    var first: seq<Dir> := [Anchor(Parent(at.here), text)];
    assert Candidates(w, text, at) == first + (Above(at.chain, text) + Outer(w, text, at.role));
    FirstAppend(w.files.Keys, first, Above(at.chain, text) + Outer(w, text, at.role));
    assert first[1..] == [];
  }

  lemma {:induction false} RestSplits(w: Repo, text: string, low: seq<Dir>, high: seq<Dir>, role: Option<Dir>)
    ensures var found := FirstFile(w.files.Keys, Above(high, text));
            Rest(w, text, low + high, role) == if found.Some? then found else Rest(w, text, low, role)
  {
    hide Above; hide Outer;
    AboveAppend(low, high, text);
    assert Above(high, text) + Above(low, text) + Outer(w, text, role)
        == Above(high, text) + (Above(low, text) + Outer(w, text, role));
    FirstAppend(w.files.Keys, Above(high, text), Above(low, text) + Outer(w, text, role));
  }

  lemma {:induction false} RestBelow(w: Repo, text: string, chain: seq<Dir>, file: Dir, role: Option<Dir>)
    ensures Rest(w, text, chain + [file], role) == Hit(w, text, Parent(file), Rest(w, text, chain, role))
  {
    hide Anchor;
    RestSplits(w, text, chain, [file], role);
    var one: seq<Dir> := [file];
    assert one[..|one| - 1] == [] && Above([], text) == [];
    assert Above(one, text) == [Anchor(Parent(file), text)] + Above([], text);
    assert Above(one, text)[1..] == [];
  }

  // Where a text is looked up, and which files are there

  /** The directories of the files above, the nearest first. */
  function Parents(chain: seq<Dir>): seq<Dir> {
    if chain == [] then [] else [Parent(chain[|chain| - 1])] + Parents(chain[..|chain| - 1])
  }

  /** The directories an include is looked up in after its own file's. */
  function Folders(w: Repo, chain: seq<Dir>, role: Option<Dir>): seq<Dir> {
    Parents(chain) + (if role.None? then [] else [role.value + ["tasks"]]) + [Parent(w.playbook)]
  }

  function Places(folders: seq<Dir>, text: string): (places: seq<Dir>)
    ensures |places| == |folders| && forall k :: 0 <= k < |folders| ==> places[k] == Anchor(folders[k], text)
  {
    if folders == [] then [] else [Anchor(folders[0], text)] + Places(folders[1..], text)
  }

  /** The text names a file from none of the directories. */
  predicate Absent(w: Repo, text: string, folders: seq<Dir>) {
    forall k :: 0 <= k < |folders| ==> Anchor(folders[k], text) !in w.files
  }

  /** It does from this one, and from none before it. */
  predicate FoundAt(w: Repo, text: string, folders: seq<Dir>, k: nat) {
    k < |folders| && Anchor(folders[k], text) in w.files
    && forall j :: 0 <= j < k ==> Anchor(folders[j], text) !in w.files
  }

  lemma FoundLater(w: Repo, text: string, folders: seq<Dir>, k: nat)
    requires folders != []
    ensures FoundAt(w, text, folders, k + 1)
       <==> Anchor(folders[0], text) !in w.files && FoundAt(w, text, folders[1..], k)
  {
    hide Anchor;
    if Anchor(folders[0], text) !in w.files && FoundAt(w, text, folders[1..], k) {
      forall j | 0 <= j < k + 1 ensures Anchor(folders[j], text) !in w.files {
        if j > 0 { assert folders[j] == folders[1..][j - 1]; }
      }
    }
    if FoundAt(w, text, folders, k + 1) {
      forall j | 0 <= j < k ensures Anchor(folders[1..][j], text) !in w.files {
        assert folders[1..][j] == folders[j + 1];
      }
    }
  }

  lemma AbsentLater(w: Repo, text: string, folders: seq<Dir>)
    requires folders != []
    ensures Absent(w, text, folders) <==> Anchor(folders[0], text) !in w.files && Absent(w, text, folders[1..])
  {
    hide Anchor;
    assert forall k :: 0 < k < |folders| ==> folders[k] == folders[1..][k - 1];
    assert forall k :: 0 <= k < |folders| - 1 ==> folders[1..][k] == folders[k + 1];
  }

  lemma {:induction false} FirstIsFound(w: Repo, text: string, folders: seq<Dir>)
    ensures var first := FirstFile(w.files.Keys, Places(folders, text));
            && (first.None? <==> Absent(w, text, folders))
            && (forall k: nat :: FoundAt(w, text, folders, k) ==> first == Some(Anchor(folders[k], text)))
            && (first.Some? ==> exists k: nat :: FoundAt(w, text, folders, k))
    decreases |folders|
  {
    hide Anchor; hide Absent;
    if folders == [] {
      NothingIsAbsent(w, text);
    } else {
      FirstIsFound(w, text, folders[1..]);
      AbsentLater(w, text, folders);
      assert Places(folders, text)[1..] == Places(folders[1..], text);
      forall k: nat | FoundAt(w, text, folders, k + 1) ensures FoundAt(w, text, folders[1..], k) {
        FoundLater(w, text, folders, k);
      }
      if Anchor(folders[0], text) in w.files {
        assert FoundAt(w, text, folders, 0);
      } else if k: nat :| FoundAt(w, text, folders[1..], k) {
        FoundLater(w, text, folders, k);
      }
      forall k: nat | FoundAt(w, text, folders, k)
        ensures FirstFile(w.files.Keys, Places(folders, text)) == Some(Anchor(folders[k], text))
      {
        if k > 0 { assert FoundAt(w, text, folders[1..], k - 1) by { FoundLater(w, text, folders, k - 1); } }
      }
    }
  }

  lemma NothingIsAbsent(w: Repo, text: string)
    ensures Absent(w, text, [])
  {
  }

  lemma {:induction false} AboveAreParents(chain: seq<Dir>, text: string)
    ensures Above(chain, text) == Places(Parents(chain), text)
  {
    hide Anchor;
    if chain != [] {
      var high := Parents(chain[..|chain| - 1]);
      AboveAreParents(chain[..|chain| - 1], text);
      assert ([Parent(chain[|chain| - 1])] + high)[1..] == high;
    }
  }

  lemma {:induction false} RestIsFirst(w: Repo, text: string, chain: seq<Dir>, role: Option<Dir>)
    ensures Rest(w, text, chain, role) == FirstFile(w.files.Keys, Places(Folders(w, chain, role), text))
  {
    hide Anchor;
    AboveAreParents(chain, text);
    assert Above(chain, text) + Outer(w, text, role) == Places(Folders(w, chain, role), text);
  }

  lemma {:induction false} HitIsFirst(w: Repo, text: string, dir: Dir, folders: seq<Dir>)
    ensures Hit(w, text, dir, FirstFile(w.files.Keys, Places(folders, text)))
         == FirstFile(w.files.Keys, Places([dir] + folders, text))
  {
    hide Anchor;
    assert ([dir] + folders)[1..] == folders;
    assert Places([dir] + folders, text)[1..] == Places(folders, text);
  }

  // A file in the chain

  /** An include below a file of the chain does not see it: its path stays a template; or it is
      found before the file's directory is tried; or it is not there; or without the file it is
      found all the same. */
  predicate Unseen(w: Repo, path: string, here: Dir, low: seq<Dir>, part: Dir, high: seq<Dir>, role: Option<Dir>) {
    var text := Substituted(w, path, role);
    || HasTemplate(text) || Anchor(Parent(here), text) in w.files
    || FirstFile(w.files.Keys, Above(high, text)).Some?
    || Anchor(Parent(part), text) !in w.files
    || Rest(w, text, low, role) == Some(Anchor(Parent(part), text))
  }

  /** Taking a file out of the chain changes nothing about what an include finds exactly when
      the include does not see it. */
  lemma {:induction false} UnseenIsExact(w: Repo, path: string, here: Dir, low: seq<Dir>, part: Dir, high: seq<Dir>,
                                         role: Option<Dir>)
    ensures Find(w, path, Place(here, low + [part] + high, role)) == Find(w, path, Place(here, low + high, role))
       <==> Unseen(w, path, here, low, part, high, role)
  {
    hide Substituted; hide HasTemplate; hide Anchor; hide Above; hide Find; hide Rest;
    var text := Substituted(w, path, role);
    FindParts(w, path, Place(here, low + [part] + high, role));
    FindParts(w, path, Place(here, low + high, role));
    RestSplits(w, text, low + [part], high, role);
    RestSplits(w, text, low, high, role);
    RestBelow(w, text, low, part, role);
  }

  // Everything that is resolved below such a file

  predicate UnseenTask(w: Repo, t: Task, here: Dir, role: Option<Dir>, low: seq<Dir>, part: Dir, high: seq<Dir>,
                       depth: nat)
    requires depth < LIMIT
    decreases Left(depth), t, 1
  {
    match t.action
    case Block(block, rescue, always) =>
      && UnseenTasks(w, block, here, role, low, part, high, depth + 1)
      && UnseenTasks(w, rescue, here, role, low, part, high, depth + 1)
      && UnseenTasks(w, always, here, role, low, part, high, depth + 1)
    case Include(_, path, _) =>
      Unseen(w, path, here, low, part, high, role) &&
      (match Find(w, path, Place(here, low + high, role))
       case Some(file) => UnseenFile(w, file, role, low, part, high + [file], depth)
       case None => true)
    case Role(_, name, tasksFrom, _) =>
      !HasTemplate(name) && RoleExists(w, name) ==>
        var file := RoleFile(w, name, tasksFrom);
        UnseenFile(w, file, Some(RoleDir(w, name)), low, part, high + [file], depth)
    case _ => true
  }

  /** No include that is met while these tasks are resolved, however deep, sees the file. */
  predicate UnseenTasks(w: Repo, ts: seq<Task>, here: Dir, role: Option<Dir>, low: seq<Dir>, part: Dir, high: seq<Dir>,
                        depth: nat)
    decreases Left(depth), ts, 0
  {
    depth < LIMIT && ts != [] ==>
      && UnseenTask(w, ts[0], here, role, low, part, high, depth)
      && UnseenTasks(w, ts[1..], here, role, low, part, high, depth)
  }

  predicate UnseenFile(w: Repo, file: Dir, role: Option<Dir>, low: seq<Dir>, part: Dir, high: seq<Dir>, depth: nat)
    requires depth < LIMIT
    decreases Left(depth) - 1
  {
    file in w.files ==> UnseenTasks(w, w.files[file], file, role, low, part, high, depth + 1)
  }

  /** Then the file in the chain, the depth the tasks are reached at and the empty scopes over
      them change nothing about their leaves. */
  lemma {:induction false} UnseenFlattens(w: Repo, ts: seq<Task>, here: Dir, role: Option<Dir>, low: seq<Dir>,
                                          part: Dir, high: seq<Dir>, inherited: seq<Keywords>,
                                          inherited': seq<Keywords>, depth: nat, depth': nat)
    requires UnseenTasks(w, ts, here, role, low, part, high, depth)
    requires depth' <= depth && NonEmpty(inherited) == NonEmpty(inherited')
    ensures Same(Flatten(w, ts, Place(here, low + [part] + high, role), inherited, depth),
                 Flatten(w, ts, Place(here, low + high, role), inherited', depth'))
    decreases Left(depth), ts, 0
  {
    hide FlattenTask; hide UnseenTask; hide NonEmpty;
    if depth < LIMIT && ts != [] {
      var at, at' := Place(here, low + [part] + high, role), Place(here, low + high, role);
      UnseenFlattensTask(w, ts[0], here, role, low, part, high, inherited, inherited', depth, depth');
      UnseenFlattens(w, ts[1..], here, role, low, part, high, inherited, inherited', depth, depth');
      var a, b := FlattenTask(w, ts[0], at, inherited, depth), Flatten(w, ts[1..], at, inherited, depth);
      if a.Ok? && b.Ok? {
        SameThen(a, b, FlattenTask(w, ts[0], at', inherited', depth'), Flatten(w, ts[1..], at', inherited', depth'));
      }
    }
  }

  lemma {:induction false} UnseenFlattensTask(w: Repo, t: Task, here: Dir, role: Option<Dir>, low: seq<Dir>, part: Dir,
                                              high: seq<Dir>, inherited: seq<Keywords>, inherited': seq<Keywords>,
                                              depth: nat, depth': nat)
    requires depth' <= depth < LIMIT && UnseenTask(w, t, here, role, low, part, high, depth)
    requires NonEmpty(inherited) == NonEmpty(inherited')
    ensures Same(FlattenTask(w, t, Place(here, low + [part] + high, role), inherited, depth),
                 FlattenTask(w, t, Place(here, low + high, role), inherited', depth'))
    decreases Left(depth), t, 1
  {
    hide Find; hide KeywordsOf; hide RoleExists; hide RoleFile; hide RoleDir; hide FlattenFile; hide Flatten;
    hide NonEmpty; hide Unseen; hide UnseenTasks; hide UnseenFile; hide HasTemplate;
    match t.action {
      case Block(_, _, _) =>
        UnseenFlattensBlock(w, t, here, role, low, part, high, inherited, inherited', depth, depth');
      case Include(_, path, options) =>
        UnseenIsExact(w, path, here, low, part, high, role);
        var found := Find(w, path, Place(here, low + high, role));
        if found.Some? {
          var more := [KeywordsOf(t) + (if options.Some? then options.value else map[])];
          UnseenFlattensFile(w, found.value, role, low, part, high, inherited, inherited', more, depth, depth');
        } else {
          TrimmedOne();
        }
      case Role(_, name, tasksFrom, extra) =>
        if !HasTemplate(name) && RoleExists(w, name) {
          UnseenFlattensFile(w, RoleFile(w, name, tasksFrom), Some(RoleDir(w, name)), low, part, high, inherited,
                             inherited', [KeywordsOf(t) + extra], depth, depth');
        } else {
          TrimmedOne();
        }
      case _ => TrimmedOne();
    }
  }

  lemma {:induction false} UnseenFlattensFile(w: Repo, file: Dir, role: Option<Dir>, low: seq<Dir>, part: Dir,
                                              high: seq<Dir>, inherited: seq<Keywords>, inherited': seq<Keywords>,
                                              more: seq<Keywords>, depth: nat, depth': nat)
    requires depth' <= depth < LIMIT && UnseenFile(w, file, role, low, part, high + [file], depth)
    requires NonEmpty(inherited) == NonEmpty(inherited')
    ensures Same(FlattenFile(w, file, Place(file, low + [part] + high + [file], role), inherited + more, depth),
                 FlattenFile(w, file, Place(file, low + high + [file], role), inherited' + more, depth'))
    decreases Left(depth) - 1
  {
    hide Flatten; hide NonEmpty; hide UnseenTasks;
    SameScope(inherited, inherited', more);
    if file in w.files {
      UnseenFlattens(w, w.files[file], file, role, low, part, high + [file], NonEmpty(inherited + more),
                     NonEmpty(inherited' + more), depth + 1, depth' + 1);
      assert low + [part] + high + [file] == low + [part] + (high + [file]);
      assert low + high + [file] == low + (high + [file]);
    }
  }

  lemma {:induction false} UnseenFlattensBlock(w: Repo, t: Task, here: Dir, role: Option<Dir>, low: seq<Dir>, part: Dir,
                                               high: seq<Dir>, inherited: seq<Keywords>, inherited': seq<Keywords>,
                                               depth: nat, depth': nat)
    requires depth' <= depth < LIMIT && t.action.Block? && UnseenTask(w, t, here, role, low, part, high, depth)
    requires NonEmpty(inherited) == NonEmpty(inherited')
    ensures Same(FlattenTask(w, t, Place(here, low + [part] + high, role), inherited, depth),
                 FlattenTask(w, t, Place(here, low + high, role), inherited', depth'))
    decreases Left(depth), t, 0
  {
    hide Flatten; hide NonEmpty; hide KeywordsOf; hide UnseenTasks; hide FlattenTask;
    var k := [KeywordsOf(t)];
    var rescued, after := [Section("rescue")], [Section("always")];
    SameScope(inherited, inherited', k);
    SameScope(inherited + k, inherited' + k, rescued);
    SameScope(inherited + k, inherited' + k, after);
    UnseenFlattens(w, t.action.block, here, role, low, part, high, inherited + k, inherited' + k, depth + 1,
                   depth' + 1);
    UnseenFlattens(w, t.action.rescue, here, role, low, part, high, inherited + k + rescued,
                   inherited' + k + rescued, depth + 1, depth' + 1);
    UnseenFlattens(w, t.action.always, here, role, low, part, high, inherited + k + after,
                   inherited' + k + after, depth + 1, depth' + 1);
    BlockSame(w, w, t, t, Place(here, low + [part] + high, role), Place(here, low + high, role), inherited, inherited',
              depth, depth');
  }
}
