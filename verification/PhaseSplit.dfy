/** `remove_plan.expand`: a playbook's phase files spliced into it, and why no plan changes. */
module PhaseSplit {
  import opened Text
  import opened Paths
  import opened Tasks
  import opened PlanWalk
  import opened WalkFacts

  /** A phase marker anywhere in an absolute path, so that a copy of the tree counts too. */
  predicate Marked(file: Dir) {
    exists k | 0 <= k < |PHASES| :: Contains(Absolute(file), "/" + PHASES[k])
  }

  function PhaseFile(a: Action, base: Dir): Option<Dir> {
    if a.Include? && a.key == FqImport && a.options.None? && !HasTemplate(a.path) && Marked(Anchor(base, a.path))
    then Some(Anchor(base, a.path)) else None
  }

  /** An absolute path leads through a place of the repository, wherever that is checked out. */
  ghost predicate GoesThrough(path: string, place: string) {
    exists front, rest :: path == front + ("/" + place) + rest
  }

  lemma {:induction false} ContainsIsThrough(path: string, place: string)
    ensures Contains(path, "/" + place) <==> GoesThrough(path, place)
  {
    var sub := "/" + place;
    StandsSomewhere(path, sub);
    if i :| Occurs(path, sub, i) { assert path == path[..i] + sub + path[i + |sub|..]; }
    if front, rest :| path == front + sub + rest { assert Occurs(path, sub, |front|); }
  }

  /** A phase file is what a static import of a plain path names, if the file's absolute path goes
      through one of the three places phases stand at. */
  lemma {:induction false} PhaseFileByPath(a: Action, base: Dir)
    ensures PhaseFile(a, base).Some?
       <==> a.Include? && a.key == FqImport && a.options == None && !HasTemplate(a.path)
            && var text := Absolute(Anchor(base, a.path));
               GoesThrough(text, "ansible/tasks/removal/") || GoesThrough(text, "ansible/tasks/recovery/restore-app-")
               || GoesThrough(text, "ansible/tasks/recovery/restore-guest-")
    ensures PhaseFile(a, base).Some? ==> PhaseFile(a, base) == Some(Anchor(base, a.path))
  {
    hide Anchor; hide Absolute; hide Contains; hide HasTemplate; hide GoesThrough;
    if a.Include? {
      var text := Absolute(Anchor(base, a.path));
      assert PHASES[0] == "ansible/tasks/removal/" && PHASES[1] == "ansible/tasks/recovery/restore-app-"
          && PHASES[2] == "ansible/tasks/recovery/restore-guest-";
      forall k | 0 <= k < |PHASES| ensures Contains(text, "/" + PHASES[k]) <==> GoesThrough(text, PHASES[k]) {
        ContainsIsThrough(text, PHASES[k]);
      }
      if Marked(Anchor(base, a.path)) {
        var k :| 0 <= k < |PHASES| && Contains(text, "/" + PHASES[k]);
        assert k == 0 || k == 1 || k == 2;
      }
    }
  }

  function Expand(files: map<Dir, seq<Task>>, fuel: nat, ts: seq<Task>, base: Dir): Result<seq<Task>>
    decreases fuel, ts, 0
  {
    if ts == [] then Ok([])
    else
      var first :- ExpandTask(files, fuel, ts[0], base);
      var rest :- Expand(files, fuel, ts[1..], base);
      Ok(first + rest)
  }

  function ExpandTask(files: map<Dir, seq<Task>>, fuel: nat, t: Task, base: Dir): Result<seq<Task>>
    decreases fuel, t, 1
  {
    match PhaseFile(t.action, base)
    case None => Ok([t])
    case Some(file) =>
      if fuel == 0 || file !in files then Failure
      else
        var inner :- Expand(files, fuel - 1, files[file], Parent(file));
        Ok(Rebase(inner, Parent(file), base))
  }

  lemma PrependedTask(done: seq<Task>, files: map<Dir, seq<Task>>, fuel: nat, ts: seq<Task>, base: Dir, now: seq<Task>)
    requires ts != [] && ExpandTask(files, fuel, ts[0], base) == Ok(now)
    ensures Prepended(done, Expand(files, fuel, ts, base)) == Prepended(done + now, Expand(files, fuel, ts[1..], base))
  {
    hide ExpandTask;
    var rest := Expand(files, fuel, ts[1..], base);
    if rest.Ok? { assert done + (now + rest.value) == (done + now) + rest.value; }
  }

  /** The loop of `expand`. */
  method ExpandList(files: map<Dir, seq<Task>>, fuel: nat, ts: seq<Task>, base: Dir) returns (r: Result<seq<Task>>)
    ensures r == Expand(files, fuel, ts, base)
    decreases fuel, ts
  {
    ghost var all := Expand(files, fuel, ts, base);
    var out: seq<Task> := [];
    assert ts[0..] == ts;
    if all.Ok? { assert [] + all.value == all.value; }
    for i := 0 to |ts|
      invariant all == Prepended(out, Expand(files, fuel, ts[i..], base))
    {
      assert ts[i..][0] == ts[i] && ts[i..][1..] == ts[i + 1..];
      var now := [ts[i]];
      match PhaseFile(ts[i].action, base) {
        case None =>
        case Some(file) =>
          if fuel == 0 || file !in files { return Failure; }
          var inner := ExpandList(files, fuel - 1, files[file], Parent(file));
          if inner.Failure? { return Failure; }
          now := RebaseList(inner.value, Parent(file), base);
      }
      PrependedTask(out, files, fuel, ts[i..], base, now);
      out := out + now;
    }
    assert out + [] == out;
    return Ok(out);
  }

  // What the split relies on

  /** A short include, which `rebase` does not move, is the same to the plan from both
      directories: it names a hook; or opens with a template, or has a literal part that names
      the same place; or names the same file, or from neither directory one that is there. */
  predicate StaysAlike(files: map<Dir, seq<Task>>, path: string, source: Dir, base: Dir) {
    if IsHook(path) then true
    else if HasTemplate(path) then Prefix(path) == "" || Anchor(source, Prefix(path)) == Anchor(base, Prefix(path))
    else Anchor(source, path) == Anchor(base, path) || (Anchor(source, path) !in files && Anchor(base, path) !in files)
  }

  predicate MovableTask(files: map<Dir, seq<Task>>, t: Task, source: Dir, base: Dir)
    decreases t, 1
  {
    match t.action
    case Block(block, _, _) => Movable(files, block, source, base)
    case Include(key, path, options) =>
      options.None? ==>
        && (key == FqInclude || key == FqImport ==> PlainText(path))
        && (key == ShortInclude ==> StaysAlike(files, path, source, base))
    case _ => true
  }

  /** Every include `walk` can meet has a plain text, if it is moved, and is the same from both
      directories, if it is not. */
  predicate Movable(files: map<Dir, seq<Task>>, ts: seq<Task>, source: Dir, base: Dir)
    decreases ts, 0
  {
    ts == [] || (MovableTask(files, ts[0], source, base) && Movable(files, ts[1..], source, base))
  }

  /** A phase import is bare, and the file it names stands at the repository's own phases, in a
      directory without braces, with tasks that can be spliced into `base`. */
  predicate SplitImport(files: map<Dir, seq<Task>>, repo: Dir, fuel: nat, t: Task, file: Dir, base: Dir)
    decreases fuel, t, 0
  {
    && t.when == []
    && (file in files ==>
          && IsPhase(Relative(file, repo)) && PlainDir(Parent(file))
          && (fuel > 0 ==> Splits(files, repo, fuel - 1, files[file], Parent(file), base)))
  }

  predicate SplitsTask(files: map<Dir, seq<Task>>, repo: Dir, fuel: nat, t: Task, dir: Dir, base: Dir)
    decreases fuel, t, 1
  {
    match PhaseFile(t.action, dir)
    case None => MovableTask(files, t, dir, base)
    case Some(file) => SplitImport(files, repo, fuel, t, file, base)
  }

  /** The tasks of a phase file in `dir` can be spliced into `base`, past the files between. */
  predicate Splits(files: map<Dir, seq<Task>>, repo: Dir, fuel: nat, ts: seq<Task>, dir: Dir, base: Dir)
    decreases fuel, ts, 0
  {
    ts == [] || (SplitsTask(files, repo, fuel, ts[0], dir, base) && Splits(files, repo, fuel, ts[1..], dir, base))
  }

  /** A list whose phase imports can be spliced into it; its own tasks do not move. */
  predicate WellSplit(files: map<Dir, seq<Task>>, repo: Dir, fuel: nat, ts: seq<Task>, base: Dir) {
    forall k :: 0 <= k < |ts| ==>
      match PhaseFile(ts[k].action, base)
      case None => true
      case Some(file) => SplitImport(files, repo, fuel, ts[k], file, base)
  }

  // Moving tasks

  /** Searching a moved path for a hook, or for what follows it, finds what the original holds. */
  lemma {:induction false} RebasedSearches(path: string, source: Dir, base: Dir, sub: string)
    requires PlainDir(source) && PlainText(path) && sub != "" && (sub[0] == '{' || sub[0] == '}')
    ensures Contains(Rebased(path, source, base), sub) == Contains(path, sub)
    ensures After(Rebased(path, source, base), sub) == After(path, sub)
  {
    if !(BRACES <= path) {
      MovedLeads(Prefix(path), source, base);
      SearchSkips(Prefix(path), Tail(path), sub);
      SearchSkips(Moved(Prefix(path), source, base), Tail(path), sub);
      assert path == Prefix(path) + Tail(path);
      hide Moved; hide Tail; hide Prefix; hide Anchor; hide Contains; hide After;
    }
  }

  lemma {:induction false} RebasedPlace(path: string, source: Dir, base: Dir)
    requires PlainDir(source) && PlainText(path)
    ensures HasTemplate(Rebased(path, source, base)) == HasTemplate(path)
    ensures !HasTemplate(path) ==> Anchor(base, Rebased(path, source, base)) == Anchor(source, path)
  {
    hide Moved; hide Tail; hide Prefix; hide Anchor; hide PlainText;
    var moved := Rebased(path, source, base);
    Halves(path);
    Halves(moved);
    OpensTemplate(path);
    if !(BRACES <= path) {
      RebasedParts(path, source, base);
      PlainPrefix(path);
      MovedLeads(Prefix(path), source, base);
    }
  }

  lemma Halves(text: string)
    ensures Tail(text) == "" ==> Prefix(text) == text
  {
  }

  lemma PlainPrefix(text: string)
    requires PlainText(text)
    ensures BraceFree(Prefix(text))
  {
  }

  lemma {:induction false} RebasedResolves(c: Config, path: string, source: Dir, base: Dir)
    requires PlainDir(source) && PlainText(path)
    ensures IsHook(Rebased(path, source, base)) == IsHook(path)
    ensures HasTemplate(Rebased(path, source, base)) == HasTemplate(path)
    ensures IsHook(path) || !HasTemplate(path) ==>
            Resolve(c, Rebased(path, source, base), base) == Resolve(c, path, source)
  {
    RebasedSearches(path, source, base, "{{ _rm_hooks }}");
    RebasedSearches(path, source, base, "{{ _ra_hooks }}");
    RebasedSearches(path, source, base, "}}/");
    RebasedPlace(path, source, base);
    hide Rebased; hide Contains; hide After; hide Relative; hide Anchor; hide Tail;
  }

  /** Re-anchoring an include does not change what it is to the plan. */
  lemma {:induction false} RebasedClassifies(c: Config, key: IncludeKey, path: string, source: Dir, base: Dir,
                                             hooked: bool)
    requires PlainDir(source) && PlainText(path)
    ensures Classify(c, key, Rebased(path, source, base), None, base, hooked)
         == Classify(c, key, path, None, source, hooked)
  {
    hide Resolve; hide IsHook; hide Rebased; hide Templated; hide IsPhase; hide EndsWith; hide HasTemplate; hide Anchor;
    hide Prefix;
    RebasedResolves(c, path, source, base);
    if HasTemplate(path) {
      TemplatedStable(path, source, base, c.repo);
    }
  }

  /** A short include is the same to the plan from another directory exactly when it stays alike. */
  lemma {:induction false} ShortClassifies(c: Config, path: string, source: Dir, base: Dir, hooked: bool)
    ensures Classify(c, ShortInclude, path, None, base, hooked) == Classify(c, ShortInclude, path, None, source, hooked)
       <==> StaysAlike(c.files, path, source, base)
  {
    hide IsHook; hide Templated; hide IsPhase; hide EndsWith; hide HasTemplate; hide Anchor; hide Prefix; hide Relative;
    hide After;
    if HasTemplate(path) && !IsHook(path) {
      if Prefix(path) == "" {
        TemplatedOpening(path, source, c.repo);
        TemplatedOpening(path, base, c.repo);
      } else {
        TemplatedNames(path, source, base, c.repo);
      }
    }
  }

  /** Tasks whose includes are re-anchored walk exactly as before, step for step. */
  lemma {:induction false} RebaseWalks(c: Config, fuel: nat, ts: seq<Task>, source: Dir, base: Dir,
                                       inherited: seq<Cond>, via: seq<string>, flags: set<string>)
    requires PlainDir(source) && Movable(c.files, ts, source, base)
    ensures Walk(c, fuel, Rebase(ts, source, base), base, inherited, via, flags)
         == Walk(c, fuel, ts, source, inherited, via, flags)
    decreases ts, 0
  {
    hide WalkTask; hide RebaseTask; hide MovableTask;
    if ts != [] {
      var moved := Rebase(ts, source, base);
      assert moved[0] == RebaseTask(ts[0], source, base) && moved[1..] == Rebase(ts[1..], source, base);
      RebaseWalksTask(c, fuel, ts[0], source, base, inherited, via, flags);
      var first := WalkTask(c, fuel, ts[0], source, inherited, via, flags);
      if first.Ok? {
        RebaseWalks(c, fuel, ts[1..], source, base, inherited, via, first.value.flags);
      }
    }
  }

  lemma {:induction false} RebaseWalksTask(c: Config, fuel: nat, t: Task, source: Dir, base: Dir, inherited: seq<Cond>,
                                           via: seq<string>, flags: set<string>)
    requires PlainDir(source) && MovableTask(c.files, t, source, base)
    ensures WalkTask(c, fuel, RebaseTask(t, source, base), base, inherited, via, flags)
         == WalkTask(c, fuel, t, source, inherited, via, flags)
    decreases t, 1
  {
    hide Classify; hide Rebased; hide StaysAlike; hide Kept; hide PlainText;
    var kept := Kept(c, inherited + t.when, flags);
    if kept.Some? {
      if t.action.Block? {
        RebaseWalks(c, fuel, t.action.block, source, base, kept.value, via, flags);
      } else if Includes(t) {
        if t.action.options.Some? {
          MappingClassifies(c, t.action, source, base, via != []);
        } else if FullyQualified(t.action) {
          RebasedClassifies(c, t.action.key, t.action.path, source, base, via != []);
        } else {
          ShortClassifies(c, t.action.path, source, base, via != []);
        }
      }
    }
  }

  lemma MappingClassifies(c: Config, a: Action, source: Dir, base: Dir, hooked: bool)
    requires a.Include? && a.options.Some?
    ensures Classify(c, a.key, a.path, a.options, source, hooked) == Unreadable
    ensures Classify(c, a.key, a.path, a.options, base, hooked) == Unreadable
  {
  }

  // Two moves walk as one

  predicate PlainWalkedTask(t: Task)
    decreases t, 1
  {
    match t.action
    case Block(block, _, _) => PlainWalked(block)
    case Include(_, path, _) => FullyQualified(t.action) ==> PlainText(path)
    case _ => true
  }

  /** The includes that `walk` can meet and `rebase` moves have plain texts. */
  predicate PlainWalked(ts: seq<Task>)
    decreases ts, 0
  {
    ts == [] || (PlainWalkedTask(ts[0]) && PlainWalked(ts[1..]))
  }

  lemma {:induction false} PlainWalkedAppend(xs: seq<Task>, ys: seq<Task>)
    requires PlainWalked(xs) && PlainWalked(ys)
    ensures PlainWalked(xs + ys)
  {
    if xs == [] {
      assert xs + ys == ys;
    } else {
      assert (xs + ys)[0] == xs[0] && (xs + ys)[1..] == xs[1..] + ys;
      PlainWalkedAppend(xs[1..], ys);
    }
  }

  lemma {:induction false} MovableIsPlain(files: map<Dir, seq<Task>>, ts: seq<Task>, source: Dir, base: Dir)
    requires Movable(files, ts, source, base)
    ensures PlainWalked(ts)
    decreases ts
  {
    hide StaysAlike; hide PlainText;
    if ts != [] {
      if ts[0].action.Block? { MovableIsPlain(files, ts[0].action.block, source, base); }
      MovableIsPlain(files, ts[1..], source, base);
    }
  }

  lemma {:induction false} RebasePlain(ts: seq<Task>, source: Dir, base: Dir)
    requires PlainDir(source) && PlainWalked(ts)
    ensures PlainWalked(Rebase(ts, source, base))
    decreases ts
  {
    if ts != [] {
      var moved := Rebase(ts, source, base);
      assert moved[0] == RebaseTask(ts[0], source, base) && moved[1..] == Rebase(ts[1..], source, base);
      RebasePlain(ts[1..], source, base);
      match ts[0].action {
        case Block(block, _, _) => RebasePlain(block, source, base);
        case Include(_, path, _) =>
          if FullyQualified(ts[0].action) { RebaseKeepsLiteral(path, source, base); }
        case _ =>
      }
    }
  }

  lemma {:induction false} TwiceWalks(c: Config, fuel: nat, ts: seq<Task>, source: Dir, middle: Dir, base: Dir,
                                      inherited: seq<Cond>, via: seq<string>, flags: set<string>)
    requires PlainDir(source) && PlainWalked(ts)
    ensures Walk(c, fuel, Rebase(Rebase(ts, source, middle), middle, base), base, inherited, via, flags)
         == Walk(c, fuel, Rebase(ts, source, base), base, inherited, via, flags)
    decreases ts, 0
  {
    hide WalkTask; hide RebaseTask; hide PlainWalkedTask;
    if ts != [] {
      var once, twice := Rebase(ts, source, middle), Rebase(Rebase(ts, source, middle), middle, base);
      assert once[0] == RebaseTask(ts[0], source, middle) && once[1..] == Rebase(ts[1..], source, middle);
      assert twice[0] == RebaseTask(once[0], middle, base) && twice[1..] == Rebase(once[1..], middle, base);
      var moved := Rebase(ts, source, base);
      assert moved[0] == RebaseTask(ts[0], source, base) && moved[1..] == Rebase(ts[1..], source, base);
      TwiceWalksTask(c, fuel, ts[0], source, middle, base, inherited, via, flags);
      var first := WalkTask(c, fuel, moved[0], base, inherited, via, flags);
      if first.Ok? { TwiceWalks(c, fuel, ts[1..], source, middle, base, inherited, via, first.value.flags); }
    }
  }

  lemma {:induction false} TwiceWalksTask(c: Config, fuel: nat, t: Task, source: Dir, middle: Dir, base: Dir,
                                          inherited: seq<Cond>, via: seq<string>, flags: set<string>)
    requires PlainDir(source) && PlainWalkedTask(t)
    ensures WalkTask(c, fuel, RebaseTask(RebaseTask(t, source, middle), middle, base), base, inherited, via, flags)
         == WalkTask(c, fuel, RebaseTask(t, source, base), base, inherited, via, flags)
    decreases t, 1
  {
    hide Classify; hide Rebased; hide Kept; hide PlainText;
    if t.action.Block? {
      var kept := Kept(c, inherited + t.when, flags);
      if kept.Some? { TwiceWalks(c, fuel, t.action.block, source, middle, base, kept.value, via, flags); }
    } else if FullyQualified(t.action) {
      RebaseComposes(t.action.path, source, middle, base);
    }
  }

  lemma {:induction false} RebaseAppend(xs: seq<Task>, ys: seq<Task>, source: Dir, base: Dir)
    ensures Rebase(xs + ys, source, base) == Rebase(xs, source, base) + Rebase(ys, source, base)
  {
    hide RebaseTask;
    if xs == [] {
      assert xs + ys == ys;
    } else {
      assert (xs + ys)[0] == xs[0] && (xs + ys)[1..] == xs[1..] + ys;
      RebaseAppend(xs[1..], ys, source, base);
    }
  }

  lemma {:induction false} ExpandPlain(files: map<Dir, seq<Task>>, repo: Dir, fuel: nat, ts: seq<Task>, dir: Dir,
                                       base: Dir)
    requires Splits(files, repo, fuel, ts, dir, base) && Expand(files, fuel, ts, dir).Ok?
    ensures PlainWalked(Expand(files, fuel, ts, dir).value)
    decreases fuel, ts, 0
  {
    hide SplitsTask; hide ExpandTask; hide PlainWalkedTask;
    if ts != [] {
      ExpandTaskPlain(files, repo, fuel, ts[0], dir, base);
      ExpandPlain(files, repo, fuel, ts[1..], dir, base);
      PlainWalkedAppend(ExpandTask(files, fuel, ts[0], dir).value, Expand(files, fuel, ts[1..], dir).value);
    }
  }

  lemma {:induction false} ExpandTaskPlain(files: map<Dir, seq<Task>>, repo: Dir, fuel: nat, t: Task, dir: Dir,
                                           base: Dir)
    requires SplitsTask(files, repo, fuel, t, dir, base) && ExpandTask(files, fuel, t, dir).Ok?
    ensures PlainWalked(ExpandTask(files, fuel, t, dir).value)
    decreases fuel, t, 1
  {
    hide PhaseFile; hide Relative; hide IsPhase; hide MovableTask; hide PlainWalkedTask; hide Rebase;
    match PhaseFile(t.action, dir) {
      case None =>
        var one := [t];
        assert one[1..] == [] && Movable(files, one[1..], dir, base);
        MovableIsPlain(files, one, dir, base);
      case Some(file) =>
        ExpandPlain(files, repo, fuel - 1, files[file], Parent(file), base);
        RebasePlain(Expand(files, fuel - 1, files[file], Parent(file)).value, Parent(file), dir);
    }
  }

  // The split leaves every plan unchanged

  /** A phase import is a phase to the walk exactly when its file is there and stands at the
      repository's own phases: `expand` looks for the marker anywhere in the path. */
  lemma {:induction false} PhaseClassifies(c: Config, t: Task, base: Dir, hooked: bool)
    requires PhaseFile(t.action, base).Some?
    ensures var file := PhaseFile(t.action, base).value;
            var target := Classify(c, t.action.key, t.action.path, t.action.options, base, hooked);
            && (file !in c.files <==> target == Unreadable)
            && (target == Phase(file) <==> file in c.files && IsPhase(Relative(file, c.repo)))
  {
    var path := t.action.path;
    assert Prefix(path) == path;
    NoTemplateInside(path, "{{ _rm_hooks }}");
    NoTemplateInside(path, "{{ _ra_hooks }}");
    hide Contains; hide Anchor; hide Tail; hide Prefix; hide Relative; hide EndsWith;
  }

  lemma {:induction false} PhaseUnfolds(c: Config, fuel: nat, t: Task, file: Dir, base: Dir, inherited: seq<Cond>,
                                        via: seq<string>, flags: set<string>)
    requires PhaseFile(t.action, base) == Some(file) && (file in c.files ==> IsPhase(Relative(file, c.repo)))
    ensures var kept := Kept(c, inherited + t.when, flags);
            && (kept.None? ==> WalkTask(c, fuel, t, base, inherited, via, flags) == Ok(Out([], flags)))
            && (kept.Some? && fuel > 0 && file in c.files ==>
                  WalkTask(c, fuel, t, base, inherited, via, flags)
                  == Walk(c, fuel - 1, c.files[file], Parent(file), kept.value, via, flags))
            && (kept.Some? && (file !in c.files || fuel == 0) ==>
                  WalkTask(c, fuel, t, base, inherited, via, flags) == Failure)
  {
    PhaseClassifies(c, t, base, via != []);
    hide Classify; hide Marked; hide Anchor; hide HasTemplate; hide Kept; hide Walk; hide Relative; hide IsPhase;
  }

  lemma {:induction false} PhaseIsRead(c: Config, fuel: nat, t: Task, file: Dir, base: Dir, inherited: seq<Cond>,
                                       via: seq<string>, flags: set<string>)
    requires PhaseFile(t.action, base) == Some(file) && t.when == [] && Undecided(c, inherited)
    requires fuel > 0 && file in c.files && IsPhase(Relative(file, c.repo))
    ensures WalkTask(c, fuel, t, base, inherited, via, flags)
         == Walk(c, fuel - 1, c.files[file], Parent(file), inherited, via, flags)
  {
    PhaseUnfolds(c, fuel, t, file, base, inherited, via, flags);
    hide WalkTask; hide Walk; hide Contains; hide PhaseFile; hide Relative; hide IsPhase;
    KeptAfter(c, inherited, [], flags);
    assert inherited + [] == inherited;
  }

  /** A walk that gets past a phase import has found its file, with nesting to spare for it. */
  lemma {:induction false} PhaseIsThere(c: Config, fuel: nat, t: Task, file: Dir, base: Dir, inherited: seq<Cond>,
                                        via: seq<string>, flags: set<string>)
    requires PhaseFile(t.action, base) == Some(file) && t.when == [] && Undecided(c, inherited)
    requires file in c.files ==> IsPhase(Relative(file, c.repo))
    requires WalkTask(c, fuel, t, base, inherited, via, flags).Ok?
    ensures fuel > 0 && file in c.files
  {
    PhaseUnfolds(c, fuel, t, file, base, inherited, via, flags);
    hide WalkTask; hide PhaseFile; hide Relative; hide IsPhase; hide Walk;
    KeptAfter(c, inherited, [], flags);
    assert inherited + [] == inherited;
  }

  /** The tasks of a phase file, spliced into `base` past the files between, walk as they do in
      place: where the walk in place succeeds. */
  lemma {:induction false} WalkThenMoved(c: Config, m: nat, n: nat, ts: seq<Task>, dir: Dir, base: Dir,
                                         inherited: seq<Cond>, via: seq<string>, flags: set<string>)
    requires PlainDir(dir) && Splits(c.files, c.repo, m, ts, dir, base) && Undecided(c, inherited)
    requires Expand(c.files, m, ts, dir).Ok? && Walk(c, n, ts, dir, inherited, via, flags).Ok?
    ensures Walk(c, n, Rebase(Expand(c.files, m, ts, dir).value, dir, base), base, inherited, via, flags)
         == Walk(c, n, ts, dir, inherited, via, flags)
    decreases m, ts, 0
  {
    hide WalkTask; hide ExpandTask; hide SplitsTask; hide Undecided; hide Rebase;
    if ts == [] {
      assert Rebase([], dir, base) == [];
    } else {
      var head, rest := ExpandTask(c.files, m, ts[0], dir).value, Expand(c.files, m, ts[1..], dir).value;
      var first := WalkTask(c, n, ts[0], dir, inherited, via, flags).value;
      WalkThenMovedTask(c, m, n, ts[0], dir, base, inherited, via, flags);
      WalkThenMoved(c, m, n, ts[1..], dir, base, inherited, via, first.flags);
      RebaseAppend(head, rest, dir, base);
      WalkAppend(c, n, Rebase(head, dir, base), Rebase(rest, dir, base), base, inherited, via, flags);
    }
  }

  lemma {:induction false} WalkThenMovedTask(c: Config, m: nat, n: nat, t: Task, dir: Dir, base: Dir,
                                             inherited: seq<Cond>, via: seq<string>, flags: set<string>)
    requires PlainDir(dir) && SplitsTask(c.files, c.repo, m, t, dir, base) && Undecided(c, inherited)
    requires ExpandTask(c.files, m, t, dir).Ok? && WalkTask(c, n, t, dir, inherited, via, flags).Ok?
    ensures Walk(c, n, Rebase(ExpandTask(c.files, m, t, dir).value, dir, base), base, inherited, via, flags)
         == WalkTask(c, n, t, dir, inherited, via, flags)
    decreases m, t, 1
  {
    hide WalkTask; hide Walk; hide PhaseFile; hide Expand; hide MovableTask; hide Splits; hide Relative; hide IsPhase;
    hide Undecided; hide Rebase;
    match PhaseFile(t.action, dir) {
      case None => MovedOne(c, n, t, dir, base, inherited, via, flags);
      case Some(file) =>
        PhaseIsThere(c, n, t, file, dir, inherited, via, flags);
        PhaseIsRead(c, n, t, file, dir, inherited, via, flags);
        WalkThenSpliced(c, m, n, file, base, inherited, via, flags);
        var inner := Expand(c.files, m - 1, c.files[file], Parent(file)).value;
        ExpandPlain(c.files, c.repo, m - 1, c.files[file], Parent(file), base);
        TwiceWalks(c, n, inner, Parent(file), dir, base, inherited, via, flags);
    }
  }

  lemma {:induction false} MovedOne(c: Config, n: nat, t: Task, dir: Dir, base: Dir, inherited: seq<Cond>,
                                    via: seq<string>, flags: set<string>)
    requires PlainDir(dir) && MovableTask(c.files, t, dir, base)
    ensures Walk(c, n, Rebase([t], dir, base), base, inherited, via, flags)
         == WalkTask(c, n, t, dir, inherited, via, flags)
  {
    hide WalkTask; hide Walk; hide MovableTask; hide RebaseTask;
    var one := [t];
    assert one[1..] == [] && Rebase(one, dir, base) == [RebaseTask(t, dir, base)];
    WalkOne(c, n, RebaseTask(t, dir, base), base, inherited, via, flags);
    RebaseWalksTask(c, n, t, dir, base, inherited, via, flags);
  }

  /** A phase file's tasks spliced into `base`, with its own phase files in place. */
  lemma {:induction false} WalkThenSpliced(c: Config, m: nat, n: nat, file: Dir, base: Dir, inherited: seq<Cond>,
                                           via: seq<string>, flags: set<string>)
    requires m > 0 && n > 0 && file in c.files && PlainDir(Parent(file)) && Undecided(c, inherited)
    requires Splits(c.files, c.repo, m - 1, c.files[file], Parent(file), base)
    requires Expand(c.files, m - 1, c.files[file], Parent(file)).Ok?
    requires Walk(c, n - 1, c.files[file], Parent(file), inherited, via, flags).Ok?
    ensures var inner := Expand(c.files, m - 1, c.files[file], Parent(file)).value;
            Walk(c, n, Rebase(inner, Parent(file), base), base, inherited, via, flags)
            == Walk(c, n - 1, c.files[file], Parent(file), inherited, via, flags)
    decreases m - 1
  {
    hide Walk; hide Expand; hide Splits; hide Rebase;
    var inner := Expand(c.files, m - 1, c.files[file], Parent(file)).value;
    WalkThenMoved(c, m - 1, n - 1, c.files[file], Parent(file), base, inherited, via, flags);
    MoreFuel(c, n - 1, n, Rebase(inner, Parent(file), base), base, inherited, via, flags);
  }

  /** The same where the walk of the spliced tasks succeeds. */
  lemma {:induction false} MovedThenWalk(c: Config, m: nat, n: nat, ts: seq<Task>, dir: Dir, base: Dir,
                                         inherited: seq<Cond>, via: seq<string>, flags: set<string>)
    requires PlainDir(dir) && Splits(c.files, c.repo, m, ts, dir, base) && Undecided(c, inherited)
    requires Expand(c.files, m, ts, dir).Ok?
    requires Walk(c, n, Rebase(Expand(c.files, m, ts, dir).value, dir, base), base, inherited, via, flags).Ok?
    ensures Walk(c, m + n, ts, dir, inherited, via, flags)
         == Walk(c, n, Rebase(Expand(c.files, m, ts, dir).value, dir, base), base, inherited, via, flags)
    decreases m, ts, 0
  {
    hide WalkTask; hide ExpandTask; hide SplitsTask; hide Undecided; hide Rebase;
    if ts == [] {
      assert Rebase([], dir, base) == [];
    } else {
      var head, rest := ExpandTask(c.files, m, ts[0], dir).value, Expand(c.files, m, ts[1..], dir).value;
      RebaseAppend(head, rest, dir, base);
      WalkAppend(c, n, Rebase(head, dir, base), Rebase(rest, dir, base), base, inherited, via, flags);
      MovedThenWalkTask(c, m, n, ts[0], dir, base, inherited, via, flags);
      var first := Walk(c, n, Rebase(head, dir, base), base, inherited, via, flags).value;
      MovedThenWalk(c, m, n, ts[1..], dir, base, inherited, via, first.flags);
    }
  }

  lemma {:induction false} MovedThenWalkTask(c: Config, m: nat, n: nat, t: Task, dir: Dir, base: Dir,
                                             inherited: seq<Cond>, via: seq<string>, flags: set<string>)
    requires PlainDir(dir) && SplitsTask(c.files, c.repo, m, t, dir, base) && Undecided(c, inherited)
    requires ExpandTask(c.files, m, t, dir).Ok?
    requires Walk(c, n, Rebase(ExpandTask(c.files, m, t, dir).value, dir, base), base, inherited, via, flags).Ok?
    ensures WalkTask(c, m + n, t, dir, inherited, via, flags)
         == Walk(c, n, Rebase(ExpandTask(c.files, m, t, dir).value, dir, base), base, inherited, via, flags)
    decreases m, t, 1
  {
    hide WalkTask; hide Walk; hide PhaseFile; hide Expand; hide MovableTask; hide Splits; hide Relative; hide IsPhase;
    hide Undecided; hide Rebase;
    match PhaseFile(t.action, dir) {
      case None =>
        MovedOne(c, n, t, dir, base, inherited, via, flags);
        MoreFuelTask(c, n, m + n, t, dir, inherited, via, flags);
      case Some(file) =>
        PhaseIsRead(c, m + n, t, file, dir, inherited, via, flags);
        var inner := Expand(c.files, m - 1, c.files[file], Parent(file)).value;
        ExpandPlain(c.files, c.repo, m - 1, c.files[file], Parent(file), base);
        TwiceWalks(c, n, inner, Parent(file), dir, base, inherited, via, flags);
        MovedThenWalk(c, m - 1, n, c.files[file], Parent(file), base, inherited, via, flags);
    }
  }

  /** Where the walk of a list succeeds, its expansion walks the same. */
  lemma {:induction false} WalkThenExpand(c: Config, m: nat, n: nat, ts: seq<Task>, base: Dir, inherited: seq<Cond>,
                                          via: seq<string>, flags: set<string>)
    requires WellSplit(c.files, c.repo, m, ts, base) && Undecided(c, inherited)
    requires Expand(c.files, m, ts, base).Ok? && Walk(c, n, ts, base, inherited, via, flags).Ok?
    ensures Walk(c, n, Expand(c.files, m, ts, base).value, base, inherited, via, flags)
         == Walk(c, n, ts, base, inherited, via, flags)
    decreases ts
  {
    if ts != [] {
      var first := WalkTask(c, n, ts[0], base, inherited, via, flags).value;
      WalkThenExpandTask(c, m, n, ts[0], base, inherited, via, flags);
      WellSplitRest(c.files, c.repo, m, ts, base);
      hide WalkTask; hide ExpandTask; hide WellSplit; hide Undecided;
      WalkThenExpand(c, m, n, ts[1..], base, inherited, via, first.flags);
      WalkAppend(c, n, ExpandTask(c.files, m, ts[0], base).value, Expand(c.files, m, ts[1..], base).value, base,
                 inherited, via, flags);
    }
  }

  lemma WellSplitRest(files: map<Dir, seq<Task>>, repo: Dir, m: nat, ts: seq<Task>, base: Dir)
    requires WellSplit(files, repo, m, ts, base) && ts != []
    ensures WellSplit(files, repo, m, ts[1..], base)
  {
    hide PhaseFile; hide SplitImport;
  }

  lemma {:induction false} WalkThenExpandTask(c: Config, m: nat, n: nat, t: Task, base: Dir, inherited: seq<Cond>,
                                              via: seq<string>, flags: set<string>)
    requires var phase := PhaseFile(t.action, base);
             phase.Some? ==> SplitImport(c.files, c.repo, m, t, phase.value, base)
    requires Undecided(c, inherited) && ExpandTask(c.files, m, t, base).Ok?
    requires WalkTask(c, n, t, base, inherited, via, flags).Ok?
    ensures Walk(c, n, ExpandTask(c.files, m, t, base).value, base, inherited, via, flags)
         == WalkTask(c, n, t, base, inherited, via, flags)
  {
    hide WalkTask; hide Walk; hide PhaseFile; hide Expand; hide Splits; hide Relative; hide IsPhase; hide Undecided;
    hide Rebase;
    match PhaseFile(t.action, base) {
      case None => WalkOne(c, n, t, base, inherited, via, flags);
      case Some(file) =>
        PhaseIsThere(c, n, t, file, base, inherited, via, flags);
        PhaseIsRead(c, n, t, file, base, inherited, via, flags);
        WalkThenSpliced(c, m, n, file, base, inherited, via, flags);
    }
  }

  /** What the expanded list walks is what the list walks with its phase files in place. */
  lemma {:induction false} ExpandThenWalk(c: Config, m: nat, n: nat, ts: seq<Task>, base: Dir, inherited: seq<Cond>,
                                          via: seq<string>, flags: set<string>)
    requires WellSplit(c.files, c.repo, m, ts, base) && Undecided(c, inherited)
    requires Expand(c.files, m, ts, base).Ok?
    requires Walk(c, n, Expand(c.files, m, ts, base).value, base, inherited, via, flags).Ok?
    ensures Walk(c, m + n, ts, base, inherited, via, flags)
         == Walk(c, n, Expand(c.files, m, ts, base).value, base, inherited, via, flags)
    decreases ts
  {
    if ts != [] {
      var head := ExpandTask(c.files, m, ts[0], base).value;
      var rest := Expand(c.files, m, ts[1..], base).value;
      WellSplitRest(c.files, c.repo, m, ts, base);
      WalkAppend(c, n, head, rest, base, inherited, via, flags);
      ExpandThenWalkTask(c, m, n, ts[0], base, inherited, via, flags);
      hide WalkTask; hide ExpandTask; hide WellSplit; hide Undecided;
      var first := Walk(c, n, head, base, inherited, via, flags).value;
      ExpandThenWalk(c, m, n, ts[1..], base, inherited, via, first.flags);
    }
  }

  lemma {:induction false} ExpandThenWalkTask(c: Config, m: nat, n: nat, t: Task, base: Dir, inherited: seq<Cond>,
                                              via: seq<string>, flags: set<string>)
    requires var phase := PhaseFile(t.action, base);
             phase.Some? ==> SplitImport(c.files, c.repo, m, t, phase.value, base)
    requires Undecided(c, inherited) && ExpandTask(c.files, m, t, base).Ok?
    requires Walk(c, n, ExpandTask(c.files, m, t, base).value, base, inherited, via, flags).Ok?
    ensures WalkTask(c, m + n, t, base, inherited, via, flags)
         == Walk(c, n, ExpandTask(c.files, m, t, base).value, base, inherited, via, flags)
  {
    hide WalkTask; hide Walk; hide PhaseFile; hide Expand; hide Splits; hide Relative; hide IsPhase; hide Undecided;
    hide Rebase;
    match PhaseFile(t.action, base) {
      case None =>
        WalkOne(c, n, t, base, inherited, via, flags);
        MoreFuelTask(c, n, m + n, t, base, inherited, via, flags);
      case Some(file) =>
        PhaseIsRead(c, m + n, t, file, base, inherited, via, flags);
        MovedThenWalk(c, m - 1, n, c.files[file], Parent(file), base, inherited, via, flags);
    }
  }

  /** A phase split leaves the plan exactly as it was: a list of tasks and its expansion have
      the same plan, with the same steps, conditions, provenance and flags, or have none. */
  lemma {:induction false} SplitChangesNoPlan(c: Config, m: nat, ts: seq<Task>, base: Dir, inherited: seq<Cond>,
                                              via: seq<string>, flags: set<string>, out: Out)
    requires WellSplit(c.files, c.repo, m, ts, base) && Undecided(c, inherited) && Expand(c.files, m, ts, base).Ok?
    ensures (exists n: nat :: Walk(c, n, ts, base, inherited, via, flags) == Ok(out))
       <==> (exists n: nat :: Walk(c, n, Expand(c.files, m, ts, base).value, base, inherited, via, flags) == Ok(out))
  {
    hide Walk; hide WellSplit; hide Expand;
    var expanded := Expand(c.files, m, ts, base).value;
    if n: nat :| Walk(c, n, ts, base, inherited, via, flags) == Ok(out) {
      WalkThenExpand(c, m, n, ts, base, inherited, via, flags);
      assert Walk(c, n, expanded, base, inherited, via, flags) == Ok(out);
    }
    if n: nat :| Walk(c, n, expanded, base, inherited, via, flags) == Ok(out) {
      ExpandThenWalk(c, m, n, ts, base, inherited, via, flags);
      assert Walk(c, m + n, ts, base, inherited, via, flags) == Ok(out);
    }
  }

  /** A walk that succeeds finds every phase file: the list can be expanded. */
  lemma {:induction false} WalkFindsPhases(c: Config, fuel: nat, ts: seq<Task>, base: Dir, inherited: seq<Cond>,
                                           via: seq<string>, flags: set<string>)
    requires WellSplit(c.files, c.repo, fuel, ts, base) && Undecided(c, inherited)
    requires Walk(c, fuel, ts, base, inherited, via, flags).Ok?
    ensures Expand(c.files, fuel, ts, base).Ok?
    decreases ts
  {
    if ts != [] {
      var first := WalkTask(c, fuel, ts[0], base, inherited, via, flags).value;
      match PhaseFile(ts[0].action, base) {
        case None =>
        case Some(file) => ImportIsFound(c, fuel, ts[0], file, base, base, inherited, via, flags);
      }
      WellSplitRest(c.files, c.repo, fuel, ts, base);
      hide WalkTask; hide WellSplit; hide PhaseFile; hide Undecided;
      WalkFindsPhases(c, fuel, ts[1..], base, inherited, via, first.flags);
    }
  }

  lemma {:induction false} ImportIsFound(c: Config, fuel: nat, t: Task, file: Dir, dir: Dir, base: Dir,
                                         inherited: seq<Cond>, via: seq<string>, flags: set<string>)
    requires PhaseFile(t.action, dir) == Some(file) && SplitImport(c.files, c.repo, fuel, t, file, base)
    requires Undecided(c, inherited) && WalkTask(c, fuel, t, dir, inherited, via, flags).Ok?
    ensures ExpandTask(c.files, fuel, t, dir).Ok?
    decreases fuel, 0
  {
    PhaseIsThere(c, fuel, t, file, dir, inherited, via, flags);
    hide WalkTask; hide PhaseFile; hide Walk; hide Relative; hide IsPhase; hide Undecided;
    PhaseIsRead(c, fuel, t, file, dir, inherited, via, flags);
    InnerIsFound(c, fuel - 1, c.files[file], Parent(file), base, inherited, via, flags);
  }

  lemma {:induction false} InnerIsFound(c: Config, fuel: nat, ts: seq<Task>, dir: Dir, base: Dir, inherited: seq<Cond>,
                                        via: seq<string>, flags: set<string>)
    requires Splits(c.files, c.repo, fuel, ts, dir, base) && Undecided(c, inherited)
    requires Walk(c, fuel, ts, dir, inherited, via, flags).Ok?
    ensures Expand(c.files, fuel, ts, dir).Ok?
    decreases fuel, 1, ts
  {
    if ts != [] {
      var first := WalkTask(c, fuel, ts[0], dir, inherited, via, flags).value;
      match PhaseFile(ts[0].action, dir) {
        case None =>
        case Some(file) => ImportIsFound(c, fuel, ts[0], file, dir, base, inherited, via, flags);
      }
      hide WalkTask; hide PhaseFile; hide Undecided; hide SplitsTask;
      InnerIsFound(c, fuel, ts[1..], dir, base, inherited, via, first.flags);
    }
  }

  // What a condition on a phase import would do

  /** `walk` puts an import's condition on every step of the phase and `expand` drops it, so
      a conditional import keeps its plan exactly when every condition is decided true, or
      the phase contributes no step and, if a condition is decided false, no flag. */
  lemma {:induction false} ConditionalImport(c: Config, fuel: nat, t: Task, base: Dir, via: seq<string>,
                                             flags: set<string>)
    requires PhaseFile(t.action, base).Some? && PhaseFile(t.action, base).value in c.files && fuel > 0
    requires IsPhase(Relative(PhaseFile(t.action, base).value, c.repo))
    requires WalkTask(c, fuel, t.(when := []), base, [], via, flags).Ok?
    ensures var bare := WalkTask(c, fuel, t.(when := []), base, [], via, flags).value;
            var kept := Kept(c, t.when, flags);
            WalkTask(c, fuel, t, base, [], via, flags) == Ok(bare)
            <==> kept == Some([]) || (bare.steps == [] && (kept.None? ==> bare.flags == flags))
  {
    ConditionalUnfolds(c, fuel, t, base, via, flags);
    var bare := WalkTask(c, fuel, t.(when := []), base, [], via, flags).value;
    var kept := Kept(c, t.when, flags);
    hide WalkTask; hide Kept; hide PhaseFile; hide IsPhase; hide Relative;
    if kept.Some? {
      UnderSame(kept.value, bare.steps);
    }
  }

  lemma {:induction false} ConditionalUnfolds(c: Config, fuel: nat, t: Task, base: Dir, via: seq<string>,
                                              flags: set<string>)
    requires PhaseFile(t.action, base).Some? && PhaseFile(t.action, base).value in c.files && fuel > 0
    requires IsPhase(Relative(PhaseFile(t.action, base).value, c.repo))
    ensures var kept := Kept(c, t.when, flags);
            WalkTask(c, fuel, t, base, [], via, flags)
            == if kept.None? then Ok(Out([], flags))
               else UnderAll(kept.value, WalkTask(c, fuel, t.(when := []), base, [], via, flags))
  {
    hide WalkTask; hide Walk; hide PhaseFile; hide IsPhase; hide Relative; hide Decide; hide UnderAll; hide Undecided;
    var file := PhaseFile(t.action, base).value;
    var bare, kept := t.(when := []), Kept(c, t.when, flags);
    assert [] + t.when == t.when && [] + bare.when == [];
    PhaseUnfolds(c, fuel, bare, file, base, [], via, flags);
    PhaseUnfolds(c, fuel, t, file, base, [], via, flags);
    KeptIsUndecided(c, t.when, flags);
    if kept.Some? {
      InheritedIsPrefix(c, fuel - 1, c.files[file], Parent(file), kept.value, via, flags);
    }
  }

  lemma {:induction false} UnderSame(conds: seq<Cond>, steps: seq<Step>)
    ensures Under(conds, steps) == steps <==> conds == [] || steps == []
  {
    var under := Under(conds, steps);
    if conds == [] {
      forall k | 0 <= k < |under| ensures under[k] == steps[k] {
        assert [] + steps[k].when == steps[k].when;
      }
    } else if steps != [] {
      assert |under[0].when| > |steps[0].when|;
    }
  }
}
