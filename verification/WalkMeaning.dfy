/** The cases of the walk, in the texts they are told apart by: what a condition is decided as,
    which files an include enters, and what stands for one it does not enter. */
module WalkMeaning {
  import opened Text
  import opened Paths
  import opened Tasks
  import opened Rendering
  import opened PlanWalk
  import opened WalkFacts

  // Conditions

  /** The subject that falls back on the instance is compared with the instance, every other
      subject with the app. */
  lemma {:induction false} SubjectIsDecided(c: Config, s: Subject, name: string, names: seq<string>, negated: bool,
                                            flags: set<string>)
    ensures var own := if s == RemoveAppOrInstance then c.instance else c.app;
            && Kept(c, [Identity(Is(s, name), negated)], flags) == (if (own == name) != negated then Some([]) else None)
            && Kept(c, [Identity(IsIn(s, names), negated)], flags)
               == (if (own in names) != negated then Some([]) else None)
  {
    KeptOne(c, Identity(Is(s, name), negated), flags);
    KeptOne(c, Identity(IsIn(s, names), negated), flags);
  }

  /** The directory the hooks of a run stand in. */
  function HookDir(c: Config): Dir { c.repo + ["ansible", "roles", c.role, "tasks"] }

  lemma {:induction false} HookFileIsDecided(c: Config, file: Name, negated: bool, flags: set<string>)
    ensures Kept(c, [Identity(HookFile(file), negated)], flags)
         == if (HookDir(c) + [file] in c.files) != negated then Some([]) else None
  {
    KeptOne(c, Identity(HookFile(file), negated), flags);
    PieceAnchors(HookDir(c), file);
  }

  /** The two flags are decided by what hooks have declared; nothing else a condition tests is. */
  lemma {:induction false} FlagIsDecided(c: Config, flag: string, text: string, negated: bool, flags: set<string>)
    ensures Kept(c, [Identity(Flag(flag), negated)], flags)
         == if flag != "_rm_database_backend" && flag != "_rm_keeps_guest_record"
            then Some([Identity(Flag(flag), negated)])
            else if (flag in flags) != negated then Some([]) else None
    ensures Kept(c, [Other(text)], flags) == Some([Other(text)])
  {
    KeptOne(c, Identity(Flag(flag), negated), flags);
    KeptOne(c, Other(text), flags);
  }

  /** Conditions are decided one by one: a false one skips the task, the true ones are dropped,
      the others stay in order. */
  lemma {:induction false} KeptAppend(c: Config, xs: seq<Cond>, ys: seq<Cond>, flags: set<string>)
    ensures Kept(c, [], flags) == Some([])
    ensures var first, rest := Kept(c, xs, flags), Kept(c, ys, flags);
            Kept(c, xs + ys, flags)
            == if first.None? || rest.None? then None else Some(first.value + rest.value)
  {
    var rest := Kept(c, ys, flags);
    if xs == [] {
      assert xs + ys == ys;
      if rest.Some? { assert [] + rest.value == rest.value; }
    } else {
      assert (xs + ys)[0] == xs[0] && (xs + ys)[1..] == xs[1..] + ys;
      KeptAppend(c, xs[1..], ys, flags);
      var tail := Kept(c, xs[1..], flags);
      if tail.Some? && rest.Some? {
        assert [xs[0]] + (tail.value + rest.value) == [xs[0]] + tail.value + rest.value;
      }
    }
  }

  // The instance

  predicate TestsInstance(cond: Cond) {
    && cond.Identity? && (cond.atom.Is? || cond.atom.IsIn?) && cond.atom.subject == RemoveAppOrInstance
  }

  predicate NoneTests(conds: seq<Cond>) { forall k :: 0 <= k < |conds| ==> !TestsInstance(conds[k]) }

  predicate BlindTask(t: Task)
    decreases t, 1
  {
    NoneTests(t.when) && (t.action.Block? ==> Blind(t.action.block))
  }

  /** No condition the walk of these tasks meets compares the instance. */
  predicate Blind(ts: seq<Task>)
    decreases ts, 0
  {
    ts == [] || (BlindTask(ts[0]) && Blind(ts[1..]))
  }

  predicate BlindFiles(files: map<Dir, seq<Task>>) { forall file :: file in files ==> Blind(files[file]) }

  lemma {:induction false} KeptIsBlind(c: Config, conds: seq<Cond>, instance: string, flags: set<string>)
    requires NoneTests(conds)
    ensures var kept := Kept(c, conds, flags);
            Kept(c.(instance := instance), conds, flags) == kept && (kept.Some? ==> NoneTests(kept.value))
  {
    if conds != [] {
      assert Decide(c.(instance := instance), conds[0], flags) == Decide(c, conds[0], flags) by {
        assert !TestsInstance(conds[0]);
      }
      KeptIsBlind(c, conds[1..], instance, flags);
    }
  }

  lemma {:induction false} VarsAreBlind(ts: seq<Task>, vars: Keywords)
    requires Blind(ts)
    ensures Blind(WithVars(ts, vars))
  {
    if ts != [] { VarsAreBlind(ts[1..], vars); }
  }

  /** The instance changes no plan of tasks that never compare it. */
  lemma {:induction false} InstanceIsUnused(c: Config, instance: string, fuel: nat, ts: seq<Task>, base: Dir,
                                            inherited: seq<Cond>, via: seq<string>, flags: set<string>)
    requires BlindFiles(c.files) && Blind(ts) && NoneTests(inherited)
    ensures Walk(c.(instance := instance), fuel, ts, base, inherited, via, flags)
         == Walk(c, fuel, ts, base, inherited, via, flags)
    decreases fuel, ts, 0
  {
    hide WalkTask; hide BlindFiles;
    if ts != [] {
      InstanceIsUnusedTask(c, instance, fuel, ts[0], base, inherited, via, flags);
      var first := WalkTask(c, fuel, ts[0], base, inherited, via, flags);
      if first.Ok? {
        InstanceIsUnused(c, instance, fuel, ts[1..], base, inherited, via, first.value.flags);
      }
    }
  }

  lemma {:induction false} InstanceIsUnusedTask(c: Config, instance: string, fuel: nat, t: Task, base: Dir,
                                                inherited: seq<Cond>, via: seq<string>, flags: set<string>)
    requires BlindFiles(c.files) && BlindTask(t) && NoneTests(inherited)
    ensures WalkTask(c.(instance := instance), fuel, t, base, inherited, via, flags)
         == WalkTask(c, fuel, t, base, inherited, via, flags)
    decreases fuel, t, 1
  {
    hide Kept; hide Classify; hide BlindFiles; hide Walk; hide Named;
    var other := c.(instance := instance);
    KeptIsBlind(c, inherited + t.when, instance, flags);
    var kept := Kept(c, inherited + t.when, flags);
    if kept.Some? {
      if t.action.Block? {
        InstanceIsUnused(c, instance, fuel, t.action.block, base, kept.value, via, flags);
      } else if !Declares(t, via) && Includes(t) {
        var target := Classify(c, t.action.key, t.action.path, t.action.options, base, via != []);
        TargetIsBlind(c, instance, t.action.key, t.action.path, t.action.options, base, via != []);
        if fuel > 0 && target.Phase? {
          ReadIsBlind(c, target.file);
          InstanceIsUnused(c, instance, fuel - 1, Read(c, target.file), Parent(target.file), kept.value, via, flags);
        } else if fuel > 0 && target.Inlined? {
          ReadIsBlind(c, target.file);
          VarsAreBlind(Read(c, target.file), t.vars);
          InstanceIsUnused(c, instance, fuel - 1, WithVars(Read(c, target.file), t.vars), Parent(target.file),
                           kept.value, via + [target.relative], flags);
        }
      }
    }
  }

  lemma ReadIsBlind(c: Config, file: Dir)
    requires BlindFiles(c.files)
    ensures Blind(Read(c, file))
  {
  }

  lemma TargetIsBlind(c: Config, instance: string, key: IncludeKey, path: string, options: Option<Keywords>, base: Dir,
                      hooked: bool)
    ensures Classify(c.(instance := instance), key, path, options, base, hooked)
         == Classify(c, key, path, options, base, hooked)
  {
    hide Templated; hide IsHook; hide IsPhase; hide EndsWith; hide Relative; hide Anchor;
  }

  // What a task that is no include becomes

  /** The walk of a task is one step of this module, these arguments and these conditions, and
      declares nothing. */
  ghost predicate IsStep(r: Result<Out>, t: Task, mod: string, arguments: Arguments, conds: seq<Cond>, via: seq<string>,
                         flags: set<string>)
  {
    && r.Ok? && r.value.flags == flags && |r.value.steps| == 1
    && var s := r.value.steps[0];
       && s.name == t.name && s.mod == mod && s.arguments == arguments && s.vars == t.vars && s.control == t.control
       && s.when == conds && s.via == via && s.known == flags * Named(arguments, t.vars, t.control)
  }

  /** A block is its main list; inside a hook a fact task with none but the two flags declares
      those that are literally true; every other fact task, role and module is a step of its own. */
  ghost predicate Becomes(r: Result<Out>, c: Config, fuel: nat, t: Task, base: Dir, conds: seq<Cond>, via: seq<string>,
                          flags: set<string>)
  {
    match t.action
    case Block(block, _, _) => r == Walk(c, fuel, block, base, conds, via, flags)
    case SetFact(facts) =>
      if via != [] && facts.Keys != {} && facts.Keys <= {"_rm_database_backend", "_rm_keeps_guest_record"} then
        r.Ok? && r.value.steps == []
        && forall f :: f in r.value.flags <==> f in flags || (f in facts && facts[f] == Bool(true))
      else IsStep(r, t, "ansible.builtin.set_fact", Facts(facts), conds, via, flags)
    case Include(_, path, options) =>
      IsStep(r, t, "import_tasks", if options.None? then Path(path) else Mapping(path, options.value), conds, via,
             flags)
    case Role(word, role, tasksFrom, extra) =>
      IsStep(r, t, word, RoleFile(role, tasksFrom, extra), conds, via, flags)
    case Module(name, arguments) => IsStep(r, t, name, Given(arguments), conds, via, flags)
  }

  /** That is the walk of every task that is kept and is no include the plan reads. */
  lemma {:induction false} TaskWalks(c: Config, fuel: nat, t: Task, base: Dir, inherited: seq<Cond>, via: seq<string>,
                                     flags: set<string>)
    requires Kept(c, inherited + t.when, flags).Some? && (t.action.Include? ==> t.action.key == ShortImport)
    ensures Becomes(WalkTask(c, fuel, t, base, inherited, via, flags), c, fuel, t, base,
                    Kept(c, inherited + t.when, flags).value, via, flags)
  {
    hide Kept; hide Walk; hide Named;
    if t.action.SetFact? { assert t.action.facts == map[] <==> t.action.facts.Keys == {}; }
  }

  lemma SkippedTask(c: Config, fuel: nat, t: Task, base: Dir, inherited: seq<Cond>, via: seq<string>,
                    flags: set<string>)
    requires Kept(c, inherited + t.when, flags).None?
    ensures WalkTask(c, fuel, t, base, inherited, via, flags) == Ok(Out([], flags))
  {
  }

  /** The variables an entered file's tasks get from the include: a task's own win. */
  lemma {:induction false} VarsAreAdded(ts: seq<Task>, vars: Keywords, k: nat, n: string)
    requires k < |ts|
    ensures var with := WithVars(ts, vars);
            && |with| == |ts| && with[k] == ts[k].(vars := with[k].vars)
            && (n in with[k].vars <==> n in ts[k].vars || n in vars)
            && (n in ts[k].vars ==> with[k].vars[n] == ts[k].vars[n])
            && (n in vars && n !in ts[k].vars ==> with[k].vars[n] == vars[n])
  {
    if k > 0 {
      VarsAreAdded(ts[1..], vars, k - 1, n);
    } else if |ts| > 1 {
      VarsAreAdded(ts[1..], vars, 0, n);
    }
  }

  // Includes of static paths

  /** Below the repository a file's name is its path there, elsewhere its absolute path. */
  lemma {:induction false} NameBelow(repo: Dir, d: Dir, file: Dir)
    ensures d != [] ==> Relative(repo + d, repo) == Join(d, '/')
    ensures !(repo <= file) ==> Relative(file, repo) == "/" + Join(file, '/')
  {
    hide Join;
    assert (repo + d)[|repo|..] == d;
  }

  predicate NamesPhase(name: string) {
    "ansible/tasks/removal/" <= name || "ansible/tasks/recovery/restore-app-" <= name
    || "ansible/tasks/recovery/restore-guest-" <= name
  }

  lemma {:induction false} PhaseByName(name: string)
    ensures IsPhase(name) <==> NamesPhase(name)
  {
    assert PHASES[0] == "ansible/tasks/removal/" && PHASES[1] == "ansible/tasks/recovery/restore-app-"
        && PHASES[2] == "ansible/tasks/recovery/restore-guest-";
    if NamesPhase(name) {
      assert PHASES[0] <= name || PHASES[1] <= name || PHASES[2] <= name;
    }
  }

  ghost predicate EndsIn(name: string, end: string) { exists front :: name == front + end }

  lemma {:induction false} SuffixIsEnd(name: string, end: string)
    ensures EndsWith(name, end) <==> EndsIn(name, end)
  {
    if EndsWith(name, end) { assert name == name[..|name| - |end|] + end; }
  }

  /** The include's file is entered: its tasks are walked from its directory, or the nesting has
      used up the bound. */
  ghost predicate IsEntered(r: Result<Out>, c: Config, fuel: nat, ts: seq<Task>, dir: Dir, conds: seq<Cond>,
                            via: seq<string>, flags: set<string>)
  {
    r == if fuel == 0 then Failure else Walk(c, fuel - 1, ts, dir, conds, via, flags)
  }

  /** What the plan makes of an include that is found at `file`, with this name. */
  ghost predicate FileWalks(r: Result<Out>, c: Config, fuel: nat, t: Task, file: Dir, name: string, conds: seq<Cond>,
                            via: seq<string>, flags: set<string>)
    requires t.action.Include?
  {
    if file !in c.files then r == Failure
    else if t.action.key == FqImport && NamesPhase(name) then
      IsEntered(r, c, fuel, c.files[file], Parent(file), conds, via, flags)
    else if EndsIn(name, "tasks/proxmox/detach-app-gpu.yml") || (via != [] && "ansible/roles/" <= name) then
      IsEntered(r, c, fuel, WithVars(c.files[file], t.vars), Parent(file), conds, via + [name], flags)
    else
      IsStep(r, t, "include_tasks", if "ansible/tasks/" <= name then Shared(name) else Content(c.files[file]), conds,
             via, flags)
  }

  predicate IsInclude(t: Task, path: string) {
    t.action.Include? && t.action.key != ShortImport && t.action.path == path && t.action.options.None?
  }

  /** An include of a path without a template: a missing file fails; a phase file is entered
      without a trace, if the import is a static one; the detach tasks, and inside a hook every
      role file, are entered under their name; any other file is a step, by its name below the
      shared tasks and by its content elsewhere. */
  lemma {:induction false} StaticIncludeWalks(c: Config, fuel: nat, t: Task, path: string, base: Dir,
                                              inherited: seq<Cond>, via: seq<string>, flags: set<string>)
    requires IsInclude(t, path) && !HasTemplate(path) && Kept(c, inherited + t.when, flags).Some?
    ensures var file := Anchor(base, path);
            FileWalks(WalkTask(c, fuel, t, base, inherited, via, flags), c, fuel, t, file, Relative(file, c.repo),
                      Kept(c, inherited + t.when, flags).value, via, flags)
  {
    hide Kept; hide Walk; hide Named; hide Anchor; hide Relative; hide IsPhase; hide EndsWith; hide EndsIn; hide Tail;
    NoTemplateInside(path, "{{ _rm_hooks }}");
    NoTemplateInside(path, "{{ _ra_hooks }}");
    var name := Relative(Anchor(base, path), c.repo);
    PhaseByName(name);
    SuffixIsEnd(name, INLINE);
  }

  /** A mapping as the value of an include has no plan. */
  lemma MappingFails(c: Config, fuel: nat, t: Task, base: Dir, inherited: seq<Cond>, via: seq<string>,
                     flags: set<string>)
    requires Includes(t) && t.action.options.Some? && Kept(c, inherited + t.when, flags).Some?
    ensures WalkTask(c, fuel, t, base, inherited, via, flags) == Failure
  {
  }

  // Includes of templated paths

  /** A templated path that names no hook is a step with its own text, the literal part spelled
      from the repository. */
  lemma {:induction false} TemplatedIncludeWalks(c: Config, fuel: nat, t: Task, path: string, base: Dir,
                                                 inherited: seq<Cond>, via: seq<string>, flags: set<string>)
    requires IsInclude(t, path) && HasTemplate(path) && Kept(c, inherited + t.when, flags).Some?
    requires !Contains(path, "{{ _rm_hooks }}") && !Contains(path, "{{ _ra_hooks }}")
    ensures IsStep(WalkTask(c, fuel, t, base, inherited, via, flags), t, "include_tasks",
                   Path(Templated(path, base, c.repo)), Kept(c, inherited + t.when, flags).value, via, flags)
  {
    hide Kept; hide Named; hide Templated;
  }

  /** The literal part of a templated path as the plan spells it: below the repository from
      there, elsewhere from the root, and with the slash it ended in. */
  lemma {:induction false} TemplatedIsSpelled(p: string, tail: string, base: Dir, repo: Dir)
    requires '{' !in p && BRACES <= tail && repo != []
    ensures p == "" ==> Templated(p + tail, base, repo) == tail
    ensures p != "" ==>
            var place, slash := Anchor(base, p), if p[|p| - 1] == '/' then "/" else "";
            Templated(p + tail, base, repo)
            == (if repo < place then Join(place[|repo|..], '/') else "/" + Join(place, '/')) + slash + tail
  {
    hide Anchor; hide Join; hide Prefix; hide Tail;
    PartsOf(p, tail);
    var place := Anchor(base, p);
    if p == "" {
      assert p + tail == tail;
    } else {
      AbsoluteBelow(place, repo);
      if repo < place {
        JoinBehind(repo, place[|repo|..]);
        assert repo + place[|repo|..] == place;
      }
    }
  }

  // Includes of hooks

  lemma {:induction false} HookIsSeen(opening: string, s: string)
    requires opening == "{{ _rm_hooks }}" || opening == "{{ _ra_hooks }}"
    ensures IsHook(opening + "/" + s) && After(opening + "/" + s, "}}/") == Some(s)
  {
    hide After;
    var path := opening + "/" + s;
    assert path[..|opening|] == opening;
    var p := opening[..|opening| - 2];
    assert '}' !in p;
    assert path == p + ("}}/" + s);
    SearchSkips(p, "}}/" + s, "}}/");
    FoundAtOnce("}}/", s);
  }

  lemma FoundAtOnce(sub: string, s: string)
    ensures After(sub + s, sub) == Some(s)
  {
  }

  lemma {:induction false} RoleIsNoPhase(rest: string)
    ensures !NamesPhase("ansible/roles/" + rest)
  {
    var name := "ansible/roles/" + rest;
    assert name[8] == 'r';
  }

  /** An include of a hook enters the hook's file, below the role whose hooks run, under its name
      there; when it is not there the plan fails. */
  lemma {:induction false} HookIncludeWalks(c: Config, fuel: nat, t: Task, opening: string, s: string, base: Dir,
                                            inherited: seq<Cond>, via: seq<string>, flags: set<string>)
    requires opening == "{{ _rm_hooks }}" || opening == "{{ _ra_hooks }}"
    requires IsInclude(t, opening + "/" + s) && !("/" <= s) && Kept(c, inherited + t.when, flags).Some?
    ensures var file, conds, r := Anchor(HookDir(c), s), Kept(c, inherited + t.when, flags).value,
                                  WalkTask(c, fuel, t, base, inherited, via, flags);
            if file !in c.files then r == Failure
            else IsEntered(r, c, fuel, WithVars(c.files[file], t.vars), Parent(file), conds,
                           via + ["ansible/roles/" + c.role + "/tasks/" + s], flags)
  {
    hide Kept; hide Walk; hide Named; hide Anchor; hide IsPhase; hide After; hide Contains; hide HasTemplate;
    hide Relative; hide EndsWith; hide IsHook; hide NamesPhase;
    HookIsSeen(opening, s);
    var name := ROLES + c.role + "/tasks/" + s;
    assert name == "ansible/roles/" + (c.role + "/tasks/" + s);
    RoleIsNoPhase(c.role + "/tasks/" + s);
    PhaseByName(name);
  }

  /** An absolute path behind the hooks is that file itself, under its name from the repository;
      a phase file named so by a static import is entered as a phase. */
  lemma {:induction false} AbsoluteHookWalks(c: Config, fuel: nat, t: Task, opening: string, file: Dir, base: Dir,
                                             inherited: seq<Cond>, via: seq<string>, flags: set<string>)
    requires opening == "{{ _rm_hooks }}" || opening == "{{ _ra_hooks }}"
    requires IsInclude(t, opening + "/" + Absolute(file)) && Kept(c, inherited + t.when, flags).Some?
    ensures var name, conds, r := Relative(file, c.repo), Kept(c, inherited + t.when, flags).value,
                                  WalkTask(c, fuel, t, base, inherited, via, flags);
            if file !in c.files then r == Failure
            else if t.action.key == FqImport && NamesPhase(name) then
              IsEntered(r, c, fuel, c.files[file], Parent(file), conds, via, flags)
            else IsEntered(r, c, fuel, WithVars(c.files[file], t.vars), Parent(file), conds, via + [name], flags)
  {
    hide Kept; hide Walk; hide Named; hide Anchor; hide IsPhase; hide After; hide Contains; hide HasTemplate;
    hide Relative; hide EndsWith; hide IsHook; hide NamesPhase;
    HookIsSeen(opening, Absolute(file));
    AbsoluteLeads(HookDir(c), file);
    PhaseByName(Relative(file, c.repo));
  }

  /** A hook include behind the test for its file, the way the playbooks write it, enters the file
      when it is there, and is no step and no failure when it is not. */
  lemma {:induction false} GuardedHookWalks(c: Config, fuel: nat, t: Task, opening: string, file: Name, base: Dir,
                                            inherited: seq<Cond>, via: seq<string>, flags: set<string>)
    requires opening == "{{ _rm_hooks }}" || opening == "{{ _ra_hooks }}"
    requires IsInclude(t, opening + "/" + file) && t.when == [Identity(HookFile(file), false)]
    ensures var kept, r, hook := Kept(c, inherited, flags), WalkTask(c, fuel, t, base, inherited, via, flags),
                                 HookDir(c) + [file];
            if kept.None? || hook !in c.files then r == Ok(Out([], flags))
            else IsEntered(r, c, fuel, WithVars(c.files[hook], t.vars), HookDir(c), kept.value,
                           via + ["ansible/roles/" + c.role + "/tasks/" + file], flags)
  {
    hide Kept; hide WalkTask; hide Anchor;
    KeptAppend(c, inherited, t.when, flags);
    HookFileIsDecided(c, file, false, flags);
    PieceAnchors(HookDir(c), file);
    var kept := Kept(c, inherited, flags);
    if kept.None? || HookDir(c) + [file] !in c.files {
      SkippedTask(c, fuel, t, base, inherited, via, flags);
    } else {
      assert kept.value + [] == kept.value;
      assert file[0] in file;
      HookIncludeWalks(c, fuel, t, opening, file, base, inherited, via, flags);
    }
  }
}
