/** `remove_plan.walk`: the steps one app's run takes through a list of tasks. */
module PlanWalk {
  import opened Text
  import opened Paths
  import opened Tasks

  const FLAGS: set<string> := {"_rm_database_backend", "_rm_keeps_guest_record"}
  const PHASES: seq<string> := ["ansible/tasks/removal/", "ansible/tasks/recovery/restore-app-",
                                "ansible/tasks/recovery/restore-guest-"]
  const INLINE: string := "tasks/proxmox/detach-app-gpu.yml"
  const ROLES: string := "ansible/roles/"
  const SHARED: string := "ansible/tasks/"

  /** A play variable that is one identity atom, and whether the atom held when the play started. */
  datatype Known = Known(atom: Atom, held: bool)

  /** One run: the app, its instance, the role whose hooks run, the parsed files below the
      repository, and the play variables decided at the start of the play. */
  datatype Config = Config(app: string, instance: string, repo: Dir, role: Name,
                           files: map<Dir, seq<Task>>, playVars: map<string, Known>)
  {
    function Hooks(): Dir { repo + ["ansible", "roles", role, "tasks"] }
  }

  // Deciding conditions

  function SubjectValue(c: Config, s: Subject): string {
    if s == RemoveAppOrInstance then c.instance else c.app
  }

  /** Whether an identity atom holds; a flag holds when a hook has declared it. */
  predicate Holds(c: Config, a: Atom, flags: set<string>) {
    match a
    case Is(s, name) => SubjectValue(c, s) == name
    case IsIn(s, names) => SubjectValue(c, s) in names
    case HookFile(file) => Anchor(c.Hooks(), file) in c.files
    case Flag(flag) => flag in flags
  }

  function Decide(c: Config, cond: Cond, flags: set<string>): Option<bool> {
    match cond
    case Identity(a, negated) =>
      if a.Flag? && a.flag !in FLAGS then None else Some(Holds(c, a, flags) != negated)
    case PlayVar(name, negated) => if name in c.playVars then Some(c.playVars[name].held != negated) else None
    case Other(_) => None
  }

  /** The conditions that stay as text, or nothing when one is decided false. */
  function Kept(c: Config, conds: seq<Cond>, flags: set<string>): Option<seq<Cond>> {
    if conds == [] then Some([])
    else
      var rest := Kept(c, conds[1..], flags);
      match Decide(c, conds[0], flags)
      case Some(b) => if b then rest else None
      case None => if rest.None? then None else Some([conds[0]] + rest.value)
  }

  // Include targets

  function Relative(file: Dir, repo: Dir): string {
    if repo <= file then (if file == repo then "." else Join(file[|repo|..], '/')) else Absolute(file)
  }

  predicate IsPhase(relative: string) { exists k | 0 <= k < |PHASES| :: PHASES[k] <= relative }

  predicate IsHook(path: string) {
    Contains(path, "{{ _rm_hooks }}") || Contains(path, "{{ _ra_hooks }}")
  }

  predicate EndsWith(s: string, suffix: string) { |suffix| <= |s| && s[|s| - |suffix|..] == suffix }

  /** What an include is to the plan: a path that stays a text, a phase file inlined without a
      trace, a file inlined with its name recorded, a file that stays one step, or an error. */
  datatype Target = TemplatedPath(text: string) | Phase(file: Dir) | Inlined(file: Dir, relative: string)
                  | Stays(file: Dir, relative: string) | Unreadable

  /** The file an include names, and its name from the repository. */
  function Resolve(c: Config, path: string, base: Dir): Option<(Dir, string)> {
    if IsHook(path) then
      match After(path, "}}/")
      case None => None
      case Some(suffix) =>
        var file := Anchor(c.Hooks(), suffix);
        Some((file, if "/" <= suffix then Relative(file, c.repo) else ROLES + c.role + "/tasks/" + suffix))
    else
      var file := Anchor(base, path);
      Some((file, Relative(file, c.repo)))
  }

  function Classify(c: Config, key: IncludeKey, path: string, options: Option<Keywords>, base: Dir,
                    hooked: bool): Target
  {
    if options.Some? then Unreadable
    else if HasTemplate(path) && !IsHook(path) then TemplatedPath(Templated(path, base, c.repo))
    else
      match Resolve(c, path, base)
      case None => Unreadable
      case Some((file, relative)) =>
        if file !in c.files then Unreadable
        else if IsPhase(relative) && key == FqImport then Phase(file)
        else if IsHook(path) || EndsWith(relative, INLINE) || (hooked && ROLES <= relative) then
          Inlined(file, relative)
        else Stays(file, relative)
  }

  // Steps

  datatype Arguments = Given(value: Value) | Facts(facts: Keywords)
                     | RoleFile(role: string, tasksFrom: string, extra: Keywords)
                     | Path(path: string) | Mapping(file: string, options: Keywords)
                     | Shared(relative: string) | Content(tasks: seq<Task>)

  // The flags a text mentions: `substitute` looks for a flag with its default

  /** A flag as conditions and texts test it. */
  function Test(flag: string): string { flag + " | default(false) | bool" }

  predicate Spells(text: string, flag: string) { Contains(text, Test(flag)) }

  predicate Mentions(v: Value, flag: string) {
    match v
    case Bool(_) => false
    case Scalar(text) => Spells(text, flag)
    case Items(items) => exists k | 0 <= k < |items| :: Mentions(items[k], flag)
    case Fields(fields) => exists n | n in fields :: Mentions(fields[n], flag)
    case Conditions(conds) => exists k | 0 <= k < |conds| :: CondMentions(conds[k], flag)
  }

  predicate CondMentions(cond: Cond, flag: string) {
    match cond
    case Identity(a, _) => a.Flag? && Spells(Test(a.flag), flag)
    case PlayVar(_, _) => false
    case Other(text) => Spells(text, flag)
  }

  predicate KeywordsMention(words: Keywords, flag: string) { exists n | n in words :: Mentions(words[n], flag) }

  predicate TaskMentions(t: Task, flag: string)
    decreases t, 1
  {
    || (t.name.Some? && Spells(t.name.value, flag))
    || (exists k | 0 <= k < |t.when| :: CondMentions(t.when[k], flag))
    || KeywordsMention(t.vars, flag) || KeywordsMention(t.control, flag)
    || match t.action
       case Block(block, rescue, always) =>
         TasksMention(block, flag) || TasksMention(rescue, flag) || TasksMention(always, flag)
       case Include(_, path, options) => Spells(path, flag) || (options.Some? && KeywordsMention(options.value, flag))
       case SetFact(facts) => KeywordsMention(facts, flag)
       case Role(_, role, tasksFrom, extra) =>
         Spells(role, flag) || Spells(tasksFrom, flag) || KeywordsMention(extra, flag)
       case Module(_, arguments) => Mentions(arguments, flag)
  }

  predicate TasksMention(ts: seq<Task>, flag: string)
    decreases ts, 0
  {
    ts != [] && (TaskMentions(ts[0], flag) || TasksMention(ts[1..], flag))
  }

  predicate ArgumentsMention(arguments: Arguments, flag: string) {
    match arguments
    case Given(value) => Mentions(value, flag)
    case Facts(facts) => KeywordsMention(facts, flag)
    case RoleFile(role, tasksFrom, extra) =>
      Spells(role, flag) || Spells(tasksFrom, flag) || KeywordsMention(extra, flag)
    case Path(path) => Spells(path, flag)
    case Mapping(file, options) => Spells(file, flag) || KeywordsMention(options, flag)
    case Shared(relative) => Spells(relative, flag)
    case Content(tasks) => TasksMention(tasks, flag)
  }

  /** The flags the texts of a step mention. */
  function Named(arguments: Arguments, vars: Keywords, control: Keywords): set<string> {
    set f | f in FLAGS && (ArgumentsMention(arguments, f) || KeywordsMention(vars, f) || KeywordsMention(control, f))
  }

  /** A step of the plan. The texts in `arguments`, `vars` and `control` are the ones obtained
      by replacing identity comparisons and flags when, of the flags they mention, those in
      `known` were declared. */
  datatype Step = Step(name: Option<string>, mod: string, arguments: Arguments, vars: Keywords, control: Keywords,
                       known: set<string>, when: seq<Cond>, via: seq<string>)

  datatype Out = Out(steps: seq<Step>, flags: set<string>)

  function Leaf(t: Task, mod: string, arguments: Arguments, flags: set<string>, conds: seq<Cond>,
                via: seq<string>): Step
  {
    Step(t.name, mod, arguments, t.vars, t.control, flags * Named(arguments, t.vars, t.control), conds, via)
  }

  /** A hook task that declares flags and nothing else. */
  predicate Declares(t: Task, via: seq<string>) {
    t.action.SetFact? && via != [] && t.action.facts != map[] && t.action.facts.Keys <= FLAGS
  }

  function TrueNames(facts: Keywords): set<string> { set n | n in facts && facts[n] == Bool(true) }

  function WithVars(ts: seq<Task>, vars: Keywords): seq<Task> {
    if ts == [] then [] else [ts[0].(vars := vars + ts[0].vars)] + WithVars(ts[1..], vars)
  }

  function OwnModule(a: Action): string {
    match a
    case Block(_, _, _) => "block"
    case Include(_, _, _) => "import_tasks"
    case SetFact(_) => "ansible.builtin.set_fact"
    case Role(key, _, _, _) => key
    case Module(name, _) => name
  }

  function OwnArguments(a: Action): Arguments {
    match a
    case Block(_, _, _) => Path("")
    case Include(_, path, options) => if options.None? then Path(path) else Mapping(path, options.value)
    case SetFact(facts) => Facts(facts)
    case Role(_, role, tasksFrom, extra) => RoleFile(role, tasksFrom, extra)
    case Module(_, arguments) => Given(arguments)
  }

  /** Whether `include_target` sees an include: the short import key is an ordinary module. */
  predicate Includes(t: Task) { t.action.Include? && t.action.key != ShortImport }

  // The walk as a function of the flags it starts from; `fuel` bounds the nesting of files

  function Walk(c: Config, fuel: nat, ts: seq<Task>, base: Dir, inherited: seq<Cond>, via: seq<string>,
                flags: set<string>): Result<Out>
    decreases fuel, ts, 0
  {
    if ts == [] then Ok(Out([], flags))
    else
      var first :- WalkTask(c, fuel, ts[0], base, inherited, via, flags);
      var rest :- Walk(c, fuel, ts[1..], base, inherited, via, first.flags);
      Ok(Out(first.steps + rest.steps, rest.flags))
  }

  function WalkTask(c: Config, fuel: nat, t: Task, base: Dir, inherited: seq<Cond>, via: seq<string>,
                    flags: set<string>): Result<Out>
    decreases fuel, t, 1
  {
    match Kept(c, inherited + t.when, flags)
    case None => Ok(Out([], flags))
    case Some(conds) =>
      if t.action.Block? then Walk(c, fuel, t.action.block, base, conds, via, flags)
      else if Declares(t, via) then Ok(Out([], flags + TrueNames(t.action.facts)))
      else if Includes(t) then
        WalkInclude(c, fuel, t, Classify(c, t.action.key, t.action.path, t.action.options, base, via != []), conds,
                    via, flags)
      else Ok(Out([Leaf(t, OwnModule(t.action), OwnArguments(t.action), flags, conds, via)], flags))
  }

  function WalkInclude(c: Config, fuel: nat, t: Task, target: Target, conds: seq<Cond>, via: seq<string>,
                       flags: set<string>): Result<Out>
    decreases fuel, t, 0
  {
    match target
    case TemplatedPath(text) => Ok(Out([Leaf(t, "include_tasks", Path(text), flags, conds, via)], flags))
    case Phase(file) =>
      if fuel == 0 then Failure
      else Walk(c, fuel - 1, Read(c, file), Parent(file), conds, via, flags)
    case Inlined(file, relative) =>
      if fuel == 0 then Failure
      else Walk(c, fuel - 1, WithVars(Read(c, file), t.vars), Parent(file), conds, via + [relative], flags)
    case Stays(file, relative) =>
      Ok(Out([Leaf(t, "include_tasks", Stand(c, file, relative), flags, conds, via)], flags))
    case Unreadable => Failure
  }

  function Read(c: Config, file: Dir): seq<Task> { if file in c.files then c.files[file] else [] }

  /** What stands for an included file in its step: its name when it is shared, else its content. */
  function Stand(c: Config, file: Dir, relative: string): Arguments {
    if SHARED <= relative then Shared(relative) else Content(Read(c, file))
  }

  // The walk as the program runs it, over the one flag set all plays share

  class FlagSet {
    var names: set<string>
    constructor () ensures names == {} { names := {}; }
  }

  ghost function Onto(done: seq<Step>, rest: Result<Out>): Result<Out> {
    if rest.Failure? then Failure else Ok(Out(done + rest.value.steps, rest.value.flags))
  }

  lemma OntoTask(done: seq<Step>, c: Config, fuel: nat, ts: seq<Task>, base: Dir, inherited: seq<Cond>,
                 via: seq<string>, flags: set<string>, now: Out)
    requires ts != [] && WalkTask(c, fuel, ts[0], base, inherited, via, flags) == Ok(now)
    ensures Onto(done, Walk(c, fuel, ts, base, inherited, via, flags))
         == Onto(done + now.steps, Walk(c, fuel, ts[1..], base, inherited, via, now.flags))
  {
    var rest := Walk(c, fuel, ts[1..], base, inherited, via, now.flags);
    if rest.Ok? {
      assert done + (now.steps + rest.value.steps) == (done + now.steps) + rest.value.steps;
    }
  }

  method WalkTasks(c: Config, fuel: nat, ts: seq<Task>, base: Dir, inherited: seq<Cond>, via: seq<string>,
                   flags: FlagSet) returns (steps: Result<seq<Step>>)
    modifies flags
    ensures var all := Walk(c, fuel, ts, base, inherited, via, old(flags.names));
            && steps.Ok? == all.Ok?
            && (all.Ok? ==> steps.value == all.value.steps && flags.names == all.value.flags)
    decreases fuel, ts, 0
  {
    ghost var all := Walk(c, fuel, ts, base, inherited, via, flags.names);
    var out: seq<Step> := [];
    assert ts[0..] == ts;
    if all.Ok? { assert [] + all.value.steps == all.value.steps; }
    for i := 0 to |ts|
      invariant all == Onto(out, Walk(c, fuel, ts[i..], base, inherited, via, flags.names))
    {
      ghost var before := flags.names;
      assert ts[i..][0] == ts[i] && ts[i..][1..] == ts[i + 1..];
      var found := WalkOneTask(c, fuel, ts[i], base, inherited, via, flags);
      if found.Failure? { return Failure; }
      OntoTask(out, c, fuel, ts[i..], base, inherited, via, before, Out(found.value, flags.names));
      out := out + found.value;
    }
    return Ok(out);
  }

  method WalkOneTask(c: Config, fuel: nat, t: Task, base: Dir, inherited: seq<Cond>, via: seq<string>,
                     flags: FlagSet) returns (steps: Result<seq<Step>>)
    modifies flags
    ensures var all := WalkTask(c, fuel, t, base, inherited, via, old(flags.names));
            && steps.Ok? == all.Ok?
            && (all.Ok? ==> steps.value == all.value.steps && flags.names == all.value.flags)
    decreases fuel, t, 1
  {
    hide Classify; hide Named; hide Stand;
    var kept := Kept(c, inherited + t.when, flags.names);
    if kept.None? { return Ok([]); }
    if t.action.Block? {
      steps := WalkTasks(c, fuel, t.action.block, base, kept.value, via, flags);
    } else if Declares(t, via) {
      flags.names := flags.names + TrueNames(t.action.facts);
      steps := Ok([]);
    } else if Includes(t) {
      match Classify(c, t.action.key, t.action.path, t.action.options, base, via != []) {
        case TemplatedPath(text) =>
          steps := Ok([Leaf(t, "include_tasks", Path(text), flags.names, kept.value, via)]);
        case Phase(file) =>
          if fuel == 0 { return Failure; }
          steps := WalkTasks(c, fuel - 1, Read(c, file), Parent(file), kept.value, via, flags);
        case Inlined(file, relative) =>
          if fuel == 0 { return Failure; }
          steps := WalkTasks(c, fuel - 1, WithVars(Read(c, file), t.vars), Parent(file), kept.value,
                             via + [relative], flags);
        case Stays(file, relative) =>
          steps := Ok([Leaf(t, "include_tasks", Stand(c, file, relative), flags.names, kept.value, via)]);
        case Unreadable => steps := Failure;
      }
    } else {
      steps := Ok([Leaf(t, OwnModule(t.action), OwnArguments(t.action), flags.names, kept.value, via)]);
    }
  }
}
