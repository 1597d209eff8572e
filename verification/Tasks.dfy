/** Parsed Ansible tasks, and `remove_plan.rebase` over them. */
module Tasks {
  import opened Text
  import opened Paths

  datatype Value = Bool(b: bool) | Scalar(text: string) | Items(items: seq<Value>)
                 | Fields(fields: map<string, Value>) | Conditions(conditions: seq<Cond>)

  type Keywords = map<string, Value>

  // The app-identity subjects, and the condition forms `decide` recognises as a whole

  datatype Subject = RemoveAppName | RemoveAppOrInstance | AppOrInstance | RestoreAppFact | RestoreApp

  datatype Atom = Is(subject: Subject, name: string)
                | IsIn(subject: Subject, names: seq<string>)
                | HookFile(file: string)
                | Flag(flag: string)

  datatype Cond = Identity(atom: Atom, negated: bool)
                | PlayVar(name: string, negated: bool)
                | Other(text: string)

  datatype IncludeKey = FqInclude | FqImport | ShortInclude | ShortImport

  /** A task: its keywords and its one action. `control` holds the keywords other than the
      name, the condition and the variables. An include's `options` are present when its
      value is a mapping with a `file` instead of a text. */
  datatype Task = Task(name: Option<string>, when: seq<Cond>, vars: Keywords, control: Keywords, action: Action)

  datatype Action = Block(block: seq<Task>, rescue: seq<Task>, always: seq<Task>)
                  | Include(key: IncludeKey, path: string, options: Option<Keywords>)
                  | SetFact(facts: Keywords)
                  | Role(word: string, role: string, tasksFrom: string, extra: Keywords)
                  | Module(name: string, arguments: Value)

  /** An include or import of a path and nothing else. */
  function Including(path: string): Task { Task(None, [], map[], map[], Include(FqInclude, path, None)) }

  function Importing(path: string): Task { Task(None, [], map[], map[], Include(FqImport, path, None)) }

  // rebase

  predicate FullyQualified(action: Action) {
    action.Include? && (action.key == FqInclude || action.key == FqImport) && action.options.None?
  }

  function RebaseTask(t: Task, source: Dir, base: Dir): Task
    decreases t, 1
  {
    t.(action :=
      if t.action.Block? then
        Block(Rebase(t.action.block, source, base), Rebase(t.action.rescue, source, base),
              Rebase(t.action.always, source, base))
      else if FullyQualified(t.action) then t.action.(path := Rebased(t.action.path, source, base))
      else t.action)
  }

  function Rebase(ts: seq<Task>, source: Dir, base: Dir): (moved: seq<Task>)
    ensures |moved| == |ts|
    decreases ts, 0
  {
    if ts == [] then [] else [RebaseTask(ts[0], source, base)] + Rebase(ts[1..], source, base)
  }

  /** What a move makes of an action: the three lists of a block are moved, and the path of a fully
      qualified include or import is spelled from the new directory. */
  predicate MovedAction(a: Action, moved: Action, source: Dir, base: Dir) {
    match a
    case Block(block, rescue, always) =>
      moved == Block(Rebase(block, source, base), Rebase(rescue, source, base), Rebase(always, source, base))
    case Include(key, path, options) =>
      moved == (if (key == FqInclude || key == FqImport) && options.None?
                then Include(key, Rebased(path, source, base), None) else a)
    case _ => moved == a
  }

  /** Each task of a moved list is the old one but for its action. */
  lemma {:induction false} RebaseMoves(ts: seq<Task>, k: nat, source: Dir, base: Dir)
    requires k < |ts|
    ensures var t, moved := ts[k], Rebase(ts, source, base)[k];
            moved == t.(action := moved.action) && MovedAction(t.action, moved.action, source, base)
  {
    RebaseAt(ts, k, source, base);
  }

  lemma {:induction false} RebaseAt(ts: seq<Task>, k: nat, source: Dir, base: Dir)
    requires k < |ts|
    ensures Rebase(ts, source, base)[k] == RebaseTask(ts[k], source, base)
  {
    if k > 0 {
      RebaseAt(ts[1..], k - 1, source, base);
    }
  }

  /** The loop of `rebase`: a fresh list, each task a copy with its paths moved. */
  method RebaseList(ts: seq<Task>, source: Dir, base: Dir) returns (out: seq<Task>)
    ensures out == Rebase(ts, source, base)
    decreases ts
  {
    hide Anchor; hide Relpath; hide Prefix; hide Tail; hide Rebase; hide EndsInSlash;
    out := [];
    for i := 0 to |ts|
      invariant |out| == i
      invariant forall k :: 0 <= k < i ==> out[k] == RebaseTask(ts[k], source, base)
    {
      var task := ts[i];
      match task.action {
        case Block(block, rescue, always) =>
          var moved := RebaseList(block, source, base);
          var movedRescue := RebaseList(rescue, source, base);
          var movedAlways := RebaseList(always, source, base);
          task := task.(action := Block(moved, movedRescue, movedAlways));
        case Include(key, path, options) =>
          if (key == FqInclude || key == FqImport) && options.None? && !(BRACES <= path) {
            var moved := Relpath(Anchor(source, Prefix(path)), base);
            task := task.(action := Include(key, moved + (if EndsInSlash(Prefix(path)) then "/" else "") + Tail(path),
                                            options));
          }
        case _ =>
      }
      out := out + [task];
    }
    forall k | 0 <= k < |ts| ensures out[k] == Rebase(ts, source, base)[k] {
      RebaseAt(ts, k, source, base);
    }
  }

  predicate PlainTask(t: Task)
    decreases t, 1
  {
    if t.action.Block? then PlainTasks(t.action.block) && PlainTasks(t.action.rescue) && PlainTasks(t.action.always)
    else FullyQualified(t.action) ==> PlainText(t.action.path)
  }

  /** No fully qualified include path has a brace in its literal part. */
  predicate PlainTasks(ts: seq<Task>)
    decreases ts, 0
  {
    ts == [] || (PlainTask(ts[0]) && PlainTasks(ts[1..]))
  }

  /** Over whole task lists, two moves are one. */
  lemma {:induction false} RebaseListComposes(ts: seq<Task>, source: Dir, middle: Dir, base: Dir)
    requires PlainDir(source) && PlainTasks(ts)
    ensures Rebase(Rebase(ts, source, middle), middle, base) == Rebase(ts, source, base)
    decreases ts, 0
  {
    if ts != [] {
      var moved := Rebase(ts, source, middle);
      assert moved[0] == RebaseTask(ts[0], source, middle) && moved[1..] == Rebase(ts[1..], source, middle);
      RebaseTaskComposes(ts[0], source, middle, base);
      RebaseListComposes(ts[1..], source, middle, base);
    }
  }

  lemma {:induction false} RebaseTaskComposes(t: Task, source: Dir, middle: Dir, base: Dir)
    requires PlainDir(source) && PlainTask(t)
    ensures RebaseTask(RebaseTask(t, source, middle), middle, base) == RebaseTask(t, source, base)
    decreases t, 1
  {
    match t.action {
      case Block(block, rescue, always) =>
        RebaseListComposes(block, source, middle, base);
        RebaseListComposes(rescue, source, middle, base);
        RebaseListComposes(always, source, middle, base);
      case Include(_, path, _) =>
        if FullyQualified(t.action) {
          RebaseComposes(path, source, middle, base);
        }
      case _ =>
    }
  }
}
