/** Why a plan tells what a run does: the steps whose remaining conditions hold are, in order,
    the tasks Ansible runs. */
module PartialEvaluation {
  import opened Text
  import opened Paths
  import opened Tasks
  import opened PlanWalk
  import opened WalkFacts

  /** What the plan leaves open: which of the other conditions hold, fixed for the run, and
      which facts that are not literals are true. */
  datatype Env = Env(open: iset<Cond>, facts: iset<Value>)

  /** The verdict on a condition when it is tested: a play variable is evaluated then, not at
      the start of the play. */
  function Actual(c: Config, cond: Cond, flags: set<string>): Option<bool> {
    match cond
    case Identity(a, negated) => if a.Flag? && a.flag !in FLAGS then None else Some(Holds(c, a, flags) != negated)
    case PlayVar(name, negated) =>
      if name in c.playVars then Some(Holds(c, c.playVars[name].atom, flags) != negated) else None
    case Other(_) => None
  }

  predicate True(c: Config, e: Env, cond: Cond, flags: set<string>) {
    match Actual(c, cond, flags)
    case Some(b) => b
    case None => cond in e.open
  }

  predicate AllTrue(c: Config, e: Env, conds: seq<Cond>, flags: set<string>) {
    forall k :: 0 <= k < |conds| ==> True(c, e, conds[k], flags)
  }

  predicate Truth(e: Env, v: Value) { if v.Bool? then v.b else v in e.facts }

  function Assigned(e: Env, facts: Keywords, flags: set<string>): set<string> {
    (flags - (facts.Keys * FLAGS)) + set n | n in facts && n in FLAGS && Truth(e, facts[n])
  }

  // The run: blocks and static imports pass their conditions on to every task, which tests
  // them when its turn comes; a dynamic include tests them once. Testing them before a block
  // as well changes nothing, since a false guard stays false while nothing runs

  function Run(c: Config, e: Env, fuel: nat, ts: seq<Task>, base: Dir, guards: seq<Cond>, via: seq<string>,
               flags: set<string>): Result<Out>
    decreases fuel, ts, 0
  {
    if ts == [] then Ok(Out([], flags))
    else
      var first :- RunTask(c, e, fuel, ts[0], base, guards, via, flags);
      var rest :- Run(c, e, fuel, ts[1..], base, guards, via, first.flags);
      Ok(Out(first.steps + rest.steps, rest.flags))
  }

  function RunTask(c: Config, e: Env, fuel: nat, t: Task, base: Dir, guards: seq<Cond>, via: seq<string>,
                   flags: set<string>): Result<Out>
    decreases fuel, t, 1
  {
    if !AllTrue(c, e, guards + t.when, flags) then Ok(Out([], flags))
    else if t.action.Block? then Run(c, e, fuel, t.action.block, base, guards + t.when, via, flags)
    else if t.action.SetFact? then
      Ok(Out(if Declares(t, via) then [] else [Leaf(t, OwnModule(t.action), OwnArguments(t.action), flags, [], via)],
             Assigned(e, t.action.facts, flags)))
    else if Includes(t) then
      RunInclude(c, e, fuel, t, Classify(c, t.action.key, t.action.path, t.action.options, base, via != []), guards,
                 via, flags)
    else Ok(Out([Leaf(t, OwnModule(t.action), OwnArguments(t.action), flags, [], via)], flags))
  }

  predicate Static(t: Task) { t.action.Include? ==> t.action.key == FqImport }

  /** The conditions an included file's tasks inherit: a dynamic include keeps its own to itself. */
  function Passed(t: Task, guards: seq<Cond>): seq<Cond> { if Static(t) then guards + t.when else guards }

  function RunInclude(c: Config, e: Env, fuel: nat, t: Task, target: Target, guards: seq<Cond>, via: seq<string>,
                      flags: set<string>): Result<Out>
    decreases fuel, t, 0
  {
    match target
    case TemplatedPath(text) => Ok(Out([Leaf(t, "include_tasks", Path(text), flags, [], via)], flags))
    case Phase(file) =>
      if fuel == 0 then Failure else Run(c, e, fuel - 1, Read(c, file), Parent(file), guards + t.when, via, flags)
    case Inlined(file, relative) =>
      if fuel == 0 then Failure
      else Run(c, e, fuel - 1, WithVars(Read(c, file), t.vars), Parent(file), Passed(t, guards), via + [relative],
               flags)
    case Stays(file, relative) => Ok(Out([Leaf(t, "include_tasks", Stand(c, file, relative), flags, [], via)], flags))
    case Unreadable => Failure
  }

  lemma {:induction false} RunOne(c: Config, e: Env, fuel: nat, t: Task, base: Dir, guards: seq<Cond>, via: seq<string>,
                                  flags: set<string>)
    ensures Run(c, e, fuel, [t], base, guards, via, flags) == RunTask(c, e, fuel, t, base, guards, via, flags)
  {
    hide RunTask;
    var r := RunTask(c, e, fuel, t, base, guards, via, flags);
    assert [t][1..] == [];
    if r.Ok? { assert r.value.steps + [] == r.value.steps; }
  }

  // When the plan can be trusted

  /** Some condition is decided false at this moment, whatever the open ones turn out to be. */
  predicate Fallen(c: Config, conds: seq<Cond>, flags: set<string>) {
    exists k :: 0 <= k < |conds| && Actual(c, conds[k], flags) == Some(false)
  }

  /** What the tasks inside a block or an included file inherit, where the plan keeps it: behind
      a guard that has fallen they all stay behind it, however the file is included. */
  function Inside(c: Config, t: Task, guards: seq<Cond>, flags: set<string>): seq<Cond> {
    if Fallen(c, guards + t.when, flags) then guards + t.when else Passed(t, guards)
  }

  /** Setting these facts leaves every flag as it is. */
  predicate Unchanging(facts: Keywords, flags: set<string>) {
    forall n :: n in facts && n in FLAGS ==> facts[n] == Bool(n in flags)
  }

  /** A fact task the plan keeps that can be trusted. A declaration that runs declares literals
      only, clears nothing that is set, and sets nothing new unless it is unconditional once
      decided; one behind a condition that has fallen sets nothing new. Any other fact task has
      no condition that has fallen, and leaves the flags as they are. */
  predicate CleanFacts(t: Task, fallen: bool, conds: seq<Cond>, via: seq<string>, flags: set<string>)
    requires t.action.SetFact?
  {
    var facts := t.action.facts;
    if !Declares(t, via) then !fallen && Unchanging(facts, flags)
    else if fallen then TrueNames(facts) <= flags
    else
      && (conds == [] || TrueNames(facts) <= flags)
      && forall n :: n in facts ==> facts[n].Bool? && (facts[n].b || n !in flags)
  }

  /** What a caller checks along the walk: a task is kept exactly when no guard and no condition
      of its own has fallen, and fact tasks can be trusted. */
  ghost predicate Clean(c: Config, fuel: nat, ts: seq<Task>, base: Dir, guards: seq<Cond>, inherited: seq<Cond>,
                        via: seq<string>, flags: set<string>)
    decreases fuel, ts, 0
  {
    ts == [] ||
    (CleanTask(c, fuel, ts[0], base, guards, inherited, via, flags)
     && var first := WalkTask(c, fuel, ts[0], base, inherited, via, flags);
        first.Ok? ==> Clean(c, fuel, ts[1..], base, guards, inherited, via, first.value.flags))
  }

  ghost predicate CleanTask(c: Config, fuel: nat, t: Task, base: Dir, guards: seq<Cond>, inherited: seq<Cond>,
                            via: seq<string>, flags: set<string>)
    decreases fuel, t, 2
  {
    var fallen := Fallen(c, guards + t.when, flags);
    match Kept(c, inherited + t.when, flags)
    case None => fallen || (Declares(t, via) && Unchanging(t.action.facts, flags))
    case Some(conds) =>
      if t.action.Block? then Clean(c, fuel, t.action.block, base, guards + t.when, conds, via, flags)
      else if t.action.SetFact? then CleanFacts(t, fallen, conds, via, flags)
      else if Includes(t) then
        CleanInclude(c, fuel, t, Classify(c, t.action.key, t.action.path, t.action.options, base, via != []), guards,
                     conds, via, flags)
      else !fallen
  }

  ghost predicate CleanInclude(c: Config, fuel: nat, t: Task, target: Target, guards: seq<Cond>, conds: seq<Cond>,
                               via: seq<string>, flags: set<string>)
    decreases fuel, t, 1
  {
    match target
    case Phase(file) =>
      fuel > 0 ==> Clean(c, fuel - 1, Read(c, file), Parent(file), guards + t.when, conds, via, flags)
    case Inlined(file, relative) =>
      fuel > 0 ==> Clean(c, fuel - 1, WithVars(Read(c, file), t.vars), Parent(file), Inside(c, t, guards, flags),
                         conds, via + [relative], flags)
    case Unreadable => true
    case _ => !Fallen(c, guards + t.when, flags)
  }

  // The steps taken

  predicate Opens(e: Env, conds: seq<Cond>) { forall k :: 0 <= k < |conds| ==> conds[k] in e.open }

  /** The steps whose remaining conditions all hold, as tasks run. */
  function Taken(e: Env, steps: seq<Step>): seq<Step> {
    if steps == [] then []
    else (if Opens(e, steps[0].when) then [steps[0].(when := [])] else []) + Taken(e, steps[1..])
  }

  lemma {:induction false} TakenAppend(e: Env, xs: seq<Step>, ys: seq<Step>)
    ensures Taken(e, xs + ys) == Taken(e, xs) + Taken(e, ys)
  {
    if xs == [] {
      assert xs + ys == ys;
    } else {
      assert (xs + ys)[0] == xs[0] && (xs + ys)[1..] == xs[1..] + ys;
      TakenAppend(e, xs[1..], ys);
    }
  }

  lemma {:induction false} TakenOne(e: Env)
    ensures forall s: Step {:trigger Taken(e, [s])} ::
              Taken(e, [s]) == if Opens(e, s.when) then [s.(when := [])] else []
  {
    forall s: Step ensures Taken(e, [s]) == if Opens(e, s.when) then [s.(when := [])] else [] {
      assert [s][1..] == [];
    }
  }

  lemma {:induction false} TakenNone(e: Env, conds: seq<Cond>, steps: seq<Step>)
    requires !Opens(e, conds) && forall k :: 0 <= k < |steps| ==> conds <= steps[k].when
    ensures Taken(e, steps) == []
  {
    if steps != [] {
      var k :| 0 <= k < |conds| && conds[k] !in e.open;
      assert steps[0].when[k] == conds[k];
      TakenNone(e, conds, steps[1..]);
    }
  }

  // Conditions

  lemma {:induction false} OpensBoth(e: Env, xs: seq<Cond>, ys: seq<Cond>)
    ensures Opens(e, xs + ys) <==> Opens(e, xs) && Opens(e, ys)
  {
    if Opens(e, xs + ys) {
      forall k | 0 <= k < |xs| ensures xs[k] in e.open { assert (xs + ys)[k] == xs[k]; }
      forall k | 0 <= k < |ys| ensures ys[k] in e.open { assert (xs + ys)[|xs| + k] == ys[k]; }
    }
  }

  /** Every condition that cannot be decided holds. */
  predicate Guarded(c: Config, e: Env, conds: seq<Cond>) {
    forall k :: 0 <= k < |conds| ==> Decide(c, conds[k], {}).None? ==> conds[k] in e.open
  }

  /** Conditions hold exactly when none has fallen and the undecidable ones hold. */
  lemma {:induction false} AllTrueParts(c: Config, e: Env, conds: seq<Cond>, flags: set<string>)
    ensures AllTrue(c, e, conds, flags) <==> !Fallen(c, conds, flags) && Guarded(c, e, conds)
  {
    forall k | 0 <= k < |conds|
      ensures True(c, e, conds[k], flags)
         <==> Actual(c, conds[k], flags) != Some(false) && (Decide(c, conds[k], {}).None? ==> conds[k] in e.open)
    {
      assert Decide(c, conds[k], {}).None? <==> Actual(c, conds[k], flags).None?;
    }
    if !AllTrue(c, e, conds, flags) {
      var k :| 0 <= k < |conds| && !True(c, e, conds[k], flags);
    }
  }

  lemma {:induction false} GuardedBoth(c: Config, e: Env, xs: seq<Cond>, ys: seq<Cond>)
    ensures Guarded(c, e, xs + ys) <==> Guarded(c, e, xs) && Guarded(c, e, ys)
  {
    if Guarded(c, e, xs + ys) {
      forall k | 0 <= k < |xs| && Decide(c, xs[k], {}).None? ensures xs[k] in e.open { assert (xs + ys)[k] == xs[k]; }
      forall k | 0 <= k < |ys| && Decide(c, ys[k], {}).None? ensures ys[k] in e.open {
        assert (xs + ys)[|xs| + k] == ys[k];
      }
    }
  }

  /** What the plan keeps of conditions holds exactly when the undecidable ones do. */
  lemma {:induction false} KeptOpens(c: Config, e: Env, conds: seq<Cond>, flags: set<string>)
    requires Kept(c, conds, flags).Some?
    ensures Opens(e, Kept(c, conds, flags).value) <==> Guarded(c, e, conds)
  {
    if conds != [] {
      var rest, kept := Kept(c, conds[1..], flags).value, Kept(c, conds, flags).value;
      KeptOpens(c, e, conds[1..], flags);
      assert conds == [conds[0]] + conds[1..];
      GuardedBoth(c, e, [conds[0]], conds[1..]);
      assert Decide(c, conds[0], {}).None? <==> Decide(c, conds[0], flags).None?;
      if rest != kept { OpensBoth(e, [conds[0]], rest); }
      assert Guarded(c, e, [conds[0]]) <==> (Decide(c, conds[0], {}).None? ==> [conds[0]][0] in e.open);
    }
  }

  lemma {:induction false} StaysFallen(c: Config, guards: seq<Cond>, when: seq<Cond>, flags: set<string>)
    requires Fallen(c, guards, flags)
    ensures Fallen(c, guards + when, flags)
  {
    var k :| 0 <= k < |guards| && Actual(c, guards[k], flags) == Some(false);
    assert (guards + when)[k] == guards[k];
  }

  // Where a walk and a run stand when they reach the same task

  /** The plan inherits open conditions only, and among them every open guard of the run. */
  ghost predicate Covers(c: Config, inherited: seq<Cond>, guards: seq<Cond>) {
    && Undecided(c, inherited)
    && forall k :: 0 <= k < |guards| ==> Decide(c, guards[k], {}).None? ==> guards[k] in inherited
  }

  lemma {:induction false} CoversGuards(c: Config, e: Env, inherited: seq<Cond>, guards: seq<Cond>)
    requires Covers(c, inherited, guards) && Opens(e, inherited)
    ensures Guarded(c, e, guards)
  {
    forall k | 0 <= k < |guards| && Decide(c, guards[k], {}).None? ensures guards[k] in e.open {
      assert guards[k] in inherited;
    }
  }

  lemma {:induction false} KeptHolds(c: Config, conds: seq<Cond>, flags: set<string>, k: nat)
    requires Kept(c, conds, flags).Some? && k < |conds| && Decide(c, conds[k], {}).None?
    ensures conds[k] in Kept(c, conds, flags).value
  {
    if k > 0 {
      KeptHolds(c, conds[1..], flags, k - 1);
    } else {
      assert Decide(c, conds[0], flags).None?;
    }
  }

  /** The same footing inside a task the plan keeps. */
  lemma {:induction false} CoversInside(c: Config, t: Task, inherited: seq<Cond>, guards: seq<Cond>, flags: set<string>)
    requires Covers(c, inherited, guards) && Kept(c, inherited + t.when, flags).Some?
    ensures var conds := Kept(c, inherited + t.when, flags).value;
            Covers(c, conds, guards + t.when) && Covers(c, conds, guards) && inherited <= conds
  {
    var all := inherited + t.when;
    var conds := Kept(c, all, flags).value;
    KeptIsUndecided(c, all, flags);
    KeptAfter(c, inherited, t.when, flags);
    var both := guards + t.when;
    forall k | 0 <= k < |both| && Decide(c, both[k], {}).None? ensures both[k] in conds {
      if k < |guards| {
        assert guards[k] in inherited;
      } else {
        assert both[k] == all[|inherited| + k - |guards|];
        KeptHolds(c, all, flags, |inherited| + k - |guards|);
      }
    }
    forall k | 0 <= k < |guards| && Decide(c, guards[k], {}).None? ensures guards[k] in conds {
      assert both[k] == guards[k];
    }
  }

  /** A task's guards and conditions all hold exactly when none has fallen and the open ones
      hold; where the plan keeps the task, that is what it keeps open. */
  lemma {:induction false} Verdict(c: Config, e: Env, guards: seq<Cond>, inherited: seq<Cond>, when: seq<Cond>,
                                   flags: set<string>)
    requires Covers(c, inherited, guards) && Opens(e, inherited)
    ensures AllTrue(c, e, guards + when, flags) <==> !Fallen(c, guards + when, flags) && Guarded(c, e, when)
    ensures var kept := Kept(c, inherited + when, flags);
            kept.Some? ==> (Opens(e, kept.value) <==> Guarded(c, e, when))
  {
    hide Kept; hide AllTrue; hide Fallen; hide Guarded; hide Covers;
    CoversGuards(c, e, inherited, guards);
    AllTrueParts(c, e, guards + when, flags);
    GuardedBoth(c, e, guards, when);
    GuardedBoth(c, e, inherited, when);
    OpensAreGuarded(c, e, inherited);
    if Kept(c, inherited + when, flags).Some? { KeptOpens(c, e, inherited + when, flags); }
  }

  lemma OpensAreGuarded(c: Config, e: Env, conds: seq<Cond>)
    requires Opens(e, conds)
    ensures Guarded(c, e, conds)
  {
  }

  // Steps behind a condition that does not hold

  lemma {:induction false} StepsCarry(c: Config, fuel: nat, t: Task, base: Dir, inherited: seq<Cond>, via: seq<string>,
                                      flags: set<string>)
    requires WalkTask(c, fuel, t, base, inherited, via, flags).Ok? && Kept(c, inherited + t.when, flags).Some?
    ensures var steps := WalkTask(c, fuel, t, base, inherited, via, flags).value.steps;
            forall k :: 0 <= k < |steps| ==> Kept(c, inherited + t.when, flags).value <= steps[k].when
  {
    hide Classify;
    var conds := Kept(c, inherited + t.when, flags).value;
    KeptIsUndecided(c, inherited + t.when, flags);
    if t.action.Block? {
      InheritedIsPrefix(c, fuel, t.action.block, base, conds, via, flags);
    } else if !Declares(t, via) && Includes(t) {
      match Classify(c, t.action.key, t.action.path, t.action.options, base, via != []) {
        case Phase(file) =>
          InheritedIsPrefix(c, fuel - 1, Read(c, file), Parent(file), conds, via, flags);
        case Inlined(file, relative) =>
          InheritedIsPrefix(c, fuel - 1, WithVars(Read(c, file), t.vars), Parent(file), conds, via + [relative], flags);
        case _ =>
      }
    }
  }

  /** Behind an open condition a clean walk declares no flag. */
  lemma {:induction false} Quiet(c: Config, fuel: nat, ts: seq<Task>, base: Dir, guards: seq<Cond>,
                                 inherited: seq<Cond>, via: seq<string>, flags: set<string>)
    requires Undecided(c, inherited) && inherited != []
    requires Walk(c, fuel, ts, base, inherited, via, flags).Ok?
    requires Clean(c, fuel, ts, base, guards, inherited, via, flags)
    ensures Walk(c, fuel, ts, base, inherited, via, flags).value.flags == flags
    decreases fuel, ts, 0
  {
    hide WalkTask; hide CleanTask; hide Undecided;
    if ts != [] {
      KeptAfterSome(c, inherited, ts[0].when, flags);
      QuietTask(c, fuel, ts[0], base, guards, inherited, via, flags);
      Quiet(c, fuel, ts[1..], base, guards, inherited, via, flags);
    }
  }

  lemma {:induction false} KeptAfterSome(c: Config, inherited: seq<Cond>, when: seq<Cond>, flags: set<string>)
    requires Undecided(c, inherited) && inherited != []
    ensures Kept(c, inherited + when, flags).Some? ==> Kept(c, inherited + when, flags).value != []
  {
    KeptAfter(c, inherited, when, flags);
  }

  lemma {:induction false} QuietTask(c: Config, fuel: nat, t: Task, base: Dir, guards: seq<Cond>, inherited: seq<Cond>,
                                     via: seq<string>, flags: set<string>)
    requires Kept(c, inherited + t.when, flags).Some? ==> Kept(c, inherited + t.when, flags).value != []
    requires WalkTask(c, fuel, t, base, inherited, via, flags).Ok?
    requires CleanTask(c, fuel, t, base, guards, inherited, via, flags)
    ensures WalkTask(c, fuel, t, base, inherited, via, flags).value.flags == flags
    decreases fuel, t, 1
  {
    hide Classify; hide Undecided; hide Fallen; hide Clean; hide Kept;
    KeptIsUndecided(c, inherited + t.when, flags);
    var kept := Kept(c, inherited + t.when, flags);
    if kept.Some? {
      if t.action.Block? {
        Quiet(c, fuel, t.action.block, base, guards + t.when, kept.value, via, flags);
      } else if !Declares(t, via) && Includes(t) {
        var target := Classify(c, t.action.key, t.action.path, t.action.options, base, via != []);
        assert CleanInclude(c, fuel, t, target, guards, kept.value, via, flags);
        match target {
          case Phase(file) =>
            Quiet(c, fuel - 1, Read(c, file), Parent(file), guards + t.when, kept.value, via, flags);
          case Inlined(file, relative) =>
            Quiet(c, fuel - 1, WithVars(Read(c, file), t.vars), Parent(file), Inside(c, t, guards, flags), kept.value,
                  via + [relative], flags);
          case _ =>
        }
      }
    }
  }

  // Steps behind a guard that has fallen

  /** Behind a guard that has fallen a clean walk does nothing. */
  lemma {:induction false} Idle(c: Config, fuel: nat, ts: seq<Task>, base: Dir, guards: seq<Cond>, inherited: seq<Cond>,
                                via: seq<string>, flags: set<string>)
    requires Fallen(c, guards, flags)
    requires Walk(c, fuel, ts, base, inherited, via, flags).Ok?
    requires Clean(c, fuel, ts, base, guards, inherited, via, flags)
    ensures Walk(c, fuel, ts, base, inherited, via, flags) == Ok(Out([], flags))
    decreases fuel, ts, 0
  {
    hide WalkTask; hide CleanTask; hide Fallen;
    if ts != [] {
      StaysFallen(c, guards, ts[0].when, flags);
      IdleTask(c, fuel, ts[0], base, guards, inherited, via, flags);
      Idle(c, fuel, ts[1..], base, guards, inherited, via, flags);
      var nothing: seq<Step> := [];
      assert nothing + nothing == nothing;
    }
  }

  lemma {:induction false} IdleTask(c: Config, fuel: nat, t: Task, base: Dir, guards: seq<Cond>, inherited: seq<Cond>,
                                    via: seq<string>, flags: set<string>)
    requires Fallen(c, guards + t.when, flags)
    requires WalkTask(c, fuel, t, base, inherited, via, flags).Ok?
    requires CleanTask(c, fuel, t, base, guards, inherited, via, flags)
    ensures WalkTask(c, fuel, t, base, inherited, via, flags) == Ok(Out([], flags))
    decreases fuel, t, 1
  {
    hide Classify; hide Clean; hide Kept; hide Fallen;
    var kept := Kept(c, inherited + t.when, flags);
    if kept.Some? {
      if t.action.Block? {
        Idle(c, fuel, t.action.block, base, guards + t.when, kept.value, via, flags);
      } else if t.action.SetFact? {
        assert flags + TrueNames(t.action.facts) == flags;
      } else if Includes(t) {
        var target := Classify(c, t.action.key, t.action.path, t.action.options, base, via != []);
        assert CleanInclude(c, fuel, t, target, guards, kept.value, via, flags);
        match target {
          case Phase(file) =>
            Idle(c, fuel - 1, Read(c, file), Parent(file), guards + t.when, kept.value, via, flags);
          case Inlined(file, relative) =>
            Idle(c, fuel - 1, WithVars(Read(c, file), t.vars), Parent(file), guards + t.when, kept.value,
                 via + [relative], flags);
          case _ =>
        }
      }
    }
  }

  // Soundness

  /** What a walk and a run of the same list have to agree on. */
  ghost predicate Agree(e: Env, plan: Result<Out>, run: Result<Out>) {
    plan.Ok? ==> run == Ok(Out(Taken(e, plan.value.steps), plan.value.flags))
  }

  /** Partial evaluation is sound: whatever the open conditions turn out to be, the steps whose
      remaining conditions hold are, in order, exactly the tasks the run executes, and the
      plan's flags are the run's. */
  lemma {:induction false} PlanIsSound(c: Config, e: Env, fuel: nat, ts: seq<Task>, base: Dir, guards: seq<Cond>,
                                       inherited: seq<Cond>, via: seq<string>, flags: set<string>)
    requires Covers(c, inherited, guards) && Opens(e, inherited)
    requires Walk(c, fuel, ts, base, inherited, via, flags).Ok?
    requires Clean(c, fuel, ts, base, guards, inherited, via, flags)
    ensures Agree(e, Walk(c, fuel, ts, base, inherited, via, flags), Run(c, e, fuel, ts, base, guards, via, flags))
    decreases fuel, ts, 0
  {
    hide WalkTask; hide RunTask; hide CleanTask; hide Covers; hide Opens;
    if ts != [] {
      var first := WalkTask(c, fuel, ts[0], base, inherited, via, flags).value;
      PlanIsSoundTask(c, e, fuel, ts[0], base, guards, inherited, via, flags);
      PlanIsSound(c, e, fuel, ts[1..], base, guards, inherited, via, first.flags);
      TakenAppend(e, first.steps, Walk(c, fuel, ts[1..], base, inherited, via, first.flags).value.steps);
    }
  }

  lemma {:induction false} PlanIsSoundTask(c: Config, e: Env, fuel: nat, t: Task, base: Dir, guards: seq<Cond>,
                                           inherited: seq<Cond>, via: seq<string>, flags: set<string>)
    requires Covers(c, inherited, guards) && Opens(e, inherited)
    requires WalkTask(c, fuel, t, base, inherited, via, flags).Ok?
    requires CleanTask(c, fuel, t, base, guards, inherited, via, flags)
    ensures Agree(e, WalkTask(c, fuel, t, base, inherited, via, flags),
                  RunTask(c, e, fuel, t, base, guards, via, flags))
    decreases fuel, t, 1
  {
    hide CleanTask; hide Covers; hide WalkTask; hide RunTask; hide Opens; hide Fallen; hide Guarded; hide Kept;
    hide AllTrue;
    Verdict(c, e, guards, inherited, t.when, flags);
    if !AllTrue(c, e, guards + t.when, flags) {
      RunsNothing(c, e, fuel, t, base, guards, via, flags);
    }
    if Fallen(c, guards + t.when, flags) {
      IdleTask(c, fuel, t, base, guards, inherited, via, flags);
    } else if Kept(c, inherited + t.when, flags).None? {
      SkippedFacts(c, e, fuel, t, base, guards, inherited, via, flags);
    } else if Guarded(c, e, t.when) {
      PlanIsSoundTaken(c, e, fuel, t, base, guards, inherited, via, flags);
    } else {
      NotTaken(c, e, fuel, t, base, guards, inherited, via, flags);
    }
  }

  lemma RunsNothing(c: Config, e: Env, fuel: nat, t: Task, base: Dir, guards: seq<Cond>, via: seq<string>,
                    flags: set<string>)
    requires !AllTrue(c, e, guards + t.when, flags)
    ensures RunTask(c, e, fuel, t, base, guards, via, flags) == Ok(Out([], flags))
    ensures Taken(e, []) == []
  {
  }

  lemma UnchangingAssigned(e: Env, facts: Keywords, flags: set<string>)
    requires Unchanging(facts, flags)
    ensures Assigned(e, facts, flags) == flags
  {
  }

  /** A skipped declaration that would run is harmless when it changes no flag. */
  lemma {:induction false} SkippedFacts(c: Config, e: Env, fuel: nat, t: Task, base: Dir, guards: seq<Cond>,
                                        inherited: seq<Cond>, via: seq<string>, flags: set<string>)
    requires Kept(c, inherited + t.when, flags).None? && !Fallen(c, guards + t.when, flags)
    requires CleanTask(c, fuel, t, base, guards, inherited, via, flags)
    ensures Agree(e, WalkTask(c, fuel, t, base, inherited, via, flags),
                  RunTask(c, e, fuel, t, base, guards, via, flags))
  {
    hide Kept; hide Fallen; hide AllTrue; hide Unchanging; hide Assigned;
    UnchangingAssigned(e, t.action.facts, flags);
  }

  /** A task behind an open condition that fails leaves no trace in the plan. */
  lemma {:induction false} NotTaken(c: Config, e: Env, fuel: nat, t: Task, base: Dir, guards: seq<Cond>,
                                    inherited: seq<Cond>, via: seq<string>, flags: set<string>)
    requires Kept(c, inherited + t.when, flags).Some? && !Opens(e, Kept(c, inherited + t.when, flags).value)
    requires WalkTask(c, fuel, t, base, inherited, via, flags).Ok?
    requires CleanTask(c, fuel, t, base, guards, inherited, via, flags)
    ensures var out := WalkTask(c, fuel, t, base, inherited, via, flags).value;
            Taken(e, out.steps) == [] && out.flags == flags
  {
    hide WalkTask; hide CleanTask; hide Kept;
    var conds := Kept(c, inherited + t.when, flags).value;
    StepsCarry(c, fuel, t, base, inherited, via, flags);
    TakenNone(e, conds, WalkTask(c, fuel, t, base, inherited, via, flags).value.steps);
    QuietTask(c, fuel, t, base, guards, inherited, via, flags);
  }

  lemma {:induction false} PlanIsSoundTaken(c: Config, e: Env, fuel: nat, t: Task, base: Dir, guards: seq<Cond>,
                                            inherited: seq<Cond>, via: seq<string>, flags: set<string>)
    requires Covers(c, inherited, guards) && AllTrue(c, e, guards + t.when, flags)
    requires !Fallen(c, guards + t.when, flags)
    requires Kept(c, inherited + t.when, flags).Some? && Opens(e, Kept(c, inherited + t.when, flags).value)
    requires WalkTask(c, fuel, t, base, inherited, via, flags).Ok?
    requires CleanTask(c, fuel, t, base, guards, inherited, via, flags)
    ensures Agree(e, WalkTask(c, fuel, t, base, inherited, via, flags),
                  RunTask(c, e, fuel, t, base, guards, via, flags))
    decreases fuel, t, 0
  {
    hide Classify; hide Fallen; hide Clean; hide Kept; hide Undecided; hide AllTrue; hide Covers; hide Opens;
    hide Assigned;
    var conds := Kept(c, inherited + t.when, flags).value;
    CoversInside(c, t, inherited, guards, flags);
    TakenOne(e);
    if t.action.Block? {
      PlanIsSound(c, e, fuel, t.action.block, base, guards + t.when, conds, via, flags);
    } else if t.action.SetFact? {
      FactsAgree(e, t, conds, via, flags);
    } else if Includes(t) {
      var target := Classify(c, t.action.key, t.action.path, t.action.options, base, via != []);
      assert CleanInclude(c, fuel, t, target, guards, conds, via, flags);
      match target {
        case Phase(file) =>
          PlanIsSound(c, e, fuel - 1, Read(c, file), Parent(file), guards + t.when, conds, via, flags);
        case Inlined(file, relative) =>
          PlanIsSound(c, e, fuel - 1, WithVars(Read(c, file), t.vars), Parent(file), Passed(t, guards), conds,
                      via + [relative], flags);
        case _ =>
      }
    }
  }

  lemma {:induction false} FactsAgree(e: Env, t: Task, conds: seq<Cond>, via: seq<string>, flags: set<string>)
    requires t.action.SetFact? && CleanFacts(t, false, conds, via, flags)
    ensures Assigned(e, t.action.facts, flags) == if Declares(t, via) then flags + TrueNames(t.action.facts) else flags
  {
    var facts := t.action.facts;
    if Declares(t, via) {
      forall n ensures n in Assigned(e, facts, flags) <==> n in flags + TrueNames(facts) {
      }
    } else {
      UnchangingAssigned(e, facts, flags);
    }
  }

  /** A whole play section, walked from nothing. */
  lemma {:induction false} SectionIsSound(c: Config, e: Env, fuel: nat, ts: seq<Task>, base: Dir, flags: set<string>)
    requires Walk(c, fuel, ts, base, [], [], flags).Ok? && Clean(c, fuel, ts, base, [], [], [], flags)
    ensures Agree(e, Walk(c, fuel, ts, base, [], [], flags), Run(c, e, fuel, ts, base, [], [], flags))
  {
    PlanIsSound(c, e, fuel, ts, base, [], [], [], flags);
  }
}
