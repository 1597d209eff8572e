/** Inputs on which a plan tells something else than a run does. */
module Misleading {
  import opened Text
  import opened Paths
  import opened Tasks
  import opened PlanWalk
  import opened WalkFacts
  import opened PartialEvaluation

  const BACKEND: string := "_rm_database_backend"

  function Declaring(when: seq<Cond>): Task { Task(None, when, map[], map[], SetFact(map[BACKEND := Bool(true)])) }

  function Acting(when: seq<Cond>): Task { Task(None, when, map[], map[], Module("m", Bool(true))) }

  lemma {:induction false} WalkTwo(c: Config, fuel: nat, a: Task, b: Task, base: Dir, inherited: seq<Cond>,
                                   via: seq<string>, flags: set<string>)
    requires WalkTask(c, fuel, a, base, inherited, via, flags).Ok?
    ensures var first := WalkTask(c, fuel, a, base, inherited, via, flags).value;
            Walk(c, fuel, [a, b], base, inherited, via, flags)
            == Onto(first.steps, WalkTask(c, fuel, b, base, inherited, via, first.flags))
  {
    var first := WalkTask(c, fuel, a, base, inherited, via, flags).value;
    assert [a, b][1..] == [b];
    WalkOne(c, fuel, b, base, inherited, via, first.flags);
  }

  lemma {:induction false} RunTwo(c: Config, e: Env, fuel: nat, a: Task, b: Task, base: Dir, guards: seq<Cond>,
                                  via: seq<string>, flags: set<string>)
    requires RunTask(c, e, fuel, a, base, guards, via, flags).Ok?
    ensures var first := RunTask(c, e, fuel, a, base, guards, via, flags).value;
            Run(c, e, fuel, [a, b], base, guards, via, flags)
            == Onto(first.steps, RunTask(c, e, fuel, b, base, guards, via, first.flags))
  {
    var first := RunTask(c, e, fuel, a, base, guards, via, flags).value;
    assert [a, b][1..] == [b];
    RunOne(c, e, fuel, b, base, guards, via, first.flags);
  }

  /** A hook that declares a flag under an open condition misleads the plan: it sets the flag
      and keeps the next step, where a run in which the condition fails does neither. */
  lemma {:induction false} OpenDeclarationMisleads(c: Config, e: Env)
    requires Other("x") !in e.open
    ensures var declare, act := Declaring([Other("x")]), Acting([Identity(Flag(BACKEND), false)]);
            var plan := Walk(c, 0, [declare, act], [], [], ["hook"], {});
            var run := Run(c, e, 0, [declare, act], [], [], ["hook"], {});
            && plan.Ok? && |plan.value.steps| == 1 && plan.value.steps[0].when == [] && run == Ok(Out([], {}))
            && !CleanTask(c, 0, declare, [], [], [], ["hook"], {})
  {
    var declare, act := Declaring([Other("x")]), Acting([Identity(Flag(BACKEND), false)]);
    var names := TrueNames(declare.action.facts);
    assert [] + declare.when == declare.when && [] + act.when == act.when;
    KeptOne(c, Other("x"), {});
    assert BACKEND in names && {} + names == names;
    KeptOne(c, Identity(Flag(BACKEND), false), names);
    WalkTwo(c, 0, declare, act, [], [], ["hook"], {});
    assert !True(c, e, ([] + declare.when)[0], {}) && !True(c, e, ([] + act.when)[0], {});
    assert RunTask(c, e, 0, declare, [], [], ["hook"], {}) == Ok(Out([], {}));
    assert RunTask(c, e, 0, act, [], [], ["hook"], {}) == Ok(Out([], {}));
    RunTwo(c, e, 0, declare, act, [], [], ["hook"], {});
    var nothing: seq<Step> := [];
    assert nothing + nothing == nothing;
  }

  /** A play variable that was decided before a hook changed it misleads the plan: `not v` was
      true when the play started, and is false when the step's turn comes. */
  lemma {:induction false} StaleVariableMisleads(c: Config, e: Env)
    requires c.playVars == map["v" := Known(Flag(BACKEND), false)]
    ensures var pair := [Declaring([]), Acting([PlayVar("v", true)])];
            var plan := Walk(c, 0, pair, [], [], ["hook"], {});
            && plan.Ok? && |plan.value.steps| == 1 && plan.value.steps[0].when == []
            && Run(c, e, 0, pair, [], [], ["hook"], {}) == Ok(Out([], {BACKEND}))
            && !Clean(c, 0, pair, [], [], [], ["hook"], {})
  {
    var declare, act := Declaring([]), Acting([PlayVar("v", true)]);
    var names := TrueNames(declare.action.facts);
    assert BACKEND in names && {} + names == names == {BACKEND};
    assert [] + act.when == act.when && [] + declare.when == [];
    KeptOne(c, act.when[0], {BACKEND});
    WalkTwo(c, 0, declare, act, [], [], ["hook"], {});
    assert Assigned(e, declare.action.facts, {}) == {BACKEND};
    assert !True(c, e, act.when[0], {BACKEND});
    RunTwo(c, e, 0, declare, act, [], [], ["hook"], {});
    hide Clean; hide Walk; hide Run;
    if Clean(c, 0, [declare, act], [], [], [], ["hook"], {}) {
      PlanIsSound(c, e, 0, [declare, act], [], [], [], ["hook"], {});
    }
  }

  const DENIED: Cond := Identity(Flag(BACKEND), true)

  function Denying(block: seq<Task>): Task { Task(None, [DENIED], map[], map[], Block(block, [], [])) }

  /** Declaring a flag and then acting, behind a guard that denies the flag: the plan keeps the
      second task, the run does not. */
  lemma {:induction false} DeniedPair(c: Config, e: Env, fuel: nat, base: Dir, via: seq<string>)
    requires via != []
    ensures var pair := [Declaring([]), Acting([])];
            var plan := Walk(c, fuel, pair, base, [], via, {});
            && plan.Ok? && |plan.value.steps| == 1 && plan.value.steps[0].when == []
            && Run(c, e, fuel, pair, base, [DENIED], via, {}) == Ok(Out([], {BACKEND}))
  {
    var declare, act := Declaring([]), Acting([]);
    var names := TrueNames(declare.action.facts);
    assert BACKEND in names && {} + names == names == {BACKEND};
    WalkTwo(c, fuel, declare, act, base, [], via, {});
    assert [DENIED] + [] == [DENIED];
    assert !True(c, e, [DENIED][0], {BACKEND}) && True(c, e, [DENIED][0], {});
    assert Assigned(e, declare.action.facts, {}) == {BACKEND};
    RunTwo(c, e, fuel, declare, act, base, [DENIED], via, {});
  }

  /** A plan with one step more than the run is not clean. */
  lemma {:induction false} MisleadingIsUnclean(c: Config, e: Env, fuel: nat, t: Task, base: Dir, via: seq<string>)
    requires var plan := WalkTask(c, fuel, t, base, [], via, {});
             plan.Ok? && |plan.value.steps| == 1 && plan.value.steps[0].when == []
    requires RunTask(c, e, fuel, t, base, [], via, {}) == Ok(Out([], {BACKEND}))
    ensures !CleanTask(c, fuel, t, base, [], [], via, {})
  {
    hide WalkTask; hide RunTask; hide CleanTask;
    if CleanTask(c, fuel, t, base, [], [], via, {}) {
      PlanIsSoundTask(c, e, fuel, t, base, [], [], via, {});
    }
  }

  /** A block whose own hook sets the flag its condition denies misleads the plan: the rest of
      the block stays in the plan, where the run skips it. */
  lemma {:induction false} ChangedGuardMisleads(c: Config, e: Env)
    ensures var t := Denying([Declaring([]), Acting([])]);
            var plan, run := WalkTask(c, 0, t, [], [], ["hook"], {}), RunTask(c, e, 0, t, [], [], ["hook"], {});
            && plan.Ok? && |plan.value.steps| == 1 && plan.value.steps[0].when == [] && run == Ok(Out([], {BACKEND}))
            && !CleanTask(c, 0, t, [], [], [], ["hook"], {})
  {
    var t := Denying([Declaring([]), Acting([])]);
    DeniedEnters(c, e);
    DeniedPair(c, e, 0, [], ["hook"]);
    MisleadingIsUnclean(c, e, 0, t, [], ["hook"]);
  }

  lemma DeniedEnters(c: Config, e: Env)
    ensures Kept(c, [] + [DENIED], {}) == Some([]) && [] + [DENIED] == [DENIED] && AllTrue(c, e, [DENIED], {})
  {
    assert [] + [DENIED] == [DENIED];
    KeptOne(c, DENIED, {});
  }

  /** The same when the block includes the hook file dynamically: the file's tasks inherit the
      block's condition, though not one of the include itself. So it is for every configuration
      that inlines the file. */
  lemma {:induction false} ChangedGuardMisleadsInside(c: Config, e: Env, path: string, file: Dir, relative: string)
    requires Classify(c, FqInclude, path, None, [], false) == Inlined(file, relative)
    requires Read(c, file) == [Declaring([]), Acting([])]
    ensures var t := Denying([Including(path)]);
            var plan, run := WalkTask(c, 1, t, [], [], [], {}), RunTask(c, e, 1, t, [], [], [], {});
            && plan.Ok? && |plan.value.steps| == 1 && plan.value.steps[0].when == [] && run == Ok(Out([], {BACKEND}))
            && !CleanTask(c, 1, t, [], [], [], [], {})
  {
    var t, hook := Denying([Including(path)]), Including(path);
    DeniedEnters(c, e);
    DeniedPair(c, e, 0, Parent(file), [relative]);
    HookIsRead(c, e, path, file, relative);
    hide Classify; hide Kept; hide AllTrue;
    WalkOne(c, 1, hook, [], [], [], {});
    RunOne(c, e, 1, hook, [], [DENIED], [], {});
    MisleadingIsUnclean(c, e, 1, t, [], []);
  }

  lemma {:induction false} HookIsRead(c: Config, e: Env, path: string, file: Dir, relative: string)
    requires Classify(c, FqInclude, path, None, [], false) == Inlined(file, relative)
    requires Read(c, file) == [Declaring([]), Acting([])] && AllTrue(c, e, [DENIED], {})
    ensures var pair, hook := [Declaring([]), Acting([])], Including(path);
            && WalkTask(c, 1, hook, [], [], [], {}) == Walk(c, 0, pair, Parent(file), [], [relative], {})
            && RunTask(c, e, 1, hook, [], [DENIED], [], {})
               == Run(c, e, 0, pair, Parent(file), [DENIED], [relative], {})
  {
    hide Classify; hide AllTrue; hide Walk; hide Run;
    NoVars([Declaring([]), Acting([])]);
    assert [] + [relative] == [relative] && [DENIED] + [] == [DENIED];
    var none: seq<Cond> := [];
    assert none + none == none && Kept(c, none, {}) == Some([]);
  }

  function Denied(t: Task): Task { t.(when := [DENIED]) }

  lemma {:induction false} FreePair(c: Config, e: Env, fuel: nat, base: Dir, via: seq<string>)
    requires via != []
    ensures var run := Run(c, e, fuel, [Declaring([]), Acting([])], base, [], via, {});
            run.Ok? && |run.value.steps| == 1 && run.value.flags == {BACKEND}
  {
    var declare, act := Declaring([]), Acting([]);
    var none: seq<Cond> := [];
    assert none + none == none;
    assert BACKEND in declare.action.facts && Assigned(e, declare.action.facts, {}) == {BACKEND};
    RunTwo(c, e, fuel, declare, act, base, [], via, {});
  }

  /** The condition of a hook's own include is tested once when the include is dynamic, and again for
      every task when it is a static import. The plan is the same for both, and goes astray on the
      import: where the hook sets the flag its condition denies, the run skips the rest. */
  lemma {:induction false} ImportGuardMisleads(c: Config, e: Env, path: string, file: Dir, relative: string)
    requires Classify(c, FqInclude, path, None, [], false) == Inlined(file, relative)
    requires Classify(c, FqImport, path, None, [], false) == Inlined(file, relative)
    requires Read(c, file) == [Declaring([]), Acting([])]
    ensures var dynamic, bare := Denied(Including(path)), Denied(Importing(path));
            var plan, run := WalkTask(c, 1, dynamic, [], [], [], {}), RunTask(c, e, 1, dynamic, [], [], [], {});
            && plan.Ok? && |plan.value.steps| == 1 && plan.value.steps[0].when == []
            && run.Ok? && |run.value.steps| == 1 && run.value.flags == {BACKEND}
            && WalkTask(c, 1, bare, [], [], [], {}) == plan
            && RunTask(c, e, 1, bare, [], [], [], {}) == Ok(Out([], {BACKEND}))
            && !CleanTask(c, 1, bare, [], [], [], [], {})
  {
    hide Classify; hide AllTrue; hide Walk; hide Run; hide CleanTask;
    DeniedEnters(c, e);
    DeniedPair(c, e, 0, Parent(file), [relative]);
    FreePair(c, e, 0, Parent(file), [relative]);
    NoVars([Declaring([]), Acting([])]);
    assert [] + [relative] == [relative] && [] + [DENIED] == [DENIED];
    MisleadingIsUnclean(c, e, 1, Denied(Importing(path)), [], []);
  }
}
