/** What a plan relies on is exactly what it needs: whenever a caller's check fails, some run
    goes astray from its plan. */
module Exactness {
  import opened Text
  import opened Paths
  import opened Tasks
  import opened PlanWalk
  import opened WalkFacts
  import opened PartialEvaluation

  // When a plan tells what every run does

  /** A block, or an include whose file the plan inlines. */
  predicate Compound(c: Config, t: Task, base: Dir, via: seq<string>) {
    || t.action.Block?
    || (Includes(t) &&
          var target := Classify(c, t.action.key, t.action.path, t.action.options, base, via != []);
          target.Phase? || target.Inlined?)
  }

  ghost predicate AgreeUpTo(c: Config, e: Env, fuel: nat, ts: seq<Task>, k: nat, base: Dir, guards: seq<Cond>,
                            inherited: seq<Cond>, via: seq<string>, flags: set<string>)
    requires k <= |ts|
  {
    Agree(e, Walk(c, fuel, ts[..k], base, inherited, via, flags), Run(c, e, fuel, ts[..k], base, guards, via, flags))
  }

  /** After every prefix of a list, plan and run agree whatever the open conditions turn out to
      be, and so it is inside every block and inlined file the plan enters; and the run enters
      none that the plan skips. */
  ghost predicate Faithful(c: Config, fuel: nat, ts: seq<Task>, base: Dir, guards: seq<Cond>, inherited: seq<Cond>,
                           via: seq<string>, flags: set<string>)
    decreases fuel, ts, 1
  {
    && (forall e: Env, k: nat | Opens(e, inherited) && k <= |ts| ::
          AgreeUpTo(c, e, fuel, ts, k, base, guards, inherited, via, flags))
    && FaithfulInside(c, fuel, ts, base, guards, inherited, via, flags)
  }

  ghost predicate FaithfulInside(c: Config, fuel: nat, ts: seq<Task>, base: Dir, guards: seq<Cond>,
                                 inherited: seq<Cond>, via: seq<string>, flags: set<string>)
    decreases fuel, ts, 0
  {
    ts == [] ||
    (FaithfulTask(c, fuel, ts[0], base, guards, inherited, via, flags)
     && var first := WalkTask(c, fuel, ts[0], base, inherited, via, flags);
        first.Ok? ==> FaithfulInside(c, fuel, ts[1..], base, guards, inherited, via, first.value.flags))
  }

  ghost predicate FaithfulTask(c: Config, fuel: nat, t: Task, base: Dir, guards: seq<Cond>, inherited: seq<Cond>,
                               via: seq<string>, flags: set<string>)
    decreases fuel, t, 2
  {
    match Kept(c, inherited + t.when, flags)
    case None => Compound(c, t, base, via) ==> Fallen(c, guards + t.when, flags)
    case Some(conds) =>
      if t.action.Block? then Faithful(c, fuel, t.action.block, base, guards + t.when, conds, via, flags)
      else if Includes(t) && fuel > 0 then
        match Classify(c, t.action.key, t.action.path, t.action.options, base, via != [])
        case Phase(file) => Faithful(c, fuel - 1, Read(c, file), Parent(file), guards + t.when, conds, via, flags)
        case Inlined(file, relative) =>
          Faithful(c, fuel - 1, WithVars(Read(c, file), t.vars), Parent(file), Inside(c, t, guards, flags), conds,
                   via + [relative], flags)
        case _ => true
      else true
  }

  // Prefixes

  lemma {:induction false} PrefixStep(c: Config, e: Env, fuel: nat, ts: seq<Task>, k: nat, base: Dir, guards: seq<Cond>,
                                      inherited: seq<Cond>, via: seq<string>, flags: set<string>)
    requires k < |ts| && WalkTask(c, fuel, ts[0], base, inherited, via, flags).Ok?
    requires Agree(e, WalkTask(c, fuel, ts[0], base, inherited, via, flags),
                   RunTask(c, e, fuel, ts[0], base, guards, via, flags))
    ensures var after := WalkTask(c, fuel, ts[0], base, inherited, via, flags).value.flags;
            AgreeUpTo(c, e, fuel, ts, k + 1, base, guards, inherited, via, flags)
            <==> AgreeUpTo(c, e, fuel, ts[1..], k, base, guards, inherited, via, after)
  {
    hide WalkTask; hide RunTask; hide Taken;
    var first := WalkTask(c, fuel, ts[0], base, inherited, via, flags).value;
    assert ts[..k + 1][0] == ts[0] && ts[..k + 1][1..] == ts[1..][..k];
    var plan := Walk(c, fuel, ts[1..][..k], base, inherited, via, first.flags);
    var run := Run(c, e, fuel, ts[1..][..k], base, guards, via, first.flags);
    if plan.Ok? {
      TakenAppend(e, first.steps, plan.value.steps);
      if run.Ok? { SameRest(Taken(e, first.steps), Taken(e, plan.value.steps), run.value.steps); }
    }
  }

  lemma SameRest(xs: seq<Step>, ys: seq<Step>, zs: seq<Step>)
    ensures xs + ys == xs + zs <==> ys == zs
  {
    if xs + ys == xs + zs {
      assert ys == (xs + ys)[|xs|..] && zs == (xs + zs)[|xs|..];
    }
  }

  // What is clean is faithful

  lemma {:induction false} CleanAgreesUpTo(c: Config, e: Env, fuel: nat, ts: seq<Task>, k: nat, base: Dir,
                                           guards: seq<Cond>, inherited: seq<Cond>, via: seq<string>,
                                           flags: set<string>)
    requires Covers(c, inherited, guards) && Opens(e, inherited) && k <= |ts|
    requires Walk(c, fuel, ts, base, inherited, via, flags).Ok?
    requires Clean(c, fuel, ts, base, guards, inherited, via, flags)
    ensures AgreeUpTo(c, e, fuel, ts, k, base, guards, inherited, via, flags)
    decreases ts
  {
    hide CleanTask; hide Covers; hide Opens; hide WalkTask; hide RunTask;
    if k > 0 {
      var first := WalkTask(c, fuel, ts[0], base, inherited, via, flags).value;
      PlanIsSoundTask(c, e, fuel, ts[0], base, guards, inherited, via, flags);
      CleanAgreesUpTo(c, e, fuel, ts[1..], k - 1, base, guards, inherited, via, first.flags);
      PrefixStep(c, e, fuel, ts, k - 1, base, guards, inherited, via, flags);
    } else {
      assert ts[..0] == [];
    }
  }

  lemma {:induction false} CleanIsFaithful(c: Config, fuel: nat, ts: seq<Task>, base: Dir, guards: seq<Cond>,
                                           inherited: seq<Cond>, via: seq<string>, flags: set<string>)
    requires Covers(c, inherited, guards) && Walk(c, fuel, ts, base, inherited, via, flags).Ok?
    requires Clean(c, fuel, ts, base, guards, inherited, via, flags)
    ensures Faithful(c, fuel, ts, base, guards, inherited, via, flags)
    decreases fuel, ts, 2
  {
    hide Clean; hide Walk; hide Covers; hide Opens; hide FaithfulInside; hide AgreeUpTo;
    forall e: Env, k: nat | Opens(e, inherited) && k <= |ts|
      ensures AgreeUpTo(c, e, fuel, ts, k, base, guards, inherited, via, flags)
    {
      CleanAgreesUpTo(c, e, fuel, ts, k, base, guards, inherited, via, flags);
    }
    CleanIsFaithfulInside(c, fuel, ts, base, guards, inherited, via, flags);
  }

  lemma {:induction false} CleanIsFaithfulInside(c: Config, fuel: nat, ts: seq<Task>, base: Dir, guards: seq<Cond>,
                                                 inherited: seq<Cond>, via: seq<string>, flags: set<string>)
    requires Covers(c, inherited, guards) && Walk(c, fuel, ts, base, inherited, via, flags).Ok?
    requires Clean(c, fuel, ts, base, guards, inherited, via, flags)
    ensures FaithfulInside(c, fuel, ts, base, guards, inherited, via, flags)
    decreases fuel, ts, 1
  {
    hide CleanTask; hide Covers; hide FaithfulTask; hide WalkTask;
    if ts != [] {
      var first := WalkTask(c, fuel, ts[0], base, inherited, via, flags).value;
      CleanIsFaithfulTask(c, fuel, ts[0], base, guards, inherited, via, flags);
      CleanIsFaithfulInside(c, fuel, ts[1..], base, guards, inherited, via, first.flags);
    }
  }

  lemma {:induction false} CleanIsFaithfulTask(c: Config, fuel: nat, t: Task, base: Dir, guards: seq<Cond>,
                                               inherited: seq<Cond>, via: seq<string>, flags: set<string>)
    requires Covers(c, inherited, guards) && WalkTask(c, fuel, t, base, inherited, via, flags).Ok?
    requires CleanTask(c, fuel, t, base, guards, inherited, via, flags)
    ensures FaithfulTask(c, fuel, t, base, guards, inherited, via, flags)
    decreases fuel, t, 3
  {
    hide Classify; hide Kept; hide Fallen; hide Covers; hide Clean; hide Walk; hide Faithful;
    var kept := Kept(c, inherited + t.when, flags);
    if kept.Some? {
      CoversInside(c, t, inherited, guards, flags);
      if t.action.Block? {
        CleanIsFaithful(c, fuel, t.action.block, base, guards + t.when, kept.value, via, flags);
      } else if Includes(t) && fuel > 0 {
        var target := Classify(c, t.action.key, t.action.path, t.action.options, base, via != []);
        assert CleanInclude(c, fuel, t, target, guards, kept.value, via, flags);
        match target {
          case Phase(file) =>
            CleanIsFaithful(c, fuel - 1, Read(c, file), Parent(file), guards + t.when, kept.value, via, flags);
          case Inlined(file, relative) =>
            CleanIsFaithful(c, fuel - 1, WithVars(Read(c, file), t.vars), Parent(file), Inside(c, t, guards, flags),
                            kept.value, via + [relative], flags);
          case _ =>
        }
      }
    }
  }

  // What is faithful is clean

  /** Plan and run of one task agree whatever the open conditions turn out to be. */
  ghost predicate TaskAgrees(c: Config, fuel: nat, t: Task, base: Dir, guards: seq<Cond>, inherited: seq<Cond>,
                             via: seq<string>, flags: set<string>)
  {
    forall e: Env | Opens(e, inherited) ::
      Agree(e, WalkTask(c, fuel, t, base, inherited, via, flags), RunTask(c, e, fuel, t, base, guards, via, flags))
  }

  /** Where everything open holds, a task runs exactly when none of its conditions has fallen. */
  ghost function Everything(facts: iset<Value>): Env {
    Env((iset x: Cond | x.Identity? || x.PlayVar? || x.Other?), facts)
  }

  lemma {:induction false} EverythingHolds(c: Config, facts: iset<Value>, conds: seq<Cond>, flags: set<string>)
    ensures Opens(Everything(facts), conds)
    ensures AllTrue(c, Everything(facts), conds, flags) <==> !Fallen(c, conds, flags)
  {
    hide AllTrue; hide Fallen;
    AllTrueParts(c, Everything(facts), conds, flags);
  }

  /** Facts that show that a fact task changes a flag. */
  ghost function Against(facts: Keywords, flags: set<string>, n: string): iset<Value>
    requires n in facts
  {
    if n in flags then iset{} else iset{facts[n]}
  }

  lemma AgainstShows(facts: Keywords, flags: set<string>, n: string)
    requires n in facts && n in FLAGS && facts[n] != Bool(n in flags)
    ensures (n in Assigned(Everything(Against(facts, flags, n)), facts, flags)) != (n in flags)
  {
  }

  lemma {:induction false} TaskAgreesAt(c: Config, e: Env, fuel: nat, t: Task, base: Dir, guards: seq<Cond>,
                                        inherited: seq<Cond>, via: seq<string>, flags: set<string>)
    requires TaskAgrees(c, fuel, t, base, guards, inherited, via, flags) && Opens(e, inherited)
    ensures Agree(e, WalkTask(c, fuel, t, base, inherited, via, flags),
                  RunTask(c, e, fuel, t, base, guards, via, flags))
  {
    hide WalkTask; hide RunTask; hide Agree; hide Opens;
  }

  lemma {:induction false} SkippedIsClean(c: Config, fuel: nat, t: Task, base: Dir, guards: seq<Cond>,
                                          inherited: seq<Cond>, via: seq<string>, flags: set<string>)
    requires Kept(c, inherited + t.when, flags).None?
    requires TaskAgrees(c, fuel, t, base, guards, inherited, via, flags)
    requires FaithfulTask(c, fuel, t, base, guards, inherited, via, flags)
    ensures CleanTask(c, fuel, t, base, guards, inherited, via, flags)
  {
    hide TaskAgrees; hide Kept; hide Fallen; hide AllTrue; hide Classify; hide Opens; hide Walk; hide Run;
    hide Assigned;
    if !Fallen(c, guards + t.when, flags) {
      var e := Everything(iset{});
      EverythingHolds(c, iset{}, inherited, flags);
      EverythingHolds(c, iset{}, guards + t.when, flags);
      TaskAgreesAt(c, e, fuel, t, base, guards, inherited, via, flags);
      assert Declares(t, via);
      if n :| n in t.action.facts && n in FLAGS && t.action.facts[n] != Bool(n in flags) {
        var facts := Against(t.action.facts, flags, n);
        AgainstShows(t.action.facts, flags, n);
        EverythingHolds(c, facts, inherited, flags);
        EverythingHolds(c, facts, guards + t.when, flags);
        TaskAgreesAt(c, Everything(facts), fuel, t, base, guards, inherited, via, flags);
      }
    }
  }

  /** A task whose condition stays open adds no flag where plan and run agree. */
  lemma {:induction false} OpenIsQuiet(c: Config, fuel: nat, t: Task, base: Dir, guards: seq<Cond>,
                                       inherited: seq<Cond>, via: seq<string>, flags: set<string>)
    requires Covers(c, inherited, guards) && Kept(c, inherited + t.when, flags).Some?
    requires WalkTask(c, fuel, t, base, inherited, via, flags).Ok?
    requires TaskAgrees(c, fuel, t, base, guards, inherited, via, flags)
    requires inherited != [] ==> WalkTask(c, fuel, t, base, inherited, via, flags).value.flags == flags
    ensures Kept(c, inherited + t.when, flags).value != [] ==>
              WalkTask(c, fuel, t, base, inherited, via, flags).value.flags == flags
  {
    hide TaskAgrees; hide Kept; hide AllTrue; hide Fallen; hide Covers; hide WalkTask; hide RunTask; hide Guarded;
    var conds := Kept(c, inherited + t.when, flags).value;
    if inherited == [] && conds != [] {
      var e := Env(iset{}, iset{});
      assert conds[0] !in e.open;
      Verdict(c, e, guards, inherited, t.when, flags);
      RunsNothing(c, e, fuel, t, base, guards, via, flags);
      TaskAgreesAt(c, e, fuel, t, base, guards, inherited, via, flags);
    }
  }

  lemma {:induction false} KeptFactsAreClean(c: Config, fuel: nat, t: Task, base: Dir, guards: seq<Cond>,
                                             inherited: seq<Cond>, via: seq<string>, flags: set<string>)
    requires t.action.SetFact? && Covers(c, inherited, guards) && Kept(c, inherited + t.when, flags).Some?
    requires TaskAgrees(c, fuel, t, base, guards, inherited, via, flags)
    requires inherited != [] ==> WalkTask(c, fuel, t, base, inherited, via, flags).value.flags == flags
    ensures CleanFacts(t, Fallen(c, guards + t.when, flags), Kept(c, inherited + t.when, flags).value, via, flags)
  {
    hide TaskAgrees; hide Kept; hide Fallen; hide AllTrue; hide Covers; hide Opens; hide Assigned; hide Guarded;
    var facts, fallen := t.action.facts, Fallen(c, guards + t.when, flags);
    var e := Everything(iset{});
    KeptEverything(c, iset{}, fuel, t, base, guards, inherited, via, flags);
    OpenIsQuiet(c, fuel, t, base, guards, inherited, via, flags);
    if Declares(t, via) {
      var after := flags + TrueNames(facts);
      if after == flags { assert TrueNames(facts) <= flags; }
      forall n | !fallen && n in facts ensures facts[n].Bool? && (facts[n].b || n !in flags) {
        if !(facts[n].Bool? && (facts[n].b || n !in flags)) {
          AgainstShows(facts, flags, n);
          KeptEverything(c, Against(facts, flags, n), fuel, t, base, guards, inherited, via, flags);
        }
      }
    } else {
      TakenOne(e);
      assert !fallen;
      forall n | n in facts && n in FLAGS ensures facts[n] == Bool(n in flags) {
        if facts[n] != Bool(n in flags) {
          AgainstShows(facts, flags, n);
          KeptEverything(c, Against(facts, flags, n), fuel, t, base, guards, inherited, via, flags);
        }
      }
    }
  }

  /** A kept task where everything open holds. */
  lemma {:induction false} KeptEverything(c: Config, facts: iset<Value>, fuel: nat, t: Task, base: Dir,
                                          guards: seq<Cond>, inherited: seq<Cond>, via: seq<string>, flags: set<string>)
    requires Kept(c, inherited + t.when, flags).Some?
    requires TaskAgrees(c, fuel, t, base, guards, inherited, via, flags)
    ensures var e := Everything(facts);
            && Opens(e, Kept(c, inherited + t.when, flags).value)
            && Agree(e, WalkTask(c, fuel, t, base, inherited, via, flags),
                     RunTask(c, e, fuel, t, base, guards, via, flags))
            && (AllTrue(c, e, guards + t.when, flags) <==> !Fallen(c, guards + t.when, flags))
            && Taken(e, []) == []
  {
    hide TaskAgrees; hide Kept; hide Fallen; hide AllTrue; hide WalkTask; hide RunTask; hide Agree;
    EverythingHolds(c, facts, inherited, flags);
    EverythingHolds(c, facts, Kept(c, inherited + t.when, flags).value, flags);
    EverythingHolds(c, facts, guards + t.when, flags);
    TaskAgreesAt(c, Everything(facts), fuel, t, base, guards, inherited, via, flags);
  }

  /** A step the plan keeps is clean when none of its conditions has fallen. */
  lemma {:induction false} KeptStepIsClean(c: Config, fuel: nat, t: Task, base: Dir, guards: seq<Cond>,
                                           inherited: seq<Cond>, via: seq<string>, flags: set<string>)
    requires !Compound(c, t, base, via) && !t.action.SetFact? && Kept(c, inherited + t.when, flags).Some?
    requires WalkTask(c, fuel, t, base, inherited, via, flags).Ok?
    requires TaskAgrees(c, fuel, t, base, guards, inherited, via, flags)
    ensures CleanTask(c, fuel, t, base, guards, inherited, via, flags)
  {
    hide TaskAgrees; hide Kept; hide Fallen; hide AllTrue; hide Classify; hide Opens; hide Clean; hide Walk; hide Run;
    KeptEverything(c, iset{}, fuel, t, base, guards, inherited, via, flags);
    TakenOne(Everything(iset{}));
  }

  lemma {:induction false} FaithfulIsClean(c: Config, fuel: nat, ts: seq<Task>, base: Dir, guards: seq<Cond>,
                                           inherited: seq<Cond>, via: seq<string>, flags: set<string>)
    requires Covers(c, inherited, guards) && Walk(c, fuel, ts, base, inherited, via, flags).Ok?
    requires inherited != [] ==> Walk(c, fuel, ts, base, inherited, via, flags).value.flags == flags
    requires Faithful(c, fuel, ts, base, guards, inherited, via, flags)
    ensures Clean(c, fuel, ts, base, guards, inherited, via, flags)
    decreases fuel, ts, 0
  {
    hide Covers; hide FaithfulTask; hide CleanTask; hide WalkTask; hide AgreeUpTo; hide Opens;
    if ts != [] {
      var first := WalkTask(c, fuel, ts[0], base, inherited, via, flags).value;
      FaithfulHead(c, fuel, ts, base, guards, inherited, via, flags);
      FlagsGrowTask(c, fuel, ts[0], base, inherited, via, flags);
      FlagsGrow(c, fuel, ts[1..], base, inherited, via, first.flags);
      FaithfulIsCleanTask(c, fuel, ts[0], base, guards, inherited, via, flags);
      FaithfulTail(c, fuel, ts, base, guards, inherited, via, flags);
      FaithfulIsClean(c, fuel, ts[1..], base, guards, inherited, via, first.flags);
    }
  }

  lemma {:induction false} FaithfulHead(c: Config, fuel: nat, ts: seq<Task>, base: Dir, guards: seq<Cond>,
                                        inherited: seq<Cond>, via: seq<string>, flags: set<string>)
    requires ts != [] && Faithful(c, fuel, ts, base, guards, inherited, via, flags)
    ensures TaskAgrees(c, fuel, ts[0], base, guards, inherited, via, flags)
  {
    hide WalkTask; hide RunTask; hide Walk; hide Run; hide FaithfulInside; hide Opens; hide Agree;
    assert ts[..1] == [ts[0]];
    WalkOne(c, fuel, ts[0], base, inherited, via, flags);
    forall e: Env | Opens(e, inherited)
      ensures Agree(e, WalkTask(c, fuel, ts[0], base, inherited, via, flags),
                    RunTask(c, e, fuel, ts[0], base, guards, via, flags))
    {
      RunOne(c, e, fuel, ts[0], base, guards, via, flags);
      assert AgreeUpTo(c, e, fuel, ts, 1, base, guards, inherited, via, flags);
    }
  }

  lemma {:induction false} FaithfulTail(c: Config, fuel: nat, ts: seq<Task>, base: Dir, guards: seq<Cond>,
                                        inherited: seq<Cond>, via: seq<string>, flags: set<string>)
    requires ts != [] && WalkTask(c, fuel, ts[0], base, inherited, via, flags).Ok?
    requires Faithful(c, fuel, ts, base, guards, inherited, via, flags)
    requires TaskAgrees(c, fuel, ts[0], base, guards, inherited, via, flags)
    ensures var after := WalkTask(c, fuel, ts[0], base, inherited, via, flags).value.flags;
            Faithful(c, fuel, ts[1..], base, guards, inherited, via, after)
  {
    hide WalkTask; hide RunTask; hide Walk; hide Run; hide FaithfulTask; hide Opens; hide Agree; hide AgreeUpTo;
    hide TaskAgrees;
    var after := WalkTask(c, fuel, ts[0], base, inherited, via, flags).value.flags;
    forall e: Env, k: nat | Opens(e, inherited) && k <= |ts[1..]|
      ensures AgreeUpTo(c, e, fuel, ts[1..], k, base, guards, inherited, via, after)
    {
      TaskAgreesAt(c, e, fuel, ts[0], base, guards, inherited, via, flags);
      PrefixStep(c, e, fuel, ts, k, base, guards, inherited, via, flags);
    }
  }

  lemma {:induction false} FaithfulIsCleanTask(c: Config, fuel: nat, t: Task, base: Dir, guards: seq<Cond>,
                                               inherited: seq<Cond>, via: seq<string>, flags: set<string>)
    requires Covers(c, inherited, guards) && WalkTask(c, fuel, t, base, inherited, via, flags).Ok?
    requires inherited != [] ==> WalkTask(c, fuel, t, base, inherited, via, flags).value.flags == flags
    requires TaskAgrees(c, fuel, t, base, guards, inherited, via, flags)
    requires FaithfulTask(c, fuel, t, base, guards, inherited, via, flags)
    ensures CleanTask(c, fuel, t, base, guards, inherited, via, flags)
    decreases fuel, t, 1
  {
    hide TaskAgrees; hide Kept; hide Fallen; hide Covers; hide Classify; hide Faithful; hide Clean; hide Walk;
    var kept := Kept(c, inherited + t.when, flags);
    if kept.None? {
      SkippedIsClean(c, fuel, t, base, guards, inherited, via, flags);
    } else if t.action.SetFact? {
      KeptFactsAreClean(c, fuel, t, base, guards, inherited, via, flags);
    } else if !Compound(c, t, base, via) {
      KeptStepIsClean(c, fuel, t, base, guards, inherited, via, flags);
    } else {
      CoversInside(c, t, inherited, guards, flags);
      OpenIsQuiet(c, fuel, t, base, guards, inherited, via, flags);
      if t.action.Block? {
        FaithfulIsClean(c, fuel, t.action.block, base, guards + t.when, kept.value, via, flags);
      } else {
        match Classify(c, t.action.key, t.action.path, t.action.options, base, via != []) {
          case Phase(file) =>
            FaithfulIsClean(c, fuel - 1, Read(c, file), Parent(file), guards + t.when, kept.value, via, flags);
          case Inlined(file, relative) =>
            FaithfulIsClean(c, fuel - 1, WithVars(Read(c, file), t.vars), Parent(file), Inside(c, t, guards, flags),
                            kept.value, via + [relative], flags);
        }
      }
    }
  }

  /** For a play section with a plan, what a caller checks along the walk holds exactly when
      plan and run agree after every prefix, here and inside everything the plan enters,
      whatever the open conditions turn out to be. */
  lemma {:induction false} CleanIsExact(c: Config, fuel: nat, ts: seq<Task>, base: Dir, via: seq<string>,
                                        flags: set<string>)
    requires Walk(c, fuel, ts, base, [], via, flags).Ok?
    ensures Clean(c, fuel, ts, base, [], [], via, flags) <==> Faithful(c, fuel, ts, base, [], [], via, flags)
  {
    hide Clean; hide Faithful; hide Walk;
    if Clean(c, fuel, ts, base, [], [], via, flags) {
      CleanIsFaithful(c, fuel, ts, base, [], [], via, flags);
    }
    if Faithful(c, fuel, ts, base, [], [], via, flags) {
      FaithfulIsClean(c, fuel, ts, base, [], [], via, flags);
    }
  }

  // One step, whatever flags the host that runs it has

  /** A task that is one step of its own. */
  predicate IsStep(c: Config, t: Task, base: Dir, via: seq<string>) {
    && !t.action.Block? && !t.action.SetFact?
    && (Includes(t) ==>
          var target := Classify(c, t.action.key, t.action.path, t.action.options, base, via != []);
          target.TemplatedPath? || target.Stays?)
  }

  function ArgumentsOf(c: Config, t: Task, base: Dir, via: seq<string>): Arguments
    requires IsStep(c, t, base, via)
  {
    if Includes(t) then
      match Classify(c, t.action.key, t.action.path, t.action.options, base, via != [])
      case TemplatedPath(text) => Path(text)
      case Stays(file, relative) => Stand(c, file, relative)
    else OwnArguments(t.action)
  }

  function ModuleOf(t: Task): string { if Includes(t) then "include_tasks" else OwnModule(t.action) }

  lemma StepWalks(c: Config, fuel: nat, t: Task, base: Dir, inherited: seq<Cond>, via: seq<string>, flags: set<string>)
    requires IsStep(c, t, base, via)
    ensures WalkTask(c, fuel, t, base, inherited, via, flags)
         == match Kept(c, inherited + t.when, flags)
            case None => Ok(Out([], flags))
            case Some(conds) =>
              Ok(Out([Leaf(t, ModuleOf(t), ArgumentsOf(c, t, base, via), flags, conds, via)], flags))
  {
    hide Kept; hide Classify; hide Leaf;
  }

  lemma StepRuns(c: Config, e: Env, fuel: nat, t: Task, base: Dir, guards: seq<Cond>, via: seq<string>,
                 flags: set<string>)
    requires IsStep(c, t, base, via)
    ensures RunTask(c, e, fuel, t, base, guards, via, flags)
         == if AllTrue(c, e, guards + t.when, flags)
            then Ok(Out([Leaf(t, ModuleOf(t), ArgumentsOf(c, t, base, via), flags, [], via)], flags))
            else Ok(Out([], flags))
  {
    hide AllTrue; hide Classify; hide Leaf;
  }

  /** A step planned under some flags and run under others is planned rightly exactly when the
      plan keeps it unless one of its guards or conditions has fallen where it runs, and, if it
      is kept, the two sets agree on the flags its texts mention. */
  lemma {:induction false} StepIsExact(c: Config, fuel: nat, t: Task, base: Dir, guards: seq<Cond>,
                                       inherited: seq<Cond>, via: seq<string>, flags: set<string>, actual: set<string>)
    requires Covers(c, inherited, guards) && IsStep(c, t, base, via)
    ensures var named := Named(ArgumentsOf(c, t, base, via), t.vars, t.control);
            var kept := Kept(c, inherited + t.when, flags);
            (forall e: Env | Opens(e, inherited) ::
               SameSteps(c, e, fuel, t, base, guards, inherited, via, flags, actual))
            <==> (kept.None? <==> Fallen(c, guards + t.when, actual))
                 && (kept.Some? ==> flags * named == actual * named)
  {
    hide Kept; hide Fallen; hide Covers; hide AllTrue; hide Classify; hide Opens; hide Named; hide Guarded;
    hide WalkTask; hide RunTask; hide IsStep; hide ArgumentsOf; hide ModuleOf;
    var named := Named(ArgumentsOf(c, t, base, via), t.vars, t.control);
    var kept := Kept(c, inherited + t.when, flags);
    var right := (kept.None? <==> Fallen(c, guards + t.when, actual))
        && (kept.Some? ==> flags * named == actual * named);
    StepWalks(c, fuel, t, base, inherited, via, flags);
    forall e: Env | Opens(e, inherited)
      ensures right ==> SameSteps(c, e, fuel, t, base, guards, inherited, via, flags, actual)
    {
      StepRuns(c, e, fuel, t, base, guards, via, actual);
      StepVerdict(c, e, guards, inherited, t.when, flags, actual);
      TakenOne(e);
    }
    var all := Everything(iset{});
    EverythingHolds(c, iset{}, inherited, actual);
    EverythingHolds(c, iset{}, guards + t.when, actual);
    EverythingHolds(c, iset{}, if kept.Some? then kept.value else [], actual);
    StepRuns(c, all, fuel, t, base, guards, via, actual);
    TakenOne(all);
    if SameSteps(c, all, fuel, t, base, guards, inherited, via, flags, actual) {
      assert right;
    }
  }

  /** The steps of a task's plan that are taken are the ones its run executes. */
  ghost predicate SameSteps(c: Config, e: Env, fuel: nat, t: Task, base: Dir, guards: seq<Cond>, inherited: seq<Cond>,
                            via: seq<string>, flags: set<string>, actual: set<string>)
  {
    var plan := WalkTask(c, fuel, t, base, inherited, via, flags);
    var run := RunTask(c, e, fuel, t, base, guards, via, actual);
    plan.Ok? && run.Ok? && Taken(e, plan.value.steps) == run.value.steps
  }

  lemma {:induction false} StepVerdict(c: Config, e: Env, guards: seq<Cond>, inherited: seq<Cond>, when: seq<Cond>,
                                       flags: set<string>, actual: set<string>)
    requires Covers(c, inherited, guards) && Opens(e, inherited)
    ensures AllTrue(c, e, guards + when, actual) <==> !Fallen(c, guards + when, actual) && Guarded(c, e, when)
    ensures var kept := Kept(c, inherited + when, flags);
            kept.Some? ==> (Opens(e, kept.value) <==> Guarded(c, e, when))
  {
    Verdict(c, e, guards, inherited, when, flags);
    Verdict(c, e, guards, inherited, when, actual);
  }
}
