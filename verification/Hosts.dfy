/** A list of tasks planned under the flags a plan carries and run under those of a host: when
    the plan tells what the host does, and that nothing less will do. */
module Hosts {
  import opened Text
  import opened Paths
  import opened Tasks
  import opened PlanWalk
  import opened WalkFacts
  import opened PartialEvaluation
  import opened Exactness

  // The plan where it is, and the host where everything open holds

  /** What the plan has for a list: its walk, or nothing where the plan has skipped the block or
      file that holds it. */
  function Planned(c: Config, fuel: nat, ts: seq<Task>, base: Dir, inherited: seq<Cond>, via: seq<string>, here: bool,
                   flags: set<string>): Result<Out>
  {
    if here then Walk(c, fuel, ts, base, inherited, via, flags) else Ok(Out([], flags))
  }

  function PlannedTask(c: Config, fuel: nat, t: Task, base: Dir, inherited: seq<Cond>, via: seq<string>, here: bool,
                       flags: set<string>): Result<Out>
  {
    if here then WalkTask(c, fuel, t, base, inherited, via, flags) else Ok(Out([], flags))
  }

  ghost function Hosted(c: Config, fuel: nat, ts: seq<Task>, base: Dir, guards: seq<Cond>, via: seq<string>,
                        local: set<string>): Result<Out>
  {
    Run(c, Everything(iset{}), fuel, ts, base, guards, via, local)
  }

  ghost function HostedTask(c: Config, fuel: nat, t: Task, base: Dir, guards: seq<Cond>, via: seq<string>,
                            local: set<string>): Result<Out>
  {
    RunTask(c, Everything(iset{}), fuel, t, base, guards, via, local)
  }

  // What a caller checks

  function OpenOf(c: Config, conds: seq<Cond>): seq<Cond> {
    if conds == [] then []
    else (if Decide(c, conds[0], {}).None? then [conds[0]] else []) + OpenOf(c, conds[1..])
  }

  /** A condition that stays open, and is not one of those that hold wherever this is reached. */
  predicate Gated(c: Config, when: seq<Cond>, inherited: seq<Cond>) {
    exists k :: 0 <= k < |when| && Decide(c, when[k], {}).None? && when[k] !in inherited
  }

  /** A step is kept unless one of its conditions has fallen on the host, and then read alike. */
  predicate StepRight(kept: bool, fallen: bool, named: set<string>, flags: set<string>, local: set<string>) {
    (kept <==> !fallen) && (kept ==> flags * named == local * named)
  }

  /** Facts that leave the host the same flags whatever is open, all of them carried by the plan. */
  predicate HostFacts(facts: Keywords, gated: bool, local: set<string>, carried: set<string>) {
    && (gated ==> Unchanging(facts, local))
    && forall n :: n in facts && n in FLAGS ==> facts[n].Bool? && (facts[n].b ==> n in carried)
  }

  ghost predicate CleanAt(c: Config, fuel: nat, ts: seq<Task>, base: Dir, guards: seq<Cond>, inherited: seq<Cond>,
                          via: seq<string>, here: bool, flags: set<string>, local: set<string>)
    decreases fuel, ts, 0
  {
    ts == [] ||
    (CleanAtTask(c, fuel, ts[0], base, guards, inherited, via, here, flags, local)
     && var plan := PlannedTask(c, fuel, ts[0], base, inherited, via, here, flags);
        var host := HostedTask(c, fuel, ts[0], base, guards, via, local);
        plan.Ok? && host.Ok? ==>
          CleanAt(c, fuel, ts[1..], base, guards, inherited, via, here, plan.value.flags, host.value.flags))
  }

  /** A step is planned rightly. A fact task leaves the host the same flags whatever is open. A
      block or file that the plan or the host enters is clean inside; and if it stands behind
      a condition that stays open, it leaves the host the flags it had. */
  ghost predicate CleanAtTask(c: Config, fuel: nat, t: Task, base: Dir, guards: seq<Cond>, inherited: seq<Cond>,
                              via: seq<string>, here: bool, flags: set<string>, local: set<string>)
    decreases fuel, t, 2
  {
    var fallen, gated := Fallen(c, guards + t.when, local), Gated(c, t.when, inherited);
    var kept := here && Kept(c, inherited + t.when, flags).Some?;
    var conds := inherited + OpenOf(c, t.when);
    if t.action.Block? then
      && (kept || !fallen ==> CleanAt(c, fuel, t.action.block, base, guards + t.when, conds, via, kept, flags, local))
      && (gated ==> KeepsFlags(HostedTask(c, fuel, t, base, guards, via, local), local))
    else if t.action.SetFact? then
      && (Declares(t, via) || StepRight(kept, fallen, NamedIn(t, OwnArguments(t.action)), flags, local))
      && (fallen || HostFacts(t.action.facts, gated, local, if kept then AfterFacts(t, via, flags) else flags))
    else if Includes(t) then
      CleanAtInclude(c, fuel, t, Classify(c, t.action.key, t.action.path, t.action.options, base, via != []), guards,
                     conds, via, kept, flags, local)
      && (gated ==> KeepsFlags(HostedTask(c, fuel, t, base, guards, via, local), local))
    else StepRight(kept, fallen, NamedIn(t, OwnArguments(t.action)), flags, local)
  }

  ghost predicate CleanAtInclude(c: Config, fuel: nat, t: Task, target: Target, guards: seq<Cond>, conds: seq<Cond>,
                                 via: seq<string>, kept: bool, flags: set<string>, local: set<string>)
    decreases fuel, t, 1
  {
    var fallen := Fallen(c, guards + t.when, local);
    match target
    case TemplatedPath(text) => StepRight(kept, fallen, NamedIn(t, Path(text)), flags, local)
    case Stays(file, relative) => StepRight(kept, fallen, NamedIn(t, Stand(c, file, relative)), flags, local)
    case Phase(file) =>
      kept || !fallen ==>
        if fuel == 0 then kept
        else CleanAt(c, fuel - 1, Read(c, file), Parent(file), guards + t.when, conds, via, kept, flags, local)
    case Inlined(file, relative) =>
      kept || !fallen ==>
        if fuel == 0 then kept
        else CleanAt(c, fuel - 1, WithVars(Read(c, file), t.vars), Parent(file), Inside(c, t, guards, local), conds,
                     via + [relative], kept, flags, local)
    case Unreadable => kept || fallen
  }

  predicate KeepsFlags(host: Result<Out>, local: set<string>) { host.Ok? ==> host.value.flags == local }

  function NamedIn(t: Task, arguments: Arguments): set<string> { Named(arguments, t.vars, t.control) }

  function AfterFacts(t: Task, via: seq<string>, flags: set<string>): set<string>
    requires t.action.SetFact?
  {
    if Declares(t, via) then flags + TrueNames(t.action.facts) else flags
  }

  // What plan and host have to agree on

  /** The steps of the plan that are taken are the ones the run executes, and the run leaves the
      host the flags it has when everything open holds, all of them carried by the plan. */
  ghost predicate SameAt(e: Env, plan: Result<Out>, run: Result<Out>, host: Result<Out>) {
    plan.Ok? ==>
      && run.Ok? && host.Ok? && run.value.steps == Taken(e, plan.value.steps)
      && run.value.flags == host.value.flags <= plan.value.flags
  }

  ghost predicate SameAtTask(c: Config, e: Env, fuel: nat, t: Task, base: Dir, guards: seq<Cond>, inherited: seq<Cond>,
                             via: seq<string>, here: bool, flags: set<string>, local: set<string>)
  {
    SameAt(e, PlannedTask(c, fuel, t, base, inherited, via, here, flags),
           RunTask(c, e, fuel, t, base, guards, via, local), HostedTask(c, fuel, t, base, guards, via, local))
  }

  ghost predicate SameUpTo(c: Config, e: Env, fuel: nat, ts: seq<Task>, k: nat, base: Dir, guards: seq<Cond>,
                           inherited: seq<Cond>, via: seq<string>, here: bool, flags: set<string>, local: set<string>)
    requires k <= |ts|
  {
    SameAt(e, Planned(c, fuel, ts[..k], base, inherited, via, here, flags),
           Run(c, e, fuel, ts[..k], base, guards, via, local), Hosted(c, fuel, ts[..k], base, guards, via, local))
  }

  // Conditions

  lemma {:induction false} KeptIsOpen(c: Config, inherited: seq<Cond>, when: seq<Cond>, flags: set<string>)
    requires Undecided(c, inherited) && Kept(c, inherited + when, flags).Some?
    ensures Kept(c, inherited + when, flags).value == inherited + OpenOf(c, when)
  {
    KeptAfter(c, inherited, when, flags);
    KeptIsOpenOf(c, when, flags);
  }

  lemma {:induction false} KeptIsOpenOf(c: Config, when: seq<Cond>, flags: set<string>)
    requires Kept(c, when, flags).Some?
    ensures Kept(c, when, flags).value == OpenOf(c, when)
  {
    if when != [] {
      KeptIsOpenOf(c, when[1..], flags);
      assert Decide(c, when[0], {}).None? <==> Decide(c, when[0], flags).None?;
      assert [] + OpenOf(c, when[1..]) == OpenOf(c, when[1..]);
    }
  }

  lemma {:induction false} OpenOfHolds(c: Config, when: seq<Cond>)
    ensures Undecided(c, OpenOf(c, when))
    ensures forall x :: x in OpenOf(c, when) <==> x in when && Decide(c, x, {}).None?
  {
    if when != [] {
      OpenOfHolds(c, when[1..]);
      assert when == [when[0]] + when[1..];
    }
  }

  lemma {:induction false} OpensOpenOf(c: Config, e: Env, inherited: seq<Cond>, when: seq<Cond>)
    requires Opens(e, inherited)
    ensures Opens(e, inherited + OpenOf(c, when)) <==> Guarded(c, e, when)
  {
    OpenOfHolds(c, when);
    OpensBoth(e, inherited, OpenOf(c, when));
    if Guarded(c, e, when) {
      forall k | 0 <= k < |OpenOf(c, when)| ensures OpenOf(c, when)[k] in e.open {
        var x := OpenOf(c, when)[k];
        assert x in when && Decide(c, x, {}).None?;
      }
    }
    if Opens(e, OpenOf(c, when)) {
      forall k | 0 <= k < |when| && Decide(c, when[k], {}).None? ensures when[k] in e.open {
        assert when[k] in OpenOf(c, when);
      }
    }
  }

  lemma {:induction false} CoversOpen(c: Config, t: Task, inherited: seq<Cond>, guards: seq<Cond>)
    requires Covers(c, inherited, guards)
    ensures var conds := inherited + OpenOf(c, t.when);
            Covers(c, conds, guards + t.when) && Covers(c, conds, guards)
  {
    var open, both := OpenOf(c, t.when), guards + t.when;
    var conds := inherited + open;
    OpenOfHolds(c, t.when);
    assert forall k :: 0 <= k < |conds| ==> conds[k] == if k < |inherited| then inherited[k] else open[k - |inherited|];
    forall k | 0 <= k < |both| && Decide(c, both[k], {}).None? ensures both[k] in conds {
      if k < |guards| {
        assert guards[k] in inherited;
      } else {
        assert both[k] == t.when[k - |guards|] && both[k] in open;
      }
    }
    forall k | 0 <= k < |guards| && Decide(c, guards[k], {}).None? ensures guards[k] in conds {
      assert guards[k] in inherited;
    }
  }

  /** Whether a task runs on the host; where it is gated and the gate is closed, it does not. */
  lemma {:induction false} VerdictAt(c: Config, e: Env, guards: seq<Cond>, inherited: seq<Cond>, when: seq<Cond>,
                                     local: set<string>)
    requires Covers(c, inherited, guards) && Opens(e, inherited)
    ensures AllTrue(c, e, guards + when, local) <==> !Fallen(c, guards + when, local) && Guarded(c, e, when)
    ensures !Guarded(c, e, when) ==> Gated(c, when, inherited)
  {
    hide AllTrue; hide Fallen;
    Verdict(c, e, guards, inherited, when, local);
    if !Guarded(c, e, when) {
      var k :| 0 <= k < |when| && Decide(c, when[k], {}).None? && when[k] !in e.open;
      assert when[k] !in inherited;
    }
  }

  /** The run of a host on which only what was inherited holds. */
  ghost function Only(inherited: seq<Cond>): Env { Env(iset x | x in inherited, iset{}) }

  lemma {:induction false} GateCloses(c: Config, guards: seq<Cond>, inherited: seq<Cond>, when: seq<Cond>,
                                      local: set<string>)
    requires Covers(c, inherited, guards) && Gated(c, when, inherited)
    ensures Opens(Only(inherited), inherited) && !AllTrue(c, Only(inherited), guards + when, local)
  {
    hide AllTrue; hide Fallen;
    VerdictAt(c, Only(inherited), guards, inherited, when, local);
  }

  // Behind a condition that has fallen

  lemma {:induction false} RunFallen(c: Config, e: Env, fuel: nat, ts: seq<Task>, base: Dir, guards: seq<Cond>,
                                     via: seq<string>, local: set<string>)
    requires Fallen(c, guards, local)
    ensures Run(c, e, fuel, ts, base, guards, via, local) == Ok(Out([], local))
    decreases ts
  {
    hide RunTask; hide Fallen; hide AllTrue;
    if ts != [] {
      StaysFallen(c, guards, ts[0].when, local);
      AllTrueParts(c, e, guards + ts[0].when, local);
      RunsNothing(c, e, fuel, ts[0], base, guards, via, local);
      RunFallen(c, e, fuel, ts[1..], base, guards, via, local);
      var none: seq<Step> := [];
      assert none + none == none;
    }
  }

  // Clean lists agree

  lemma {:induction false} SoundAt(c: Config, e: Env, fuel: nat, ts: seq<Task>, base: Dir, guards: seq<Cond>,
                                   inherited: seq<Cond>, via: seq<string>, here: bool, flags: set<string>,
                                   local: set<string>)
    requires Covers(c, inherited, guards) && Opens(e, inherited) && local <= flags
    requires Planned(c, fuel, ts, base, inherited, via, here, flags).Ok?
    requires CleanAt(c, fuel, ts, base, guards, inherited, via, here, flags, local)
    ensures SameAt(e, Planned(c, fuel, ts, base, inherited, via, here, flags),
                   Run(c, e, fuel, ts, base, guards, via, local), Hosted(c, fuel, ts, base, guards, via, local))
    decreases fuel, ts, 0
  {
    hide WalkTask; hide RunTask; hide CleanAtTask; hide Covers; hide Opens; hide Everything;
    if ts == [] {
      assert Taken(e, []) == [];
    } else {
      var first := PlannedTask(c, fuel, ts[0], base, inherited, via, here, flags).value;
      SoundAtTask(c, e, fuel, ts[0], base, guards, inherited, via, here, flags, local);
      var host := HostedTask(c, fuel, ts[0], base, guards, via, local).value;
      SoundAt(c, e, fuel, ts[1..], base, guards, inherited, via, here, first.flags, host.flags);
      TakenAppend(e, first.steps, Planned(c, fuel, ts[1..], base, inherited, via, here, first.flags).value.steps);
    }
  }

  lemma {:induction false} SoundAtTask(c: Config, e: Env, fuel: nat, t: Task, base: Dir, guards: seq<Cond>,
                                       inherited: seq<Cond>, via: seq<string>, here: bool, flags: set<string>,
                                       local: set<string>)
    requires Covers(c, inherited, guards) && Opens(e, inherited) && local <= flags
    requires PlannedTask(c, fuel, t, base, inherited, via, here, flags).Ok?
    requires CleanAtTask(c, fuel, t, base, guards, inherited, via, here, flags, local)
    ensures SameAtTask(c, e, fuel, t, base, guards, inherited, via, here, flags, local)
    decreases fuel, t, 2
  {
    if t.action.Block? {
      SoundAtCompound(c, e, fuel, t, base, guards, inherited, via, here, flags, local);
    } else if Includes(t) {
      var target := Classify(c, t.action.key, t.action.path, t.action.options, base, via != []);
      if target.TemplatedPath? || target.Stays? {
        SoundAtStep(c, e, fuel, t, base, guards, inherited, via, here, flags, local);
      } else {
        SoundAtCompound(c, e, fuel, t, base, guards, inherited, via, here, flags, local);
      }
    } else if t.action.SetFact? {
      SoundAtFacts(c, e, fuel, t, base, guards, inherited, via, here, flags, local);
    } else {
      SoundAtStep(c, e, fuel, t, base, guards, inherited, via, here, flags, local);
    }
  }

  lemma {:induction false} SoundAtStep(c: Config, e: Env, fuel: nat, t: Task, base: Dir, guards: seq<Cond>,
                                       inherited: seq<Cond>, via: seq<string>, here: bool, flags: set<string>,
                                       local: set<string>)
    requires Covers(c, inherited, guards) && Opens(e, inherited) && local <= flags && IsStep(c, t, base, via)
    requires CleanAtTask(c, fuel, t, base, guards, inherited, via, here, flags, local)
    ensures SameAtTask(c, e, fuel, t, base, guards, inherited, via, here, flags, local)
  {
    StepIsRight(c, fuel, t, base, guards, inherited, via, here, flags, local);
    hide CleanAtTask; hide WalkTask; hide RunTask; hide Kept; hide Fallen; hide AllTrue; hide Named; hide Covers;
    hide IsStep; hide ArgumentsOf; hide ModuleOf; hide Opens; hide Guarded; hide Everything; hide Gated;
    EverythingHolds(c, iset{}, guards + t.when, local);
    VerdictAt(c, e, guards, inherited, t.when, local);
    if here { StepWalks(c, fuel, t, base, inherited, via, flags); }
    StepRuns(c, e, fuel, t, base, guards, via, local);
    StepRuns(c, Everything(iset{}), fuel, t, base, guards, via, local);
    Verdict(c, e, guards, inherited, t.when, flags);
    TakenOne(e);
    assert Taken(e, []) == [];
  }

  lemma {:induction false} StepIsRight(c: Config, fuel: nat, t: Task, base: Dir, guards: seq<Cond>,
                                       inherited: seq<Cond>, via: seq<string>, here: bool, flags: set<string>,
                                       local: set<string>)
    requires IsStep(c, t, base, via)
    ensures var kept := here && Kept(c, inherited + t.when, flags).Some?;
            CleanAtTask(c, fuel, t, base, guards, inherited, via, here, flags, local)
            <==> StepRight(kept, Fallen(c, guards + t.when, local), NamedIn(t, ArgumentsOf(c, t, base, via)), flags,
                           local)
  {
    hide Kept; hide Fallen; hide Classify; hide Named; hide Gated; hide Stand; hide AllTrue; hide Leaf;
    StepRuns(c, Everything(iset{}), fuel, t, base, guards, via, local);
  }

  lemma {:induction false} FactsWalk(c: Config, fuel: nat, t: Task, base: Dir, inherited: seq<Cond>, via: seq<string>,
                                     flags: set<string>)
    requires t.action.SetFact?
    ensures WalkTask(c, fuel, t, base, inherited, via, flags)
         == match Kept(c, inherited + t.when, flags)
            case None => Ok(Out([], flags))
            case Some(conds) =>
              Ok(Out(if Declares(t, via) then []
                     else [Leaf(t, OwnModule(t.action), OwnArguments(t.action), flags, conds, via)],
                     AfterFacts(t, via, flags)))
  {
    hide Kept; hide Leaf;
  }

  lemma {:induction false} FactsRun(c: Config, e: Env, fuel: nat, t: Task, base: Dir, guards: seq<Cond>,
                                    via: seq<string>, local: set<string>)
    requires t.action.SetFact?
    ensures RunTask(c, e, fuel, t, base, guards, via, local)
         == if AllTrue(c, e, guards + t.when, local)
            then Ok(Out(if Declares(t, via) then []
                        else [Leaf(t, OwnModule(t.action), OwnArguments(t.action), local, [], via)],
                        Assigned(e, t.action.facts, local)))
            else Ok(Out([], local))
  {
    hide AllTrue; hide Leaf; hide Assigned;
  }

  lemma {:induction false} HostFactsAssign(e: Env, facts: Keywords, gated: bool, local: set<string>,
                                           carried: set<string>)
    requires HostFacts(facts, gated, local, carried) && local <= carried
    ensures Assigned(e, facts, local) == Assigned(Everything(iset{}), facts, local) <= carried
    ensures gated ==> Assigned(e, facts, local) == local
  {
  }

  lemma {:induction false} SoundAtFacts(c: Config, e: Env, fuel: nat, t: Task, base: Dir, guards: seq<Cond>,
                                        inherited: seq<Cond>, via: seq<string>, here: bool, flags: set<string>,
                                        local: set<string>)
    requires Covers(c, inherited, guards) && Opens(e, inherited) && local <= flags && t.action.SetFact?
    requires CleanAtTask(c, fuel, t, base, guards, inherited, via, here, flags, local)
    ensures SameAtTask(c, e, fuel, t, base, guards, inherited, via, here, flags, local)
  {
    hide WalkTask; hide RunTask; hide Kept; hide Fallen; hide AllTrue; hide Named; hide Covers; hide Opens;
    hide Guarded; hide Everything; hide Gated; hide Assigned; hide HostFacts; hide CleanAt;
    var kept := here && Kept(c, inherited + t.when, flags).Some?;
    var fallen, gated := Fallen(c, guards + t.when, local), Gated(c, t.when, inherited);
    EverythingHolds(c, iset{}, guards + t.when, local);
    VerdictAt(c, e, guards, inherited, t.when, local);
    if here { FactsWalk(c, fuel, t, base, inherited, via, flags); }
    FactsRun(c, e, fuel, t, base, guards, via, local);
    FactsRun(c, Everything(iset{}), fuel, t, base, guards, via, local);
    Verdict(c, e, guards, inherited, t.when, flags);
    TakenOne(e);
    assert Taken(e, []) == [];
    if !fallen {
      var carried := if kept then AfterFacts(t, via, flags) else flags;
      HostFactsAssign(e, t.action.facts, gated, local, carried);
      HostFactsAssign(Everything(iset{}), t.action.facts, gated, local, carried);
    }
  }

  /** What a block or an inlined file comes to inside, on the plan's side and on the host's. */
  lemma {:induction false} SoundAtCompound(c: Config, e: Env, fuel: nat, t: Task, base: Dir, guards: seq<Cond>,
                                           inherited: seq<Cond>, via: seq<string>, here: bool, flags: set<string>,
                                           local: set<string>)
    requires Covers(c, inherited, guards) && Opens(e, inherited) && local <= flags
    requires t.action.Block? || (Includes(t) && !IsStep(c, t, base, via))
    requires PlannedTask(c, fuel, t, base, inherited, via, here, flags).Ok?
    requires CleanAtTask(c, fuel, t, base, guards, inherited, via, here, flags, local)
    ensures SameAtTask(c, e, fuel, t, base, guards, inherited, via, here, flags, local)
    decreases fuel, t, 1
  {
    hide Kept; hide Fallen; hide AllTrue; hide Covers; hide Opens; hide Guarded; hide Everything; hide Gated;
    hide WalkTask; hide RunTask; hide CleanAtTask; hide IsStep;
    var kept := here && Kept(c, inherited + t.when, flags).Some?;
    var all := Everything(iset{});
    CoversUndecided(c, inherited, guards);
    EverythingHolds(c, iset{}, guards + t.when, local);
    EverythingHolds(c, iset{}, inherited, local);
    VerdictAt(c, e, guards, inherited, t.when, local);
    VerdictAt(c, all, guards, inherited, t.when, local);
    if !AllTrue(c, e, guards + t.when, local) { RunsNothing(c, e, fuel, t, base, guards, via, local); }
    if Fallen(c, guards + t.when, local) { RunsNothing(c, all, fuel, t, base, guards, via, local); }
    if here && !kept { SkippedPlans(c, fuel, t, base, inherited, via, flags); }
    if here { FlagsGrowTask(c, fuel, t, base, inherited, via, flags); }
    if Guarded(c, e, t.when) {
      SoundInside(c, e, fuel, t, base, guards, inherited, via, here, flags, local);
    } else if kept {
      ClosedPlans(c, e, fuel, t, base, inherited, via, flags);
    }
    if Guarded(c, all, t.when) {
      SoundInside(c, all, fuel, t, base, guards, inherited, via, here, flags, local);
    }
    GatedKeeps(c, fuel, t, base, guards, inherited, via, here, flags, local);
    assert Taken(e, []) == [];
  }

  lemma GatedKeeps(c: Config, fuel: nat, t: Task, base: Dir, guards: seq<Cond>, inherited: seq<Cond>, via: seq<string>,
                   here: bool, flags: set<string>, local: set<string>)
    requires t.action.Block? || Includes(t)
    requires CleanAtTask(c, fuel, t, base, guards, inherited, via, here, flags, local)
    ensures Gated(c, t.when, inherited) ==> KeepsFlags(HostedTask(c, fuel, t, base, guards, via, local), local)
  {
    hide Kept; hide Fallen; hide Gated; hide HostedTask; hide CleanAt; hide CleanAtInclude; hide Classify;
  }

  lemma SkippedPlans(c: Config, fuel: nat, t: Task, base: Dir, inherited: seq<Cond>, via: seq<string>,
                     flags: set<string>)
    requires Kept(c, inherited + t.when, flags).None?
    ensures WalkTask(c, fuel, t, base, inherited, via, flags) == Ok(Out([], flags))
  {
    hide Kept;
  }

  /** A kept task behind a gate that is closed has no step that is taken. */
  lemma {:induction false} ClosedPlans(c: Config, e: Env, fuel: nat, t: Task, base: Dir, inherited: seq<Cond>,
                                       via: seq<string>, flags: set<string>)
    requires Undecided(c, inherited) && Opens(e, inherited) && !Guarded(c, e, t.when)
    requires Kept(c, inherited + t.when, flags).Some? && WalkTask(c, fuel, t, base, inherited, via, flags).Ok?
    ensures Taken(e, WalkTask(c, fuel, t, base, inherited, via, flags).value.steps) == []
  {
    hide Kept; hide WalkTask;
    KeptIsOpen(c, inherited, t.when, flags);
    OpensOpenOf(c, e, inherited, t.when);
    StepsCarry(c, fuel, t, base, inherited, via, flags);
    TakenNone(e, Kept(c, inherited + t.when, flags).value,
              WalkTask(c, fuel, t, base, inherited, via, flags).value.steps);
  }

  /** Inside, for a host on which the task's open conditions hold. */
  lemma {:induction false} SoundInside(c: Config, e: Env, fuel: nat, t: Task, base: Dir, guards: seq<Cond>,
                                       inherited: seq<Cond>, via: seq<string>, here: bool, flags: set<string>,
                                       local: set<string>)
    requires Covers(c, inherited, guards) && Opens(e, inherited) && local <= flags && Guarded(c, e, t.when)
    requires t.action.Block? || (Includes(t) && !IsStep(c, t, base, via))
    requires PlannedTask(c, fuel, t, base, inherited, via, here, flags).Ok?
    requires CleanAtTask(c, fuel, t, base, guards, inherited, via, here, flags, local)
    ensures SameAtTask(c, e, fuel, t, base, guards, inherited, via, here, flags, local)
    decreases fuel, t, 0
  {
    CompoundWalks(c, fuel, t, base, inherited, via, flags);
    CompoundRuns(c, e, fuel, t, base, guards, via, local);
    CompoundRuns(c, Everything(iset{}), fuel, t, base, guards, via, local);
    CompoundClean(c, fuel, t, base, guards, inherited, via, here, flags, local);
    hide WalkTask; hide RunTask; hide CleanAtTask; hide IsStep; hide InnerOf; hide Inside; hide Fallen; hide CleanAt;
    hide Kept; hide Undecided; hide AllTrue; hide Covers; hide Opens; hide Guarded; hide Gated; hide Everything;
    hide Walk; hide Run;
    var kept := here && Kept(c, inherited + t.when, flags).Some?;
    var fallen, conds := Fallen(c, guards + t.when, local), inherited + OpenOf(c, t.when);
    EverythingHolds(c, iset{}, guards + t.when, local);
    VerdictAt(c, e, guards, inherited, t.when, local);
    OpensOpenOf(c, e, inherited, t.when);
    CoversOpen(c, t, inherited, guards);
    CoversInner(c, t, guards, conds, local);
    CoversUndecided(c, inherited, guards);
    if kept { KeptIsOpen(c, inherited, t.when, flags); }
    assert Taken(e, []) == [];
    if kept || !fallen {
      var i := InnerOf(c, fuel, t, base, via).value;
      InnerIsSmaller(c, fuel, t, base, via);
      SoundAt(c, e, i.fuel, i.ts, i.base, Inside(c, t, guards, local), conds, i.via, kept, flags, local);
      if fallen {
        FallenIsInside(c, t, guards, local);
        FallenInside(c, e, i.fuel, i.ts, i.base, Inside(c, t, guards, local), i.via, local);
      }
    }
  }

  /** The list a block or an inlined file holds, and where it stands. */
  datatype Inner = Inner(fuel: nat, ts: seq<Task>, base: Dir, via: seq<string>)

  function InnerOf(c: Config, fuel: nat, t: Task, base: Dir, via: seq<string>): Option<Inner> {
    if t.action.Block? then Some(Inner(fuel, t.action.block, base, via))
    else if !Includes(t) || fuel == 0 then None
    else
      match Classify(c, t.action.key, t.action.path, t.action.options, base, via != [])
      case Phase(file) => Some(Inner(fuel - 1, Read(c, file), Parent(file), via))
      case Inlined(file, relative) =>
        Some(Inner(fuel - 1, WithVars(Read(c, file), t.vars), Parent(file), via + [relative]))
      case _ => None
  }

  lemma InnerIsSmaller(c: Config, fuel: nat, t: Task, base: Dir, via: seq<string>)
    requires InnerOf(c, fuel, t, base, via).Some?
    ensures var i := InnerOf(c, fuel, t, base, via).value;
            i.fuel < fuel || (i.fuel == fuel && t.action.Block? && i.ts == t.action.block)
  {
    hide Classify;
  }

  lemma CompoundWalks(c: Config, fuel: nat, t: Task, base: Dir, inherited: seq<Cond>, via: seq<string>,
                      flags: set<string>)
    requires t.action.Block? || (Includes(t) && !IsStep(c, t, base, via))
    ensures WalkTask(c, fuel, t, base, inherited, via, flags)
         == match Kept(c, inherited + t.when, flags)
            case None => Ok(Out([], flags))
            case Some(conds) =>
              match InnerOf(c, fuel, t, base, via)
              case None => Failure
              case Some(i) => Walk(c, i.fuel, i.ts, i.base, conds, i.via, flags)
  {
    hide Kept; hide Classify; hide Walk;
  }

  lemma CompoundRuns(c: Config, e: Env, fuel: nat, t: Task, base: Dir, guards: seq<Cond>, via: seq<string>,
                     local: set<string>)
    requires t.action.Block? || (Includes(t) && !IsStep(c, t, base, via))
    ensures !AllTrue(c, e, guards + t.when, local) ==>
              RunTask(c, e, fuel, t, base, guards, via, local) == Ok(Out([], local))
    ensures AllTrue(c, e, guards + t.when, local) && !Fallen(c, guards + t.when, local) ==>
              RunTask(c, e, fuel, t, base, guards, via, local)
              == match InnerOf(c, fuel, t, base, via)
                 case None => Failure
                 case Some(i) => Run(c, e, i.fuel, i.ts, i.base, Inside(c, t, guards, local), i.via, local)
  {
    hide AllTrue; hide Fallen; hide Classify; hide Run;
    PhaseIsStatic(c, t, base, via);
  }

  /** Only a static import names a phase. */
  lemma PhaseIsStatic(c: Config, t: Task, base: Dir, via: seq<string>)
    ensures Includes(t) && Classify(c, t.action.key, t.action.path, t.action.options, base, via != []).Phase? ==>
              Static(t)
    ensures t.action.Block? ==> Static(t)
  {
    hide Resolve; hide IsHook; hide IsPhase; hide EndsWith; hide Templated; hide HasTemplate;
  }

  lemma CompoundClean(c: Config, fuel: nat, t: Task, base: Dir, guards: seq<Cond>, inherited: seq<Cond>,
                      via: seq<string>, here: bool, flags: set<string>, local: set<string>)
    requires t.action.Block? || (Includes(t) && !IsStep(c, t, base, via))
    ensures var fallen, gated := Fallen(c, guards + t.when, local), Gated(c, t.when, inherited);
            var kept, conds := here && Kept(c, inherited + t.when, flags).Some?, inherited + OpenOf(c, t.when);
            CleanAtTask(c, fuel, t, base, guards, inherited, via, here, flags, local)
            <==> && (gated ==> KeepsFlags(HostedTask(c, fuel, t, base, guards, via, local), local))
                 && (kept || !fallen ==>
                       match InnerOf(c, fuel, t, base, via)
                       case None => kept
                       case Some(i) =>
                         CleanAt(c, i.fuel, i.ts, i.base, Inside(c, t, guards, local), conds, i.via, kept, flags,
                                 local))
  {
    hide Kept; hide Fallen; hide Gated; hide HostedTask; hide KeepsFlags; hide CleanAt; hide Classify; hide OpenOf;
    hide Named;
    PhaseIsStatic(c, t, base, via);
  }

  lemma CoversInner(c: Config, t: Task, guards: seq<Cond>, conds: seq<Cond>, local: set<string>)
    requires Covers(c, conds, guards + t.when) && Covers(c, conds, guards)
    ensures Covers(c, conds, Inside(c, t, guards, local))
  {
    hide Fallen; hide Covers;
  }

  lemma FallenIsInside(c: Config, t: Task, guards: seq<Cond>, local: set<string>)
    requires Fallen(c, guards + t.when, local)
    ensures Fallen(c, Inside(c, t, guards, local), local)
  {
    hide Fallen;
  }

  lemma CoversUndecided(c: Config, inherited: seq<Cond>, guards: seq<Cond>)
    requires Covers(c, inherited, guards)
    ensures Undecided(c, inherited)
  {
  }

  lemma {:induction false} FallenInside(c: Config, e: Env, fuel: nat, ts: seq<Task>, base: Dir, guards: seq<Cond>,
                                        via: seq<string>, local: set<string>)
    requires Fallen(c, guards, local)
    ensures Run(c, e, fuel, ts, base, guards, via, local) == Ok(Out([], local))
    ensures Hosted(c, fuel, ts, base, guards, via, local) == Ok(Out([], local))
  {
    RunFallen(c, e, fuel, ts, base, guards, via, local);
    RunFallen(c, Everything(iset{}), fuel, ts, base, guards, via, local);
  }
}
