/** The check of a list that is planned under one flag set and run under another is exact. */
module HostExactness {
  import opened Text
  import opened Paths
  import opened Tasks
  import opened PlanWalk
  import opened WalkFacts
  import opened PartialEvaluation
  import opened Exactness
  import opened Hosts

  /** After every prefix of a list, the plan's taken steps are the run's and the host has the
      same flags, whatever is open, all carried by the plan; and so it is inside every block and
      inlined file that the plan or the host enters. */
  ghost predicate FaithfulAt(c: Config, fuel: nat, ts: seq<Task>, base: Dir, guards: seq<Cond>, inherited: seq<Cond>,
                             via: seq<string>, here: bool, flags: set<string>, local: set<string>)
    decreases fuel, ts, 1
  {
    && (forall e: Env, k: nat | Opens(e, inherited) && k <= |ts| ::
          SameUpTo(c, e, fuel, ts, k, base, guards, inherited, via, here, flags, local))
    && FaithfulAtInside(c, fuel, ts, base, guards, inherited, via, here, flags, local)
  }

  ghost predicate FaithfulAtInside(c: Config, fuel: nat, ts: seq<Task>, base: Dir, guards: seq<Cond>,
                                   inherited: seq<Cond>, via: seq<string>, here: bool, flags: set<string>,
                                   local: set<string>)
    decreases fuel, ts, 0
  {
    ts == [] ||
    (FaithfulAtTask(c, fuel, ts[0], base, guards, inherited, via, here, flags, local)
     && var plan := PlannedTask(c, fuel, ts[0], base, inherited, via, here, flags);
        var host := HostedTask(c, fuel, ts[0], base, guards, via, local);
        plan.Ok? && host.Ok? ==>
          FaithfulAtInside(c, fuel, ts[1..], base, guards, inherited, via, here, plan.value.flags, host.value.flags))
  }

  ghost predicate FaithfulAtTask(c: Config, fuel: nat, t: Task, base: Dir, guards: seq<Cond>, inherited: seq<Cond>,
                                 via: seq<string>, here: bool, flags: set<string>, local: set<string>)
    decreases fuel, t, 2
  {
    var kept := here && Kept(c, inherited + t.when, flags).Some?;
    var conds := inherited + OpenOf(c, t.when);
    kept || !Fallen(c, guards + t.when, local) ==>
      if t.action.Block? then FaithfulAt(c, fuel, t.action.block, base, guards + t.when, conds, via, kept, flags, local)
      else if Includes(t) && fuel > 0 then
        match Classify(c, t.action.key, t.action.path, t.action.options, base, via != [])
        case Phase(file) =>
          FaithfulAt(c, fuel - 1, Read(c, file), Parent(file), guards + t.when, conds, via, kept, flags, local)
        case Inlined(file, relative) =>
          FaithfulAt(c, fuel - 1, WithVars(Read(c, file), t.vars), Parent(file), Inside(c, t, guards, local), conds,
                     via + [relative], kept, flags, local)
        case _ => true
      else true
  }

  lemma FaithfulEnters(c: Config, fuel: nat, t: Task, base: Dir, guards: seq<Cond>, inherited: seq<Cond>,
                       via: seq<string>, here: bool, flags: set<string>, local: set<string>)
    ensures var kept := here && Kept(c, inherited + t.when, flags).Some?;
            FaithfulAtTask(c, fuel, t, base, guards, inherited, via, here, flags, local)
            <==> (kept || !Fallen(c, guards + t.when, local) ==>
                    match InnerOf(c, fuel, t, base, via)
                    case None => true
                    case Some(i) =>
                      FaithfulAt(c, i.fuel, i.ts, i.base, Inside(c, t, guards, local), inherited + OpenOf(c, t.when),
                                 i.via, kept, flags, local))
  {
    hide Kept; hide Fallen; hide Classify; hide FaithfulAt; hide OpenOf;
    PhaseIsStatic(c, t, base, via);
  }

  // Prefixes

  lemma {:induction false} StepUpTo(c: Config, e: Env, fuel: nat, ts: seq<Task>, k: nat, base: Dir, guards: seq<Cond>,
                                    inherited: seq<Cond>, via: seq<string>, here: bool, flags: set<string>,
                                    local: set<string>)
    requires k < |ts| && PlannedTask(c, fuel, ts[0], base, inherited, via, here, flags).Ok?
    requires SameAtTask(c, e, fuel, ts[0], base, guards, inherited, via, here, flags, local)
    ensures var plan := PlannedTask(c, fuel, ts[0], base, inherited, via, here, flags).value;
            var host := HostedTask(c, fuel, ts[0], base, guards, via, local);
            && host.Ok?
            && (SameUpTo(c, e, fuel, ts, k + 1, base, guards, inherited, via, here, flags, local)
                <==> SameUpTo(c, e, fuel, ts[1..], k, base, guards, inherited, via, here, plan.flags, host.value.flags))
  {
    hide WalkTask; hide RunTask; hide Taken; hide Everything;
    var first := PlannedTask(c, fuel, ts[0], base, inherited, via, here, flags).value;
    var local' := HostedTask(c, fuel, ts[0], base, guards, via, local).value.flags;
    assert ts[..k + 1][0] == ts[0] && ts[..k + 1][1..] == ts[1..][..k];
    var plan := Planned(c, fuel, ts[1..][..k], base, inherited, via, here, first.flags);
    var run := Run(c, e, fuel, ts[1..][..k], base, guards, via, local');
    NothingTaken(e);
    if plan.Ok? {
      TakenAppend(e, first.steps, plan.value.steps);
      if run.Ok? { SameRest(Taken(e, first.steps), Taken(e, plan.value.steps), run.value.steps); }
    }
  }

  lemma NothingTaken(e: Env)
    ensures Taken(e, []) == []
  {
  }

  lemma {:induction false} CleanSameUpTo(c: Config, e: Env, fuel: nat, ts: seq<Task>, k: nat, base: Dir,
                                         guards: seq<Cond>, inherited: seq<Cond>, via: seq<string>, here: bool,
                                         flags: set<string>, local: set<string>)
    requires Covers(c, inherited, guards) && Opens(e, inherited) && k <= |ts| && local <= flags
    requires Planned(c, fuel, ts, base, inherited, via, here, flags).Ok?
    requires CleanAt(c, fuel, ts, base, guards, inherited, via, here, flags, local)
    ensures SameUpTo(c, e, fuel, ts, k, base, guards, inherited, via, here, flags, local)
    decreases ts
  {
    hide CleanAtTask; hide Covers; hide Opens; hide WalkTask; hide RunTask; hide Everything;
    if k > 0 {
      var plan := PlannedTask(c, fuel, ts[0], base, inherited, via, here, flags).value;
      SoundAtTask(c, e, fuel, ts[0], base, guards, inherited, via, here, flags, local);
      var host := HostedTask(c, fuel, ts[0], base, guards, via, local).value;
      CleanSameUpTo(c, e, fuel, ts[1..], k - 1, base, guards, inherited, via, here, plan.flags, host.flags);
      StepUpTo(c, e, fuel, ts, k - 1, base, guards, inherited, via, here, flags, local);
    } else {
      assert ts[..0] == [];
      NothingTaken(e);
    }
  }

  // What is clean is faithful

  lemma {:induction false} CleanIsFaithfulAt(c: Config, fuel: nat, ts: seq<Task>, base: Dir, guards: seq<Cond>,
                                             inherited: seq<Cond>, via: seq<string>, here: bool, flags: set<string>,
                                             local: set<string>)
    requires Covers(c, inherited, guards) && local <= flags
    requires Planned(c, fuel, ts, base, inherited, via, here, flags).Ok?
    requires CleanAt(c, fuel, ts, base, guards, inherited, via, here, flags, local)
    ensures FaithfulAt(c, fuel, ts, base, guards, inherited, via, here, flags, local)
    decreases fuel, ts, 2
  {
    hide CleanAt; hide Walk; hide Covers; hide Opens; hide FaithfulAtInside; hide SameUpTo;
    forall e: Env, k: nat | Opens(e, inherited) && k <= |ts|
      ensures SameUpTo(c, e, fuel, ts, k, base, guards, inherited, via, here, flags, local)
    {
      CleanSameUpTo(c, e, fuel, ts, k, base, guards, inherited, via, here, flags, local);
    }
    CleanIsFaithfulAtInside(c, fuel, ts, base, guards, inherited, via, here, flags, local);
  }

  lemma {:induction false} CleanIsFaithfulAtInside(c: Config, fuel: nat, ts: seq<Task>, base: Dir, guards: seq<Cond>,
                                                   inherited: seq<Cond>, via: seq<string>, here: bool,
                                                   flags: set<string>, local: set<string>)
    requires Covers(c, inherited, guards) && local <= flags
    requires Planned(c, fuel, ts, base, inherited, via, here, flags).Ok?
    requires CleanAt(c, fuel, ts, base, guards, inherited, via, here, flags, local)
    ensures FaithfulAtInside(c, fuel, ts, base, guards, inherited, via, here, flags, local)
    decreases fuel, ts, 1
  {
    hide CleanAtTask; hide Covers; hide FaithfulAtTask; hide WalkTask; hide RunTask; hide Everything;
    if ts != [] {
      var plan := PlannedTask(c, fuel, ts[0], base, inherited, via, here, flags).value;
      CleanIsFaithfulAtTask(c, fuel, ts[0], base, guards, inherited, via, here, flags, local);
      EverythingHolds(c, iset{}, inherited, local);
      SoundAtTask(c, Everything(iset{}), fuel, ts[0], base, guards, inherited, via, here, flags, local);
      var host := HostedTask(c, fuel, ts[0], base, guards, via, local).value;
      CleanIsFaithfulAtInside(c, fuel, ts[1..], base, guards, inherited, via, here, plan.flags, host.flags);
    }
  }

  predicate IsCompound(c: Config, t: Task, base: Dir, via: seq<string>) {
    t.action.Block? || (Includes(t) && !IsStep(c, t, base, via))
  }

  lemma {:induction false} CleanIsFaithfulAtTask(c: Config, fuel: nat, t: Task, base: Dir, guards: seq<Cond>,
                                                 inherited: seq<Cond>, via: seq<string>, here: bool, flags: set<string>,
                                                 local: set<string>)
    requires Covers(c, inherited, guards) && local <= flags
    requires PlannedTask(c, fuel, t, base, inherited, via, here, flags).Ok?
    requires CleanAtTask(c, fuel, t, base, guards, inherited, via, here, flags, local)
    ensures FaithfulAtTask(c, fuel, t, base, guards, inherited, via, here, flags, local)
    decreases fuel, t, 3
  {
    FaithfulEnters(c, fuel, t, base, guards, inherited, via, here, flags, local);
    var kept, conds := here && Kept(c, inherited + t.when, flags).Some?, inherited + OpenOf(c, t.when);
    if InnerOf(c, fuel, t, base, via).Some? && (kept || !Fallen(c, guards + t.when, local)) {
      var i := InnerOf(c, fuel, t, base, via).value;
      InnerIsSmaller(c, fuel, t, base, via);
      InnerIsCompound(c, fuel, t, base, via);
      CompoundClean(c, fuel, t, base, guards, inherited, via, here, flags, local);
      CompoundWalks(c, fuel, t, base, inherited, via, flags);
      hide FaithfulAtTask; hide CleanAtTask; hide WalkTask; hide IsStep; hide InnerOf; hide Inside; hide Covers;
      hide Kept; hide Fallen; hide CleanAt; hide FaithfulAt; hide Undecided; hide Walk; hide HostedTask; hide Gated;
      CoversOpen(c, t, inherited, guards);
      CoversInner(c, t, guards, conds, local);
      CoversUndecided(c, inherited, guards);
      if kept { KeptIsOpen(c, inherited, t.when, flags); }
      CleanIsFaithfulAt(c, i.fuel, i.ts, i.base, Inside(c, t, guards, local), conds, i.via, kept, flags, local);
    }
  }

  lemma InnerIsCompound(c: Config, fuel: nat, t: Task, base: Dir, via: seq<string>)
    requires InnerOf(c, fuel, t, base, via).Some?
    ensures IsCompound(c, t, base, via)
  {
    hide Classify;
  }

  // What is faithful is clean

  /** Plan and run of one task agree on every host on which what was inherited holds. */
  ghost predicate TaskSame(c: Config, fuel: nat, t: Task, base: Dir, guards: seq<Cond>, inherited: seq<Cond>,
                           via: seq<string>, here: bool, flags: set<string>, local: set<string>)
  {
    forall e: Env | Opens(e, inherited) :: SameAtTask(c, e, fuel, t, base, guards, inherited, via, here, flags, local)
  }

  lemma {:induction false} StepIsCleanAt(c: Config, fuel: nat, t: Task, base: Dir, guards: seq<Cond>,
                                         inherited: seq<Cond>, via: seq<string>, here: bool, flags: set<string>,
                                         local: set<string>)
    requires IsStep(c, t, base, via)
    requires SameAtTask(c, Everything(iset{}), fuel, t, base, guards, inherited, via, here, flags, local)
    ensures CleanAtTask(c, fuel, t, base, guards, inherited, via, here, flags, local)
  {
    StepIsRight(c, fuel, t, base, guards, inherited, via, here, flags, local);
    if here { StepWalks(c, fuel, t, base, inherited, via, flags); }
    var all := Everything(iset{});
    StepRuns(c, all, fuel, t, base, guards, via, local);
    hide CleanAtTask; hide WalkTask; hide RunTask; hide Kept; hide Fallen; hide AllTrue; hide Named; hide IsStep;
    hide ArgumentsOf; hide ModuleOf; hide Opens; hide Everything;
    EverythingHolds(c, iset{}, guards + t.when, local);
    if here && Kept(c, inherited + t.when, flags).Some? {
      EverythingHolds(c, iset{}, Kept(c, inherited + t.when, flags).value, local);
    }
    TakenOne(all);
    NothingTaken(all);
  }

  lemma {:induction false} FactsAreCleanAt(c: Config, fuel: nat, t: Task, base: Dir, guards: seq<Cond>,
                                           inherited: seq<Cond>, via: seq<string>, here: bool, flags: set<string>,
                                           local: set<string>)
    requires t.action.SetFact? && Covers(c, inherited, guards)
    requires TaskSame(c, fuel, t, base, guards, inherited, via, here, flags, local)
    ensures CleanAtTask(c, fuel, t, base, guards, inherited, via, here, flags, local)
  {
    var fallen, gated := Fallen(c, guards + t.when, local), Gated(c, t.when, inherited);
    var kept := here && Kept(c, inherited + t.when, flags).Some?;
    FactsStepIsRight(c, fuel, t, base, guards, inherited, via, here, flags, local);
    if !fallen { HostFactsHold(c, fuel, t, base, guards, inherited, via, here, flags, local); }
    hide Kept; hide Fallen; hide Gated; hide HostFacts; hide Named; hide CleanAt; hide TaskSame; hide Covers;
    hide AfterFacts; hide StepRight;
  }

  lemma {:induction false} FactsStepIsRight(c: Config, fuel: nat, t: Task, base: Dir, guards: seq<Cond>,
                                            inherited: seq<Cond>, via: seq<string>, here: bool, flags: set<string>,
                                            local: set<string>)
    requires t.action.SetFact? && TaskSame(c, fuel, t, base, guards, inherited, via, here, flags, local)
    ensures var kept := here && Kept(c, inherited + t.when, flags).Some?;
            Declares(t, via)
            || StepRight(kept, Fallen(c, guards + t.when, local), NamedIn(t, OwnArguments(t.action)), flags, local)
  {
    hide WalkTask; hide RunTask; hide Kept; hide Fallen; hide AllTrue; hide Named; hide Opens; hide Everything;
    hide Assigned; hide TaskSame;
    var all := Everything(iset{});
    SameOnHost(c, iset{}, fuel, t, base, guards, inherited, via, here, flags, local);
    if here { FactsWalk(c, fuel, t, base, inherited, via, flags); }
    FactsRun(c, all, fuel, t, base, guards, via, local);
    EverythingHolds(c, iset{}, guards + t.when, local);
    if here && Kept(c, inherited + t.when, flags).Some? {
      EverythingHolds(c, iset{}, Kept(c, inherited + t.when, flags).value, local);
    }
    TakenOne(all);
    NothingTaken(all);
  }

  /** Everything open holds on some host. */
  lemma {:induction false} SameOnHost(c: Config, facts: iset<Value>, fuel: nat, t: Task, base: Dir, guards: seq<Cond>,
                                      inherited: seq<Cond>, via: seq<string>, here: bool, flags: set<string>,
                                      local: set<string>)
    requires TaskSame(c, fuel, t, base, guards, inherited, via, here, flags, local)
    ensures SameAtTask(c, Everything(facts), fuel, t, base, guards, inherited, via, here, flags, local)
  {
    hide SameAtTask; hide Opens; hide Everything;
    EverythingHolds(c, facts, inherited, local);
  }

  lemma {:induction false} HostFactsHold(c: Config, fuel: nat, t: Task, base: Dir, guards: seq<Cond>,
                                         inherited: seq<Cond>, via: seq<string>, here: bool, flags: set<string>,
                                         local: set<string>)
    requires t.action.SetFact? && Covers(c, inherited, guards) && !Fallen(c, guards + t.when, local)
    requires TaskSame(c, fuel, t, base, guards, inherited, via, here, flags, local)
    ensures var kept := here && Kept(c, inherited + t.when, flags).Some?;
            HostFacts(t.action.facts, Gated(c, t.when, inherited), local,
                      if kept then AfterFacts(t, via, flags) else flags)
  {
    hide WalkTask; hide RunTask; hide Kept; hide Fallen; hide AllTrue; hide Named; hide Opens; hide Gated;
    hide TaskSame; hide Covers; hide Assigned; hide Everything; hide Declares;
    var facts, all := t.action.facts, Everything(iset{});
    if here { FactsWalk(c, fuel, t, base, inherited, via, flags); }
    SameOnHost(c, iset{}, fuel, t, base, guards, inherited, via, here, flags, local);
    FactsRun(c, all, fuel, t, base, guards, via, local);
    EverythingHolds(c, iset{}, guards + t.when, local);
    forall n | n in facts && n in FLAGS ensures facts[n].Bool? {
      if !facts[n].Bool? {
        var some := Everything(iset{facts[n]});
        SameOnHost(c, iset{facts[n]}, fuel, t, base, guards, inherited, via, here, flags, local);
        FactsRun(c, some, fuel, t, base, guards, via, local);
        EverythingHolds(c, iset{facts[n]}, guards + t.when, local);
        OpenFactTells(facts, local, n);
      }
    }
    forall n | n in facts && n in FLAGS && facts[n] == Bool(true)
      ensures n in Assigned(all, facts, local)
    {
      TrueFactSets(all, facts, local, n);
    }
    if Gated(c, t.when, inherited) {
      GateCloses(c, guards, inherited, t.when, local);
      ClosedSame(c, fuel, t, base, guards, inherited, via, here, flags, local);
      KeptFlagsUnchanging(facts, local);
    }
  }

  lemma OpenFactTells(facts: Keywords, local: set<string>, n: string)
    requires n in facts && n in FLAGS && !facts[n].Bool?
    ensures Assigned(Everything(iset{facts[n]}), facts, local) != Assigned(Everything(iset{}), facts, local)
  {
    assert n in Assigned(Everything(iset{facts[n]}), facts, local);
    assert n !in Assigned(Everything(iset{}), facts, local);
  }

  lemma TrueFactSets(e: Env, facts: Keywords, local: set<string>, n: string)
    requires n in facts && n in FLAGS && facts[n] == Bool(true)
    ensures n in Assigned(e, facts, local)
  {
  }

  lemma KeptFlagsUnchanging(facts: Keywords, local: set<string>)
    requires Assigned(Everything(iset{}), facts, local) == local
    requires forall n :: n in facts && n in FLAGS ==> facts[n].Bool?
    ensures Unchanging(facts, local)
  {
    forall n | n in facts && n in FLAGS ensures facts[n] == Bool(n in local) {
      assert n in Assigned(Everything(iset{}), facts, local) <==> facts[n].b;
    }
  }

  /** Behind a gate that can close, the host keeps its flags. */
  lemma {:induction false} ClosedSame(c: Config, fuel: nat, t: Task, base: Dir, guards: seq<Cond>, inherited: seq<Cond>,
                                      via: seq<string>, here: bool, flags: set<string>, local: set<string>)
    requires Covers(c, inherited, guards) && Gated(c, t.when, inherited)
    requires PlannedTask(c, fuel, t, base, inherited, via, here, flags).Ok?
    requires TaskSame(c, fuel, t, base, guards, inherited, via, here, flags, local)
    ensures KeepsFlags(HostedTask(c, fuel, t, base, guards, via, local), local)
  {
    hide WalkTask; hide RunTask; hide AllTrue; hide Opens; hide Gated; hide Covers; hide Only;
    GateCloses(c, guards, inherited, t.when, local);
    assert SameAtTask(c, Only(inherited), fuel, t, base, guards, inherited, via, here, flags, local);
    RunsNothing(c, Only(inherited), fuel, t, base, guards, via, local);
  }

  lemma {:induction false} FaithfulIsCleanAt(c: Config, fuel: nat, ts: seq<Task>, base: Dir, guards: seq<Cond>,
                                             inherited: seq<Cond>, via: seq<string>, here: bool, flags: set<string>,
                                             local: set<string>)
    requires Covers(c, inherited, guards) && Planned(c, fuel, ts, base, inherited, via, here, flags).Ok?
    requires FaithfulAt(c, fuel, ts, base, guards, inherited, via, here, flags, local)
    ensures CleanAt(c, fuel, ts, base, guards, inherited, via, here, flags, local)
    decreases fuel, ts, 0
  {
    hide Covers; hide FaithfulAtTask; hide CleanAtTask; hide WalkTask; hide RunTask; hide SameUpTo; hide Opens;
    hide Everything;
    if ts != [] {
      var plan := PlannedTask(c, fuel, ts[0], base, inherited, via, here, flags).value;
      FaithfulAtHead(c, fuel, ts, base, guards, inherited, via, here, flags, local);
      FaithfulIsCleanAtTask(c, fuel, ts[0], base, guards, inherited, via, here, flags, local);
      FaithfulAtTail(c, fuel, ts, base, guards, inherited, via, here, flags, local);
      var host := HostedTask(c, fuel, ts[0], base, guards, via, local).value;
      FaithfulIsCleanAt(c, fuel, ts[1..], base, guards, inherited, via, here, plan.flags, host.flags);
    }
  }

  lemma {:induction false} FaithfulAtHead(c: Config, fuel: nat, ts: seq<Task>, base: Dir, guards: seq<Cond>,
                                          inherited: seq<Cond>, via: seq<string>, here: bool, flags: set<string>,
                                          local: set<string>)
    requires ts != [] && FaithfulAt(c, fuel, ts, base, guards, inherited, via, here, flags, local)
    ensures TaskSame(c, fuel, ts[0], base, guards, inherited, via, here, flags, local)
  {
    hide WalkTask; hide RunTask; hide Walk; hide Run; hide FaithfulAtInside; hide Opens; hide SameAt; hide Everything;
    assert ts[..1] == [ts[0]];
    WalkOne(c, fuel, ts[0], base, inherited, via, flags);
    RunOne(c, Everything(iset{}), fuel, ts[0], base, guards, via, local);
    forall e: Env | Opens(e, inherited)
      ensures SameAtTask(c, e, fuel, ts[0], base, guards, inherited, via, here, flags, local)
    {
      RunOne(c, e, fuel, ts[0], base, guards, via, local);
      assert SameUpTo(c, e, fuel, ts, 1, base, guards, inherited, via, here, flags, local);
    }
  }

  lemma {:induction false} FaithfulAtTail(c: Config, fuel: nat, ts: seq<Task>, base: Dir, guards: seq<Cond>,
                                          inherited: seq<Cond>, via: seq<string>, here: bool, flags: set<string>,
                                          local: set<string>)
    requires ts != [] && PlannedTask(c, fuel, ts[0], base, inherited, via, here, flags).Ok?
    requires FaithfulAt(c, fuel, ts, base, guards, inherited, via, here, flags, local)
    requires TaskSame(c, fuel, ts[0], base, guards, inherited, via, here, flags, local)
    ensures var plan := PlannedTask(c, fuel, ts[0], base, inherited, via, here, flags).value;
            var host := HostedTask(c, fuel, ts[0], base, guards, via, local);
            host.Ok? && FaithfulAt(c, fuel, ts[1..], base, guards, inherited, via, here, plan.flags, host.value.flags)
  {
    hide WalkTask; hide RunTask; hide Walk; hide Run; hide FaithfulAtTask; hide Opens; hide SameUpTo; hide Everything;
    hide TaskSame;
    var plan := PlannedTask(c, fuel, ts[0], base, inherited, via, here, flags).value;
    SameOnHost(c, iset{}, fuel, ts[0], base, guards, inherited, via, here, flags, local);
    var host := HostedTask(c, fuel, ts[0], base, guards, via, local).value;
    forall e: Env, k: nat | Opens(e, inherited) && k <= |ts[1..]|
      ensures SameUpTo(c, e, fuel, ts[1..], k, base, guards, inherited, via, here, plan.flags, host.flags)
    {
      SameFor(c, e, fuel, ts[0], base, guards, inherited, via, here, flags, local);
      StepUpTo(c, e, fuel, ts, k, base, guards, inherited, via, here, flags, local);
    }
  }

  lemma SameFor(c: Config, e: Env, fuel: nat, t: Task, base: Dir, guards: seq<Cond>, inherited: seq<Cond>,
                via: seq<string>, here: bool, flags: set<string>, local: set<string>)
    requires TaskSame(c, fuel, t, base, guards, inherited, via, here, flags, local) && Opens(e, inherited)
    ensures SameAtTask(c, e, fuel, t, base, guards, inherited, via, here, flags, local)
  {
    hide SameAtTask; hide Opens;
  }

  lemma {:induction false} FaithfulIsCleanAtTask(c: Config, fuel: nat, t: Task, base: Dir, guards: seq<Cond>,
                                                 inherited: seq<Cond>, via: seq<string>, here: bool, flags: set<string>,
                                                 local: set<string>)
    requires Covers(c, inherited, guards) && PlannedTask(c, fuel, t, base, inherited, via, here, flags).Ok?
    requires TaskSame(c, fuel, t, base, guards, inherited, via, here, flags, local)
    requires FaithfulAtTask(c, fuel, t, base, guards, inherited, via, here, flags, local)
    ensures CleanAtTask(c, fuel, t, base, guards, inherited, via, here, flags, local)
    decreases fuel, t, 1
  {
    if t.action.SetFact? {
      FactsAreCleanAt(c, fuel, t, base, guards, inherited, via, here, flags, local);
    } else if IsStep(c, t, base, via) {
      SameOnHost(c, iset{}, fuel, t, base, guards, inherited, via, here, flags, local);
      StepIsCleanAt(c, fuel, t, base, guards, inherited, via, here, flags, local);
    } else {
      CompoundIsCleanAt(c, fuel, t, base, guards, inherited, via, here, flags, local);
    }
  }

  lemma {:induction false} CompoundIsCleanAt(c: Config, fuel: nat, t: Task, base: Dir, guards: seq<Cond>,
                                             inherited: seq<Cond>, via: seq<string>, here: bool, flags: set<string>,
                                             local: set<string>)
    requires !t.action.SetFact? && !IsStep(c, t, base, via)
    requires Covers(c, inherited, guards) && PlannedTask(c, fuel, t, base, inherited, via, here, flags).Ok?
    requires TaskSame(c, fuel, t, base, guards, inherited, via, here, flags, local)
    requires FaithfulAtTask(c, fuel, t, base, guards, inherited, via, here, flags, local)
    ensures CleanAtTask(c, fuel, t, base, guards, inherited, via, here, flags, local)
    decreases fuel, t, 0
  {
    var all := Everything(iset{});
    var kept, conds := here && Kept(c, inherited + t.when, flags).Some?, inherited + OpenOf(c, t.when);
    FaithfulEnters(c, fuel, t, base, guards, inherited, via, here, flags, local);
    CompoundClean(c, fuel, t, base, guards, inherited, via, here, flags, local);
    CompoundWalks(c, fuel, t, base, inherited, via, flags);
    CompoundRuns(c, all, fuel, t, base, guards, via, local);
    hide FaithfulAtTask; hide CleanAtTask; hide WalkTask; hide RunTask; hide IsStep; hide InnerOf; hide Inside;
    hide Covers; hide Kept; hide Fallen; hide CleanAt; hide FaithfulAt; hide Undecided; hide Walk; hide Run; hide Gated;
    hide TaskSame; hide AllTrue; hide Everything; hide KeepsFlags;
    if Gated(c, t.when, inherited) { ClosedSame(c, fuel, t, base, guards, inherited, via, here, flags, local); }
    EverythingHolds(c, iset{}, guards + t.when, local);
    SameOnHost(c, iset{}, fuel, t, base, guards, inherited, via, here, flags, local);
    if kept || !Fallen(c, guards + t.when, local) {
      match InnerOf(c, fuel, t, base, via) {
        case None =>
        case Some(i) =>
          InnerIsSmaller(c, fuel, t, base, via);
          CoversOpen(c, t, inherited, guards);
          CoversInner(c, t, guards, conds, local);
          CoversUndecided(c, inherited, guards);
          if kept { KeptIsOpen(c, inherited, t.when, flags); }
          FaithfulIsCleanAt(c, i.fuel, i.ts, i.base, Inside(c, t, guards, local), conds, i.via, kept, flags, local);
      }
    }
  }

  /** For a play section that has a plan under the carried flags, run on a host that has no flag
      but carried ones: what a caller checks along the way holds exactly when, after every
      prefix and inside everything the plan or the host enters, the plan's taken steps are the
      run's, and the host has the same flags whatever is open, all of them carried. */
  lemma {:induction false} CleanAtIsExact(c: Config, fuel: nat, ts: seq<Task>, base: Dir, via: seq<string>,
                                          flags: set<string>, local: set<string>)
    requires Walk(c, fuel, ts, base, [], via, flags).Ok? && local <= flags
    ensures CleanAt(c, fuel, ts, base, [], [], via, true, flags, local)
       <==> FaithfulAt(c, fuel, ts, base, [], [], via, true, flags, local)
  {
    hide CleanAt; hide FaithfulAt; hide Walk;
    if CleanAt(c, fuel, ts, base, [], [], via, true, flags, local) {
      CleanIsFaithfulAt(c, fuel, ts, base, [], [], via, true, flags, local);
    }
    if FaithfulAt(c, fuel, ts, base, [], [], via, true, flags, local) {
      FaithfulIsCleanAt(c, fuel, ts, base, [], [], via, true, flags, local);
    }
  }

  // A host with the flags the plan carries

  /** Where the host has the flags the plan carries, nothing more is asked than of a run that
      shares the plan's flags. */
  lemma {:induction false} CleanIsCleanAt(c: Config, fuel: nat, ts: seq<Task>, base: Dir, guards: seq<Cond>,
                                          inherited: seq<Cond>, via: seq<string>, flags: set<string>)
    requires Covers(c, inherited, guards) && Walk(c, fuel, ts, base, inherited, via, flags).Ok?
    requires Clean(c, fuel, ts, base, guards, inherited, via, flags)
    ensures CleanAt(c, fuel, ts, base, guards, inherited, via, true, flags, flags)
    decreases fuel, ts, 0
  {
    hide CleanTask; hide CleanAtTask; hide Covers; hide WalkTask; hide RunTask; hide Everything;
    if ts != [] {
      var plan := WalkTask(c, fuel, ts[0], base, inherited, via, flags).value;
      CleanIsCleanAtTask(c, fuel, ts[0], base, guards, inherited, via, flags);
      EverythingHolds(c, iset{}, inherited, flags);
      PlanIsSoundTask(c, Everything(iset{}), fuel, ts[0], base, guards, inherited, via, flags);
      CleanIsCleanAt(c, fuel, ts[1..], base, guards, inherited, via, plan.flags);
    }
  }

  lemma {:induction false} CleanIsCleanAtTask(c: Config, fuel: nat, t: Task, base: Dir, guards: seq<Cond>,
                                              inherited: seq<Cond>, via: seq<string>, flags: set<string>)
    requires Covers(c, inherited, guards) && WalkTask(c, fuel, t, base, inherited, via, flags).Ok?
    requires CleanTask(c, fuel, t, base, guards, inherited, via, flags)
    ensures CleanAtTask(c, fuel, t, base, guards, inherited, via, true, flags, flags)
    decreases fuel, t, 1
  {
    if t.action.SetFact? {
      CleanFactsAreCleanAt(c, fuel, t, base, guards, inherited, via, flags);
    } else if IsStep(c, t, base, via) {
      CleanStepIsRight(c, fuel, t, base, guards, inherited, via, flags);
      StepIsRight(c, fuel, t, base, guards, inherited, via, true, flags, flags);
    } else {
      CleanCompoundIsCleanAt(c, fuel, t, base, guards, inherited, via, flags);
    }
  }

  lemma CleanStepIsRight(c: Config, fuel: nat, t: Task, base: Dir, guards: seq<Cond>, inherited: seq<Cond>,
                         via: seq<string>, flags: set<string>)
    requires IsStep(c, t, base, via) && CleanTask(c, fuel, t, base, guards, inherited, via, flags)
    ensures Kept(c, inherited + t.when, flags).Some? <==> !Fallen(c, guards + t.when, flags)
  {
    hide Kept; hide Fallen; hide Classify; hide Clean;
  }

  lemma {:induction false} CleanFactsAreCleanAt(c: Config, fuel: nat, t: Task, base: Dir, guards: seq<Cond>,
                                                inherited: seq<Cond>, via: seq<string>, flags: set<string>)
    requires t.action.SetFact? && Covers(c, inherited, guards)
    requires CleanTask(c, fuel, t, base, guards, inherited, via, flags)
    ensures CleanAtTask(c, fuel, t, base, guards, inherited, via, true, flags, flags)
  {
    hide Kept; hide Fallen; hide Clean; hide CleanAt; hide Named; hide Covers;
    CoversUndecided(c, inherited, guards);
    if Kept(c, inherited + t.when, flags).Some? {
      KeptIsOpen(c, inherited, t.when, flags);
      OpenOfHolds(c, t.when);
      if Gated(c, t.when, inherited) {
        var k :| 0 <= k < |t.when| && Decide(c, t.when[k], {}).None? && t.when[k] !in inherited;
        assert t.when[k] in OpenOf(c, t.when);
      }
    }
  }

  lemma {:induction false} CleanCompoundIsCleanAt(c: Config, fuel: nat, t: Task, base: Dir, guards: seq<Cond>,
                                                  inherited: seq<Cond>, via: seq<string>, flags: set<string>)
    requires !t.action.SetFact? && !IsStep(c, t, base, via)
    requires Covers(c, inherited, guards) && WalkTask(c, fuel, t, base, inherited, via, flags).Ok?
    requires CleanTask(c, fuel, t, base, guards, inherited, via, flags)
    ensures CleanAtTask(c, fuel, t, base, guards, inherited, via, true, flags, flags)
    decreases fuel, t, 0
  {
    CompoundClean(c, fuel, t, base, guards, inherited, via, true, flags, flags);
    CompoundWalks(c, fuel, t, base, inherited, via, flags);
    CleanEnters(c, fuel, t, base, guards, inherited, via, flags);
    hide CleanAtTask; hide CleanTask; hide WalkTask; hide RunTask; hide IsStep; hide InnerOf; hide Inside; hide Covers;
    hide Kept; hide Fallen; hide CleanAt; hide Clean; hide Undecided; hide Walk; hide Gated; hide Everything;
    var kept, conds := Kept(c, inherited + t.when, flags), inherited + OpenOf(c, t.when);
    CoversUndecided(c, inherited, guards);
    GatedIsQuiet(c, fuel, t, base, guards, inherited, via, flags);
    if kept.Some? {
      var i := InnerOf(c, fuel, t, base, via).value;
      InnerIsSmaller(c, fuel, t, base, via);
      KeptIsOpen(c, inherited, t.when, flags);
      CoversOpen(c, t, inherited, guards);
      CoversInner(c, t, guards, conds, flags);
      CleanIsCleanAt(c, i.fuel, i.ts, i.base, Inside(c, t, guards, flags), conds, i.via, flags);
    }
  }

  lemma CleanEnters(c: Config, fuel: nat, t: Task, base: Dir, guards: seq<Cond>, inherited: seq<Cond>, via: seq<string>,
                    flags: set<string>)
    requires !t.action.SetFact? && !IsStep(c, t, base, via)
    ensures CleanTask(c, fuel, t, base, guards, inherited, via, flags)
       <==> match Kept(c, inherited + t.when, flags)
            case None => Fallen(c, guards + t.when, flags)
            case Some(conds) =>
              match InnerOf(c, fuel, t, base, via)
              case None => true
              case Some(i) => Clean(c, i.fuel, i.ts, i.base, Inside(c, t, guards, flags), conds, i.via, flags)
  {
    hide Kept; hide Fallen; hide Clean; hide Classify;
    PhaseIsStatic(c, t, base, via);
  }

  lemma {:induction false} GatedIsQuiet(c: Config, fuel: nat, t: Task, base: Dir, guards: seq<Cond>,
                                        inherited: seq<Cond>, via: seq<string>, flags: set<string>)
    requires Covers(c, inherited, guards) && WalkTask(c, fuel, t, base, inherited, via, flags).Ok?
    requires !t.action.SetFact? && !IsStep(c, t, base, via)
    requires CleanTask(c, fuel, t, base, guards, inherited, via, flags)
    ensures Gated(c, t.when, inherited) ==> KeepsFlags(HostedTask(c, fuel, t, base, guards, via, flags), flags)
  {
    CleanEnters(c, fuel, t, base, guards, inherited, via, flags);
    hide CleanTask; hide WalkTask; hide RunTask; hide IsStep; hide InnerOf; hide Inside; hide Kept; hide Fallen;
    hide Clean; hide Everything; hide AllTrue; hide Covers;
    var all := Everything(iset{});
    CoversUndecided(c, inherited, guards);
    EverythingHolds(c, iset{}, inherited, flags);
    EverythingHolds(c, iset{}, guards + t.when, flags);
    if Kept(c, inherited + t.when, flags).None? {
      RunsNothing(c, all, fuel, t, base, guards, via, flags);
    } else if Gated(c, t.when, inherited) {
      KeptIsOpen(c, inherited, t.when, flags);
      OpenOfHolds(c, t.when);
      var k :| 0 <= k < |t.when| && Decide(c, t.when[k], {}).None? && t.when[k] !in inherited;
      assert t.when[k] in OpenOf(c, t.when);
      PlanIsSoundTask(c, all, fuel, t, base, guards, inherited, via, flags);
      QuietTask(c, fuel, t, base, guards, inherited, via, flags);
    }
  }
}
