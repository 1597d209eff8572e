/** The plan of a whole playbook against the run of all its plays, each on its own host. */
module PlanSoundness {
  import opened Text
  import opened Paths
  import opened Tasks
  import opened PlanWalk
  import opened WalkFacts
  import opened PartialEvaluation
  import opened Exactness
  import opened Hosts
  import opened HostExactness
  import opened Plan
  import opened Misleading

  /** What a run finds: which plays have their host, by position, and what each host leaves open. */
  datatype World = World(present: iset<nat>, env: string -> Env)

  /** What a run has done: the tasks it executed, and the flags set on each host. */
  datatype Ran = Ran(steps: seq<Step>, facts: map<string, set<string>>)

  function FactsOf(facts: map<string, set<string>>, host: string): set<string> {
    if host in facts then facts[host] else {}
  }

  /** The run of one play after another, each section from nothing, under the facts of the
      play's host. A play whose host is absent is skipped whole. */
  function RunPlays(c: Config, w: World, fuel: nat, plays: seq<Play>, n: nat, base: Dir,
                    facts: map<string, set<string>>): Result<Ran>
    decreases plays
  {
    if plays == [] then Ok(Ran([], facts))
    else if n !in w.present then RunPlays(c, w, fuel, plays[1..], n + 1, base, facts)
    else
      var p := plays[0];
      var local := FactsOf(facts, p.host);
      var play := ForPlay(c, p, local);
      var pre :- Run(play, w.env(p.host), fuel, p.pre, base, [], [], local);
      var main :- Run(play, w.env(p.host), fuel, p.tasks, base, [], [], pre.flags);
      var rest :- RunPlays(c, w, fuel, plays[1..], n + 1, base, facts[p.host := main.flags]);
      Ok(Ran(pre.steps + main.steps + rest.steps, rest.facts))
  }

  // A run tests a play variable when its turn comes, and never looks at its first verdict

  /** Two configurations that differ in the first verdicts on play variables only. */
  predicate SamePlay(c: Config, c': Config) {
    && c' == c.(playVars := c'.playVars) && c'.playVars.Keys == c.playVars.Keys
    && forall n :: n in c.playVars ==> c'.playVars[n].atom == c.playVars[n].atom
  }

  lemma SameVerdicts(c: Config, c': Config, e: Env, conds: seq<Cond>, flags: set<string>)
    requires SamePlay(c, c')
    ensures AllTrue(c', e, conds, flags) == AllTrue(c, e, conds, flags)
  {
    forall k | 0 <= k < |conds| ensures True(c', e, conds[k], flags) == True(c, e, conds[k], flags) {
    }
  }

  lemma SameFiles(c: Config, c': Config, key: IncludeKey, path: string, options: Option<Keywords>, base: Dir,
                  hooked: bool)
    requires SamePlay(c, c')
    ensures Classify(c', key, path, options, base, hooked) == Classify(c, key, path, options, base, hooked)
    ensures forall file, relative {:trigger Stand(c', file, relative)} ::
              Stand(c', file, relative) == Stand(c, file, relative)
    ensures forall file {:trigger Read(c', file)} :: Read(c', file) == Read(c, file)
  {
  }

  lemma {:induction false} SameRun(c: Config, c': Config, e: Env, fuel: nat, ts: seq<Task>, base: Dir,
                                   guards: seq<Cond>, via: seq<string>, flags: set<string>)
    requires SamePlay(c, c')
    ensures Run(c', e, fuel, ts, base, guards, via, flags) == Run(c, e, fuel, ts, base, guards, via, flags)
    decreases fuel, ts, 0
  {
    hide RunTask; hide SamePlay;
    if ts != [] {
      SameRunTask(c, c', e, fuel, ts[0], base, guards, via, flags);
      var first := RunTask(c, e, fuel, ts[0], base, guards, via, flags);
      if first.Ok? { SameRun(c, c', e, fuel, ts[1..], base, guards, via, first.value.flags); }
    }
  }

  lemma {:induction false} SameRunTask(c: Config, c': Config, e: Env, fuel: nat, t: Task, base: Dir, guards: seq<Cond>,
                                       via: seq<string>, flags: set<string>)
    requires SamePlay(c, c')
    ensures RunTask(c', e, fuel, t, base, guards, via, flags) == RunTask(c, e, fuel, t, base, guards, via, flags)
    decreases fuel, t, 1
  {
    hide AllTrue; hide Classify; hide SamePlay; hide Stand; hide Read; hide Leaf;
    SameVerdicts(c, c', e, guards + t.when, flags);
    if t.action.Block? {
      SameRun(c, c', e, fuel, t.action.block, base, guards + t.when, via, flags);
    } else if Includes(t) {
      SameFiles(c, c', t.action.key, t.action.path, t.action.options, base, via != []);
      match Classify(c, t.action.key, t.action.path, t.action.options, base, via != []) {
        case Phase(file) =>
          if fuel > 0 { SameRun(c, c', e, fuel - 1, Read(c, file), Parent(file), guards + t.when, via, flags); }
        case Inlined(file, relative) =>
          if fuel > 0 {
            SameRun(c, c', e, fuel - 1, WithVars(Read(c, file), t.vars), Parent(file), Passed(t, guards),
                    via + [relative], flags);
          }
        case _ =>
      }
    }
  }

  // The playbook

  /** The flags a host has after a section when everything open holds. */
  ghost function HostAfter(c: Config, fuel: nat, ts: seq<Task>, base: Dir, local: set<string>): set<string> {
    var host := Hosted(c, fuel, ts, base, [], [], local);
    if host.Ok? then host.value.flags else local
  }

  ghost function HostAfterPlay(c: Config, fuel: nat, p: Play, base: Dir, local: set<string>): set<string> {
    HostAfter(ForPlay(c, p, local), fuel, p.tasks, base, HostAfter(ForPlay(c, p, local), fuel, p.pre, base, local))
  }

  ghost predicate CleanSection(c: Config, fuel: nat, ts: seq<Task>, base: Dir, flags: set<string>, local: set<string>) {
    CleanAt(c, fuel, ts, base, [], [], [], true, flags, local)
  }

  ghost predicate FaithfulSection(c: Config, fuel: nat, ts: seq<Task>, base: Dir, flags: set<string>,
                                  local: set<string>)
  {
    FaithfulAt(c, fuel, ts, base, [], [], [], true, flags, local)
  }

  /** Both sections, each from where plan and host reach it. */
  ghost predicate CleanPlay(c: Config, fuel: nat, p: Play, base: Dir, flags: set<string>, local: set<string>) {
    var play := ForPlay(c, p, flags);
    && CleanSection(play, fuel, p.pre, base, flags, local)
    && (var pre := Walk(play, fuel, p.pre, base, [], [], flags);
        pre.Ok? ==> CleanSection(play, fuel, p.tasks, base, pre.value.flags, HostAfter(play, fuel, p.pre, base, local)))
  }

  ghost predicate FaithfulPlay(c: Config, fuel: nat, p: Play, base: Dir, flags: set<string>, local: set<string>) {
    var play := ForPlay(c, p, flags);
    && FaithfulSection(play, fuel, p.pre, base, flags, local)
    && (var pre := Walk(play, fuel, p.pre, base, [], [], flags);
        pre.Ok? ==>
          FaithfulSection(play, fuel, p.tasks, base, pre.value.flags, HostAfter(play, fuel, p.pre, base, local)))
  }

  /** What a caller checks along the plays: those whose host is there are clean from the flags
      the plan carries and the flags the host has. */
  ghost predicate CleanPlays(c: Config, present: iset<nat>, fuel: nat, plays: seq<Play>, n: nat, base: Dir,
                             flags: set<string>, facts: map<string, set<string>>)
    decreases plays
  {
    plays != [] ==>
      var p := plays[0];
      var planned := PlanPlay(c, fuel, p, base, flags);
      planned.Ok? ==>
        if n !in present then CleanPlays(c, present, fuel, plays[1..], n + 1, base, planned.value.flags, facts)
        else
          var local := FactsOf(facts, p.host);
          && CleanPlay(c, fuel, p, base, flags, local)
          && CleanPlays(c, present, fuel, plays[1..], n + 1, base, planned.value.flags,
                        facts[p.host := HostAfterPlay(c, fuel, p, base, local)])
  }

  /** For every play whose host is there, after every prefix of its sections, at every depth and
      whatever is open: the plan's taken steps are the run's, and the host has the same flags,
      all of them carried. */
  ghost predicate FaithfulPlays(c: Config, present: iset<nat>, fuel: nat, plays: seq<Play>, n: nat, base: Dir,
                                flags: set<string>, facts: map<string, set<string>>)
    decreases plays
  {
    plays != [] ==>
      var p := plays[0];
      var planned := PlanPlay(c, fuel, p, base, flags);
      planned.Ok? ==>
        if n !in present then FaithfulPlays(c, present, fuel, plays[1..], n + 1, base, planned.value.flags, facts)
        else
          var local := FactsOf(facts, p.host);
          && FaithfulPlay(c, fuel, p, base, flags, local)
          && FaithfulPlays(c, present, fuel, plays[1..], n + 1, base, planned.value.flags,
                           facts[p.host := HostAfterPlay(c, fuel, p, base, local)])
  }

  predicate Carried(facts: map<string, set<string>>, flags: set<string>) {
    forall host :: host in facts ==> facts[host] <= flags
  }

  lemma {:induction false} SectionRuns(c: Config, e: Env, fuel: nat, ts: seq<Task>, base: Dir, flags: set<string>,
                                       local: set<string>)
    requires Walk(c, fuel, ts, base, [], [], flags).Ok? && local <= flags
    requires CleanSection(c, fuel, ts, base, flags, local)
    ensures var plan := Walk(c, fuel, ts, base, [], [], flags).value;
            var after := HostAfter(c, fuel, ts, base, local);
            && after <= plan.flags
            && Run(c, e, fuel, ts, base, [], [], local) == Ok(Out(Taken(e, plan.steps), after))
  {
    hide Walk; hide Run; hide CleanAt; hide Everything;
    SoundAt(c, e, fuel, ts, base, [], [], [], true, flags, local);
  }

  lemma SamePlays(c: Config, p: Play, flags: set<string>, local: set<string>)
    ensures SamePlay(ForPlay(c, p, flags), ForPlay(c, p, local))
  {
  }

  lemma {:induction false} SameHostAfter(c: Config, c': Config, fuel: nat, ts: seq<Task>, base: Dir, local: set<string>)
    requires SamePlay(c, c')
    ensures HostAfter(c', fuel, ts, base, local) == HostAfter(c, fuel, ts, base, local)
  {
    hide Run; hide SamePlay;
    SameRun(c, c', Everything(iset{}), fuel, ts, base, [], [], local);
  }

  /** One play on a host that is there. */
  lemma {:induction false} PlayRuns(c: Config, e: Env, fuel: nat, p: Play, base: Dir, flags: set<string>,
                                    local: set<string>)
    requires PlanPlay(c, fuel, p, base, flags).Ok? && CleanPlay(c, fuel, p, base, flags, local) && local <= flags
    ensures var planned, after := PlanPlay(c, fuel, p, base, flags).value, HostAfterPlay(c, fuel, p, base, local);
            && after <= planned.flags
            && var play := ForPlay(c, p, local);
               var pre := Run(play, e, fuel, p.pre, base, [], [], local);
               && pre.Ok?
               && var main := Run(play, e, fuel, p.tasks, base, [], [], pre.value.flags);
                  && main.Ok? && main.value.flags == after
                  && pre.value.steps + main.value.steps == Taken(e, planned.segments[0].steps)
  {
    hide Walk; hide Run; hide CleanSection; hide Taken; hide ForPlay; hide HostAfter; hide SamePlay;
    var play, there := ForPlay(c, p, flags), ForPlay(c, p, local);
    SamePlays(c, p, flags, local);
    var pre := Walk(play, fuel, p.pre, base, [], [], flags).value;
    SectionRuns(play, e, fuel, p.pre, base, flags, local);
    var mid := HostAfter(play, fuel, p.pre, base, local);
    var main := Walk(play, fuel, p.tasks, base, [], [], pre.flags).value;
    SectionRuns(play, e, fuel, p.tasks, base, pre.flags, mid);
    SameRun(play, there, e, fuel, p.pre, base, [], [], local);
    SameRun(play, there, e, fuel, p.tasks, base, [], [], mid);
    SameHostAfter(play, there, fuel, p.pre, base, local);
    SameHostAfter(play, there, fuel, p.tasks, base, mid);
    TakenAppend(e, pre.steps, main.steps);
  }

  /** The steps of a full plan that are taken: of the plays whose host is there, those whose
      remaining conditions hold on that host. */
  function TakenPlays(w: World, plays: seq<Play>, segments: seq<Segment>, n: nat): seq<Step>
    requires |plays| == |segments|
    decreases plays
  {
    if plays == [] then []
    else
      (if n in w.present then Taken(w.env(plays[0].host), segments[0].steps) else [])
      + TakenPlays(w, plays[1..], segments[1..], n + 1)
  }

  /** Whatever the hosts leave open and whichever plays have a host, the steps of the full plan
      that are taken are, in order, exactly the tasks the run of all plays executes; and no host
      has a flag that the plan does not carry. */
  lemma {:induction false} PlaybookPlanIsSound(c: Config, w: World, fuel: nat, plays: seq<Play>, n: nat, base: Dir,
                                               flags: set<string>, facts: map<string, set<string>>)
    requires PlanPlays(c, fuel, plays, base, flags).Ok? && Carried(facts, flags)
    requires CleanPlays(c, w.present, fuel, plays, n, base, flags, facts)
    ensures |PlanPlays(c, fuel, plays, base, flags).value.segments| == |plays|
    ensures var plan := PlanPlays(c, fuel, plays, base, flags).value;
            var run := RunPlays(c, w, fuel, plays, n, base, facts);
            run.Ok? && run.value.steps == TakenPlays(w, plays, plan.segments, n) && Carried(run.value.facts, plan.flags)
    decreases plays
  {
    hide Walk; hide Run; hide CleanPlay; hide ForPlay; hide Taken; hide HostAfterPlay;
    SegmentPerPlay(c, fuel, plays, base, flags);
    if plays != [] {
      var p, rest := plays[0], plays[1..];
      PlayGrows(c, fuel, p, base, flags);
      var planned := PlanPlay(c, fuel, p, base, flags).value;
      SegmentPerPlay(c, fuel, rest, base, planned.flags);
      var segments := PlanPlays(c, fuel, plays, base, flags).value.segments;
      assert segments[0] == planned.segments[0];
      assert segments[1..] == PlanPlays(c, fuel, rest, base, planned.flags).value.segments;
      if n in w.present {
        var local := FactsOf(facts, p.host);
        PlayRuns(c, w.env(p.host), fuel, p, base, flags, local);
        var after := facts[p.host := HostAfterPlay(c, fuel, p, base, local)];
        PlaybookPlanIsSound(c, w, fuel, rest, n + 1, base, planned.flags, after);
      } else {
        PlaybookPlanIsSound(c, w, fuel, rest, n + 1, base, planned.flags, facts);
      }
    }
  }

  lemma {:induction false} PlayIsExact(c: Config, fuel: nat, p: Play, base: Dir, flags: set<string>, local: set<string>)
    requires PlanPlay(c, fuel, p, base, flags).Ok? && local <= flags
    ensures CleanPlay(c, fuel, p, base, flags, local) <==> FaithfulPlay(c, fuel, p, base, flags, local)
  {
    hide Walk; hide CleanAt; hide FaithfulAt; hide ForPlay; hide HostAfter;
    var play := ForPlay(c, p, flags);
    var pre := Walk(play, fuel, p.pre, base, [], [], flags).value;
    CleanAtIsExact(play, fuel, p.pre, base, [], flags, local);
    if CleanSection(play, fuel, p.pre, base, flags, local) {
      SectionRuns(play, Everything(iset{}), fuel, p.pre, base, flags, local);
      CleanAtIsExact(play, fuel, p.tasks, base, [], pre.flags, HostAfter(play, fuel, p.pre, base, local));
    }
  }

  /** For a whole playbook, what a caller checks along the plays holds exactly when plan and run
      agree in every play whose host is there, after every prefix and at every depth. */
  lemma {:induction false} PlaybookIsExact(c: Config, present: iset<nat>, fuel: nat, plays: seq<Play>, n: nat,
                                           base: Dir, flags: set<string>, facts: map<string, set<string>>)
    requires PlanPlays(c, fuel, plays, base, flags).Ok? && Carried(facts, flags)
    ensures CleanPlays(c, present, fuel, plays, n, base, flags, facts)
       <==> FaithfulPlays(c, present, fuel, plays, n, base, flags, facts)
    decreases plays
  {
    hide Walk; hide Run; hide CleanPlay; hide FaithfulPlay; hide ForPlay; hide HostAfterPlay;
    if plays != [] {
      var p, rest := plays[0], plays[1..];
      PlayGrows(c, fuel, p, base, flags);
      var planned := PlanPlay(c, fuel, p, base, flags).value;
      if n in present {
        var local := FactsOf(facts, p.host);
        PlayIsExact(c, fuel, p, base, flags, local);
        if CleanPlay(c, fuel, p, base, flags, local) {
          PlayRuns(c, Everything(iset{}), fuel, p, base, flags, local);
          var after := facts[p.host := HostAfterPlay(c, fuel, p, base, local)];
          PlaybookIsExact(c, present, fuel, rest, n + 1, base, planned.flags, after);
        }
      } else {
        PlaybookIsExact(c, present, fuel, rest, n + 1, base, planned.flags, facts);
      }
    }
  }

  lemma {:induction false} PlayGrows(c: Config, fuel: nat, p: Play, base: Dir, flags: set<string>)
    requires PlanPlay(c, fuel, p, base, flags).Ok?
    ensures flags <= PlanPlay(c, fuel, p, base, flags).value.flags
    ensures |PlanPlay(c, fuel, p, base, flags).value.segments| == 1
  {
    hide Walk;
    var play := ForPlay(c, p, flags);
    var pre := Walk(play, fuel, p.pre, base, [], [], flags).value;
    FlagsGrow(play, fuel, p.pre, base, [], [], flags);
    FlagsGrow(play, fuel, p.tasks, base, [], [], pre.flags);
  }

  // A flag that another host declared

  const READING: Task := Acting([Identity(Flag(BACKEND), false)])

  function DeclaringPlay(path: string): Play { Play("a", "localhost", map[], [], [Including(path)], []) }

  const READING_PLAY: Play := Play("b", "guest", map[], [], [READING], [])

  /** A flag declared on one host misleads the plan of a play on another: the plan keeps the
      step that reads it, the run skips it. So it is for every configuration that inlines the
      declaring hook. */
  lemma {:induction false} OtherHostMisleads(c: Config, w: World, path: string, file: Dir, relative: string)
    requires c.playVars == map[] && 0 in w.present && 1 in w.present
    requires Classify(c, FqInclude, path, None, [], false) == Inlined(file, relative)
    requires Read(c, file) == [Declaring([])]
    ensures var plays := [DeclaringPlay(path), READING_PLAY];
            var plan, run := PlanPlays(c, 1, plays, [], {}), RunPlays(c, w, 1, plays, 0, [], map[]);
            && plan.Ok? && |plan.value.segments| == 2 && plan.value.segments[0].steps == []
            && |plan.value.segments[1].steps| == 1 && plan.value.segments[1].steps[0].when == []
            && run == Ok(Ran([], map["localhost" := {BACKEND}, "guest" := {}]))
            && !CleanPlays(c, w.present, 1, plays, 0, [], {}, map[])
  {
    hide Classify; hide Walk; hide Run; hide CleanPlays;
    var plays := [DeclaringPlay(path), READING_PLAY];
    DeclaringPlans(c, w.env("localhost"), path, file, relative);
    ReadingPlans(c, w.env("guest"));
    OtherHostPlan(c, path);
    OtherHostRun(c, w, path);
    var segments := PlanPlays(c, 1, plays, [], {}).value.segments;
    TakenOne(w.env("guest"));
    assert segments[1].steps == [segments[1].steps[0]];
    assert plays[1..] == [READING_PLAY] && segments[1..] == [segments[1]];
    assert TakenPlays(w, [READING_PLAY], [segments[1]], 1) != [];
    if CleanPlays(c, w.present, 1, plays, 0, [], {}, map[]) {
      PlaybookPlanIsSound(c, w, 1, plays, 0, [], {}, map[]);
    }
  }

  lemma {:induction false} OtherHostPlan(c: Config, path: string)
    requires ForPlay(c, DeclaringPlay(path), {}) == c == ForPlay(c, READING_PLAY, {BACKEND})
    requires Walk(c, 1, [], [], [], [], {}) == Ok(Out([], {}))
    requires Walk(c, 1, [Including(path)], [], [], [], {}) == Ok(Out([], {BACKEND}))
    requires Walk(c, 1, [], [], [], [], {BACKEND}) == Ok(Out([], {BACKEND}))
    requires Walk(c, 1, [READING], [], [], [], {BACKEND}).Ok?
    ensures var plan := PlanPlays(c, 1, [DeclaringPlay(path), READING_PLAY], [], {});
            && plan.Ok? && |plan.value.segments| == 2 && plan.value.segments[0].steps == []
            && plan.value.segments[1].steps == Walk(c, 1, [READING], [], [], [], {BACKEND}).value.steps
  {
    hide Walk; hide ForPlay;
    var first, second := DeclaringPlay(path), READING_PLAY;
    assert [first, second][1..] == [second] && [second][1..] == [];
    var none: seq<Step> := [];
    assert none + none == none;
    var steps := Walk(c, 1, [READING], [], [], [], {BACKEND}).value.steps;
    assert none + steps == steps;
    assert PlanPlay(c, 1, first, [], {}).value.segments[0].steps == [];
    var planned := PlanPlay(c, 1, second, [], {BACKEND});
    assert planned.Ok? && PlanPlays(c, 1, [second][1..], [], planned.value.flags).Ok?;
    assert planned.Ok? && |planned.value.segments| == 1 && planned.value.segments[0].steps == steps;
    assert PlanPlays(c, 1, [second], [], {BACKEND}).value.segments == planned.value.segments;
  }

  lemma {:induction false} OtherHostRun(c: Config, w: World, path: string)
    requires ForPlay(c, DeclaringPlay(path), {}) == c == ForPlay(c, READING_PLAY, {})
    requires 0 in w.present && 1 in w.present
    requires var e := w.env("localhost");
             && Run(c, e, 1, [], [], [], [], {}) == Ok(Out([], {}))
             && Run(c, e, 1, [Including(path)], [], [], [], {}) == Ok(Out([], {BACKEND}))
    requires var e := w.env("guest");
             && Run(c, e, 1, [], [], [], [], {}) == Ok(Out([], {})) == Run(c, e, 1, [READING], [], [], [], {})
    ensures RunPlays(c, w, 1, [DeclaringPlay(path), READING_PLAY], 0, [], map[])
         == Ok(Ran([], map["localhost" := {BACKEND}, "guest" := {}]))
  {
    hide Run; hide ForPlay;
    var first, second := DeclaringPlay(path), READING_PLAY;
    assert [first, second][1..] == [second] && [second][1..] == [];
    var none: seq<Step> := [];
    assert none + none == none;
    var after: map<string, set<string>> := map["localhost" := {BACKEND}];
    assert "localhost" != "guest";
    assert FactsOf(after, "guest") == {} && FactsOf(map[], "localhost") == {};
    assert RunPlays(c, w, 1, [second], 1, [], after) == Ok(Ran([], after["guest" := {}]));
  }

  lemma PlayWithoutVars(c: Config, p: Play, flags: set<string>)
    requires c.playVars == map[] && p.vars == map[]
    ensures ForPlay(c, p, flags) == c
  {
    assert KnownVars(c, p.vars, flags) == map[];
  }

  lemma {:induction false} DeclaringPlans(c: Config, e: Env, path: string, file: Dir, relative: string)
    requires c.playVars == map[]
    requires Classify(c, FqInclude, path, None, [], false) == Inlined(file, relative)
    requires Read(c, file) == [Declaring([])]
    ensures ForPlay(c, DeclaringPlay(path), {}) == c
    ensures Walk(c, 1, [], [], [], [], {}) == Ok(Out([], {})) == Run(c, e, 1, [], [], [], [], {})
    ensures var ts := [Including(path)];
            Walk(c, 1, ts, [], [], [], {}) == Ok(Out([], {BACKEND})) == Run(c, e, 1, ts, [], [], [], {})
  {
    hide Classify;
    PlayWithoutVars(c, DeclaringPlay(path), {});
    var declare, hook := Declaring([]), Including(path);
    var names := TrueNames(declare.action.facts);
    assert BACKEND in names && {} + names == names == {BACKEND};
    assert Assigned(e, declare.action.facts, {}) == {BACKEND};
    var none: seq<Cond> := [];
    assert none + none == none && Kept(c, none, {}) == Some([]);
    NoVars([declare]);
    assert [] + [relative] == [relative];
    WalkOne(c, 0, declare, Parent(file), [], [relative], {});
    RunOne(c, e, 0, declare, Parent(file), [], [relative], {});
    WalkOne(c, 1, hook, [], [], [], {});
    RunOne(c, e, 1, hook, [], [], [], {});
  }

  lemma {:induction false} ReadingPlans(c: Config, e: Env)
    requires c.playVars == map[]
    ensures ForPlay(c, READING_PLAY, {BACKEND}) == c == ForPlay(c, READING_PLAY, {})
    ensures Walk(c, 1, [], [], [], [], {BACKEND}) == Ok(Out([], {BACKEND}))
    ensures Run(c, e, 1, [], [], [], [], {}) == Ok(Out([], {}))
    ensures var plan := Walk(c, 1, [READING], [], [], [], {BACKEND});
            plan.Ok? && |plan.value.steps| == 1 && plan.value.steps[0].when == []
    ensures Run(c, e, 1, [READING], [], [], [], {}) == Ok(Out([], {}))
  {
    PlayWithoutVars(c, READING_PLAY, {BACKEND});
    PlayWithoutVars(c, READING_PLAY, {});
    assert [] + READING.when == READING.when;
    KeptOne(c, READING.when[0], {BACKEND});
    WalkOne(c, 1, READING, [], [], [], {BACKEND});
    assert !True(c, e, READING.when[0], {});
    RunOne(c, e, 1, READING, [], [], [], {});
  }
}
