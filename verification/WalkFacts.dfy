/** What every walk keeps: its conditions, its flags, and the files it names. */
module WalkFacts {
  import opened Text
  import opened Paths
  import opened Tasks
  import opened PlanWalk

  // Conditions

  /** Whether a condition is decided never depends on the flags, only its verdict does. */
  predicate Undecided(c: Config, conds: seq<Cond>) {
    forall k :: 0 <= k < |conds| ==> Decide(c, conds[k], {}).None?
  }

  lemma {:induction false} KeptIsUndecided(c: Config, conds: seq<Cond>, flags: set<string>)
    ensures Kept(c, conds, flags).Some? ==> Undecided(c, Kept(c, conds, flags).value)
  {
    if conds != [] { KeptIsUndecided(c, conds[1..], flags); }
  }

  lemma {:induction false} KeptOne(c: Config, cond: Cond, flags: set<string>)
    ensures Kept(c, [cond], flags) == match Decide(c, cond, flags)
                                      case None => Some([cond])
                                      case Some(b) => if b then Some([]) else None
  {
    assert [cond][1..] == [] && Kept(c, [], flags) == Some([]);
    assert [cond] + [] == [cond];
  }

  lemma {:induction false} KeptAfter(c: Config, inherited: seq<Cond>, when: seq<Cond>, flags: set<string>)
    requires Undecided(c, inherited)
    ensures Kept(c, inherited + when, flags)
         == if Kept(c, when, flags).None? then None else Some(inherited + Kept(c, when, flags).value)
  {
    if inherited == [] {
      assert inherited + when == when;
      if Kept(c, when, flags).Some? { assert inherited + Kept(c, when, flags).value == Kept(c, when, flags).value; }
    } else {
      assert (inherited + when)[1..] == inherited[1..] + when;
      KeptAfter(c, inherited[1..], when, flags);
      assert Decide(c, inherited[0], {}).None?;
      if Kept(c, when, flags).Some? {
        var k := Kept(c, when, flags).value;
        assert [inherited[0]] + (inherited[1..] + k) == inherited + k;
      }
    }
  }

  // Running one list after another

  lemma {:induction false} WalkAppend(c: Config, fuel: nat, xs: seq<Task>, ys: seq<Task>, base: Dir,
                                      inherited: seq<Cond>, via: seq<string>, flags: set<string>)
    ensures var first := Walk(c, fuel, xs, base, inherited, via, flags);
            Walk(c, fuel, xs + ys, base, inherited, via, flags)
            == if first.Failure? then Failure
               else Onto(first.value.steps, Walk(c, fuel, ys, base, inherited, via, first.value.flags))
  {
    hide WalkTask;
    if xs == [] {
      assert xs + ys == ys;
      var r := Walk(c, fuel, ys, base, inherited, via, flags);
      if r.Ok? { assert [] + r.value.steps == r.value.steps; }
    } else {
      assert (xs + ys)[0] == xs[0] && (xs + ys)[1..] == xs[1..] + ys;
      var head := WalkTask(c, fuel, xs[0], base, inherited, via, flags);
      if head.Ok? {
        WalkAppend(c, fuel, xs[1..], ys, base, inherited, via, head.value.flags);
        var mid := Walk(c, fuel, xs[1..], base, inherited, via, head.value.flags);
        if mid.Ok? {
          var last := Walk(c, fuel, ys, base, inherited, via, mid.value.flags);
          if last.Ok? {
            assert head.value.steps + (mid.value.steps + last.value.steps)
                == (head.value.steps + mid.value.steps) + last.value.steps;
          }
        }
      }
    }
  }

  lemma {:induction false} WalkOne(c: Config, fuel: nat, t: Task, base: Dir, inherited: seq<Cond>, via: seq<string>,
                                   flags: set<string>)
    ensures Walk(c, fuel, [t], base, inherited, via, flags) == WalkTask(c, fuel, t, base, inherited, via, flags)
  {
    var r := WalkTask(c, fuel, t, base, inherited, via, flags);
    assert [t][1..] == [];
    if r.Ok? { assert r.value.steps + [] == r.value.steps; }
  }

  /** An include without variables changes nothing about tasks without any. */
  lemma {:induction false} NoVars(ts: seq<Task>)
    requires forall k :: 0 <= k < |ts| ==> ts[k].vars == map[]
    ensures WithVars(ts, map[]) == ts
  {
    if ts != [] {
      var nothing: Keywords := map[];
      assert nothing + nothing == nothing;
      NoVars(ts[1..]);
    }
  }

  // Fuel

  /** A plan that is found does not depend on how deep the files were allowed to nest. */
  lemma {:induction false} MoreFuel(c: Config, fuel: nat, more: nat, ts: seq<Task>, base: Dir, inherited: seq<Cond>,
                                    via: seq<string>, flags: set<string>)
    requires fuel <= more && Walk(c, fuel, ts, base, inherited, via, flags).Ok?
    ensures Walk(c, more, ts, base, inherited, via, flags) == Walk(c, fuel, ts, base, inherited, via, flags)
    decreases fuel, ts, 0
  {
    hide WalkTask;
    if ts != [] {
      var first := WalkTask(c, fuel, ts[0], base, inherited, via, flags);
      MoreFuelTask(c, fuel, more, ts[0], base, inherited, via, flags);
      MoreFuel(c, fuel, more, ts[1..], base, inherited, via, first.value.flags);
    }
  }

  lemma {:induction false} MoreFuelTask(c: Config, fuel: nat, more: nat, t: Task, base: Dir, inherited: seq<Cond>,
                                        via: seq<string>, flags: set<string>)
    requires fuel <= more && WalkTask(c, fuel, t, base, inherited, via, flags).Ok?
    ensures WalkTask(c, more, t, base, inherited, via, flags) == WalkTask(c, fuel, t, base, inherited, via, flags)
    decreases fuel, t, 1
  {
    hide Classify;
    var kept := Kept(c, inherited + t.when, flags);
    if kept.Some? {
      if t.action.Block? {
        MoreFuel(c, fuel, more, t.action.block, base, kept.value, via, flags);
      } else if !Declares(t, via) && Includes(t) {
        match Classify(c, t.action.key, t.action.path, t.action.options, base, via != []) {
          case Phase(file) =>
            MoreFuel(c, fuel - 1, more - 1, Read(c, file), Parent(file), kept.value, via, flags);
          case Inlined(file, relative) =>
            MoreFuel(c, fuel - 1, more - 1, WithVars(Read(c, file), t.vars), Parent(file), kept.value,
                     via + [relative], flags);
          case _ =>
        }
      }
    }
  }

  // Inherited conditions

  function Under(conds: seq<Cond>, steps: seq<Step>): (under: seq<Step>)
    ensures |under| == |steps| && forall k :: 0 <= k < |steps| ==> under[k] == steps[k].(when := conds + steps[k].when)
  {
    if steps == [] then [] else [steps[0].(when := conds + steps[0].when)] + Under(conds, steps[1..])
  }

  ghost function UnderAll(conds: seq<Cond>, r: Result<Out>): Result<Out> {
    if r.Failure? then Failure else Ok(Out(Under(conds, r.value.steps), r.value.flags))
  }

  lemma {:induction false} UnderTwice(outer: seq<Cond>, inner: seq<Cond>, r: Result<Out>)
    ensures UnderAll(outer, UnderAll(inner, r)) == UnderAll(outer + inner, r)
  {
    if r.Ok? {
      var s := r.value.steps;
      forall k | 0 <= k < |s| ensures Under(outer, Under(inner, s))[k] == Under(outer + inner, s)[k] {
        assert outer + (inner + s[k].when) == (outer + inner) + s[k].when;
      }
      assert Under(outer, Under(inner, s)) == Under(outer + inner, s);
    }
  }

  /** The conditions a list inherits are exactly a prefix of every step's own: they change no
      step, no order and no flag. */
  lemma {:induction false} InheritedIsPrefix(c: Config, fuel: nat, ts: seq<Task>, base: Dir, inherited: seq<Cond>,
                                             via: seq<string>, flags: set<string>)
    requires Undecided(c, inherited)
    ensures Walk(c, fuel, ts, base, inherited, via, flags)
         == UnderAll(inherited, Walk(c, fuel, ts, base, [], via, flags))
    decreases fuel, ts, 0
  {
    hide WalkTask;
    if ts != [] {
      InheritedIsTaskPrefix(c, fuel, ts[0], base, inherited, via, flags);
      var first := WalkTask(c, fuel, ts[0], base, [], via, flags);
      if first.Ok? {
        InheritedIsPrefix(c, fuel, ts[1..], base, inherited, via, first.value.flags);
        var rest := Walk(c, fuel, ts[1..], base, [], via, first.value.flags);
        if rest.Ok? {
          assert Under(inherited, first.value.steps + rest.value.steps)
              == Under(inherited, first.value.steps) + Under(inherited, rest.value.steps);
        }
      }
    }
  }

  lemma {:induction false} InheritedIsTaskPrefix(c: Config, fuel: nat, t: Task, base: Dir, inherited: seq<Cond>,
                                                 via: seq<string>, flags: set<string>)
    requires Undecided(c, inherited)
    ensures WalkTask(c, fuel, t, base, inherited, via, flags)
         == UnderAll(inherited, WalkTask(c, fuel, t, base, [], via, flags))
    decreases fuel, t, 1
  {
    hide Classify;
    KeptAfter(c, inherited, t.when, flags);
    assert [] + t.when == t.when;
    var kept := Kept(c, t.when, flags);
    if kept.Some? {
      KeptIsUndecided(c, t.when, flags);
      var own := kept.value;
      assert Undecided(c, inherited + own);
      if t.action.Block? {
        InheritedTwice(c, fuel, t.action.block, base, inherited, own, via, flags);
      } else if !Declares(t, via) && Includes(t) {
        match Classify(c, t.action.key, t.action.path, t.action.options, base, via != []) {
          case Phase(file) =>
            if fuel > 0 { InheritedTwice(c, fuel - 1, Read(c, file), Parent(file), inherited, own, via, flags); }
          case Inlined(file, relative) =>
            if fuel > 0 {
              InheritedTwice(c, fuel - 1, WithVars(Read(c, file), t.vars), Parent(file), inherited, own,
                             via + [relative], flags);
            }
          case _ => UnderLeaf(inherited);
        }
      } else if !Declares(t, via) {
        UnderLeaf(inherited);
      }
    }
  }

  lemma UnderLeaf(inherited: seq<Cond>)
    ensures forall s: Step {:trigger Under(inherited, [s])} :: Under(inherited, [s]) == [s.(when := inherited + s.when)]
  {
  }

  lemma {:induction false} InheritedTwice(c: Config, fuel: nat, ts: seq<Task>, base: Dir, inherited: seq<Cond>,
                                          own: seq<Cond>, via: seq<string>, flags: set<string>)
    requires Undecided(c, inherited) && Undecided(c, own)
    ensures Walk(c, fuel, ts, base, inherited + own, via, flags)
         == UnderAll(inherited, Walk(c, fuel, ts, base, own, via, flags))
    decreases fuel, ts, 1
  {
    InheritedIsPrefix(c, fuel, ts, base, inherited + own, via, flags);
    InheritedIsPrefix(c, fuel, ts, base, own, via, flags);
    UnderTwice(inherited, own, Walk(c, fuel, ts, base, [], via, flags));
  }

  // Flags

  /** The flags the step's texts mention. */
  function NamedBy(s: Step): set<string> { Named(s.arguments, s.vars, s.control) }

  predicate ReadBetween(s: Step, low: set<string>, high: set<string>) {
    low * NamedBy(s) <= s.known <= high * NamedBy(s)
  }

  /** Flags only ever grow, by declared flags only, and every step is read under flags between
      those at the start and those at the end, as far as it mentions them. */
  lemma {:induction false} FlagsGrow(c: Config, fuel: nat, ts: seq<Task>, base: Dir, inherited: seq<Cond>,
                                     via: seq<string>, flags: set<string>)
    requires Walk(c, fuel, ts, base, inherited, via, flags).Ok?
    ensures var out := Walk(c, fuel, ts, base, inherited, via, flags).value;
            && flags <= out.flags <= flags + FLAGS
            && forall k :: 0 <= k < |out.steps| ==> ReadBetween(out.steps[k], flags, out.flags)
    decreases fuel, ts, 0
  {
    hide WalkTask;
    if ts != [] {
      FlagsGrowTask(c, fuel, ts[0], base, inherited, via, flags);
      var first := WalkTask(c, fuel, ts[0], base, inherited, via, flags).value;
      FlagsGrow(c, fuel, ts[1..], base, inherited, via, first.flags);
    }
  }

  lemma {:induction false} FlagsGrowTask(c: Config, fuel: nat, t: Task, base: Dir, inherited: seq<Cond>,
                                         via: seq<string>, flags: set<string>)
    requires WalkTask(c, fuel, t, base, inherited, via, flags).Ok?
    ensures var out := WalkTask(c, fuel, t, base, inherited, via, flags).value;
            && flags <= out.flags <= flags + FLAGS
            && forall k :: 0 <= k < |out.steps| ==> ReadBetween(out.steps[k], flags, out.flags)
    decreases fuel, t, 1
  {
    hide Classify;
    var kept := Kept(c, inherited + t.when, flags);
    if kept.Some? {
      if t.action.Block? {
        FlagsGrow(c, fuel, t.action.block, base, kept.value, via, flags);
      } else if Declares(t, via) {
        assert TrueNames(t.action.facts) <= FLAGS;
      } else if Includes(t) {
        match Classify(c, t.action.key, t.action.path, t.action.options, base, via != []) {
          case Phase(file) =>
            FlagsGrow(c, fuel - 1, Read(c, file), Parent(file), kept.value, via, flags);
          case Inlined(file, relative) =>
            FlagsGrow(c, fuel - 1, WithVars(Read(c, file), t.vars), Parent(file), kept.value, via + [relative], flags);
          case _ =>
        }
      }
    }
  }

  // Provenance

  /** The step is this task's, with this module and these arguments; its conditions and flags
      depend on where the walk stood. */
  predicate Yields(t: Task, mod: string, arguments: Arguments, s: Step) {
    s.name == t.name && s.mod == mod && s.arguments == arguments && s.vars == t.vars && s.control == t.control
  }

  /** The step comes from a task reached by inlining exactly the files of `trace`, in that
      order; blocks and phase files are passed through without a trace. Neither conditions
      nor flags play a part. */
  ghost predicate Reached(c: Config, fuel: nat, ts: seq<Task>, base: Dir, hooked: bool, trace: seq<string>, s: Step)
    decreases fuel, ts, 0
  {
    ts != [] &&
    (ReachedTask(c, fuel, ts[0], base, hooked, trace, s) || Reached(c, fuel, ts[1..], base, hooked, trace, s))
  }

  ghost predicate ReachedTask(c: Config, fuel: nat, t: Task, base: Dir, hooked: bool, trace: seq<string>, s: Step)
    decreases fuel, t, 1
  {
    if t.action.Block? then Reached(c, fuel, t.action.block, base, hooked, trace, s)
    else if !Includes(t) then trace == [] && Yields(t, OwnModule(t.action), OwnArguments(t.action), s)
    else
      match Classify(c, t.action.key, t.action.path, t.action.options, base, hooked)
      case Phase(file) => fuel > 0 && Reached(c, fuel - 1, Read(c, file), Parent(file), hooked, trace, s)
      case Inlined(file, relative) =>
        fuel > 0 && trace != [] && trace[0] == relative
        && Reached(c, fuel - 1, WithVars(Read(c, file), t.vars), Parent(file), true, trace[1..], s)
      case TemplatedPath(text) => trace == [] && Yields(t, "include_tasks", Path(text), s)
      case Stays(file, relative) => trace == [] && Yields(t, "include_tasks", Stand(c, file, relative), s)
      case Unreadable => false
  }

  ghost predicate Traced(c: Config, via: seq<string>, s: Step) { via <= s.via && Undecided(c, s.when) }

  /** Provenance is exact: a step's `via` is the list it started with followed by the files
      inlined on the way to its task, and its conditions are all undecided ones. */
  lemma {:induction false} StepsAreTraced(c: Config, fuel: nat, ts: seq<Task>, base: Dir, inherited: seq<Cond>,
                                          via: seq<string>, flags: set<string>, s: Step)
    requires Walk(c, fuel, ts, base, inherited, via, flags).Ok?
    requires s in Walk(c, fuel, ts, base, inherited, via, flags).value.steps
    ensures Traced(c, via, s) && Reached(c, fuel, ts, base, via != [], s.via[|via|..], s)
    decreases fuel, ts, 0
  {
    hide WalkTask;
    var first := WalkTask(c, fuel, ts[0], base, inherited, via, flags).value;
    if s in first.steps {
      StepsAreTracedTask(c, fuel, ts[0], base, inherited, via, flags, s);
    } else {
      StepsAreTraced(c, fuel, ts[1..], base, inherited, via, first.flags, s);
    }
  }

  lemma {:induction false} StepsAreTracedTask(c: Config, fuel: nat, t: Task, base: Dir, inherited: seq<Cond>,
                                              via: seq<string>, flags: set<string>, s: Step)
    requires WalkTask(c, fuel, t, base, inherited, via, flags).Ok?
    requires s in WalkTask(c, fuel, t, base, inherited, via, flags).value.steps
    ensures Traced(c, via, s) && ReachedTask(c, fuel, t, base, via != [], s.via[|via|..], s)
    decreases fuel, t, 1
  {
    hide Classify; hide Undecided; hide Kept; hide Reached; hide Walk;
    KeptIsUndecided(c, inherited + t.when, flags);
    var conds := Kept(c, inherited + t.when, flags).value;
    if t.action.Block? {
      StepsAreTraced(c, fuel, t.action.block, base, conds, via, flags, s);
    } else if Includes(t) {
      match Classify(c, t.action.key, t.action.path, t.action.options, base, via != []) {
        case Phase(file) =>
          StepsAreTraced(c, fuel - 1, Read(c, file), Parent(file), conds, via, flags, s);
        case Inlined(file, relative) =>
          StepsAreTraced(c, fuel - 1, WithVars(Read(c, file), t.vars), Parent(file), conds, via + [relative], flags, s);
          assert s.via[|via|] == relative && s.via[|via|..][1..] == s.via[|via| + 1..];
        case _ =>
      }
    }
  }
}
