/** `remove_plan.plan_all`: the plan of a whole playbook, whose plays share one flag set. */
module Plan {
  import opened Text
  import opened Paths
  import opened Tasks
  import opened PlanWalk
  import opened WalkFacts
  import opened PhaseSplit

  /** A play variable that is one identity comparison, or any other value. */
  datatype PlayValue = AtomValue(atom: Atom) | OtherValue(value: Value)

  datatype Play = Play(name: string, host: string, vars: map<string, PlayValue>, pre: seq<Task>, tasks: seq<Task>,
                       post: seq<Task>)

  /** An entry of the plan: a play's header, its variables read under the flags in `known`, or a step. */
  datatype Entry = Header(play: string, vars: map<string, PlayValue>, known: set<string>) | Of(step: Step)

  /** What one play contributes. */
  datatype Segment = Segment(header: Entry, steps: seq<Step>)

  datatype Planned = Planned(segments: seq<Segment>, flags: set<string>)

  /** The play variables that are decided before the play's tasks are walked. */
  function KnownVars(c: Config, vars: map<string, PlayValue>, flags: set<string>): map<string, Known> {
    map n | n in vars && vars[n].AtomValue? && (vars[n].atom.Flag? ==> vars[n].atom.flag in FLAGS)
      :: Known(vars[n].atom, Holds(c, vars[n].atom, flags))
  }

  function ForPlay(c: Config, p: Play, flags: set<string>): Config { c.(playVars := KnownVars(c, p.vars, flags)) }

  function PlanPlay(c: Config, fuel: nat, p: Play, base: Dir, flags: set<string>): Result<Planned> {
    var pre :- Walk(ForPlay(c, p, flags), fuel, p.pre, base, [], [], flags);
    var main :- Walk(ForPlay(c, p, flags), fuel, p.tasks, base, [], [], pre.flags);
    Ok(Planned([Segment(Header(p.name, p.vars, main.flags), pre.steps + main.steps)], main.flags))
  }

  function PlanPlays(c: Config, fuel: nat, plays: seq<Play>, base: Dir, flags: set<string>): Result<Planned> {
    if plays == [] then Ok(Planned([], flags))
    else
      var first :- PlanPlay(c, fuel, plays[0], base, flags);
      var rest :- PlanPlays(c, fuel, plays[1..], base, first.flags);
      Ok(Planned(first.segments + rest.segments, rest.flags))
  }

  function Entries(steps: seq<Step>): (entries: seq<Entry>)
    ensures |entries| == |steps| && forall k :: 0 <= k < |steps| ==> entries[k] == Of(steps[k])
  {
    if steps == [] then [] else [Of(steps[0])] + Entries(steps[1..])
  }

  /** What a segment adds to the plan: with no selection its header and steps, else its steps
      when the play's name starts with the selected text. */
  function Added(s: Segment, only: Option<string>): seq<Entry>
    requires s.header.Header?
  {
    (if only.None? then [s.header] else [])
    + (if only.None? || only.value <= s.header.play then Entries(s.steps) else [])
  }

  predicate Headed(segments: seq<Segment>) { forall k :: 0 <= k < |segments| ==> segments[k].header.Header? }

  function Listed(segments: seq<Segment>, only: Option<string>): seq<Entry>
    requires Headed(segments)
  {
    if segments == [] then [] else Added(segments[0], only) + Listed(segments[1..], only)
  }

  lemma {:induction false} PlansAreHeaded(c: Config, fuel: nat, plays: seq<Play>, base: Dir, flags: set<string>)
    requires PlanPlays(c, fuel, plays, base, flags).Ok?
    ensures Headed(PlanPlays(c, fuel, plays, base, flags).value.segments)
  {
    hide Walk; hide ForPlay;
    if plays != [] {
      PlansAreHeaded(c, fuel, plays[1..], base, PlanPlay(c, fuel, plays[0], base, flags).value.flags);
    }
  }

  lemma {:induction false} SegmentPerPlay(c: Config, fuel: nat, plays: seq<Play>, base: Dir, flags: set<string>)
    requires PlanPlays(c, fuel, plays, base, flags).Ok?
    ensures |PlanPlays(c, fuel, plays, base, flags).value.segments| == |plays|
  {
    hide Walk; hide ForPlay;
    if plays != [] {
      SegmentPerPlay(c, fuel, plays[1..], base, PlanPlay(c, fuel, plays[0], base, flags).value.flags);
    }
  }

  ghost function PlanOf(c: Config, fuel: nat, plays: seq<Play>, base: Dir, only: Option<string>,
                        flags: set<string>): Result<seq<Entry>>
  {
    var all :- PlanPlays(c, fuel, plays, base, flags);
    PlansAreHeaded(c, fuel, plays, base, flags);
    Ok(Listed(all.segments, only))
  }

  lemma {:induction false} PlanOfPlay(done: seq<Entry>, c: Config, fuel: nat, plays: seq<Play>, base: Dir,
                                      only: Option<string>, flags: set<string>)
    requires plays != []
    ensures var first := PlanPlay(c, fuel, plays[0], base, flags);
            Prepended(done, PlanOf(c, fuel, plays, base, only, flags))
            == if first.Failure? then Failure
               else Prepended(done + Added(first.value.segments[0], only),
                              PlanOf(c, fuel, plays[1..], base, only, first.value.flags))
  {
    hide Walk; hide ForPlay; hide Added;
    var first := PlanPlay(c, fuel, plays[0], base, flags);
    if first.Ok? {
      var rest := PlanPlays(c, fuel, plays[1..], base, first.value.flags);
      if rest.Ok? {
        PlansAreHeaded(c, fuel, plays[1..], base, first.value.flags);
        var segments := first.value.segments + rest.value.segments;
        assert segments[0] == first.value.segments[0] && segments[1..] == rest.value.segments;
        assert done + (Added(segments[0], only) + Listed(rest.value.segments, only))
            == (done + Added(segments[0], only)) + Listed(rest.value.segments, only);
      }
    }
  }

  /** The loop of `plan_all`: the plays in order, all walked over one flag set that starts empty. */
  method PlanAll(c: Config, fuel: nat, plays: seq<Play>, base: Dir, only: Option<string>)
      returns (steps: Result<seq<Entry>>)
    ensures steps == PlanOf(c, fuel, plays, base, only, {})
  {
    hide Walk; hide PlanOf; hide Added;
    var flags := new FlagSet();
    var out: seq<Entry> := [];
    ghost var all := PlanOf(c, fuel, plays, base, only, {});
    assert plays[0..] == plays;
    assert all == Prepended(out, all) by { if all.Ok? { assert [] + all.value == all.value; } }
    for i := 0 to |plays|
      invariant fresh(flags)
      invariant all == Prepended(out, PlanOf(c, fuel, plays[i..], base, only, flags.names))
    {
      assert plays[i..][0] == plays[i] && plays[i..][1..] == plays[i + 1..];
      PlanOfPlay(out, c, fuel, plays[i..], base, only, flags.names);
      var p := plays[i];
      var walked := ForPlay(c, p, flags.names);
      var pre := WalkTasks(walked, fuel, p.pre, base, [], [], flags);
      if pre.Failure? { return Failure; }
      var main := WalkTasks(walked, fuel, p.tasks, base, [], [], flags);
      if main.Failure? { return Failure; }
      out := out + Added(Segment(Header(p.name, p.vars, flags.names), pre.value + main.value), only);
    }
    PlanOfNothing(c, fuel, base, only, flags.names);
    assert plays[|plays|..] == [] && out + [] == out;
    return Ok(out);
  }

  lemma PlanOfNothing(c: Config, fuel: nat, base: Dir, only: Option<string>, flags: set<string>)
    ensures PlanOf(c, fuel, [], base, only, flags) == Ok([])
  {
  }

  // A selected plan is a slice of the whole

  /** The steps listed under the headers of the plays whose name starts with the text. */
  function Slice(entries: seq<Entry>, prefix: string, on: bool): seq<Entry> {
    if entries == [] then []
    else if entries[0].Header? then Slice(entries[1..], prefix, prefix <= entries[0].play)
    else (if on then [entries[0]] else []) + Slice(entries[1..], prefix, on)
  }

  lemma {:induction false} SliceSteps(steps: seq<Step>, rest: seq<Entry>, prefix: string, on: bool)
    ensures Slice(Entries(steps) + rest, prefix, on) == (if on then Entries(steps) else []) + Slice(rest, prefix, on)
  {
    if steps == [] {
      assert Entries(steps) + rest == rest;
    } else {
      var entries := Entries(steps) + rest;
      assert entries[0] == Of(steps[0]) && entries[1..] == Entries(steps[1..]) + rest;
      SliceSteps(steps[1..], rest, prefix, on);
    }
  }

  lemma {:induction false} SliceHeader(header: Entry, rest: seq<Entry>, prefix: string, on: bool)
    requires header.Header?
    ensures Slice([header] + rest, prefix, on) == Slice(rest, prefix, prefix <= header.play)
  {
    assert ([header] + rest)[1..] == rest;
  }

  /** Selecting plays changes nothing about their steps: flags declared in skipped plays are
      threaded all the same, so the selection is a slice of the full plan. */
  lemma {:induction false} SelectionIsSlice(segments: seq<Segment>, prefix: string, on: bool)
    requires Headed(segments)
    ensures Listed(segments, Some(prefix)) == Slice(Listed(segments, None), prefix, on)
  {
    hide Entries; hide Added;
    if segments == [] {
      assert Listed(segments, None) == [];
    } else {
      hide Slice;
      var s, rest := segments[0], Listed(segments[1..], None);
      var named := prefix <= s.header.play;
      AddedFull(s, rest);
      AddedSelected(s, prefix);
      SliceHeader(s.header, Entries(s.steps) + rest, prefix, on);
      SliceSteps(s.steps, rest, prefix, named);
      SelectionIsSlice(segments[1..], prefix, named);
    }
  }

  lemma AddedFull(s: Segment, rest: seq<Entry>)
    requires s.header.Header?
    ensures Added(s, None) + rest == [s.header] + (Entries(s.steps) + rest)
  {
  }

  lemma AddedSelected(s: Segment, prefix: string)
    requires s.header.Header?
    ensures Added(s, Some(prefix)) == if prefix <= s.header.play then Entries(s.steps) else []
  {
  }

  lemma {:induction false} SelectedPlanIsSlice(c: Config, fuel: nat, plays: seq<Play>, base: Dir, prefix: string,
                                               flags: set<string>)
    ensures var full := PlanOf(c, fuel, plays, base, None, flags);
            PlanOf(c, fuel, plays, base, Some(prefix), flags)
            == if full.Failure? then Failure else Ok(Slice(full.value, prefix, false))
  {
    hide PlanPlays;
    if PlanPlays(c, fuel, plays, base, flags).Ok? {
      PlansAreHeaded(c, fuel, plays, base, flags);
      SelectionIsSlice(PlanPlays(c, fuel, plays, base, flags).value.segments, prefix, false);
    }
  }

  /** Over all plays the flag set only grows, by the declared names only. */
  lemma {:induction false} PlanFlagsGrow(c: Config, fuel: nat, plays: seq<Play>, base: Dir, flags: set<string>)
    requires PlanPlays(c, fuel, plays, base, flags).Ok?
    ensures var all := PlanPlays(c, fuel, plays, base, flags).value;
            && flags <= all.flags <= flags + FLAGS && Headed(all.segments)
            && forall k :: 0 <= k < |all.segments| ==> flags <= all.segments[k].header.known <= all.flags
  {
    hide Walk; hide ForPlay;
    if plays != [] {
      var p := plays[0];
      var pre := Walk(ForPlay(c, p, flags), fuel, p.pre, base, [], [], flags).value;
      var main := Walk(ForPlay(c, p, flags), fuel, p.tasks, base, [], [], pre.flags).value;
      FlagsGrow(ForPlay(c, p, flags), fuel, p.pre, base, [], [], flags);
      FlagsGrow(ForPlay(c, p, flags), fuel, p.tasks, base, [], [], pre.flags);
      PlanFlagsGrow(c, fuel, plays[1..], base, main.flags);
    }
  }

  // `load_playbook`: every section of every play expanded

  function LoadPlay(files: map<Dir, seq<Task>>, m: nat, p: Play, base: Dir): Result<Play> {
    var pre :- Expand(files, m, p.pre, base);
    var main :- Expand(files, m, p.tasks, base);
    var post :- Expand(files, m, p.post, base);
    Ok(p.(pre := pre, tasks := main, post := post))
  }

  function LoadPlaybook(files: map<Dir, seq<Task>>, m: nat, plays: seq<Play>, base: Dir): Result<seq<Play>> {
    if plays == [] then Ok([])
    else
      var first :- LoadPlay(files, m, plays[0], base);
      var rest :- LoadPlaybook(files, m, plays[1..], base);
      Ok([first] + rest)
  }

  /** The play with all three of its sections expanded, and nothing else changed. */
  ghost predicate Loaded(files: map<Dir, seq<Task>>, m: nat, base: Dir, p: Play, loaded: Play) {
    && loaded.name == p.name && loaded.host == p.host && loaded.vars == p.vars
    && Expand(files, m, p.pre, base) == Ok(loaded.pre)
    && Expand(files, m, p.tasks, base) == Ok(loaded.tasks)
    && Expand(files, m, p.post, base) == Ok(loaded.post)
  }

  /** The loop of `load_playbook`. */
  method LoadPlays(files: map<Dir, seq<Task>>, m: nat, plays: seq<Play>, base: Dir) returns (loaded: Result<seq<Play>>)
    ensures loaded == LoadPlaybook(files, m, plays, base)
    ensures loaded.Ok? ==> |loaded.value| == |plays|
    ensures loaded.Ok? ==> forall k :: 0 <= k < |plays| ==> Loaded(files, m, base, plays[k], loaded.value[k])
  {
    hide Expand;
    var out: seq<Play> := [];
    ghost var all := LoadPlaybook(files, m, plays, base);
    assert plays[0..] == plays;
    if all.Ok? { assert [] + all.value == all.value; }
    for i := 0 to |plays|
      invariant all == Prepended(out, LoadPlaybook(files, m, plays[i..], base))
      invariant |out| == i && forall k :: 0 <= k < i ==> Loaded(files, m, base, plays[k], out[k])
    {
      var p := plays[i];
      assert plays[i..][0] == p && plays[i..][1..] == plays[i + 1..];
      PrependedPlay(out, files, m, plays[i..], base);
      var pre := ExpandList(files, m, p.pre, base);
      if pre.Failure? { return Failure; }
      var main := ExpandList(files, m, p.tasks, base);
      if main.Failure? { return Failure; }
      var post := ExpandList(files, m, p.post, base);
      if post.Failure? { return Failure; }
      out := out + [p.(pre := pre.value, tasks := main.value, post := post.value)];
    }
    assert plays[|plays|..] == [] && out + [] == out;
    return Ok(out);
  }

  lemma PrependedPlay(done: seq<Play>, files: map<Dir, seq<Task>>, m: nat, plays: seq<Play>, base: Dir)
    requires plays != []
    ensures var first := LoadPlay(files, m, plays[0], base);
            Prepended(done, LoadPlaybook(files, m, plays, base))
            == if first.Failure? then Failure
               else Prepended(done + [first.value], LoadPlaybook(files, m, plays[1..], base))
  {
    hide LoadPlay;
    var first, rest := LoadPlay(files, m, plays[0], base), LoadPlaybook(files, m, plays[1..], base);
    if first.Ok? && rest.Ok? { assert done + ([first.value] + rest.value) == (done + [first.value]) + rest.value; }
  }

  /** The phase imports of every section the plan walks can be spliced into the playbook. */
  predicate SplitPlays(files: map<Dir, seq<Task>>, repo: Dir, m: nat, plays: seq<Play>, base: Dir) {
    forall k :: 0 <= k < |plays| ==>
      WellSplit(files, repo, m, plays[k].pre, base) && WellSplit(files, repo, m, plays[k].tasks, base)
  }

  lemma {:induction false} PlayWalksExpanded(c: Config, m: nat, n: nat, p: Play, base: Dir, flags: set<string>)
    requires WellSplit(c.files, c.repo, m, p.pre, base) && WellSplit(c.files, c.repo, m, p.tasks, base)
    requires LoadPlay(c.files, m, p, base).Ok?
    ensures var loaded := LoadPlay(c.files, m, p, base).value;
            && (PlanPlay(c, n, p, base, flags).Ok? ==>
                  PlanPlay(c, n, loaded, base, flags) == PlanPlay(c, n, p, base, flags))
            && (PlanPlay(c, n, loaded, base, flags).Ok? ==>
                  PlanPlay(c, m + n, p, base, flags) == PlanPlay(c, n, loaded, base, flags))
  {
    hide Walk; hide Expand; hide Marked; hide KnownVars; hide WellSplit;
    var play := ForPlay(c, p, flags);
    var loaded := LoadPlay(c.files, m, p, base).value;
    SectionWalksExpanded(play, m, n, p.pre, base, flags);
    var pre := Walk(play, n, p.pre, base, [], [], flags);
    var pre' := Walk(play, n, loaded.pre, base, [], [], flags);
    if pre.Ok? { SectionWalksExpanded(play, m, n, p.tasks, base, pre.value.flags); }
    if pre'.Ok? { SectionWalksExpanded(play, m, n, p.tasks, base, pre'.value.flags); }
  }

  lemma {:induction false} SectionWalksExpanded(c: Config, m: nat, n: nat, ts: seq<Task>, base: Dir, flags: set<string>)
    requires WellSplit(c.files, c.repo, m, ts, base) && Expand(c.files, m, ts, base).Ok?
    ensures var es := Expand(c.files, m, ts, base).value;
            && (Walk(c, n, ts, base, [], [], flags).Ok? ==>
                  Walk(c, n, es, base, [], [], flags) == Walk(c, n, ts, base, [], [], flags))
            && (Walk(c, n, es, base, [], [], flags).Ok? ==>
                  Walk(c, m + n, ts, base, [], [], flags) == Walk(c, n, es, base, [], [], flags))
  {
    hide Walk; hide Expand; hide WellSplit;
    var es := Expand(c.files, m, ts, base).value;
    if Walk(c, n, ts, base, [], [], flags).Ok? {
      WalkThenExpand(c, m, n, ts, base, [], [], flags);
    }
    if Walk(c, n, es, base, [], [], flags).Ok? {
      ExpandThenWalk(c, m, n, ts, base, [], [], flags);
    }
  }

  lemma {:induction false} PlaysWalkExpanded(c: Config, m: nat, n: nat, plays: seq<Play>, base: Dir, flags: set<string>)
    requires SplitPlays(c.files, c.repo, m, plays, base) && LoadPlaybook(c.files, m, plays, base).Ok?
    ensures var loaded := LoadPlaybook(c.files, m, plays, base).value;
            && (PlanPlays(c, n, plays, base, flags).Ok? ==>
                  PlanPlays(c, n, loaded, base, flags) == PlanPlays(c, n, plays, base, flags))
            && (PlanPlays(c, n, loaded, base, flags).Ok? ==>
                  PlanPlays(c, m + n, plays, base, flags) == PlanPlays(c, n, loaded, base, flags))
  {
    hide PlanPlay; hide LoadPlay; hide WellSplit;
    if plays != [] {
      PlayWalksExpanded(c, m, n, plays[0], base, flags);
      var loaded := LoadPlaybook(c.files, m, plays, base).value;
      assert loaded[0] == LoadPlay(c.files, m, plays[0], base).value;
      assert loaded[1..] == LoadPlaybook(c.files, m, plays[1..], base).value;
      var first := PlanPlay(c, n, plays[0], base, flags);
      if first.Ok? { PlaysWalkExpanded(c, m, n, plays[1..], base, first.value.flags); }
      var first' := PlanPlay(c, n, loaded[0], base, flags);
      if first'.Ok? { PlaysWalkExpanded(c, m, n, plays[1..], base, first'.value.flags); }
    }
  }

  /** Moving tasks between a playbook and its phase files changes no plan: the playbook and its
      expansion have the same plan for every app, instance and selection, or have none. */
  lemma {:induction false} LoadedPlaybookHasSamePlan(c: Config, m: nat, plays: seq<Play>, base: Dir,
                                                     only: Option<string>, flags: set<string>, plan: seq<Entry>)
    requires SplitPlays(c.files, c.repo, m, plays, base) && LoadPlaybook(c.files, m, plays, base).Ok?
    ensures var loaded := LoadPlaybook(c.files, m, plays, base).value;
            (exists n: nat :: PlanOf(c, n, plays, base, only, flags) == Ok(plan))
            <==> (exists n: nat :: PlanOf(c, n, loaded, base, only, flags) == Ok(plan))
  {
    hide PlanPlays; hide LoadPlaybook; hide SplitPlays; hide Listed;
    var loaded := LoadPlaybook(c.files, m, plays, base).value;
    if n: nat :| PlanOf(c, n, plays, base, only, flags) == Ok(plan) {
      PlaysWalkExpanded(c, m, n, plays, base, flags);
      assert PlanOf(c, n, loaded, base, only, flags) == Ok(plan);
    }
    if n: nat :| PlanOf(c, n, loaded, base, only, flags) == Ok(plan) {
      PlaysWalkExpanded(c, m, n, plays, base, flags);
      assert PlanOf(c, m + n, plays, base, only, flags) == Ok(plan);
    }
  }
}
