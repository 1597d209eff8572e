/** Which flags a play's variables are read under, before its tasks and after them. */
module PlanMeaning {
  import opened Text
  import opened Paths
  import opened Tasks
  import opened PlanWalk
  import opened WalkFacts
  import opened WalkMeaning
  import opened Plan

  // Before the tasks: the variables that are decided

  /** A play variable that compares the identity, tests a hook file or names one of the two flags
      is decided as that comparison was when the play started, wherever it is tested; any other
      variable stays a text. */
  lemma {:induction false} VariableIsDecided(c: Config, p: Play, name: string, negated: bool, start: set<string>,
                                             now: set<string>)
    ensures var kept := Kept(ForPlay(c, p, start), [PlayVar(name, negated)], now);
            if name in p.vars && p.vars[name].AtomValue? then
              var own := Kept(c, [Identity(p.vars[name].atom, negated)], start);
              kept == if own == Some([Identity(p.vars[name].atom, negated)])
                      then Some([PlayVar(name, negated)]) else own
            else kept == Some([PlayVar(name, negated)])
  {
    KeptOne(ForPlay(c, p, start), PlayVar(name, negated), now);
    if name in p.vars && p.vars[name].AtomValue? {
      KeptOne(c, Identity(p.vars[name].atom, negated), start);
    }
  }

  /** The variables of a play change nothing about its other conditions. */
  lemma OthersAreDecided(c: Config, p: Play, cond: Cond, start: set<string>, now: set<string>)
    requires !cond.PlayVar?
    ensures Kept(ForPlay(c, p, start), [cond], now) == Kept(c, [cond], now)
  {
    KeptOne(ForPlay(c, p, start), cond, now);
    KeptOne(c, cond, now);
  }

  // After the tasks: the headers

  lemma {:induction false} PlansAppend(c: Config, fuel: nat, xs: seq<Play>, ys: seq<Play>, base: Dir,
                                       flags: set<string>)
    ensures var first := PlanPlays(c, fuel, xs, base, flags);
            var rest := if first.Ok? then PlanPlays(c, fuel, ys, base, first.value.flags) else Failure;
            PlanPlays(c, fuel, xs + ys, base, flags)
            == if rest.Failure? then Failure
               else Ok(Planned(first.value.segments + rest.value.segments, rest.value.flags))
  {
    hide PlanPlay;
    if xs == [] {
      assert xs + ys == ys;
      var rest := PlanPlays(c, fuel, ys, base, flags);
      if rest.Ok? { assert [] + rest.value.segments == rest.value.segments; }
    } else {
      assert (xs + ys)[0] == xs[0] && (xs + ys)[1..] == xs[1..] + ys;
      var head := PlanPlay(c, fuel, xs[0], base, flags);
      if head.Ok? {
        PlansAppend(c, fuel, xs[1..], ys, base, head.value.flags);
        var mid := PlanPlays(c, fuel, xs[1..], base, head.value.flags);
        if mid.Ok? {
          var last := PlanPlays(c, fuel, ys, base, mid.value.flags);
          if last.Ok? {
            assert head.value.segments + (mid.value.segments + last.value.segments)
                == head.value.segments + mid.value.segments + last.value.segments;
          }
        }
      }
    }
  }

  /** What is planned of the plays up to and with the k-th. */
  function Through(c: Config, fuel: nat, plays: seq<Play>, k: nat, base: Dir, flags: set<string>): Result<Planned>
    requires k < |plays|
  {
    PlanPlays(c, fuel, plays[..k + 1], base, flags)
  }

  /** A play's header has its name and its variables, read under the flags known once its own
      tasks and those of every play before it have been walked. */
  lemma {:induction false} HeaderIsReadAfter(c: Config, fuel: nat, plays: seq<Play>, k: nat, base: Dir,
                                             flags: set<string>)
    requires k < |plays| && PlanPlays(c, fuel, plays, base, flags).Ok?
    ensures var all, through := PlanPlays(c, fuel, plays, base, flags).value, Through(c, fuel, plays, k, base, flags);
            && |all.segments| == |plays| && through.Ok?
            && all.segments[k].header == Header(plays[k].name, plays[k].vars, through.value.flags)
  {
    hide Walk; hide ForPlay;
    var before, last := plays[..k], [plays[k]];
    assert before + last == plays[..k + 1] && plays[..k + 1] + plays[k + 1..] == plays;
    PlansAppend(c, fuel, plays[..k + 1], plays[k + 1..], base, flags);
    PlansAppend(c, fuel, before, last, base, flags);
    var first := PlanPlays(c, fuel, before, base, flags).value;
    assert last[1..] == [];
    SegmentPerPlay(c, fuel, before, base, flags);
    SegmentPerPlay(c, fuel, plays, base, flags);
  }

  /** A play's steps are those of its `pre_tasks` and then of its `tasks`, walked from nothing
      under the flags the plays before it have left. */
  lemma {:induction false} StepsAreWalked(c: Config, fuel: nat, plays: seq<Play>, k: nat, base: Dir, flags: set<string>)
    requires k < |plays| && PlanPlays(c, fuel, plays, base, flags).Ok?
    ensures var all, before := PlanPlays(c, fuel, plays, base, flags).value,
                               PlanPlays(c, fuel, plays[..k], base, flags);
            && |all.segments| == |plays| && before.Ok?
            && var walked := ForPlay(c, plays[k], before.value.flags);
               var both := Walk(walked, fuel, plays[k].pre + plays[k].tasks, base, [], [], before.value.flags);
               && both.Ok? && all.segments[k].steps == both.value.steps
               && Through(c, fuel, plays, k, base, flags).Ok?
               && Through(c, fuel, plays, k, base, flags).value.flags == both.value.flags
  {
    hide Walk; hide ForPlay;
    var before, last := plays[..k], [plays[k]];
    assert before + last == plays[..k + 1] && plays[..k + 1] + plays[k + 1..] == plays;
    PlansAppend(c, fuel, plays[..k + 1], plays[k + 1..], base, flags);
    PlansAppend(c, fuel, before, last, base, flags);
    var first := PlanPlays(c, fuel, before, base, flags).value;
    assert last[1..] == [];
    SegmentPerPlay(c, fuel, before, base, flags);
    SegmentPerPlay(c, fuel, plays, base, flags);
    WalkAppend(ForPlay(c, plays[k], first.flags), fuel, plays[k].pre, plays[k].tasks, base, [], [], first.flags);
  }

  // The entries of a plan

  function Headers(entries: seq<Entry>): seq<Entry> {
    if entries == [] then [] else (if entries[0].Header? then [entries[0]] else []) + Headers(entries[1..])
  }

  lemma {:induction false} HeadersAppend(xs: seq<Entry>, ys: seq<Entry>)
    ensures Headers(xs + ys) == Headers(xs) + Headers(ys)
  {
    if xs == [] {
      assert xs + ys == ys;
    } else {
      assert (xs + ys)[0] == xs[0] && (xs + ys)[1..] == xs[1..] + ys;
      HeadersAppend(xs[1..], ys);
    }
  }

  lemma {:induction false} StepsHaveNoHeader(steps: seq<Step>)
    ensures Headers(Entries(steps)) == []
  {
    if steps != [] {
      assert Entries(steps)[1..] == Entries(steps[1..]);
      StepsHaveNoHeader(steps[1..]);
    }
  }

  function SegmentHeaders(segments: seq<Segment>): (headers: seq<Entry>)
    ensures |headers| == |segments| && forall k :: 0 <= k < |segments| ==> headers[k] == segments[k].header
  {
    if segments == [] then [] else [segments[0].header] + SegmentHeaders(segments[1..])
  }

  lemma {:induction false} ListedHeaders(segments: seq<Segment>, only: Option<string>)
    requires Headed(segments)
    ensures Headers(Listed(segments, only)) == if only.None? then SegmentHeaders(segments) else []
  {
    hide Entries;
    if segments != [] {
      var s := segments[0];
      var header := if only.None? then [s.header] else [];
      var steps := if only.None? || only.value <= s.header.play then Entries(s.steps) else [];
      ListedHeaders(segments[1..], only);
      HeadersAppend(Added(s, only), Listed(segments[1..], only));
      HeadersAppend(header, steps);
      StepsHaveNoHeader(s.steps);
      assert header != [] ==> header[1..] == [] && Headers(header) == [s.header];
    }
  }

  /** The full plan has one header a play, in order, each read under the flags known after its
      play; a selected plan has none. */
  lemma {:induction false} PlanHeaders(c: Config, fuel: nat, plays: seq<Play>, base: Dir, only: Option<string>,
                                       flags: set<string>)
    requires PlanOf(c, fuel, plays, base, only, flags).Ok?
    ensures var headers := Headers(PlanOf(c, fuel, plays, base, only, flags).value);
            && (only.Some? ==> headers == [])
            && (only.None? ==> |headers| == |plays| && forall k :: 0 <= k < |plays| ==>
                  var through := Through(c, fuel, plays, k, base, flags);
                  through.Ok? && headers[k] == Header(plays[k].name, plays[k].vars, through.value.flags))
  {
    hide PlanPlays; hide Listed; hide Through;
    PlansAreHeaded(c, fuel, plays, base, flags);
    var segments := PlanPlays(c, fuel, plays, base, flags).value.segments;
    ListedHeaders(segments, only);
    SegmentPerPlay(c, fuel, plays, base, flags);
    forall k | 0 <= k < |plays|
      ensures var through := Through(c, fuel, plays, k, base, flags);
              through.Ok? && segments[k].header == Header(plays[k].name, plays[k].vars, through.value.flags)
    {
      HeaderIsReadAfter(c, fuel, plays, k, base, flags);
    }
  }

  // The instance

  predicate BlindPlays(plays: seq<Play>) {
    forall k :: 0 <= k < |plays| ==>
      && Blind(plays[k].pre) && Blind(plays[k].tasks)
      && forall n :: n in plays[k].vars && plays[k].vars[n].AtomValue? ==>
           !TestsInstance(Identity(plays[k].vars[n].atom, false))
  }

  /** The instance changes no plan of a playbook that never compares it, in a condition, a play
      variable or a file. */
  lemma {:induction false} InstanceChangesNoPlan(c: Config, instance: string, fuel: nat, plays: seq<Play>, base: Dir,
                                                 flags: set<string>)
    requires BlindFiles(c.files) && BlindPlays(plays)
    ensures PlanPlays(c.(instance := instance), fuel, plays, base, flags) == PlanPlays(c, fuel, plays, base, flags)
    decreases |plays|
  {
    hide Walk; hide BlindFiles; hide Blind; hide ForPlay;
    if plays != [] {
      var p, walked := plays[0], ForPlay(c, plays[0], flags);
      VarsAreUnused(c, instance, p, flags);
      InstanceIsUnused(walked, instance, fuel, p.pre, base, [], [], flags);
      var pre := Walk(walked, fuel, p.pre, base, [], [], flags);
      if pre.Ok? { InstanceIsUnused(walked, instance, fuel, p.tasks, base, [], [], pre.value.flags); }
      var first := PlanPlay(c, fuel, p, base, flags);
      if first.Ok? { InstanceChangesNoPlan(c, instance, fuel, plays[1..], base, first.value.flags); }
    }
  }

  lemma {:induction false} VarsAreUnused(c: Config, instance: string, p: Play, flags: set<string>)
    requires forall n :: n in p.vars && p.vars[n].AtomValue? ==> !TestsInstance(Identity(p.vars[n].atom, false))
    ensures ForPlay(c.(instance := instance), p, flags) == ForPlay(c, p, flags).(instance := instance)
    ensures ForPlay(c, p, flags).files == c.files
  {
    var other := c.(instance := instance);
    forall n | n in p.vars && p.vars[n].AtomValue?
      ensures Holds(other, p.vars[n].atom, flags) == Holds(c, p.vars[n].atom, flags)
    {
    }
    assert KnownVars(other, p.vars, flags) == KnownVars(c, p.vars, flags);
  }
}
