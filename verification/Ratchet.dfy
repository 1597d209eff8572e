/** `check-structure.main`: the recorded exceptions as a ratchet over the measured values. */
module Ratchet {

  type Values = map<string, int>

  /** What is measured, and in the same shape what is recorded as an exception. */
  datatype Record = Record(size: Values, shared: Values, literal: Values, readme: set<string>, reach: set<string>)

  datatype Kind = Size | SharedText | Literal | ReadmeMap | LinkReach

  datatype Problem = New(kind: Kind, key: string) | Grew(kind: Kind, key: string) | Stale(kind: Kind, key: string)

  function Table(r: Record, kind: Kind): Values
    requires kind == Size || kind == SharedText || kind == Literal
  {
    match kind case Size => r.size case SharedText => r.shared case Literal => r.literal
  }

  function List(r: Record, kind: Kind): set<string>
    requires kind == ReadmeMap || kind == LinkReach
  {
    match kind case ReadmeMap => r.readme case LinkReach => r.reach
  }

  predicate Counted(kind: Kind) { kind == Size || kind == SharedText || kind == Literal }

  /** A problem that the measured values are against the recorded ones. */
  predicate IsProblem(current: Record, allowed: Record, p: Problem) {
    var kind, key := p.kind, p.key;
    if Counted(kind) then
      var now, was := Table(current, kind), Table(allowed, kind);
      match p
      case New(_, _) => key in now && key !in was
      case Grew(_, _) => key in now && key in was && now[key] > was[key]
      case Stale(_, _) => key !in now && key in was
    else
      var now, was := List(current, kind), List(allowed, kind);
      match p
      case New(_, _) => key in now && key !in was
      case Grew(_, _) => false
      case Stale(_, _) => key !in now && key in was
  }

  /** One counted kind: the measured values against their ceilings, then the ceilings nothing
      needs any more. */
  method CompareTable(kind: Kind, current: Record, allowed: Record) returns (problems: seq<Problem>)
    requires Counted(kind)
    ensures forall p :: p in problems <==> p.kind == kind && IsProblem(current, allowed, p)
  {
    problems := [];
    var now, was := Table(current, kind), Table(allowed, kind);
    var rest := now.Keys;
    while rest != {}
      invariant rest <= now.Keys
      invariant forall p :: p in problems <==>
                  p.kind == kind && !p.Stale? && p.key !in rest && IsProblem(current, allowed, p)
      decreases rest
    {
      var key :| key in rest;
      rest := rest - {key};
      if key !in was {
        problems := problems + [New(kind, key)];
      } else if now[key] > was[key] {
        problems := problems + [Grew(kind, key)];
      }
    }
    rest := was.Keys;
    while rest != {}
      invariant rest <= was.Keys
      invariant forall p :: p in problems <==>
                  p.kind == kind && (p.Stale? ==> p.key !in rest) && IsProblem(current, allowed, p)
      decreases rest
    {
      var key :| key in rest;
      rest := rest - {key};
      if key !in now {
        problems := problems + [Stale(kind, key)];
      }
    }
  }

  method CompareList(kind: Kind, current: Record, allowed: Record) returns (problems: seq<Problem>)
    requires !Counted(kind)
    ensures forall p :: p in problems <==> p.kind == kind && IsProblem(current, allowed, p)
  {
    problems := [];
    var now, was := List(current, kind), List(allowed, kind);
    var rest := now;
    while rest != {}
      invariant rest <= now
      invariant forall p :: p in problems <==> p.kind == kind && p.New? && p.key in now - rest && p.key !in was
      decreases rest
    {
      var key :| key in rest;
      rest := rest - {key};
      if key !in was { problems := problems + [New(kind, key)]; }
    }
    rest := was - now;
    while rest != {}
      invariant rest <= was - now
      invariant forall p :: p in problems <==>
                  p.kind == kind && ((p.New? && p.key in now - was) || (p.Stale? && p.key in (was - now) - rest))
      decreases rest
    {
      var key :| key in rest;
      rest := rest - {key};
      problems := problems + [Stale(kind, key)];
    }
  }

  /** Every deviation is reported and nothing else is. */
  method Compare(current: Record, allowed: Record) returns (problems: seq<Problem>)
    ensures forall p :: p in problems <==> IsProblem(current, allowed, p)
    ensures problems == [] <==> Clean(current, allowed)
    ensures forall key :: Reported(problems, current, allowed, key)
  {
    hide IsProblem; hide Reported; hide Clean;
    var size := CompareTable(Size, current, allowed);
    var shared := CompareTable(SharedText, current, allowed);
    var literal := CompareTable(Literal, current, allowed);
    var readme := CompareList(ReadmeMap, current, allowed);
    var reach := CompareList(LinkReach, current, allowed);
    problems := size + shared + literal + readme + reach;
    CleanHasNoProblem(current, allowed);
    if problems != [] { assert problems[0] in problems; }
    forall key ensures Reported(problems, current, allowed, key) {
      ProblemsAreReported(problems, current, allowed, key);
    }
  }

  predicate Rises(now: Values, was: Values, key: string) { key in now && key in was && now[key] > was[key] }

  lemma ListProblems(current: Record, allowed: Record, key: string)
    ensures IsProblem(current, allowed, New(ReadmeMap, key)) <==> key in current.readme - allowed.readme
    ensures IsProblem(current, allowed, Stale(ReadmeMap, key)) <==> key in allowed.readme - current.readme
    ensures IsProblem(current, allowed, New(LinkReach, key)) <==> key in current.reach - allowed.reach
    ensures IsProblem(current, allowed, Stale(LinkReach, key)) <==> key in allowed.reach - current.reach
  {
  }

  lemma TableProblems(current: Record, allowed: Record, kind: Kind, key: string)
    requires Counted(kind)
    ensures var now, was := Table(current, kind), Table(allowed, kind);
            && (IsProblem(current, allowed, New(kind, key)) <==> key in now.Keys - was.Keys)
            && (IsProblem(current, allowed, Stale(kind, key)) <==> key in was.Keys - now.Keys)
            && (IsProblem(current, allowed, Grew(kind, key)) <==> Rises(now, was, key))
  {
  }

  /** What is reported of a key, kind by kind. */
  ghost predicate Reported(problems: seq<Problem>, current: Record, allowed: Record, key: string) {
    && (New(ReadmeMap, key) in problems <==> key in current.readme - allowed.readme)
    && (Stale(ReadmeMap, key) in problems <==> key in allowed.readme - current.readme)
    && (New(LinkReach, key) in problems <==> key in current.reach - allowed.reach)
    && (Stale(LinkReach, key) in problems <==> key in allowed.reach - current.reach)
    && ReportedOf(problems, Size, current.size, allowed.size, key)
    && ReportedOf(problems, SharedText, current.shared, allowed.shared, key)
    && ReportedOf(problems, Literal, current.literal, allowed.literal, key)
  }

  ghost predicate ReportedOf(problems: seq<Problem>, kind: Kind, now: Values, was: Values, key: string) {
    && (New(kind, key) in problems <==> key in now.Keys - was.Keys)
    && (Stale(kind, key) in problems <==> key in was.Keys - now.Keys)
    && (Grew(kind, key) in problems <==> Rises(now, was, key))
  }

  lemma {:induction false} ProblemsAreReported(problems: seq<Problem>, current: Record, allowed: Record, key: string)
    requires forall p :: p in problems <==> IsProblem(current, allowed, p)
    ensures Reported(problems, current, allowed, key)
  {
    hide IsProblem; hide Rises;
    ListProblems(current, allowed, key);
    TableProblems(current, allowed, Size, key);
    TableProblems(current, allowed, SharedText, key);
    TableProblems(current, allowed, Literal, key);
  }

  // The verdict

  predicate Within(now: Values, was: Values) {
    now.Keys == was.Keys && forall key :: key in now ==> now[key] <= was[key]
  }

  /** The recorded keys are the violating keys, and every value is at most its ceiling. */
  predicate Clean(current: Record, allowed: Record) {
    && Within(current.size, allowed.size) && Within(current.shared, allowed.shared)
    && Within(current.literal, allowed.literal)
    && current.readme == allowed.readme && current.reach == allowed.reach
  }

  lemma {:induction false} TableIsWithin(kind: Kind, current: Record, allowed: Record)
    requires Counted(kind)
    ensures Within(Table(current, kind), Table(allowed, kind))
       <==> forall p: Problem :: p.kind == kind ==> !IsProblem(current, allowed, p)
  {
    var now, was := Table(current, kind), Table(allowed, kind);
    if forall p: Problem :: p.kind == kind ==> !IsProblem(current, allowed, p) {
      forall key ensures key in now <==> key in was {
        assert !IsProblem(current, allowed, New(kind, key)) && !IsProblem(current, allowed, Stale(kind, key));
      }
      forall key | key in now ensures now[key] <= was[key] {
        assert !IsProblem(current, allowed, Grew(kind, key));
      }
    }
  }

  lemma {:induction false} ListIsEqual(kind: Kind, current: Record, allowed: Record)
    requires !Counted(kind)
    ensures List(current, kind) == List(allowed, kind)
       <==> forall p: Problem :: p.kind == kind ==> !IsProblem(current, allowed, p)
  {
    if forall p: Problem :: p.kind == kind ==> !IsProblem(current, allowed, p) {
      forall key ensures key in List(current, kind) <==> key in List(allowed, kind) {
        assert !IsProblem(current, allowed, New(kind, key)) && !IsProblem(current, allowed, Stale(kind, key));
      }
    }
  }

  lemma {:induction false} CleanHasNoProblem(current: Record, allowed: Record)
    ensures Clean(current, allowed) <==> forall p: Problem :: !IsProblem(current, allowed, p)
  {
    hide IsProblem; hide Within;
    TableIsWithin(Size, current, allowed);
    TableIsWithin(SharedText, current, allowed);
    TableIsWithin(Literal, current, allowed);
    ListIsEqual(ReadmeMap, current, allowed);
    ListIsEqual(LinkReach, current, allowed);
  }

  // `--update`

  /** The values `--update` prints: everything measured, but shared pairs only when recorded. */
  function Update(current: Record, recorded: Record): Record {
    current.(shared := map key | key in current.shared && key in recorded.shared :: current.shared[key])
  }

  /** Recording the printed values makes the next run clean exactly when no new pair of
      documents shares a passage: a new pair cannot be waved through. */
  lemma {:induction false} UpdateIsClean(current: Record, recorded: Record)
    ensures Clean(current, Update(current, recorded)) <==> current.shared.Keys <= recorded.shared.Keys
  {
    var updated := Update(current, recorded);
    assert updated.shared.Keys == current.shared.Keys * recorded.shared.Keys;
  }

  /** From a clean state the update only lowers ceilings and keeps every key, and a second
      update prints the same. */
  lemma {:induction false} CleanUpdateTightens(current: Record, recorded: Record)
    requires Clean(current, recorded)
    ensures Update(current, recorded) == current && Clean(Update(current, recorded), recorded)
    ensures Update(current, Update(current, recorded)) == Update(current, recorded)
  {
    assert Update(current, recorded).shared == current.shared;
    assert Update(current, current).shared == current.shared;
  }

  /** Over any history whose every state was clean against the exceptions recorded just before
      it, and whose exceptions were then updated, no ceiling ever rises and no exception is added. */
  lemma {:induction false} CeilingsNeverRise(recorded: Record, states: seq<Record>)
    requires CleanHistory(recorded, states)
    ensures Clean(Final(recorded, states), recorded)
    decreases |states|
  {
    if states == [] {
    } else {
      CleanUpdateTightens(states[0], recorded);
      CeilingsNeverRise(Update(states[0], recorded), states[1..]);
    }
  }

  predicate CleanHistory(recorded: Record, states: seq<Record>)
    decreases |states|
  {
    states == [] || (Clean(states[0], recorded) && CleanHistory(Update(states[0], recorded), states[1..]))
  }

  function Final(recorded: Record, states: seq<Record>): Record
    decreases |states|
  {
    if states == [] then recorded else Final(Update(states[0], recorded), states[1..])
  }

  // Histories with states that were not clean

  function Last(states: seq<Record>): Record
    requires states != []
  {
    states[|states| - 1]
  }

  /** What is recorded after any history of updates: what was measured last, of the shared pairs
      those that were recorded at first and measured every time. */
  lemma {:induction false} FinalIsLast(recorded: Record, states: seq<Record>)
    requires states != []
    ensures var final, last := Final(recorded, states), Last(states);
            && final == last.(shared := final.shared)
            && forall key :: key in final.shared <==> key in recorded.shared && InAll(key, states)
    ensures var final, last := Final(recorded, states), Last(states);
            forall key :: key in final.shared ==> key in last.shared && final.shared[key] == last.shared[key]
    decreases |states|
  {
    var next, rest := Update(states[0], recorded), states[1..];
    if rest == [] {
      assert Final(next, rest) == next;
      forall key ensures InAll(key, states) <==> key in states[0].shared { }
    } else {
      FinalIsLast(next, rest);
      assert Last(rest) == Last(states);
      forall key ensures InAll(key, states) <==> key in states[0].shared && InAll(key, rest) {
        assert forall k :: 0 <= k < |rest| ==> rest[k] == states[k + 1];
        assert forall k :: 0 < k < |states| ==> states[k] == rest[k - 1];
      }
    }
  }

  predicate InAll(key: string, states: seq<Record>) { forall k :: 0 <= k < |states| ==> key in states[k].shared }

  /** Over any history of updates no pair of documents is added to the exceptions. Any other
      exception is added, or its ceiling rises, exactly when the last measurement, checked
      against the exceptions as they were at first, is new or has grown there; and the ceiling
      of a recorded pair when it has grown there and was measured every time. */
  lemma {:induction false} HistoryRaises(recorded: Record, states: seq<Record>, p: Problem)
    requires states != [] && !p.Stale?
    ensures Final(recorded, states).shared.Keys <= recorded.shared.Keys
    ensures IsProblem(Final(recorded, states), recorded, p)
       <==> IsProblem(Last(states), recorded, p) && (p.kind == SharedText ==> p.Grew? && InAll(p.key, states))
  {
    hide Final; hide InAll; hide Last;
    FinalIsLast(recorded, states);
  }
}
