/** Playbooks whose plan changes when their phase files are spliced in. */
module PhaseDifferences {
  import opened Text
  import opened Paths
  import opened Tasks
  import opened Rendering
  import opened PlanWalk
  import opened WalkFacts
  import opened PartialEvaluation
  import opened Misleading
  import opened PhaseSplit

  // A repository at the root, with one phase file

  const PHASE_DIR: Dir := ["ansible", "tasks", "removal"]
  const PHASE: Dir := ["ansible", "tasks", "removal", "x.yml"]

  function ShortIncluding(path: string): Task { Task(None, [], map[], map[], Include(ShortInclude, path, None)) }

  lemma JoinFour(a: string, b: string, c: string, d: string)
    ensures Join([a, b, c, d], '/') == a + "/" + b + "/" + c + "/" + d
  {
    var three, two := [b, c, d], [c, d];
    assert [a, b, c, d][1..] == three && three[1..] == two && two[1..] == [d];
    JoinOne(d);
    assert Join(two, '/') == c + ['/'] + d;
    assert Join(three, '/') == b + ['/'] + Join(two, '/');
  }

  lemma {:induction false} JoinedAnchors(d: Dir)
    requires d != []
    ensures Anchor([], Join(d, '/')) == d
  {
    hide Join;
    SplitJoin(d, '/');
    JoinedSlashes(d);
    NormDown([], d);
    assert [] + d == d;
  }

  lemma {:induction false} PhaseSpelled()
    ensures Join(PHASE, '/') == PHASES[0] + "x.yml"
  {
    hide Join;
    JoinFour("ansible", "tasks", "removal", "x.yml");
    assert "ansible" + "/" + "tasks" + "/" + "removal" + "/" + "x.yml" == PHASES[0] + "x.yml";
  }

  lemma {:induction false} PhaseMarks()
    ensures Marked(PHASE) && BraceFree(Join(PHASE, '/')) && PHASES[0] <= Join(PHASE, '/')
  {
    hide Join; hide Contains;
    PhaseSpelled();
    Starts(Absolute(PHASE), "/" + PHASES[0]);
    assert BraceFree(PHASES[0] + "x.yml");
  }

  lemma Starts(s: string, sub: string)
    requires sub <= s
    ensures Contains(s, sub)
  {
  }

  /** At the root the import of the phase file is one to `expand` and to the walk. */
  lemma {:induction false} PhaseIsImported(c: Config, t: Task)
    requires c.repo == [] && PHASE in c.files && t.action == Importing(Join(PHASE, '/')).action
    ensures PhaseFile(t.action, []) == Some(PHASE) && IsPhase(Relative(PHASE, c.repo)) && Parent(PHASE) == PHASE_DIR
  {
    hide Join; hide Marked; hide Anchor;
    PhaseMarks();
    JoinedAnchors(PHASE);
    PlainHasNoTemplate(Join(PHASE, '/'));
    assert PHASE[|c.repo|..] == PHASE;
  }

  // A short include of a phase file

  const BESIDE: Dir := ["ansible", "tasks", "removal", "q.yml"]

  lemma {:induction false} BesideStays(c: Config)
    requires c.repo == [] && BESIDE in c.files && ["q.yml"] !in c.files
    ensures Classify(c, ShortInclude, "q.yml", None, PHASE_DIR, false).Stays?
    ensures Classify(c, ShortInclude, "q.yml", None, [], false).Unreadable?
    ensures !StaysAlike(c.files, "q.yml", PHASE_DIR, [])
  {
    hide Join; hide Anchor; hide Contains; hide Tail;
    var q: Name := "q.yml";
    PieceAnchors(PHASE_DIR, q);
    PieceAnchors([], q);
    assert PHASE_DIR + [q] == BESIDE && [] + [q] == [q];
    assert BraceFree(q);
    PlainHasNoTemplate(q);
    NoTemplateInside(q, "{{ _rm_hooks }}");
    NoTemplateInside(q, "{{ _ra_hooks }}");
    JoinFour("ansible", "tasks", "removal", "q.yml");
    assert BESIDE[|c.repo|..] == BESIDE;
    assert |Join(BESIDE, '/')| < |INLINE|;
  }

  /** A phase file that includes `q.yml`, beside it, by the short key: the plan has the file's
      step, and spliced into the playbook the include finds nothing, so there is no plan. */
  lemma {:induction false} ShortIncludeDiffers(c: Config, n: nat)
    requires c.repo == [] && BESIDE in c.files && ["q.yml"] !in c.files
    requires PHASE in c.files && c.files[PHASE] == [ShortIncluding("q.yml")]
    ensures var ts := [Importing(Join(PHASE, '/'))];
            var plan, spliced := Walk(c, n + 1, ts, [], [], [], {}), Expand(c.files, 1, ts, []);
            && plan.Ok? && |plan.value.steps| == 1
            && spliced == Ok([ShortIncluding("q.yml")]) && Walk(c, n, spliced.value, [], [], [], {}) == Failure
  {
    hide Classify; hide Join; hide PhaseFile; hide Relative; hide IsPhase; hide Walk;
    var t, short := Importing(Join(PHASE, '/')), ShortIncluding("q.yml");
    PhaseIsImported(c, t);
    BesideStays(c);
    PhaseIsRead(c, n + 1, t, PHASE, [], [], [], {});
    WalkOne(c, n + 1, t, [], [], [], {});
    WalkOne(c, n, short, PHASE_DIR, [], [], {});
    WalkOne(c, n, short, [], [], [], {});
    NothingKept(c, short);
    ShortIsNoPhase(short, PHASE_DIR);
    OneExpands(c, t, short, []);
  }

  lemma ShortIsNoPhase(t: Task, base: Dir)
    requires t.action.Include? && t.action.key == ShortInclude
    ensures PhaseFile(t.action, base).None? && !FullyQualified(t.action)
  {
  }

  lemma NothingKept(c: Config, t: Task)
    requires t.when == []
    ensures Kept(c, [] + t.when, {}) == Some([])
  {
    var none: seq<Cond> := [];
    assert none + none == none;
  }

  /** A phase file of one task that `rebase` leaves alone expands to that task. */
  lemma {:induction false} OneExpands(c: Config, t: Task, inner: Task, base: Dir)
    requires PhaseFile(t.action, base).Some? && PhaseFile(t.action, base).value in c.files
    requires var file := PhaseFile(t.action, base).value;
             && c.files[file] == [inner] && PhaseFile(inner.action, Parent(file)).None?
             && RebaseTask(inner, Parent(file), base) == inner
    ensures Expand(c.files, 1, [t], base) == Ok([inner])
  {
    hide PhaseFile; hide RebaseTask;
    var file := PhaseFile(t.action, base).value;
    assert [t][1..] == [] && [inner][1..] == [];
    assert [inner] + [] == [inner];
    assert Expand(c.files, 0, [inner], Parent(file)) == Ok([inner]);
    assert Rebase([inner], Parent(file), base) == [inner];
  }

  // A conditional phase import

  /** An open condition on a phase import stays with the step in the plan, and is gone from the
      step once the phase is spliced in. */
  lemma {:induction false} ConditionalImportDiffers(c: Config, n: nat)
    requires c.repo == [] && PHASE in c.files && c.files[PHASE] == [Acting([])]
    ensures var ts := [Importing(Join(PHASE, '/')).(when := [Other("x")])];
            var plan, spliced := Walk(c, n + 1, ts, [], [], [], {}), Expand(c.files, 1, ts, []);
            && plan.Ok? && |plan.value.steps| == 1 && plan.value.steps[0].when == [Other("x")]
            && spliced == Ok([Acting([])])
            && var after := Walk(c, n, spliced.value, [], [], [], {});
               after.Ok? && |after.value.steps| == 1 && after.value.steps[0].when == []
  {
    hide Classify; hide Join; hide PhaseFile; hide Relative; hide IsPhase; hide Walk;
    var t := Importing(Join(PHASE, '/')).(when := [Other("x")]);
    PhaseIsImported(c, t);
    KeptOne(c, Other("x"), {});
    assert [] + [Other("x")] == [Other("x")];
    PhaseUnfolds(c, n + 1, t, PHASE, [], [], [], {});
    WalkOne(c, n + 1, t, [], [], [], {});
    ActingWalks(c, n, PHASE_DIR, [Other("x")]);
    ActingWalks(c, n, [], []);
    ActingExpands(c, t, PHASE, []);
  }

  lemma {:induction false} ActingWalks(c: Config, n: nat, base: Dir, inherited: seq<Cond>)
    requires Undecided(c, inherited)
    ensures var plan := Walk(c, n, [Acting([])], base, inherited, [], {});
            && plan.Ok? && |plan.value.steps| == 1
            && plan.value.steps[0].when == inherited && plan.value.steps[0].mod == "m"
  {
    var none: seq<Cond> := [];
    KeptAfter(c, inherited, none, {});
    assert inherited + none == inherited;
    WalkOne(c, n, Acting([]), base, inherited, [], {});
  }

  lemma {:induction false} ActingExpands(c: Config, t: Task, file: Dir, base: Dir)
    requires PhaseFile(t.action, base) == Some(file) && file in c.files && c.files[file] == [Acting([])]
    ensures Expand(c.files, 1, [t], base) == Ok([Acting([])])
  {
    hide Marked; hide Anchor;
    OneExpands(c, t, Acting([]), base);
  }

  // A repository below a directory with a phase's name

  /** In a repository that is checked out below `/ansible/tasks/removal` every file carries the
      marker `expand` looks for, and none stands at the repository's own phases: the plan has an
      import of any task file as one step, and the spliced form has that file's steps. */
  lemma {:induction false} MarkedElsewhereDiffers(c: Config, n: nat)
    requires c.repo == PHASE_DIR && PHASE in c.files && c.files[PHASE] == [Acting([])]
    ensures var ts := [Importing("x.yml")];
            var plan, spliced := Walk(c, n, ts, c.repo, [], [], {}), Expand(c.files, 1, ts, c.repo);
            && plan.Ok? && |plan.value.steps| == 1 && plan.value.steps[0].mod == "include_tasks"
            && spliced == Ok([Acting([])])
            && var after := Walk(c, n, spliced.value, c.repo, [], [], {});
               after.Ok? && |after.value.steps| == 1 && after.value.steps[0].mod == "m"
  {
    hide Classify; hide Join; hide PhaseFile; hide Walk;
    var t := Importing("x.yml");
    ElsewhereStays(c);
    NothingKept(c, t);
    WalkOne(c, n, t, c.repo, [], [], {});
    ActingWalks(c, n, c.repo, []);
    ActingExpands(c, t, PHASE, c.repo);
  }

  lemma {:induction false} ElsewhereStays(c: Config)
    requires c.repo == PHASE_DIR && PHASE in c.files
    ensures PhaseFile(Importing("x.yml").action, c.repo) == Some(PHASE)
    ensures Classify(c, FqImport, "x.yml", None, c.repo, false).Stays?
  {
    hide Join; hide Anchor; hide Contains; hide Tail; hide Marked;
    var x: Name := "x.yml";
    PhaseMarks();
    PieceAnchors(PHASE_DIR, x);
    assert PHASE_DIR + [x] == PHASE && PHASE[|PHASE_DIR|..] == [x];
    assert BraceFree(x);
    PlainHasNoTemplate(x);
    NoTemplateInside(x, "{{ _rm_hooks }}");
    NoTemplateInside(x, "{{ _ra_hooks }}");
    JoinOne(x);
    assert Relative(PHASE, c.repo) == x;
    forall k | 0 <= k < |PHASES| ensures !(PHASES[k] <= x) {
      assert PHASES[k][0] == 'a' && x[0] == 'x';
    }
    assert |x| < |INLINE|;
  }
}
