/** `task_parts`: a playbook's tasks flattened to leaves that carry their scope. */
module TaskParts {
  import opened Text
  import opened Paths
  import opened Tasks

  const LIMIT: nat := 40

  /** The parsed files, and the playbook the tasks are resolved for. */
  datatype Repo = Repo(root: Dir, files: map<Dir, seq<Task>>, playbook: Dir)

  /** Where tasks stand: the file that holds them, the files included on the way, the role. */
  datatype Place = Place(here: Dir, chain: seq<Dir>, role: Option<Dir>)

  datatype Leaf = Leaf(task: Task, scope: seq<Keywords>)

  // Names

  function LastDot(s: string): int
    ensures -1 <= LastDot(s) < |s|
  {
    if s == "" then -1 else if s[|s| - 1] == '.' then |s| - 1 else LastDot(s[..|s| - 1])
  }

  /** A file name without its suffix; a leading or final dot starts no suffix. */
  function Stem(name: string): string {
    if 0 < LastDot(name) < |name| - 1 then name[..LastDot(name)] else name
  }

  function Roles(w: Repo): Dir { w.root + ["ansible", "roles"] }

  function RoleDir(w: Repo, name: string): Dir { Anchor(Roles(w), name) }

  predicate RoleExists(w: Repo, name: string) { exists file | file in w.files :: RoleDir(w, name) < file }

  function RoleFile(w: Repo, name: string, tasksFrom: string): Dir {
    var file := Anchor(RoleDir(w, name) + ["tasks"], tasksFrom);
    if file == [] then file
    else
      var last := file[|file| - 1];
      if last[|Stem(last)|..] == ".yml" || last[|Stem(last)|..] == ".yaml" then file
      else Parent(file) + [Stem(last) + ".yml"]
  }

  // Finding an included file: the including file's directory, then each file above it

  function Substituted(w: Repo, path: string, role: Option<Dir>): string {
    var text := Replace(path, "{{ playbook_dir }}", Absolute(Parent(w.playbook)));
    if role.None? then text else Replace(text, "{{ role_path }}", Absolute(role.value))
  }

  function Above(chain: seq<Dir>, text: string): seq<Dir> {
    if chain == [] then []
    else [Anchor(Parent(chain[|chain| - 1]), text)] + Above(chain[..|chain| - 1], text)
  }

  function Candidates(w: Repo, text: string, at: Place): seq<Dir> {
    [Anchor(Parent(at.here), text)] + Above(at.chain, text)
    + (if at.role.None? then [] else [Anchor(at.role.value + ["tasks"], text)])
    + [Anchor(Parent(w.playbook), text)]
  }

  function FirstFile(files: set<Dir>, candidates: seq<Dir>): (found: Option<Dir>)
    ensures found.Some? ==> found.value in files && found.value in candidates
    ensures found.None? ==> forall k :: 0 <= k < |candidates| ==> candidates[k] !in files
  {
    if candidates == [] then None
    else if candidates[0] in files then Some(candidates[0])
    else FirstFile(files, candidates[1..])
  }

  function Find(w: Repo, path: string, at: Place): (found: Option<Dir>)
    ensures found.Some? ==> found.value in w.files
  {
    var text := Substituted(w, path, at.role);
    if HasTemplate(text) then None else FirstFile(w.files.Keys, Candidates(w, text, at))
  }

  // Scopes

  /** A task's keywords but its name and its action. */
  function KeywordsOf(t: Task): Keywords {
    t.control + (if t.vars == map[] then map[] else map["vars" := Fields(t.vars)])
    + (if t.when == [] then map[] else map["when" := Conditions(t.when)])
  }

  function NonEmpty(scope: seq<Keywords>): seq<Keywords> {
    if scope == [] then [] else (if scope[0] == map[] then [] else [scope[0]]) + NonEmpty(scope[1..])
  }

  function Section(name: string): Keywords { map["section" := Scalar(name)] }

  // Resolver.tasks

  function Left(depth: nat): nat { if depth < LIMIT then LIMIT - depth else 0 }

  function Flatten(w: Repo, ts: seq<Task>, at: Place, inherited: seq<Keywords>, depth: nat): Result<seq<Leaf>>
    decreases Left(depth), ts, 0
  {
    if depth >= LIMIT then Failure
    else if ts == [] then Ok([])
    else
      var first :- FlattenTask(w, ts[0], at, inherited, depth);
      var rest :- Flatten(w, ts[1..], at, inherited, depth);
      Ok(first + rest)
  }

  function FlattenTask(w: Repo, t: Task, at: Place, inherited: seq<Keywords>, depth: nat): Result<seq<Leaf>>
    requires depth < LIMIT
    decreases Left(depth), t, 1
  {
    match t.action
    case Block(block, rescue, always) =>
      var scope := inherited + [KeywordsOf(t)];
      var main :- Flatten(w, block, at, scope, depth + 1);
      var rescued :- Flatten(w, rescue, at, scope + [Section("rescue")], depth + 1);
      var after :- Flatten(w, always, at, scope + [Section("always")], depth + 1);
      Ok(main + rescued + after)
    case Include(_, path, options) =>
      (match Find(w, path, at)
       case Some(file) =>
         var extra := if options.Some? then options.value else map[];
         FlattenFile(w, file, Place(file, at.chain + [file], at.role), inherited + [KeywordsOf(t) + extra], depth)
       case None => Ok([Leaf(t, inherited)]))
    case Role(_, role, tasksFrom, extra) =>
      if !HasTemplate(role) && RoleExists(w, role) then
        var file := RoleFile(w, role, tasksFrom);
        FlattenFile(w, file, Place(file, at.chain + [file], Some(RoleDir(w, role))),
                    inherited + [KeywordsOf(t) + extra], depth)
      else Ok([Leaf(t, inherited)])
    case _ => Ok([Leaf(t, inherited)])
  }

  /** A file's own tasks, below a scope from which the empty entries are dropped. */
  function FlattenFile(w: Repo, file: Dir, at: Place, scope: seq<Keywords>, depth: nat): Result<seq<Leaf>>
    requires depth < LIMIT
    decreases Left(depth) - 1
  {
    if file in w.files then Flatten(w, w.files[file], at, NonEmpty(scope), depth + 1) else Failure
  }

  // Equality of leaves modulo empty scope entries

  function Trimmed(leaves: seq<Leaf>): seq<Leaf> {
    if leaves == [] then [] else [leaves[0].(scope := NonEmpty(leaves[0].scope))] + Trimmed(leaves[1..])
  }

  /** Whenever the first resolves, the second resolves to the same leaves, in the same order,
      with the same scopes up to empty entries. */
  ghost predicate Same(a: Result<seq<Leaf>>, b: Result<seq<Leaf>>) {
    a.Ok? ==> b.Ok? && Trimmed(a.value) == Trimmed(b.value)
  }

  lemma {:induction false} TrimmedAppend(xs: seq<Leaf>, ys: seq<Leaf>)
    ensures Trimmed(xs + ys) == Trimmed(xs) + Trimmed(ys)
  {
    if xs == [] {
      assert xs + ys == ys;
    } else {
      assert (xs + ys)[0] == xs[0] && (xs + ys)[1..] == xs[1..] + ys;
      TrimmedAppend(xs[1..], ys);
    }
  }

  lemma {:induction false} NonEmptyAppend(xs: seq<Keywords>, ys: seq<Keywords>)
    ensures NonEmpty(xs + ys) == NonEmpty(xs) + NonEmpty(ys)
  {
    if xs == [] {
      assert xs + ys == ys;
    } else {
      assert (xs + ys)[0] == xs[0] && (xs + ys)[1..] == xs[1..] + ys;
      NonEmptyAppend(xs[1..], ys);
    }
  }

  lemma {:induction false} NonEmptyTwice(xs: seq<Keywords>)
    ensures NonEmpty(NonEmpty(xs)) == NonEmpty(xs)
  {
    if xs != [] {
      NonEmptyTwice(xs[1..]);
      NonEmptyAppend(if xs[0] == map[] then [] else [xs[0]], NonEmpty(xs[1..]));
    }
  }

  // Paths without a template

  lemma {:induction false} SubstitutedNothing(w: Repo, path: string, role: Option<Dir>)
    requires !HasTemplate(path)
    ensures Substituted(w, path, role) == path
  {
    NoTemplateInside(path, "{{ playbook_dir }}");
    NoTemplateInside(path, "{{ role_path }}");
    ReplaceNothing(path, "{{ playbook_dir }}", Absolute(Parent(w.playbook)));
    if role.Some? { ReplaceNothing(path, "{{ role_path }}", Absolute(role.value)); }
  }

  lemma {:induction false} FoundHere(w: Repo, path: string, at: Place)
    requires !HasTemplate(path) && Anchor(Parent(at.here), path) in w.files
    ensures Find(w, path, at) == Some(Anchor(Parent(at.here), path))
  {
    hide Substituted; hide Anchor; hide HasTemplate; hide Above;
    SubstitutedNothing(w, path, at.role);
    assert Candidates(w, path, at)[0] == Anchor(Parent(at.here), path);
  }

  // Scopes and leaves put together

  lemma {:induction false} SameScope(inherited: seq<Keywords>, inherited': seq<Keywords>, more: seq<Keywords>)
    requires NonEmpty(inherited) == NonEmpty(inherited')
    ensures NonEmpty(inherited + more) == NonEmpty(inherited' + more)
  {
    NonEmptyAppend(inherited, more);
    NonEmptyAppend(inherited', more);
  }

  lemma {:induction false} SameThen(a: Result<seq<Leaf>>, b: Result<seq<Leaf>>, a': Result<seq<Leaf>>,
                                    b': Result<seq<Leaf>>)
    requires Same(a, a') && Same(b, b') && a.Ok? && b.Ok?
    ensures a'.Ok? && b'.Ok? && Trimmed(a.value + b.value) == Trimmed(a'.value + b'.value)
  {
    TrimmedAppend(a.value, b.value);
    TrimmedAppend(a'.value, b'.value);
  }

  lemma {:induction false} TrimmedOne()
    ensures forall leaf: Leaf {:trigger Trimmed([leaf])} :: Trimmed([leaf]) == [leaf.(scope := NonEmpty(leaf.scope))]
  {
    forall leaf: Leaf ensures Trimmed([leaf]) == [leaf.(scope := NonEmpty(leaf.scope))] {
      assert [leaf][1..] == [];
    }
  }

  /** A block's leaves are those of its three lists in turn. */
  lemma {:induction false} BlockSame(w: Repo, w': Repo, t: Task, t': Task, at: Place, at': Place,
                                     inherited: seq<Keywords>, inherited': seq<Keywords>, depth: nat, depth': nat)
    requires t.action.Block? && t'.action.Block? && KeywordsOf(t) == KeywordsOf(t') && depth < LIMIT && depth' < LIMIT
    requires var k := [KeywordsOf(t)];
             && Same(Flatten(w, t.action.block, at, inherited + k, depth + 1),
                     Flatten(w', t'.action.block, at', inherited' + k, depth' + 1))
             && Same(Flatten(w, t.action.rescue, at, inherited + k + [Section("rescue")], depth + 1),
                     Flatten(w', t'.action.rescue, at', inherited' + k + [Section("rescue")], depth' + 1))
             && Same(Flatten(w, t.action.always, at, inherited + k + [Section("always")], depth + 1),
                     Flatten(w', t'.action.always, at', inherited' + k + [Section("always")], depth' + 1))
    ensures Same(FlattenTask(w, t, at, inherited, depth), FlattenTask(w', t', at', inherited', depth'))
  {
    hide Flatten; hide NonEmpty; hide KeywordsOf; hide Section;
    if FlattenTask(w, t, at, inherited, depth).Ok? {
      var k := [KeywordsOf(t)];
      var a := Flatten(w, t.action.block, at, inherited + k, depth + 1);
      var b := Flatten(w, t.action.rescue, at, inherited + k + [Section("rescue")], depth + 1);
      var d := Flatten(w, t.action.always, at, inherited + k + [Section("always")], depth + 1);
      var a' := Flatten(w', t'.action.block, at', inherited' + k, depth' + 1);
      var b' := Flatten(w', t'.action.rescue, at', inherited' + k + [Section("rescue")], depth' + 1);
      var d' := Flatten(w', t'.action.always, at', inherited' + k + [Section("always")], depth' + 1);
      SameThen(a, b, a', b');
      SameThen(Ok(a.value + b.value), d, Ok(a'.value + b'.value), d');
    }
  }

  // What a flattened list holds, and in which order

  /** Where a leaf stands: its index in every list on the way down to it, with 0, 1 or 2 for a
      block's section; and the keywords of every block, section, include and role passed. */
  datatype Spot = Spot(position: seq<nat>, route: seq<Keywords>)

  ghost predicate Lies(w: Repo, ts: seq<Task>, at: Place, depth: nat, spot: Spot, leaf: Task)
    decreases Left(depth), ts, 0
  {
    ts != [] && depth < LIMIT && spot.position != [] &&
    (var p := spot.position;
     if p[0] == 0 then LiesIn(w, ts[0], at, depth, spot.(position := p[1..]), leaf)
     else Lies(w, ts[1..], at, depth, spot.(position := [p[0] - 1] + p[1..]), leaf))
  }

  ghost predicate LiesIn(w: Repo, t: Task, at: Place, depth: nat, spot: Spot, leaf: Task)
    requires depth < LIMIT
    decreases Left(depth), t, 1
  {
    match t.action
    case Block(block, rescue, always) =>
      spot.position != [] &&
      (match spot.position[0]
       case 0 => Through(spot, [KeywordsOf(t)]) && Lies(w, block, at, depth + 1, Below(spot, 1, 1), leaf)
       case 1 =>
         Through(spot, [KeywordsOf(t), Section("rescue")]) && Lies(w, rescue, at, depth + 1, Below(spot, 1, 2), leaf)
       case 2 =>
         Through(spot, [KeywordsOf(t), Section("always")]) && Lies(w, always, at, depth + 1, Below(spot, 1, 2), leaf)
       case _ => false)
    case Include(_, path, options) =>
      (match Find(w, path, at)
       case Some(file) =>
         Through(spot, [KeywordsOf(t) + (if options.Some? then options.value else map[])])
         && Lies(w, w.files[file], Place(file, at.chain + [file], at.role), depth + 1, Below(spot, 0, 1), leaf)
       case None => spot == Spot([], []) && leaf == t)
    case Role(_, role, tasksFrom, extra) =>
      if !HasTemplate(role) && RoleExists(w, role) then
        var file := RoleFile(w, role, tasksFrom);
        Through(spot, [KeywordsOf(t) + extra]) && file in w.files
        && Lies(w, w.files[file], Place(file, at.chain + [file], Some(RoleDir(w, role))), depth + 1,
                Below(spot, 0, 1), leaf)
      else spot == Spot([], []) && leaf == t
    case _ => spot == Spot([], []) && leaf == t
  }

  predicate Through(spot: Spot, passed: seq<Keywords>) { passed <= spot.route }

  function Below(spot: Spot, indices: nat, passed: nat): Spot
    requires indices <= |spot.position| && passed <= |spot.route|
  {
    Spot(spot.position[indices..], spot.route[passed..])
  }

  ghost predicate Listed(r: Result<seq<Leaf>>, scope: seq<Keywords>, leaf: Task) {
    r.Ok? && exists k :: 0 <= k < |r.value| && r.value[k].task == leaf && NonEmpty(r.value[k].scope) == NonEmpty(scope)
  }

  lemma {:induction false} ListedAppend(a: Result<seq<Leaf>>, b: Result<seq<Leaf>>, scope: seq<Keywords>, leaf: Task)
    requires a.Ok? && b.Ok?
    ensures Listed(Ok(a.value + b.value), scope, leaf) <==> Listed(a, scope, leaf) || Listed(b, scope, leaf)
  {
    var both := a.value + b.value;
    assert forall k :: 0 <= k < |a.value| ==> both[k] == a.value[k];
    assert forall k :: 0 <= k < |b.value| ==> both[|a.value| + k] == b.value[k];
  }

  lemma {:induction false} ListedOne(t: Task, inherited: seq<Keywords>)
    ensures Listed(Ok([Leaf(t, inherited)]), inherited + [], t)
  {
    assert inherited + [] == inherited && [Leaf(t, inherited)][0] == Leaf(t, inherited);
  }

  /** Nothing is lost: every leaf is listed, under exactly the keywords on the way to it. */
  lemma {:induction false} EveryLeafIsListed(w: Repo, ts: seq<Task>, at: Place, inherited: seq<Keywords>, depth: nat,
                                             spot: Spot, leaf: Task)
    requires Flatten(w, ts, at, inherited, depth).Ok? && Lies(w, ts, at, depth, spot, leaf)
    ensures Listed(Flatten(w, ts, at, inherited, depth), inherited + spot.route, leaf)
    decreases Left(depth), ts, 0
  {
    hide FlattenTask; hide LiesIn; hide Listed; hide NonEmpty;
    var first, rest := FlattenTask(w, ts[0], at, inherited, depth), Flatten(w, ts[1..], at, inherited, depth);
    var p := spot.position;
    if p[0] == 0 {
      EveryLeafIsListedTask(w, ts[0], at, inherited, depth, spot.(position := p[1..]), leaf);
    } else {
      EveryLeafIsListed(w, ts[1..], at, inherited, depth, spot.(position := [p[0] - 1] + p[1..]), leaf);
    }
    ListedAppend(first, rest, inherited + spot.route, leaf);
  }

  lemma {:induction false} EveryLeafIsListedTask(w: Repo, t: Task, at: Place, inherited: seq<Keywords>, depth: nat,
                                                 spot: Spot, leaf: Task)
    requires depth < LIMIT
    requires FlattenTask(w, t, at, inherited, depth).Ok? && LiesIn(w, t, at, depth, spot, leaf)
    ensures Listed(FlattenTask(w, t, at, inherited, depth), inherited + spot.route, leaf)
    decreases Left(depth), t, 1
  {
    hide Find; hide KeywordsOf; hide RoleExists; hide RoleFile; hide RoleDir; hide HasTemplate; hide NonEmpty;
    hide Flatten; hide Lies; hide Listed; hide FlattenFile;
    ListedOne(t, inherited);
    match t.action {
      case Block(_, _, _) =>
        ListedBlock(w, t, at, inherited, depth, spot, leaf);
      case Include(_, path, options) =>
        if Find(w, path, at).Some? {
          var file := Find(w, path, at).value;
          ListedFile(w, file, Place(file, at.chain + [file], at.role), inherited, depth, spot, leaf);
        }
      case Role(_, role, tasksFrom, extra) =>
        if !HasTemplate(role) && RoleExists(w, role) {
          var file := RoleFile(w, role, tasksFrom);
          ListedFile(w, file, Place(file, at.chain + [file], Some(RoleDir(w, role))), inherited, depth, spot, leaf);
        }
      case _ =>
    }
  }

  lemma {:induction false} SameListed(r: Result<seq<Leaf>>, scope: seq<Keywords>, scope': seq<Keywords>, leaf: Task)
    requires NonEmpty(scope) == NonEmpty(scope')
    ensures Listed(r, scope, leaf) == Listed(r, scope', leaf)
  {
  }

  lemma {:induction false} ListedFile(w: Repo, file: Dir, at: Place, inherited: seq<Keywords>, depth: nat, spot: Spot,
                                      leaf: Task)
    requires depth < LIMIT && file in w.files && spot.route != []
    requires FlattenFile(w, file, at, inherited + [spot.route[0]], depth).Ok?
    requires Lies(w, w.files[file], at, depth + 1, Below(spot, 0, 1), leaf)
    ensures Listed(FlattenFile(w, file, at, inherited + [spot.route[0]], depth), inherited + spot.route, leaf)
    decreases Left(depth) - 1
  {
    hide Listed; hide Lies; hide Flatten; hide NonEmpty;
    var scope, below := inherited + [spot.route[0]], spot.route[1..];
    EveryLeafIsListed(w, w.files[file], at, NonEmpty(scope), depth + 1, Below(spot, 0, 1), leaf);
    NonEmptyTwice(scope);
    SameScope(NonEmpty(scope), scope, below);
    assert scope + below == inherited + spot.route;
    SameListed(FlattenFile(w, file, at, scope, depth), NonEmpty(scope) + below, inherited + spot.route, leaf);
  }

  lemma {:induction false} ListedBlock(w: Repo, t: Task, at: Place, inherited: seq<Keywords>, depth: nat, spot: Spot,
                                       leaf: Task)
    requires t.action.Block? && depth < LIMIT
    requires FlattenTask(w, t, at, inherited, depth).Ok? && LiesIn(w, t, at, depth, spot, leaf)
    ensures Listed(FlattenTask(w, t, at, inherited, depth), inherited + spot.route, leaf)
    decreases Left(depth), t, 0
  {
    hide Listed; hide KeywordsOf; hide NonEmpty; hide Flatten; hide Lies; hide Section;
    var scope, route := inherited + [KeywordsOf(t)], spot.route;
    var main := Flatten(w, t.action.block, at, scope, depth + 1);
    var rescued := Flatten(w, t.action.rescue, at, scope + [Section("rescue")], depth + 1);
    var after := Flatten(w, t.action.always, at, scope + [Section("always")], depth + 1);
    if spot.position[0] == 0 {
      EveryLeafIsListed(w, t.action.block, at, scope, depth + 1, Below(spot, 1, 1), leaf);
      assert scope + route[1..] == inherited + route;
    } else if spot.position[0] == 1 {
      EveryLeafIsListed(w, t.action.rescue, at, scope + [Section("rescue")], depth + 1, Below(spot, 1, 2), leaf);
      assert scope + [Section("rescue")] + route[2..] == inherited + route;
    } else {
      EveryLeafIsListed(w, t.action.always, at, scope + [Section("always")], depth + 1, Below(spot, 1, 2), leaf);
      assert scope + [Section("always")] + route[2..] == inherited + route;
    }
    ListedAppend(main, rescued, inherited + route, leaf);
    ListedAppend(Ok(main.value + rescued.value), after, inherited + route, leaf);
  }

  // Document order

  predicate Precedes(p: seq<nat>, q: seq<nat>) {
    p != [] && q != [] && (p[0] < q[0] || (p[0] == q[0] && Precedes(p[1..], q[1..])))
  }

  predicate InOrder(spots: seq<Spot>) {
    forall j, k :: 0 <= j < k < |spots| ==> Precedes(spots[j].position, spots[k].position)
  }

  function Down(n: nat, passed: seq<Keywords>, spots: seq<Spot>): (down: seq<Spot>)
    ensures |down| == |spots|
    ensures forall k :: 0 <= k < |spots| ==> down[k] == Spot([n] + spots[k].position, passed + spots[k].route)
  {
    if spots == [] then []
    else [Spot([n] + spots[0].position, passed + spots[0].route)] + Down(n, passed, spots[1..])
  }

  function Later(spots: seq<Spot>): (later: seq<Spot>)
    requires forall k :: 0 <= k < |spots| ==> spots[k].position != []
    ensures |later| == |spots|
    ensures forall k :: 0 <= k < |spots| ==>
              later[k] == spots[k].(position := [spots[k].position[0] + 1] + spots[k].position[1..])
  {
    if spots == [] then []
    else [spots[0].(position := [spots[0].position[0] + 1] + spots[0].position[1..])] + Later(spots[1..])
  }

  lemma {:induction false} DownInOrder(n: nat, passed: seq<Keywords>, spots: seq<Spot>)
    requires InOrder(spots)
    ensures InOrder(Down(n, passed, spots))
  {
    forall j, k | 0 <= j < k < |spots| ensures Precedes([n] + spots[j].position, [n] + spots[k].position) {
      assert ([n] + spots[j].position)[1..] == spots[j].position && ([n] + spots[k].position)[1..] == spots[k].position;
    }
  }

  lemma {:induction false} LaterInOrder(spots: seq<Spot>)
    requires InOrder(spots) && forall k :: 0 <= k < |spots| ==> spots[k].position != []
    ensures InOrder(Later(spots))
  {
    forall j, k | 0 <= j < k < |spots| ensures Precedes(Later(spots)[j].position, Later(spots)[k].position) {
      assert Later(spots)[j].position[1..] == spots[j].position[1..];
      assert Later(spots)[k].position[1..] == spots[k].position[1..];
    }
  }

  lemma {:induction false} BothInOrder(xs: seq<Spot>, ys: seq<Spot>, n: nat)
    requires InOrder(xs) && InOrder(ys)
    requires forall k :: 0 <= k < |xs| ==> xs[k].position != [] && xs[k].position[0] <= n
    requires forall k :: 0 <= k < |ys| ==> ys[k].position != [] && ys[k].position[0] > n
    ensures InOrder(xs + ys)
  {
    hide Precedes;
    forall j, k | 0 <= j < |xs| && 0 <= k < |ys| ensures Precedes(xs[j].position, ys[k].position) {
      Earlier(xs[j].position, ys[k].position);
    }
  }

  lemma Earlier(p: seq<nat>, q: seq<nat>)
    requires p != [] && q != [] && p[0] < q[0]
    ensures Precedes(p, q)
  {
  }

  ghost predicate Stands(w: Repo, ts: seq<Task>, at: Place, inherited: seq<Keywords>, depth: nat, spot: Spot,
                         leaf: Leaf)
  {
    Lies(w, ts, at, depth, spot, leaf.task) && NonEmpty(leaf.scope) == NonEmpty(inherited + spot.route)
  }

  ghost predicate StandsIn(w: Repo, t: Task, at: Place, inherited: seq<Keywords>, depth: nat, spot: Spot, leaf: Leaf)
    requires depth < LIMIT
  {
    LiesIn(w, t, at, depth, spot, leaf.task) && NonEmpty(leaf.scope) == NonEmpty(inherited + spot.route)
  }

  /** Nothing is invented and nothing is moved: every listed leaf stands somewhere, its scope is
      the way there, and the list follows the order of the documents. */
  lemma {:induction false} LeavesStandInOrder(w: Repo, ts: seq<Task>, at: Place, inherited: seq<Keywords>, depth: nat)
    returns (spots: seq<Spot>)
    requires Flatten(w, ts, at, inherited, depth).Ok?
    ensures var leaves := Flatten(w, ts, at, inherited, depth).value;
            && |spots| == |leaves| && InOrder(spots)
            && forall k :: 0 <= k < |leaves| ==> Stands(w, ts, at, inherited, depth, spots[k], leaves[k])
    decreases Left(depth), ts, 0
  {
    hide FlattenTask; hide LiesIn; hide NonEmpty; hide Precedes;
    spots := [];
    if ts != [] {
      var first := FlattenTask(w, ts[0], at, inherited, depth).value;
      var rest := Flatten(w, ts[1..], at, inherited, depth).value;
      var here := LeavesOfTaskStandInOrder(w, ts[0], at, inherited, depth);
      var later := LeavesStandInOrder(w, ts[1..], at, inherited, depth);
      DownInOrder(0, [], here);
      LaterInOrder(later);
      BothInOrder(Down(0, [], here), Later(later), 0);
      spots := Down(0, [], here) + Later(later);
      forall k | 0 <= k < |first| ensures Stands(w, ts, at, inherited, depth, spots[k], first[k]) {
        assert [] + here[k].route == here[k].route;
        assert spots[k].(position := spots[k].position[1..]) == here[k];
      }
      forall k | 0 <= k < |rest| ensures Stands(w, ts, at, inherited, depth, spots[|first| + k], rest[k]) {
        var p := spots[|first| + k].position;
        assert [p[0] - 1] + p[1..] == later[k].position;
        assert spots[|first| + k].(position := [p[0] - 1] + p[1..]) == later[k];
      }
    }
  }

  lemma {:induction false} LeavesOfTaskStandInOrder(w: Repo, t: Task, at: Place, inherited: seq<Keywords>, depth: nat)
    returns (spots: seq<Spot>)
    requires depth < LIMIT && FlattenTask(w, t, at, inherited, depth).Ok?
    ensures var leaves := FlattenTask(w, t, at, inherited, depth).value;
            && |spots| == |leaves| && InOrder(spots)
            && forall k :: 0 <= k < |leaves| ==> StandsIn(w, t, at, inherited, depth, spots[k], leaves[k])
    decreases Left(depth), t, 1
  {
    hide Find; hide KeywordsOf; hide RoleExists; hide RoleFile; hide RoleDir; hide HasTemplate; hide NonEmpty;
    hide Flatten; hide Lies; hide FlattenFile; hide Precedes;
    spots := [Spot([], [])];
    assert inherited + [] == inherited;
    match t.action {
      case Block(_, _, _) => spots := LeavesOfBlockStandInOrder(w, t, at, inherited, depth);
      case Include(_, path, options) =>
        if Find(w, path, at).Some? {
          var file := Find(w, path, at).value;
          var more := KeywordsOf(t) + (if options.Some? then options.value else map[]);
          spots := LeavesOfFileStandInOrder(w, file, Place(file, at.chain + [file], at.role), inherited, more, depth);
        }
      case Role(_, role, tasksFrom, extra) =>
        if !HasTemplate(role) && RoleExists(w, role) {
          var file := RoleFile(w, role, tasksFrom);
          spots := LeavesOfFileStandInOrder(w, file, Place(file, at.chain + [file], Some(RoleDir(w, role))), inherited,
                                            KeywordsOf(t) + extra, depth);
        }
      case _ =>
    }
  }

  function Entering(more: Keywords, spots: seq<Spot>): (inside: seq<Spot>)
    ensures |inside| == |spots|
    ensures forall k :: 0 <= k < |spots| ==> inside[k] == spots[k].(route := [more] + spots[k].route)
  {
    if spots == [] then [] else [spots[0].(route := [more] + spots[0].route)] + Entering(more, spots[1..])
  }

  lemma {:induction false} LeavesOfFileStandInOrder(w: Repo, file: Dir, at: Place, inherited: seq<Keywords>,
                                                    more: Keywords, depth: nat)
    returns (spots: seq<Spot>)
    requires depth < LIMIT && FlattenFile(w, file, at, inherited + [more], depth).Ok?
    ensures var leaves := FlattenFile(w, file, at, inherited + [more], depth).value;
            && file in w.files && |spots| == |leaves| && InOrder(spots)
            && forall k :: 0 <= k < |leaves| ==>
                 && Through(spots[k], [more])
                 && Lies(w, w.files[file], at, depth + 1, Below(spots[k], 0, 1), leaves[k].task)
                 && NonEmpty(leaves[k].scope) == NonEmpty(inherited + spots[k].route)
    decreases Left(depth) - 1
  {
    hide Lies; hide Flatten; hide NonEmpty; hide Precedes;
    var scope := inherited + [more];
    var inside := LeavesStandInOrder(w, w.files[file], at, NonEmpty(scope), depth + 1);
    NonEmptyTwice(scope);
    spots := Entering(more, inside);
    forall k | 0 <= k < |spots|
      ensures Below(spots[k], 0, 1) == inside[k] && Through(spots[k], [more])
      ensures NonEmpty(NonEmpty(scope) + inside[k].route) == NonEmpty(inherited + spots[k].route)
    {
      SameScope(NonEmpty(scope), scope, inside[k].route);
      assert scope + inside[k].route == inherited + spots[k].route;
    }
  }

  lemma {:induction false} LeavesOfBlockStandInOrder(w: Repo, t: Task, at: Place, inherited: seq<Keywords>, depth: nat)
    returns (spots: seq<Spot>)
    requires t.action.Block? && depth < LIMIT && FlattenTask(w, t, at, inherited, depth).Ok?
    ensures var leaves := FlattenTask(w, t, at, inherited, depth).value;
            && |spots| == |leaves| && InOrder(spots)
            && forall k :: 0 <= k < |leaves| ==> StandsIn(w, t, at, inherited, depth, spots[k], leaves[k])
    decreases Left(depth), t, 0
  {
    hide KeywordsOf; hide NonEmpty; hide Flatten; hide Lies; hide Section; hide Precedes; hide InOrder; hide LiesIn;
    var own := [KeywordsOf(t)];
    var rescue, always := own + [Section("rescue")], own + [Section("always")];
    assert inherited + own + [Section("rescue")] == inherited + rescue;
    assert inherited + own + [Section("always")] == inherited + always;
    var a := LeavesStandInOrder(w, t.action.block, at, inherited + own, depth + 1);
    var b := LeavesStandInOrder(w, t.action.rescue, at, inherited + rescue, depth + 1);
    var d := LeavesStandInOrder(w, t.action.always, at, inherited + always, depth + 1);
    SectionStands(w, t, at, inherited, depth, 0, own, a,
                  Flatten(w, t.action.block, at, inherited + own, depth + 1).value);
    SectionStands(w, t, at, inherited, depth, 1, rescue, b,
                  Flatten(w, t.action.rescue, at, inherited + rescue, depth + 1).value);
    SectionStands(w, t, at, inherited, depth, 2, always, d,
                  Flatten(w, t.action.always, at, inherited + always, depth + 1).value);
    BothInOrder(Down(0, own, a), Down(1, rescue, b), 0);
    BothInOrder(Down(0, own, a) + Down(1, rescue, b), Down(2, always, d), 1);
    spots := Down(0, own, a) + Down(1, rescue, b) + Down(2, always, d);
  }

  /** A section's leaves stand in the block under the section's number and keywords. */
  lemma {:induction false} SectionStands(w: Repo, t: Task, at: Place, inherited: seq<Keywords>, depth: nat, n: nat,
                                         passed: seq<Keywords>, spots: seq<Spot>, leaves: seq<Leaf>)
    requires t.action.Block? && depth < LIMIT && n < 3 && |spots| == |leaves| && InOrder(spots)
    requires passed == [KeywordsOf(t)]
        + (if n == 0 then [] else if n == 1 then [Section("rescue")] else [Section("always")])
    requires forall k :: 0 <= k < |leaves| ==>
               Stands(w, if n == 0 then t.action.block else if n == 1 then t.action.rescue else t.action.always, at,
                      inherited + passed, depth + 1, spots[k], leaves[k])
    ensures InOrder(Down(n, passed, spots))
    ensures forall k :: 0 <= k < |leaves| ==> StandsIn(w, t, at, inherited, depth, Down(n, passed, spots)[k], leaves[k])
  {
    hide KeywordsOf; hide NonEmpty; hide Lies; hide Section; hide Precedes; hide InOrder;
    DownInOrder(n, passed, spots);
    forall k | 0 <= k < |leaves| ensures StandsIn(w, t, at, inherited, depth, Down(n, passed, spots)[k], leaves[k]) {
      var spot := Down(n, passed, spots)[k];
      assert Below(spot, 1, |passed|) == spots[k];
      assert inherited + passed + spots[k].route == inherited + spot.route;
    }
  }
}
