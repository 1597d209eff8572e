/** Entries that the part suite accepts and whose parts cannot be moved into them unseen. */
module PartDifferences {
  import opened Text
  import opened Paths
  import opened Tasks
  import opened TaskParts
  import opened Chain
  import opened PartSplit
  import opened Names
  import opened PartEquivalence
  import opened Rendering

  // An entry of one bare import

  /** The entry's own import of its part `file`, by a path below the entry's stem. */
  function PartImport(stem: Name, file: Name): Task { Importing(stem + "/" + file) }

  lemma {:induction false} TwoAnchors(dir: Dir, a: Name, b: Name)
    ensures Anchor(dir, a + "/" + b) == dir + [a, b]
  {
    hide Join; hide Split;
    var down: Dir := [a, b];
    JoinTwo(a, b);
    SplitJoin(down, '/');
    assert (a + "/" + b)[0] == a[0] && a[0] in a;
    NormDown(dir, down);
  }

  /** An entry file, the stem its parts stand below, and a part of it; no name has a brace. */
  predicate PartNames(dir: Dir, name: Name, stem: Name, file: Name) {
    Suffixed(name, stem) && PlainDir(dir) && BraceFree(stem) && BraceFree(file)
  }

  predicate Suffixed(name: string, stem: string) {
    |stem| + 1 < |name| && name[..|stem| + 1] == stem + "." && '.' !in name[|stem| + 1..]
  }

  lemma {:induction false} SuffixedStem(name: string, stem: string)
    requires Suffixed(name, stem) && stem != ""
    ensures Stem(name) == stem
  {
    hide Stem;
    assert name == stem + "." + name[|stem| + 1..];
    StemOf(stem, name[|stem| + 1..]);
  }

  lemma {:induction false} PartIsNamed(dir: Dir, name: Name, stem: Name, file: Name)
    requires PartNames(dir, name, stem, file)
    ensures var t, entry := PartImport(stem, file), dir + [name];
            && PartOf(t, entry) == Some(dir + [stem, file]) && !HasTemplate(t.action.path)
            && Parent(entry) == dir && Parent(dir + [stem, file]) == dir + [stem]
  {
    hide Anchor; hide Tail; hide Stem;
    SuffixedStem(name, stem);
    TwoAnchors(dir, stem, file);
    assert BraceFree(stem + "/" + file);
    PlainHasNoTemplate(stem + "/" + file);
  }

  /** An entry `<stem>.yml` with the bare import of `<stem>/<file>` is spliced to that part's own
      tasks, spliced in turn and moved to the entry; without the file it is not spliced. */
  lemma {:induction false} PartIsSpliced(files: map<Dir, seq<Task>>, fuel: nat, dir: Dir, stem: Name, file: Name)
    ensures Normal(stem + ".yml")
    ensures var part: Dir, entry: File := dir + [stem, file], dir + [stem + ".yml"];
            var inner := if part in files then Splice(files, fuel, files[part], entry) else Failure;
            Splice(files, fuel + 1, [Importing(stem + "/" + file)], entry)
            == if inner.Failure? then Failure else Ok(Rebase(inner.value, dir + [stem], dir))
  {
    hide PartOf; hide Splice; hide Rebase;
    var part: Dir := dir + [stem, file];
    PartIsBare(PartImport(stem, file), dir, stem, part);
    TwoAnchors(dir, stem, file);
    var entry: File := dir + [stem + ".yml"];
    SpliceAlone(files, fuel + 1, PartImport(stem, file), entry);
    assert Parent(entry) == dir && Parent(part) == dir + [stem];
  }

  /** What splicing makes of it, when the part holds one task that is no part import. */
  lemma {:induction false} OneSplices(files: map<Dir, seq<Task>>, fuel: nat, dir: Dir, name: Name, stem: Name,
                                      file: Name, inner: Task)
    requires PartNames(dir, name, stem, file) && dir + [stem, file] in files && files[dir + [stem, file]] == [inner]
    requires PartOf(inner, dir + [name]).None? && !inner.action.Block?
    ensures Splice(files, fuel + 1, [PartImport(stem, file)], dir + [name])
         == Ok([RebaseTask(inner, dir + [stem], dir)])
  {
    hide PartOf; hide RebaseTask;
    PartIsNamed(dir, name, stem, file);
    var t := PartImport(stem, file);
    assert [t][1..] == [] && [inner][1..] == [];
    SpliceNothing(files, fuel, [inner], dir + [name]);
    RebaseSingle(inner, dir + [stem], dir);
    var moved := [RebaseTask(inner, dir + [stem], dir)];
    assert moved + [] == moved;
  }

  /** What the resolver makes of it: the part's own tasks, read from the part. */
  lemma {:induction false} OneIsRead(w: Repo, dir: Dir, name: Name, stem: Name, file: Name, chain: seq<Dir>,
                                     role: Option<Dir>, inherited: seq<Keywords>, depth: nat)
    requires PartNames(dir, name, stem, file) && dir + [stem, file] in w.files && depth < LIMIT
    ensures var part: Dir := dir + [stem, file];
            Flatten(w, [PartImport(stem, file)], Place(dir + [name], chain, role), inherited, depth)
            == Flatten(w, w.files[part], Place(part, chain + [part], role), NonEmpty(inherited), depth + 1)
  {
    hide Flatten; hide NonEmpty; hide PartOf; hide HasTemplate;
    PartIsNamed(dir, name, stem, file);
    var at := Place(dir + [name], chain, role);
    FlattenOne(w, PartImport(stem, file), at, inherited, depth);
    PartIsRead(w, PartImport(stem, file), dir + [name], at, inherited, depth);
  }

  lemma IncludingIsNoPart(path: string, entry: File)
    ensures PartOf(Including(path), entry).None?
  {
  }

  // A templated include behind a literal prefix

  const SIBLING: string := "../{{ x }}.yml"
  const HERE: string := "./{{ x }}.yml"
  const X: string := "{{ x }}.yml"

  lemma {:induction false} XHasNo(sub: string)
    requires |sub| > 3 && sub[..2] == BRACES && sub[3] != 'x'
    ensures !Contains(X, sub)
  {
    hide Contains;
    var rest := " x }}.yml";
    assert X[3] == 'x' && !(sub <= X);
    assert X[1..] == "{" + rest && ("{" + rest)[1..] == rest;
    assert sub[1] == sub[..2][1] == '{' && ("{" + rest)[1] == ' ';
    NothingInNothing(sub);
    SearchSkips(rest, "", sub);
    assert rest + "" == rest;
    NotThere("{" + rest, sub);
    NotThere(X, sub);
  }

  lemma NothingInNothing(sub: string)
    requires sub != ""
    ensures !Contains("", sub)
  {
  }

  /** A path that ends in the template and starts with dots and slashes stays as it is. */
  lemma {:induction false} StaysTemplate(w: Repo, p: string, role: Option<Dir>)
    requires '{' !in p
    ensures Substituted(w, p + X, role) == p + X && HasTemplate(p + X) && Prefix(p + X) == p && Tail(p + X) == X
  {
    hide Prefix; hide Tail;
    PartsOf(p, X);
    XIsKept(p, "{{ playbook_dir }}", Absolute(Parent(w.playbook)));
    if role.Some? { XIsKept(p, "{{ role_path }}", Absolute(role.value)); }
  }

  lemma {:induction false} XIsKept(p: string, sub: string, put: string)
    requires '{' !in p && |sub| > 3 && sub[..2] == BRACES && sub[3] != 'x'
    ensures Replace(p + X, sub, put) == p + X
  {
    hide Replace; hide Contains;
    XHasNo(sub);
    assert sub[0] == sub[..2][0];
    SearchSkips(p, X, sub);
    ReplaceNothing(p + X, sub, put);
  }

  lemma {:induction false} UpAndBack(dir: Dir, stem: Name)
    ensures Anchor(dir + [stem], "../") == dir && Relpath(dir, dir) == "."
  {
    hide Norm;
    var up := dir + [stem];
    SplitJoin([".."], '/');
    SplitSlash("..");
    JoinOne("..");
    var pieces: seq<string> := ["..", ""];
    assert Split("../", '/') == pieces by { assert ".." + "/" == "../" && [".."] + [""] == pieces; }
    assert !("/" <= "../") by { assert "../"[0] == '.'; }
    NormUp(up);
    CommonIsPrefix(dir, dir);
    assert Steps(dir, dir) == [];
  }

  lemma NormUp(dir: Dir)
    ensures NoSlash(["..", ""]) && Norm(dir, ["..", ""]) == Parent(dir)
  {
    var pieces: seq<string> := ["..", ""];
    assert pieces[1..] == [""] && pieces[1..][1..] == [];
    assert Norm(dir, pieces) == Norm(Parent(dir), pieces[1..]);
  }

  /** A part that includes a sibling of its entry by a template: under the part the include stays
      a leaf with its text, `../{{ x }}.yml`; spliced into the entry its text is `./{{ x }}.yml`.
      So the leaves of the entry and of its spliced form differ, for every such entry. */
  lemma {:induction false} TemplatedPartDiffers(w: Repo, fuel: nat, dir: Dir, name: Name, stem: Name, file: Name,
                                                chain: seq<Dir>, role: Option<Dir>, inherited: seq<Keywords>,
                                                depth: nat)
    requires PartNames(dir, name, stem, file) && depth + 1 < LIMIT
    requires dir + [stem, file] in w.files && w.files[dir + [stem, file]] == [Including(SIBLING)]
    ensures var ts, at := [PartImport(stem, file)], Place(dir + [name], chain, role);
            var spliced := Splice(w.files, fuel + 1, ts, dir + [name]);
            && spliced == Ok([Including(HERE)])
            && Flatten(w, ts, at, inherited, depth) == Ok([Leaf(Including(SIBLING), NonEmpty(inherited))])
            && Flatten(w, spliced.value, at, inherited, depth) == Ok([Leaf(Including(HERE), inherited)])
            && !Same(Flatten(w, ts, at, inherited, depth), Flatten(w, spliced.value, at, inherited, depth))
  {
    hide Flatten; hide KeywordsOf; hide Rebased; hide Substituted; hide NonEmpty; hide Splice;
    var part: Dir := dir + [stem, file];
    assert "../" + X == SIBLING && "./" + X == HERE && SIBLING[1] == '.' && HERE[1] == '/';
    IncludingIsNoPart(SIBLING, dir + [name]);
    OneSplices(w.files, fuel, dir, name, stem, file, Including(SIBLING));
    SiblingMoves(dir, stem);
    assert RebaseTask(Including(SIBLING), dir + [stem], dir) == Including(HERE);
    OneIsRead(w, dir, name, stem, file, chain, role, inherited, depth);
    TemplatedLeaf(w, "../", Place(part, chain + [part], role), NonEmpty(inherited), depth + 1);
    TemplatedLeaf(w, "./", Place(dir + [name], chain, role), inherited, depth);
    TrimmedOne();
  }

  lemma {:induction false} TemplatedLeaf(w: Repo, p: string, at: Place, inherited: seq<Keywords>, depth: nat)
    requires '{' !in p && depth < LIMIT
    ensures Flatten(w, [Including(p + X)], at, inherited, depth) == Ok([Leaf(Including(p + X), inherited)])
  {
    hide Find; hide KeywordsOf; hide Flatten; hide HasTemplate; hide Substituted;
    StaysTemplate(w, p, at.role);
    FindParts(w, p + X, at);
    FlattenOne(w, Including(p + X), at, inherited, depth);
  }

  lemma {:induction false} SiblingMoves(dir: Dir, stem: Name)
    ensures Rebased(SIBLING, dir + [stem], dir) == HERE
  {
    hide Anchor; hide Relpath;
    UpAndBack(dir, stem);
    PartsOf("../", X);
    assert "../" + X == SIBLING && "." + "/" == "./" && "./" + X == HERE;
    assert SIBLING[0] == '.' && "../"[2] == '/';
  }

  lemma RebaseSingle(t: Task, source: Dir, base: Dir)
    ensures Rebase([t], source, base) == [RebaseTask(t, source, base)]
  {
    assert [t][1..] == [];
  }

  // A file below a part that relies on the part's directory

  const LIB: string := "../lib/f.yml"
  const Q: Name := "q.yml"

  const LIB_PIECES: seq<string> := ["..", "lib", "f.yml"]

  lemma JoinThree(a: string, b: string, c: string)
    ensures Join([a, b, c], '/') == a + "/" + b + "/" + c
  {
    var low: seq<string> := [b, c];
    assert [a, b, c][1..] == low && low[1..] == [c];
    JoinOne(c);
    assert Join(low, '/') == b + ['/'] + c;
  }

  lemma {:induction false} LibSplits()
    ensures Split(LIB, '/') == LIB_PIECES && !("/" <= LIB)
  {
    hide Split; hide Join;
    JoinThree("..", "lib", "f.yml");
    assert LIB == ".." + "/" + "lib" + "/" + "f.yml";
    SplitJoin(LIB_PIECES, '/');
    assert LIB[0] == '.';
  }

  lemma LibIsPlain()
    ensures BraceFree(LIB)
  {
  }

  lemma {:induction false} LibAnchors(dir: Dir, stem: Name)
    ensures Anchor(dir + [stem], LIB) == dir + ["lib", "f.yml"]
  {
    hide Split; hide Norm;
    LibSplits();
    NormUps(dir + [stem], 1);
    var down: Dir := ["lib", "f.yml"];
    NormDown(dir, down);
    NormAppend(dir + [stem], Ups(1), down);
    assert Ups(1) + down == LIB_PIECES && (dir + [stem])[..|dir|] == dir;
  }

  /** A part includes a file beside its entry, as the suite requires; that file includes `q.yml`,
      which stands in the part's directory only. Under the part the resolver finds it there;
      with the part spliced into the entry it does not, and keeps the include. */
  lemma {:induction false} FileBelowPartDiffers(w: Repo, fuel: nat, dir: Dir, name: Name, stem: Name, file: Name,
                                                chain: seq<Dir>, role: Option<Dir>, act: Task, depth: nat)
    requires PartNames(dir, name, stem, file) && depth + 3 < LIMIT && act.action.Module?
    requires dir + [stem, file] in w.files && w.files[dir + [stem, file]] == [Including(LIB)]
    requires var lib, q := dir + ["lib", "f.yml"], dir + [stem, Q];
             && lib in w.files && w.files[lib] == [Including(Q)] && q in w.files && w.files[q] == [act]
             && dir + ["lib", Q] !in w.files && Rest(w, Q, chain, role).None?
    ensures var ts, at := [PartImport(stem, file)], Place(dir + [name], chain, role);
            var spliced := Splice(w.files, fuel + 1, ts, dir + [name]);
            && spliced.Ok?
            && var split, whole := Flatten(w, ts, at, [], depth), Flatten(w, spliced.value, at, [], depth);
               && split.Ok? && |split.value| == 1 && split.value[0].task == act
               && whole.Ok? && |whole.value| == 1 && whole.value[0].task == Including(Q)
               && !Same(split, whole)
  {
    hide Find; hide KeywordsOf; hide Anchor; hide Rebased; hide Rest; hide MoveUnseen; hide FlattenFile; hide NonEmpty;
    hide Flatten; hide Splice;
    var part, lib: Dir, q: Dir := dir + [stem, file], dir + ["lib", "f.yml"], dir + [stem, Q];
    IncludingIsNoPart(LIB, dir + [name]);
    OneSplices(w.files, fuel, dir, name, stem, file, Including(LIB));
    OneIsRead(w, dir, name, stem, file, chain, role, [], depth);
    var moved := Including(Rebased(LIB, dir + [stem], dir));
    assert RebaseTask(Including(LIB), dir + [stem], dir) == moved;
    PartIsNamed(dir, name, stem, file);
    LibAnchors(dir, stem);
    LibIsPlain();
    MovedIsFound(w, Including(LIB).action, part, dir + [name], chain, role);
    QFound(w, dir, stem, part, chain, role);
    LibIncluded(w, act, Including(LIB), lib, q, part, chain + [part], role, NonEmpty([]), depth + 1);
    LibIncluded(w, act, moved, lib, q, dir + [name], chain, role, [], depth);
    TrimmedOne();
    var split := Flatten(w, w.files[part], Place(part, chain + [part], role), NonEmpty([]), depth + 1);
    var whole := Flatten(w, [moved], Place(dir + [name], chain, role), [], depth);
    assert split.value == [split.value[0]] && whole.value == [whole.value[0]];
    assert Trimmed(split.value)[0].task == act && Trimmed(whole.value)[0].task == Including(Q);
  }

  lemma {:induction false} LibIncluded(w: Repo, act: Task, t: Task, lib: Dir, q: Dir, here: Dir, chain: seq<Dir>,
                                       role: Option<Dir>, inherited: seq<Keywords>, depth: nat)
    requires depth + 2 < LIMIT && act.action.Module? && t.action.Include? && t == Including(t.action.path)
    requires lib in w.files && w.files[lib] == [Including(Q)] && q in w.files && w.files[q] == [act]
    requires Find(w, t.action.path, Place(here, chain, role)) == Some(lib)
    requires var found := Find(w, Q, Place(lib, chain + [lib], role)); found == Some(q) || found == None
    ensures var leaves := Flatten(w, [t], Place(here, chain, role), inherited, depth);
            && leaves.Ok? && |leaves.value| == 1
            && leaves.value[0].task == if Find(w, Q, Place(lib, chain + [lib], role)).Some? then act else Including(Q)
  {
    hide Find; hide KeywordsOf; hide FlattenFile; hide NonEmpty; hide Flatten;
    FlattenOne(w, t, Place(here, chain, role), inherited, depth);
    LibLeaves(w, act, lib, q, chain + [lib], role, inherited + [KeywordsOf(t) + map[]], depth);
  }

  /** Below the part `q.yml` is found in its directory, without it nowhere. */
  lemma {:induction false} QFound(w: Repo, dir: Dir, stem: Name, part: Dir, chain: seq<Dir>, role: Option<Dir>)
    requires Parent(part) == dir + [stem] && dir + [stem, Q] in w.files && dir + ["lib", Q] !in w.files
    requires Rest(w, Q, chain, role).None?
    ensures var lib := dir + ["lib", "f.yml"];
            && Find(w, Q, Place(lib, chain + [part] + [lib], role)) == Some(dir + [stem, Q])
            && Find(w, Q, Place(lib, chain + [lib], role)) == None
  {
    hide Anchor; hide Find; hide Rest;
    var lib: Dir := dir + ["lib", "f.yml"];
    assert Parent(lib) == dir + ["lib"];
    PieceAnchors(dir + ["lib"], Q);
    PieceAnchors(dir + [stem], Q);
    assert dir + ["lib"] + [Q] == dir + ["lib", Q] && dir + [stem] + [Q] == dir + [stem, Q];
    assert BraceFree(Q);
    PlainHasNoTemplate(Q);
    SubstitutedNothing(w, Q, role);
    FindParts(w, Q, Place(lib, chain + [part] + [lib], role));
    FindParts(w, Q, Place(lib, chain + [lib], role));
    RestBelow(w, Q, chain + [part], lib, role);
    RestBelow(w, Q, chain, part, role);
    RestBelow(w, Q, chain, lib, role);
  }

  lemma {:induction false} LibLeaves(w: Repo, act: Task, lib: Dir, q: Dir, chain: seq<Dir>, role: Option<Dir>,
                                     scope: seq<Keywords>, depth: nat)
    requires depth + 2 < LIMIT && act.action.Module?
    requires lib in w.files && w.files[lib] == [Including(Q)] && q in w.files && w.files[q] == [act]
    requires Find(w, Q, Place(lib, chain, role)) == Some(q) || Find(w, Q, Place(lib, chain, role)) == None
    ensures var leaves := FlattenFile(w, lib, Place(lib, chain, role), scope, depth);
            && leaves.Ok? && |leaves.value| == 1
            && leaves.value[0].task == if Find(w, Q, Place(lib, chain, role)).Some? then act else Including(Q)
  {
    hide Find; hide KeywordsOf; hide NonEmpty;
    FlattenOne(w, Including(Q), Place(lib, chain, role), NonEmpty(scope), depth + 1);
    if Find(w, Q, Place(lib, chain, role)).Some? {
      var inside := NonEmpty(NonEmpty(scope) + [KeywordsOf(Including(Q)) + map[]]);
      FlattenOne(w, act, Place(q, chain + [q], role), inside, depth + 2);
    }
  }

  // Parts of parts

  /** A part that imports a sibling part: once the path is read from the entry it names a part of
      the entry, and `inline` leaves the import behind. */
  lemma {:induction false} SiblingImportRemains(files: map<Dir, seq<Task>>, fuel: nat, dir: Dir, name: Name, stem: Name,
                                                file: Name, sibling: Name)
    requires PartNames(dir, name, stem, file) && BraceFree(sibling)
    requires dir + [stem, file] in files && files[dir + [stem, file]] == [Importing(sibling)]
    ensures var spliced := Splice(files, fuel + 1, [PartImport(stem, file)], dir + [name]);
            && spliced == Ok([PartImport(stem, sibling)])
            && PartOf(spliced.value[0], dir + [name]) == Some(dir + [stem, sibling])
            && !NoParts(spliced.value, dir + [name])
  {
    hide PartOf; hide Splice; hide Rebased;
    NameIsNoPart(sibling, dir + [name]);
    OneSplices(files, fuel, dir, name, stem, file, Importing(sibling));
    NameMoves(dir, stem, sibling);
    assert RebaseTask(Importing(sibling), dir + [stem], dir) == PartImport(stem, sibling);
    PartIsNamed(dir, name, stem, sibling);
  }

  lemma NameIsNoPart(name: Name, entry: File)
    ensures PartOf(Importing(name), entry).None?
  {
    var start := EntryStem(entry) + "/";
    assert start[|start| - 1] == '/';
  }

  /** A name beside the part is a path below the stem from the entry. */
  lemma {:induction false} NameMoves(dir: Dir, stem: Name, piece: Name)
    requires BraceFree(piece)
    ensures Rebased(piece, dir + [stem], dir) == stem + "/" + piece
  {
    hide Anchor; hide Prefix; hide Tail; hide Relpath;
    PieceAnchors(dir + [stem], piece);
    PlainHasNoTemplate(piece);
    var d: Dir := dir + [stem, piece];
    assert dir + [stem] + [piece] == d && d[..|dir|] == dir && d[|dir|..] == [stem, piece];
    RelativeBelow(d, |dir|);
    JoinTwo(stem, piece);
    assert piece[|piece| - 1] in piece;
    var s := stem + "/" + piece;
    assert s + "" == s;
  }

  const UP: string := "../q.yml"

  lemma {:induction false} UpMoves(dir: Dir, stem: Name)
    ensures Anchor(dir + [stem], UP) == dir + [Q] && Rebased(UP, dir + [stem], dir) == Q
  {
    hide Norm; hide Split; hide Prefix; hide Tail; hide Relpath;
    UpIsPlain();
    var pieces: seq<string> := ["..", Q];
    JoinTwo("..", Q);
    assert ".." + "/" + Q == UP && UP[0] == '.' && UP[|UP| - 1] == 'l';
    SplitJoin(pieces, '/');
    NormUps(dir + [stem], 1);
    var down: Dir := [Q];
    NormDown(dir, down);
    NormAppend(dir + [stem], Ups(1), down);
    assert Ups(1) + down == pieces && (dir + [stem])[..|dir|] == dir;
    PlainHasNoTemplate(UP);
    var d: Dir := dir + [Q];
    assert d[..|dir|] == dir && d[|dir|..] == [Q];
    RelativeBelow(d, |dir|);
    JoinOne(Q);
    assert Q + "" == Q;
  }

  lemma UpIsPlain()
    ensures BraceFree(UP) && BraceFree(Q)
  {
  }

  /** A part below a part, by a path as `inline` reads it: the include `../q.yml` of the inner part,
      which names a file beside the entry, is moved twice and names one in the parts' directory. */
  lemma {:induction false} NestedPartDiffers(files: map<Dir, seq<Task>>, fuel: nat, dir: Dir, name: Name, stem: Name,
                                             outer: Name, inner: Name)
    requires PartNames(dir, name, stem, outer) && PartNames(dir, name, stem, inner)
    requires dir + [stem, outer] in files && files[dir + [stem, outer]] == [PartImport(stem, inner)]
    requires dir + [stem, inner] in files && files[dir + [stem, inner]] == [Including(UP)]
    ensures Splice(files, fuel + 2, [PartImport(stem, outer)], dir + [name]) == Ok([Including(stem + "/" + Q)])
    ensures Anchor(dir, stem + "/" + Q) == dir + [stem, Q] && Anchor(dir + [stem], UP) == dir + [Q]
  {
    hide PartOf; hide Rebased; hide Anchor;
    IncludingIsNoPart(UP, dir + [name]);
    OneSplices(files, fuel, dir, name, stem, inner, Including(UP));
    UpIsPlain();
    UpMoves(dir, stem);
    assert RebaseTask(Including(UP), dir + [stem], dir) == Including(Q);
    NameMoves(dir, stem, Q);
    assert RebaseTask(Including(Q), dir + [stem], dir) == Including(stem + "/" + Q);
    RebaseSingle(Including(Q), dir + [stem], dir);
    PartIsNamed(dir, name, stem, outer);
    TwoAnchors(dir, stem, Q);
    SpliceAlone(files, fuel + 2, PartImport(stem, outer), dir + [name]);
  }

  lemma {:induction false} SpliceAlone(files: map<Dir, seq<Task>>, fuel: nat, t: Task, entry: File)
    ensures Splice(files, fuel, [t], entry) == SpliceTask(files, fuel, t, entry)
  {
    hide SpliceTask;
    assert [t][1..] == [];
    var r := SpliceTask(files, fuel, t, entry);
    if r.Ok? { assert r.value + [] == r.value; }
  }
}
