/** `check-structure.measure_readme`: directories no README maps. */
module Readme {
  import opened Text
  import opened Paths
  import opened Order

  const README_SKIP: seq<string> := ["ansible/roles/", ".github", ".claude", "gate/fixtures/"]

  function Spelled(d: Dir): string { Join(d, '/') }

  predicate Skipped(d: Dir) {
    exists k | 0 <= k < |README_SKIP| :: README_SKIP[k] <= Spelled(d) || README_SKIP[k] == Spelled(d) + "/"
  }

  /** The directories of tracked files, and the directories those stand in. */
  function Dirs(files: set<Dir>): set<Dir> {
    var held := (set f | f in files :: Parent(f)) - {[]};
    held + ((set d | d in held :: Parent(d)) - {[]})
  }

  /** A directory is looked at exactly when it holds a tracked file, or a directory that does. */
  lemma {:induction false} DirsHoldFiles(files: set<Dir>, d: Dir)
    ensures d in Dirs(files)
       <==> d != [] && exists f :: f in files && (Parent(f) == d || (Parent(f) != [] && Parent(Parent(f)) == d))
  {
    var held := (set f | f in files :: Parent(f)) - {[]};
    if d in Dirs(files) && d !in held {
      var e :| e in held && Parent(e) == d;
      assert exists f :: f in files && Parent(f) == e;
    }
  }

  lemma {:induction false} BelowTwo(d: Dir, a: Name, b: Name)
    ensures a + "/" + b + "/" <= Spelled(d) || a + "/" + b + "/" == Spelled(d) + "/" <==> [a, b] <= d
  {
    hide Join;
    var top: Dir := [a, b];
    JoinTwo(a, b);
    AbsoluteBelow(d, top);
    var start := a + "/" + b + "/";
    assert Absolute(top) + "/" == "/" + start && Absolute(d) == "/" + Spelled(d);
    assert start <= Spelled(d) <==> "/" + start <= "/" + Spelled(d) by {
      assert ("/" + start)[1..] == start && ("/" + Spelled(d))[1..] == Spelled(d);
    }
    AbsoluteNames(d, top);
    assert start == Spelled(d) + "/" <==> Absolute(top) == Absolute(d) by {
      assert start[..|start| - 1] == Join(top, '/') && (Spelled(d) + "/")[..|Spelled(d)|] == Spelled(d);
      assert Absolute(top)[1..] == Join(top, '/') && Absolute(d)[1..] == Spelled(d);
    }
  }

  lemma {:induction false} StartsFirst(d: Dir, start: string)
    requires start != "" && '/' !in start
    ensures start <= Spelled(d) <==> d != [] && start <= d[0]
    ensures start != Spelled(d) + "/"
  {
    assert forall i :: 0 <= i < |start| ==> start[i] in start;
    var name := Spelled(d);
    assert (name + "/")[|name|] == '/';
    if |d| > 1 {
      assert name == d[0] + ("/" + Join(d[1..], '/')) && name[|d[0]|] == '/';
    }
  }

  /** Skipped are two directories with everything below them, and whatever stands below a top
      directory that starts like one of the two hidden ones. */
  lemma {:induction false} SkippedByPlace(d: Dir)
    ensures Skipped(d)
       <==> ["ansible", "roles"] <= d || ["gate", "fixtures"] <= d
            || (d != [] && (".github" <= d[0] || ".claude" <= d[0]))
  {
    hide Spelled; hide Join;
    BelowTwo(d, "ansible", "roles");
    BelowTwo(d, "gate", "fixtures");
    StartsFirst(d, ".github");
    StartsFirst(d, ".claude");
    assert "ansible" + "/" + "roles" + "/" == "ansible/roles/" && "gate" + "/" + "fixtures" + "/" == "gate/fixtures/";
    assert README_SKIP[0] == "ansible/roles/" && README_SKIP[1] == ".github" && README_SKIP[2] == ".claude"
        && README_SKIP[3] == "gate/fixtures/";
    forall k | 0 <= k < |README_SKIP|
      ensures README_SKIP[k] <= Spelled(d) || README_SKIP[k] == Spelled(d) + "/" ==> Skipped(d)
    {
    }
    if Skipped(d) {
      var k :| 0 <= k < |README_SKIP| && (README_SKIP[k] <= Spelled(d) || README_SKIP[k] == Spelled(d) + "/");
      assert k == 0 || k == 1 || k == 2 || k == 3;
    }
  }

  /** The READMEs on disk, by directory, and the directory names each one mentions. */
  datatype Tree = Tree(readmes: set<Dir>, mentions: set<(Dir, string)>)

  /** `d[..k]` is the closest ancestor of `d` with a README, the root standing in for none. */
  ghost predicate Nearest(t: Tree, d: Dir, k: nat) {
    && k < |d| && (k == 0 || d[..k] in t.readmes)
    && forall j :: k < j < |d| ==> d[..j] !in t.readmes
  }

  /** The closest README above the directory exists and names it by its relative path. */
  ghost predicate MappedAbove(t: Tree, d: Dir) {
    exists k: nat :: Nearest(t, d, k) && d[..k] in t.readmes && (d[..k], Join(d[k..], '/')) in t.mentions
  }

  /** Whether one directory is mapped, by the upward loop. */
  method Maps(t: Tree, d: Dir) returns (mapped: bool)
    requires d != []
    ensures mapped <==> MappedAbove(t, d)
  {
    var above := Parent(d);
    while above != [] && above !in t.readmes
      invariant |above| < |d| && above == d[..|above|]
      invariant forall j :: |above| < j < |d| ==> d[..j] !in t.readmes
      decreases |above|
    {
      assert Parent(above) == d[..|above| - 1];
      above := Parent(above);
    }
    ghost var k := |above|;
    assert Nearest(t, d, k);
    RelativeBelow(d, k);
    mapped := above in t.readmes && (above, Relpath(d, above)) in t.mentions;
    if j: nat :| Nearest(t, d, j) && d[..j] in t.readmes && (d[..j], Join(d[j..], '/')) in t.mentions {
      assert d[..j] in t.readmes && j == k;
    }
  }

  /** A directory is reported exactly when it is not skipped, has no README, and the closest
      README above it is absent or does not name it. */
  ghost predicate Unmapped(files: set<Dir>, t: Tree, d: Dir) {
    d in Dirs(files) && !Skipped(d) && d !in t.readmes && !MappedAbove(t, d)
  }

  lemma {:induction false} SpelledBack(d: Dir)
    requires d != []
    ensures Split(Spelled(d), '/') == d
  {
    SplitJoin(d, '/');
  }

  lemma {:induction false} NextIsHigher(ordered: seq<string>, missing: seq<string>, i: nat)
    requires Increasing(ordered) && Increasing(missing) && i < |ordered|
    requires forall x :: x in missing ==> x in ordered[..i]
    ensures Increasing(missing + [ordered[i]])
  {
    hide Less;
    forall k | 0 <= k < |missing| ensures Less(missing[k], ordered[i]) {
      assert missing[k] in ordered[..i];
    }
  }

  /** The reported directories, as they are printed: the unmapped ones by name, in order. */
  method MeasureReadme(files: set<Dir>, t: Tree) returns (missing: seq<string>)
    ensures Increasing(missing)
    ensures forall name :: name in missing <==> exists d :: Unmapped(files, t, d) && Spelled(d) == name
  {
    hide Skipped; hide MappedAbove; hide Increasing; hide Dirs; hide Spelled;
    var names := set d | d in Dirs(files) :: Spelled(d);
    var ordered := Sorted(names);
    missing := [];
    assert Increasing(missing) by { NothingToSort(); }
    for i := 0 to |ordered|
      invariant Increasing(missing) && forall name :: name in missing ==> name in ordered[..i]
      invariant forall name :: name in missing <==>
                  name in ordered[..i] && exists d :: Unmapped(files, t, d) && Spelled(d) == name
    {
      var name := ordered[i];
      assert name in names;
      ghost var e :| e in Dirs(files) && Spelled(e) == name;
      NamesADir(files, e);
      var d: Dir := Split(name, '/');
      assert d == e;
      SameName(files, d);
      assert ordered[..i + 1] == ordered[..i] + [name];
      if Skipped(d) || d in t.readmes { continue; }
      var mapped := Maps(t, d);
      if !mapped {
        NextIsHigher(ordered, missing, i);
        missing := missing + [name];
      }
    }
    assert ordered[..|ordered|] == ordered;
    forall name, d | Unmapped(files, t, d) && Spelled(d) == name ensures name in ordered {
      assert d in Dirs(files) && name in names;
    }
  }

  lemma NamesADir(files: set<Dir>, d: Dir)
    requires d in Dirs(files)
    ensures d != [] && Split(Spelled(d), '/') == d
  {
    SpelledBack(d);
  }

  lemma SameName(files: set<Dir>, d: Dir)
    requires d in Dirs(files)
    ensures forall e :: e in Dirs(files) && Spelled(e) == Spelled(d) ==> e == d
  {
    forall e | e in Dirs(files) && Spelled(e) == Spelled(d) ensures e == d {
      NamesADir(files, d);
      NamesADir(files, e);
    }
  }
}
