/** Absolute, symlink-free directories and the include texts that are read against them. */
module Paths {
  import opened Text

  predicate Normal(c: string) { c != "" && c != "." && c != ".." && '/' !in c }

  /** An absolute path as its components below the root. */
  type Dir = d: seq<string> | forall k :: 0 <= k < |d| ==> Normal(d[k]) witness []

  type Name = c: string | Normal(c) witness "x"

  function Parent(d: Dir): Dir { if d == [] then [] else d[..|d| - 1] }

  function Absolute(d: Dir): string { "/" + Join(d, '/') }

  // Reading a text against a directory: `normpath(dir / text)`

  predicate NoSlash(pieces: seq<string>) { forall k :: 0 <= k < |pieces| ==> '/' !in pieces[k] }

  function Norm(at: Dir, pieces: seq<string>): Dir
    requires NoSlash(pieces)
    decreases |pieces|
  {
    if pieces == [] then at
    else
      var c := pieces[0];
      Norm(if c == "" || c == "." then at else if c == ".." then Parent(at) else at + [c], pieces[1..])
  }

  function Anchor(dir: Dir, text: string): Dir {
    SplitPieces(text, '/');
    Norm(if "/" <= text then [] else dir, Split(text, '/'))
  }

  // Spelling a path relative to a directory: `relpath`

  function Common(a: Dir, b: Dir): (n: nat)
    ensures n <= |a| && n <= |b| && a[..n] == b[..n]
    ensures n < |a| && n < |b| ==> a[n] != b[n]
  {
    if a == [] || b == [] || a[0] != b[0] then 0
    else
      var n := Common(a[1..], b[1..]);
      assert a[..n + 1] == [a[0]] + a[1..][..n] && b[..n + 1] == [b[0]] + b[1..][..n];
      1 + n
  }

  function Ups(n: nat): (ups: seq<string>)
    ensures |ups| == n && forall k :: 0 <= k < n ==> ups[k] == ".."
  {
    seq(n, _ => "..")
  }

  function Steps(target: Dir, base: Dir): seq<string> {
    var n := Common(target, base);
    Ups(|base| - n) + target[n..]
  }

  function Relpath(target: Dir, base: Dir): string {
    var steps := Steps(target, base);
    if steps == [] then "." else Join(steps, '/')
  }

  lemma {:induction false} NormAppend(at: Dir, xs: seq<string>, ys: seq<string>)
    requires NoSlash(xs) && NoSlash(ys)
    ensures NoSlash(xs + ys) && Norm(at, xs + ys) == Norm(Norm(at, xs), ys)
    decreases |xs|
  {
    if xs == [] {
      assert xs + ys == ys;
    } else {
      var c := xs[0];
      assert (xs + ys)[1..] == xs[1..] + ys;
      NormAppend(if c == "" || c == "." then at else if c == ".." then Parent(at) else at + [c], xs[1..], ys);
    }
  }

  lemma {:induction false} NormUps(at: Dir, n: nat)
    requires n <= |at|
    ensures Norm(at, Ups(n)) == at[..|at| - n]
  {
    if n > 0 {
      assert Ups(n)[1..] == Ups(n - 1);
      NormUps(Parent(at), n - 1);
      assert Parent(at)[..|at| - n] == at[..|at| - n];
    }
  }

  lemma {:induction false} NormDown(at: Dir, down: Dir)
    ensures Norm(at, down) == at + down
    decreases |down|
  {
    if down == [] {
      assert at + down == at;
    } else {
      NormDown(at + [down[0]], down[1..]);
      assert at + [down[0]] + down[1..] == at + down;
    }
  }

  lemma {:induction false} JoinHead(pieces: seq<string>, sep: char)
    requires |pieces| > 0 && pieces[0] != ""
    ensures Join(pieces, sep) != "" && Join(pieces, sep)[0] == pieces[0][0]
  {
  }

  lemma {:induction false} StepsLead(target: Dir, base: Dir)
    ensures NoSlash(Steps(target, base)) && Norm(base, Steps(target, base)) == target
    ensures forall k :: 0 <= k < |Steps(target, base)| ==> Steps(target, base)[k] != ""
  {
    hide Norm; hide Common;
    var n := Common(target, base);
    var down: Dir := target[n..];
    NormUps(base, |base| - n);
    NormAppend(base, Ups(|base| - n), down);
    NormDown(base[..n], down);
    assert target[..n] + target[n..] == target;
  }

  /** A relative spelling leads from its base to the path it spells. */
  lemma {:induction false} RelpathLeadsBack(target: Dir, base: Dir)
    ensures Anchor(base, Relpath(target, base)) == target
    ensures Relpath(target, base) != "" && !("/" <= Relpath(target, base))
  {
    hide Split; hide Steps; hide Join;
    var steps := Steps(target, base);
    StepsLead(target, base);
    if steps == [] {
      JoinOne(".");
      SplitJoin(["."], '/');
      assert !("/" <= ".") by { assert "."[0] == '.' && "/"[0] == '/'; }
      assert Norm(base, ["."]) == base by { assert ["."][1..] == []; }
    } else {
      SplitJoin(steps, '/');
      JoinHead(steps, '/');
    }
  }

  lemma {:induction false} CommonBelow(d: Dir, k: nat)
    requires k <= |d|
    ensures Common(d, d[..k]) == k
  {
    if k > 0 {
      assert d[..k][1..] == d[1..][..k - 1] && d[..k][0] == d[0];
      CommonBelow(d[1..], k - 1);
    }
  }

  /** Below an ancestor, the relative path is the components under it. */
  lemma {:induction false} RelativeBelow(d: Dir, k: nat)
    requires k < |d|
    ensures Relpath(d, d[..k]) == Join(d[k..], '/')
  {
    CommonBelow(d, k);
    assert Steps(d, d[..k]) == d[k..];
  }

  lemma JoinOne(piece: string)
    ensures Join([piece], '/') == piece
  {
  }

  lemma JoinTwo(a: string, b: string)
    ensures Join([a, b], '/') == a + "/" + b
  {
    assert [a, b][1..] == [b];
    JoinOne(b);
  }

  // `rebase` on one text

  /** What `rebase` reads off a text: the place its literal part names, whether that part ends
      in a slash, and the template that follows. A text that opens with a template is kept. */
  datatype Literal = Opening(text: string) | Literal(place: Dir, slash: bool, tail: string)

  predicate EndsInSlash(p: string) { p != "" && p[|p| - 1] == '/' }

  function LiteralOf(text: string, dir: Dir): Literal {
    if BRACES <= text then Opening(text)
    else Literal(Anchor(dir, Prefix(text)), EndsInSlash(Prefix(text)), Tail(text))
  }

  function Moved(prefix: string, source: Dir, base: Dir): string {
    Relpath(Anchor(source, prefix), base) + (if EndsInSlash(prefix) then "/" else "")
  }

  function Rebased(text: string, source: Dir, base: Dir): string {
    if BRACES <= text then text else Moved(Prefix(text), source, base) + Tail(text)
  }

  predicate PlainDir(d: Dir) { forall k :: 0 <= k < |d| ==> BraceFree(d[k]) }

  predicate PlainText(text: string) { BraceFree(Prefix(text)) }

  lemma {:induction false} NormPlain(at: Dir, pieces: seq<string>)
    requires NoSlash(pieces) && PlainDir(at)
    requires forall k :: 0 <= k < |pieces| ==> BraceFree(pieces[k])
    ensures PlainDir(Norm(at, pieces))
    decreases |pieces|
  {
    if pieces != [] {
      var c := pieces[0];
      NormPlain(if c == "" || c == "." then at else if c == ".." then Parent(at) else at + [c], pieces[1..]);
    }
  }

  lemma {:induction false} AnchorPlain(dir: Dir, text: string)
    requires PlainDir(dir) && BraceFree(text)
    ensures PlainDir(Anchor(dir, text))
  {
    SplitPieces(text, '/');
    NormPlain(if "/" <= text then [] else dir, Split(text, '/'));
  }

  lemma {:induction false} RelpathPlain(target: Dir, base: Dir)
    requires PlainDir(target)
    ensures BraceFree(Relpath(target, base))
  {
    var steps := Steps(target, base);
    assert forall k :: 0 <= k < |steps| ==> BraceFree(steps[k]);
    if '{' in Join(steps, '/') { JoinChars(steps, '/', '{'); }
    if '}' in Join(steps, '/') { JoinChars(steps, '/', '}'); }
  }

  /** A trailing slash does not change where a text leads. */
  lemma {:induction false} TrailingSlash(dir: Dir, text: string)
    requires text != ""
    ensures Anchor(dir, text + "/") == Anchor(dir, text)
  {
    SplitPieces(text, '/');
    var pieces := Split(text, '/');
    SplitSlash(text);
    assert ("/" <= text) == ("/" <= text + "/");
    NormAppend(if "/" <= text then [] else dir, pieces, [""]);
  }

  lemma {:induction false} SplitSlash(text: string)
    ensures Split(text + "/", '/') == Split(text, '/') + [""]
  {
    if text == "" {
      assert text + "/" == "/";
      assert Split("/"[1..], '/') == [""];
    } else {
      assert (text + "/")[1..] == text[1..] + "/";
      SplitSlash(text[1..]);
    }
  }

  /** The text `rebase` writes: the literal part spelled from the new directory, the slash
      and the template kept. */
  lemma {:induction false} RebasedParts(text: string, source: Dir, base: Dir)
    requires PlainDir(source) && PlainText(text) && !(BRACES <= text)
    ensures Prefix(Rebased(text, source, base)) == Moved(Prefix(text), source, base)
    ensures Tail(Rebased(text, source, base)) == Tail(text)
    ensures BraceFree(Moved(Prefix(text), source, base)) && !(BRACES <= Rebased(text, source, base))
  {
    MovedLeads(Prefix(text), source, base);
    TailOpens(text);
    PartsOf(Moved(Prefix(text), source, base), Tail(text));
    hide Moved; hide Tail; hide Prefix;
    OpensTemplate(Rebased(text, source, base));
  }

  lemma {:induction false} MovedLeads(prefix: string, source: Dir, base: Dir)
    requires PlainDir(source) && BraceFree(prefix)
    ensures var moved := Moved(prefix, source, base);
            && moved != "" && BraceFree(moved) && EndsInSlash(moved) == EndsInSlash(prefix)
            && Anchor(base, moved) == Anchor(source, prefix)
  {
    var place := Anchor(source, prefix);
    AnchorPlain(source, prefix);
    RelpathPlain(place, base);
    RelpathLeadsBack(place, base);
    RelpathEnd(place, base);
    TrailingSlash(base, Relpath(place, base));
    assert Relpath(place, base) + "" == Relpath(place, base);
    hide Anchor; hide Relpath;
  }

  /** Read from the new directory, the literal part of a moved text names the place the old one
      named from the old directory. What the whole text names once rendered is another matter:
      see `Rendering`. */
  lemma {:induction false} RebaseKeepsLiteral(text: string, source: Dir, base: Dir)
    requires PlainDir(source) && PlainText(text)
    ensures LiteralOf(Rebased(text, source, base), base) == LiteralOf(text, source)
    ensures PlainText(Rebased(text, source, base))
  {
    hide Moved; hide Tail; hide Prefix; hide Anchor;
    if !(BRACES <= text) {
      RebasedParts(text, source, base);
      MovedLeads(Prefix(text), source, base);
    }
  }

  lemma {:induction false} RelpathEnd(target: Dir, base: Dir)
    ensures !EndsInSlash(Relpath(target, base))
  {
    var steps := Steps(target, base);
    if steps != [] {
      assert forall k :: 0 <= k < |steps| ==> steps[k] != "" && '/' !in steps[k];
      JoinEnd(steps);
    }
  }

  lemma {:induction false} JoinEnd(pieces: seq<string>)
    requires |pieces| > 0
    requires forall k :: 0 <= k < |pieces| ==> pieces[k] != "" && '/' !in pieces[k]
    ensures Join(pieces, '/') != "" && !EndsInSlash(Join(pieces, '/'))
  {
    if |pieces| > 1 {
      JoinEnd(pieces[1..]);
      var whole := Join(pieces, '/');
      assert whole[|whole| - 1] == Join(pieces[1..], '/')[|Join(pieces[1..], '/')| - 1];
    }
  }

  /** Re-anchoring composes: two moves are one. */
  lemma {:induction false} RebaseComposes(text: string, source: Dir, middle: Dir, base: Dir)
    requires PlainDir(source) && PlainText(text)
    ensures Rebased(Rebased(text, source, middle), middle, base) == Rebased(text, source, base)
  {
    RebaseKeepsLiteral(text, source, middle);
  }

  // A text that is not moved

  /** How far a text climbs above the directory it is read against, and what it then descends. */
  datatype Course = Course(ups: nat, down: seq<string>)

  function CourseOf(pieces: seq<string>, from: Course): Course
    decreases |pieces|
  {
    if pieces == [] then from
    else
      var c := pieces[0];
      CourseOf(pieces[1..],
               if c == "" || c == "." then from
               else if c != ".." then from.(down := from.down + [c])
               else if from.down == [] then from.(ups := from.ups + 1)
               else from.(down := from.down[..|from.down| - 1]))
  }

  function Climb(d: Dir, ups: nat): Dir { if ups <= |d| then d[..|d| - ups] else [] }

  lemma {:induction false} NormFollowsCourse(d: Dir, pieces: seq<string>, from: Course, at: Dir)
    requires NoSlash(pieces) && at == Climb(d, from.ups) + from.down
    ensures var course := CourseOf(pieces, from);
            Norm(at, pieces) == Climb(d, course.ups) + course.down
    decreases |pieces|
  {
    if pieces != [] {
      var c := pieces[0];
      if c == "" || c == "." {
        NormFollowsCourse(d, pieces[1..], from, at);
      } else if c != ".." {
        assert at + [c] == Climb(d, from.ups) + (from.down + [c]);
        NormFollowsCourse(d, pieces[1..], from.(down := from.down + [c]), at + [c]);
      } else if from.down == [] {
        assert Parent(at) == Climb(d, from.ups + 1) + from.down;
        NormFollowsCourse(d, pieces[1..], from.(ups := from.ups + 1), Parent(at));
      } else {
        assert Parent(at) == Climb(d, from.ups) + from.down[..|from.down| - 1];
        NormFollowsCourse(d, pieces[1..], from.(down := from.down[..|from.down| - 1]), Parent(at));
      }
    }
  }

  /** A relative text that is read unmoved from another directory names the same place exactly
      when both directories agree above the height it climbs to. */
  lemma {:induction false} UnmovedTextMoves(text: string, source: Dir, base: Dir)
    requires !("/" <= text)
    ensures var ups := CourseOf(Split(text, '/'), Course(0, [])).ups;
            Anchor(source, text) == Anchor(base, text) <==> Climb(source, ups) == Climb(base, ups)
  {
    SplitPieces(text, '/');
    var course := CourseOf(Split(text, '/'), Course(0, []));
    assert source == Climb(source, 0) + [] && base == Climb(base, 0) + [];
    NormFollowsCourse(source, Split(text, '/'), Course(0, []), source);
    NormFollowsCourse(base, Split(text, '/'), Course(0, []), base);
    var x, y := Climb(source, course.ups), Climb(base, course.ups);
    if x + course.down == y + course.down {
      assert |x| == |y| && x == (x + course.down)[..|x|] && y == (y + course.down)[..|y|];
    }
  }

  lemma {:induction false} SplitAfter(piece: string, rest: string)
    requires '/' !in piece
    ensures Split(piece + "/" + rest, '/') == [piece] + Split(rest, '/')
  {
    assert piece + "/" + rest == piece + ("/" + rest) && ("/" + rest)[1..] == rest;
    SplitPrefix(piece, "/" + rest, '/');
    assert piece + "" == piece;
  }

  lemma {:induction false} SplitBehind(d: Dir, rest: string)
    requires d != []
    ensures Split(Join(d, '/') + "/" + rest, '/') == d + Split(rest, '/')
  {
    hide Split;
    if |d| == 1 {
      SplitAfter(d[0], rest);
    } else {
      var after := Join(d[1..], '/') + "/" + rest;
      SplitBehind(d[1..], rest);
      SplitAfter(d[0], after);
      assert Join(d, '/') + "/" + rest == d[0] + "/" + after;
      assert [d[0]] + (d[1..] + Split(rest, '/')) == d + Split(rest, '/');
    }
  }

  lemma {:induction false} JoinBehind(d: Dir, below: Dir)
    requires d != [] && below != []
    ensures Join(d + below, '/') == Join(d, '/') + "/" + Join(below, '/')
  {
    assert (d + below)[0] == d[0] && (d + below)[1..] == d[1..] + below;
    if |d| > 1 {
      JoinBehind(d[1..], below);
    } else {
      assert d[1..] + below == below;
    }
  }

  /** A path starts with a directory's and a slash exactly when it lies below that directory. */
  lemma {:induction false} AbsoluteBelow(d: Dir, repo: Dir)
    requires repo != []
    ensures Absolute(repo) + "/" <= Absolute(d) <==> repo < d
  {
    hide Join;
    var root := Join(repo, '/') + "/";
    if repo < d {
      var below := d[|repo|..];
      JoinBehind(repo, below);
      assert repo + below == d;
      assert Absolute(d) == Absolute(repo) + "/" + Join(below, '/');
    }
    if Absolute(repo) + "/" <= Absolute(d) {
      var rest := Absolute(d)[|Absolute(repo)| + 1..];
      assert Absolute(d) == Absolute(repo) + "/" + rest == "/" + (root + rest);
      assert Join(d, '/') == Absolute(d)[1..] == root + rest;
      SplitBehind(repo, rest);
      JoinedSlashes(d);
      SplitJoin(d, '/');
    }
  }

  /** An absolute spelling leads to its path from everywhere. */
  lemma {:induction false} AbsoluteLeads(dir: Dir, d: Dir)
    ensures Anchor(dir, Absolute(d)) == d
  {
    hide Join;
    var text := Join(d, '/');
    SplitPieces(Absolute(d), '/');
    assert Split("/" + text, '/') == [""] + Split(text, '/') by { assert ("/" + text)[1..] == text; }
    JoinedSlashes(d);
    if d == [] {
      var pieces: seq<string> := ["", ""];
      assert [""] + Split("", '/') == pieces && pieces[1..] == [""] && pieces[1..][1..] == [];
    } else {
      SplitJoin(d, '/');
      assert ([""] + d)[1..] == d;
      NormDown([], d);
      assert [] + d == d;
    }
  }

  /** What follows an absolute spelling is read from its path, wherever the whole is read from. */
  lemma {:induction false} AbsoluteAnchors(dir: Dir, d: Dir, rest: string)
    requires !("/" <= rest)
    ensures Anchor(dir, Absolute(d) + "/" + rest) == Anchor(d, rest)
  {
    hide Join; hide Split; hide Norm;
    var text := Absolute(d) + "/" + rest;
    SplitPieces(text, '/');
    SplitPieces(rest, '/');
    JoinedSlashes(d);
    var front: seq<string> := if d == [] then ["", ""] else [""] + d;
    assert Split(text, '/') == front + Split(rest, '/') by {
      SplitAfter("", Join(d, '/') + "/" + rest);
      assert text == "" + "/" + (Join(d, '/') + "/" + rest);
      if d == [] {
        SplitAfter("", rest);
        assert Join(d, '/') + "/" + rest == "" + "/" + rest;
        assert [""] + ([""] + Split(rest, '/')) == front + Split(rest, '/');
      } else {
        SplitBehind(d, rest);
        assert [""] + (d + Split(rest, '/')) == front + Split(rest, '/');
      }
    }
    FrontLeads(d, front);
    NormAppend([], front, Split(rest, '/'));
  }

  lemma {:induction false} FrontLeads(d: Dir, front: seq<string>)
    requires front == if d == [] then ["", ""] else [""] + d
    ensures NoSlash(front) && Norm([], front) == d
  {
    if d == [] {
      assert front[1..] == [""] && front[1..][1..] == [];
    } else {
      assert front[1..] == d;
      NormDown([], d);
      assert [] + d == d;
    }
  }

  // `templated`: a templated text with its literal directory made relative to the repository

  /** A folder with the repository's name taken off its front, as `templated` writes it. */
  function Shortened(d: Dir, repo: Dir): string {
    var folder, root := Absolute(d), Absolute(repo) + "/";
    if root <= folder then folder[|root|..] else folder
  }

  function Templated(target: string, base: Dir, repo: Dir): string {
    if Prefix(target) == "" then target
    else
      Shortened(Anchor(base, Prefix(target)), repo)
      + (if EndsInSlash(Prefix(target)) then "/" else "") + Tail(target)
  }

  /** A templated include reads the same in the plan from wherever its file moved. */
  lemma {:induction false} TemplatedStable(text: string, source: Dir, base: Dir, repo: Dir)
    requires PlainDir(source) && PlainText(text) && HasTemplate(text)
    ensures HasTemplate(Rebased(text, source, base))
    ensures Templated(Rebased(text, source, base), base, repo) == Templated(text, source, repo)
  {
    hide Moved; hide Tail; hide Prefix; hide Anchor; hide Absolute;
    OpensTemplate(text);
    if !(BRACES <= text) {
      RebasedParts(text, source, base);
      MovedLeads(Prefix(text), source, base);
    }
  }

  // As the plan spells it, a templated path tells its place

  lemma {:induction false} JoinedSlashes(d: Dir)
    ensures var joined := Join(d, '/');
            && (d == [] <==> joined == "")
            && (d != [] ==> joined[0] != '/' && joined[|joined| - 1] != '/')
            && forall i :: 0 <= i < |joined| - 1 ==> !(joined[i] == '/' && joined[i + 1] == '/')
  {
    if |d| == 1 {
      assert forall i :: 0 <= i < |d[0]| ==> d[0][i] in d[0];
    } else if |d| > 1 {
      var joined, rest := Join(d, '/'), Join(d[1..], '/');
      JoinedSlashes(d[1..]);
      assert forall i :: 0 <= i < |d[0]| ==> d[0][i] in d[0];
      assert joined == d[0] + ['/'] + rest;
      forall i | 0 <= i < |joined| - 1 ensures !(joined[i] == '/' && joined[i + 1] == '/') {
        if i > |d[0]| {
          assert joined[i] == rest[i - |d[0]| - 1] && joined[i + 1] == rest[i - |d[0]|];
        }
      }
    }
  }

  lemma {:induction false} AbsoluteNames(d: Dir, d': Dir)
    ensures Absolute(d) == Absolute(d') <==> d == d'
  {
    if Absolute(d) == Absolute(d') {
      assert Join(d, '/') == Absolute(d)[1..] == Absolute(d')[1..] == Join(d', '/');
      JoinedSlashes(d);
      JoinedSlashes(d');
      if d != [] {
        SplitJoin(d, '/');
        SplitJoin(d', '/');
      }
    }
  }

  lemma {:induction false} ShortenedStart(d: Dir, repo: Dir)
    ensures "/" <= Shortened(d, repo) <==> !(Absolute(repo) + "/" <= Absolute(d))
  {
    hide Join;
    var folder, root := Absolute(d), Absolute(repo) + "/";
    JoinedSlashes(d);
    assert forall i :: 0 < i < |folder| - 1 ==> folder[i] == Join(d, '/')[i - 1];
    if root <= folder {
      var n := |root|;
      assert n >= 2 && folder[n - 1] == root[n - 1] == '/';
      assert n < |folder| ==> folder[n - 1] == Join(d, '/')[n - 2] && folder[n] == Join(d, '/')[n - 1];
    }
  }

  lemma {:induction false} ShortenedNames(d: Dir, d': Dir, repo: Dir)
    ensures Shortened(d, repo) == Shortened(d', repo) <==> d == d'
  {
    hide Absolute;
    AbsoluteNames(d, d');
    ShortenedStart(d, repo);
    ShortenedStart(d', repo);
    if Shortened(d, repo) == Shortened(d', repo) && Absolute(repo) + "/" <= Absolute(d) {
      var root := Absolute(repo) + "/";
      assert Absolute(d) == root + Shortened(d, repo) && Absolute(d') == root + Shortened(d', repo);
    }
  }

  lemma TemplatedParts(path: string, base: Dir, repo: Dir)
    requires Prefix(path) != ""
    ensures Templated(path, base, repo)
         == Shortened(Anchor(base, Prefix(path)), repo)
            + ((if EndsInSlash(Prefix(path)) then "/" else "") + Tail(path))
  {
    hide Absolute; hide Anchor; hide Prefix; hide Tail; hide EndsInSlash;
  }

  lemma SameFront(x: string, y: string, rest: string)
    ensures x + rest == y + rest <==> x == y
  {
    if x + rest == y + rest {
      assert x == (x + rest)[..|x|] && |x| == |y| && y == (y + rest)[..|y|];
    }
  }

  lemma {:induction false} TemplatedNames(path: string, source: Dir, base: Dir, repo: Dir)
    requires Prefix(path) != ""
    ensures Templated(path, base, repo) == Templated(path, source, repo)
       <==> Anchor(source, Prefix(path)) == Anchor(base, Prefix(path))
  {
    hide Absolute; hide Anchor; hide Prefix; hide Tail; hide Shortened; hide Templated;
    var p := Prefix(path);
    TemplatedParts(path, source, repo);
    TemplatedParts(path, base, repo);
    ShortenedNames(Anchor(source, p), Anchor(base, p), repo);
    SameFront(Shortened(Anchor(base, p), repo), Shortened(Anchor(source, p), repo),
              (if EndsInSlash(p) then "/" else "") + Tail(path));
  }

  lemma TemplatedOpening(path: string, base: Dir, repo: Dir)
    requires Prefix(path) == ""
    ensures Templated(path, base, repo) == path
  {
  }
}
