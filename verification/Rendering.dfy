/** What a moved include names once its template is rendered. `rebase` keeps the place of the
    literal part; whether it keeps the name depends on where the literal part stops. */
module Rendering {
  import opened Text
  import opened Paths
  import opened Tasks

  /** The file a text names, read from a directory, when its template renders to `value`. */
  function NameOf(text: string, value: string, dir: Dir): Dir { Anchor(dir, Prefix(text) + value) }

  // Splitting a literal part from what is rendered after it

  function LastPiece(p: string): string { Split(p, '/')[|Split(p, '/')| - 1] }

  /** The directory the last piece of a literal part is looked up in. */
  function Folder(dir: Dir, p: string): Dir {
    SplitPieces(p, '/');
    var pieces := Split(p, '/');
    Norm(if "/" <= p then [] else dir, pieces[..|pieces| - 1])
  }

  /** The last piece of one list and the first of another, run together. */
  function Glued(ps: seq<string>, vs: seq<string>): seq<string>
    requires ps != [] && vs != []
  {
    ps[..|ps| - 1] + [ps[|ps| - 1] + vs[0]] + vs[1..]
  }

  lemma GluedSlash(ps: seq<string>, vs: seq<string>)
    requires ps != [] && vs != []
    ensures Glued([""] + ps, vs) == [""] + Glued(ps, vs)
  {
  }

  lemma GluedChar(c: char, ps: seq<string>, vs: seq<string>)
    requires ps != [] && vs != []
    ensures Glued([[c] + ps[0]] + ps[1..], vs) == [[c] + Glued(ps, vs)[0]] + Glued(ps, vs)[1..]
  {
    assert [c] + (ps[0] + vs[0]) == ([c] + ps[0]) + vs[0];
  }

  lemma {:induction false} SplitConcat(p: string, v: string)
    ensures Split(p + v, '/') == Glued(Split(p, '/'), Split(v, '/'))
  {
    if p == "" {
      assert p + v == v && "" + Split(v, '/')[0] == Split(v, '/')[0];
    } else {
      assert (p + v)[1..] == p[1..] + v;
      SplitConcat(p[1..], v);
      GluedSlash(Split(p[1..], '/'), Split(v, '/'));
      GluedChar(p[0], Split(p[1..], '/'), Split(v, '/'));
      hide Glued;
    }
  }

  lemma {:induction false} NameSplits(dir: Dir, p: string, v: string)
    requires p != ""
    ensures NoSlash([LastPiece(p) + Split(v, '/')[0]] + Split(v, '/')[1..])
    ensures Anchor(dir, p + v) == Norm(Folder(dir, p), [LastPiece(p) + Split(v, '/')[0]] + Split(v, '/')[1..])
  {
    hide Norm; hide Split;
    SplitPieces(p, '/');
    SplitPieces(v, '/');
    SplitPieces(p + v, '/');
    SplitConcat(p, v);
    var ps, vs := Split(p, '/'), Split(v, '/');
    var low, high := ps[..|ps| - 1], [LastPiece(p) + vs[0]] + vs[1..];
    assert Split(p + v, '/') == low + high;
    assert ("/" <= p + v) == ("/" <= p);
    NormAppend(if "/" <= p then [] else dir, low, high);
  }

  lemma {:induction false} PlaceBy(dir: Dir, p: string)
    requires p != ""
    ensures NoSlash([LastPiece(p)]) && Anchor(dir, p) == Norm(Folder(dir, p), [LastPiece(p)])
  {
    NameSplits(dir, p, "");
    assert p + "" == p && Split("", '/') == [""] && LastPiece(p) + "" == LastPiece(p);
    var rest := Split("", '/')[1..];
    assert rest == [] && [LastPiece(p)] + rest == [LastPiece(p)];
  }

  /** Two literal parts name the same for every value exactly when their last pieces are the
      same, looked up in the same directory. */
  lemma {:induction false} SameForAll(dir: Dir, p: string, dir': Dir, p': string)
    requires p != "" && p' != ""
    ensures (forall v: string :: Anchor(dir, p + v) == Anchor(dir', p' + v))
       <==> LastPiece(p) == LastPiece(p') && Folder(dir, p) == Folder(dir', p')
  {
    hide Anchor; hide LastPiece; hide Folder;
    if LastPiece(p) == LastPiece(p') && Folder(dir, p) == Folder(dir', p') {
      forall v: string ensures Anchor(dir, p + v) == Anchor(dir', p' + v) {
        NameSplits(dir, p, v);
        NameSplits(dir', p', v);
      }
    }
    if Anchor(dir, p + "x") == Anchor(dir', p' + "x") {
      NameEndsX(dir, p);
      NameEndsX(dir', p');
      var x, y := Folder(dir, p), Folder(dir', p');
      var a, b := LastPiece(p) + "x", LastPiece(p') + "x";
      assert (x + [a])[|x|] == a && (x + [a])[..|x|] == x;
      assert (y + [b])[|y|] == b && (y + [b])[..|y|] == y;
      assert LastPiece(p) == a[..|a| - 1] && LastPiece(p') == b[..|b| - 1];
    }
  }

  lemma {:induction false} NameEndsX(dir: Dir, p: string)
    requires p != ""
    ensures Anchor(dir, p + "x") == Folder(dir, p) + [LastPiece(p) + "x"]
  {
    hide Folder;
    NameSplits(dir, p, "x");
    SplitPieces(p, '/');
    SplitJoin(["x"], '/');
    assert Split("x", '/') == ["x"];
    var c := LastPiece(p) + "x";
    assert c[|c| - 1] == 'x' && c != "." && c != "..";
    var rest := Split("x", '/')[1..];
    assert rest == [] && [c] + rest == [c];
    var one: seq<string> := [c];
    assert one[1..] == [];
  }

  // When a moved literal part still names the same

  /** A literal part that can be moved with its template: it ends in a slash; or its last piece
      is a name, not one of a directory on the way to the new one; or it is a dot that the move
      keeps. */
  predicate Steady(p: string, source: Dir, base: Dir) {
    EndsInSlash(p) ||
    (var place, last, before := Anchor(source, p), LastPiece(p), Folder(source, p);
     if last == "." then place == base
     else if last == ".." then before != [] && before <= base
     else !(place <= base))
  }

  lemma {:induction false} LastOfSlash(p: string)
    ensures p != "" ==> (EndsInSlash(p) <==> LastPiece(p) == "")
  {
    if p != "" {
      var low := p[..|p| - 1];
      assert p == low + [p[|p| - 1]];
      SplitConcat(low, [p[|p| - 1]]);
      assert [p[|p| - 1]][1..] == "";
      if p[|p| - 1] == '/' {
        assert Split("/", '/') == ["", ""] by { assert "/"[1..] == ""; }
        assert [p[|p| - 1]] == "/";
      } else {
        SplitJoin([[p[|p| - 1]]], '/');
      }
    }
  }

  function Spelled(place: Dir, base: Dir): (pieces: seq<string>)
    ensures pieces != []
  {
    if Steps(place, base) == [] then ["."] else Steps(place, base)
  }

  lemma {:induction false} SpelledLast(place: Dir, base: Dir)
    ensures var pieces, n := Spelled(place, base), Common(place, base);
            && pieces[|pieces| - 1]
               == (if n < |place| then place[|place| - 1] else if n < |base| then ".." else ".")
            && pieces[..|pieces| - 1]
               == (if n < |place| then Ups(|base| - n) + place[n..|place| - 1]
                   else if n < |base| then Ups(|base| - n - 1) else [])
  {
    hide Common;
  }

  lemma {:induction false} LowLeads(place: Dir, base: Dir)
    ensures var n := Common(place, base);
            var down: Dir := if n < |place| then place[n..|place| - 1] else [];
            && NoSlash(Ups(|base| - n) + down)
            && (n < |place| ==> Norm(base, Ups(|base| - n) + down) == place[..|place| - 1])
            && (n < |base| ==> Norm(base, Ups(|base| - n - 1)) == base[..n + 1])
  {
    hide Common; hide Norm;
    var n := Common(place, base);
    var down: Dir := if n < |place| then place[n..|place| - 1] else [];
    NormUps(base, |base| - n);
    NormAppend(base, Ups(|base| - n), down);
    NormDown(base[..n], down);
    if n < |base| { NormUps(base, |base| - n - 1); }
    if n < |place| { assert place[..n] + down == place[..|place| - 1]; }
  }

  /** What the spelling of a path relative to a directory ends in, and where that is looked up. */
  lemma {:induction false} RelpathLast(place: Dir, base: Dir)
    ensures var p, n := Relpath(place, base), Common(place, base);
            && p != ""
            && LastPiece(p) == (if n < |place| then place[|place| - 1] else if n < |base| then ".." else ".")
            && Folder(base, p) == (if n < |place| then place[..|place| - 1]
                                   else if n < |base| then base[..n + 1] else base)
  {
    hide Common; hide Steps; hide Ups; hide Join; hide Split;
    var pieces := Spelled(place, base);
    RelpathLeadsBack(place, base);
    StepsLead(place, base);
    JoinOne(".");
    SplitJoin(pieces, '/');
    assert Relpath(place, base) == Join(pieces, '/');
    SpelledLast(place, base);
    LowLeads(place, base);
    hide Norm; hide Spelled;
    NothingLeads(base);
  }

  lemma NothingLeads(base: Dir)
    ensures Norm(base, []) == base
  {
  }

  lemma {:induction false} CommonIsPrefix(a: Dir, b: Dir)
    ensures Common(a, b) == |a| <==> a <= b
    decreases |a|
  {
    if a != [] && b != [] && a[0] == b[0] {
      CommonIsPrefix(a[1..], b[1..]);
      assert a == [a[0]] + a[1..] && b == [b[0]] + b[1..];
    }
  }

  lemma {:induction false} PlaceOfLast(dir: Dir, p: string)
    requires p != ""
    ensures var place, last, before := Anchor(dir, p), LastPiece(p), Folder(dir, p);
            && '/' !in last
            && (last == "" || last == "." ==> place == before) && (last == ".." ==> place == Parent(before))
            && (Normal(last) ==> place == before + [last])
  {
    hide Anchor; hide Folder;
    PlaceBy(dir, p);
    SplitPieces(p, '/');
    assert [LastPiece(p)][1..] == [];
  }

  /** A moved literal part names the same for every value its template renders to exactly when
      it is steady. */
  lemma {:induction false} MovedNames(p: string, source: Dir, base: Dir)
    requires p != ""
    ensures Moved(p, source, base) != ""
    ensures (forall v: string :: Anchor(base, Moved(p, source, base) + v) == Anchor(source, p + v))
       <==> Steady(p, source, base)
  {
    hide Anchor; hide Folder; hide LastPiece; hide Relpath; hide Common;
    var place, moved := Anchor(source, p), Moved(p, source, base);
    LastOfSlash(p);
    PlaceOfLast(source, p);
    RelpathLast(place, base);
    CommonIsPrefix(place, base);
    if EndsInSlash(p) {
      MovedSlash(p, source, base);
    } else {
      assert moved == Relpath(place, base) by { assert Relpath(place, base) + "" == Relpath(place, base); }
      MovedPiece(LastPiece(p), place, Folder(source, p), base);
    }
    SameForAll(base, moved, source, p);
  }

  lemma {:induction false} MovedSlash(p: string, source: Dir, base: Dir)
    requires EndsInSlash(p)
    ensures var moved := Moved(p, source, base);
            moved != "" && LastPiece(moved) == "" && Folder(base, moved) == Anchor(source, p)
  {
    hide Anchor; hide Folder; hide LastPiece; hide Relpath;
    var place, moved := Anchor(source, p), Moved(p, source, base);
    RelpathLeadsBack(place, base);
    TrailingSlash(base, Relpath(place, base));
    LastOfSlash(moved);
    PlaceOfLast(base, moved);
  }

  /** When the spelling of a place ends as the text did. */
  lemma {:induction false} MovedPiece(last: string, place: Dir, before: Dir, base: Dir)
    requires last != "" && '/' !in last
    requires (last == "." ==> place == before) && (last == ".." ==> place == Parent(before))
    requires Normal(last) ==> place == before + [last]
    requires Common(place, base) == |place| <==> place <= base
    ensures var n := Common(place, base);
            var last' := if n < |place| then place[|place| - 1] else if n < |base| then ".." else ".";
            var before' := if n < |place| then place[..|place| - 1] else if n < |base| then base[..n + 1] else base;
            last == last' && before == before'
            <==> if last == "." then place == base
                 else if last == ".." then before != [] && before <= base
                 else !(place <= base)
  {
    hide Common;
    var n := Common(place, base);
    if n < |place| {
      assert Normal(place[|place| - 1]);
    }
    if last == ".." && before != [] && before <= base {
      assert place == before[..|before| - 1] <= base;
      assert base[..|before|] == before;
    }
  }

  // Texts

  /** What a template may render to: nothing where there is none; an absolute path where a text
      opens with it, as every hook directory is; anything after a literal part. */
  predicate Fits(text: string, value: string) {
    if !HasTemplate(text) then value == "" else BRACES <= text ==> "/" <= value
  }

  /** A moved text has the same template, and names the same for whatever it renders to. */
  ghost predicate NameKept(text: string, moved: string, source: Dir, base: Dir) {
    && Tail(moved) == Tail(text)
    && forall value :: Fits(text, value) ==> NameOf(moved, value, base) == NameOf(text, value, source)
  }

  /** A moved include names the same whatever its template renders to exactly when it has none,
      opens with it, or has a steady literal part. */
  lemma {:induction false} RebaseKeepsName(text: string, source: Dir, base: Dir)
    requires PlainDir(source) && PlainText(text)
    ensures NameKept(text, Rebased(text, source, base), source, base)
       <==> !HasTemplate(text) || BRACES <= text || Steady(Prefix(text), source, base)
  {
    hide Anchor; hide Moved; hide Steady; hide Tail; hide Prefix;
    var p, moved := Prefix(text), Rebased(text, source, base);
    OpensTemplate(text);
    if BRACES <= text {
      OpeningNames(text, source, base);
    } else {
      RebasedParts(text, source, base);
      MovedLeads(p, source, base);
      if HasTemplate(text) {
        MovedNames(p, source, base);
        if NameKept(text, moved, source, base) {
          forall v: string ensures Anchor(base, Moved(p, source, base) + v) == Anchor(source, p + v) {
            assert NameOf(moved, v, base) == NameOf(text, v, source);
          }
        }
      } else {
        assert Moved(p, source, base) + "" == Moved(p, source, base) && p + "" == p;
      }
    }
  }

  lemma {:induction false} OpeningNames(text: string, source: Dir, base: Dir)
    requires BRACES <= text
    ensures forall value: string :: "/" <= value ==> NameOf(text, value, base) == NameOf(text, value, source)
  {
    OpensTemplate(text);
    forall value: string | "/" <= value ensures NameOf(text, value, base) == NameOf(text, value, source) {
      assert Prefix(text) + value == value;
    }
  }

  /** A text that opens with a template is not moved: rendered to a relative path it names the
      same exactly when both directories agree above the height that path climbs to. */
  lemma {:induction false} OpeningClimbs(text: string, value: string, source: Dir, base: Dir)
    requires BRACES <= text && !("/" <= value)
    ensures Rebased(text, source, base) == text
    ensures var ups := CourseOf(Split(value, '/'), Course(0, [])).ups;
            NameOf(text, value, base) == NameOf(text, value, source) <==> Climb(source, ups) == Climb(base, ups)
  {
    hide Anchor;
    OpensTemplate(text);
    assert Prefix(text) + value == value;
    UnmovedTextMoves(value, source, base);
  }

  /** A move and the move back give the normal spelling of the original. It names what the
      original names, unless the literal part stops in a dot that the spelling loses. */
  lemma {:induction false} RebaseRoundTrip(text: string, source: Dir, base: Dir)
    requires PlainDir(source) && PlainText(text)
    ensures var back := Rebased(Rebased(text, source, base), base, source);
            && back == Rebased(text, source, source)
            && (NameKept(text, back, source, source)
                <==> !HasTemplate(text) || BRACES <= text || Steady(Prefix(text), source, source))
  {
    RebaseComposes(text, source, base, source);
    RebaseKeepsName(text, source, source);
  }

  /** Moved into a directory below the one its literal part begins to name, a text loses that
      part: `b{{ x }}.yml` becomes `..{{ x }}.yml`, and names another file for every value. */
  lemma {:induction false} MovedTextMisleads(value: string)
    requires value != "" && '/' !in value
    ensures var text, source, base := "b{{ x }}.yml", ["r", "a"], ["r", "a", "b", "c"];
            && Rebased(text, source, base) == "..{{ x }}.yml"
            && NameOf(text, value, source) == ["r", "a", "b" + value]
            && NameOf(Rebased(text, source, base), value, base) == ["r", "a", "b", "c", ".." + value]
  {
    hide Anchor; hide Prefix; hide Tail; hide Relpath;
    var tail := "{{ x }}.yml";
    assert "b{{ x }}.yml" == "b" + tail && "..{{ x }}.yml" == ".." + tail;
    PartsOf("b", tail);
    PartsOf("..", tail);
    PieceAnchors(["r", "a"], "b");
    assert ("b" + value)[0] == 'b' && |".." + value| > 2;
    PieceAnchors(["r", "a"], "b" + value);
    PieceAnchors(["r", "a", "b", "c"], ".." + value);
    StepUp(["r", "a", "b"], "c");
    assert ["r", "a"] + ["b"] == ["r", "a", "b"] && ["r", "a", "b"] + ["c"] == ["r", "a", "b", "c"];
    assert !(BRACES <= "b{{ x }}.yml") by { assert "b{{ x }}.yml"[0] == 'b'; }
    assert ".." + "" == "..";
  }

  lemma {:induction false} StepUp(dir: Dir, piece: Name)
    ensures Relpath(dir, dir + [piece]) == ".."
  {
    CommonIsPrefix(dir, dir + [piece]);
    assert Steps(dir, dir + [piece]) == [".."];
  }

  lemma {:induction false} PieceAnchors(dir: Dir, piece: Name)
    ensures Anchor(dir, piece) == dir + [piece]
  {
    hide Split;
    SplitJoin([piece], '/');
    JoinOne(piece);
    var one: seq<string> := [piece];
    assert piece[0] in piece && one[1..] == [];
    assert Norm(dir, one) == Norm(dir + [piece], one[1..]);
  }

  // Task lists

  /** A task whose fully qualified include names what it did, and that is otherwise the same. */
  ghost predicate TaskNamesKept(t: Task, moved: Task, source: Dir, base: Dir)
    decreases t, 1
  {
    if t.action.Block? then
      && moved == t.(action := moved.action) && moved.action.Block?
      && NamesKept(t.action.block, moved.action.block, source, base)
      && NamesKept(t.action.rescue, moved.action.rescue, source, base)
      && NamesKept(t.action.always, moved.action.always, source, base)
    else if FullyQualified(t.action) then
      && moved.action.Include? && moved == t.(action := t.action.(path := moved.action.path))
      && NameKept(t.action.path, moved.action.path, source, base)
    else moved == t
  }

  ghost predicate NamesKept(ts: seq<Task>, moved: seq<Task>, source: Dir, base: Dir)
    decreases ts, 0
  {
    |moved| == |ts| &&
    (ts == [] || (TaskNamesKept(ts[0], moved[0], source, base) && NamesKept(ts[1..], moved[1..], source, base)))
  }

  predicate SteadyTask(t: Task, source: Dir, base: Dir)
    decreases t, 1
  {
    if t.action.Block? then
      && SteadyTasks(t.action.block, source, base) && SteadyTasks(t.action.rescue, source, base)
      && SteadyTasks(t.action.always, source, base)
    else
      FullyQualified(t.action) ==>
        !HasTemplate(t.action.path) || BRACES <= t.action.path || Steady(Prefix(t.action.path), source, base)
  }

  /** Every fully qualified include of the list can be moved with its template. */
  predicate SteadyTasks(ts: seq<Task>, source: Dir, base: Dir)
    decreases ts, 0
  {
    ts == [] || (SteadyTask(ts[0], source, base) && SteadyTasks(ts[1..], source, base))
  }

  /** At every nesting level of block, rescue and always, `rebase` keeps what each include names
      and touches nothing else of any task, exactly when every templated include is steady. */
  lemma {:induction false} RebaseKeepsNames(ts: seq<Task>, source: Dir, base: Dir)
    requires PlainDir(source) && PlainTasks(ts)
    ensures NamesKept(ts, Rebase(ts, source, base), source, base) <==> SteadyTasks(ts, source, base)
    decreases ts, 0
  {
    hide TaskNamesKept; hide SteadyTask; hide RebaseTask;
    if ts != [] {
      var moved := Rebase(ts, source, base);
      assert moved[0] == RebaseTask(ts[0], source, base) && moved[1..] == Rebase(ts[1..], source, base);
      RebaseKeepsTaskNames(ts[0], source, base);
      RebaseKeepsNames(ts[1..], source, base);
    }
  }

  lemma {:induction false} RebaseKeepsTaskNames(t: Task, source: Dir, base: Dir)
    requires PlainDir(source) && PlainTask(t)
    ensures TaskNamesKept(t, RebaseTask(t, source, base), source, base) <==> SteadyTask(t, source, base)
    decreases t, 1
  {
    hide NameKept; hide Steady; hide HasTemplate; hide Prefix;
    match t.action {
      case Block(block, rescue, always) =>
        RebaseKeepsNames(block, source, base);
        RebaseKeepsNames(rescue, source, base);
        RebaseKeepsNames(always, source, base);
      case Include(_, path, _) =>
        if FullyQualified(t.action) {
          RebaseKeepsName(path, source, base);
        }
      case _ =>
    }
  }
}
