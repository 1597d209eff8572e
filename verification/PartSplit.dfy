/** `task_parts.inline`: an entry file's parts spliced in. */
module PartSplit {
  import opened Text
  import opened Paths
  import opened Tasks
  import opened TaskParts

  type File = d: Dir | d != [] witness ["x"]

  function EntryStem(entry: File): string { Stem(entry[|entry| - 1]) }

  /** The part a bare import in `entry` names: a name and a path below the entry's stem. */
  function PartOf(t: Task, entry: File): Option<Dir> {
    if t.action.Include? && t.action.key == FqImport && t.action.options.None?
       && t.when == [] && t.vars == map[] && t.control == map[] && EntryStem(entry) + "/" <= t.action.path
    then Some(Anchor(Parent(entry), t.action.path)) else None
  }

  function Splice(files: map<Dir, seq<Task>>, fuel: nat, ts: seq<Task>, entry: File): Result<seq<Task>>
    decreases fuel, ts, 0
  {
    if ts == [] then Ok([])
    else
      var first :- SpliceTask(files, fuel, ts[0], entry);
      var rest :- Splice(files, fuel, ts[1..], entry);
      Ok(first + rest)
  }

  function SpliceTask(files: map<Dir, seq<Task>>, fuel: nat, t: Task, entry: File): Result<seq<Task>>
    decreases fuel, t, 1
  {
    match PartOf(t, entry)
    case Some(part) =>
      if fuel == 0 || part !in files then Failure
      else
        var inner :- Splice(files, fuel - 1, files[part], entry);
        Ok(Rebase(inner, Parent(part), Parent(entry)))
    case None =>
      if t.action.Block? then
        var block :- Splice(files, fuel, t.action.block, entry);
        var rescue :- Splice(files, fuel, t.action.rescue, entry);
        var always :- Splice(files, fuel, t.action.always, entry);
        Ok([t.(action := Block(block, rescue, always))])
      else Ok([t])
  }

  // Splicing is complete

  predicate NoPartsTask(t: Task, entry: File)
    decreases t, 1
  {
    PartOf(t, entry).None?
    && (t.action.Block? ==>
          NoParts(t.action.block, entry) && NoParts(t.action.rescue, entry) && NoParts(t.action.always, entry))
  }

  /** No bare part import at any depth of blocks. */
  predicate NoParts(ts: seq<Task>, entry: File)
    decreases ts, 0
  {
    ts == [] || (NoPartsTask(ts[0], entry) && NoParts(ts[1..], entry))
  }

  lemma {:induction false} NoPartsAppend(xs: seq<Task>, ys: seq<Task>, entry: File)
    ensures NoParts(xs + ys, entry) <==> NoParts(xs, entry) && NoParts(ys, entry)
  {
    if xs == [] {
      assert xs + ys == ys;
    } else {
      assert (xs + ys)[0] == xs[0] && (xs + ys)[1..] == xs[1..] + ys;
      NoPartsAppend(xs[1..], ys, entry);
    }
  }

  lemma {:induction false} SpliceNothing(files: map<Dir, seq<Task>>, fuel: nat, ts: seq<Task>, entry: File)
    requires NoParts(ts, entry)
    ensures Splice(files, fuel, ts, entry) == Ok(ts)
    decreases ts
  {
    hide PartOf;
    if ts != [] {
      if ts[0].action.Block? {
        SpliceNothing(files, fuel, ts[0].action.block, entry);
        SpliceNothing(files, fuel, ts[0].action.rescue, entry);
        SpliceNothing(files, fuel, ts[0].action.always, entry);
      }
      SpliceNothing(files, fuel, ts[1..], entry);
      assert [ts[0]] + ts[1..] == ts;
    }
  }

  predicate PartsHoldTask(files: map<Dir, seq<Task>>, t: Task, entry: File, moved: bool)
    decreases t, 1
  {
    match PartOf(t, entry)
    case Some(part) =>
      part in files && NoParts(if moved then Rebase(files[part], Parent(part), Parent(entry)) else files[part], entry)
    case None =>
      t.action.Block? ==>
        PartsHold(files, t.action.block, entry, moved) && PartsHold(files, t.action.rescue, entry, moved)
        && PartsHold(files, t.action.always, entry, moved)
  }

  /** The parts a list imports hold no part import of the entry, as written or once moved. */
  predicate PartsHold(files: map<Dir, seq<Task>>, ts: seq<Task>, entry: File, moved: bool)
    decreases ts, 0
  {
    ts == [] || (PartsHoldTask(files, ts[0], entry, moved) && PartsHold(files, ts[1..], entry, moved))
  }

  /** With one level of parts, splicing always succeeds, and a part import remains exactly when
      a part imports a sibling part, whose path only names a part of the entry once moved. */
  lemma {:induction false} SpliceIsComplete(files: map<Dir, seq<Task>>, ts: seq<Task>, entry: File)
    requires PartsHold(files, ts, entry, false)
    ensures var spliced := Splice(files, 1, ts, entry);
            spliced.Ok? && (NoParts(spliced.value, entry) <==> PartsHold(files, ts, entry, true))
    decreases ts, 0
  {
    hide SpliceTask; hide PartsHoldTask; hide NoPartsTask; hide PartOf;
    if ts != [] {
      SpliceTaskIsComplete(files, ts[0], entry);
      SpliceIsComplete(files, ts[1..], entry);
      NoPartsAppend(SpliceTask(files, 1, ts[0], entry).value, Splice(files, 1, ts[1..], entry).value, entry);
    }
  }

  lemma {:induction false} SpliceTaskIsComplete(files: map<Dir, seq<Task>>, t: Task, entry: File)
    requires PartsHoldTask(files, t, entry, false)
    ensures var spliced := SpliceTask(files, 1, t, entry);
            spliced.Ok? && (NoParts(spliced.value, entry) <==> PartsHoldTask(files, t, entry, true))
    decreases t, 1
  {
    match PartOf(t, entry) {
      case Some(part) => SpliceNothing(files, 0, files[part], entry);
      case None =>
        if t.action.Block? {
          SpliceIsComplete(files, t.action.block, entry);
          SpliceIsComplete(files, t.action.rescue, entry);
          SpliceIsComplete(files, t.action.always, entry);
          var one := SpliceTask(files, 1, t, entry).value;
          assert PartOf(one[0], entry).None? && one[1..] == [];
        } else {
          assert [t][1..] == [];
        }
    }
  }

  /** A part below a part is moved twice: its paths, already relative to the entry, are read
      against the directory of the outer part. That keeps the place the literal part of a path
      names, which is all of a static one, exactly when the path written first climbs to where
      the outer part's and the entry's directories agree. */
  lemma {:induction false} NestedPartMovesTwice(text: string, inner: Dir, outer: Dir, entry: Dir)
    requires PlainDir(inner) && PlainDir(outer) && PlainText(text) && !(BRACES <= text)
    ensures var once := Rebased(text, inner, entry);
            var twice := Rebased(once, outer, entry);
            var ups := CourseOf(Text.Split(Prefix(once), '/'), Course(0, [])).ups;
            && Tail(twice) == Tail(text)
            && (Anchor(entry, Prefix(twice)) == Anchor(inner, Prefix(text)) <==> Climb(outer, ups) == Climb(entry, ups))
  {
    hide Anchor; hide Moved; hide Prefix; hide Tail; hide CourseOf; hide Climb;
    var once := Rebased(text, inner, entry);
    RebaseKeepsLiteral(text, inner, entry);
    RebaseKeepsLiteral(once, outer, entry);
    RebasedParts(text, inner, entry);
    RebasedParts(once, outer, entry);
    MovedIsRelative(Prefix(text), inner, entry);
    UnmovedTextMoves(Prefix(once), outer, entry);
  }

  lemma {:induction false} MovedIsRelative(prefix: string, source: Dir, base: Dir)
    ensures !("/" <= Moved(prefix, source, base))
  {
    hide Relpath; hide Anchor;
    RelpathLeadsBack(Anchor(source, prefix), base);
  }
}
