/** What `substitute` does with the flags in a step's texts, and that a step names exactly the
    flags its texts depend on. */
module Rewriting {
  import opened Text
  import opened Paths
  import opened Tasks
  import opened PlanWalk

  const TRUE: string := "True"
  const FALSE: string := "False"

  function Closed(s: string): (rest: string)
    ensures |rest| <= |s|
  {
    if ")" <= s then s[1..] else s
  }

  /** Every test of the flag, with the parentheses around it, becomes the verdict. */
  function Rewritten(s: string, flag: string, verdict: string): string
    decreases |s|
  {
    if s == "" then ""
    else if "(" + Test(flag) <= s then verdict + Rewritten(Closed(s[|Test(flag)| + 1..]), flag, verdict)
    else if Test(flag) <= s then verdict + Rewritten(Closed(s[|Test(flag)|..]), flag, verdict)
    else [s[0]] + Rewritten(s[1..], flag, verdict)
  }

  /** A text depends on a flag exactly when it spells a test of it. */
  lemma {:induction false} TextDepends(s: string, flag: string)
    ensures Rewritten(s, flag, TRUE) == Rewritten(s, flag, FALSE) <==> !Spells(s, flag)
    ensures Spells(s, flag) <==> Contains(s, flag + " | default(false) | bool")
  {
    RewrittenIsLonger(s, flag);
  }

  lemma {:induction false} RewrittenIsLonger(s: string, flag: string)
    ensures |Rewritten(s, flag, TRUE)| <= |Rewritten(s, flag, FALSE)|
    ensures Spells(s, flag) ==> |Rewritten(s, flag, TRUE)| < |Rewritten(s, flag, FALSE)|
    ensures !Spells(s, flag) ==> Rewritten(s, flag, TRUE) == Rewritten(s, flag, FALSE)
    decreases |s|
  {
    if s == "" {
    } else if "(" + Test(flag) <= s {
      RewrittenIsLonger(Closed(s[|Test(flag)| + 1..]), flag);
      assert Test(flag) <= s[1..] by {
        assert s[..|Test(flag)| + 1][1..] == s[1..][..|Test(flag)|];
      }
      assert Contains(s[1..], Test(flag));
    } else if Test(flag) <= s {
      RewrittenIsLonger(Closed(s[|Test(flag)|..]), flag);
    } else {
      RewrittenIsLonger(s[1..], flag);
    }
  }

  // Values, conditions and tasks

  function RewriteValue(v: Value, flag: string, verdict: string): Value {
    match v
    case Bool(_) => v
    case Scalar(text) => Scalar(Rewritten(text, flag, verdict))
    case Items(items) => Items(seq(|items|, k requires 0 <= k < |items| => RewriteValue(items[k], flag, verdict)))
    case Fields(fields) => Fields(map n | n in fields :: RewriteValue(fields[n], flag, verdict))
    case Conditions(conds) => Conditions(RewriteConds(conds, flag, verdict))
  }

  function RewriteCond(cond: Cond, flag: string, verdict: string): Cond {
    match cond
    case Identity(a, negated) =>
      if a.Flag? then Other((if negated then "not " else "") + Rewritten(Test(a.flag), flag, verdict)) else cond
    case PlayVar(_, _) => cond
    case Other(text) => Other(Rewritten(text, flag, verdict))
  }

  function RewriteConds(conds: seq<Cond>, flag: string, verdict: string): (rewritten: seq<Cond>)
    ensures |rewritten| == |conds|
    ensures forall k :: 0 <= k < |conds| ==> rewritten[k] == RewriteCond(conds[k], flag, verdict)
  {
    if conds == [] then [] else [RewriteCond(conds[0], flag, verdict)] + RewriteConds(conds[1..], flag, verdict)
  }

  function RewriteWords(words: Keywords, flag: string, verdict: string): Keywords {
    map n | n in words :: RewriteValue(words[n], flag, verdict)
  }

  function RewriteTask(t: Task, flag: string, verdict: string): Task
    decreases t, 1
  {
    Task(if t.name.None? then None else Some(Rewritten(t.name.value, flag, verdict)),
         RewriteConds(t.when, flag, verdict), RewriteWords(t.vars, flag, verdict),
         RewriteWords(t.control, flag, verdict),
         match t.action
         case Block(block, rescue, always) =>
           Block(RewriteTasks(block, flag, verdict), RewriteTasks(rescue, flag, verdict),
                 RewriteTasks(always, flag, verdict))
         case Include(key, path, options) =>
           Include(key, Rewritten(path, flag, verdict),
                   if options.None? then None else Some(RewriteWords(options.value, flag, verdict)))
         case SetFact(facts) => SetFact(RewriteWords(facts, flag, verdict))
         case Role(word, role, tasksFrom, extra) =>
           Role(word, Rewritten(role, flag, verdict), Rewritten(tasksFrom, flag, verdict),
                RewriteWords(extra, flag, verdict))
         case Module(name, arguments) => Module(name, RewriteValue(arguments, flag, verdict)))
  }

  function RewriteTasks(ts: seq<Task>, flag: string, verdict: string): seq<Task>
    decreases ts, 0
  {
    if ts == [] then [] else [RewriteTask(ts[0], flag, verdict)] + RewriteTasks(ts[1..], flag, verdict)
  }

  function RewriteArguments(a: Arguments, flag: string, verdict: string): Arguments {
    match a
    case Given(value) => Given(RewriteValue(value, flag, verdict))
    case Facts(facts) => Facts(RewriteWords(facts, flag, verdict))
    case RoleFile(role, tasksFrom, extra) =>
      RoleFile(Rewritten(role, flag, verdict), Rewritten(tasksFrom, flag, verdict), RewriteWords(extra, flag, verdict))
    case Path(path) => Path(Rewritten(path, flag, verdict))
    case Mapping(file, options) => Mapping(Rewritten(file, flag, verdict), RewriteWords(options, flag, verdict))
    case Shared(relative) => Shared(Rewritten(relative, flag, verdict))
    case Content(tasks) => Content(RewriteTasks(tasks, flag, verdict))
  }

  lemma {:induction false} CondDepends(cond: Cond, flag: string)
    ensures RewriteCond(cond, flag, TRUE) == RewriteCond(cond, flag, FALSE) <==> !CondMentions(cond, flag)
  {
    hide Rewritten; hide Spells;
    match cond {
      case Identity(a, negated) =>
        if a.Flag? {
          var front := if negated then "not " else "";
          var x, y := Rewritten(Test(a.flag), flag, TRUE), Rewritten(Test(a.flag), flag, FALSE);
          TextDepends(Test(a.flag), flag);
          assert x == (front + x)[|front|..] && y == (front + y)[|front|..];
        }
      case PlayVar(_, _) =>
      case Other(text) => TextDepends(text, flag);
    }
  }

  lemma {:induction false} CondsDepend(conds: seq<Cond>, flag: string)
    ensures RewriteConds(conds, flag, TRUE) == RewriteConds(conds, flag, FALSE)
       <==> !exists k :: 0 <= k < |conds| && CondMentions(conds[k], flag)
  {
    hide RewriteCond; hide CondMentions;
    var x, y := RewriteConds(conds, flag, TRUE), RewriteConds(conds, flag, FALSE);
    forall k | 0 <= k < |conds| ensures x[k] == y[k] <==> !CondMentions(conds[k], flag) {
      CondDepends(conds[k], flag);
    }
  }

  lemma {:induction false} ValueDepends(v: Value, flag: string)
    ensures RewriteValue(v, flag, TRUE) == RewriteValue(v, flag, FALSE) <==> !Mentions(v, flag)
  {
    hide Rewritten; hide Spells;
    match v {
      case Bool(_) =>
      case Scalar(text) => TextDepends(text, flag);
      case Items(items) =>
        var x, y := RewriteValue(v, flag, TRUE).items, RewriteValue(v, flag, FALSE).items;
        forall k | 0 <= k < |items| ensures x[k] == y[k] <==> !Mentions(items[k], flag) {
          ValueDepends(items[k], flag);
        }
      case Fields(fields) =>
        var x, y := RewriteValue(v, flag, TRUE).fields, RewriteValue(v, flag, FALSE).fields;
        assert x.Keys == fields.Keys == y.Keys;
        forall n | n in fields ensures x[n] == y[n] <==> !Mentions(fields[n], flag) {
          ValueDepends(fields[n], flag);
        }
      case Conditions(conds) => CondsDepend(conds, flag);
    }
  }

  lemma {:induction false} WordsDepend(words: Keywords, flag: string)
    ensures RewriteWords(words, flag, TRUE) == RewriteWords(words, flag, FALSE) <==> !KeywordsMention(words, flag)
  {
    hide Mentions; hide RewriteValue;
    var x, y := RewriteWords(words, flag, TRUE), RewriteWords(words, flag, FALSE);
    assert x.Keys == words.Keys == y.Keys;
    forall n | n in words ensures x[n] == y[n] <==> !Mentions(words[n], flag) {
      ValueDepends(words[n], flag);
    }
  }

  lemma {:induction false} TaskDepends(t: Task, flag: string)
    ensures RewriteTask(t, flag, TRUE) == RewriteTask(t, flag, FALSE) <==> !TaskMentions(t, flag)
    decreases t, 1
  {
    hide Rewritten; hide Spells; hide RewriteConds; hide RewriteWords; hide KeywordsMention; hide CondMentions;
    hide RewriteValue; hide Mentions;
    if t.name.Some? { TextDepends(t.name.value, flag); }
    CondsDepend(t.when, flag);
    WordsDepend(t.vars, flag);
    WordsDepend(t.control, flag);
    match t.action {
      case Block(block, rescue, always) =>
        TasksDepend(block, flag);
        TasksDepend(rescue, flag);
        TasksDepend(always, flag);
      case Include(_, path, options) =>
        TextDepends(path, flag);
        if options.Some? { WordsDepend(options.value, flag); }
      case SetFact(facts) => WordsDepend(facts, flag);
      case Role(_, role, tasksFrom, extra) =>
        TextDepends(role, flag);
        TextDepends(tasksFrom, flag);
        WordsDepend(extra, flag);
      case Module(_, arguments) => ValueDepends(arguments, flag);
    }
  }

  lemma {:induction false} TasksDepend(ts: seq<Task>, flag: string)
    ensures RewriteTasks(ts, flag, TRUE) == RewriteTasks(ts, flag, FALSE) <==> !TasksMention(ts, flag)
    decreases ts, 0
  {
    hide RewriteTask; hide TaskMentions;
    if ts != [] {
      var x, y := RewriteTasks(ts, flag, TRUE), RewriteTasks(ts, flag, FALSE);
      assert x[0] == RewriteTask(ts[0], flag, TRUE) && x[1..] == RewriteTasks(ts[1..], flag, TRUE);
      assert y[0] == RewriteTask(ts[0], flag, FALSE) && y[1..] == RewriteTasks(ts[1..], flag, FALSE);
      TaskDepends(ts[0], flag);
      TasksDepend(ts[1..], flag);
    }
  }

  lemma {:induction false} ArgumentsDepend(a: Arguments, flag: string)
    ensures RewriteArguments(a, flag, TRUE) == RewriteArguments(a, flag, FALSE) <==> !ArgumentsMention(a, flag)
  {
    hide Rewritten; hide Spells; hide RewriteWords; hide KeywordsMention; hide RewriteValue; hide Mentions;
    hide RewriteTasks; hide TasksMention;
    match a {
      case Given(value) => ValueDepends(value, flag);
      case Facts(facts) => WordsDepend(facts, flag);
      case RoleFile(role, tasksFrom, extra) =>
        TextDepends(role, flag);
        TextDepends(tasksFrom, flag);
        WordsDepend(extra, flag);
      case Path(path) => TextDepends(path, flag);
      case Mapping(file, options) =>
        TextDepends(file, flag);
        WordsDepend(options, flag);
      case Shared(relative) => TextDepends(relative, flag);
      case Content(tasks) => TasksDepend(tasks, flag);
    }
  }

  /** What a step's arguments, variables and other keywords read when a flag has a verdict. */
  function Texts(a: Arguments, vars: Keywords, control: Keywords, flag: string,
                 verdict: string): (Arguments, Keywords, Keywords)
  {
    (RewriteArguments(a, flag, verdict), RewriteWords(vars, flag, verdict), RewriteWords(control, flag, verdict))
  }

  /** The flags a step is read under are exactly those of the two that its texts depend on. */
  lemma {:induction false} StepDepends(a: Arguments, vars: Keywords, control: Keywords, flag: string)
    ensures flag in Named(a, vars, control)
       <==> (flag == "_rm_database_backend" || flag == "_rm_keeps_guest_record")
            && Texts(a, vars, control, flag, "True") != Texts(a, vars, control, flag, "False")
  {
    hide RewriteArguments; hide ArgumentsMention; hide RewriteWords; hide KeywordsMention;
    ArgumentsDepend(a, flag);
    WordsDepend(vars, flag);
    WordsDepend(control, flag);
  }
}
