/** The stateful OPNsense stand-in of `test-firewall-base`: every model write pushes a
    configuration backup onto a bounded history, and a revert restores one. */
module Firewall {
  import opened Text

  const KEPT: nat := 100

  type Fields = map<string, string>

  datatype Backup = Backup(id: string, rules: map<string, Fields>, aliases: map<string, Fields>)

  datatype State = State(rules: map<string, Fields>, aliases: map<string, Fields>, active: map<string, Fields>,
                         history: seq<Backup>, counter: nat, legacyDeleteStarted: bool, applied: bool, reverted: bool)

  // Backup names: the first has no number, the others at least four digits

  function Digit(d: nat): char
    requires d < 10
  {
    (48 + d) as char
  }

  function Decimal(n: nat): string { if n < 10 then [Digit(n)] else Decimal(n / 10) + [Digit(n % 10)] }

  function Padded(s: string): string
    decreases 4 - |s|
  {
    if |s| >= 4 then s else Padded("0" + s)
  }

  const STAMP: string := "config-2026-10-26_00.00.00"

  function Tag(n: nat): string { if n == 0 then ".xml" else "-" + Padded(Decimal(n)) + ".xml" }

  function BackupName(n: nat): string { STAMP + Tag(n) }

  function Numeral(s: string): int {
    if s == "" then 0 else Numeral(s[..|s| - 1]) * 10 + (s[|s| - 1] as int - 48)
  }

  lemma {:induction false} NumeralOfDecimal(n: nat)
    ensures Numeral(Decimal(n)) == n
  {
    if n < 10 {
      assert [Digit(n)][..0] == "";
    } else {
      NumeralOfDecimal(n / 10);
      assert (Decimal(n / 10) + [Digit(n % 10)])[..|Decimal(n / 10)|] == Decimal(n / 10);
    }
  }

  lemma {:induction false} LeadingZero(s: string)
    ensures Numeral("0" + s) == Numeral(s)
  {
    if s == "" {
      assert "0" + s == "0" && "0"[..0] == "";
    } else {
      LeadingZero(s[..|s| - 1]);
      assert ("0" + s)[..|s|] == "0" + s[..|s| - 1];
    }
  }

  lemma {:induction false} NumeralOfPadded(s: string)
    ensures Numeral(Padded(s)) == Numeral(s)
    decreases 4 - |s|
  {
    if |s| < 4 {
      NumeralOfPadded("0" + s);
      LeadingZero(s);
    }
  }

  /** No two backups ever share a name, however many are recorded. */
  lemma {:induction false} NamesAreDistinct(m: nat, n: nat)
    ensures BackupName(m) == BackupName(n) <==> m == n
  {
    hide Decimal; hide Padded; hide Numeral;
    assert BackupName(m)[|STAMP|..] == Tag(m) && BackupName(n)[|STAMP|..] == Tag(n);
    assert Tag(m)[0] == (if m == 0 then '.' else '-') && Tag(n)[0] == (if n == 0 then '.' else '-');
    if m > 0 && n > 0 {
      assert Padded(Decimal(m)) == Tag(m)[1..|Tag(m)| - 4] && Padded(Decimal(n)) == Tag(n)[1..|Tag(n)| - 4];
      NumeralOfPadded(Decimal(m));
      NumeralOfPadded(Decimal(n));
      NumeralOfDecimal(m);
      NumeralOfDecimal(n);
    }
  }

  // The requests that change something

  datatype Op = PutAlias(id: string, fields: Fields)
              | PutRule(id: string, fields: Fields)
              | DeleteRule(id: string)
              | Reconfigure
              | Apply
              | Revert(backup: string)

  predicate Writes(op: Op) { op.PutAlias? || op.PutRule? || op.DeleteRule? }

  function Newest(backups: seq<Backup>): seq<Backup> { if |backups| <= KEPT then backups else backups[..KEPT] }

  function Recorded(s: State): State {
    s.(counter := s.counter + 1,
       history := Newest([Backup(BackupName(s.counter + 1), s.rules, s.aliases)] + s.history))
  }

  function Lookup(history: seq<Backup>, id: string): Option<Backup> {
    if history == [] then None
    else if history[0].id == id then Some(history[0])
    else Lookup(history[1..], id)
  }

  predicate IsLegacy(fields: Fields) { "description" in fields && "Green lab: " <= fields["description"] }

  function Do(s: State, op: Op): State {
    match op
    case PutAlias(id, fields) => Recorded(s.(aliases := s.aliases[id := fields]))
    case PutRule(id, fields) => Recorded(s.(rules := s.rules[id := fields]))
    case DeleteRule(id) =>
      Recorded(s.(rules := s.rules - {id},
                  legacyDeleteStarted := s.legacyDeleteStarted || (id in s.rules && IsLegacy(s.rules[id]))))
    case Reconfigure => s.(active := s.aliases)
    case Apply => s.(applied := true)
    case Revert(backup) =>
      match Lookup(s.history, backup)
      case None => s
      case Some(b) => s.(rules := b.rules, aliases := b.aliases, reverted := true)
  }

  function Run(s: State, ops: seq<Op>): State
    decreases |ops|
  {
    if ops == [] then s else Run(Do(s, ops[0]), ops[1..])
  }

  function Initial(rules: map<string, Fields>, aliases: map<string, Fields>): State {
    State(rules, aliases, aliases, [Backup(BackupName(0), rules, aliases)], 0, false, false, false)
  }

  // The server object

  class Server {
    var rules: map<string, Fields>
    var aliases: map<string, Fields>
    var active: map<string, Fields>
    var history: seq<Backup>
    var backupId: string
    var counter: nat
    var legacyDeleteStarted: bool
    var applied: bool
    var reverted: bool

    ghost function Model(): State
      reads this
    {
      State(rules, aliases, active, history, counter, legacyDeleteStarted, applied, reverted)
    }

    ghost predicate Valid()
      reads this
    {
      Ordered(Model()) && backupId == history[0].id
    }

    constructor (rules: map<string, Fields>, aliases: map<string, Fields>)
      ensures Valid() && Model() == Initial(rules, aliases)
    {
      this.rules, this.aliases, active := rules, aliases, aliases;
      counter := 0;
      history := [Backup(BackupName(0), rules, aliases)];
      backupId := BackupName(0);
      legacyDeleteStarted, applied, reverted := false, false, false;
    }

    method RecordBackup()
      requires Valid()
      modifies this`counter, this`history, this`backupId
      ensures Valid() && Model() == Recorded(old(Model()))
    {
      hide BackupName; hide Ordered;
      RecordedIsOrdered(Model());
      counter := counter + 1;
      history := [Backup(BackupName(counter), rules, aliases)] + history;
      history := if |history| <= KEPT then history else history[..KEPT];
      backupId := history[0].id;
    }

    method SetAlias(id: string, fields: Fields)
      requires Valid()
      modifies this
      ensures Valid() && Model() == Do(old(Model()), PutAlias(id, fields))
    {
      aliases := aliases[id := fields];
      RecordBackup();
    }

    method SetRule(id: string, fields: Fields)
      requires Valid()
      modifies this
      ensures Valid() && Model() == Do(old(Model()), PutRule(id, fields))
    {
      rules := rules[id := fields];
      RecordBackup();
    }

    /** Deleting a rule that is not there records a backup all the same. */
    method DelRule(id: string)
      requires Valid()
      modifies this
      ensures Valid() && Model() == Do(old(Model()), DeleteRule(id))
    {
      if id in rules && IsLegacy(rules[id]) {
        legacyDeleteStarted := true;
      }
      rules := rules - {id};
      RecordBackup();
    }

    method ReloadAliases()
      requires Valid()
      modifies this
      ensures Valid() && Model() == Do(old(Model()), Reconfigure)
    {
      active := aliases;
    }

    method ApplyRules()
      requires Valid()
      modifies this
      ensures Valid() && Model() == Do(old(Model()), Apply)
    {
      applied := true;
    }

    /** The first backup of the given name is restored; an unknown name is refused. */
    method RevertBackup(id: string) returns (found: bool)
      requires Valid()
      modifies this
      ensures Valid() && Model() == Do(old(Model()), Revert(id))
      ensures found <==> exists k :: 0 <= k < |old(history)| && old(history)[k].id == id
    {
      hide BackupName; hide Ordered;
      DoIsOrdered(Model(), Revert(id));
      var i := 0;
      assert history[0..] == history;
      while i < |history| && history[i].id != id
        invariant 0 <= i <= |history|
        invariant forall k :: 0 <= k < i ==> history[k].id != id
        invariant Lookup(history, id) == Lookup(history[i..], id)
      {
        assert history[i..][1..] == history[i + 1..];
        i := i + 1;
      }
      found := i < |history|;
      if found {
        rules, aliases, reverted := history[i].rules, history[i].aliases, true;
      }
    }
  }

  // The history over every run

  /** Identifiers run down one by one from the newest, and at most a hundred are kept. */
  predicate Ordered(s: State) {
    && |s.history| == (if s.counter + 1 <= KEPT then s.counter + 1 else KEPT)
    && forall k :: 0 <= k < |s.history| ==> s.history[k].id == BackupName(s.counter - k)
  }

  /** The newest backup is the live configuration. */
  predicate Synced(s: State)
    requires Ordered(s)
  {
    s.history[0].rules == s.rules && s.history[0].aliases == s.aliases
  }

  lemma {:induction false} RecordedIsOrdered(s: State)
    requires Ordered(s)
    ensures Ordered(Recorded(s)) && Synced(Recorded(s))
  {
    hide BackupName;
    var longer := [Backup(BackupName(s.counter + 1), s.rules, s.aliases)] + s.history;
    assert forall k :: 0 < k < |longer| ==> longer[k] == s.history[k - 1];
    assert forall k :: 0 <= k < |longer| ==> longer[k].id == BackupName(s.counter + 1 - k);
  }

  lemma {:induction false} DoIsOrdered(s: State, op: Op)
    requires Ordered(s)
    ensures Ordered(Do(s, op))
    ensures Writes(op) || (!op.Revert? && Synced(s)) ==> Synced(Do(s, op))
  {
    hide BackupName; hide Recorded; hide Lookup; hide IsLegacy;
    match op {
      case PutAlias(id, fields) => RecordedIsOrdered(s.(aliases := s.aliases[id := fields]));
      case PutRule(id, fields) => RecordedIsOrdered(s.(rules := s.rules[id := fields]));
      case DeleteRule(id) =>
        RecordedIsOrdered(s.(rules := s.rules - {id},
                             legacyDeleteStarted := s.legacyDeleteStarted || (id in s.rules && IsLegacy(s.rules[id]))));
      case _ =>
    }
  }

  predicate NoRevert(ops: seq<Op>) { forall k :: 0 <= k < |ops| ==> !ops[k].Revert? }

  /** Every reachable state is ordered, and until a revert the newest backup is the live one. */
  lemma {:induction false} RunIsOrdered(s: State, ops: seq<Op>)
    requires Ordered(s)
    ensures Ordered(Run(s, ops))
    ensures Synced(s) && NoRevert(ops) ==> Synced(Run(s, ops))
    decreases |ops|
  {
    hide Ordered; hide Do;
    if ops != [] {
      DoIsOrdered(s, ops[0]);
      RunIsOrdered(Do(s, ops[0]), ops[1..]);
    }
  }

  /** From the configured server on, whatever is requested. */
  lemma {:induction false} ReachableIsOrdered(rules: map<string, Fields>, aliases: map<string, Fields>, ops: seq<Op>)
    ensures Ordered(Run(Initial(rules, aliases), ops))
    ensures NoRevert(ops) ==> Synced(Run(Initial(rules, aliases), ops))
  {
    hide BackupName; hide Run;
    RunIsOrdered(Initial(rules, aliases), ops);
  }

  /** In an ordered history no two backups share a name. */
  lemma {:induction false} HistoryIsDistinct(s: State, j: nat, k: nat)
    requires Ordered(s) && j < |s.history| && k < |s.history|
    ensures s.history[j].id == s.history[k].id <==> j == k
  {
    NamesAreDistinct(s.counter - j, s.counter - k);
  }

  function WriteCount(ops: seq<Op>): nat {
    if ops == [] then 0 else (if Writes(ops[0]) then 1 else 0) + WriteCount(ops[1..])
  }

  lemma {:induction false} WriteCountAppend(xs: seq<Op>, ys: seq<Op>)
    ensures WriteCount(xs + ys) == WriteCount(xs) + WriteCount(ys)
  {
    if xs == [] {
      assert xs + ys == ys;
    } else {
      assert (xs + ys)[0] == xs[0] && (xs + ys)[1..] == xs[1..] + ys;
      WriteCountAppend(xs[1..], ys);
    }
  }

  lemma {:induction false} RunAppend(s: State, xs: seq<Op>, ys: seq<Op>)
    ensures Run(s, xs + ys) == Run(Run(s, xs), ys)
    decreases |xs|
  {
    hide Do;
    if xs == [] {
      assert xs + ys == ys;
    } else {
      assert (xs + ys)[0] == xs[0] && (xs + ys)[1..] == xs[1..] + ys;
      RunAppend(Do(s, xs[0]), xs[1..], ys);
    }
  }

  lemma {:induction false} DoHistory(s: State, op: Op)
    ensures Do(s, op).counter == s.counter + (if Writes(op) then 1 else 0)
    ensures !Writes(op) ==> Do(s, op).history == s.history
    ensures Writes(op) ==> exists b: Backup :: Do(s, op).history == Newest([b] + s.history)
  {
    hide BackupName; hide Lookup; hide IsLegacy; hide Newest;
  }

  lemma {:induction false} NewestTwice(xs: seq<Backup>, ys: seq<Backup>)
    ensures Newest(xs + Newest(ys)) == Newest(xs + ys)
  {
  }

  /** After some requests the history is what they recorded, one backup a write, in front of
      what was there, cut to the newest hundred. */
  lemma {:induction false} RunHistory(s: State, ops: seq<Op>) returns (recent: seq<Backup>)
    requires Ordered(s)
    ensures |recent| == WriteCount(ops) && Run(s, ops).counter == s.counter + WriteCount(ops)
    ensures Run(s, ops).history == Newest(recent + s.history)
    decreases |ops|
  {
    hide Do; hide BackupName;
    if ops == [] {
      recent := [];
      assert recent + s.history == s.history;
    } else {
      DoIsOrdered(s, ops[0]);
      DoHistory(s, ops[0]);
      recent := RunHistory(Do(s, ops[0]), ops[1..]);
      if Writes(ops[0]) {
        var b: Backup :| Do(s, ops[0]).history == Newest([b] + s.history);
        NewestTwice(recent, [b] + s.history);
        assert recent + ([b] + s.history) == (recent + [b]) + s.history;
        recent := recent + [b];
      }
    }
  }

  lemma {:induction false} LookupFinds(history: seq<Backup>, k: nat)
    requires k < |history| && forall j :: 0 <= j < |history| && history[j].id == history[k].id ==> j == k
    ensures Lookup(history, history[k].id) == Some(history[k])
  {
    if k > 0 {
      assert history[0].id != history[k].id;
      forall j | 0 <= j < |history[1..]| && history[1..][j].id == history[k].id ensures j == k - 1 {
        assert history[j + 1].id == history[k].id;
      }
      LookupFinds(history[1..], k - 1);
    }
  }

  lemma {:induction false} LookupMisses(history: seq<Backup>, id: string)
    requires forall j :: 0 <= j < |history| ==> history[j].id != id
    ensures Lookup(history, id) == None
  {
    if history != [] { LookupMisses(history[1..], id); }
  }

  // Rolling back

  /** A backup taken at the head can be found exactly while at most 99 writes follow it. */
  lemma {:induction false} BackupSurvives(s: State, ops: seq<Op>)
    requires Ordered(s)
    ensures Lookup(Run(s, ops).history, s.history[0].id)
         == if WriteCount(ops) < KEPT then Some(s.history[0]) else None
  {
    hide BackupName; hide Do; hide Run; hide Lookup;
    var b, end, w := s.history[0], Run(s, ops), WriteCount(ops);
    var recent := RunHistory(s, ops);
    RunIsOrdered(s, ops);
    assert b.id == BackupName(s.counter);
    if w < KEPT {
      assert end.history[w] == (recent + s.history)[w] == b;
      forall j | 0 <= j < |end.history| && end.history[j].id == b.id ensures j == w {
        HistoryIsDistinct(end, j, w);
      }
      LookupFinds(end.history, w);
    } else {
      forall j | 0 <= j < |end.history| ensures end.history[j].id != b.id {
        NamesAreDistinct(end.counter - j, s.counter);
      }
      LookupMisses(end.history, b.id);
    }
  }

  function RolledBack(s: State, ops: seq<Op>): State
    requires Ordered(s)
  {
    Do(Run(s, ops), Revert(s.history[0].id))
  }

  /** Reverting, within 99 writes, to the backup that headed the history at some moment restores
      the rules and aliases of that moment exactly when the head was the live configuration
      then, which fails only between a revert and the next write. */
  lemma {:induction false} RollbackRestores(s: State, ops: seq<Op>)
    requires Ordered(s) && WriteCount(ops) < KEPT
    ensures RolledBack(s, ops).rules == s.rules && RolledBack(s, ops).aliases == s.aliases <==> Synced(s)
    ensures RolledBack(s, ops).history == Run(s, ops).history
  {
    hide BackupName; hide Run; hide Lookup;
    BackupSurvives(s, ops);
  }

  /** Each phase of at most 80 writes can be rolled back to its own start at any time, whatever
      else it requests; the first phase's backup outlives both phases exactly when their writes
      total at most 99, which two full phases exceed. */
  lemma {:induction false} PhasesRollBack(s: State, first: seq<Op>, second: seq<Op>)
    requires Ordered(s) && Synced(s) && NoRevert(first)
    requires WriteCount(first) <= 80 && WriteCount(second) <= 80
    ensures var middle := Run(s, first);
            && RolledBack(s, first).rules == s.rules && RolledBack(s, first).aliases == s.aliases
            && Ordered(middle)
            && RolledBack(middle, second).rules == middle.rules && RolledBack(middle, second).aliases == middle.aliases
            && (Lookup(Run(middle, second).history, s.history[0].id) == Some(s.history[0])
                <==> WriteCount(first) + WriteCount(second) <= 99)
  {
    hide BackupName; hide Run; hide Do; hide Lookup; hide Ordered; hide NoRevert;
    var middle := Run(s, first);
    RunIsOrdered(s, first);
    RollbackRestores(s, first);
    RollbackRestores(middle, second);
    RunAppend(s, first, second);
    WriteCountAppend(first, second);
    BackupSurvives(s, first + second);
  }

  function RulesAfter(op: Op, rules: map<string, Fields>): map<string, Fields> {
    match op
    case PutRule(id, fields) => rules[id := fields]
    case DeleteRule(id) => rules - {id}
    case _ => rules
  }

  function AliasesAfter(op: Op, aliases: map<string, Fields>): map<string, Fields> {
    match op
    case PutAlias(id, fields) => aliases[id := fields]
    case _ => aliases
  }

  /** After a revert the live configuration is the reverted backup's until the next write or
      revert. The next write records a backup of that configuration with the write in it, in
      front of the history the revert left alone. */
  lemma {:induction false} RevertHolds(s: State, id: string, ops: seq<Op>, next: Op)
    requires Ordered(s) && Lookup(s.history, id).Some? && NoRevert(ops) && WriteCount(ops) == 0 && Writes(next)
    ensures var b, end := Lookup(s.history, id).value, Run(Do(s, Revert(id)), ops);
            && end.rules == b.rules && end.aliases == b.aliases && end.history == s.history
            && var after := Do(end, next).history;
               && after[1..] == s.history[..|after| - 1]
               && after[0].rules == RulesAfter(next, b.rules) && after[0].aliases == AliasesAfter(next, b.aliases)
  {
    hide BackupName; hide Lookup; hide Ordered; hide IsLegacy;
    LiveStays(Do(s, Revert(id)), ops);
    HistoryIsThere(s);
  }

  lemma HistoryIsThere(s: State)
    requires Ordered(s)
    ensures s.history != []
  {
  }

  lemma {:induction false} LiveStays(s: State, ops: seq<Op>)
    requires NoRevert(ops) && WriteCount(ops) == 0
    ensures Run(s, ops).rules == s.rules && Run(s, ops).aliases == s.aliases && Run(s, ops).history == s.history
    decreases |ops|
  {
    hide BackupName; hide Lookup; hide Recorded;
    if ops != [] {
      assert !ops[0].Revert? && !Writes(ops[0]);
      LiveStays(Do(s, ops[0]), ops[1..]);
    }
  }
}
