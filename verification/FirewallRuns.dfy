/** What a run of requests leaves in the firewall stand-in: the reloaded aliases, the last write
    under every name, the marks the verification phases read, and the names backups go by. */
module FirewallRuns {
  import opened Text
  import opened Firewall

  // The aliases that are active

  predicate NoReload(ops: seq<Op>) { forall k :: 0 <= k < |ops| ==> ops[k] != Reconfigure }

  /** Nothing but a reconfiguration changes the active aliases. */
  lemma {:induction false} ActiveStays(s: State, ops: seq<Op>)
    requires NoReload(ops)
    ensures Run(s, ops).active == s.active
    decreases |ops|
  {
    hide BackupName; hide Lookup; hide IsLegacy;
    if ops != [] {
      assert ops[0] != Reconfigure;
      ActiveStays(Do(s, ops[0]), ops[1..]);
    }
  }

  /** Over every run the active aliases are the configured ones as they stood at the last
      reconfiguration. */
  lemma {:induction false} ActiveIsReloaded(s: State, xs: seq<Op>, ys: seq<Op>)
    requires NoReload(ys)
    ensures Run(s, xs + [Reconfigure] + ys).active == Run(s, xs).aliases
  {
    hide BackupName; hide Lookup; hide IsLegacy;
    RunAppend(s, xs + [Reconfigure], ys);
    RunOneMore(s, xs, Reconfigure);
    ActiveStays(Run(s, xs + [Reconfigure]), ys);
  }

  lemma {:induction false} RunOneMore(s: State, xs: seq<Op>, op: Op)
    ensures Run(s, xs + [op]) == Do(Run(s, xs), op)
  {
    hide Do;
    RunAppend(s, xs, [op]);
    assert [op][1..] == [];
  }

  predicate KeepsAliases(op: Op) { !op.PutAlias? && !op.Revert? }

  lemma {:induction false} AliasesStay(s: State, ops: seq<Op>)
    requires forall k :: 0 <= k < |ops| ==> KeepsAliases(ops[k])
    ensures Run(s, ops).aliases == s.aliases
    decreases |ops|
  {
    hide BackupName; hide Lookup; hide IsLegacy;
    if ops != [] {
      assert KeepsAliases(ops[0]);
      AliasesStay(Do(s, ops[0]), ops[1..]);
    }
  }

  /** A revert takes effect on the active aliases with the next reconfiguration: from then until
      the one after it they are the backup's, if no alias was written in between. */
  lemma {:induction false} RevertIsReloaded(s: State, id: string, between: seq<Op>, later: seq<Op>)
    requires Lookup(s.history, id).Some? && NoReload(later)
    requires forall k :: 0 <= k < |between| ==> KeepsAliases(between[k])
    ensures Run(s, [Revert(id)] + between + [Reconfigure] + later).active == Lookup(s.history, id).value.aliases
    ensures NoReload(between) ==> Run(s, [Revert(id)] + between).active == s.active
  {
    hide BackupName; hide Lookup; hide IsLegacy;
    var xs := [Revert(id)] + between;
    ActiveIsReloaded(s, xs, later);
    RunAppend(s, [Revert(id)], between);
    RunOneMore(s, [], Revert(id));
    assert [] + [Revert(id)] == [Revert(id)];
    AliasesStay(Do(s, Revert(id)), between);
    if NoReload(between) { ActiveStays(Do(s, Revert(id)), between); }
  }

  // The last write under a name

  predicate LeavesAlias(op: Op, id: string) { !op.Revert? && !(op.PutAlias? && op.id == id) }

  predicate LeavesRule(op: Op, id: string) { !op.Revert? && !((op.PutRule? || op.DeleteRule?) && op.id == id) }

  lemma {:induction false} AliasStays(s: State, ops: seq<Op>, id: string)
    requires forall k :: 0 <= k < |ops| ==> LeavesAlias(ops[k], id)
    ensures id in Run(s, ops).aliases <==> id in s.aliases
    ensures id in s.aliases ==> Run(s, ops).aliases[id] == s.aliases[id]
    decreases |ops|
  {
    hide BackupName; hide Lookup; hide IsLegacy;
    if ops != [] {
      assert LeavesAlias(ops[0], id);
      AliasStays(Do(s, ops[0]), ops[1..], id);
    }
  }

  lemma {:induction false} RuleStays(s: State, ops: seq<Op>, id: string)
    requires forall k :: 0 <= k < |ops| ==> LeavesRule(ops[k], id)
    ensures id in Run(s, ops).rules <==> id in s.rules
    ensures id in s.rules ==> Run(s, ops).rules[id] == s.rules[id]
    decreases |ops|
  {
    hide BackupName; hide Lookup; hide IsLegacy;
    if ops != [] {
      assert LeavesRule(ops[0], id);
      RuleStays(Do(s, ops[0]), ops[1..], id);
    }
  }

  /** What was written is there, what was deleted is not. */
  predicate Stands(s: State, write: Op)
    requires Writes(write)
  {
    match write
    case PutAlias(id, fields) => id in s.aliases && s.aliases[id] == fields
    case PutRule(id, fields) => id in s.rules && s.rules[id] == fields
    case DeleteRule(id) => id !in s.rules
  }

  /** Over every run an alias or a rule is what was last written under its name, and a rule that
      was last deleted is gone, until a revert. */
  lemma {:induction false} LastWriteStands(s: State, before: seq<Op>, write: Op, after: seq<Op>)
    requires Writes(write)
    requires forall k :: 0 <= k < |after| ==>
               if write.PutAlias? then LeavesAlias(after[k], write.id) else LeavesRule(after[k], write.id)
    ensures Stands(Run(s, before + [write] + after), write)
  {
    hide BackupName; hide Lookup; hide IsLegacy;
    RunAppend(s, before + [write], after);
    RunOneMore(s, before, write);
    var written := Run(s, before + [write]);
    if write.PutAlias? { AliasStays(written, after, write.id); } else { RuleStays(written, after, write.id); }
  }

  /** Every backup holds the rules and aliases as its write left them, and can be read back under
      its own place while it is kept. */
  lemma {:induction false} BackupHoldsItsMoment(s: State, before: seq<Op>, write: Op, after: seq<Op>)
    requires Ordered(s) && Writes(write) && WriteCount(after) < 100
    ensures var written, end := Run(s, before + [write]), Run(s, before + [write] + after);
            && |end.history| > WriteCount(after)
            && end.history[WriteCount(after)] == Backup(BackupName(written.counter), written.rules, written.aliases)
            && written.counter == s.counter + WriteCount(before) + 1
  {
    hide BackupName; hide Lookup; hide Run; hide Do;
    var xs := before + [write];
    RunAppend(s, xs, after);
    RunOneMore(s, before, write);
    RunIsOrdered(s, before);
    WriteIsRecorded(Run(s, before), write);
    var early := RunHistory(s, before);
    var recent := RunHistory(Run(s, xs), after);
  }

  lemma {:induction false} WriteIsRecorded(s: State, write: Op)
    requires Writes(write) && Ordered(s)
    ensures var written := Do(s, write);
            && Ordered(written) && written.counter == s.counter + 1
            && written.history[0] == Backup(BackupName(written.counter), written.rules, written.aliases)
  {
    hide BackupName; hide Lookup; hide IsLegacy;
    DoIsOrdered(s, write);
  }

  // The marks

  /** A rule that the migration has to remove. */
  predicate LegacyRule(s: State, id: string) {
    id in s.rules && "description" in s.rules[id] && "Green lab: " <= s.rules[id]["description"]
  }

  datatype Mark = Applied | Reverted | LegacyDeleted

  predicate Marked(s: State, mark: Mark) {
    match mark case Applied => s.applied case Reverted => s.reverted case LegacyDeleted => s.legacyDeleteStarted
  }

  /** The request sets this mark where it is made: an apply, a revert to a backup that is kept, a
      deletion of a legacy rule that is there. */
  predicate Sets(s: State, op: Op, mark: Mark) {
    match mark
    case Applied => op.Apply?
    case Reverted => op.Revert? && exists k :: 0 <= k < |s.history| && s.history[k].id == op.backup
    case LegacyDeleted => op.DeleteRule? && LegacyRule(s, op.id)
  }

  predicate SomeSets(s: State, ops: seq<Op>, mark: Mark) {
    exists k :: 0 <= k < |ops| && Sets(Run(s, ops[..k]), ops[k], mark)
  }

  lemma {:induction false} SetsLater(s: State, ops: seq<Op>, mark: Mark)
    requires ops != []
    ensures SomeSets(s, ops, mark) <==> Sets(s, ops[0], mark) || SomeSets(Do(s, ops[0]), ops[1..], mark)
  {
    hide Sets; hide Do;
    var next, rest := Do(s, ops[0]), ops[1..];
    assert ops[..0] == [] && Run(s, ops[..0]) == s;
    forall k | 0 <= k < |rest| ensures Run(s, ops[..k + 1]) == Run(next, rest[..k]) && ops[k + 1] == rest[k] {
      assert ops[..k + 1][0] == ops[0] && ops[..k + 1][1..] == rest[..k];
    }
    if SomeSets(s, ops, mark) {
      var k :| 0 <= k < |ops| && Sets(Run(s, ops[..k]), ops[k], mark);
      if k > 0 { assert Run(s, ops[..(k - 1) + 1]) == Run(next, rest[..k - 1]) && ops[k] == rest[k - 1]; }
    }
    if SomeSets(next, rest, mark) {
      var k :| 0 <= k < |rest| && Sets(Run(next, rest[..k]), rest[k], mark);
      assert Sets(Run(s, ops[..k + 1]), ops[k + 1], mark);
    }
  }

  lemma {:induction false} LookupIsThere(history: seq<Backup>, id: string)
    ensures Lookup(history, id).Some? <==> exists k :: 0 <= k < |history| && history[k].id == id
  {
    if Lookup(history, id).None? {
      MissesAll(history, id);
    } else {
      FindsOne(history, id);
    }
  }

  lemma {:induction false} MissesAll(history: seq<Backup>, id: string)
    requires Lookup(history, id).None?
    ensures forall k :: 0 <= k < |history| ==> history[k].id != id
  {
    if history != [] {
      MissesAll(history[1..], id);
      assert forall k :: 0 < k < |history| ==> history[k] == history[1..][k - 1];
    }
  }

  lemma {:induction false} FindsOne(history: seq<Backup>, id: string)
    requires Lookup(history, id).Some?
    ensures exists k :: 0 <= k < |history| && history[k].id == id
  {
    if history[0].id != id {
      FindsOne(history[1..], id);
      var k :| 0 <= k < |history[1..]| && history[1..][k].id == id;
      assert history[k + 1].id == id;
    }
  }

  /** Over every run a mark is set exactly when it was before or some request set it where it was
      made; it is never taken back. */
  lemma {:induction false} MarksAreExact(s: State, ops: seq<Op>, mark: Mark)
    ensures Marked(Run(s, ops), mark) <==> Marked(s, mark) || SomeSets(s, ops, mark)
    decreases |ops|
  {
    hide SomeSets; hide Do; hide Sets; hide Marked;
    if ops == [] {
      NothingSets(s, mark);
    } else {
      OneSets(s, ops[0], mark);
      MarksAreExact(Do(s, ops[0]), ops[1..], mark);
      SetsLater(s, ops, mark);
    }
  }

  lemma NothingSets(s: State, mark: Mark)
    ensures !SomeSets(s, [], mark)
  {
  }

  lemma {:induction false} OneSets(s: State, op: Op, mark: Mark)
    ensures Marked(Do(s, op), mark) <==> Marked(s, mark) || Sets(s, op, mark)
  {
    hide BackupName; hide Lookup;
    if op.Revert? { LookupIsThere(s.history, op.backup); }
  }

  /** From the configured server on: its configuration is the backup without a number, found
      exactly while at most 99 writes follow; its aliases are active until a reconfiguration; and
      it starts without a mark. */
  lemma {:induction false} ConfiguredServer(rules: map<string, Fields>, aliases: map<string, Fields>, ops: seq<Op>,
                                            mark: Mark)
    ensures var end, first := Run(Initial(rules, aliases), ops), "config-2026-10-26_00.00.00.xml";
            && Lookup(end.history, first)
               == (if WriteCount(ops) < 100 then Some(Backup(first, rules, aliases)) else None)
            && (NoReload(ops) ==> end.active == aliases)
            && (Marked(end, mark) <==> SomeSets(Initial(rules, aliases), ops, mark))
  {
    hide Run; hide Lookup; hide SomeSets;
    var s := Initial(rules, aliases);
    var _ := NameHasNumber(0);
    ReachableIsOrdered(rules, aliases, []);
    assert Run(s, []) == s by { NothingRuns(s); }
    BackupSurvives(s, ops);
    MarksAreExact(s, ops, mark);
    if NoReload(ops) { ActiveStays(s, ops); }
  }

  lemma NothingRuns(s: State)
    ensures Run(s, []) == s
  {
  }

  // Backup names

  predicate AllDigits(s: string) { forall k :: 0 <= k < |s| ==> '0' <= s[k] <= '9' }

  lemma {:induction false} DecimalIsPlain(n: nat)
    ensures Decimal(n) != "" && AllDigits(Decimal(n)) && (n > 0 ==> Decimal(n)[0] != '0')
  {
    if n >= 10 { DecimalIsPlain(n / 10); }
  }

  lemma {:induction false} PaddedIsWide(s: string)
    requires AllDigits(s)
    ensures var p := Padded(s); |p| >= 4 && AllDigits(p) && (|s| >= 4 ==> p == s) && (|p| > 4 ==> p == s)
    decreases 4 - |s|
  {
    if |s| < 4 {
      assert AllDigits("0" + s) by { assert ("0" + s)[0] == '0'; }
      PaddedIsWide("0" + s);
    }
  }

  /** The configured backup has no number; every other one has its number in decimal digits, at
      least four, with no zero in front where there are more. */
  lemma {:induction false} NameHasNumber(n: nat) returns (digits: string)
    ensures BackupName(0) == "config-2026-10-26_00.00.00.xml"
    ensures n > 0 ==> BackupName(n) == "config-2026-10-26_00.00.00-" + digits + ".xml"
    ensures AllDigits(digits) && |digits| >= 4 && Numeral(digits) == n && (|digits| > 4 ==> digits[0] != '0')
  {
    hide Decimal; hide Padded; hide Numeral;
    digits := Padded(Decimal(n));
    DecimalIsPlain(n);
    PaddedIsWide(Decimal(n));
    NumeralOfPadded(Decimal(n));
    NumeralOfDecimal(n);
    assert STAMP + ".xml" == "config-2026-10-26_00.00.00.xml";
    assert n > 0 ==> BackupName(n) == STAMP + ("-" + digits + ".xml");
    if n == 0 { ZeroIsShort(); }
  }

  lemma ZeroIsShort()
    ensures |Padded(Decimal(0))| == 4
  {
    assert Decimal(0) == "0";
    assert Padded("0") == Padded("0" + "0") == Padded("0" + ("0" + "0")) == "0" + ("0" + ("0" + "0"));
  }
}
