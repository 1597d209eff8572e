/** `check-structure.measure_shared`: how many 12-word passages two documents have in common. */
module Shared {
  import opened Text
  import opened Order
  import opened Reach

  const SHINGLE: nat := 12

  function Window(ws: seq<string>, i: nat): seq<string>
    requires i + SHINGLE <= |ws|
  {
    ws[i..i + SHINGLE]
  }

  /** A passage as the text the index is keyed by. */
  function Passage(ws: seq<string>, i: nat): string
    requires i + SHINGLE <= |ws|
  {
    Join(Window(ws, i), ' ')
  }

  function PassagesBelow(ws: seq<string>, n: nat): set<string> {
    set i: nat | i < n && i + SHINGLE <= |ws| :: Passage(ws, i)
  }

  /** The distinct passages of a document: a repeat counts once. */
  function Passages(ws: seq<string>): set<string> { PassagesBelow(ws, |ws|) }

  lemma {:induction false} OneMorePassage(ws: seq<string>, n: nat)
    requires n + SHINGLE <= |ws|
    ensures PassagesBelow(ws, n + 1) == PassagesBelow(ws, n) + {Passage(ws, n)}
  {
    assert Passage(ws, n) in PassagesBelow(ws, n + 1);
  }

  lemma {:induction false} NoMorePassages(ws: seq<string>, n: nat)
    requires n <= |ws| && n + SHINGLE > |ws|
    ensures PassagesBelow(ws, n) == Passages(ws)
  {
  }

  /** A passage of a document is any twelve words in a row, with one space between two. */
  lemma {:induction false} PassagesAreTwelveWords(ws: seq<string>, w: string)
    ensures w in Passages(ws)
       <==> exists before, row, after :: ws == before + row + after && |row| == 12 && w == Join(row, ' ')
  {
    hide Join;
    if before, row, after :| ws == before + row + after && |row| == 12 && w == Join(row, ' ') {
      assert Window(ws, |before|) == row;
      assert Passage(ws, |before|) in Passages(ws);
    }
    if w in Passages(ws) {
      var i: nat :| i < |ws| && i + SHINGLE <= |ws| && Passage(ws, i) == w;
      assert ws == ws[..i] + Window(ws, i) + ws[i + SHINGLE..];
    }
  }

  /** A document's words, lower-cased; a document without words has none. */
  type Words = map<string, seq<string>>

  function WordsOf(words: Words, path: string): seq<string> { if path in words then words[path] else [] }

  function Key(a: string, b: string): string { a + " " + b }

  datatype Hit = Hit(passage: string, first: string, second: string)

  /** A passage and two documents, in order, that both hold it. */
  predicate IsHit(docs: set<string>, words: Words, h: Hit) {
    && h.first in docs && h.second in docs && Less(h.first, h.second)
    && h.passage in Passages(WordsOf(words, h.first)) && h.passage in Passages(WordsOf(words, h.second))
  }

  function Hits(docs: set<string>, words: Words): set<Hit> {
    set a, b, w | a in docs && b in docs && w in Passages(WordsOf(words, a)) && IsHit(docs, words, Hit(w, a, b))
      :: Hit(w, a, b)
  }

  function HitsUnder(hits: set<Hit>, key: string): set<Hit> { set h | h in hits && Key(h.first, h.second) == key }

  /** The counter after some hits: a key is present exactly when one of them falls under it,
      with their number. */
  ghost predicate Counts(pairs: map<string, nat>, hits: set<Hit>) {
    forall key ::
      && (key in pairs <==> HitsUnder(hits, key) != {})
      && (key in pairs ==> pairs[key] == |HitsUnder(hits, key)|)
  }

  lemma {:induction false} UnderOneMore(hits: set<Hit>, h: Hit, key: string)
    ensures HitsUnder(hits + {h}, key)
         == if Key(h.first, h.second) == key then HitsUnder(hits, key) + {h} else HitsUnder(hits, key)
    ensures h !in hits ==> h !in HitsUnder(hits, key)
  {
  }

  lemma {:induction false} CountOne(pairs: map<string, nat>, hits: set<Hit>, h: Hit)
    requires Counts(pairs, hits) && h !in hits
    ensures var key := Key(h.first, h.second);
            Counts(pairs[key := (if key in pairs then pairs[key] else 0) + 1], hits + {h})
  {
    hide HitsUnder; hide Key;
    var key := Key(h.first, h.second);
    var counted := pairs[key := (if key in pairs then pairs[key] else 0) + 1];
    forall k
      ensures k in counted <==> HitsUnder(hits + {h}, k) != {}
      ensures k in counted ==> counted[k] == |HitsUnder(hits + {h}, k)|
    {
      UnderOneMore(hits, h, k);
      assert k in pairs <==> HitsUnder(hits, k) != {};
    }
  }

  /** The first loop: which documents hold each passage. */
  method Index(docs: seq<string>, words: Words) returns (owners: map<string, set<string>>)
    ensures forall w, p :: w in owners && p in owners[w] <==> p in docs && w in Passages(WordsOf(words, p))
  {
    owners := map[];
    for n := 0 to |docs|
      invariant forall w, p :: w in owners && p in owners[w] <==> p in docs[..n] && w in Passages(WordsOf(words, p))
    {
      ghost var before := owners;
      var path, ws := docs[n], WordsOf(words, docs[n]);
      var i := 0;
      assert PassagesBelow(ws, 0) == {};
      while i + SHINGLE <= |ws|
        invariant i <= |ws|
        invariant forall w, p :: w in owners && p in owners[w] <==>
                    (w in before && p in before[w]) || (p == path && w in PassagesBelow(ws, i))
      {
        var passage := Passage(ws, i);
        OneMorePassage(ws, i);
        owners := owners[passage := (if passage in owners then owners[passage] else {}) + {path}];
        i := i + 1;
      }
      NoMorePassages(ws, i);
      assert docs[..n + 1] == docs[..n] + [path];
      forall w, p ensures w in owners && p in owners[w] <==> p in docs[..n + 1] && w in Passages(WordsOf(words, p)) {
        assert p in docs[..n + 1] <==> p in docs[..n] || p == path;
      }
    }
    assert docs[..|docs|] == docs;
  }

  // The second loop: every pair of a passage's owners, in order

  function Row(w: string, ordered: seq<string>, i: nat, n: nat): set<Hit>
    requires i < |ordered|
  {
    set q | i < q < n && q < |ordered| :: Hit(w, ordered[i], ordered[q])
  }

  function Rows(w: string, ordered: seq<string>, n: nat): set<Hit> {
    set p, q | 0 <= p < q < |ordered| && p < n :: Hit(w, ordered[p], ordered[q])
  }

  lemma {:induction false} NewHit(w: string, ordered: seq<string>, i: nat, j: nat)
    requires Increasing(ordered) && i < j < |ordered|
    ensures Hit(w, ordered[i], ordered[j]) !in Rows(w, ordered, i) + Row(w, ordered, i, j)
    ensures Row(w, ordered, i, j + 1) == Row(w, ordered, i, j) + {Hit(w, ordered[i], ordered[j])}
  {
    forall p | 0 <= p < |ordered| && p != i ensures ordered[p] != ordered[i] {
      LessTotal(ordered[p], ordered[i]);
    }
    forall q | 0 <= q < |ordered| && q != j ensures ordered[q] != ordered[j] {
      LessTotal(ordered[q], ordered[j]);
    }
    forall h
      ensures h in Row(w, ordered, i, j + 1) <==> h in Row(w, ordered, i, j) || h == Hit(w, ordered[i], ordered[j])
    {
    }
  }

  lemma {:induction false} NextRow(w: string, ordered: seq<string>, i: nat)
    requires i < |ordered|
    ensures Rows(w, ordered, i + 1) == Rows(w, ordered, i) + Row(w, ordered, i, |ordered|)
    ensures Rows(w, ordered, 0) == {} && Row(w, ordered, i, i + 1) == {}
  {
  }

  /** The rows of all owners are the hits of the passage. */
  lemma {:induction false} RowsAreHits(docs: set<string>, words: Words, w: string, ordered: seq<string>)
    requires Increasing(ordered)
    requires forall p :: p in ordered <==> p in docs && w in Passages(WordsOf(words, p))
    ensures forall h :: h in Rows(w, ordered, |ordered|) <==> IsHit(docs, words, h) && h.passage == w
  {
    hide Passages; hide Less;
    forall h | IsHit(docs, words, h) && h.passage == w ensures h in Rows(w, ordered, |ordered|) {
      var p :| 0 <= p < |ordered| && ordered[p] == h.first;
      var q :| 0 <= q < |ordered| && ordered[q] == h.second;
      LessTotal(h.first, h.second);
      assert h == Hit(w, ordered[p], ordered[q]);
    }
  }

  method CountPairs(docs: set<string>, words: Words, owners: map<string, set<string>>) returns (pairs: map<string, nat>)
    requires forall w, p :: w in owners && p in owners[w] <==> p in docs && w in Passages(WordsOf(words, p))
    ensures Counts(pairs, Hits(docs, words))
  {
    hide Passages; hide IsHit; hide Counts; hide HitsUnder; hide Less; hide Rows; hide Row;
    pairs := map[];
    ghost var done: set<Hit> := {};
    CountNone();
    var rest := owners.Keys;
    while rest != {}
      invariant rest <= owners.Keys && Counts(pairs, done)
      invariant forall h :: h in done <==> IsHit(docs, words, h) && h.passage in owners && h.passage !in rest
      decreases rest
    {
      var w :| w in rest;
      rest := rest - {w};
      var ordered := Sorted(owners[w]);
      RowsAreHits(docs, words, w, ordered);
      pairs := CountOwners(pairs, w, ordered, done);
      done := done + Rows(w, ordered, |ordered|);
    }
    HitsAreOwned(docs, words, owners);
    assert done == Hits(docs, words);
  }

  method CountOwners(counted: map<string, nat>, w: string, ordered: seq<string>,
                     ghost done: set<Hit>) returns (pairs: map<string, nat>)
    requires Increasing(ordered) && Counts(counted, done) && forall h :: h in done ==> h.passage != w
    ensures Counts(pairs, done + Rows(w, ordered, |ordered|))
  {
    hide Counts; hide Increasing;
    pairs := counted;
    ghost var hits := done;
    for i := 0 to |ordered|
      invariant hits == done + Rows(w, ordered, i) && Counts(pairs, hits)
    {
      pairs := CountRow(pairs, w, ordered, i, hits);
      NextRow(w, ordered, i);
      hits := hits + Row(w, ordered, i, |ordered|);
    }
  }

  method CountRow(counted: map<string, nat>, w: string, ordered: seq<string>, i: nat,
                  ghost before: set<Hit>) returns (pairs: map<string, nat>)
    requires i < |ordered| && Increasing(ordered) && Counts(counted, before)
    requires forall h :: h in before && h.passage == w ==> h in Rows(w, ordered, i)
    ensures Counts(pairs, before + Row(w, ordered, i, |ordered|))
  {
    hide Counts; hide Increasing; hide Row; hide Rows; hide Key;
    pairs := counted;
    ghost var hits := before;
    NextRow(w, ordered, i);
    for j := i + 1 to |ordered|
      invariant hits == before + Row(w, ordered, i, j) && Counts(pairs, hits)
    {
      ghost var h := Hit(w, ordered[i], ordered[j]);
      NewHit(w, ordered, i, j);
      CountOne(pairs, hits, h);
      var key := Key(ordered[i], ordered[j]);
      pairs := pairs[key := (if key in pairs then pairs[key] else 0) + 1];
      hits := hits + {h};
    }
  }

  lemma CountNone()
    ensures Counts(map[], {})
  {
  }

  lemma {:induction false} HitsAreOwned(docs: set<string>, words: Words, owners: map<string, set<string>>)
    requires forall w, p :: w in owners && p in owners[w] <==> p in docs && w in Passages(WordsOf(words, p))
    ensures forall h :: h in Hits(docs, words) <==> IsHit(docs, words, h) && h.passage in owners
  {
    hide Passages; hide Less;
    forall h | IsHit(docs, words, h) ensures h in Hits(docs, words) && h.passage in owners {
      assert h == Hit(h.passage, h.first, h.second);
    }
  }

  /** The index counts, for every key, the passages two documents under that key share. */
  method MeasureShared(files: seq<string>, words: Words) returns (pairs: map<string, nat>)
    ensures Counts(pairs, Hits(Docs(files), words))
  {
    var docs: seq<string> := [];
    for n := 0 to |files|
      invariant forall p :: p in docs <==> p in files[..n] && IsDoc(p)
    {
      assert forall p :: p in files[..n + 1] <==> p in files[..n] || p == files[n];
      if IsDoc(files[n]) { docs := docs + [files[n]]; }
    }
    assert files[..|files|] == files;
    var owners := Index(docs, words);
    assert forall p :: p in docs <==> p in Docs(files);
    pairs := CountPairs(Docs(files), words, owners);
  }

  // What the counts mean

  function Windows(ws: seq<string>): set<seq<string>> {
    set i: nat | i < |ws| && i + SHINGLE <= |ws| :: Window(ws, i)
  }

  predicate NoSpaces(ws: seq<string>) { forall k :: 0 <= k < |ws| ==> ' ' !in ws[k] }

  /** Joined windows are equal only when the windows are. */
  lemma {:induction false} JoinedWindows(x: seq<string>, y: seq<string>)
    requires NoSpaces(x) && NoSpaces(y) && |x| == SHINGLE == |y|
    ensures Join(x, ' ') == Join(y, ' ') <==> x == y
  {
    SplitJoin(x, ' ');
    SplitJoin(y, ' ');
  }

  lemma {:induction false} KeyNamesPair(a: string, b: string, a': string, b': string)
    requires ' ' !in a && ' ' !in b && ' ' !in a' && ' ' !in b'
    ensures Key(a, b) == Key(a', b') <==> a == a' && b == b'
  {
    SplitPair(a, b);
    SplitPair(a', b');
  }

  lemma {:induction false} SplitPair(a: string, b: string)
    requires ' ' !in a && ' ' !in b
    ensures Split(Key(a, b), ' ') == [a, b]
  {
    SplitJoin([a, b], ' ');
    assert [a, b][1..] == [b];
    assert Join([a, b], ' ') == a + [' '] + b;
    assert Key(a, b) == a + [' '] + b;
  }

  function Image(windows: set<seq<string>>, a: string, b: string): set<Hit> {
    set x | x in windows :: Hit(Join(x, ' '), a, b)
  }

  lemma {:induction false} ImageSize(windows: set<seq<string>>, a: string, b: string)
    requires forall x :: x in windows ==> NoSpaces(x) && |x| == SHINGLE
    ensures |Image(windows, a, b)| == |windows|
    decreases windows
  {
    if windows != {} {
      var x :| x in windows;
      var rest := windows - {x};
      ImageSize(rest, a, b);
      forall y | y in rest ensures Join(y, ' ') != Join(x, ' ') {
        JoinedWindows(x, y);
      }
      assert Hit(Join(x, ' '), a, b) !in Image(rest, a, b);
      assert Image(windows, a, b) == Image(rest, a, b) + {Hit(Join(x, ' '), a, b)};
    }
  }

  lemma {:induction false} PassagesAreWindows(ws: seq<string>, w: string)
    ensures w in Passages(ws) <==> exists x :: x in Windows(ws) && Join(x, ' ') == w
  {
    if w in Passages(ws) {
      var i: nat :| i < |ws| && i + SHINGLE <= |ws| && Passage(ws, i) == w;
      assert Window(ws, i) in Windows(ws);
    }
    if x :| x in Windows(ws) && Join(x, ' ') == w {
      var i: nat :| i < |ws| && i + SHINGLE <= |ws| && Window(ws, i) == x;
      assert Passage(ws, i) in Passages(ws);
    }
  }

  lemma {:induction false} WindowsArePlain(ws: seq<string>)
    requires NoSpaces(ws)
    ensures forall x :: x in Windows(ws) ==> NoSpaces(x) && |x| == SHINGLE
  {
  }

  /** The hits of other pairs of documents that fall under the same key. */
  function Others(hits: set<Hit>, a: string, b: string): set<Hit> {
    set h | h in hits && Key(h.first, h.second) == Key(a, b) && !(h.first == a && h.second == b)
  }

  /** The number of distinct windows of twelve words that two documents have in common. */
  function InCommon(words: Words, a: string, b: string): nat {
    |Windows(WordsOf(words, a)) * Windows(WordsOf(words, b))|
  }

  /** What stands under a pair's key is the number of windows both documents have, plus the hits
      of other pairs with that key; and a key is absent when there is nothing under it. */
  lemma {:induction false} CountIsSharedWindows(docs: set<string>, words: Words, pairs: map<string, nat>, a: string,
                                                b: string)
    requires Counts(pairs, Hits(docs, words))
    requires forall p :: p in docs ==> NoSpaces(WordsOf(words, p))
    requires a in docs && b in docs && Less(a, b)
    ensures var counted := if Key(a, b) in pairs then pairs[Key(a, b)] else 0;
            && (Key(a, b) in pairs <==> counted > 0)
            && counted == |HitsUnder(Hits(docs, words), Key(a, b))|
            && counted == InCommon(words, a, b) + |Others(Hits(docs, words), a, b)|
  {
    hide Less; hide Windows; hide NoSpaces; hide Passages; hide HitsUnder; hide Image; hide Hits; hide Key; hide Others;
    var both := Windows(WordsOf(words, a)) * Windows(WordsOf(words, b));
    var image, others := Image(both, a, b), Others(Hits(docs, words), a, b);
    WindowsArePlain(WordsOf(words, a));
    ImageSize(both, a, b);
    UnderIsImageAndOthers(docs, words, a, b);
    assert |image + others| == |image| + |others|;
  }

  // When every count is its pair's own, for whatever words the documents hold

  /** No two ordered pairs of the documents have one key. */
  predicate DistinctKeys(docs: set<string>) {
    forall a, b, a', b' | a in docs && b in docs && a' in docs && b' in docs && Less(a, b) && Less(a', b') ::
      Key(a, b) == Key(a', b') ==> a == a' && b == b'
  }

  predicate Plain(docs: set<string>, words: Words) { forall p :: p in docs ==> NoSpaces(WordsOf(words, p)) }

  /** What the counter holds under every pair is what the pair has in common. */
  ghost predicate CountsAreOwn(docs: set<string>, words: Words) {
    forall a, b | a in docs && b in docs && Less(a, b) ::
      |HitsUnder(Hits(docs, words), Key(a, b))| == InCommon(words, a, b)
  }

  function Twelve(): (ws: seq<string>)
    ensures |ws| == SHINGLE
  {
    seq(SHINGLE, _ => "w")
  }

  /** Only two documents hold words, the same twelve. */
  function Twins(a: string, b: string): Words { map[a := Twelve(), b := Twelve()] }

  lemma {:induction false} TwelveIsOne(w: string)
    ensures w in Passages(Twelve()) <==> w == Passage(Twelve(), 0)
    ensures NoSpaces(Twelve()) && Passages([]) == {} && Windows([]) == {}
  {
    assert Passage(Twelve(), 0) in Passages(Twelve());
  }

  /** Then there is one hit, the twins'. */
  lemma {:induction false} TwinsHit(docs: set<string>, a: string, b: string)
    requires a in docs && b in docs && Less(a, b)
    ensures Hits(docs, Twins(a, b)) == {Hit(Passage(Twelve(), 0), a, b)} && Plain(docs, Twins(a, b))
  {
    hide Less; hide Passages; hide Passage; hide NoSpaces; hide Twelve; hide Hits;
    var words := Twins(a, b);
    LessTotal(a, a);
    LessTotal(b, b);
    LessTotal(a, b);
    forall h: Hit ensures h in Hits(docs, words) <==> h == Hit(Passage(Twelve(), 0), a, b) {
      TwelveIsOne(h.passage);
      HitsAre(docs, words, h);
    }
    TwelveIsOne("");
    NoWords();
  }

  lemma NoWords()
    ensures NoSpaces([])
  {
  }

  lemma HitsAre(docs: set<string>, words: Words, h: Hit)
    ensures h in Hits(docs, words) <==> IsHit(docs, words, h)
  {
    hide Less; hide Passages;
    assert h == Hit(h.passage, h.first, h.second);
  }

  /** Two pairs with one key: give one of them twelve words in common, and the other, which has
      none, is counted once. */
  lemma {:induction false} SharedKeyMiscounts(docs: set<string>, a: string, b: string, a': string, b': string)
    requires a in docs && b in docs && a' in docs && b' in docs && Less(a, b) && Less(a', b')
    requires Key(a, b) == Key(a', b') && !(a == a' && b == b')
    ensures var words := Twins(a', b');
            && Plain(docs, words) && |HitsUnder(Hits(docs, words), Key(a, b))| == 1 && InCommon(words, a, b) == 0
  {
    hide Less; hide Passage; hide Twelve; hide Windows; hide Hits; hide Plain; hide Key;
    var words, h := Twins(a', b'), Hit(Passage(Twelve(), 0), a', b');
    TwinsHit(docs, a', b');
    assert HitsUnder(Hits(docs, words), Key(a, b)) == {h};
    LessTotal(a, b);
    LessTotal(a', b');
    TwelveIsOne("");
    assert WordsOf(words, a) == [] || WordsOf(words, b) == [];
    assert Windows(WordsOf(words, a)) * Windows(WordsOf(words, b)) == {};
  }

  /** Every count is its pair's own, whatever words the documents hold, exactly when no two
      ordered pairs of them have one key: a condition on the file names alone. */
  lemma {:induction false} NamesDecideCounts(docs: set<string>)
    ensures DistinctKeys(docs) <==> forall words: Words | Plain(docs, words) :: CountsAreOwn(docs, words)
  {
    hide Less; hide Windows; hide NoSpaces; hide Passages; hide Hits; hide Key; hide InCommon; hide HitsUnder;
    hide Twins; hide Plain;
    if DistinctKeys(docs) {
      forall words: Words, a, b | Plain(docs, words) && a in docs && b in docs && Less(a, b)
        ensures |HitsUnder(Hits(docs, words), Key(a, b))| == InCommon(words, a, b)
      {
        OwnKeyOwnCount(docs, words, a, b);
      }
    } else {
      var a, b, a', b' :| a in docs && b in docs && a' in docs && b' in docs && Less(a, b) && Less(a', b')
          && Key(a, b) == Key(a', b') && !(a == a' && b == b');
      SharedKeyMiscounts(docs, a, b, a', b');
      assert !CountsAreOwn(docs, Twins(a', b'));
    }
  }

  lemma {:induction false} OwnKeyOwnCount(docs: set<string>, words: Words, a: string, b: string)
    requires DistinctKeys(docs) && Plain(docs, words) && a in docs && b in docs && Less(a, b)
    ensures |HitsUnder(Hits(docs, words), Key(a, b))| == InCommon(words, a, b)
  {
    hide Less; hide Windows; hide NoSpaces; hide Passages; hide Key; hide Image; hide HitsUnder;
    var both := Windows(WordsOf(words, a)) * Windows(WordsOf(words, b));
    var others := Others(Hits(docs, words), a, b);
    forall h | h in others ensures false { HitsAre(docs, words, h); }
    assert others == {};
    WindowsArePlain(WordsOf(words, a));
    ImageSize(both, a, b);
    UnderIsImageAndOthers(docs, words, a, b);
    assert HitsUnder(Hits(docs, words), Key(a, b)) == Image(both, a, b);
  }

  /** File names without spaces have keys of their own. */
  lemma {:induction false} PlainNamesHaveDistinctKeys(docs: set<string>)
    requires forall p :: p in docs ==> ' ' !in p
    ensures DistinctKeys(docs)
  {
    hide Less; hide Key;
    forall a, b, a', b' | a in docs && b in docs && a' in docs && b' in docs && Key(a, b) == Key(a', b')
      ensures a == a' && b == b'
    {
      KeyNamesPair(a, b, a', b');
    }
  }

  /** File names with spaces need not: a pair that shares nothing is counted once. */
  lemma {:induction false} SpacedNamesMiscount(pairs: map<string, nat>)
    requires var docs, words := {"x.md", "y.md z.md", "x.md y.md", "z.md"}, Twins("x.md y.md", "z.md");
             Counts(pairs, Hits(docs, words))
    ensures var words, key := Twins("x.md y.md", "z.md"), Key("x.md", "y.md z.md");
            && InCommon(words, "x.md", "y.md z.md") == 0 && key in pairs && pairs[key] == 1
  {
    hide Windows; hide Hits; hide HitsUnder; hide Twins; hide InCommon;
    var docs, words := {"x.md", "y.md z.md", "x.md y.md", "z.md"}, Twins("x.md y.md", "z.md");
    var a, b, a', b' := "x.md", "y.md z.md", "x.md y.md", "z.md";
    assert a[0] < b[0] && a'[0] < b'[0];
    assert |a| != |a'|;
    SharedKeyMiscounts(docs, a, b, a', b');
  }

  lemma {:induction false} UnderIsImageAndOthers(docs: set<string>, words: Words, a: string, b: string)
    requires forall p :: p in docs ==> NoSpaces(WordsOf(words, p))
    requires a in docs && b in docs && Less(a, b)
    ensures var image, others := Image(Windows(WordsOf(words, a)) * Windows(WordsOf(words, b)), a, b),
        Others(Hits(docs, words), a, b);
            HitsUnder(Hits(docs, words), Key(a, b)) == image + others && image !! others
  {
    hide Less; hide Windows; hide NoSpaces; hide Passages; hide Hits; hide Key; hide Join;
    forall h: Hit | h.first == a && h.second == b
      ensures h in Hits(docs, words) <==> h in Image(Windows(WordsOf(words, a)) * Windows(WordsOf(words, b)), a, b)
    {
      OwnHits(docs, words, a, b, h);
    }
  }

  lemma {:induction false} OwnHits(docs: set<string>, words: Words, a: string, b: string, h: Hit)
    requires forall p :: p in docs ==> NoSpaces(WordsOf(words, p))
    requires a in docs && b in docs && Less(a, b) && h.first == a && h.second == b
    ensures h in Hits(docs, words) <==>
            exists x :: x in Windows(WordsOf(words, a)) && x in Windows(WordsOf(words, b))
                        && h == Hit(Join(x, ' '), a, b)
  {
    hide Less; hide Windows; hide NoSpaces; hide Join; hide Passages;
    var wa, wb := WordsOf(words, a), WordsOf(words, b);
    PassagesAreWindows(wa, h.passage);
    PassagesAreWindows(wb, h.passage);
    WindowsArePlain(wa);
    WindowsArePlain(wb);
    if h in Hits(docs, words) {
      var x :| x in Windows(wa) && Join(x, ' ') == h.passage;
      var y :| y in Windows(wb) && Join(y, ' ') == h.passage;
      JoinedWindows(x, y);
    }
    if x :| x in Windows(wa) && x in Windows(wb) && h == Hit(Join(x, ' '), a, b) {
      assert IsHit(docs, words, h) && h == Hit(h.passage, a, b);
    }
  }
}
