/** String operations the gate's path code is written in: splitting and joining on a
    separator, finding the first template brace, and searching for a fixed substring. */
module Text {

  datatype Option<+T> = None | Some(value: T)

  datatype Result<+T> = Ok(value: T) | Failure {
    predicate IsFailure() { Failure? }
    function PropagateFailure<U>(): Result<U> requires Failure? { Failure }
    function Extract(): T requires Ok? { value }
  }

  /** A list that has been begun and a result for the rest of it. */
  ghost function Prepended<T>(done: seq<T>, rest: Result<seq<T>>): Result<seq<T>> {
    if rest.Failure? then Failure else Ok(done + rest.value)
  }

  // Splitting and joining

  function Split(s: string, sep: char): (pieces: seq<string>)
    ensures |pieces| > 0
  {
    if s == "" then [""]
    else
      var rest := Split(s[1..], sep);
      if s[0] == sep then [""] + rest else [[s[0]] + rest[0]] + rest[1..]
  }

  function Join(pieces: seq<string>, sep: char): string {
    if |pieces| == 0 then ""
    else if |pieces| == 1 then pieces[0]
    else pieces[0] + [sep] + Join(pieces[1..], sep)
  }

  lemma {:induction false} SplitPrefix(p: string, s: string, sep: char)
    requires sep !in p
    ensures Split(p + s, sep) == [p + Split(s, sep)[0]] + Split(s, sep)[1..]
  {
    if p == "" {
      assert p + s == s;
      assert p + Split(s, sep)[0] == Split(s, sep)[0];
    } else {
      assert (p + s)[1..] == p[1..] + s;
      SplitPrefix(p[1..], s, sep);
      assert [p[0]] + (p[1..] + Split(s, sep)[0]) == p + Split(s, sep)[0];
    }
  }

  /** Splitting undoes joining, so a joined text names its pieces. */
  lemma {:induction false} SplitJoin(pieces: seq<string>, sep: char)
    requires |pieces| > 0
    requires forall k :: 0 <= k < |pieces| ==> sep !in pieces[k]
    ensures Split(Join(pieces, sep), sep) == pieces
  {
    var p := pieces[0];
    if |pieces| == 1 {
      SplitPrefix(p, "", sep);
      assert p + "" == p;
    } else {
      var rest := Join(pieces[1..], sep);
      SplitJoin(pieces[1..], sep);
      SplitPrefix(p, [sep] + rest, sep);
      assert pieces[0] + [sep] + rest == p + ([sep] + rest);
      assert ([sep] + rest)[1..] == rest;
      assert p + "" == p;
    }
  }

  lemma {:induction false} SplitPieces(s: string, sep: char)
    ensures forall k :: 0 <= k < |Split(s, sep)| ==> sep !in Split(s, sep)[k]
    ensures forall k, c :: 0 <= k < |Split(s, sep)| && c in Split(s, sep)[k] ==> c in s
  {
    if s != "" {
      SplitPieces(s[1..], sep);
      var rest, all := Split(s[1..], sep), Split(s, sep);
      forall k, c | 0 <= k < |all| && c in all[k] ensures c in s {
        assert all[k] == if s[0] == sep then (if k == 0 then "" else rest[k - 1])
                         else if k == 0 then [s[0]] + rest[0] else rest[k];
        assert c == s[0] || c in s[1..];
      }
    }
  }

  lemma {:induction false} JoinChars(pieces: seq<string>, sep: char, c: char)
    requires c in Join(pieces, sep)
    ensures c == sep || exists k :: 0 <= k < |pieces| && c in pieces[k]
  {
    if |pieces| > 1 && c !in pieces[0] && c != sep {
      JoinChars(pieces[1..], sep, c);
      var k :| 0 <= k < |pieces[1..]| && c in pieces[1..][k];
      assert c in pieces[k + 1];
    }
  }

  // Template braces

  const BRACES: string := "{{"

  /** Where the first `{{` of a text starts, or its length. */
  function Brace(s: string): (at: nat)
    ensures at <= |s|
  {
    if |s| < 2 then |s|
    else if s[0] == '{' && s[1] == '{' then 0
    else 1 + Brace(s[1..])
  }

  function Prefix(s: string): string { s[..Brace(s)] }

  /** The part from the first `{{` on; empty when there is none. */
  function Tail(s: string): string { s[Brace(s)..] }

  predicate HasTemplate(s: string) { Tail(s) != "" }

  predicate BraceFree(s: string) { '{' !in s && '}' !in s }

  lemma {:induction false} TailOpens(s: string)
    ensures Tail(s) == "" || BRACES <= Tail(s)
  {
    if |s| >= 2 && !(s[0] == '{' && s[1] == '{') {
      TailOpens(s[1..]);
      assert Tail(s) == Tail(s[1..]);
    }
  }

  /** A brace-free literal part followed by a template is split exactly between the two. */
  lemma {:induction false} PartsOf(p: string, t: string)
    requires '{' !in p
    requires t == "" || BRACES <= t
    ensures Prefix(p + t) == p && Tail(p + t) == t
  {
    if p == "" {
      assert p + t == t;
    } else {
      PartsOf(p[1..], t);
      assert (p + t)[1..] == p[1..] + t;
      assert (p + t)[0] != '{';
      if |p + t| < 2 {
        assert t == "" && |p| == 1;
      } else {
        assert Brace(p + t) == |p|;
      }
    }
  }

  lemma {:induction false} PlainHasNoTemplate(text: string)
    requires BraceFree(text)
    ensures !HasTemplate(text) && Prefix(text) == text && !(BRACES <= text)
  {
    PartsOf(text, "");
    assert text + "" == text;
  }

  lemma NoTail(text: string)
    requires BraceFree(text)
    ensures Tail(text) == ""
  {
    PlainHasNoTemplate(text);
  }

  lemma {:induction false} OpensTemplate(s: string)
    ensures BRACES <= s <==> Prefix(s) == "" && Tail(s) != ""
  {
    TailOpens(s);
  }

  // Fixed substrings

  predicate Contains(s: string, sub: string) {
    sub <= s || (s != "" && Contains(s[1..], sub))
  }

  /** The text after the first occurrence of `sub`. */
  function After(s: string, sub: string): Option<string> {
    if sub <= s then Some(s[|sub|..])
    else if s == "" then None
    else After(s[1..], sub)
  }

  /** `str.replace`: every occurrence of `sub`, leftmost first, becomes `put`. */
  function Replace(s: string, sub: string, put: string): string
    requires sub != ""
  {
    if s == "" then ""
    else if sub <= s then put + Replace(s[|sub|..], sub, put)
    else [s[0]] + Replace(s[1..], sub, put)
  }

  /** A literal part without the substring's first character hides no occurrence. */
  lemma {:induction false} SearchSkips(p: string, t: string, sub: string)
    requires sub != "" && sub[0] !in p
    ensures Contains(p + t, sub) == Contains(t, sub)
    ensures After(p + t, sub) == After(t, sub)
  {
    if p == "" {
      assert p + t == t;
    } else {
      SearchSkips(p[1..], t, sub);
      assert (p + t)[1..] == p[1..] + t;
      assert (p + t)[0] == p[0];
    }
  }

  /** A text holds another exactly when that stands somewhere in it; what follows is read from
      the first place it stands. */
  lemma {:induction false} StandsSomewhere(s: string, sub: string)
    ensures Contains(s, sub) <==> exists i :: Occurs(s, sub, i)
    ensures After(s, sub).Some? <==> Contains(s, sub)
    ensures forall i :: Occurs(s, sub, i) && (forall j :: 0 <= j < i ==> !Occurs(s, sub, j)) ==>
              After(s, sub) == Some(s[i + |sub|..])
  {
    assert sub <= s <==> Occurs(s, sub, 0);
    if s != "" {
      StandsSomewhere(s[1..], sub);
      assert forall i :: i > 0 ==> (Occurs(s, sub, i) <==> Occurs(s[1..], sub, i - 1));
      assert forall i :: i >= 0 ==> (Occurs(s[1..], sub, i) <==> Occurs(s, sub, i + 1));
    }
  }

  predicate Occurs(s: string, sub: string, i: int) { 0 <= i <= |s| - |sub| && s[i..i + |sub|] == sub }

  /** The first template brace is the first place two braces stand. */
  lemma {:induction false} BraceIsFirst(s: string)
    ensures Brace(s) == |s| || Occurs(s, BRACES, Brace(s))
    ensures forall i :: 0 <= i < Brace(s) ==> !Occurs(s, BRACES, i)
  {
    if |s| >= 2 {
      BraceIsFirst(s[1..]);
      assert Occurs(s, BRACES, 0) <==> s[0] == '{' && s[1] == '{' by { assert s[..2] == [s[0], s[1]]; }
      assert forall i :: i > 0 ==> (Occurs(s, BRACES, i) <==> Occurs(s[1..], BRACES, i - 1));
      assert Brace(s) > 0 && Occurs(s[1..], BRACES, Brace(s) - 1) ==> Occurs(s, BRACES, Brace(s));
    }
  }

  /** The first occurrence is replaced, and the search goes on behind it. */
  lemma {:induction false} ReplaceFirst(p: string, sub: string, rest: string, put: string)
    requires sub != "" && sub[0] !in p
    ensures Replace(p + sub + rest, sub, put) == p + put + Replace(rest, sub, put)
  {
    var s, after := p + sub + rest, Replace(rest, sub, put);
    if p == "" {
      assert s[..|sub|] == sub && s[|sub|..] == rest && p + put == put;
    } else {
      ReplaceFirst(p[1..], sub, rest, put);
      assert s[0] == p[0] && !(sub <= s);
      assert s[1..] == p[1..] + sub + rest;
      assert Replace(s, sub, put) == [s[0]] + Replace(s[1..], sub, put);
      hide Replace;
      assert [p[0]] + (p[1..] + put + after) == p + put + after;
    }
  }

  lemma {:induction false} ReplaceNothing(s: string, sub: string, put: string)
    requires sub != "" && !Contains(s, sub)
    ensures Replace(s, sub, put) == s
  {
    if s != "" {
      ReplaceNothing(s[1..], sub, put);
    }
  }

  /** A text without a template holds no text that opens one. */
  lemma {:induction false} NoTemplateInside(s: string, sub: string)
    requires !HasTemplate(s) && BRACES <= sub
    ensures !Contains(s, sub)
  {
    if s != "" {
      if |s| >= 2 {
        assert !(s[0] == '{' && s[1] == '{');
        assert Tail(s) == Tail(s[1..]);
        NoTemplateInside(s[1..], sub);
      } else {
        assert s[1..] == "";
      }
    }
  }
}
