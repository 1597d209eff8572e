/** The order strings are sorted in, and sorting a set of them. */
module Order {

  predicate Less(a: string, b: string) {
    if b == "" then false
    else if a == "" then true
    else if a[0] != b[0] then a[0] < b[0]
    else Less(a[1..], b[1..])
  }

  lemma {:induction false} LessTotal(a: string, b: string)
    ensures (if Less(a, b) then 1 else 0) + (if Less(b, a) then 1 else 0) + (if a == b then 1 else 0) == 1
  {
    if a != "" && b != "" && a[0] == b[0] {
      LessTotal(a[1..], b[1..]);
      assert a == [a[0]] + a[1..] && b == [b[0]] + b[1..];
    }
  }

  /** `a` and `b` agree before position `k`, and there `a` ends or has the smaller character. */
  predicate FirstDifference(a: string, b: string, k: nat) {
    k <= |a| && k < |b| && a[..k] == b[..k] && (k == |a| || a[k] < b[k])
  }

  /** The order is the one by the first difference, a text coming before those it begins. */
  lemma {:induction false} LessIsLexical(a: string, b: string)
    ensures Less(a, b) <==> exists k: nat :: FirstDifference(a, b, k)
  {
    forall k: nat | FirstDifference(a, b, k) && k > 0 ensures a[0] == b[0] {
      assert a[..k][0] == a[0] && b[..k][0] == b[0];
    }
    if a != "" && b != "" && a[0] == b[0] {
      LessIsLexical(a[1..], b[1..]);
      forall k: nat | k < |a| && k < |b| ensures a[..k + 1] == b[..k + 1] <==> a[1..][..k] == b[1..][..k] {
        assert a[..k + 1] == [a[0]] + a[1..][..k] && b[..k + 1] == [b[0]] + b[1..][..k];
      }
      if k: nat :| FirstDifference(a[1..], b[1..], k) {
        assert FirstDifference(a, b, k + 1);
      }
      if k: nat :| FirstDifference(a, b, k) {
        assert k > 0 && FirstDifference(a[1..], b[1..], k - 1);
      }
    } else if Less(a, b) {
      assert FirstDifference(a, b, 0);
    }
  }

  lemma {:induction false} LessTransitive(a: string, b: string, c: string)
    requires Less(a, b) && Less(b, c)
    ensures Less(a, c)
  {
    if a != "" && a[0] == b[0] && b[0] == c[0] {
      LessTransitive(a[1..], b[1..], c[1..]);
    }
  }

  predicate Increasing(s: seq<string>) { forall i, j :: 0 <= i < j < |s| ==> Less(s[i], s[j]) }

  function Inserted(r: seq<string>, at: nat, x: string): seq<string>
    requires at <= |r|
  {
    r[..at] + [x] + r[at..]
  }

  lemma {:induction false} InsertedIsSorted(r: seq<string>, at: nat, x: string)
    requires Increasing(r) && at <= |r| && x !in r
    requires forall k :: 0 <= k < at ==> Less(r[k], x)
    requires at < |r| ==> !Less(r[at], x)
    ensures Increasing(Inserted(r, at, x))
    ensures forall y :: y in Inserted(r, at, x) <==> y in r || y == x
  {
    hide Less;
    var s := Inserted(r, at, x);
    if at < |r| {
      LessTotal(r[at], x);
      forall k | at <= k < |r| ensures Less(x, r[k]) {
        if at < k { LessTransitive(x, r[at], r[k]); }
      }
    }
    assert s[at] == x;
    assert forall k :: 0 <= k < |r| ==> r[k] == s[if k < at then k else k + 1];
  }

  /** `sorted`: the elements of a set, each once, in increasing order. */
  method Sorted(s: set<string>) returns (r: seq<string>)
    ensures Increasing(r)
    ensures forall x :: x in r <==> x in s
  {
    hide Less; hide Increasing; hide Inserted;
    r := [];
    assert Increasing(r) by { NothingToSort(); }
    var rest := s;
    while rest != {}
      invariant Increasing(r) && rest <= s
      invariant forall x :: x in r <==> x in s - rest
      decreases rest
    {
      var x :| x in rest;
      var at := 0;
      while at < |r| && Less(r[at], x)
        invariant 0 <= at <= |r|
        invariant forall k :: 0 <= k < at ==> Less(r[k], x)
      {
        at := at + 1;
      }
      InsertedIsSorted(r, at, x);
      r := Inserted(r, at, x);
      rest := rest - {x};
    }
  }

  lemma NothingToSort()
    ensures Increasing([])
  {
  }
}
