/** `ORDER BY key_name`: names in the order of their characters. */
module Names {
  import opened VersionedTables
  import Sorting

  /** `a` comes before `b`. */
  predicate Before(a: string, b: string) {
    if b == "" then false
    else if a == "" then true
    else if a[0] != b[0] then a[0] < b[0]
    else Before(a[1..], b[1..])
  }

  /** The names agree on their first `n` characters, and then `a` ends or has the smaller
      character. */
  predicate DiffersAt(a: string, b: string, n: nat) {
    && n <= |a| && n < |b| && a[..n] == b[..n]
    && (n == |a| || a[n] < b[n])
  }

  /** The order is decided where two names first differ; a beginning comes before its
      continuations. */
  lemma {:induction false} BeforeMeans(a: string, b: string)
    ensures Before(a, b) <==> exists n: nat :: DiffersAt(a, b, n)
  {
    if a == "" || b == "" || a[0] != b[0] {
      FirstDiffers(a, b);
    } else {
      BeforeMeans(a[1..], b[1..]);
      if Before(a, b) {
        var n: nat :| DiffersAt(a[1..], b[1..], n);
        SameHead(a, b, n);
      }
      forall n: nat | DiffersAt(a, b, n) ensures DiffersAt(a[1..], b[1..], n - 1) {
        assert n > 0;
        SameHead(a, b, n - 1);
      }
    }
  }

  lemma FirstDiffers(a: string, b: string)
    requires a == "" || b == "" || a[0] != b[0]
    ensures Before(a, b) <==> exists n: nat :: DiffersAt(a, b, n)
  {
    assert Before(a, b) <==> DiffersAt(a, b, 0);
    forall n: nat | n > 0 ensures !DiffersAt(a, b, n) {
      if n <= |a| && n < |b| {
        assert a[..n][0] != b[..n][0];
      }
    }
  }

  lemma SameHead(a: string, b: string, n: nat)
    requires a != "" && b != "" && a[0] == b[0]
    ensures DiffersAt(a, b, n + 1) <==> DiffersAt(a[1..], b[1..], n)
  {
    if n + 1 <= |a| && n + 1 < |b| {
      assert a[..n + 1] == [a[0]] + a[1..][..n] && b[..n + 1] == [b[0]] + b[1..][..n];
      assert a[..n + 1][1..] == a[1..][..n] && b[..n + 1][1..] == b[1..][..n];
    }
  }

  lemma {:induction false} BeforeIsTotal(a: string, b: string)
    ensures a == b || Before(a, b) || Before(b, a)
    ensures !(Before(a, b) && Before(b, a))
  {
    if a != "" && b != "" && a[0] == b[0] {
      BeforeIsTotal(a[1..], b[1..]);
      assert a == [a[0]] + a[1..] && b == [b[0]] + b[1..];
    }
  }

  lemma {:induction false} BeforeIsTransitive(a: string, b: string, c: string)
    requires Before(a, b) && Before(b, c)
    ensures Before(a, c)
  {
    if a != "" && a[0] == b[0] == c[0] {
      BeforeIsTransitive(a[1..], b[1..], c[1..]);
    }
  }

  predicate IsFirst(s: set<string>, m: string) {
    m in s && forall x :: x in s ==> x == m || Before(m, x)
  }

  lemma NonEmpty(s: set<string>)
    ensures s == {} || exists x :: x in s
  {
    assert (forall x :: x !in s) ==> s == {};
  }

  lemma {:induction false} FirstExists(s: set<string>)
    requires s != {}
    ensures exists m :: IsFirst(s, m)
  {
    NonEmpty(s);
    var x :| x in s;
    var rest := s - {x};
    if rest == {} {
      assert s == {x};
      assert IsFirst(s, x);
    } else {
      FirstExists(rest);
      var m :| IsFirst(rest, m);
      assert forall y :: y in s ==> y == x || y in rest;
      BeforeIsTotal(x, m);
      if Before(x, m) {
        forall y | y in s ensures y == x || Before(x, y) {
          if y in rest && y != m {
            BeforeIsTransitive(x, m, y);
          }
        }
        assert IsFirst(s, x);
      } else {
        assert IsFirst(s, m);
      }
    }
  }

  lemma FirstIsUnique(s: set<string>, m: string, n: string)
    requires IsFirst(s, m) && IsFirst(s, n)
    ensures m == n
  {
    BeforeIsTotal(m, n);
  }

  function First(s: set<string>): (m: string)
    requires s != {}
    ensures IsFirst(s, m)
  {
    FirstExists(s);
    assert forall m, n :: IsFirst(s, m) && IsFirst(s, n) ==> m == n by {
      forall m, n | IsFirst(s, m) && IsFirst(s, n) ensures m == n {
        FirstIsUnique(s, m, n);
      }
    }
    var m :| IsFirst(s, m);
    m
  }

  predicate InOrder(names: seq<string>) {
    forall i, j :: 0 <= i < j < |names| ==> Before(names[i], names[j])
  }

  function Sorted(s: set<string>): (r: seq<string>)
    ensures InOrder(r) && forall x :: x in r <==> x in s
  {
    if s == {} then []
    else
      var m := First(s);
      var rest := Sorted(s - {m});
      assert forall x :: x in s <==> x == m || x in rest;
      assert forall j :: 0 <= j < |rest| ==> rest[j] in rest;
      [m] + rest
  }

  /** The names one owner has in a table, in order. */
  function NamesOf<V>(m: map<Key, V>, user: string): (names: seq<string>)
    ensures InOrder(names) && forall name :: name in names <==> (user, name) in m
  {
    var owned := set key | key in m && key.0 == user :: key.1;
    assert forall name :: name in owned <==> (user, name) in m;
    Sorted(owned)
  }

  /** There is one way to list a set of names in order. */
  lemma {:induction false} OrderIsUnique(a: seq<string>, b: seq<string>)
    requires InOrder(a) && InOrder(b) && forall x :: x in a <==> x in b
    ensures a == b
  {
    Sorting.SameEmptiness(a, b);
    if a != [] {
      var x := a[0];
      assert x in a && x in b;
      var y := b[0];
      assert y in b;
      HeadFirst(a);
      HeadFirst(b);
      BeforeIsTotal(x, y);
      assert a == [x] + a[1..] && b == [y] + b[1..];
      OrderIsUnique(a[1..], b[1..]);
    }
  }

  lemma HeadFirst(a: seq<string>)
    requires InOrder(a) && a != []
    ensures forall x :: x in a ==> x == a[0] || Before(a[0], x)
    ensures forall x :: x in a[1..] <==> x in a && x != a[0]
  {
    assert a == [a[0]] + a[1..];
    forall x | x in a[1..] ensures x != a[0] {
      BeforeIsTotal(a[0], x);
    }
  }
}
