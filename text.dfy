/** The string machinery behind Jackut's listings and session ids: Java's
    String.compareTo order, Collections.sort, String.join with braces, and
    the decimal rendering of an int. */
module Text {

  /** Strict lexicographic order, character by character, a proper prefix
      first: String.compareTo(a, b) < 0 for strings of 16-bit characters. */
  predicate Below(a: string, b: string)
  {
    if |a| == 0 then |b| > 0
    else if |b| == 0 then false
    else if a[0] != b[0] then a[0] < b[0]
    else Below(a[1..], b[1..])
  }

  lemma {:induction false} BelowIrreflexive(a: string)
    ensures !Below(a, a)
  {
    if |a| > 0 { BelowIrreflexive(a[1..]); }
  }

  lemma {:induction false} BelowAsymmetric(a: string, b: string)
    requires Below(a, b)
    ensures !Below(b, a)
  {
    if |a| > 0 && |b| > 0 && a[0] == b[0] { BelowAsymmetric(a[1..], b[1..]); }
  }

  lemma {:induction false} BelowTransitive(a: string, b: string, c: string)
    requires Below(a, b) && Below(b, c)
    ensures Below(a, c)
  {
    if |a| > 0 && a[0] == b[0] && b[0] == c[0] {
      BelowTransitive(a[1..], b[1..], c[1..]);
    }
  }

  lemma {:induction false} BelowTotal(a: string, b: string)
    requires a != b
    ensures Below(a, b) || Below(b, a)
  {
    if |a| > 0 && |b| > 0 && a[0] == b[0] {
      assert a == [a[0]] + a[1..] && b == [b[0]] + b[1..];
      BelowTotal(a[1..], b[1..]);
    }
  }

  /** Every element comes strictly before every later one. */
  predicate Ascending(xs: seq<string>)
  {
    forall i, j :: 0 <= i < j < |xs| ==> Below(xs[i], xs[j])
  }

  /** No element occurs twice. */
  predicate Distinct(xs: seq<string>)
  {
    forall i, j :: 0 <= i < j < |xs| ==> xs[i] != xs[j]
  }

  /** The set of the elements of a list. */
  function Elements(xs: seq<string>): set<string>
  {
    set x | x in xs
  }

  lemma ElementsEmpty(xs: seq<string>)
    ensures xs == [] <==> Elements(xs) == {}
  {
    if xs != [] { assert xs[0] in Elements(xs); }
  }

  /** xs lists the elements of s, each exactly once, in some order. */
  predicate Lists(xs: seq<string>, s: set<string>)
  {
    Distinct(xs) && Elements(xs) == s
  }

  /** One insertion step of an insertion sort. */
  function Insert(x: string, xs: seq<string>): seq<string>
  {
    if xs == [] then [x]
    else if Below(xs[0], x) then [xs[0]] + Insert(x, xs[1..])
    else [x] + xs
  }

  /** The ascending sort of a list, as Collections.sort leaves it. */
  function Sort(xs: seq<string>): seq<string>
  {
    if xs == [] then [] else Insert(xs[0], Sort(xs[1..]))
  }

  lemma {:induction false} InsertPermutes(x: string, xs: seq<string>)
    ensures multiset(Insert(x, xs)) == multiset(xs) + multiset{x}
  {
    if xs != [] && Below(xs[0], x) {
      InsertPermutes(x, xs[1..]);
      assert xs == [xs[0]] + xs[1..];
    }
  }

  lemma {:induction false} InsertAscending(x: string, xs: seq<string>)
    requires Ascending(xs) && x !in xs
    ensures Ascending(Insert(x, xs))
    ensures multiset(Insert(x, xs)) == multiset(xs) + multiset{x}
  {
    InsertPermutes(x, xs);
    if xs != [] {
      if Below(xs[0], x) {
        InsertAscending(x, xs[1..]);
        var r := Insert(x, xs);
        assert r[1..] == Insert(x, xs[1..]);
        InsertPermutes(x, xs[1..]);
        forall j | 0 < j < |r| ensures Below(r[0], r[j]) {
          assert r[j] in multiset(xs[1..]) + multiset{x};
          if r[j] != x {
            assert r[j] in xs[1..];
          }
        }
      } else {
        assert x != xs[0];
        BelowTotal(x, xs[0]);
        forall j | 0 < j < |xs| ensures Below(x, xs[j]) {
          BelowTransitive(x, xs[0], xs[j]);
        }
      }
    }
  }

  lemma {:induction false} SortAscending(xs: seq<string>)
    requires Distinct(xs)
    ensures Ascending(Sort(xs))
    ensures multiset(Sort(xs)) == multiset(xs)
  {
    if xs != [] {
      assert Distinct(xs[1..]);
      SortAscending(xs[1..]);
      assert xs == [xs[0]] + xs[1..];
      assert xs[0] !in multiset(Sort(xs[1..]));
      InsertAscending(xs[0], Sort(xs[1..]));
    }
  }

  /** An ascending list is determined by the set of its elements. */
  lemma {:induction false} AscendingUnique(xs: seq<string>, ys: seq<string>)
    requires Ascending(xs) && Ascending(ys)
    requires Elements(xs) == Elements(ys)
    ensures xs == ys
  {
    ElementsEmpty(xs);
    ElementsEmpty(ys);
    if xs != [] {
      assert xs[0] in Elements(xs);
      assert ys != [];
      assert ys[0] in Elements(ys);
      if xs[0] != ys[0] {
        var i :| 0 <= i < |xs| && xs[i] == ys[0];
        var j :| 0 <= j < |ys| && ys[j] == xs[0];
        assert Below(xs[0], ys[0]);
        assert Below(ys[0], xs[0]);
        BelowAsymmetric(xs[0], ys[0]);
      }
      forall x | x in xs[1..] ensures x != xs[0] {
        BelowIrreflexive(x);
      }
      forall y | y in ys[1..] ensures y != ys[0] {
        BelowIrreflexive(y);
      }
      assert xs == [xs[0]] + xs[1..] && ys == [ys[0]] + ys[1..];
      assert Elements(xs[1..]) == Elements(xs) - {xs[0]};
      assert Elements(ys[1..]) == Elements(ys) - {ys[0]};
      AscendingUnique(xs[1..], ys[1..]);
    }
  }

  /** The least element of a non-empty set of strings. */
  ghost function Least(s: set<string>): (m: string)
    requires s != {}
    ensures m in s && forall y :: y in s && y != m ==> Below(m, y)
  {
    LeastExists(s);
    var m :| m in s && forall y :: y in s && y != m ==> Below(m, y);
    m
  }

  lemma {:induction false} LeastExists(s: set<string>)
    requires s != {}
    ensures exists m :: m in s && forall y :: y in s && y != m ==> Below(m, y)
    decreases |s|
  {
    var x :| x in s;
    if s != {x} {
      LeastExists(s - {x});
      var m :| m in s - {x} && forall y :: y in s - {x} && y != m ==> Below(m, y);
      if Below(m, x) {
        assert forall y :: y in s && y != m ==> Below(m, y);
      } else {
        BelowTotal(m, x);
        forall y | y in s && y != x ensures Below(x, y) {
          if y != m { BelowTransitive(x, m, y); }
        }
      }
    }
  }

  /** The elements of s in ascending order: what a sorted listing of s shows. */
  ghost function AscendingOf(s: set<string>): (xs: seq<string>)
    decreases |s|
  {
    if s == {} then [] else [Least(s)] + AscendingOf(s - {Least(s)})
  }

  lemma {:induction false} AscendingOfLists(s: set<string>)
    ensures Ascending(AscendingOf(s)) && Lists(AscendingOf(s), s)
    decreases |s|
  {
    if s != {} {
      var m := Least(s);
      AscendingOfLists(s - {m});
      var rest := AscendingOf(s - {m});
      assert AscendingOf(s) == [m] + rest;
      forall j | 0 <= j < |rest| ensures Below(m, rest[j]) {
        assert rest[j] in Elements(rest);
      }
      assert Elements([m] + rest) == {m} + Elements(rest);
    }
  }

  /** Sorting any duplicate-free enumeration of a set gives its ascending
      listing, whatever order the enumeration had. */
  lemma SortIsAscendingOf(xs: seq<string>, s: set<string>)
    requires Lists(xs, s)
    ensures Sort(xs) == AscendingOf(s)
  {
    SortAscending(xs);
    AscendingOfLists(s);
    assert forall x :: x in Sort(xs) <==> x in multiset(Sort(xs));
    assert forall x :: x in xs <==> x in multiset(xs);
    AscendingUnique(Sort(xs), AscendingOf(s));
  }

  /** Copies the elements of a hash-based set into a list, in whatever order
      the set's iterator yields them. */
  method Enumerate(s: set<string>) returns (xs: seq<string>)
    ensures Lists(xs, s)
  {
    xs := [];
    var resto := s;
    while resto != {}
      invariant resto <= s
      invariant Distinct(xs) && Elements(xs) == s - resto
      decreases resto
    {
      var x :| x in resto;
      assert Elements(xs + [x]) == Elements(xs) + {x};
      xs := xs + [x];
      resto := resto - {x};
    }
  }

  /** String.join. */
  function Join(xs: seq<string>, sep: string): string
  {
    if xs == [] then "" else if |xs| == 1 then xs[0] else xs[0] + sep + Join(xs[1..], sep)
  }

  /** The "{a,b,c}" rendering of every list-valued query. */
  function Braces(xs: seq<string>): string
  {
    "{" + Join(xs, ",") + "}"
  }

  function DigitChar(d: nat): char
    requires d < 10
  {
    "0123456789"[d]
  }

  /** Decimal digits of a natural number, without leading zeros. */
  function Digits(n: nat): (s: string)
    ensures |s| > 0 && '0' <= s[0] <= '9'
    ensures n >= 10 ==> |s| >= 2
    decreases n
  {
    if n < 10 then [DigitChar(n)] else Digits(n / 10) + [DigitChar(n % 10)]
  }

  /** Java's decimal rendering of an int, "-" first for a negative one. */
  function IntToString(n: int): string
  {
    if n < 0 then "-" + Digits(-n) else Digits(n)
  }

  /** The last digit of a number of two digits or more, and the rest. */
  lemma DigitsLast(n: nat)
    requires n >= 10
    ensures var s := Digits(n);
      s[..|s| - 1] == Digits(n / 10) && s[|s| - 1] == DigitChar(n % 10)
  {
  }

  lemma {:induction false} DigitsInjective(a: nat, b: nat)
    requires Digits(a) == Digits(b)
    ensures a == b
    decreases a
  {
    if a < 10 && b < 10 {
      assert DigitChar(a) == Digits(a)[0] == DigitChar(b);
    } else if a >= 10 && b >= 10 {
      DigitsLast(a);
      DigitsLast(b);
      assert DigitChar(a % 10) == DigitChar(b % 10);
      DigitsInjective(a / 10, b / 10);
    }
  }

  /** Different ints render differently, so "sessao_" ids made from different
      counter values differ. */
  lemma IntToStringInjective(a: int, b: int)
    requires IntToString(a) == IntToString(b)
    ensures a == b
  {
    if a < 0 && b < 0 {
      assert Digits(-a) == IntToString(a)[1..] == IntToString(b)[1..] == Digits(-b);
      DigitsInjective(-a, -b);
    } else if a >= 0 && b >= 0 {
      DigitsInjective(a, b);
    }
  }
}
