/** JavaScript strings as sequences of UTF-16 code units, with the order that the
    `<` operator gives them, and sorting of keyed entries by that order. */
module Texts {

  newtype CodeUnit = u: int | 0 <= u < 0x10000

  type Text = seq<CodeUnit>

  /** The code units of a string literal of the program (ASCII in this project). */
  function A(s: string): (t: Text)
    ensures |t| == |s|
  {
    seq(|s|, i requires 0 <= i < |s| => (s[i] as int % 0x10000) as CodeUnit)
  }

  predicate Bmp(s: string) {
    forall i :: 0 <= i < |s| ==> s[i] as int < 0x10000
  }

  lemma {:induction false} LiteralsDiffer(s: string, t: string)
    requires s != t && Bmp(s) && Bmp(t)
    ensures A(s) != A(t)
  {
    if |s| == |t| {
      var i :| 0 <= i < |s| && s[i] != t[i];
      assert A(s)[i] as int == s[i] as int && A(t)[i] as int == t[i] as int;
    }
  }

  /** a < b as JavaScript compares strings: by the first differing code unit, else by length. */
  predicate Less(a: Text, b: Text) {
    if b == [] then false
    else if a == [] then true
    else if a[0] != b[0] then a[0] < b[0]
    else Less(a[1..], b[1..])
  }

  /** The order, without recursion: a proper prefix comes first, and otherwise the first code unit in which the
      texts differ decides. */
  ghost predicate Below(a: Text, b: Text) {
    a < b || exists n: nat :: DivergeAt(a, b, n) && a[n] < b[n]
  }

  predicate DivergeAt(a: Text, b: Text, n: nat) {
    n < |a| && n < |b| && a[..n] == b[..n] && a[n] != b[n]
  }

  /** Texts with one head diverge one place further than their tails. */
  lemma DivergeTail(a: Text, b: Text, n: nat)
    requires a != [] && b != [] && a[0] == b[0]
    ensures DivergeAt(a, b, n + 1) <==> DivergeAt(a[1..], b[1..], n)
    ensures a < b <==> a[1..] < b[1..]
  {
    assert a == [a[0]] + a[1..] && b == [b[0]] + b[1..];
    if n < |a[1..]| && n < |b[1..]| {
      assert a[..n + 1] == [a[0]] + a[1..][..n] && b[..n + 1] == [b[0]] + b[1..][..n];
      assert a[1..][..n] == a[..n + 1][1..] && b[1..][..n] == b[..n + 1][1..];
    }
  }

  lemma {:induction false} LessExact(a: Text, b: Text)
    ensures Less(a, b) <==> Below(a, b)
  {
    if a != [] && b != [] {
      if a[0] == b[0] {
        LessExact(a[1..], b[1..]);
        DivergeTail(a, b, 0);
        if n: nat :| DivergeAt(a[1..], b[1..], n) && a[1..][n] < b[1..][n] {
          DivergeTail(a, b, n);
          assert DivergeAt(a, b, n + 1);
        }
        if n: nat :| DivergeAt(a, b, n) && a[n] < b[n] {
          DivergeTail(a, b, n - 1);
          assert DivergeAt(a[1..], b[1..], n - 1);
        }
      } else {
        assert DivergeAt(a, b, 0);
        assert forall n: nat :: n > 0 && DivergeAt(a, b, n) ==> a[..n][0] == a[0] && b[..n][0] == b[0];
      }
    }
  }

  lemma LessTrichotomy(a: Text, b: Text)
    ensures Less(a, b) || a == b || Less(b, a)
  {
    if a != [] && b != [] && a[0] == b[0] {
      LessTrichotomy(a[1..], b[1..]);
      assert a == [a[0]] + a[1..] && b == [b[0]] + b[1..];
    }
  }

  lemma {:induction false} LessAsymmetric(a: Text, b: Text)
    requires Less(a, b)
    ensures !Less(b, a) && a != b
  {
    if a != [] && a[0] == b[0] {
      LessAsymmetric(a[1..], b[1..]);
    }
  }

  lemma {:induction false} LessTransitive(a: Text, b: Text, c: Text)
    requires Less(a, b) && Less(b, c)
    ensures Less(a, c)
  {
    if a != [] && a[0] == b[0] && b[0] == c[0] {
      LessTransitive(a[1..], b[1..], c[1..]);
    }
  }

  datatype Entry<V> = Entry(key: Text, val: V)

  ghost predicate DistinctKeys<V>(es: seq<Entry<V>>) {
    forall i, j :: 0 <= i < j < |es| ==> es[i].key != es[j].key
  }

  /** Keys strictly ascend. */
  ghost predicate Ascending<V>(es: seq<Entry<V>>) {
    forall i, j :: 0 <= i < j < |es| ==> Less(es[i].key, es[j].key)
  }

  function InsertEntry<V(!new)>(e: Entry<V>, es: seq<Entry<V>>): (r: seq<Entry<V>>)
    ensures |r| == |es| + 1
    ensures forall x :: x in r <==> x == e || x in es
  {
    if es == [] then [e]
    else if Less(es[0].key, e.key) then [es[0]] + InsertEntry(e, es[1..])
    else [e] + es
  }

  /** `[...entries].sort(...)` on the keys. */
  function SortEntries<V(!new)>(es: seq<Entry<V>>): (r: seq<Entry<V>>)
    ensures |r| == |es|
    ensures forall x :: x in r <==> x in es
  {
    if es == [] then [] else InsertEntry(es[0], SortEntries(es[1..]))
  }

  lemma {:induction false} InsertAscends<V(!new)>(e: Entry<V>, es: seq<Entry<V>>)
    requires Ascending(es)
    requires forall x :: x in es ==> x.key != e.key
    ensures Ascending(InsertEntry(e, es))
  {
    if es != [] {
      if Less(es[0].key, e.key) {
        InsertAscends(e, es[1..]);
        var r := InsertEntry(e, es[1..]);
        forall j | 0 <= j < |r| ensures Less(es[0].key, r[j].key) {
          assert r[j] in r;
          assert r[j] == e || r[j] in es[1..];
        }
      } else {
        LessTrichotomy(es[0].key, e.key);
        assert es[0] in es;
        forall j | 0 <= j < |es| ensures Less(e.key, es[j].key) {
          if j > 0 {
            LessTransitive(e.key, es[0].key, es[j].key);
          }
        }
      }
    }
  }

  /** The keys of an ascending list stand in the order of their first different code unit. */
  lemma AscendingBelow<V>(es: seq<Entry<V>>)
    ensures Ascending(es) <==> forall i, j :: 0 <= i < j < |es| ==> Below(es[i].key, es[j].key)
  {
    forall i, j | 0 <= i < j < |es| ensures Less(es[i].key, es[j].key) <==> Below(es[i].key, es[j].key) {
      LessExact(es[i].key, es[j].key);
    }
  }

  /** Sorting entries whose keys are pairwise distinct puts the keys in strictly ascending order. */
  lemma {:induction false} SortAscends<V(!new)>(es: seq<Entry<V>>)
    requires DistinctKeys(es)
    ensures Ascending(SortEntries(es))
  {
    if es != [] {
      SortAscends(es[1..]);
      forall x | x in es[1..] ensures x.key != es[0].key {
        var k :| 0 <= k < |es[1..]| && es[1..][k] == x;
        assert es[k + 1] == x;
      }
      InsertAscends(es[0], SortEntries(es[1..]));
    }
  }

  /** An ascending list is determined by the set of its entries. */
  lemma {:induction false} AscendingUnique<V(!new)>(a: seq<Entry<V>>, b: seq<Entry<V>>)
    requires Ascending(a) && Ascending(b)
    requires forall x :: x in a <==> x in b
    ensures a == b
  {
    assert a != [] ==> a[0] in b;
    assert b != [] ==> b[0] in a;
    if a != [] {
      var i :| 0 <= i < |b| && b[i] == a[0];
      var j :| 0 <= j < |a| && a[j] == b[0];
      if i > 0 {
        if j > 0 { LessAsymmetric(b[0].key, b[i].key); }
        LessAsymmetric(b[0].key, b[i].key);
        assert false;
      }
      assert a[0] == b[0];
      forall x ensures x in a[1..] <==> x in b[1..] {
        TailMembers(a, x);
        TailMembers(b, x);
      }
      AscendingUnique(a[1..], b[1..]);
      assert a == [a[0]] + a[1..] && b == [b[0]] + b[1..];
    }
  }

  lemma TailMembers<V(!new)>(a: seq<Entry<V>>, x: Entry<V>)
    requires a != [] && Ascending(a)
    ensures x in a[1..] <==> (x in a && x != a[0])
  {
    if x in a[1..] {
      var k :| 0 <= k < |a[1..]| && a[1..][k] == x;
      assert a[k + 1] == x;
      LessAsymmetric(a[0].key, a[k + 1].key);
    }
    assert a == [a[0]] + a[1..];
  }

  /** Two arrangements of the same entries with distinct keys sort to the same list. */
  lemma SortIgnoresOrder<V(!new)>(a: seq<Entry<V>>, b: seq<Entry<V>>)
    requires DistinctKeys(a) && DistinctKeys(b)
    requires forall x :: x in a <==> x in b
    ensures SortEntries(a) == SortEntries(b)
  {
    SortAscends(a);
    SortAscends(b);
    AscendingUnique(SortEntries(a), SortEntries(b));
  }

  /** Sorted entries are the given ones, each key below the next by its first different code unit. */
  lemma SortExact<V(!new)>(es: seq<Entry<V>>)
    requires DistinctKeys(es)
    ensures var r := SortEntries(es);
            && |r| == |es| && (forall x :: x in r <==> x in es)
            && forall i, j :: 0 <= i < j < |r| ==> Below(r[i].key, r[j].key)
  {
    SortAscends(es);
    AscendingBelow(SortEntries(es));
  }

  // ---------------------------------------------------------------- decimal printing

  function Digits(n: nat): (t: Text)
    ensures t != []
    ensures forall i :: 0 <= i < |t| ==> 0x30 <= t[i] <= 0x39
  {
    if n < 10 then [(0x30 + n) as CodeUnit] else Digits(n / 10) + [(0x30 + n % 10) as CodeUnit]
  }

  /** String(n) for an integer. */
  function Decimal(n: int): (t: Text)
    ensures t != []
  {
    if n < 0 then [0x2d] + Digits(-n) else Digits(n)
  }

  lemma {:induction false} DigitsInjective(m: nat, n: nat)
    requires Digits(m) == Digits(n)
    ensures m == n
  {
    var a, b := Digits(m), Digits(n);
    assert a[|a| - 1] as int == 0x30 + m % 10 && b[|b| - 1] as int == 0x30 + n % 10;
    if m >= 10 && n >= 10 {
      assert Digits(m / 10) == a[..|a| - 1] && Digits(n / 10) == b[..|b| - 1];
      DigitsInjective(m / 10, n / 10);
    }
  }

  /** Different integers print differently. */
  lemma DecimalInjective(m: int, n: int)
    requires Decimal(m) == Decimal(n)
    ensures m == n
  {
    assert Decimal(m)[0] == Decimal(n)[0];
    if m < 0 && n < 0 {
      assert Digits(-m) == Decimal(m)[1..] && Digits(-n) == Decimal(n)[1..];
      DigitsInjective(-m, -n);
    } else if m >= 0 && n >= 0 {
      DigitsInjective(m, n);
    }
  }

  /** Reads decimal digits; anything that is not a digit counts as its distance from '0'. */
  function NatOf(t: Text): int {
    if t == [] then 0 else NatOf(t[..|t| - 1]) * 10 + (t[|t| - 1] as int - 0x30)
  }

  lemma {:induction false} NatOfDigits(n: nat)
    ensures NatOf(Digits(n)) == n
  {
    var t := Digits(n);
    if n < 10 {
      assert t[..0] == [];
    } else {
      assert t[..|t| - 1] == Digits(n / 10);
      NatOfDigits(n / 10);
    }
  }
}
