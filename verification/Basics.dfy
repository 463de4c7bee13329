/** Shared vocabulary: optional values, outcomes, and the string order used for every sort
    of node and agent identifiers. */
module Basics {

  datatype Option<+T> = None | Some(value: T)

  datatype Result<+E> = Ok | Err(error: E)

  /** Strict lexicographic order on identifiers. Rust compares the UTF-8 bytes of a `String`,
      which orders strings exactly as their code points do. */
  predicate Less(a: string, b: string) {
    b != [] && (a == [] || a[0] < b[0] || (a[0] == b[0] && Less(a[1..], b[1..])))
  }

  lemma {:induction false} LessTransitive(a: string, b: string, c: string)
    requires Less(a, b) && Less(b, c)
    ensures Less(a, c)
  {
    if a != [] && a[0] == b[0] && b[0] == c[0] {
      LessTransitive(a[1..], b[1..], c[1..]);
    }
  }

  lemma {:induction false} LessIrreflexive(a: string)
    ensures !Less(a, a)
  {
    if a != [] {
      LessIrreflexive(a[1..]);
    }
  }

  lemma {:induction false} LessTotal(a: string, b: string)
    ensures a == b || Less(a, b) || Less(b, a)
  {
    if a != [] && b != [] && a[0] == b[0] {
      LessTotal(a[1..], b[1..]);
      assert a == [a[0]] + a[1..] && b == [b[0]] + b[1..];
    }
  }

  lemma LessAsymmetric(a: string, b: string)
    requires Less(a, b)
    ensures !Less(b, a)
  {
    if Less(b, a) {
      LessTransitive(a, b, a);
      LessIrreflexive(a);
    }
  }

  /** After the separator there is no other. */
  lemma AfterSeparator(a: string, x: string, c: char)
    requires c !in x
    ensures var s := a + [c] + x; s[|a|] == c && forall i :: |a| < i < |s| ==> s[i] != c
  {
    var s := a + [c] + x;
    assert forall i :: |a| < i < |s| ==> s[i] == x[i - |a| - 1];
  }

  /** Cut at the last separator, a string falls apart in one way only. */
  lemma LastSeparator(a: string, b: string, x: string, y: string, c: char)
    requires c !in x && c !in y && a + [c] + x == b + [c] + y
    ensures a == b && x == y
  {
    var s := a + [c] + x;
    AfterSeparator(a, x, c);
    AfterSeparator(b, y, c);
    assert |a| == |b|;
    assert s[..|a|] == a && s[..|b|] == b;
    assert s[|a| + 1..] == x && s[|b| + 1..] == y;
  }

  /** The White_Space property of Unicode, which `trim` strips. */
  predicate IsSpace(c: char) {
    || '\t' <= c <= '\r' || c == ' ' || c == '\U{85}' || c == '\U{A0}' || c == '\U{1680}'
    || '\U{2000}' <= c <= '\U{200A}' || c == '\U{2028}' || c == '\U{2029}' || c == '\U{202F}'
    || c == '\U{205F}' || c == '\U{3000}'
  }

  /** `s.trim().is_empty()` */
  predicate IsBlank(s: string) {
    forall i :: 0 <= i < |s| ==> IsSpace(s[i])
  }

  /** Decimal digits of a number, as formatting prints it. */
  function Decimal(n: nat): (s: string)
    ensures |s| >= 1 && forall i :: 0 <= i < |s| ==> '0' <= s[i] <= '9'
  {
    var digit := ['0' + (n % 10) as char];
    if n < 10 then digit else Decimal(n / 10) + digit
  }

  function Elements<T>(s: seq<T>): set<T>
  {
    set x | x in s
  }

  lemma ElementsSnoc<T>(s: seq<T>, x: T)
    ensures Elements(s + [x]) == Elements(s) + {x}
  {
  }

  lemma SubsetCount<T>(a: set<T>, b: set<T>)
    requires a <= b
    ensures |a| <= |b|
  {
    assert b == a + (b - a);
  }

  lemma FullSubset<T>(a: set<T>, b: set<T>)
    requires a <= b
    ensures |a| <= |b| && (|a| == |b| <==> a == b)
  {
    assert b == a + (b - a);
  }

  predicate Distinct<T(==)>(s: seq<T>) {
    forall i, j :: 0 <= i < j < |s| ==> s[i] != s[j]
  }

  lemma {:induction false} DistinctCount<T>(s: seq<T>)
    requires Distinct(s)
    ensures |Elements(s)| == |s|
  {
    if s != [] {
      var rest, last := s[..|s| - 1], s[|s| - 1];
      DistinctCount(rest);
      assert s == rest + [last];
      assert Elements(s) == Elements(rest) + {last} && last !in Elements(rest);
    }
  }

  lemma SameElements<T>(r: seq<T>, s: seq<T>, y: T)
    requires multiset(r) == multiset(s)
    ensures y in r <==> y in s
  {
    assert y in multiset(r) <==> y in multiset(s);
  }

  lemma CountTwice<T>(s: seq<T>, i: nat, j: nat)
    requires i < j < |s| && s[i] == s[j]
    ensures multiset(s)[s[i]] >= 2
  {
    assert s == s[..j] + s[j..];
    assert s[..j][i] == s[i] && s[j..][0] == s[i];
  }

  lemma {:induction false} CountOnce<T>(s: seq<T>, x: T)
    requires Distinct(s)
    ensures multiset(s)[x] <= 1
  {
    if s != [] {
      var rest := s[..|s| - 1];
      CountOnce(rest, x);
      assert s == rest + [s[|s| - 1]];
      if s[|s| - 1] == x {
        assert x !in rest;
        assert multiset(rest)[x] == 0;
      }
    }
  }

  /** A rearrangement has the same length and elements, and no new repeats. */
  lemma PermutationKeeps<T(!new)>(r: seq<T>, s: seq<T>)
    requires multiset(r) == multiset(s)
    ensures |r| == |s| && forall t :: t in r <==> t in s
    ensures Distinct(s) ==> Distinct(r)
  {
    assert |multiset(r)| == |multiset(s)|;
    forall t ensures t in r <==> t in s {
      SameElements(r, s, t);
    }
    if Distinct(s) {
      forall i, j | 0 <= i < j < |r| ensures r[i] != r[j] {
        if r[i] == r[j] {
          CountTwice(r, i, j);
          CountOnce(s, r[i]);
        }
      }
    }
  }

  // ----- sorting -----

  predicate NotBefore(low: string, high: string) {
    low == high || Less(low, high)
  }

  predicate Ascending<T>(s: seq<T>, key: T -> string) {
    forall i, j :: 0 <= i < j < |s| ==> NotBefore(key(s[i]), key(s[j]))
  }

  predicate StrictlyAscending(s: seq<string>) {
    forall i, j :: 0 <= i < j < |s| ==> Less(s[i], s[j])
  }

  /** Insertion after every element whose key is not greater: inserting from the left keeps
      equal keys in their original order, as a stable library sort does. */
  function Insert<T>(x: T, s: seq<T>, key: T -> string): (r: seq<T>)
    ensures multiset(r) == multiset(s) + multiset{x}
  {
    if s == [] then [x]
    else if Less(key(x), key(s[0])) then [x] + s
    else
      assert s == [s[0]] + s[1..];
      [s[0]] + Insert(x, s[1..], key)
  }

  lemma NotBeforeTransitive(a: string, b: string, c: string)
    requires NotBefore(a, b) && NotBefore(b, c)
    ensures NotBefore(a, c)
  {
    if a != b && b != c {
      LessTransitive(a, b, c);
    }
  }

  lemma AscendingCons<T>(x: T, s: seq<T>, key: T -> string)
    requires Ascending(s, key)
    requires s == [] || NotBefore(key(x), key(s[0]))
    ensures Ascending([x] + s, key)
  {
    forall j | 0 <= j < |s| ensures NotBefore(key(x), key(s[j])) {
      if j > 0 {
        NotBeforeTransitive(key(x), key(s[0]), key(s[j]));
      }
    }
    var r := [x] + s;
    forall i, j | 0 <= i < j < |r| ensures NotBefore(key(r[i]), key(r[j])) {
      if i == 0 {
        assert r[j] == s[j - 1];
      } else {
        assert r[i] == s[i - 1] && r[j] == s[j - 1];
      }
    }
  }

  lemma {:induction false} InsertAscending<T>(x: T, s: seq<T>, key: T -> string)
    requires Ascending(s, key)
    ensures Ascending(Insert(x, s, key), key)
  {
    if s == [] {
    } else if Less(key(x), key(s[0])) {
      AscendingCons(x, s, key);
    } else {
      LessTotal(key(x), key(s[0]));
      InsertAscending(x, s[1..], key);
      var rest := Insert(x, s[1..], key);
      assert rest[0] == x || rest[0] == s[1];
      AscendingCons(s[0], rest, key);
    }
  }

  function SortBy<T>(s: seq<T>, key: T -> string): (r: seq<T>)
    ensures Ascending(r, key)
    ensures multiset(r) == multiset(s)
  {
    if s == [] then []
    else
      assert s == s[..|s| - 1] + [s[|s| - 1]];
      InsertAscending(s[|s| - 1], SortBy(s[..|s| - 1], key), key);
      Insert(s[|s| - 1], SortBy(s[..|s| - 1], key), key)
  }

  /** Drop repeats of the previous element. */
  function Dedup(s: seq<string>): (r: seq<string>)
    requires Ascending(s, (x: string) => x)
    ensures StrictlyAscending(r)
    ensures forall y :: y in r <==> y in s
    ensures |s| > 0 ==> |r| > 0 && r[0] == s[0]
  {
    if |s| <= 1 then s
    else if s[0] == s[1] then Dedup(s[1..])
    else
      var rest := Dedup(s[1..]);
      assert forall j :: 0 <= j < |rest| ==> Less(s[0], rest[j]) by {
        forall j | 0 <= j < |rest| ensures Less(s[0], rest[j]) {
          if j > 0 {
            LessTransitive(s[0], rest[0], rest[j]);
          }
        }
      }
      [s[0]] + rest
  }
}
