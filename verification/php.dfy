/**
 The two PHP built-ins the modelled code leans on, on strings:
 `sort()` of a list of messages and `str_replace()`.
 */
module Php {

  // ---------------------------------------------------------------------
  // String order and sort()
  // ---------------------------------------------------------------------

  /** Byte-wise (strcmp) order on strings: the order `sort()` puts
      non-numeric message strings in. */
  predicate StrLe(a: string, b: string)
  {
    a == [] || (b != [] && (a[0] < b[0] || (a[0] == b[0] && StrLe(a[1..], b[1..]))))
  }

  lemma {:induction false} StrLeTotal(a: string, b: string)
    ensures StrLe(a, b) || StrLe(b, a)
  {
    if a != [] && b != [] && a[0] == b[0] {
      StrLeTotal(a[1..], b[1..]);
    }
  }

  lemma {:induction false} StrLeAntisymmetric(a: string, b: string)
    requires StrLe(a, b) && StrLe(b, a)
    ensures a == b
  {
    if a != [] && b != [] {
      StrLeAntisymmetric(a[1..], b[1..]);
      assert a == [a[0]] + a[1..] && b == [b[0]] + b[1..];
    }
  }

  lemma {:induction false} StrLeTransitive(a: string, b: string, c: string)
    requires StrLe(a, b) && StrLe(b, c)
    ensures StrLe(a, c)
  {
    if a != [] && b != [] && c != [] && a[0] == b[0] && b[0] == c[0] {
      StrLeTransitive(a[1..], b[1..], c[1..]);
    }
  }

  /** The list is in ascending order. */
  ghost predicate Sorted(s: seq<string>)
  {
    forall i, j :: 0 <= i < j < |s| ==> StrLe(s[i], s[j])
  }

  /** Inserts `x` into an ordered list, keeping it ordered. */
  function Insert(x: string, s: seq<string>): (r: seq<string>)
    requires Sorted(s)
    ensures Sorted(r)
    ensures multiset(r) == multiset(s) + multiset{x}
  {
    if s == [] then
      [x]
    else if StrLe(x, s[0]) then
      SortedCons(x, s);
      [x] + s
    else
      var t := Insert(x, s[1..]);
      assert s == [s[0]] + s[1..];
      StrLeTotal(x, s[0]);
      forall k | 0 <= k < |t| ensures StrLe(s[0], t[k]) {
        assert t[k] in multiset(t);
      }
      SortedCons(s[0], t);
      [s[0]] + t
  }

  lemma SortedCons(x: string, s: seq<string>)
    requires Sorted(s)
    requires s == [] || StrLe(x, s[0]) || forall k :: 0 <= k < |s| ==> StrLe(x, s[k])
    ensures Sorted([x] + s)
  {
    forall k | 0 <= k < |s| ensures StrLe(x, s[k]) {
      if k > 0 && StrLe(x, s[0]) {
        StrLeTransitive(x, s[0], s[k]);
      }
    }
  }

  /** PHP `sort()` on a list of strings: an ordered permutation of it. */
  function Sort(s: seq<string>): (r: seq<string>)
    ensures Sorted(r)
    ensures multiset(r) == multiset(s)
    ensures |r| == |s|
  {
    if s == [] then []
    else
      assert s == [s[0]] + s[1..];
      Insert(s[0], Sort(s[1..]))
  }

  /** Two ordered lists with the same elements are equal: whatever
      algorithm `sort()` uses, its result is determined by the multiset
      of its input. */
  lemma {:induction false} SortedUnique(a: seq<string>, b: seq<string>)
    requires Sorted(a) && Sorted(b)
    requires multiset(a) == multiset(b)
    ensures a == b
    decreases |a|
  {
    assert |a| == |multiset(a)| == |multiset(b)| == |b|;
    if a != [] {
      SortedSameHead(a, b);
      MultisetTail(a);
      MultisetTail(b);
      SortedUnique(a[1..], b[1..]);
      assert a == [a[0]] + a[1..] && b == [b[0]] + b[1..];
    }
  }

  lemma SortedSameHead(a: seq<string>, b: seq<string>)
    requires Sorted(a) && Sorted(b) && a != []
    requires multiset(a) == multiset(b)
    ensures b != [] && a[0] == b[0]
  {
    assert a[0] in multiset(b);
    assert b[0] in multiset(a);
    var k :| 0 <= k < |b| && b[k] == a[0];
    var j :| 0 <= j < |a| && a[j] == b[0];
    StrLeTotal(a[0], b[0]);
    if j != 0 { assert StrLe(a[0], a[j]); }
    if k != 0 { assert StrLe(b[0], b[k]); }
    StrLeAntisymmetric(a[0], b[0]);
  }

  lemma MultisetTail(a: seq<string>)
    requires a != []
    ensures multiset(a[1..]) == multiset(a) - multiset{a[0]}
  {
    assert a == [a[0]] + a[1..];
  }

  // ---------------------------------------------------------------------
  // str_replace()
  // ---------------------------------------------------------------------

  /** `search` occurs somewhere in `subject`. */
  predicate Occurs(search: string, subject: string)
  {
    search <= subject || (subject != [] && Occurs(search, subject[1..]))
  }

  /** PHP `str_replace($search, $replace, $subject)` for string arguments:
      scans left to right and replaces every non-overlapping occurrence;
      an empty `search` leaves the subject unchanged. */
  function StrReplace(search: string, replace: string, subject: string): (r: string)
    ensures search == [] ==> r == subject
    ensures |replace| <= |search| ==> |r| <= |subject|
    ensures |replace| >= |search| ==> |r| >= |subject|
    decreases |subject|
  {
    if search == [] || subject == [] then subject
    else if search <= subject then replace + StrReplace(search, replace, subject[|search|..])
    else [subject[0]] + StrReplace(search, replace, subject[1..])
  }

  /** Nothing to replace: the subject comes back unchanged. */
  lemma {:induction false} StrReplaceAbsent(search: string, replace: string, subject: string)
    requires !Occurs(search, subject)
    ensures StrReplace(search, replace, subject) == subject
    decreases |subject|
  {
    if subject != [] {
      StrReplaceAbsent(search, replace, subject[1..]);
      assert subject == [subject[0]] + subject[1..];
    }
  }

  /** The first character of `s` does not occur again in `s`, so no
      occurrence of `s` can overlap the start of another one. */
  predicate HeadUnique(s: string)
  {
    s != [] && forall k :: 0 < k < |s| ==> s[k] != s[0]
  }

  /** The first occurrence is replaced, and the scan resumes after it. */
  lemma {:induction false} StrReplaceFirst(search: string, replace: string, a: string, b: string)
    requires HeadUnique(search)
    requires !Occurs(search, a)
    ensures StrReplace(search, replace, a + search + b) == a + replace + StrReplace(search, replace, b)
    decreases |a|
  {
    var subject := a + search + b;
    if a == [] {
      assert subject == search + b;
      assert subject[|search|..] == b;
    } else {
      NoOverlapAtStart(search, a, b);
      assert subject[1..] == a[1..] + search + b;
      StrReplaceFirst(search, replace, a[1..], b);
      assert a == [a[0]] + a[1..];
    }
  }

  /** When `a` holds no occurrence, none starts inside `a` either. */
  lemma NoOverlapAtStart(search: string, a: string, b: string)
    requires HeadUnique(search)
    requires !Occurs(search, a) && a != []
    ensures !(search <= a + search + b)
  {
    var subject := a + search + b;
    if |search| <= |a| {
      assert subject[..|search|] == a[..|search|];
      assert !(search <= a);
    } else {
      assert subject[|a|] == search[0];
      assert search[|a|] != search[0];
    }
  }
}
