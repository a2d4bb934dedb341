/**
 The nested diagnostics array `line => column => list`, as PHP_CodeSniffer
 returns warnings and errors and as the tests write their expectations.

 A PHP array keeps its keys in insertion order and never holds a key twice;
 here each level is a sequence of keyed entries, and `WellFormed` says that
 no key repeats.
 */
module Reports {
  import opened Wrappers

  /** `$column => [ ...items ]` */
  datatype Column<T> = Column(col: int, items: seq<T>)

  /** `$line => [ ...columns ]` */
  datatype Line<T> = Line(line: int, columns: seq<Column<T>>)

  type Report<T> = seq<Line<T>>

  /** `array_keys()` of the outer array. */
  function LineKeys<T>(r: Report<T>): seq<int>
  {
    seq(|r|, i requires 0 <= i < |r| => r[i].line)
  }

  /** `array_keys()` of one line. */
  function ColumnKeys<T>(cs: seq<Column<T>>): seq<int>
  {
    seq(|cs|, j requires 0 <= j < |cs| => cs[j].col)
  }

  predicate Distinct(ks: seq<int>)
  {
    forall i, j :: 0 <= i < j < |ks| ==> ks[i] != ks[j]
  }

  /** The representation is a PHP array: no key repeats at either level. */
  predicate WellFormed<T>(r: Report<T>)
  {
    && Distinct(LineKeys(r))
    && forall i :: 0 <= i < |r| ==> Distinct(ColumnKeys(r[i].columns))
  }

  /** Position of key `k`, as used by the lookup `$array[$k]`. */
  function IndexOf(ks: seq<int>, k: int): (n: nat)
    requires k in ks
    ensures n < |ks| && ks[n] == k
    ensures forall m :: 0 <= m < n ==> ks[m] != k
  {
    if ks[0] == k then 0 else 1 + IndexOf(ks[1..], k)
  }

  /** With distinct keys, the lookup of the i-th key finds entry i. */
  lemma IndexOfDistinct(ks: seq<int>, i: int)
    requires Distinct(ks) && 0 <= i < |ks|
    ensures IndexOf(ks, ks[i]) == i
  {
  }

  /** The same keys, in the same order, at both levels. */
  ghost predicate SameShape<T, U>(a: Report<T>, b: Report<U>)
  {
    && LineKeys(a) == LineKeys(b)
    && forall i :: 0 <= i < |a| ==> ColumnKeys(a[i].columns) == ColumnKeys(b[i].columns)
  }

  /** `$report[$y][$x]`, or None when either key is missing. */
  function At<T>(r: Report<T>, y: int, x: int): Option<seq<T>>
  {
    if y !in LineKeys(r) then None
    else
      var l := r[IndexOf(LineKeys(r), y)];
      if x !in ColumnKeys(l.columns) then None
      else Some(l.columns[IndexOf(ColumnKeys(l.columns), x)].items)
  }
}
