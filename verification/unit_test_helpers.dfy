/**
 The two pure helpers of the sniff's unit test: `offset`, which moves
 expected messages written relative to a code snippet to the positions the
 snippet takes inside a template, and `insertBeforeAndAfter`, which puts
 the snippet before and after the assignment in such a template.
 */
module UnitTestHelpers {
  import opened Wrappers
  import opened Reports
  import opened Php

  // ---------------------------------------------------------------------
  // offset
  // ---------------------------------------------------------------------

  function ShiftColumns<T>(cs: seq<Column<T>>, dx: int): seq<Column<T>>
  {
    seq(|cs|, j requires 0 <= j < |cs| => Column(cs[j].col + dx, cs[j].items))
  }

  function ShiftLine<T>(l: Line<T>, dy: int, dx: int): Line<T>
  {
    Line(l.line + dy, ShiftColumns(l.columns, dx))
  }

  /** Every entry at (y, x) moved to (y + dy, x + dx). */
  function Shifted<T>(r: Report<T>, dy: int, dx: int): (s: Report<T>)
    ensures |s| == |r|
    ensures forall i :: 0 <= i < |r| ==> |s[i].columns| == |r[i].columns|
    ensures forall i, j | 0 <= i < |r| && 0 <= j < |r[i].columns| ::
              s[i].columns[j].items == r[i].columns[j].items
  {
    seq(|r|, i requires 0 <= i < |r| => ShiftLine(r[i], dy, dx))
  }

  /** `offset($expectedMessages, $line, $column)`. */
  method Offset<T>(expectedMessages: Report<T>, line: int, column: int) returns (result: Report<T>)
    ensures result == Shifted(expectedMessages, line, column)
  {
    result := [];
    for i := 0 to |expectedMessages|
      invariant |result| == i
      invariant forall k :: 0 <= k < i ==> result[k] == ShiftLine(expectedMessages[k], line, column)
    {
      var lineMessages := expectedMessages[i];
      var columns: seq<Column<T>> := [];
      for j := 0 to |lineMessages.columns|
        invariant |columns| == j
        invariant forall k :: 0 <= k < j ==>
                    columns[k] == Column(lineMessages.columns[k].col + column, lineMessages.columns[k].items)
      {
        var columnMessages := lineMessages.columns[j];
        columns := columns + [Column(columnMessages.col + column, columnMessages.items)];
      }
      result := result + [Line(lineMessages.line + line, columns)];
    }
  }

  function ShiftKeys(ks: seq<int>, d: int): seq<int>
  {
    seq(|ks|, i requires 0 <= i < |ks| => ks[i] + d)
  }

  lemma ShiftKeysIndexOf(ks: seq<int>, d: int, k: int)
    ensures k in ks <==> k + d in ShiftKeys(ks, d)
    ensures k in ks ==> IndexOf(ShiftKeys(ks, d), k + d) == IndexOf(ks, k)
  {
    var sk := ShiftKeys(ks, d);
    if k in ks {
      var n := IndexOf(ks, k);
      assert sk[n] == k + d;
      var m := IndexOf(sk, k + d);
      assert ks[m] == k;
    }
    if k + d in sk {
      var m := IndexOf(sk, k + d);
      assert ks[m] == k;
    }
  }

  lemma ShiftedKeys<T>(r: Report<T>, dy: int, dx: int)
    ensures LineKeys(Shifted(r, dy, dx)) == ShiftKeys(LineKeys(r), dy)
    ensures forall i :: 0 <= i < |r| ==>
              ColumnKeys(Shifted(r, dy, dx)[i].columns) == ShiftKeys(ColumnKeys(r[i].columns), dx)
  {
    var s := Shifted(r, dy, dx);
    forall i | 0 <= i < |r|
      ensures ColumnKeys(s[i].columns) == ShiftKeys(ColumnKeys(r[i].columns), dx)
    {
      assert s[i].columns == ShiftColumns(r[i].columns, dx);
    }
  }

  /** The entry at (y, x) after the shift is the one that was at
      (y - dy, x - dx): nothing is lost, moved elsewhere or invented. */
  lemma ShiftedAt<T>(r: Report<T>, dy: int, dx: int, y: int, x: int)
    ensures At(Shifted(r, dy, dx), y, x) == At(r, y - dy, x - dx)
  {
    var s := Shifted(r, dy, dx);
    ShiftedKeys(r, dy, dx);
    ShiftKeysIndexOf(LineKeys(r), dy, y - dy);
    if y - dy in LineKeys(r) {
      var n := IndexOf(LineKeys(r), y - dy);
      assert IndexOf(LineKeys(s), y) == n;
      var cs := r[n].columns;
      ShiftKeysIndexOf(ColumnKeys(cs), dx, x - dx);
      if x - dx in ColumnKeys(cs) {
        var m := IndexOf(ColumnKeys(cs), x - dx);
        assert IndexOf(ColumnKeys(s[n].columns), x) == m;
        assert s[n].columns[m].items == cs[m].items;
      }
    }
  }

  /** Keys stay distinct, so the result is again a PHP array. */
  lemma ShiftedWellFormed<T>(r: Report<T>, dy: int, dx: int)
    requires WellFormed(r)
    ensures WellFormed(Shifted(r, dy, dx))
  {
    var s := Shifted(r, dy, dx);
    assert LineKeys(s) == ShiftKeys(LineKeys(r), dy);
    forall i | 0 <= i < |s| ensures Distinct(ColumnKeys(s[i].columns)) {
      assert ColumnKeys(s[i].columns) == ShiftKeys(ColumnKeys(r[i].columns), dx);
    }
  }

  /** Offsetting by (0, 0) changes nothing. */
  lemma ShiftedByZero<T>(r: Report<T>)
    ensures Shifted(r, 0, 0) == r
  {
    var s := Shifted(r, 0, 0);
    forall i | 0 <= i < |r| ensures s[i] == r[i] {
      assert s[i].columns == r[i].columns;
    }
  }

  /** Two offsets add up. */
  lemma ShiftedTwice<T>(r: Report<T>, a: int, b: int, c: int, d: int)
    ensures Shifted(Shifted(r, a, b), c, d) == Shifted(r, a + c, b + d)
  {
    var s, t := Shifted(Shifted(r, a, b), c, d), Shifted(r, a + c, b + d);
    forall i | 0 <= i < |r| ensures s[i] == t[i] {
      assert s[i].columns == t[i].columns;
    }
  }

  // ---------------------------------------------------------------------
  // insertBeforeAndAfter
  // ---------------------------------------------------------------------

  const Before: string := "BEFORE"
  const After: string := "AFTER"

  /** `insertBeforeAndAfter($template, $code)`: the template with the code
      put at the BEFORE marker, and the template with the code put at the
      AFTER marker; the other marker is removed in each. */
  function InsertBeforeAndAfter(template: string, code: string): (r: (string, string))
    ensures !Occurs(Before, template) && !Occurs(After, template) ==> r == (template, template)
    ensures code == [] ==> r.0 == r.1
  {
    UntouchedWithoutMarkers(template, code);
    (StrReplace(After, [], StrReplace(Before, code, template)),
     StrReplace(After, code, StrReplace(Before, [], template)))
  }

  /** A template holding neither marker passes through both replacements. */
  lemma UntouchedWithoutMarkers(template: string, code: string)
    ensures !Occurs(Before, template) && !Occurs(After, template) ==>
              StrReplace(After, [], StrReplace(Before, code, template)) == template
              && StrReplace(After, code, StrReplace(Before, [], template)) == template
  {
    if !Occurs(Before, template) && !Occurs(After, template) {
      StrReplaceAbsent(Before, code, template);
      StrReplaceAbsent(Before, [], template);
      StrReplaceAbsent(After, [], template);
      StrReplaceAbsent(After, code, template);
    }
  }

  lemma MarkersHeadUnique()
    ensures HeadUnique(Before) && HeadUnique(After)
  {
  }

  /** The only occurrence of `marker` in `prefix marker rest` is replaced. */
  lemma ReplaceOnlyMarker(marker: string, prefix: string, rest: string, code: string)
    requires HeadUnique(marker)
    requires !Occurs(marker, prefix) && !Occurs(marker, rest)
    ensures StrReplace(marker, code, prefix + marker + rest) == prefix + code + rest
  {
    StrReplaceFirst(marker, code, prefix, rest);
    StrReplaceAbsent(marker, code, rest);
  }

  /** Replacing marker `b` by `code` and then marker `a` by `other` in
      `prefix b middle a suffix`. */
  lemma ReplaceBothMarkers(b: string, a: string, prefix: string, middle: string, suffix: string,
                           code: string, other: string)
    requires HeadUnique(b) && HeadUnique(a)
    requires !Occurs(b, prefix) && !Occurs(b, middle + a + suffix)
    requires !Occurs(a, prefix + code + middle) && !Occurs(a, suffix)
    ensures StrReplace(a, other, StrReplace(b, code, prefix + b + (middle + a + suffix)))
         == (prefix + code + middle) + other + suffix
  {
    ReplaceOnlyMarker(b, prefix, middle + a + suffix, code);
    assert prefix + code + (middle + a + suffix) == (prefix + code + middle) + a + suffix;
    ReplaceOnlyMarker(a, prefix + code + middle, suffix, other);
  }

  /** A template of the shape the tests use,
      `prefix BEFORE middle AFTER suffix` with no other marker anywhere
      and none formed by the code, yields the code in the BEFORE place
      and the code in the AFTER place. */
  lemma InsertIntoTemplate(prefix: string, middle: string, suffix: string, code: string)
    requires !Occurs(Before, prefix) && !Occurs(Before, middle + After + suffix)
    requires !Occurs(After, prefix + code + middle) && !Occurs(After, prefix + middle)
    requires !Occurs(After, suffix)
    ensures InsertBeforeAndAfter(prefix + Before + middle + After + suffix, code)
         == (prefix + code + middle + suffix, prefix + middle + code + suffix)
  {
    MarkersHeadUnique();
    var template := prefix + Before + middle + After + suffix;
    assert template == prefix + Before + (middle + After + suffix);
    ReplaceBothMarkers(Before, After, prefix, middle, suffix, code, []);
    assert (prefix + code + middle) + [] + suffix == prefix + code + middle + suffix;
    assert prefix + [] + middle == prefix + middle;
    ReplaceBothMarkers(Before, After, prefix, middle, suffix, [], code);
    assert (prefix + [] + middle) + code + suffix == prefix + middle + code + suffix;
  }
}
