/**
 The test constraint that compares the warnings (or errors) PHP_CodeSniffer
 reports for a file with the expected ones: the same lines, the same
 columns on each line, and at each column the same messages in any order,
 duplicates counted.
 */
module Constraint {
  import opened Reports
  import opened Php

  /** One reported diagnostic; only `message` takes part in matching. */
  datatype Message = Message(message: string, source: string, listener: string, severity: int, fixable: bool)

  /** The value under test: a diagnostics array or anything else. */
  datatype Subject = ArrayValue(lines: Report<Message>) | NonArray

  /** `array_map(fn ($item) => $item['message'], $columnMessages)` */
  function MessageTexts(items: seq<Message>): seq<string>
  {
    seq(|items|, k requires 0 <= k < |items| => items[k].message)
  }

  function ExtractColumn(c: Column<Message>): Column<string>
  {
    Column(c.col, Sort(MessageTexts(c.items)))
  }

  function ExtractLine(l: Line<Message>): Line<string>
  {
    Line(l.line, seq(|l.columns|, j requires 0 <= j < |l.columns| => ExtractColumn(l.columns[j])))
  }

  /** What `extractMessages` computes: the same line and column keys, each
      column reduced to the ordered list of its items' messages. */
  function Extracted(actual: Report<Message>): (r: Report<string>)
    ensures SameShape(r, actual)
    ensures forall i, j | 0 <= i < |actual| && 0 <= j < |actual[i].columns| ::
              && Sorted(r[i].columns[j].items)
              && multiset(r[i].columns[j].items) == multiset(MessageTexts(actual[i].columns[j].items))
              && |r[i].columns[j].items| == |actual[i].columns[j].items|
  {
    var r := seq(|actual|, i requires 0 <= i < |actual| => ExtractLine(actual[i]));
    assert LineKeys(r) == LineKeys(actual);
    forall i | 0 <= i < |actual|
      ensures ColumnKeys(r[i].columns) == ColumnKeys(actual[i].columns)
    {
    }
    r
  }

  function NormaliseColumn(c: Column<string>): Column<string>
  {
    Column(c.col, Sort(c.items))
  }

  function NormaliseLine(l: Line<string>): Line<string>
  {
    Line(l.line, seq(|l.columns|, j requires 0 <= j < |l.columns| => NormaliseColumn(l.columns[j])))
  }

  /** What `normaliseExpectedMessages` computes: the same line and column
      keys, each column list put in order. */
  function Normalised(expected: Report<string>): (r: Report<string>)
    ensures SameShape(r, expected)
    ensures forall i, j | 0 <= i < |expected| && 0 <= j < |expected[i].columns| ::
              && Sorted(r[i].columns[j].items)
              && multiset(r[i].columns[j].items) == multiset(expected[i].columns[j].items)
  {
    var r := seq(|expected|, i requires 0 <= i < |expected| => NormaliseLine(expected[i]));
    assert LineKeys(r) == LineKeys(expected);
    forall i | 0 <= i < |expected|
      ensures ColumnKeys(r[i].columns) == ColumnKeys(expected[i].columns)
    {
    }
    r
  }

  class ArrayMatchesMessages {
    /** The expected messages, normalised. */
    var messages: Report<string>

    ghost predicate Valid()
      reads this
    {
      WellFormed(messages)
    }

    constructor(expected: Report<string>)
      requires WellFormed(expected)
      ensures Valid()
      ensures messages == Normalised(expected)
    {
      var normalised := NormaliseExpectedMessages(expected);
      messages := normalised;
      SameShapeWellFormed(expected, normalised);
    }

    /** `matches($actual)`: walks the extracted report line by line and
        column by column against the expected one and rejects on the
        first difference. */
    method Matches(actual: Subject) returns (r: bool)
      requires Valid()
      ensures r <==> actual.ArrayValue? && Extracted(actual.lines) == messages
      ensures actual.NonArray? ==> !r
      ensures actual.ArrayValue? && LineKeys(actual.lines) != LineKeys(messages) ==> !r
      ensures actual.ArrayValue? ==>
                forall i | 0 <= i < |actual.lines| && i < |messages| ::
                  ColumnKeys(actual.lines[i].columns) != ColumnKeys(messages[i].columns) ==> !r
      ensures actual.ArrayValue? ==>
                forall i, j | 0 <= i < |actual.lines| && i < |messages|
                            && 0 <= j < |actual.lines[i].columns| && j < |messages[i].columns| ::
                  Sort(MessageTexts(actual.lines[i].columns[j].items)) != messages[i].columns[j].items ==> !r
    {
      if actual.NonArray? {
        return false;
      }
      var actualMessages := ExtractMessages(actual.lines);
      if LineKeys(actualMessages) != LineKeys(messages) {
        return false;
      }
      assert |actualMessages| == |messages| by {
        assert |LineKeys(actualMessages)| == |LineKeys(messages)|;
      }
      for i := 0 to |actualMessages|
        invariant actualMessages[..i] == messages[..i]
      {
        var actualLine := actualMessages[i];
        assert LineKeys(actualMessages)[i] == actualLine.line;
        IndexOfDistinct(LineKeys(messages), i);
        var expectedLine := messages[IndexOf(LineKeys(messages), actualLine.line)];
        assert expectedLine == messages[i];
        if ColumnKeys(actualLine.columns) != ColumnKeys(expectedLine.columns) {
          assert actualMessages[i] != messages[i];
          return false;
        }
        var sameColumns := ColumnsMatch(actualLine.columns, expectedLine.columns);
        if !sameColumns {
          assert actualMessages[i] != messages[i];
          return false;
        }
        assert actualLine == expectedLine;
      }
      assert actualMessages == actualMessages[..|actualMessages|];
      assert messages == messages[..|messages|];
      ExtractedAgrees(actual.lines, messages);
      return true;
    }

    /** The inner loop of `matches`: the columns of one line, which have
        the expected keys in the expected order, compared one by one. */
    static method ColumnsMatch(actualLine: seq<Column<string>>, expectedLine: seq<Column<string>>)
      returns (same: bool)
      requires ColumnKeys(actualLine) == ColumnKeys(expectedLine)
      requires Distinct(ColumnKeys(expectedLine))
      ensures same <==> actualLine == expectedLine
    {
      assert |actualLine| == |expectedLine| by {
        assert |ColumnKeys(actualLine)| == |ColumnKeys(expectedLine)|;
      }
      for j := 0 to |actualLine|
        invariant actualLine[..j] == expectedLine[..j]
      {
        var actualColumn := actualLine[j];
        assert ColumnKeys(actualLine)[j] == actualColumn.col;
        IndexOfDistinct(ColumnKeys(expectedLine), j);
        var expectedColumn := expectedLine[IndexOf(ColumnKeys(expectedLine), actualColumn.col)];
        assert expectedColumn == expectedLine[j];
        if actualColumn.items != expectedColumn.items {
          return false;
        }
        assert ColumnKeys(expectedLine)[j] == expectedColumn.col;
        assert actualLine[..j + 1] == actualLine[..j] + [actualColumn];
        assert expectedLine[..j + 1] == expectedLine[..j] + [expectedColumn];
      }
      assert actualLine == actualLine[..|actualLine|];
      assert expectedLine == expectedLine[..|expectedLine|];
      return true;
    }

    /** `extractMessages($actual)` */
    static method ExtractMessages(actual: Report<Message>) returns (extractedMessages: Report<string>)
      ensures extractedMessages == Extracted(actual)
    {
      extractedMessages := [];
      for i := 0 to |actual|
        invariant |extractedMessages| == i
        invariant forall k :: 0 <= k < i ==> extractedMessages[k] == ExtractLine(actual[k])
      {
        var lineMessages := actual[i];
        var columns: seq<Column<string>> := [];
        for j := 0 to |lineMessages.columns|
          invariant |columns| == j
          invariant forall k :: 0 <= k < j ==> columns[k] == ExtractColumn(lineMessages.columns[k])
        {
          var columnMessages := lineMessages.columns[j];
          var sortedMessages := MessageTexts(columnMessages.items);
          sortedMessages := Sort(sortedMessages);
          columns := columns + [Column(columnMessages.col, sortedMessages)];
        }
        assert Line(lineMessages.line, columns) == ExtractLine(lineMessages);
        extractedMessages := extractedMessages + [Line(lineMessages.line, columns)];
      }
    }

    /** `normaliseExpectedMessages($messages)` */
    static method NormaliseExpectedMessages(expected: Report<string>) returns (result: Report<string>)
      ensures result == Normalised(expected)
    {
      result := [];
      for i := 0 to |expected|
        invariant |result| == i
        invariant forall k :: 0 <= k < i ==> result[k] == NormaliseLine(expected[k])
      {
        var lineMessages := expected[i];
        var columns: seq<Column<string>> := [];
        for j := 0 to |lineMessages.columns|
          invariant |columns| == j
          invariant forall k :: 0 <= k < j ==> columns[k] == NormaliseColumn(lineMessages.columns[k])
        {
          var columnMessages := lineMessages.columns[j];
          var sortedMessages := columnMessages.items;
          sortedMessages := Sort(sortedMessages);
          columns := columns + [Column(columnMessages.col, sortedMessages)];
        }
        assert Line(lineMessages.line, columns) == NormaliseLine(lineMessages);
        result := result + [Line(lineMessages.line, columns)];
      }
    }
  }

  /** A report whose extraction equals `expected` has its line keys, its
      column keys and, at each column, its ordered messages. */
  lemma ExtractedAgrees(actual: Report<Message>, expected: Report<string>)
    requires Extracted(actual) == expected
    ensures LineKeys(actual) == LineKeys(expected)
    ensures forall i | 0 <= i < |actual| && i < |expected| ::
              ColumnKeys(actual[i].columns) == ColumnKeys(expected[i].columns)
    ensures forall i, j | 0 <= i < |actual| && i < |expected|
                        && 0 <= j < |actual[i].columns| && j < |expected[i].columns| ::
              Sort(MessageTexts(actual[i].columns[j].items)) == expected[i].columns[j].items
  {
    forall i, j | 0 <= i < |actual| && i < |expected|
                && 0 <= j < |actual[i].columns| && j < |expected[i].columns|
      ensures Sort(MessageTexts(actual[i].columns[j].items)) == expected[i].columns[j].items
    {
      assert expected[i] == ExtractLine(actual[i]);
    }
  }

  lemma SameShapeWellFormed<T, U>(a: Report<T>, b: Report<U>)
    requires SameShape(a, b) && WellFormed(a)
    ensures WellFormed(b)
  {
  }

  /** The verdict of `assertThat($actual, new ArrayMatchesMessages($expected))`. */
  ghost predicate MatchesExpected(actual: Subject, expected: Report<string>)
  {
    actual.ArrayValue? && Extracted(actual.lines) == Normalised(expected)
  }

  /** Each column of the report holds exactly the expected messages,
      counted with multiplicity. */
  ghost predicate SameMessages(actual: Report<Message>, expected: Report<string>)
    requires SameShape(actual, expected)
  {
    forall i, j | 0 <= i < |actual| && 0 <= j < |actual[i].columns| ::
      multiset(MessageTexts(actual[i].columns[j].items)) == multiset(expected[i].columns[j].items)
  }

  /** The report matches exactly when it has the expected lines and
      columns, in the expected order, and at each column the expected
      messages in some order, each as many times as expected. */
  lemma MatchesExpectedIff(actual: Report<Message>, expected: Report<string>)
    ensures MatchesExpected(ArrayValue(actual), expected)
        <==> SameShape(actual, expected) && SameMessages(actual, expected)
  {
    var x, n := Extracted(actual), Normalised(expected);
    if x == n {
      assert LineKeys(actual) == LineKeys(x);
    }
    if SameShape(actual, expected) && SameMessages(actual, expected) {
      assert |x| == |n|;
      forall i | 0 <= i < |x| ensures x[i] == n[i] {
        assert x[i].line == n[i].line by {
          assert LineKeys(x)[i] == LineKeys(n)[i];
        }
        assert |x[i].columns| == |n[i].columns| by {
          assert |ColumnKeys(x[i].columns)| == |ColumnKeys(n[i].columns)|;
        }
        forall j | 0 <= j < |x[i].columns| ensures x[i].columns[j] == n[i].columns[j] {
          assert x[i].columns[j].col == n[i].columns[j].col by {
            assert ColumnKeys(x[i].columns)[j] == ColumnKeys(n[i].columns)[j];
          }
          SortedUnique(x[i].columns[j].items, n[i].columns[j].items);
        }
      }
    }
  }

  /** Reordering the messages inside any column of the report or of the
      expectation does not change the verdict. */
  lemma MatchIgnoresOrderWithinColumns(actual: Report<Message>, actual': Report<Message>,
                                       expected: Report<string>, expected': Report<string>)
    requires SameShape(actual, actual') && SameShape(expected, expected')
    requires forall i, j | 0 <= i < |actual| && 0 <= j < |actual[i].columns| ::
               multiset(MessageTexts(actual[i].columns[j].items))
               == multiset(MessageTexts(actual'[i].columns[j].items))
    requires forall i, j | 0 <= i < |expected| && 0 <= j < |expected[i].columns| ::
               multiset(expected[i].columns[j].items) == multiset(expected'[i].columns[j].items)
    ensures MatchesExpected(ArrayValue(actual), expected) == MatchesExpected(ArrayValue(actual'), expected')
  {
    MatchesExpectedIff(actual, expected);
    MatchesExpectedIff(actual', expected');
    assert |actual| == |actual'| by { assert |LineKeys(actual)| == |LineKeys(actual')|; }
    assert |expected| == |expected'| by { assert |LineKeys(expected)| == |LineKeys(expected')|; }
    forall i | 0 <= i < |actual|
      ensures |actual[i].columns| == |actual'[i].columns|
    {
      assert |ColumnKeys(actual[i].columns)| == |ColumnKeys(actual'[i].columns)|;
    }
    forall i | 0 <= i < |expected|
      ensures |expected[i].columns| == |expected'[i].columns|
    {
      assert |ColumnKeys(expected[i].columns)| == |ColumnKeys(expected'[i].columns)|;
    }
  }

  /** Two identical messages at one place do not match a single expected
      one: duplicates are counted, not merged. */
  lemma DuplicatesAreCounted(y: int, x: int, m: Message)
    ensures !MatchesExpected(ArrayValue([Line(y, [Column(x, [m, m])])]), [Line(y, [Column(x, [m.message])])])
  {
    var x' := Extracted([Line(y, [Column(x, [m, m])])]);
    var n := Normalised([Line(y, [Column(x, [m.message])])]);
    assert |x'[0].columns[0].items| == 2;
    assert |n[0].columns[0].items| == 1 by {
      assert multiset(n[0].columns[0].items) == multiset{m.message};
    }
  }
}
