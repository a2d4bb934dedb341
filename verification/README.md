# VariableAnalysis for PHP_CodeSniffer — record and test-harness model

VariableAnalysis is a PHP_CodeSniffer sniff that reports unused and
undefined variables in PHP code. This project models three small pieces of
its code in Dafny:

- **`VariableInfo`** (`variable_info.dfy`, module `Scope`). This is the
  record the sniff keeps for each variable of a scope. It holds the name,
  the scope type, the type hint, the by-reference flag, and the first
  declared, initialized and read positions. It also holds the ignore flag
  and the member visibility. The record is a class with mutable fields,
  because the sniff updates them in place. The scope-type description
  table is a pure function. It has an inverse, and a lemma proves that no
  two scope types share a description. `IsIgnoreUnused` is a predicate
  that reads the record.
- **`ArrayMatchesMessages`** (`array_matches_messages.dfy`, module
  `Constraint`). This test constraint compares the warnings or errors
  PHP_CodeSniffer reports, `line => column => [diagnostic, ...]`, with the
  expected `line => column => [message, ...]`. The constructor normalises
  the expected messages and stores them. `Matches` walks the extracted
  report against them in nested loops and returns false at the first
  difference. The inner loop over one line's columns is the method
  `ColumnsMatch`. `ExtractMessages` and `NormaliseExpectedMessages` build
  their results in nested loops, as the PHP does. Each method is proved
  against a specification function (`Extracted`, `Normalised`). Lemmas
  characterise the verdict exactly. Matching succeeds iff the lines and
  the columns come in the expected order and each column holds the
  expected messages as a multiset.
- **Two helpers of the unit test** (`unit_test_helpers.dfy`, module
  `UnitTestHelpers`). `Offset` moves every expected entry from `(y, x)` to
  `(y + line, x + column)`. `InsertBeforeAndAfter` fills a template's
  `BEFORE` and `AFTER` markers.

Shared pieces:

- `reports.dfy` (module `Reports`) models the nested PHP array as a
  sequence of keyed entries. A PHP array keeps insertion order and never
  repeats a key. `WellFormed` states that no key repeats. `IndexOf` is the
  lookup `$array[$key]`.
- `php.dfy` (module `Php`) models two PHP built-ins on strings. `Sort` is
  `sort()`: an ordered permutation, under byte-wise (strcmp) order.
  `SortedUnique` proves that the result does not depend on the sorting
  algorithm. `StrReplace` is `str_replace()`: it replaces every
  non-overlapping occurrence, scanning left to right.
- `wrappers.dfy` defines `Option`, which stands for PHP's `null`.

The `$scopeType` docblock (VariableInfo.php:28-30) lists five scope
types. The description table (VariableInfo.php:40-47) has a sixth entry,
`instance => "instance variable"`. `ScopeType` follows the table.

## Model

| member | source | states |
|---|---|---|
| `Scope.VariableInfo.constructor` | VariableAnalysis/Scope/VariableInfo.php:27-57 | A new record holds the given name. Its scope type, type hint, positions and visibility are unset. `passByReference` and `ignoreUnused` are false. |
| `Scope.VariableInfo.IsIgnoreUnused` | VariableAnalysis/Scope/VariableInfo.php:49-53 | True whenever `ignoreUnused` is set, whatever the visibility. True for public or protected visibility even when the flag is false. False exactly when the flag is false and the visibility is unset or private. It only reads the record. |
| `Scope.ScopeTypeDescription` | VariableAnalysis/Scope/VariableInfo.php:40-47 | Each of the six scope types maps to its text in the table. Every description ends in "variable", except the parameter's, which ends in "parameter". Every type other than a local one has a non-empty qualifier and a space in front of that word. |
| `Scope.DescribedScopeType` | VariableAnalysis/Scope/VariableInfo.php:40-47 | This is the inverse of the description table. It returns `Some(t)` exactly when `t`'s description is the given text, and None for any other text. |
| `Scope.DescriptionsDistinct` | VariableAnalysis/Scope/VariableInfo.php:40-47 | All six scope types have a description, and reading it back gives the same type. Two different scope types never share a description. |
| `Reports.IndexOf` | VariableAnalysis/Tests/Constraint/ArrayMatchesMessages.php:98-104 | The lookup `$array[$key]` of a key that is present finds the first entry with that key. |
| `Php.Sort` | VariableAnalysis/Tests/Constraint/ArrayMatchesMessages.php:142 | `sort()` returns an ordered permutation of its input with the same length. |
| `Php.SortedUnique` | VariableAnalysis/Tests/Constraint/ArrayMatchesMessages.php:142-155 | Two ordered lists with the same multiset of messages are equal. So a sorted column depends only on which messages it holds, and how many times. |
| `Constraint.Extracted` | VariableAnalysis/Tests/Constraint/ArrayMatchesMessages.php:130-147 | Extraction keeps every line key and every column key, in order. Each column becomes a sorted permutation of its items' `message` fields, of the same length. |
| `Constraint.Normalised` | VariableAnalysis/Tests/Constraint/ArrayMatchesMessages.php:149-160 | Normalisation keeps every line key and every column key, in order. Each column list becomes a sorted permutation of itself. |
| `Constraint.ArrayMatchesMessages.ExtractMessages` | VariableAnalysis/Tests/Constraint/ArrayMatchesMessages.php:130-147 | The nested loops build exactly `Extracted(actual)`. |
| `Constraint.ArrayMatchesMessages.NormaliseExpectedMessages` | VariableAnalysis/Tests/Constraint/ArrayMatchesMessages.php:149-160 | The nested loops build exactly `Normalised(expected)`. |
| `Constraint.ArrayMatchesMessages.constructor` | VariableAnalysis/Tests/Constraint/ArrayMatchesMessages.php:61-65 | The constraint stores the normalised expected messages, which are again a PHP array. |
| `Constraint.ArrayMatchesMessages.Matches` | VariableAnalysis/Tests/Constraint/ArrayMatchesMessages.php:86-112 | The result is true exactly when `actual` is an array whose extraction equals the stored messages. A non-array never matches. A different ordered line-key list rejects, so does a missing or extra line. A line whose ordered column keys differ rejects. A column whose sorted messages differ rejects. |
| `Constraint.ArrayMatchesMessages.ColumnsMatch` | VariableAnalysis/Tests/Constraint/ArrayMatchesMessages.php:103-108 | The column-by-column walk of one line returns true exactly when the two lines' columns are equal. Each column is looked up by its key. |
| `Constraint.ExtractedAgrees` | VariableAnalysis/Tests/Constraint/ArrayMatchesMessages.php:94-107 | When the extraction equals the expectation, all three comparisons of `matches` succeed: line keys, column keys per line, and sorted messages per column. |
| `Constraint.MatchesExpectedIff` | VariableAnalysis/Tests/Constraint/ArrayMatchesMessages.php:86-160 | Constructing the constraint and matching accepts `actual` iff two things hold. It has the expected lines and, per line, the expected columns, both in order. Each column holds the expected messages as a multiset, duplicates counted. |
| `Constraint.MatchIgnoresOrderWithinColumns` | VariableAnalysis/Tests/Constraint/ArrayMatchesMessages.php:136-156 | Permuting the messages inside any column of `actual` or of `expected` does not change the verdict. |
| `Constraint.DuplicatesAreCounted` | VariableAnalysis/Tests/Constraint/ArrayMatchesMessages.php:104-107 | Two identical messages at one column do not match a single expected one. |
| `UnitTestHelpers.Shifted` | VariableAnalysis/Tests/VariableAnalysis/VariableAnalysisUnitTest.php:161-170 | An offset map has as many lines as the input, and as many columns on each line. Each column's message list is unchanged. An empty map stays empty. |
| `UnitTestHelpers.Offset` | VariableAnalysis/Tests/VariableAnalysis/VariableAnalysisUnitTest.php:161-170 | The nested loops build exactly `Shifted(expectedMessages, line, column)`. |
| `UnitTestHelpers.ShiftedAt` | VariableAnalysis/Tests/VariableAnalysis/VariableAnalysisUnitTest.php:161-170 | The entry at `(y, x)` of the result is the entry at `(y - line, x - column)` of the input. So every entry moves to `(y + line, x + column)`, and no entry is lost or added. |
| `UnitTestHelpers.ShiftedWellFormed` | VariableAnalysis/Tests/VariableAnalysis/VariableAnalysisUnitTest.php:162-169 | Distinct keys stay distinct, so the result is again a PHP array. |
| `UnitTestHelpers.ShiftedByZero` | VariableAnalysis/Tests/VariableAnalysis/VariableAnalysisUnitTest.php:161-170 | An offset of (0, 0) is the identity. |
| `UnitTestHelpers.ShiftedTwice` | VariableAnalysis/Tests/VariableAnalysis/VariableAnalysisUnitTest.php:161-170 | Offsetting by (a, b) and then by (c, d) is offsetting by (a + c, b + d). |
| `Php.StrReplace` | VariableAnalysis/Tests/VariableAnalysis/VariableAnalysisUnitTest.php:108-113 | `str_replace` replaces every non-overlapping occurrence, scanning left to right, and does not rescan the text it has put in; `Php.StrReplaceFirst` states that scan. The contract itself says: an empty search leaves the subject unchanged. A replacement no longer than the search never lengthens the subject, and one no shorter never shortens it. |
| `Php.StrReplaceAbsent` | VariableAnalysis/Tests/VariableAnalysis/VariableAnalysisUnitTest.php:108-113 | `str_replace` returns a subject with no occurrence of the search string unchanged. |
| `Php.StrReplaceFirst` | VariableAnalysis/Tests/VariableAnalysis/VariableAnalysisUnitTest.php:108-113 | The search string's first character may not recur inside it. Then in `a + search + b`, with no occurrence in `a`, that occurrence is replaced and the scan continues in `b`. |
| `UnitTestHelpers.InsertBeforeAndAfter` | VariableAnalysis/Tests/VariableAnalysis/VariableAnalysisUnitTest.php:107-116 | A template with neither marker comes back unchanged in both results. With empty code, the two results are equal. |
| `UnitTestHelpers.InsertIntoTemplate` | VariableAnalysis/Tests/VariableAnalysis/VariableAnalysisUnitTest.php:107-116 | Take a template `prefix BEFORE middle AFTER suffix` with no other marker, and code that forms none. The first result is `prefix code middle suffix`, the second is `prefix middle code suffix`. |

## Left out

- The variable-analysis engine itself is not part of this model: the scope stack, the occurrence classifiers, the unused/undefined finalisation, and the redeclaration warnings it builds from the description table. Its source is not among the modelled files.
- `ArrayMatchesMessages::toString` and `failureDescription` are left out. They only format text through PHPUnit's exporter, which is a foreign library.
- The unit test's `dummyFile`, `setUpBeforeClass`, `setUp`, `tearDown`, `assertWarningsMatch`, `assertErrorsMatch` and the test methods are left out. They drive PHP_CodeSniffer's `Config`, `Ruleset` and `DummyFile` and PHPUnit, which are foreign code.
- `phpunit-bootstrap.php` and `autoload.php` are left out. They are environment probing and class loading.
- PHP loose comparison is not modelled. Keys are integers, so `!=` on the key lists is plain equality. `!=` on two message lists compares numeric strings as numbers (`"10" == "1e1"`). The model uses plain equality, which agrees with PHP only because diagnostic messages are never numeric strings. `Visibility` admits only the three visibility tokens, so the loose `in_array` at VariableInfo.php:52 becomes membership in {Public, Protected}.
- `Php.Sort` orders by character code, which is byte-wise strcmp order. PHP's default `sort()` flag compares two numeric strings as numbers. Diagnostic messages are never numeric strings, so that case is left out.
- `Constraint.ArrayMatchesMessages.constructor` requires the expected array to have distinct keys. Every PHP array has distinct keys, so this only restates what the representation cannot express by itself. `Matches` relies on the same property of the stored messages through `Valid()`.
- `Constraint.Message` keeps `message`, `source`, `listener`, `severity` and `fixable` as record fields, not as a PHP array with string keys. So a diagnostic without a `message` key is not modelled.
- Positions in `Scope.VariableInfo` are token indices (`nat`), not (line, column) pairs. The class only stores them.
