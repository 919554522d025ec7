# JSON Reader: a verified model of its extraction, formatting and display logic

JSON Reader is a small Qt desktop application. A "Load JSON" button opens a
file, and the program reads the fixed schema below from the file:

```
{ "NumberOfPositions": n, "Position0": {"x": .., "y": ..}, "Position1": {..}, .. }
```

It shows the number of positions and the combined `x` and `y` values in a
read-only text area. Each result follows a newline and a rule of 30 asterisks.
When the checkbox "Clear text on opening file" is checked, the earlier text
is cleared first.

This project models the logic of `mainwindow.cpp` in Dafny:

- `json.dfy` (module `Json`): a parsed JSON value, and the three Qt accessors
  the program uses. `value(key)` gives Undefined when the key is absent.
  `toObject()` gives an empty object for anything that is not an object.
  `toInt()` returns an integral number that fits in a C++ `int`, and 0 for
  anything else.
- `decimal.dfy` (module `Decimal`): base-10 rendering of integers, as
  `QString::arg` writes them. It comes with a reader that inverts it.
- `extractor.dfy` (module `Extractor`): `parseJSON`. `Extract` is the
  specification function. `ParseJson` is the source's counting loop, proved
  against `Extract`. The lemmas state what a document yields.
- `formatter.dfy` (module `Formatter`): `toMessage`, plus `ReadMessage`, a
  reader that recovers the triple from the text.
- `display.dfy` (module `Display`): what one `showText` call does to the
  displayed text (`AfterShow`), and what a series of calls does (`Replay`).
- `window.dfy` (module `Window`): class `MainWindow`, which holds the display
  text and the checkbox state. `ShowText` updates the text in the same steps
  as the source. `OnLoadClicked` composes extractor, formatter and sink.

The input to the model is the outcome of parsing: `None` when the text is not
valid JSON, otherwise the document. The extractor returns `(-1, -1, -1)` for
`None`. It never returns that triple for a document that parses: a count of
-1 gives sums of 0. The formatter tests only whether the count is above -1.
So a document that parses with a negative "NumberOfPositions" is also
reported as "This is not a valid JSON document!". The model keeps this
behaviour and proves it (`Window.NegativeCountReportedInvalid`). A missing
position object, or a missing or non-integral `x` or `y`, counts as 0. The
declared count is never checked against the positions that are present.

## Model

| member | source | states |
|---|---|---|
| `Json.ToInt` | mainwindow.cpp:55 | the result fits in a C++ `int`; an integral number in that range converts to itself; any non-zero result is that number, so absent, non-numeric and out-of-range values give 0 |
| `Json.Value` | mainwindow.cpp:61 | looking up a key gives the member stored under it, or Undefined when the object has no such key |
| `Json.ToObject` | mainwindow.cpp:64 | an object converts to its own members; any other value (including Undefined) converts to the empty object, as `doc.object()` does for the root at line 52 |
| `Decimal.NatToDecimal` | mainwindow.cpp:60 | the index written into a position key is a non-empty digit string with no leading zero unless it is "0" |
| `Decimal.IntToDecimal` | mainwindow.cpp:91-93 | a number in a message starts with '-' exactly when it is negative, and its digits are in canonical form |
| `Decimal.DecimalValueOfNatToDecimal` | mainwindow.cpp:60 | reading the rendered digits back gives the number |
| `Decimal.NatToDecimalOfDecimalValue` | mainwindow.cpp:60 | every canonical digit string is the rendering of the number it denotes, so rendering is a bijection onto canonical strings |
| `Decimal.NatToDecimalInjective` | mainwindow.cpp:60 | two numbers have the same rendering iff they are equal |
| `Decimal.ReadIntOfIntToDecimal` | mainwindow.cpp:91-93 | reading a rendered integer followed by a non-digit gives that integer and the rest of the text |
| `Extractor.PositionKey` | mainwindow.cpp:60 | the key is "Position" followed by the canonical digit string (no leading zero) that reads back as the index, so the key is unique for each index |
| `Extractor.Count` | mainwindow.cpp:54-55 | the count fits in a C++ `int`; an integral in-range "NumberOfPositions" is the count; any non-zero count is that member's value |
| `Extractor.Coordinate` | mainwindow.cpp:61-66 | a position's x or y fits in a C++ `int`; when "Position"+i is an object whose member is an integral number in `int` range, it is that number; otherwise (absent key, non-object, absent or non-integral member) it is 0 |
| `Extractor.Extract` | mainwindow.cpp:42-77 | the result is the sentinel (-1,-1,-1) iff the text did not parse; on a parse its first component is the count, and both sums are 0 when the count is 0 or less |
| `Extractor.ParseJson` | mainwindow.cpp:42-77 | the loop computes `Extract`; the result is the sentinel (-1,-1,-1) iff the text did not parse; a parsed document with a count of 0 or less has both sums 0 |
| `Extractor.PositionKeyInjective` | mainwindow.cpp:60-61 | "Position"+i and "Position"+j are the same key iff i = j |
| `Extractor.CountMissingOrNotInteger` | mainwindow.cpp:54-55 | a parsed document whose "NumberOfPositions" is absent or not an integral number gives (0, 0, 0) |
| `Extractor.ConformingDocument` | mainwindow.cpp:53-73 | a document that follows the schema for positions (xs[i], ys[i]) gives (n, sum of xs, sum of ys) |
| `Extractor.OnlySchemaKeysMatter` | mainwindow.cpp:54-61 | two documents that agree on "NumberOfPositions" and on the keys Position0..Position(n-1) give the same result, so every other key is ignored |
| `Extractor.MissingPositionCountsAsZero` | mainwindow.cpp:58-70 | deleting "Position" + j for j < n keeps the count and removes exactly that position's x and y from the sums |
| `Extractor.NoPositions` | mainwindow.cpp:58-73 | {"NumberOfPositions": 0} gives (0, 0, 0) |
| `Extractor.TwoPositions` | mainwindow.cpp:58-73 | two positions (1,2) and (3,4) give (2, 4, 6) |
| `Extractor.SecondPositionMissing` | mainwindow.cpp:58-73 | a count of 2 with only Position0 = (1,2) gives (2, 1, 2) |
| `Extractor.SecondXNotANumber` | mainwindow.cpp:58-70 | a count of 2 with Position0 = (1,2) and Position1 = {x: non-number, y: 3} gives (2, 1, 5): only the bad member counts as 0 |
| `Formatter.ToMessage` | mainwindow.cpp:80-96 | the message is the invalid-document text iff the count is -1 or less; otherwise it starts with the "Number of Elements" line |
| `Formatter.ReadMessageOfToMessage` | mainwindow.cpp:85-93 | reading a message back gives exactly (count, sum x, sum y) when the count is above -1, and the invalid-document verdict otherwise |
| `Formatter.ToMessageInjective` | mainwindow.cpp:85-93 | two summary messages are equal iff their triples are equal |
| `Formatter.SpecimenInvalid` | mainwindow.cpp:82 | the sentinel gives exactly "\nThis is not a valid JSON document!" |
| `Formatter.SpecimenSummary` | mainwindow.cpp:91-93 | (2, 4, 6) gives exactly "\nNumber of Elements: 2\nCombined value of X: 4\nCombined value of Y: 6" |
| `Display.Repeat` | mainwindow.cpp:102-103 | the rule has exactly n characters, all of them the repeated one |
| `Display.Separator` | mainwindow.cpp:101-103 | the separator is a newline followed by exactly 30 asterisks |
| `Display.AfterShow` | mainwindow.cpp:98-112 | with clearing, the text becomes the message alone; without it, the old text stays a prefix and is followed by the separator and the message |
| `Display.ReplayWithoutClearing` | mainwindow.cpp:101-111 | a series of calls without clearing keeps the earlier text and appends each message after its own separator, in order |
| `Display.ReplayFromLastClear` | mainwindow.cpp:101-111 | after a series of calls the text is the message of the last clearing call followed by the later blocks; nothing earlier survives, not even that call's separator |
| `Display.TwoShowsKeepBoth` | mainwindow.cpp:101-111 | two calls without clearing leave both messages on display, each after a separator |
| `Window.MainWindow.constructor` | mainwindow.cpp:19-22 | a new window has an empty display and an unchecked checkbox |
| `Window.MainWindow.ShowText` | mainwindow.cpp:98-112 | the text after the call is `AfterShow` of the text before it; with the box checked it is the message alone, otherwise the old text, the separator and the message |
| `Window.MainWindow.OnLoadClicked` | mainwindow.cpp:114-135 | a cancelled dialog leaves the text unchanged; a chosen file shows the message for its parse outcome |
| `Window.LoadMessage` | mainwindow.cpp:132 | the message shown is the invalid-document text iff the text did not parse or the parsed document declares a negative count |
| `Window.UnparsableReportedInvalid` | mainwindow.cpp:82-85 | text that does not parse is shown as "not a valid JSON document" |
| `Window.ParsedDocumentReported` | mainwindow.cpp:85-93 | a parsed document with a count of 0 or more is shown with exactly its count and its two sums |
| `Window.NegativeCountReportedInvalid` | mainwindow.cpp:85 | a parsed document with a negative count is also shown as "not a valid JSON document" |

## Left out

- The JSON text parser (`QJsonDocument::fromJson`, mainwindow.cpp:49) is a foreign library. The model takes its outcome as input: `None` for a parse error, otherwise the document.
- `QJsonValue::toInt` on non-integral numbers: such numbers are modelled as `Other`, which converts to 0 as Qt converts them.
- C++ `int` overflow of the two sums (mainwindow.cpp:69-70) is undefined behaviour. The sums are mathematical integers.
- The file dialog and reading the file (mainwindow.cpp:117-129) are I/O. A cancelled dialog is `FileChoice.Cancelled`. A chosen file is represented by the parse outcome of its contents.
- Widget construction, layout, signal and slot wiring and the window title (mainwindow.cpp:8-34) are UI. Only the initial display text and checkbox state are modelled.
- `tr()` is taken as the identity. The text cursor is assumed to stay at the end of the display, so every insertion appends.
- The user toggling the checkbox is not an operation of the source. The model reads `clearOnLoad` as whatever state the field holds.
- mainwindow.h holds only declarations and is not part of this model.
