# Customer record form of AcompanhamentoCelesc, in Dafny

This project models the data logic of a desktop form. The form keeps the records of solar-installation customers (`Cliente`), each with consumer units and inverters. It covers:

- the three input masks that display CPF, CNPJ and date values with separators, and their caret offset maps;
- the record types and their default values;
- required-field validation and the save button;
- the upsert by customer id that rewrites the stored list;
- the case-insensitive search of the customer list;
- the digit filters of the form fields and the choice of CPF or CNPJ mask;
- the edit and append operations on the consumer-unit and inverter lists.

Modules:

- `Text`: shared string helpers, namely `take`/`drop`, `isDigit`, `filter { isDigit }`, `isBlank` and a case-insensitive `contains`.
- `Punctuation`: the append loop that the CPF and CNPJ masks share:

  ```
  for i: formatted += raw[i]; formatted += separator(i)
  ```

  It has a separator table as a parameter.
- `CpfVisualTransformation`, `CnpjVisualTransformation`, `DateVisualTransformation`: the three masks.
- `ClienteRecords`: `Cliente.kt`.
- `Validation`, `ClientStore`, `ClientSearch`, `FormSection`: the pieces of `Main.kt`.

Each mask is modelled the same way:

- `Format` is the display text.
- For CPF and CNPJ, a `Filter` method runs the source's loop and is proved equal to `Format`.
- The offset maps have the source's breakpoints and offsets, computed on unbounded integers (see "## Left out").
- The lemmas relate them to one another. The display of the first `o` raw characters is a prefix of the display and ends at `OriginalToTransformed(o)`.
- The CPF and CNPJ modules mirror the two Kotlin classes, which repeat the same loop with different constants. The loop and its generic facts live once in `Punctuation`. The per-mask lemmas (`OffsetSteps`, `SeparatorsHaveNoDigits`, `FormatCaret`, `FormatPlacesRaw`, `AlignedBrackets`, `CaretCount`) restate them for each class's own separator table and offset maps, so their proofs read alike.

The data file is modelled by what reading it yields (`Missing`, `Unparsable` or `Stored(records)`). `saveClientData` is modelled as the list it writes back.

## Model

| member | source | states |
|---|---|---|
| Text.KeepDigits | src/main/kotlin/Main.kt:147 | `filter { isDigit }` keeps only digits, is no longer than its input and leaves a digits-only string unchanged |
| Text.KeepDigitsSubsequence | src/main/kotlin/Main.kt:147 | the kept digits are a subsequence of the input, in order |
| Text.KeepDigitsCounts | src/main/kotlin/Main.kt:289 | `filter { isDigit }` keeps each digit exactly as often as the input holds it, and no other character |
| Text.KeepDigitsAppend | src/main/kotlin/Main.kt:289 | filtering a concatenation filters each part |
| Text.KeepDigitsOfSingle | src/main/kotlin/Main.kt:289 | a one-character string keeps its character exactly when it is a digit |
| Text.KeepDigitsSkips | src/main/kotlin/Main.kt:683 | `filter { isDigit }` drops a non-digit between two texts and keeps the rest; used to strip the date mask's slashes |
| Text.IsDigit | src/main/kotlin/Main.kt:147 | `isDigit`, ASCII digits only; no contract of its own (a predicate) |
| Text.IsWhitespace | src/main/kotlin/Main.kt:615 | Kotlin's `Char.isWhitespace` by code point; no contract of its own (a predicate) |
| Text.IsBlank | src/main/kotlin/Main.kt:615-617 | `isBlank`: every character is whitespace, so the empty string is blank; no contract of its own, used by `RequiredFieldErrors` |
| Text.Take | src/main/kotlin/Main.kt:147 | `take(k)`: the first `min(k, |s|)` elements |
| Text.Drop | src/main/kotlin/DateVisualTransformation.kt:13-15 | `drop(k)`: all but the first `min(k, |s|)` elements |
| Text.LowerAscii | src/main/kotlin/Main.kt:522-523 | the case fold behind `ignoreCase = true`: each upper-case ASCII letter maps to its own lower-case letter (32 code points on), every other character to itself |
| Text.SameIgnoringCase | src/main/kotlin/Main.kt:522-523 | two characters equal under that fold; a predicate, no contract of its own |
| Text.SearchFrom | src/main/kotlin/Main.kt:522-523 | the scan behind `contains(…, ignoreCase = true)`: true exactly when the query matches, ignoring case, at some index from `start` on |
| Text.ContainsIgnoringCase | src/main/kotlin/Main.kt:522-523 | true exactly when the needle matches, ignoring case, at some position of the haystack |
| Punctuation.PunctuatePrefixLength | src/main/kotlin/CpfVisualTransformation.kt:10-18 | when an offset map advances by one plus the separator length per raw character, the display of the first `k` raw characters has length `offset(k)` |
| Punctuation.DigitsBeforeCaret | src/main/kotlin/CpfVisualTransformation.kt:10-18 | a display caret after raw character `k` (and before the next one) has exactly `k+1` digits before it |
| Punctuation.Punctuate | src/main/kotlin/CpfVisualTransformation.kt:10-18 | the append loop's result as a function of the raw text and the separator table; no contract of its own, properties in `PunctuateStep`, `PunctuatePrefixLength`, `PunctuateKeepDigits`, `DigitsBeforeCaret` |
| Punctuation.PunctuatePrefix | src/main/kotlin/CpfVisualTransformation.kt:10-18 | the display of a raw prefix is a prefix of the display |
| Punctuation.PunctuateAt | src/main/kotlin/CpfVisualTransformation.kt:11-17 | raw character i and its separator follow the display of the first i characters |
| Punctuation.PunctuateStep | src/main/kotlin/CpfVisualTransformation.kt:11-17 | one loop step appends the raw character and then its separator |
| Punctuation.PunctuateKeepDigits | src/main/kotlin/CpfVisualTransformation.kt:10-18 | with digit-free separators, the display has exactly the digits of the raw text |
| CpfVisualTransformation.Separator | src/main/kotlin/CpfVisualTransformation.kt:13-17 | the `when (i)`: `.` after 2 and 5, `-` after 8, nothing otherwise; no contract, used by `Filter` and `Format` |
| CpfVisualTransformation.OriginalToTransformed | src/main/kotlin/CpfVisualTransformation.kt:22-29 | as written, no contract; properties in `OriginalToTransformedIncreasing`, `RoundTrip`, `FormatCaret`, `FormatPlacesRaw` |
| CpfVisualTransformation.TransformedToOriginal | src/main/kotlin/CpfVisualTransformation.kt:32-39 | as written, no contract; properties in `RoundTrip`, `TransformedToOriginalMonotone`, `TransformedToOriginalRange`, `MisreadCaretsAreBeforeSeparators` |
| CpfVisualTransformation.Format | src/main/kotlin/CpfVisualTransformation.kt:9-18 | the display has length `originalToTransformed(n)` for the `n` kept characters, and the same digits as `take(11)` |
| CpfVisualTransformation.Filter | src/main/kotlin/CpfVisualTransformation.kt:9-18 | the append loop builds exactly the display text `Format` |
| CpfVisualTransformation.FormatTruncates | src/main/kotlin/CpfVisualTransformation.kt:9 | only the first 11 characters matter |
| CpfVisualTransformation.FormatLength | src/main/kotlin/CpfVisualTransformation.kt:10-18 | the length is n plus one for each of raw indices 2, 5 and 8 that is below n |
| CpfVisualTransformation.FormatCaret | src/main/kotlin/CpfVisualTransformation.kt:10-29 | the display of the first o raw characters is a prefix of the display, of length `originalToTransformed(o)` |
| CpfVisualTransformation.FormatPlacesRaw | src/main/kotlin/CpfVisualTransformation.kt:10-29 | raw character i is shown at display index `originalToTransformed(i)` |
| CpfVisualTransformation.FormatPlacesSeparators | src/main/kotlin/CpfVisualTransformation.kt:13-17 | `.` at display 3 once n > 2, `.` at 7 once n > 5, and `-` at 11 once n > 8 |
| CpfVisualTransformation.FormatStripsSeparators | src/main/kotlin/CpfVisualTransformation.kt:10-18 | removing the separators from the display of a digits-only value of up to 11 gives the value back |
| CpfVisualTransformation.FormatFullWidth | src/main/kotlin/CpfVisualTransformation.kt:9-18 | an input of 11 or more characters shows as `DDD.DDD.DDD-DD` over its first 11 |
| CpfVisualTransformation.FormatExampleFull | src/main/kotlin/CpfVisualTransformation.kt:10-18 | `12345678901` shows as `123.456.789-01` |
| CpfVisualTransformation.FormatExampleTrailingSeparator | src/main/kotlin/CpfVisualTransformation.kt:11-17 | `123` shows as `123.`, with a trailing separator |
| CpfVisualTransformation.OriginalToTransformedIncreasing | src/main/kotlin/CpfVisualTransformation.kt:22-29 | `originalToTransformed` is strictly increasing |
| CpfVisualTransformation.RoundTrip | src/main/kotlin/CpfVisualTransformation.kt:22-39 | `transformedToOriginal` undoes `originalToTransformed` at every offset |
| CpfVisualTransformation.TransformedToOriginalMonotone | src/main/kotlin/CpfVisualTransformation.kt:32-39 | `transformedToOriginal` is nondecreasing |
| CpfVisualTransformation.TransformedToOriginalRange | src/main/kotlin/CpfVisualTransformation.kt:32-39 | every caret of the display maps into `[0, n]` |
| CpfVisualTransformation.CaretBeforeSeparatorMisread | src/main/kotlin/CpfVisualTransformation.kt:32-35 | display caret 3 has three digits before it, yet it maps to raw offset 2 |
| CpfVisualTransformation.AlignedCountsRawBefore | src/main/kotlin/CpfVisualTransformation.kt:32-39 | with breakpoints 3/7/11, the display-to-raw map gives the number of raw characters before every caret |
| CpfVisualTransformation.AlignedBrackets | src/main/kotlin/CpfVisualTransformation.kt:22-29 | with breakpoints 3/7/11, each caret d > 0 lies after the display position of raw k-1 and no later than that of raw k, for k its mapped offset |
| CpfVisualTransformation.CaretCount | src/main/kotlin/CpfVisualTransformation.kt:10-29 | a caret between the display positions of raw k and k+1 lies in the display and has k+1 digits before it |
| CpfVisualTransformation.AlignedRoundTrip | src/main/kotlin/CpfVisualTransformation.kt:22-39 | the aligned map still undoes `originalToTransformed` |
| CpfVisualTransformation.MisreadCaretsAreBeforeSeparators | src/main/kotlin/CpfVisualTransformation.kt:32-39 | the map as written counts the raw characters before a caret exactly at the carets other than 3, 7 and 11 |
| CnpjVisualTransformation.Separator | src/main/kotlin/CnpjVisualTransformation.kt:12-17 | the `when (i)`: `.` after 1 and 4, `/` after 7, `-` after 11, nothing otherwise; no contract, used by `Filter` and `Format` |
| CnpjVisualTransformation.OriginalToTransformed | src/main/kotlin/CnpjVisualTransformation.kt:21-27 | as written, no contract; properties in `OriginalToTransformedIncreasing`, `RoundTrip`, `FormatCaret`, `FormatPlacesRaw` |
| CnpjVisualTransformation.TransformedToOriginal | src/main/kotlin/CnpjVisualTransformation.kt:29-35 | as written, no contract; properties in `RoundTrip`, `TransformedToOriginalMonotone`, `TransformedToOriginalRange`, `CaretBeforeDashMisread`, `MisreadCaretsAreBeforeSeparators` |
| CnpjVisualTransformation.Format | src/main/kotlin/CnpjVisualTransformation.kt:8-18 | the display has length `originalToTransformed(n)` and the same digits as `take(14)` |
| CnpjVisualTransformation.Filter | src/main/kotlin/CnpjVisualTransformation.kt:8-18 | the append loop builds exactly the display text `Format` |
| CnpjVisualTransformation.FormatTruncates | src/main/kotlin/CnpjVisualTransformation.kt:8 | only the first 14 characters matter |
| CnpjVisualTransformation.FormatLength | src/main/kotlin/CnpjVisualTransformation.kt:9-18 | the length is n plus one for each of raw indices 1, 4, 7 and 11 that is below n |
| CnpjVisualTransformation.FormatCaret | src/main/kotlin/CnpjVisualTransformation.kt:9-27 | the display of the first o raw characters is a prefix of the display, of length `originalToTransformed(o)` |
| CnpjVisualTransformation.FormatPlacesRaw | src/main/kotlin/CnpjVisualTransformation.kt:9-27 | raw character i is shown at display index `originalToTransformed(i)` |
| CnpjVisualTransformation.FormatPlacesSeparators | src/main/kotlin/CnpjVisualTransformation.kt:12-17 | `.` at display 2 once n > 1, `.` at 6 once n > 4, `/` at 10 once n > 7, and `-` at 15 once n > 11 |
| CnpjVisualTransformation.FormatStripsSeparators | src/main/kotlin/CnpjVisualTransformation.kt:9-18 | removing the separators from the display of a digits-only value of up to 14 gives the value back |
| CnpjVisualTransformation.FormatFullWidth | src/main/kotlin/CnpjVisualTransformation.kt:8-18 | an input of 14 or more characters shows as `DD.DDD.DDD/DDDD-DD` over its first 14 |
| CnpjVisualTransformation.FormatExampleFull | src/main/kotlin/CnpjVisualTransformation.kt:9-18 | `12345678000199` shows as `12.345.678/0001-99` |
| CnpjVisualTransformation.FormatExampleTrailingSeparator | src/main/kotlin/CnpjVisualTransformation.kt:10-17 | `12` shows as `12.` |
| CnpjVisualTransformation.OriginalToTransformedIncreasing | src/main/kotlin/CnpjVisualTransformation.kt:21-27 | `originalToTransformed` is strictly increasing |
| CnpjVisualTransformation.RoundTrip | src/main/kotlin/CnpjVisualTransformation.kt:21-35 | `transformedToOriginal` undoes `originalToTransformed` at every offset |
| CnpjVisualTransformation.TransformedToOriginalMonotone | src/main/kotlin/CnpjVisualTransformation.kt:29-35 | `transformedToOriginal` is nondecreasing |
| CnpjVisualTransformation.TransformedToOriginalRange | src/main/kotlin/CnpjVisualTransformation.kt:29-35 | every caret of the display maps into `[0, n]` |
| CnpjVisualTransformation.CaretBeforeDashMisread | src/main/kotlin/CnpjVisualTransformation.kt:33-34 | carets 14 and 15 both map to raw 11, though caret 15 has twelve digits before it |
| CnpjVisualTransformation.AlignedCountsRawBefore | src/main/kotlin/CnpjVisualTransformation.kt:29-35 | with the last breakpoint at 15, the display-to-raw map gives the number of raw characters before every caret |
| CnpjVisualTransformation.AlignedBrackets | src/main/kotlin/CnpjVisualTransformation.kt:21-27 | with the last breakpoint at 15, each caret d > 0 lies after the display position of raw k-1 and no later than that of raw k, for k its mapped offset |
| CnpjVisualTransformation.CaretCount | src/main/kotlin/CnpjVisualTransformation.kt:8-27 | a caret between the display positions of raw k and k+1 lies in the display and has k+1 digits before it |
| CnpjVisualTransformation.AlignedRoundTrip | src/main/kotlin/CnpjVisualTransformation.kt:21-35 | the aligned map still undoes `originalToTransformed` |
| CnpjVisualTransformation.MisreadCaretsAreBeforeSeparators | src/main/kotlin/CnpjVisualTransformation.kt:29-35 | the map as written counts the raw characters before a caret exactly at the carets other than 15 |
| DateVisualTransformation.OriginalToTransformed | src/main/kotlin/DateVisualTransformation.kt:19-25 | as written, no contract; properties in `OriginalToTransformedIncreasing`, `RoundTrip`, `FormatCaret`, `FormatPlacesRaw` |
| DateVisualTransformation.TransformedToOriginal | src/main/kotlin/DateVisualTransformation.kt:27-33 | as written, no contract; properties in `RoundTrip`, `TransformedToOriginalMonotone`, `TransformedToOriginalRange`, `TransformedToOriginalCountsRawBefore` |
| DateVisualTransformation.Format | src/main/kotlin/DateVisualTransformation.kt:9-16 | the display has length `originalToTransformed(n)` for the `n` kept characters |
| DateVisualTransformation.FormatTruncates | src/main/kotlin/DateVisualTransformation.kt:9 | only the first 8 characters matter |
| DateVisualTransformation.FormatSlashes | src/main/kotlin/DateVisualTransformation.kt:10-16 | the display equals the case-by-case layout `Slashed`: no slash up to n = 2; one at display 2 for n = 3..4; slashes at 2 and 5 beyond that |
| DateVisualTransformation.Slashed | src/main/kotlin/DateVisualTransformation.kt:11-15 | the three layouts the `buildString` produces; no contract of its own, properties in `SlashedKeepDigits`, `SlashedCaret`, `SlashedCountsRawBefore` |
| DateVisualTransformation.SlashedKeepDigits | src/main/kotlin/DateVisualTransformation.kt:11-15 | inserting the slashes loses no digit and adds none |
| DateVisualTransformation.SlashedCaret | src/main/kotlin/DateVisualTransformation.kt:11-25 | the layout of a prefix is a prefix of the layout, ending at `originalToTransformed(o)` |
| DateVisualTransformation.SlashedCountsRawBefore | src/main/kotlin/DateVisualTransformation.kt:11-33 | for digit input, `transformedToOriginal(d)` is the number of digits before caret d of the layout |
| DateVisualTransformation.FormatLength | src/main/kotlin/DateVisualTransformation.kt:10-16 | the length is n + [n > 2] + [n > 4] |
| DateVisualTransformation.FormatEndsWithRaw | src/main/kotlin/DateVisualTransformation.kt:11-15 | the display ends with the last raw character, so there is never a trailing slash |
| DateVisualTransformation.FormatStripsSeparators | src/main/kotlin/DateVisualTransformation.kt:10-16 | the display has the same digits as `take(8)` |
| DateVisualTransformation.FormatCaret | src/main/kotlin/DateVisualTransformation.kt:10-25 | the display of the first o raw characters is a prefix of the display, of length `originalToTransformed(o)` |
| DateVisualTransformation.FormatPlacesRaw | src/main/kotlin/DateVisualTransformation.kt:10-25 | raw character i is shown just before display caret `originalToTransformed(i+1)` |
| DateVisualTransformation.FormatExample | src/main/kotlin/DateVisualTransformation.kt:10-16 | `01012020` shows as `01/01/2020` |
| DateVisualTransformation.OriginalToTransformedIncreasing | src/main/kotlin/DateVisualTransformation.kt:19-25 | `originalToTransformed` is strictly increasing |
| DateVisualTransformation.RoundTrip | src/main/kotlin/DateVisualTransformation.kt:19-33 | `transformedToOriginal` undoes `originalToTransformed` at every offset |
| DateVisualTransformation.TransformedToOriginalMonotone | src/main/kotlin/DateVisualTransformation.kt:27-33 | `transformedToOriginal` is nondecreasing |
| DateVisualTransformation.TransformedToOriginalRange | src/main/kotlin/DateVisualTransformation.kt:27-33 | every caret of the display maps into `[0, n]` |
| DateVisualTransformation.TransformedToOriginalCountsRawBefore | src/main/kotlin/DateVisualTransformation.kt:27-33 | for digit input the map as written gives the number of raw characters before every caret |
| ClienteRecords.Cliente | src/main/kotlin/Cliente.kt:4-22 | the `Cliente` data class, one field per property; a datatype, no contract |
| ClienteRecords.Inversor | src/main/kotlin/Cliente.kt:24-30 | the `Inversor` data class; a datatype, no contract |
| ClienteRecords.UnidadeConsumidora | src/main/kotlin/Cliente.kt:32-35 | the `UnidadeConsumidora` data class; a datatype, no contract |
| ClientStore.StoredFile | src/main/kotlin/Main.kt:654-667 | what reading the data file yields: missing, unparsable, or a list of records; a datatype, no contract |
| ClienteRecords.With | src/main/kotlin/Cliente.kt:4-22 | `copy` of one text field sets that field and keeps every other field, both lists and the error map |
| ClienteRecords.WithInversor | src/main/kotlin/Cliente.kt:24-30 | `copy` of one inverter field sets it and keeps the others |
| ClienteRecords.NewCliente | src/main/kotlin/Cliente.kt:4-22 | the default record: every text field empty, one empty consumer unit, one empty inverter and no errors |
| ClienteRecords.NewInversor | src/main/kotlin/Cliente.kt:24-30 | the default inverter has every field empty |
| ClienteRecords.NewUnidadeConsumidora | src/main/kotlin/Cliente.kt:32-35 | the default consumer unit has an empty number |
| ClienteRecords.SameFieldsSameRecord | src/main/kotlin/Cliente.kt:4-22 | records that agree on every field are equal |
| ClienteRecords.WithCurrentValue | src/main/kotlin/Cliente.kt:4-22 | copying a field with its own value gives the same record |
| ClienteRecords.WithTwice | src/main/kotlin/Cliente.kt:4-22 | a later copy of a field overrides an earlier one |
| Validation.RequiredFieldErrors | src/main/kotlin/Main.kt:612-620 | key `idCliente` is present exactly when the id is blank, and key `nome` exactly when the name is blank; there are no other keys; the messages are as in the source |
| Validation.ValidateCliente | src/main/kotlin/Main.kt:612-620 | returns the record with only its error map replaced by the required-field errors |
| Validation.IsSaveEnabled | src/main/kotlin/Main.kt:108 | id and name both not blank; no contract of its own, related to validation by `SaveEnabledIffNoErrors` |
| Validation.SaveEnabledIffNoErrors | src/main/kotlin/Main.kt:108 | the save button is enabled exactly when validation yields no errors |
| Validation.ValidationIgnoresPriorErrors | src/main/kotlin/Main.kt:612-620 | errors already on the record play no part |
| Validation.BothBlankGivesBothKeys | src/main/kotlin/Main.kt:615-617 | with both fields blank the map has exactly the two keys |
| Validation.NewClienteIsNotSubmittable | src/main/kotlin/Main.kt:108 | the reset form (`Cliente()`) cannot be saved |
| ClientStore.LoadClientData | src/main/kotlin/Main.kt:654-669 | a missing or unparsable file reads as the empty list, and a stored one as its records |
| ClientStore.FirstIndexOfId | src/main/kotlin/Main.kt:638 | -1 exactly when no record has the id; otherwise the first position holding it |
| ClientStore.IndexOfFirst | src/main/kotlin/Main.kt:638 | the scan returns the first position with the id, or -1 |
| ClientStore.Upserted | src/main/kotlin/Main.kt:638-645 | the list written back; no contract of its own, properties in the `Upsert…` lemmas below |
| ClientStore.SaveClientData | src/main/kotlin/Main.kt:622-648 | writes back the list read from the file, replaced or appended in place |
| ClientStore.UpsertReplacesFirstMatch | src/main/kotlin/Main.kt:638-641 | with a match, only the first matching position changes and the length stays |
| ClientStore.UpsertAppendsNew | src/main/kotlin/Main.kt:642-645 | without a match, the record is appended after the unchanged list |
| ClientStore.UpsertContains | src/main/kotlin/Main.kt:638-645 | either way, the record is in the list written back |
| ClientStore.UpsertIdempotent | src/main/kotlin/Main.kt:638-645 | saving the same record twice gives the list that saving it once gives |
| ClientStore.UpsertKeepsOtherRecords | src/main/kotlin/Main.kt:638-645 | every record with another id stays at its position |
| ClientStore.UpsertPreservesUniqueIds | src/main/kotlin/Main.kt:638-645 | unique ids stay unique, and the saved record is the only entry with its id |
| ClientStore.SaveOverUnparsableFileKeepsOnlyNew | src/main/kotlin/Main.kt:628-636 | a file that does not parse is overwritten by the new record alone |
| ClientStore.UpsertExamples | src/main/kotlin/Main.kt:638-645 | a known id replaces its record in place, and an unknown one is appended |
| ClientSearch.MatchesQuery | src/main/kotlin/Main.kt:522-523 | name or id contains the query, ignoring case; no contract of its own (a predicate over `ContainsIgnoringCase`) |
| ClientSearch.MatchingClients | src/main/kotlin/Main.kt:521-524 | a record is in the result exactly when it is in the list and matches; each matching record appears as often as in the list and no other appears; the result keeps list order |
| ClientSearch.FilteredClients | src/main/kotlin/Main.kt:516-528 | the result is an order-preserving sublist, nonempty whenever the list is |
| ClientSearch.EmptyQueryShowsAll | src/main/kotlin/Main.kt:518-519 | an empty query shows the whole list |
| ClientSearch.MatchedQueryShowsMatches | src/main/kotlin/Main.kt:520-525 | a query that matches something shows exactly the matching records, each as often as the list holds it |
| ClientSearch.UnmatchedQueryShowsAll | src/main/kotlin/Main.kt:525 | a query that matches nothing shows the whole list |
| ClientSearch.CaseIsIgnored | src/main/kotlin/Main.kt:522 | `mARIA` matches the name `Maria Silva` |
| FormSection.IdClienteInput | src/main/kotlin/Main.kt:147 | the id filter gives the first `min(6, #digits)` digits of the input, a subsequence of it |
| FormSection.CpfCnpjInput | src/main/kotlin/Main.kt:174 | the CPF/CNPJ filter gives the first `min(14, #digits)` digits, a subsequence of the input |
| FormSection.ProtocoloInput | src/main/kotlin/Main.kt:289 | the protocol filter keeps every digit occurrence (each digit as often as the input holds it) and nothing else, in order |
| FormSection.DigitsKept | src/main/kotlin/Main.kt:289 | every digit of the typed text appears in the filtered text |
| FormSection.DateInput | src/main/kotlin/Main.kt:683 | the date filter gives the first `min(8, #digits)` digits, a subsequence of the input |
| FormSection.InputFilter | src/main/kotlin/Main.kt:147-683 | the filter each field applies (id, CPF/CNPJ, protocol, the six date fields, the rest as typed); no contract of its own, properties in `InputFilterIdempotent` and `FieldInput` |
| FormSection.IsDateField | src/main/kotlin/Main.kt:162-323 | the six fields entered through `dateTextField`; a predicate, no contract |
| FormSection.InputFilterIdempotent | src/main/kotlin/Main.kt:147-683 | applying a field's filter to its own output changes nothing |
| FormSection.FieldInput | src/main/kotlin/Main.kt:147-356 | typing into a field sets only that field, to the filtered text; the id, CPF/CNPJ, protocol and six date fields hold only digits, within 6, 14, no cap and 8 characters |
| FormSection.MaskFor | src/main/kotlin/Main.kt:176-180 | the CPF mask for lengths 0..11, and the CNPJ mask for 12..14 |
| FormSection.TypedCpfCnpjIsMasked | src/main/kotlin/Main.kt:174-180 | after the 14-digit filter the unmasked branch is never chosen |
| FormSection.CpfCnpjDisplay | src/main/kotlin/Main.kt:176-180 | the CPF/CNPJ field's display under the chosen mask; no contract of its own, properties in `CpfCnpjDisplayStrips` |
| FormSection.CpfCnpjDisplayStrips | src/main/kotlin/Main.kt:174-180 | whichever mask is chosen, the display with its separators removed is the stored value |
| FormSection.EditUnidadeNumero | src/main/kotlin/Main.kt:230-233 | editing consumer unit `index` keeps the length, sets its number and changes nothing else |
| FormSection.EditInversor | src/main/kotlin/Main.kt:396-447 | editing inverter `index` keeps the length, sets only the named field and changes nothing else |
| FormSection.AddUnidade | src/main/kotlin/Main.kt:247 | appends exactly one empty consumer unit |
| FormSection.AddInversor | src/main/kotlin/Main.kt:461 | appends exactly one empty inverter |
| FormSection.Submit | src/main/kotlin/Main.kt:485-498 | saves exactly when the button would be enabled, writing the upserted list with the error-free record; otherwise shows the record with its errors |

## Left out

- The Compose user interface: the window, grid, cards, text-field rendering, list items and animation. This is declaration, not data logic.
- The three-second notification timer. It is coroutine timing with no data logic.
- File input and output:
  - the home-directory path, `mkdirs`, `exists`, `readText` and `writeText`;
  - the file is a parameter saying what reading it yields.
- The JSON encoding and decoding of the record list. This belongs to a serialisation library that is not part of this model. No serialisation round trip is claimed.
- Exceptions and `println` logging. Also left out is the "Erro ao salvar" branch of the save button that a failed write would take.
- The Compose wrapper types `AnnotatedString`, `TransformedText` and `OffsetMapping`. They are plain strings and `int` functions here.
- The `potencia` field: the inverter edit at src/main/kotlin/Main.kt:406-411 copies it, but `Inversor` (src/main/kotlin/Cliente.kt:24-30) declares no such field. The model keeps `Inversor` as declared, and `EditInversor` covers the four declared fields.
- The wiring of the search box to the record name (the caller of the list section), and the list reload after a save.
- CPF/CNPJ check digits, e-mail rules and zero-padded id search: none of these are in the source.
- The offset maps: Kotlin's `Int` is 32 bits, so `offset + 3` and the like wrap near `Int.MAX_VALUE`. The model computes on unbounded `int`. The two agree on every offset from 0 to the display width, which is the only range the text field passes. `RoundTrip` and `OriginalToTransformedIncreasing` hold for every mathematical integer; near `Int.MAX_VALUE`, where the Kotlin maps wrap, they would fail.
- Strings: Kotlin strings are sequences of UTF-16 code units; here `string` is a sequence of Unicode scalar values. `take(11)`, `take(14)` and `take(8)` could split a surrogate pair in Kotlin and cannot here. The masked fields only ever hold characters that `isDigit` accepts after their input filters. Every such character lies in the Basic Multilingual Plane and no surrogate is a digit, so no surrogate pair reaches `take` and the two views agree on every value the masks receive (the model's digits are narrower still; see the Text.IsDigit line).
- Text.IsDigit: ASCII `0`..`9` only, where Kotlin's `isDigit` also accepts other Unicode decimal digits.
- Text.ContainsIgnoringCase: folds ASCII letters only, where Kotlin's `ignoreCase` folds all Unicode letters.
- Text.IsWhitespace: Kotlin's `Char.isWhitespace` (`Character.isWhitespace(c) || Character.isSpaceChar(c)`), written out by code point for the Unicode space, line and paragraph separators and the ASCII controls U+0009–U+000D and U+001C–U+001F; it follows the Unicode tables of one version and does not track later changes.
- FormSection.Submit: shows its `Rejected` outcome for records the disabled button would never submit. The model states that `Saved` happens exactly when the button is enabled, so `Rejected` is unreachable from the screen.

## Findings

| source | as written | input that shows it | evidently intended | confidence | as-written member | corrected member |
|---|---|---|---|---|---|---|
| src/main/kotlin/CpfVisualTransformation.kt:32-39 | `transformedToOriginal` breaks at 2/6/10, but the separators are shown at display 3, 7 and 11, so a caret just before a separator is mapped one raw character too early | `12345678901` (shown `123.456.789-01`), caret at display 3: three digits stand before it, yet it maps to raw 2 | breakpoints at 3/7/11, so that every caret maps to the number of raw characters before it | not executed | CpfVisualTransformation.CaretBeforeSeparatorMisread | CpfVisualTransformation.AlignedCountsRawBefore |
| src/main/kotlin/CnpjVisualTransformation.kt:29-35 | the last breakpoint is 14, but the dash is shown at display 15, so carets 14 and 15 both map to raw 11 | `12345678000199` (shown `12.345.678/0001-99`), caret at display 15: twelve digits stand before it, yet it maps to raw 11 | last breakpoint at 15 | not executed | CnpjVisualTransformation.CaretBeforeDashMisread | CnpjVisualTransformation.AlignedCountsRawBefore |
