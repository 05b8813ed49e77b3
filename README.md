# ComptableAce line reconstructor, modelled in Dafny

ComptableAce turns PDF bank statements into spreadsheet rows.
OCR produces lines of text. `extract_data_line_by_line` (app.py) then rebuilds
one record per statement operation from those lines:

- A line that starts with a date pair `DD/MM/YYYY | DD/MM/YYYY` opens a new
  record. Opening it first emits the previous one, if there is one.
- The text after the date pair is stripped.
- The leftmost `\d+,\d{2}` amount on a line becomes the record's debit. The
  line is cut in front of that amount.
- Any text left over is gathered into the record's operation. The operation
  is the gathered fragments joined with single spaces, then stripped.
- At the end of input the open record is emitted.

The model has seven modules:

- `Wrappers`: `Option`, for Python's `None`.
- `Text`: Python's `str.strip()` over the exact `str.isspace()` set, and
  `' '.join`.
- `Patterns`: the two regular expressions. The date pattern is a positional
  matcher anchored at the start, like `re.match`. The amount pattern is a
  leftmost search, like `re.search`. Each matcher is proved against a
  declarative description of what it matches.
- `LineReconstructor`: the loop as a pure fold.
  - `ReadLine` is the first half of the loop body: both regexes and the cuts.
  - `Advance` is the second half: emit, reset, overwrite the debit, append.
  - `Reconstruct` is the fold plus the final flush.
- `RecordBlocks`: an independent reference definition. The read lines are
  cut into blocks, each running from a date line to the next one. Each block
  gives one record. The fold is proved to emit exactly these records, in this
  order.
- `App`: `ExtractDataLineByLine`, the imperative loop over the four local
  variables of the Python function. It is proved equal to `Reconstruct`, and
  therefore to the block-wise records.
- `Composition` and `Extraction`: the promised properties, stated on raw
  input lines.
  - One record per date line, in order, with that line's dates verbatim.
  - No date line gives no output.
  - Preamble lines are dropped.
  - Splitting the input at a date line splits the output.
  - The debit is the last amount of the block, and is absent exactly when the
    block has none.
  - The operation is stripped.

## Model

| member | source | states |
|---|---|---|
| `App.ExtractDataLineByLine` | app.py:128-176 | The loop computes `Reconstruct(text)`. It emits one record per date line, and record `k` is the record of block `k`. |
| `Text.LeadingSpacesSpec` | app.py:155 | The run that `strip` removes in front is whitespace and is maximal. |
| `Text.Strip` | app.py:155 | `strip` never lengthens its input. |
| `Text.StripSpec` | app.py:155 | `strip` returns a slice of its input that neither starts nor ends with whitespace. Only whitespace is cut at either end. It is empty exactly when the input is all whitespace. |
| `Text.StripSlice` | app.py:155 | What `strip` keeps starts right after the leading whitespace, and only whitespace follows it. |
| `Text.StripEnds` | app.py:155 | What `strip` keeps neither starts nor ends with whitespace. It is empty exactly when the input is all whitespace. |
| `Text.JoinWithSpace` | app.py:147 | `' '.join` adds exactly one character between consecutive parts: the length is the parts' total length plus one less than their number. |
| `Text.JoinWithSpaceAppend` | app.py:147 | Joining two non-empty runs of parts is joining each run and putting one space between the results. |
| `Patterns.DatePairPatternIsDatePair` | app.py:134 | The positional date pattern accepts exactly the strings that start with `DD/MM/YYYY \| DD/MM/YYYY`. |
| `Patterns.MatchDatePair` | app.py:140 | A date match ends at position 23, inside the line. |
| `Patterns.MatchDatePairSpec` | app.py:140 | `re.match` succeeds exactly on lines that start with a date pair. Its groups are the two dates, and the match covers them and the ` \| ` between them. |
| `Patterns.DigitRunEndSpec` | app.py:135 | The digit run starting at a position is all digits and is not followed by a digit. |
| `Patterns.AmountEndIsDigitRunEnd` | app.py:135 | An amount match starting at `i` takes the whole digit run. Greedy `\d+` never backtracks here, so a start has at most one match. |
| `Patterns.AmountEndAtSpec` | app.py:135 | The amount scanner finds the match at a start position exactly when one exists. |
| `Patterns.SearchAmountFromSpec` | app.py:158 | Searching from a position returns the leftmost match at or after it, or none when there is none. |
| `Patterns.SearchAmount` | app.py:158 | A match found by `re.search` lies inside the line and is at least four characters long (a digit, the comma, two digits). |
| `Patterns.SearchAmountSpec` | app.py:158 | `re.search` returns the leftmost `\d+,\d{2}` match, with the matched text as its group. It finds none exactly when the line holds no amount. |
| `LineReconstructor.MakeRecord` | app.py:144-149 | The emitted dictionary carries the open dates and the debit unchanged. Its operation is no longer than the joined fragments. |
| `LineReconstructor.MakeRecordOperation` | app.py:147 | An emitted operation has no whitespace at either end. It is empty when every fragment is blank. |
| `LineReconstructor.JoinOfBlanksIsBlank` | app.py:147 | Space-joining blank fragments gives a blank string. |
| `LineReconstructor.AfterDate` | app.py:155 | The date-free text is never longer than the line. On a date line it is at least 23 characters shorter. |
| `LineReconstructor.AfterDateSpec` | app.py:155 | A date line loses its 23-character prefix and is stripped. Any other line is untouched. |
| `LineReconstructor.ReadLine` | app.py:140-161 | The text a line keeps is no longer than its date-free part. When the line has an amount, it is at least four characters shorter, since the amount is cut off. |
| `LineReconstructor.ReadLineDates` | app.py:152 | A line opens a record iff it starts with a date pair. The dates are its characters 0-9 and 13-22, copied verbatim. |
| `LineReconstructor.ReadLineAmount` | app.py:160 | A line's amount is the group of the leftmost match after the date prefix. It is absent iff that part holds no match. |
| `LineReconstructor.ReadLineRest` | app.py:158-161 | The text kept from a line holds no amount. Without an amount it is the whole date-free text. With one, it is the slice in front of the leftmost amount, with only whitespace between its end and the amount. |
| `LineReconstructor.ReadLineRestShape` | app.py:164 | A line with neither a date nor an amount is appended unstripped. Any other line leaves stripped text. |
| `LineReconstructor.CutAtAmount` | app.py:161 | The stripped text in front of the leftmost amount lies before it, holds no amount and has no outer whitespace. |
| `LineReconstructor.NoAmountBeforeFirst` | app.py:161 | Any slice of the text before the leftmost amount holds no amount. |
| `LineReconstructor.ReadAllAt` | app.py:138 | Each line is read on its own, independently of the others. |
| `LineReconstructor.Flush` | app.py:167-174 | Flushing keeps the records already emitted, and adds one more exactly when a record is open. |
| `LineReconstructor.Advance` | app.py:141-165 | A step keeps the records already emitted. It adds one record to those emitted or open exactly when the line is a date line. |
| `LineReconstructor.Run` | app.py:138-165 | The fold keeps the records already emitted. It adds at most one record, emitted or open, per line. |
| `LineReconstructor.Reconstruct` | app.py:128-176 | There are never more records than input lines. |
| `RecordBlocks.DateIndices` | app.py:141 | Every listed position is a date line of the input. |
| `RecordBlocks.DateIndicesIncrease` | app.py:138 | Date-line positions are listed in increasing order. |
| `RecordBlocks.DateIndicesComplete` | app.py:141 | Every date line's position is listed. |
| `RecordBlocks.BlockEnd` | app.py:141 | Block `k` ends at the next date line or at the end of input, and has no date line in between. |
| `RecordBlocks.Block` | app.py:141-154 | A block is non-empty, starts with a date line and has no other date line. |
| `RecordBlocks.Fragments` | app.py:164-165 | Only non-empty texts are gathered, at most one per line. |
| `RecordBlocks.LastAmountLine` | app.py:159-160 | The position of the last line with an amount. There is none iff no line has one, and no later line has one. |
| `RecordBlocks.LastAmountWins` | app.py:160 | Overwriting leaves the amount of the last line that has one, and none iff no line has one. |
| `RecordBlocks.RecordOfFields` | app.py:144-149 | A block's record carries its date line's dates. Its debit is absent iff no line has an amount, otherwise it is the last line's amount. Its operation is stripped. |
| `RecordBlocks.BlockDebit` | app.py:154-160 | The debit, in whole-input positions: none iff no line of the block has an amount, otherwise the last such line's amount. |
| `RecordBlocks.BlockDebitAt` | app.py:160 | A line of the block with an amount and none after it gives the debit. |
| `RecordBlocks.ClosedBlocksStay` | app.py:143-149 | Later lines never change a block that is already closed. |
| `RecordBlocks.DateLineOpens` | app.py:152-154 | A date line resets the open record to its own dates, text and amount. |
| `RecordBlocks.OpenRecordIsLastBlock` | app.py:143-149 | The record held open is the record of the block a date line closes. |
| `RecordBlocks.DateLineEmits` | app.py:143-149 | A date line emits exactly the record of the block it closes. |
| `RecordBlocks.OtherLineExtends` | app.py:158-165 | A non-date line extends only the open record. |
| `RecordBlocks.OtherLineEmitsNothing` | app.py:158-165 | A non-date line emits nothing. |
| `RecordBlocks.RunTracks` | app.py:138-165 | Loop invariant: after any prefix, the state holds the records of the closed blocks, and the last block is open. |
| `RecordBlocks.FlushTracks` | app.py:167-174 | The final flush adds the record of the last block. |
| `RecordBlocks.RunByBlocks` | app.py:138-174 | The fold emits one record per date line, in order. Record `k` is built from block `k` alone. |
| `RecordBlocks.ReconstructByBlocks` | app.py:128-176 | The same, for raw input lines. |
| `Composition.ReadAllAppend` | app.py:138 | Reading distributes over concatenation. |
| `Composition.RunAppend` | app.py:138-165 | Folding `a + b` is folding `b` from the state `a` leaves. |
| `Composition.AdvanceAfterEmitted` | app.py:143-149 | Records already emitted are carried unchanged by every step and by the flush. |
| `Composition.RunFromDateLine` | app.py:141-154 | From a date line on, the earlier state matters only through the record it emits first. |
| `Composition.ReconstructSplitsAtDateLine` | app.py:141-154 | Cutting the input in front of a date line cuts the output between two records. No record mixes lines from both sides. |
| `Composition.UnopenedAgree` | app.py:143 | Text and debit gathered while no record is open never reach the output. |
| `Composition.PreambleOpensNothing` | app.py:143 | Lines before the first date line open no record and emit nothing. |
| `Composition.PreambleIgnored` | app.py:168 | Lines in front of the first date line are dropped from the output. |
| `Extraction.RecordsFollowDateLines` | app.py:145-152 | There is one record per date line. Record `k` is opened by a line that starts with a date pair, and carries that line's two dates verbatim. |
| `Extraction.DateLinesInOrder` | app.py:138-141 | Records come in the order of their date lines, and no date line is skipped. |
| `Extraction.NoDateLineNoRecord` | app.py:168 | The output is empty iff no line starts with a date pair. |
| `Extraction.AmountsOfLines` | app.py:158-159 | A read line has no amount iff its date-free part holds no match. |
| `Extraction.DebitAbsentIffNoAmount` | app.py:154-160 | A record's debit is absent iff no line of its block has an amount. |
| `Extraction.DebitIsLastAmount` | app.py:160 | A record's debit is the leftmost amount of the last line of its block that has one. |
| `Extraction.OperationIsStripped` | app.py:172 | Every record's operation has no whitespace at either end. |

## Left out

- Determinism and totality hold by construction: every operation is a
  terminating function of its input lines. No separate lemma states them.
- Two effects of the code are easy to misread from its comments, and the
  model follows the code:
  - The debit is the amount on the LAST line of a record that has one. Line
    160 overwrites `current_debit` for every amount; the first amount is not
    kept.
  - The comment on line 161 says the debit is removed from the line. The code
    instead keeps only the text in front of the match, so text after an
    amount on the same line is dropped, not appended.
- `\d` is modelled as the ASCII digits `0`-`9`. Python's `re` on `str` also
  matches other Unicode decimal digits.
- `str.strip()` is modelled by the fixed `str.isspace()` set of code points. No
  other Unicode semantics is modelled (normalisation, surrogates).
- PDF rendering and OCR are left out. `extract_text_from_pdf`
  (app.py:106-126) calls PyMuPDF and EasyOCR, which are I/O into foreign
  code. The model takes the OCR output lines as its input.
- Out of scope, because they are I/O and framework code around the core:
  - the Flask routes (the client form, the client view, mandate PDF
    generation and upload, app.py:35-98 and app.py:180-214);
  - Excel storage with pandas (app.py:19-32).
- The Python dictionaries with keys `'Date de début'`, `'Date de fin'`,
  `'Opération'` and `'Débit'` are modelled as the `Record` datatype with one
  field per key.
