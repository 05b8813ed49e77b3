/**
 * `extract_data_line_by_line` as the loop it is: the four variables of the
 * Python function are locals updated line by line, and the method is proved
 * to compute the fold `Reconstruct`, hence one record per block.
 */
module App {
  import opened Wrappers
  import opened Text
  import opened Patterns
  import opened LineReconstructor
  import opened RecordBlocks

  /**
   * Reads the OCR lines in order, opening a record at every line that starts
   * with a date pair, collecting the text of the lines that follow, keeping
   * the last amount seen as the debit, and emitting each record when the
   * next one opens or the input ends.
   */
  method ExtractDataLineByLine(text: seq<string>) returns (extractedData: seq<Record>)
    ensures extractedData == Reconstruct(text)
    ensures |extractedData| == |DateIndices(ReadAll(text))|
    ensures forall k :: 0 <= k < |extractedData| ==> extractedData[k] == RecordOf(Block(ReadAll(text), k))
  {
    extractedData := [];
    var currentDate: Option<(string, string)> := None;
    var currentOperation: seq<string> := [];
    var currentDebit: Option<string> := None;

    for i := 0 to |text|
      invariant State(currentDate, currentOperation, currentDebit, extractedData) == Run(Initial, ReadAll(text[..i]))
    {
      ghost var before := State(currentDate, currentOperation, currentDebit, extractedData);
      var line := text[i];
      var dateMatch := MatchDatePair(line);
      if dateMatch.Some? {
        if currentDate.Some? {
          extractedData := extractedData + [MakeRecord(currentDate.value, currentOperation, currentDebit)];
        }
        currentDate := Some((dateMatch.value.first, dateMatch.value.second));
        currentOperation := [];
        currentDebit := None;
        line := Strip(line[dateMatch.value.end..]);
      }
      var debitMatch := SearchAmount(line);
      if debitMatch.Some? {
        currentDebit := Some(debitMatch.value.group);
        line := Strip(line[..debitMatch.value.start]);
      }
      if line != [] {
        currentOperation := currentOperation + [line];
      }
      ReadAllPrefix(text, i);
      RunSnoc(Initial, ReadAll(text[..i]), ReadLine(text[i]));
      assert State(currentDate, currentOperation, currentDebit, extractedData) == Advance(before, ReadLine(text[i]));
    }

    if currentDate.Some? {
      extractedData := extractedData + [MakeRecord(currentDate.value, currentOperation, currentDebit)];
    }
    assert text[..|text|] == text;
    ReconstructByBlocks(text);
  }
}
