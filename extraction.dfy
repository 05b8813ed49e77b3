/**
 * What `extract_data_line_by_line` promises about its output, stated on the
 * raw input lines: one record per date line, in order, with the dates of
 * that line, the debit of the last amount under it, and a stripped
 * operation text.
 */
module Extraction {
  import opened Wrappers
  import opened Text
  import opened Patterns
  import opened LineReconstructor
  import opened RecordBlocks

  /**
   * Record `k` is opened by line `DateIndices(ReadAll(lines))[k]`, a line
   * starting with the date pair, and carries its two dates verbatim.
   */
  lemma RecordsFollowDateLines(lines: seq<string>)
    ensures |Reconstruct(lines)| == |DateIndices(ReadAll(lines))|
    ensures forall k :: 0 <= k < |Reconstruct(lines)| ==>
      var j := DateIndices(ReadAll(lines))[k];
      && j < |lines|
      && DatePairPrefix(lines[j])
      && Reconstruct(lines)[k].startDate == lines[j][..10]
      && Reconstruct(lines)[k].endDate == lines[j][13..23]
  {
    var infos := ReadAll(lines);
    var idx := DateIndices(infos);
    ReconstructByBlocks(lines);
    forall k | 0 <= k < |idx|
      ensures DatePairPrefix(lines[idx[k]])
      ensures Reconstruct(lines)[k].startDate == lines[idx[k]][..10]
      ensures Reconstruct(lines)[k].endDate == lines[idx[k]][13..23]
    {
      ReadAllAt(lines, idx[k]);
      ReadLineDates(lines[idx[k]]);
      RecordOfFields(Block(infos, k));
    }
  }

  /** Records come in the order of their date lines, and no date line is skipped. */
  lemma DateLinesInOrder(lines: seq<string>)
    ensures forall k, l :: 0 <= k < l < |DateIndices(ReadAll(lines))| ==>
      DateIndices(ReadAll(lines))[k] < DateIndices(ReadAll(lines))[l]
    ensures forall j :: 0 <= j < |lines| && DatePairPrefix(lines[j]) ==> j in DateIndices(ReadAll(lines))
  {
    DateIndicesIncrease(ReadAll(lines));
    DateIndicesComplete(ReadAll(lines));
    forall j | 0 <= j < |lines| && DatePairPrefix(lines[j])
      ensures j in DateIndices(ReadAll(lines))
    {
      ReadAllAt(lines, j);
      ReadLineDates(lines[j]);
    }
  }

  /** The output is empty exactly when no line starts with a date pair. */
  lemma NoDateLineNoRecord(lines: seq<string>)
    ensures Reconstruct(lines) == [] <==> forall j :: 0 <= j < |lines| ==> !DatePairPrefix(lines[j])
  {
    RecordsFollowDateLines(lines);
    DateLinesInOrder(lines);
    if Reconstruct(lines) != [] {
      var j := DateIndices(ReadAll(lines))[0];
      assert DatePairPrefix(lines[j]);
    }
  }

  /** Over a range of lines, a read line has no amount exactly when its date-free part holds none. */
  lemma AmountsOfLines(lines: seq<string>, i: nat, e: nat)
    requires i <= e <= |lines|
    ensures forall j :: i <= j < e ==>
      (ReadAll(lines)[j].amount.None? <==> !ContainsAmount(AfterDate(lines[j])))
  {
    forall j | i <= j < e
      ensures ReadAll(lines)[j].amount.None? <==> !ContainsAmount(AfterDate(lines[j]))
    {
      ReadAllAt(lines, j);
      ReadLineAmount(lines[j]);
    }
  }

  /**
   * The debit of record `k` is absent exactly when no line of its block has
   * an amount after its date prefix.
   */
  lemma DebitAbsentIffNoAmount(lines: seq<string>, k: nat)
    requires k < |DateIndices(ReadAll(lines))|
    ensures |Reconstruct(lines)| == |DateIndices(ReadAll(lines))|
    ensures Reconstruct(lines)[k].debit.None? <==>
      forall j :: DateIndices(ReadAll(lines))[k] <= j < BlockEnd(ReadAll(lines), k) ==>
        !ContainsAmount(AfterDate(lines[j]))
  {
    var infos := ReadAll(lines);
    var start, end := DateIndices(infos)[k], BlockEnd(infos, k);
    ReconstructByBlocks(lines);
    BlockDebit(infos, k);
    assert Reconstruct(lines)[k] == RecordOf(Block(infos, k));
    assert Reconstruct(lines)[k].debit == LastAmount(Block(infos, k));
    AmountsOfLines(lines, start, end);
    assert (forall j :: start <= j < end ==> infos[j].amount.None?) <==>
      (forall j :: start <= j < end ==> !ContainsAmount(AfterDate(lines[j])));
  }

  /**
   * When line `j` is the last line of record `k`'s block with an amount
   * after its date prefix, the debit of record `k` is the leftmost amount
   * of line `j`.
   */
  lemma DebitIsLastAmount(lines: seq<string>, k: nat, j: nat)
    requires k < |DateIndices(ReadAll(lines))|
    requires DateIndices(ReadAll(lines))[k] <= j < BlockEnd(ReadAll(lines), k)
    requires ContainsAmount(AfterDate(lines[j]))
    requires forall j' :: j < j' < BlockEnd(ReadAll(lines), k) ==> !ContainsAmount(AfterDate(lines[j']))
    ensures |Reconstruct(lines)| == |DateIndices(ReadAll(lines))|
    ensures SearchAmount(AfterDate(lines[j])).Some?
    ensures Reconstruct(lines)[k].debit == Some(SearchAmount(AfterDate(lines[j])).value.group)
  {
    var infos := ReadAll(lines);
    ReadLineAmount(lines[j]);
    ReadAllAt(lines, j);
    AmountsOfLines(lines, j + 1, BlockEnd(infos, k));
    BlockDebitAt(infos, k, j);
    ReconstructByBlocks(lines);
    assert Reconstruct(lines)[k].debit == LastAmount(Block(infos, k));
  }

  /** The operation of every record is free of whitespace at both ends. */
  lemma OperationIsStripped(lines: seq<string>, k: nat)
    requires k < |Reconstruct(lines)|
    ensures var op := Reconstruct(lines)[k].operation;
      op != [] ==> !IsSpace(op[0]) && !IsSpace(op[|op| - 1])
  {
    ReconstructByBlocks(lines);
    RecordOfFields(Block(ReadAll(lines), k));
  }
}
