/**
 * A second, independent description of what the reconstructor emits: cut
 * the read lines into blocks, each running from a date line up to (not
 * including) the next date line or the end of input, and build one record
 * per block from that block's lines alone. The lemmas below show that the
 * fold of `LineReconstructor` emits exactly these records, in this order.
 */
module RecordBlocks {
  import opened Wrappers
  import opened Text
  import opened LineReconstructor

  /** The positions of the lines that open a record, in order. */
  function DateIndices(infos: seq<LineInfo>): (idx: seq<nat>)
    ensures forall k :: 0 <= k < |idx| ==> idx[k] < |infos| && infos[idx[k]].dates.Some?
  {
    if infos == [] then []
    else
      var front := infos[..|infos| - 1];
      var idx := DateIndices(front);
      assert forall i :: 0 <= i < |front| ==> infos[i] == front[i];
      idx + (if infos[|infos| - 1].dates.Some? then [|infos| - 1] else [])
  }

  /** The positions come in increasing order. */
  lemma {:induction false} DateIndicesIncrease(infos: seq<LineInfo>)
    ensures forall k, l :: 0 <= k < l < |DateIndices(infos)| ==> DateIndices(infos)[k] < DateIndices(infos)[l]
  {
    if infos != [] {
      DateIndicesIncrease(infos[..|infos| - 1]);
    }
  }

  /** Every line that opens a record has its position listed. */
  lemma {:induction false} DateIndicesComplete(infos: seq<LineInfo>)
    ensures forall i :: 0 <= i < |infos| && infos[i].dates.Some? ==> i in DateIndices(infos)
  {
    if infos != [] {
      var front := infos[..|infos| - 1];
      DateIndicesComplete(front);
      assert forall i :: 0 <= i < |front| ==> infos[i] == front[i];
    }
  }

  /** Where block `k` ends: at the next date line, or at the end of input. */
  function BlockEnd(infos: seq<LineInfo>, k: nat): (e: nat)
    requires k < |DateIndices(infos)|
    ensures DateIndices(infos)[k] < e <= |infos|
    ensures e == |infos| || infos[e].dates.Some?
    ensures forall i :: DateIndices(infos)[k] < i < e ==> infos[i].dates.None?
  {
    var idx := DateIndices(infos);
    DateIndicesIncrease(infos);
    DateIndicesComplete(infos);
    if k + 1 < |idx| then idx[k + 1] else |infos|
  }

  /** The lines of the `k`-th record: its date line and the lines that follow it. */
  function Block(infos: seq<LineInfo>, k: nat): (b: seq<LineInfo>)
    requires k < |DateIndices(infos)|
    ensures b != [] && b[0].dates.Some?
    ensures forall j :: 0 < j < |b| ==> b[j].dates.None?
    ensures b == infos[DateIndices(infos)[k]..BlockEnd(infos, k)]
  {
    var i := DateIndices(infos)[k];
    var b := infos[i..BlockEnd(infos, k)];
    assert forall j :: 0 <= j < |b| ==> b[j] == infos[i + j];
    b
  }

  /** The operation fragments a run of lines contributes: its non-empty remainders, in order. */
  function Fragments(infos: seq<LineInfo>): (parts: seq<string>)
    ensures |parts| <= |infos|
    ensures forall q :: 0 <= q < |parts| ==> parts[q] != []
  {
    if infos == [] then []
    else
      var front := infos[..|infos| - 1];
      var last := infos[|infos| - 1].rest;
      assert forall j :: 0 <= j < |front| ==> front[j] == infos[j];
      Fragments(front) + (if last == [] then [] else [last])
  }

  /** The position of the last line, among `infos`, that carries an amount. */
  function LastAmountLine(infos: seq<LineInfo>): (j: Option<nat>)
    ensures j.None? <==> forall i :: 0 <= i < |infos| ==> infos[i].amount.None?
    ensures j.Some? ==>
      && j.value < |infos|
      && infos[j.value].amount.Some?
      && forall i :: j.value < i < |infos| ==> infos[i].amount.None?
  {
    if infos == [] then None
    else if infos[|infos| - 1].amount.Some? then Some(|infos| - 1)
    else
      var front := infos[..|infos| - 1];
      assert forall i :: 0 <= i < |front| ==> front[i] == infos[i];
      LastAmountLine(front)
  }

  /** The debit a run of lines leaves, as the loop overwrites it line by line. */
  function LastAmount(infos: seq<LineInfo>): Option<string> {
    if infos == [] then None
    else if infos[|infos| - 1].amount.Some? then infos[|infos| - 1].amount
    else LastAmount(infos[..|infos| - 1])
  }

  /**
   * Overwriting leaves the amount of the last line that has one, and no
   * amount exactly when no line has one.
   */
  lemma {:induction false} LastAmountWins(infos: seq<LineInfo>)
    ensures LastAmount(infos).None? <==> forall i :: 0 <= i < |infos| ==> infos[i].amount.None?
    ensures LastAmount(infos).Some? ==>
      LastAmountLine(infos).Some? && LastAmount(infos) == infos[LastAmountLine(infos).value].amount
  {
    if infos != [] && infos[|infos| - 1].amount.None? {
      var front := infos[..|infos| - 1];
      LastAmountWins(front);
      assert forall i :: 0 <= i < |front| ==> front[i] == infos[i];
    }
  }

  /**
   * The record a block stands for: the dates of its first line, the
   * stripped space-join of its fragments, and the amount of its last line
   * that carries one.
   */
  function RecordOf(block: seq<LineInfo>): Record
    requires block != [] && block[0].dates.Some?
  {
    MakeRecord(block[0].dates.value, Fragments(block), LastAmount(block))
  }

  /** What a block's record carries, field by field. */
  lemma RecordOfFields(block: seq<LineInfo>)
    requires block != [] && block[0].dates.Some?
    ensures (RecordOf(block).startDate, RecordOf(block).endDate) == block[0].dates.value
    ensures RecordOf(block).debit.None? <==> forall j :: 0 <= j < |block| ==> block[j].amount.None?
    ensures RecordOf(block).debit.Some? ==>
      LastAmountLine(block).Some? && RecordOf(block).debit == block[LastAmountLine(block).value].amount
    ensures var op := RecordOf(block).operation;
      op != [] ==> !IsSpace(op[0]) && !IsSpace(op[|op| - 1])
  {
    LastAmountWins(block);
    MakeRecordOperation(block[0].dates.value, Fragments(block), LastAmount(block));
  }

  /**
   * The amount block `k` leaves, in positions of the whole input: none
   * exactly when no line from its date line up to the block's end has an
   * amount, and otherwise the amount of the last line there that has one.
   */
  lemma BlockDebit(infos: seq<LineInfo>, k: nat)
    requires k < |DateIndices(infos)|
    ensures LastAmount(Block(infos, k)).None? <==>
      forall j :: DateIndices(infos)[k] <= j < BlockEnd(infos, k) ==> infos[j].amount.None?
    ensures LastAmount(Block(infos, k)).Some? ==>
      var j := DateIndices(infos)[k] + LastAmountLine(Block(infos, k)).value;
      && LastAmountLine(Block(infos, k)).Some?
      && j < BlockEnd(infos, k)
      && LastAmount(Block(infos, k)) == infos[j].amount
      && forall j' :: j < j' < BlockEnd(infos, k) ==> infos[j'].amount.None?
  {
    var i := DateIndices(infos)[k];
    var block := Block(infos, k);
    LastAmountWins(block);
    assert forall j :: i <= j < BlockEnd(infos, k) ==> infos[j] == block[j - i];
  }

  /** The amount block `k` leaves is that of any line of it with an amount and none after it. */
  lemma BlockDebitAt(infos: seq<LineInfo>, k: nat, j: nat)
    requires k < |DateIndices(infos)|
    requires DateIndices(infos)[k] <= j < BlockEnd(infos, k)
    requires infos[j].amount.Some?
    requires forall j' :: j < j' < BlockEnd(infos, k) ==> infos[j'].amount.None?
    ensures LastAmount(Block(infos, k)) == infos[j].amount
  {
    BlockDebit(infos, k);
    var last := DateIndices(infos)[k] + LastAmountLine(Block(infos, k)).value;
    assert last == j;
  }

  /**
   * What the loop state holds after `infos` about the open record: none
   * before the first date line, afterwards the last block.
   */
  ghost predicate TracksOpen(infos: seq<LineInfo>, st: State) {
    var idx := DateIndices(infos);
    if idx == [] then
      st.date.None?
    else
      var m := idx[|idx| - 1];
      && st.date == infos[m].dates
      && st.parts == Fragments(infos[m..])
      && st.debit == LastAmount(infos[m..])
  }

  /** What the loop has emitted after `infos`: the record of every closed block. */
  ghost predicate TracksOut(infos: seq<LineInfo>, st: State) {
    var idx := DateIndices(infos);
    && |st.out| == (if idx == [] then 0 else |idx| - 1)
    && forall k :: 0 <= k < |idx| - 1 ==> st.out[k] == RecordOf(Block(infos, k))
  }

  ghost predicate Tracks(infos: seq<LineInfo>, st: State) {
    TracksOpen(infos, st) && TracksOut(infos, st)
  }

  /** Appending a line adds its position when it is a date line. */
  lemma DateIndicesSnoc(front: seq<LineInfo>, info: LineInfo)
    ensures DateIndices(front + [info]) == DateIndices(front) + (if info.dates.Some? then [|front|] else [])
  {
    assert (front + [info])[..|front|] == front;
  }

  /** Appending a line adds its remainder when that is non-empty. */
  lemma FragmentsSnoc(front: seq<LineInfo>, info: LineInfo)
    ensures Fragments(front + [info]) == Fragments(front) + (if info.rest == [] then [] else [info.rest])
  {
    assert (front + [info])[..|front|] == front;
  }

  /** Appending a line with an amount makes that amount the last one. */
  lemma LastAmountSnoc(front: seq<LineInfo>, info: LineInfo)
    ensures LastAmount(front + [info]) == if info.amount.Some? then info.amount else LastAmount(front)
  {
    assert (front + [info])[..|front|] == front;
  }

  /** Appending a line leaves every block that was already closed as it was. */
  lemma ClosedBlocksStay(front: seq<LineInfo>, info: LineInfo, k: nat)
    requires k + 1 < |DateIndices(front)|
    ensures k + 1 < |DateIndices(front + [info])|
    ensures Block(front + [info], k) == Block(front, k)
  {
    var infos := front + [info];
    var idx := DateIndices(front);
    DateIndicesSnoc(front, info);
    assert DateIndices(infos)[..|idx|] == idx;
    var e := BlockEnd(front, k);
    assert e == idx[k + 1] == BlockEnd(infos, k) <= |front|;
    assert infos[idx[k]..e] == front[idx[k]..e];
  }

  /** A date line opens a new record whose block is that line alone. */
  lemma DateLineOpens(front: seq<LineInfo>, info: LineInfo, st: State)
    requires info.dates.Some?
    ensures TracksOpen(front + [info], Advance(st, info))
  {
    var infos := front + [info];
    DateIndicesSnoc(front, info);
    assert infos[|front|..] == [] + [info];
    FragmentsSnoc([], info);
    LastAmountSnoc([], info);
  }

  /** The record a tracked state holds open is the record of the last block, which a date line closes. */
  lemma OpenRecordIsLastBlock(front: seq<LineInfo>, info: LineInfo, st: State)
    requires info.dates.Some?
    requires TracksOpen(front, st) && DateIndices(front) != []
    ensures |DateIndices(front)| < |DateIndices(front + [info])|
    ensures MakeRecord(st.date.value, st.parts, st.debit) ==
      RecordOf(Block(front + [info], |DateIndices(front)| - 1))
  {
    var infos := front + [info];
    var idx := DateIndices(front);
    var m := idx[|idx| - 1];
    DateIndicesSnoc(front, info);
    assert Block(infos, |idx| - 1) == infos[m..|front|] == front[m..];
  }

  /** A date line emits the record of the block it closes. */
  lemma DateLineEmits(front: seq<LineInfo>, info: LineInfo, st: State)
    requires info.dates.Some?
    requires Tracks(front, st)
    ensures TracksOut(front + [info], Advance(st, info))
  {
    var infos := front + [info];
    var idx := DateIndices(front);
    DateIndicesSnoc(front, info);
    var out := Advance(st, info).out;
    assert out == Flush(st);
    forall k | 0 <= k < |idx|
      ensures out[k] == RecordOf(Block(infos, k))
    {
      if k < |idx| - 1 {
        ClosedBlocksStay(front, info, k);
      } else {
        OpenRecordIsLastBlock(front, info, st);
      }
    }
  }

  /** Any other line extends the open block, or is dropped when none is open. */
  lemma OtherLineExtends(front: seq<LineInfo>, info: LineInfo, st: State)
    requires info.dates.None?
    requires TracksOpen(front, st)
    ensures TracksOpen(front + [info], Advance(st, info))
  {
    var infos := front + [info];
    var idx := DateIndices(front);
    DateIndicesSnoc(front, info);
    if idx != [] {
      var m := idx[|idx| - 1];
      assert infos[m..] == front[m..] + [info];
      assert infos[m] == front[m];
      FragmentsSnoc(front[m..], info);
      LastAmountSnoc(front[m..], info);
    }
  }

  /** Any other line emits nothing. */
  lemma OtherLineEmitsNothing(front: seq<LineInfo>, info: LineInfo, st: State)
    requires info.dates.None?
    requires TracksOut(front, st)
    ensures TracksOut(front + [info], Advance(st, info))
  {
    var idx := DateIndices(front);
    DateIndicesSnoc(front, info);
    forall k | 0 <= k < |idx| - 1
      ensures Block(front + [info], k) == Block(front, k)
    {
      ClosedBlocksStay(front, info, k);
    }
  }

  lemma {:induction false} RunTracks(infos: seq<LineInfo>)
    ensures Tracks(infos, Run(Initial, infos))
  {
    if infos != [] {
      var front := infos[..|infos| - 1];
      var info := infos[|infos| - 1];
      assert infos == front + [info];
      RunTracks(front);
      var st := Run(Initial, front);
      if info.dates.Some? {
        DateLineOpens(front, info, st);
        DateLineEmits(front, info, st);
      } else {
        OtherLineExtends(front, info, st);
        OtherLineEmitsNothing(front, info, st);
      }
    }
  }

  /** Closing the open record of a tracked state yields the record of every block. */
  lemma FlushTracks(infos: seq<LineInfo>, st: State)
    requires Tracks(infos, st)
    ensures |Flush(st)| == |DateIndices(infos)|
    ensures forall k :: 0 <= k < |DateIndices(infos)| ==> Flush(st)[k] == RecordOf(Block(infos, k))
  {
    var idx := DateIndices(infos);
    if idx != [] {
      var m := idx[|idx| - 1];
      assert Block(infos, |idx| - 1) == infos[m..];
    }
  }

  /**
   * The fold emits one record per date line, in input order, and record `k`
   * is built from block `k` alone.
   */
  lemma RunByBlocks(infos: seq<LineInfo>)
    ensures |Flush(Run(Initial, infos))| == |DateIndices(infos)|
    ensures forall k :: 0 <= k < |DateIndices(infos)| ==>
      Flush(Run(Initial, infos))[k] == RecordOf(Block(infos, k))
  {
    RunTracks(infos);
    FlushTracks(infos, Run(Initial, infos));
  }

  /** The same, for the reconstructor on raw lines. */
  lemma ReconstructByBlocks(lines: seq<string>)
    ensures |Reconstruct(lines)| == |DateIndices(ReadAll(lines))|
    ensures forall k :: 0 <= k < |DateIndices(ReadAll(lines))| ==>
      Reconstruct(lines)[k] == RecordOf(Block(ReadAll(lines), k))
  {
    RunByBlocks(ReadAll(lines));
  }
}
