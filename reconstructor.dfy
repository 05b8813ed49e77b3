/**
 * The line reconstructor as a pure fold: a `State` holds what the loop of
 * `extract_data_line_by_line` holds (`current_date`, `current_operation`,
 * `current_debit`, `extracted_data`), `ReadLine` and `Advance` are the two
 * halves of one pass of its loop body, `Run` folds the lines in order and
 * `Reconstruct` adds the final flush.
 */
module LineReconstructor {
  import opened Wrappers
  import opened Text
  import opened Patterns

  /**
   * One emitted row: 'Date de début', 'Date de fin', 'Opération' and
   * 'Débit' (absent when no amount was seen).
   */
  datatype Record = Record(startDate: string, endDate: string, operation: string, debit: Option<string>)

  /** The loop's variables between two lines. */
  datatype State = State(
    date: Option<(string, string)>,  // current_date
    parts: seq<string>,              // current_operation
    debit: Option<string>,           // current_debit
    out: seq<Record>)                // extracted_data

  const Initial: State := State(None, [], None, [])

  /** The records a state accounts for: those emitted and the open one, if any. */
  function RecordCount(st: State): nat {
    |st.out| + (if st.date.Some? then 1 else 0)
  }

  /**
   * The dictionary built when a record is emitted: the dates verbatim, the
   * fragments space-joined and stripped, and the debit as it stands.
   */
  function MakeRecord(date: (string, string), parts: seq<string>, debit: Option<string>): (r: Record)
    ensures r.startDate == date.0 && r.endDate == date.1 && r.debit == debit
    ensures |r.operation| <= |JoinWithSpace(parts)|
  {
    Record(date.0, date.1, Strip(JoinWithSpace(parts)), debit)
  }

  /**
   * An emitted operation never starts or ends with whitespace, and it is
   * empty when every fragment is blank.
   */
  lemma MakeRecordOperation(date: (string, string), parts: seq<string>, debit: Option<string>)
    ensures var op := MakeRecord(date, parts, debit).operation;
      && (op != [] ==> !IsSpace(op[0]) && !IsSpace(op[|op| - 1]))
      && ((forall p :: p in parts ==> forall k :: 0 <= k < |p| ==> IsSpace(p[k])) ==> op == [])
  {
    StripSpec(JoinWithSpace(parts));
    JoinOfBlanksIsBlank(parts);
  }

  /** Space-joining blank fragments gives a blank string. */
  lemma {:induction false} JoinOfBlanksIsBlank(parts: seq<string>)
    ensures (forall p :: p in parts ==> forall k :: 0 <= k < |p| ==> IsSpace(p[k])) ==>
      forall k :: 0 <= k < |JoinWithSpace(parts)| ==> IsSpace(JoinWithSpace(parts)[k])
  {
    if |parts| > 1 && forall p :: p in parts ==> forall k :: 0 <= k < |p| ==> IsSpace(p[k]) {
      JoinOfBlanksIsBlank(parts[1..]);
      var rest := JoinWithSpace(parts[1..]);
      var whole := parts[0] + " " + rest;
      assert parts[0] in parts;
      forall k | 0 <= k < |whole| ensures IsSpace(whole[k]) {
        if k < |parts[0]| {
        } else if k == |parts[0]| {
        } else {
          assert whole[k] == rest[k - |parts[0]| - 1];
        }
      }
    }
  }

  /** The open record, if any, appended to what was emitted already. */
  function Flush(st: State): (r: seq<Record>)
    ensures |r| == RecordCount(st)
    ensures r[..|st.out|] == st.out
  {
    if st.date.Some? then st.out + [MakeRecord(st.date.value, st.parts, st.debit)] else st.out
  }

  /** The line after its date prefix is cut off and the rest stripped. */
  function AfterDate(line: string): (r: string)
    ensures |r| <= |line|
    ensures MatchDatePair(line).Some? ==> |r| + DatePairLength <= |line|
  {
    match MatchDatePair(line)
    case Some(dm) => Strip(line[dm.end..])
    case None => line
  }

  /** A date line loses its 23-character prefix and its outer whitespace; any other line stays as it is. */
  lemma AfterDateSpec(line: string)
    ensures !DatePairPrefix(line) ==> AfterDate(line) == line
    ensures DatePairPrefix(line) ==>
      && AfterDate(line) == Strip(line[DatePairLength..])
      && (AfterDate(line) == [] || (!IsSpace(AfterDate(line)[0]) && !IsSpace(AfterDate(line)[|AfterDate(line)| - 1])))
  {
    MatchDatePairSpec(line);
    if DatePairPrefix(line) {
      StripSpec(line[DatePairLength..]);
    }
  }

  /**
   * What one line contributes: the date pair that opens a record (if the
   * date pattern matches at its start), the amount that becomes the debit
   * (the leftmost debit-pattern match in its date-free part), and the text
   * left for the operation (the date-free part cut at that amount).
   */
  datatype LineInfo = LineInfo(dates: Option<(string, string)>, amount: Option<string>, rest: string)

  /** The first half of the loop body on one line: both regular expressions and the cuts. */
  function ReadLine(line: string): (info: LineInfo)
    ensures |info.rest| <= |AfterDate(line)|
    ensures info.amount.Some? ==> |info.rest| + 4 <= |AfterDate(line)|
  {
    var dates := match MatchDatePair(line)
      case Some(dm) => Some((dm.first, dm.second))
      case None => None;
    var t := AfterDate(line);
    match SearchAmount(t)
    case Some(am) => LineInfo(dates, Some(am.group), Strip(t[..am.start]))
    case None => LineInfo(dates, None, t)
  }

  /** A line opens a record exactly when the date pattern matches at its start; the dates are copied verbatim. */
  lemma ReadLineDates(line: string)
    ensures ReadLine(line).dates.Some? <==> DatePairPrefix(line)
    ensures ReadLine(line).dates.Some? ==> ReadLine(line).dates.value == (line[..10], line[13..23])
  {
    MatchDatePairSpec(line);
  }

  /** A line's amount is a `\d+,\d{2}` match, and it is absent exactly when the date-free part holds none. */
  lemma ReadLineAmount(line: string)
    ensures ReadLine(line).amount.Some? ==> IsAmount(ReadLine(line).amount.value)
    ensures ReadLine(line).amount.None? <==> !ContainsAmount(AfterDate(line))
    ensures ReadLine(line).amount.Some? ==>
      SearchAmount(AfterDate(line)).Some? && ReadLine(line).amount.value == SearchAmount(AfterDate(line)).value.group
  {
    SearchAmountSpec(AfterDate(line));
  }

  /**
   * What a line leaves for the operation holds no amount. Without an amount
   * it is the whole date-free text; with one, it is that text in front of
   * the leftmost amount, with only whitespace cut off between it and the
   * amount: the amount cuts the line.
   */
  lemma ReadLineRest(line: string)
    ensures !ContainsAmount(ReadLine(line).rest)
    ensures ReadLine(line).amount.None? ==> ReadLine(line).rest == AfterDate(line)
    ensures ReadLine(line).amount.Some? ==>
      var t := AfterDate(line);
      var cut := SearchAmount(t).value.start;
      var o := LeadingSpaces(t[..cut]);
      && o + |ReadLine(line).rest| <= cut
      && ReadLine(line).rest == t[o..o + |ReadLine(line).rest|]
      && forall k :: o + |ReadLine(line).rest| <= k < cut ==> IsSpace(t[k])
  {
    var t := AfterDate(line);
    SearchAmountSpec(t);
    match SearchAmount(t)
    case Some(am) =>
      assert ReadLine(line).rest == Strip(t[..am.start]);
      CutAtAmount(t);
      StripSpec(t[..am.start]);
      forall k | LeadingSpaces(t[..am.start]) + |ReadLine(line).rest| <= k < am.start
        ensures IsSpace(t[k])
      {
        assert t[..am.start][k] == t[k];
      }
    case None =>
      assert ReadLine(line).rest == t;
  }

  /**
   * A line with neither a date nor an amount is kept as it is; any other
   * line leaves its text stripped.
   */
  lemma ReadLineRestShape(line: string)
    ensures ReadLine(line).dates.None? && ReadLine(line).amount.None? ==> ReadLine(line).rest == line
    ensures ReadLine(line).dates.Some? || ReadLine(line).amount.Some? ==>
      var r := ReadLine(line).rest;
      r == [] || (!IsSpace(r[0]) && !IsSpace(r[|r| - 1]))
  {
    var t := AfterDate(line);
    ReadLineDates(line);
    AfterDateSpec(line);
    match SearchAmount(t)
    case Some(am) =>
      assert ReadLine(line).rest == Strip(t[..am.start]);
      CutAtAmount(t);
    case None =>
      assert ReadLine(line).rest == t;
  }

  /**
   * The stripped text in front of the leftmost amount lies before that
   * amount and holds no amount and no outer whitespace.
   */
  lemma CutAtAmount(t: string)
    requires SearchAmount(t).Some?
    ensures var cut := SearchAmount(t).value.start;
      var r := Strip(t[..cut]);
      var o := LeadingSpaces(t[..cut]);
      && o + |r| <= cut
      && r == t[o..o + |r|]
      && !ContainsAmount(r)
      && (r == [] || (!IsSpace(r[0]) && !IsSpace(r[|r| - 1])))
  {
    var start := SearchAmount(t).value.start;
    SearchAmountSpec(t);
    StripSpec(t[..start]);
    NoAmountBeforeFirst(t, start, LeadingSpaces(t[..start]), Strip(t[..start]));
  }

  /** The text before the leftmost amount, or any slice of it, holds no amount. */
  lemma NoAmountBeforeFirst(t: string, start: nat, o: nat, r: string)
    requires o + |r| <= start <= |t|
    requires forall i: nat, j: nat :: i < start ==> !AmountAt(t, i, j)
    requires r == t[o..o + |r|]
    ensures !ContainsAmount(r)
  {
    if ContainsAmount(r) {
      var i: nat, j: nat :| AmountAt(r, i, j);
      AmountAtWiden(t, o, o + |r|, i, j);
      assert false;
    }
  }

  /** Every line of the input, read, in order. */
  function ReadAll(lines: seq<string>): (infos: seq<LineInfo>)
    ensures |infos| == |lines|
  {
    if lines == [] then [] else ReadAll(lines[..|lines| - 1]) + [ReadLine(lines[|lines| - 1])]
  }

  /** Line `i` of the input is read on its own. */
  lemma {:induction false} ReadAllAt(lines: seq<string>, i: nat)
    requires i < |lines|
    ensures ReadAll(lines)[i] == ReadLine(lines[i])
  {
    if i < |lines| - 1 {
      ReadAllAt(lines[..|lines| - 1], i);
    }
  }

  /**
   * The second half of the loop body: a date pair emits the open record and
   * opens a new one; an amount overwrites the debit; non-empty text is
   * appended to the operation fragments.
   */
  function Advance(st: State, info: LineInfo): (r: State)
    ensures RecordCount(r) == RecordCount(st) + (if info.dates.Some? then 1 else 0)
    ensures |st.out| <= |r.out| && r.out[..|st.out|] == st.out
  {
    var started :=
      if info.dates.Some? then State(info.dates, [], None, Flush(st)) else st;
    var debited :=
      if info.amount.Some? then started.(debit := info.amount) else started;
    if info.rest != [] then debited.(parts := debited.parts + [info.rest]) else debited
  }

  /** The loop over the read lines, from state `st`. */
  function Run(st: State, infos: seq<LineInfo>): (r: State)
    ensures RecordCount(r) <= RecordCount(st) + |infos|
    ensures |st.out| <= |r.out| && r.out[..|st.out|] == st.out
  {
    if infos == [] then st else Advance(Run(st, infos[..|infos| - 1]), infos[|infos| - 1])
  }

  /** Reading one more line of the input appends its reading. */
  lemma ReadAllPrefix(lines: seq<string>, i: nat)
    requires i < |lines|
    ensures ReadAll(lines[..i + 1]) == ReadAll(lines[..i]) + [ReadLine(lines[i])]
  {
    assert lines[..i + 1][..i] == lines[..i];
  }

  /** Folding one more line is one more step. */
  lemma RunSnoc(st: State, infos: seq<LineInfo>, info: LineInfo)
    ensures Run(st, infos + [info]) == Advance(Run(st, infos), info)
  {
    assert (infos + [info])[..|infos|] == infos;
  }

  /** `extract_data_line_by_line(lines)` as a value. */
  function Reconstruct(lines: seq<string>): (r: seq<Record>)
    ensures |r| <= |lines|
  {
    Flush(Run(Initial, ReadAll(lines)))
  }
}
