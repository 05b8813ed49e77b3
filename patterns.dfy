/**
 * The two regular expressions of the line reconstructor, as character
 * predicates, with the matchers that play the part of `re.match` and
 * `re.search`.
 *
 *   date pattern   `(\d{2}/\d{2}/\d{4}) \| (\d{2}/\d{2}/\d{4})`
 *   debit pattern  `(\d+\,\d{2})`
 *
 * `\d` stands for the ASCII digits only.
 */
module Patterns {
  import opened Wrappers

  predicate IsDigit(c: char) {
    '0' <= c <= '9'
  }

  // ---------------------------------------------------------------- dates

  /** `d` is one `\d{2}/\d{2}/\d{4}` token (DD/MM/YYYY, no calendar check). */
  predicate IsDateToken(d: string) {
    && |d| == 10
    && IsDigit(d[0]) && IsDigit(d[1]) && d[2] == '/'
    && IsDigit(d[3]) && IsDigit(d[4]) && d[5] == '/'
    && IsDigit(d[6]) && IsDigit(d[7]) && IsDigit(d[8]) && IsDigit(d[9])
  }

  /** The length of a date-pair match: two tokens of 10 and the 3-character " | ". */
  const DatePairLength: nat := 23

  /** The date pattern matches at position 0 of `s` (what `re.match` tries). */
  predicate DatePairPrefix(s: string) {
    && |s| >= DatePairLength
    && IsDateToken(s[..10])
    && s[10..13] == " | "
    && IsDateToken(s[13..23])
  }

  /** One position of a fixed-width pattern: `\d`, or a literal character. */
  datatype CharClass = AnyDigit | Literal(c: char)

  predicate Fits(p: CharClass, c: char) {
    match p
    case AnyDigit => IsDigit(c)
    case Literal(l) => c == l
  }

  const DateTokenPattern: seq<CharClass> :=
    [AnyDigit, AnyDigit, Literal('/'), AnyDigit, AnyDigit, Literal('/'),
     AnyDigit, AnyDigit, AnyDigit, AnyDigit]

  /** The date pattern, position by position, without its two groups. */
  const DatePairPattern: seq<CharClass> :=
    DateTokenPattern + [Literal(' '), Literal('|'), Literal(' ')] + DateTokenPattern

  /** `s` starts with a string that fits the fixed-width pattern `p`. */
  function PrefixMatches(p: seq<CharClass>, s: string): (b: bool)
    ensures b <==> |p| <= |s| && forall k :: 0 <= k < |p| ==> Fits(p[k], s[k])
  {
    if p == [] then true
    else s != [] && Fits(p[0], s[0]) && PrefixMatches(p[1..], s[1..])
  }

  /** The positional pattern and the predicate describe the same strings. */
  lemma DatePairPatternIsDatePair(s: string)
    ensures PrefixMatches(DatePairPattern, s) <==> DatePairPrefix(s)
  {
    var p := DatePairPattern;
    assert |p| == DatePairLength;
    assert p[0] == p[1] == p[3] == p[4] == p[6] == p[7] == p[8] == p[9] == AnyDigit;
    assert p[13] == p[14] == p[16] == p[17] == p[19] == p[20] == p[21] == p[22] == AnyDigit;
    assert p[2] == p[5] == p[15] == p[18] == Literal('/');
    assert p[10] == p[12] == Literal(' ') && p[11] == Literal('|');
    if DatePairPrefix(s) {
      forall k | 0 <= k < |p| ensures Fits(p[k], s[k]) {
        if k < 10 {
          assert s[k] == s[..10][k];
        } else if k < 13 {
          assert s[k] == s[10..13][k - 10];
        } else {
          assert s[k] == s[13..23][k - 13];
        }
      }
    }
  }

  /** What `re.match(date_pattern, line)` gives: the two groups and `end()`. */
  datatype DateMatch = DateMatch(first: string, second: string, end: nat)

  function MatchDatePair(line: string): (m: Option<DateMatch>)
    ensures m.Some? ==> m.value.end == DatePairLength <= |line|
  {
    if PrefixMatches(DatePairPattern, line) then
      Some(DateMatch(line[..10], line[13..23], |DatePairPattern|))
    else
      None
  }

  /**
   * The date pattern matches exactly the lines that start with a date pair;
   * the groups are the two dates, and the match covers them and the
   * separator between them.
   */
  lemma MatchDatePairSpec(line: string)
    ensures MatchDatePair(line).Some? <==> DatePairPrefix(line)
    ensures MatchDatePair(line).Some? ==>
      var m := MatchDatePair(line).value;
      && m.first == line[..10] && IsDateToken(m.first)
      && m.second == line[13..23] && IsDateToken(m.second)
      && line[..m.end] == m.first + " | " + m.second
  {
    DatePairPatternIsDatePair(line);
  }

  // -------------------------------------------------------------- amounts

  /** `s[i..j]` is a match of `\d+,\d{2}`. */
  predicate AmountAt(s: string, i: nat, j: nat) {
    && i + 4 <= j <= |s|
    && (forall k :: i <= k < j - 3 ==> IsDigit(s[k]))
    && s[j - 3] == ','
    && IsDigit(s[j - 2])
    && IsDigit(s[j - 1])
  }

  /** `a` as a whole is a `\d+,\d{2}` amount. */
  predicate IsAmount(a: string) {
    AmountAt(a, 0, |a|)
  }

  /** `s` holds a match of the debit pattern somewhere. */
  ghost predicate ContainsAmount(s: string) {
    exists i: nat, j: nat :: AmountAt(s, i, j)
  }

  /** Where the run of digits that starts at `i` ends. */
  function DigitRunEnd(s: string, i: nat): (e: nat)
    requires i <= |s|
    ensures i <= e <= |s|
    decreases |s| - i
  {
    if i < |s| && IsDigit(s[i]) then DigitRunEnd(s, i + 1) else i
  }

  /** The run is made of digits and is not followed by one. */
  lemma {:induction false} DigitRunEndSpec(s: string, i: nat)
    requires i <= |s|
    ensures forall k :: i <= k < DigitRunEnd(s, i) ==> IsDigit(s[k])
    ensures DigitRunEnd(s, i) < |s| ==> !IsDigit(s[DigitRunEnd(s, i)])
    decreases |s| - i
  {
    if i < |s| && IsDigit(s[i]) {
      DigitRunEndSpec(s, i + 1);
    }
  }

  /**
   * A match of `\d+,\d{2}` that starts at `i` takes the whole digit run:
   * at a given start there is at most one match, so the greedy `\d+` never
   * has to give a digit back.
   */
  lemma AmountEndIsDigitRunEnd(s: string, i: nat, j: nat)
    requires AmountAt(s, i, j)
    ensures j - 3 == DigitRunEnd(s, i)
  {
    DigitRunEndSpec(s, i);
  }

  /** The end of the match of `\d+,\d{2}` that starts at `i`, if there is one. */
  function AmountEndAt(s: string, i: nat): (r: Option<nat>)
    requires i <= |s|
    ensures r.Some? ==> i + 4 <= r.value <= |s|
  {
    var e := DigitRunEnd(s, i);
    if i < e && e + 3 <= |s| && s[e] == ',' && IsDigit(s[e + 1]) && IsDigit(s[e + 2]) then
      Some(e + 3)
    else
      None
  }

  /** `AmountEndAt` finds the match that starts at `i` exactly when there is one. */
  lemma AmountEndAtSpec(s: string, i: nat)
    requires i <= |s|
    ensures AmountEndAt(s, i).Some? ==> AmountAt(s, i, AmountEndAt(s, i).value)
    ensures AmountEndAt(s, i).None? ==> forall j: nat :: !AmountAt(s, i, j)
  {
    DigitRunEndSpec(s, i);
    forall j: nat | AmountAt(s, i, j) ensures AmountEndAt(s, i).Some? {
      AmountEndIsDigitRunEnd(s, i, j);
    }
  }

  /** What `re.search(debit_pattern, line)` gives: `start()`, `end()` and `group(1)`. */
  datatype AmountMatch = AmountMatch(start: nat, end: nat, group: string)

  /** `re.search` from position `from` on: the first position with a match wins. */
  function SearchAmountFrom(s: string, from: nat): (m: Option<AmountMatch>)
    requires from <= |s|
    ensures m.Some? ==> from <= m.value.start && m.value.start + 4 <= m.value.end <= |s|
    decreases |s| - from
  {
    if from == |s| then None
    else
      match AmountEndAt(s, from)
      case Some(e) => Some(AmountMatch(from, e, s[from..e]))
      case None => SearchAmountFrom(s, from + 1)
  }

  /** The search from `from` returns the leftmost match at or after `from`, or none if there is none. */
  lemma {:induction false} SearchAmountFromSpec(s: string, from: nat)
    requires from <= |s|
    ensures var m := SearchAmountFrom(s, from);
      m.Some? ==>
        && AmountAt(s, m.value.start, m.value.end)
        && m.value.group == s[m.value.start..m.value.end]
        && forall i: nat, j: nat :: from <= i < m.value.start ==> !AmountAt(s, i, j)
    ensures SearchAmountFrom(s, from).None? ==> forall i: nat, j: nat :: from <= i ==> !AmountAt(s, i, j)
    decreases |s| - from
  {
    if from < |s| {
      AmountEndAtSpec(s, from);
      if AmountEndAt(s, from).None? {
        SearchAmountFromSpec(s, from + 1);
      }
    }
  }

  /** `re.search(debit_pattern, s)`. */
  function SearchAmount(s: string): (m: Option<AmountMatch>)
    ensures m.Some? ==> m.value.start + 4 <= m.value.end <= |s|
  {
    SearchAmountFrom(s, 0)
  }

  /**
   * The search returns the leftmost match of `\d+,\d{2}` in `s`, whose
   * group is the matched text, and none exactly when `s` holds no match.
   */
  lemma SearchAmountSpec(s: string)
    ensures var m := SearchAmount(s);
      m.Some? ==>
        && AmountAt(s, m.value.start, m.value.end)
        && m.value.group == s[m.value.start..m.value.end]
        && IsAmount(m.value.group)
        && forall i: nat, j: nat :: i < m.value.start ==> !AmountAt(s, i, j)
    ensures SearchAmount(s).None? <==> !ContainsAmount(s)
  {
    SearchAmountFromSpec(s, 0);
    var m := SearchAmount(s);
    if m.Some? {
      AmountAtInfix(s, m.value.start, m.value.end);
    }
  }

  /** A match of `\d+,\d{2}` is the same match in any slice that holds it. */
  lemma AmountAtInfix(s: string, i: nat, j: nat)
    requires AmountAt(s, i, j)
    ensures AmountAt(s[i..j], 0, j - i)
    ensures forall o: nat, p: nat :: o <= i && j <= p <= |s| ==> AmountAt(s[o..p], i - o, j - o)
  {
    forall o: nat, p: nat | o <= i && j <= p <= |s|
      ensures AmountAt(s[o..p], i - o, j - o)
    {
      var u := s[o..p];
      forall k | i - o <= k < j - o - 3 ensures IsDigit(u[k]) {
        assert u[k] == s[k + o];
      }
    }
  }

  /** The converse: a match inside a slice is a match in the whole string. */
  lemma AmountAtWiden(s: string, o: nat, p: nat, i: nat, j: nat)
    requires o <= p <= |s|
    requires AmountAt(s[o..p], i, j)
    ensures AmountAt(s, i + o, j + o)
  {
    var u := s[o..p];
    forall k | i + o <= k < j + o - 3 ensures IsDigit(s[k]) {
      assert s[k] == u[k - o];
    }
  }
}
