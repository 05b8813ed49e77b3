/**
 * How the reconstructor behaves on concatenated inputs: a record opened by
 * a date line never sees what came before that line, and lines in front of
 * the first date line are dropped.
 */
module Composition {
  import opened Patterns
  import opened LineReconstructor

  /** Reading is line by line, so it distributes over concatenation. */
  lemma ReadAllAppend(a: seq<string>, b: seq<string>)
    ensures ReadAll(a + b) == ReadAll(a) + ReadAll(b)
  {
    assert |ReadAll(a + b)| == |ReadAll(a) + ReadAll(b)|;
    forall i | 0 <= i < |a| + |b|
      ensures ReadAll(a + b)[i] == (ReadAll(a) + ReadAll(b))[i]
    {
      ReadAllAt(a + b, i);
      if i < |a| {
        ReadAllAt(a, i);
      } else {
        ReadAllAt(b, i - |a|);
      }
    }
  }

  /** Folding `a + b` is folding `a`, then folding `b` from where `a` left off. */
  lemma {:induction false} RunAppend(st: State, a: seq<LineInfo>, b: seq<LineInfo>)
    ensures Run(st, a + b) == Run(Run(st, a), b)
  {
    if b == [] {
      assert a + b == a;
    } else {
      var front := b[..|b| - 1];
      RunAppend(st, a, front);
      assert (a + b)[..|a + b| - 1] == a + front;
    }
  }

  /** The state `s` with the records `done` emitted in front of its own. */
  function AfterEmitted(s: State, done: seq<Record>): State {
    s.(out := done + s.out)
  }

  /** Records already emitted are carried along by every step and by the final flush. */
  lemma AdvanceAfterEmitted(s: State, done: seq<Record>, info: LineInfo)
    ensures Advance(AfterEmitted(s, done), info) == AfterEmitted(Advance(s, info), done)
    ensures Flush(AfterEmitted(s, done)) == done + Flush(s)
  {
  }

  /**
   * From a date line on, the fold does not depend on the state it starts
   * from, except that the open record of that state is emitted first.
   */
  lemma {:induction false} RunFromDateLine(st: State, b: seq<LineInfo>)
    requires b != [] && b[0].dates.Some?
    ensures Run(st, b) == AfterEmitted(Run(Initial, b), Flush(st))
  {
    var front := b[..|b| - 1];
    var info := b[|b| - 1];
    if front == [] {
      assert Run(st, b) == Advance(st, info);
      assert Run(Initial, b) == Advance(Initial, info);
    } else {
      RunFromDateLine(st, front);
      AdvanceAfterEmitted(Run(Initial, front), Flush(st), info);
    }
  }

  /**
   * Cutting the input in front of a date line cuts the output between two
   * records: no record mixes lines from both sides.
   */
  lemma ReconstructSplitsAtDateLine(a: seq<string>, b: seq<string>)
    requires b != [] && DatePairPrefix(b[0])
    ensures Reconstruct(a + b) == Reconstruct(a) + Reconstruct(b)
  {
    ReadAllAppend(a, b);
    ReadAllAt(b, 0);
    ReadLineDates(b[0]);
    RunAppend(Initial, ReadAll(a), ReadAll(b));
    RunFromDateLine(Run(Initial, ReadAll(a)), ReadAll(b));
    AdvanceAfterEmitted(Run(Initial, ReadAll(b)), Reconstruct(a), ReadLine(b[0]));
  }

  /** Two states that hold no open record and have emitted the same records. */
  predicate Unopened(s: State, t: State) {
    s.date.None? && t.date.None? && s.out == t.out
  }

  /**
   * States that differ only in text and debit gathered while no record was
   * open end in the same output.
   */
  lemma {:induction false} UnopenedAgree(s: State, t: State, infos: seq<LineInfo>)
    requires Unopened(s, t)
    ensures Unopened(Run(s, infos), Run(t, infos)) || Run(s, infos) == Run(t, infos)
    ensures Flush(Run(s, infos)) == Flush(Run(t, infos))
  {
    if infos != [] {
      UnopenedAgree(s, t, infos[..|infos| - 1]);
    }
  }

  /** Lines before any date line leave no open record and emit nothing. */
  lemma {:induction false} PreambleOpensNothing(infos: seq<LineInfo>)
    requires forall i :: 0 <= i < |infos| ==> infos[i].dates.None?
    ensures Run(Initial, infos).date.None? && Run(Initial, infos).out == []
  {
    if infos != [] {
      PreambleOpensNothing(infos[..|infos| - 1]);
    }
  }

  /** Lines in front of the first date line never reach the output. */
  lemma PreambleIgnored(pre: seq<string>, rest: seq<string>)
    requires forall i :: 0 <= i < |pre| ==> !DatePairPrefix(pre[i])
    ensures Reconstruct(pre + rest) == Reconstruct(rest)
  {
    ReadAllAppend(pre, rest);
    forall i | 0 <= i < |pre| ensures ReadAll(pre)[i].dates.None? {
      ReadAllAt(pre, i);
      ReadLineDates(pre[i]);
    }
    PreambleOpensNothing(ReadAll(pre));
    RunAppend(Initial, ReadAll(pre), ReadAll(rest));
    UnopenedAgree(Run(Initial, ReadAll(pre)), Initial, ReadAll(rest));
  }
}
