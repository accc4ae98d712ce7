/** Coalescing of updated row numbers into first..last announcements. */
module RowRuns {

  function Span(first: int, last: int): seq<int>
    decreases last - first
  {
    if last < first then [] else Span(first, last - 1) + [last]
  }

  /** The rows a list of announcements covers, in order. */
  function Covered(runs: seq<(int, int)>): seq<int> {
    if runs == [] then []
    else Covered(runs[..|runs| - 1]) + Span(runs[|runs| - 1].0, runs[|runs| - 1].1)
  }

  lemma CoveredOneMore(runs: seq<(int, int)>, run: (int, int))
    ensures Covered(runs + [run]) == Covered(runs) + Span(run.0, run.1)
  {
    assert (runs + [run])[..|runs|] == runs;
  }

  lemma SpanGrows(first: int, last: int)
    requires first <= last
    ensures Span(first, last + 1) == Span(first, last) + [last + 1]
    ensures Span(first, first) == [first]
  {
    assert Span(first, first - 1) == [];
  }

  /** No two neighbouring announcements could have been one. */
  ghost predicate Maximal(runs: seq<(int, int)>) {
    forall i :: 0 <= i < |runs| - 1 ==> runs[i + 1].0 != runs[i].1 + 1
  }

  class RowUpdateRuns {
    var first: int
    var last: int
    var sent: seq<(int, int)>
    /** Every row handed in since construction. */
    ghost var added: seq<int>

    ghost predicate Valid()
      reads this
    {
      && (first < 0 ==> Covered(sent) == added)
      && (first >= 0 ==> first <= last && Covered(sent) + Span(first, last) == added)
      && Maximal(sent)
      && (first >= 0 && sent != [] ==> first != sent[|sent| - 1].1 + 1)
      && (forall i :: 0 <= i < |sent| ==> 0 <= sent[i].0 <= sent[i].1 && sent[i].1 in added)
      && (first >= 0 ==> last in added)
    }

    constructor ()
      ensures Valid() && added == [] && sent == [] && first < 0
    {
      first, last, sent, added := -1, -1, [], [];
    }

    method Add(row: nat)
      requires Valid() && (first < 0 ==> sent == [])
      modifies this
      ensures Valid() && added == old(added) + [row] && first >= 0
    {
      hide Covered, Span;
      SpanGrows(row, row);
      added := added + [row];
      if first < 0 {
        first, last := row, row;
        return;
      }
      if row == last + 1 {
        SpanGrows(first, last);
        last := row;
        return;
      }
      CoveredOneMore(sent, (first, last));
      sent := sent + [(first, last)];
      first, last := row, row;
    }

    /** What was announced is what was handed in, row for row and in order. */
    method Flush()
      requires Valid()
      modifies this
      ensures Valid() && added == old(added)
      ensures Covered(sent) == added && Maximal(sent)
      ensures forall i :: 0 <= i < |sent| ==> 0 <= sent[i].0 <= sent[i].1 && sent[i].1 in added
    {
      hide Covered, Span;
      if first < 0 { return; }
      CoveredOneMore(sent, (first, last));
      sent := sent + [(first, last)];
      first, last := -1, -1;
    }
  }
}
