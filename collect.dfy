/**
  The row loop both statement parsers share: each row is parsed on its own and the rows that
  parse are kept, in file order.
*/
module Collecting {
  import opened Wrappers

  /** The loop both parsers run: every row is parsed on its own, and the rows that parse are kept
      in file order. */
  function Collect<R, T>(rows: seq<R>, parse: R -> Option<T>): (out: seq<T>)
    ensures |out| <= |rows|
  {
    if rows == [] then []
    else
      var last := rows[|rows| - 1];
      Collect(rows[..|rows| - 1], parse) + (match parse(last) case Some(t) => [t] case None => [])
  }

  /** Positions strictly increasing: the order of the kept rows is the order of the file. */
  ghost predicate Increasing(idx: seq<int>)
  {
    forall a, b :: 0 <= a < b < |idx| ==> idx[a] < idx[b]
  }

  /** Entry j of `out` is the parse of row idx[j]. */
  ghost predicate Picks<R, T>(rows: seq<R>, parse: R -> Option<T>, idx: seq<int>, out: seq<T>)
  {
    |idx| == |out| && forall j :: 0 <= j < |idx| ==> 0 <= idx[j] < |rows| && parse(rows[idx[j]]) == Some(out[j])
  }

  /** Every row that parses is among the picked positions. */
  ghost predicate Covers<R, T>(rows: seq<R>, parse: R -> Option<T>, idx: seq<int>)
  {
    forall i :: 0 <= i < |rows| && parse(rows[i]).Some? ==> i in idx
  }

  /** The output is exactly the parses of the accepted rows, in file order: the kept rows are at
      increasing positions, each output entry is its row's parse, and no accepted row is missing. */
  lemma {:induction false} CollectExactly<R, T>(rows: seq<R>, parse: R -> Option<T>) returns (idx: seq<int>)
    ensures Increasing(idx) && Picks(rows, parse, idx, Collect(rows, parse)) && Covers(rows, parse, idx)
  {
    if rows == [] {
      idx := [];
    } else {
      var n := |rows| - 1;
      var prefix := CollectExactly(rows[..n], parse);
      if parse(rows[n]).Some? {
        idx := prefix + [n];
        CollectStep(rows, parse, prefix, Collect(rows[..n], parse), idx);
      } else {
        idx := prefix;
        CollectSkip(rows, parse, prefix, Collect(rows[..n], parse));
      }
    }
  }

  /** The step of CollectExactly for a last row that does not parse. */
  lemma CollectSkip<R, T>(rows: seq<R>, parse: R -> Option<T>, prefix: seq<int>, before: seq<T>)
    requires rows != [] && parse(rows[|rows| - 1]).None?
    requires Picks(rows[..|rows| - 1], parse, prefix, before) && Covers(rows[..|rows| - 1], parse, prefix)
    requires before == Collect(rows[..|rows| - 1], parse)
    ensures Picks(rows, parse, prefix, Collect(rows, parse)) && Covers(rows, parse, prefix)
  {
    CollectOfSkipped(rows, parse);
    PicksExtend(rows, parse, prefix, before);
    CoversSkip(rows, parse, prefix);
  }

  lemma CollectOfSkipped<R, T>(rows: seq<R>, parse: R -> Option<T>)
    requires rows != [] && parse(rows[|rows| - 1]).None?
    ensures Collect(rows, parse) == Collect(rows[..|rows| - 1], parse)
  {
    var tail: seq<T> := match parse(rows[|rows| - 1]) case Some(t) => [t] case None => [];
    assert tail == [];
    assert Collect(rows, parse) == Collect(rows[..|rows| - 1], parse) + tail;
  }

  /** Positions picked among the rows before the last are picked among all the rows. */
  lemma PicksExtend<R, T>(rows: seq<R>, parse: R -> Option<T>, prefix: seq<int>, before: seq<T>)
    requires rows != [] && Picks(rows[..|rows| - 1], parse, prefix, before)
    ensures Picks(rows, parse, prefix, before)
  {
    var n := |rows| - 1;
    forall j | 0 <= j < |prefix| ensures 0 <= prefix[j] < |rows| && parse(rows[prefix[j]]) == Some(before[j]) {
      assert rows[..n][prefix[j]] == rows[prefix[j]];
    }
  }

  lemma CoversSkip<R, T>(rows: seq<R>, parse: R -> Option<T>, prefix: seq<int>)
    requires rows != [] && parse(rows[|rows| - 1]).None? && Covers(rows[..|rows| - 1], parse, prefix)
    ensures Covers(rows, parse, prefix)
  {
    var n := |rows| - 1;
    forall i | 0 <= i < |rows| && parse(rows[i]).Some? ensures i in prefix {
      assert i < n && rows[..n][i] == rows[i];
    }
  }

  /** The step of CollectExactly for a last row that parses. */
  lemma CollectStep<R, T>(rows: seq<R>, parse: R -> Option<T>, prefix: seq<int>, before: seq<T>, idx: seq<int>)
    requires rows != [] && parse(rows[|rows| - 1]).Some?
    requires Increasing(prefix) && Picks(rows[..|rows| - 1], parse, prefix, before) && Covers(rows[..|rows| - 1], parse, prefix)
    requires before == Collect(rows[..|rows| - 1], parse) && idx == prefix + [|rows| - 1]
    ensures Increasing(idx) && Picks(rows, parse, idx, Collect(rows, parse)) && Covers(rows, parse, idx)
  {
    var n := |rows| - 1;
    assert Collect(rows, parse) == before + [parse(rows[n]).value];
    IncreasingStep(prefix, n, |rows[..n]|);
    PicksStep(rows, parse, prefix, before);
    CoversStep(rows, parse, prefix);
  }

  lemma IncreasingStep(prefix: seq<int>, n: int, bound: int)
    requires Increasing(prefix) && bound == n && forall j :: 0 <= j < |prefix| ==> prefix[j] < bound
    ensures Increasing(prefix + [n])
  {
    var idx := prefix + [n];
    forall a, b | 0 <= a < b < |idx| ensures idx[a] < idx[b] {
      if b == |prefix| {
        assert idx[a] == prefix[a];
      } else {
        assert idx[a] == prefix[a] && idx[b] == prefix[b];
      }
    }
  }

  lemma PicksStep<R, T>(rows: seq<R>, parse: R -> Option<T>, prefix: seq<int>, before: seq<T>)
    requires rows != [] && parse(rows[|rows| - 1]).Some?
    requires Picks(rows[..|rows| - 1], parse, prefix, before)
    ensures Picks(rows, parse, prefix + [|rows| - 1], before + [parse(rows[|rows| - 1]).value])
  {
    var n := |rows| - 1;
    var idx, out := prefix + [n], before + [parse(rows[n]).value];
    forall j | 0 <= j < |idx| ensures 0 <= idx[j] < |rows| && parse(rows[idx[j]]) == Some(out[j]) {
      if j < |prefix| {
        assert idx[j] == prefix[j] && out[j] == before[j];
        assert rows[..n][prefix[j]] == rows[prefix[j]];
      }
    }
  }

  lemma CoversStep<R, T>(rows: seq<R>, parse: R -> Option<T>, prefix: seq<int>)
    requires rows != [] && Covers(rows[..|rows| - 1], parse, prefix)
    ensures Covers(rows, parse, prefix + [|rows| - 1])
  {
    var n := |rows| - 1;
    forall i | 0 <= i < |rows| && parse(rows[i]).Some? ensures i in prefix + [n] {
      if i < n {
        assert rows[..n][i] == rows[i];
      }
    }
  }

}
