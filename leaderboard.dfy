/**
 * The "best combinations" leaderboard: the trials seen so far, sorted by
 * ascending error and cut to the best three.
 *
 * The source sorts with Python's built-in stable `sorted`, keyed on the
 * error. Here that sort is SortByError, an insertion sort that places each
 * element after the ones with an equal or smaller error. It is proved to be
 * sorted, a permutation and stable, and to be the only sequence with those
 * three properties, so it is the sort the source calls.
 */
module Leaderboard {

  /** One leaderboard row: the four gains tried and the error they scored. */
  datatype Trial = Trial(kp: real, ki: real, kd: real, alpha: real, error: real)

  /** How many rows the leaderboard keeps. */
  const Capacity: nat := 3

  function Min(a: nat, b: nat): nat { if a <= b then a else b }

  /** Ascending by error. */
  predicate Sorted(s: seq<Trial>) {
    forall i, j :: 0 <= i < j < |s| ==> s[i].error <= s[j].error
  }

  /** The rows of s whose error is e, in their order in s. */
  function WithError(s: seq<Trial>, e: real): seq<Trial>
  {
    if s == [] then []
    else (if s[0].error == e then [s[0]] else []) + WithError(s[1..], e)
  }

  /** Inserts t after every leading row whose error is at most t's. */
  function InsertByError(s: seq<Trial>, t: Trial): (r: seq<Trial>)
    ensures |r| == |s| + 1
  {
    if s == [] then [t]
    else if s[0].error <= t.error then [s[0]] + InsertByError(s[1..], t)
    else [t] + s
  }

  /** The stable sort by ascending error (insertion sort, left to right). */
  function SortByError(s: seq<Trial>): (r: seq<Trial>)
    ensures |r| == |s|
  {
    if s == [] then [] else InsertByError(SortByError(s[..|s| - 1]), s[|s| - 1])
  }

  /** The list update_best_combinations leaves: append, stable-sort, keep three. */
  function Update(board: seq<Trial>, t: Trial): (r: seq<Trial>)
    ensures |r| == Min(Capacity, |board| + 1)
    ensures Sorted(r)
  {
    var all := SortByError(board + [t]);
    SortIsSorted(board + [t]);
    PrefixOfSorted(all, Min(Capacity, |all|));
    all[..Min(Capacity, |all|)]
  }

  /** The board after inserting every trial of ts in turn. */
  function InsertAll(board: seq<Trial>, ts: seq<Trial>): seq<Trial>
    decreases |ts|
  {
    if ts == [] then board else InsertAll(Update(board, ts[0]), ts[1..])
  }

  /** Where InsertByError places a trial with error e: after every leading row with error at most e. */
  function InsertionIndex(s: seq<Trial>, e: real): (k: nat)
    ensures k <= |s|
    ensures forall i :: 0 <= i < k ==> s[i].error <= e
    ensures k < |s| ==> e < s[k].error
  {
    if s == [] || e < s[0].error then 0 else 1 + InsertionIndex(s[1..], e)
  }

  // ---------------------------------------------------------------------
  // InsertByError and SortByError

  /** A prefix of a sorted sequence is sorted. */
  lemma PrefixOfSorted(s: seq<Trial>, n: nat)
    requires Sorted(s) && n <= |s|
    ensures Sorted(s[..n])
  {
    forall i, j | 0 <= i < j < n ensures s[..n][i].error <= s[..n][j].error {
      assert s[..n][i] == s[i] && s[..n][j] == s[j];
    }
  }

  /** A row of WithError(s, e) is a row of s with error e. */
  lemma {:induction false} WithErrorMember(s: seq<Trial>, e: real, x: Trial)
    requires x in WithError(s, e)
    ensures x in s && x.error == e
  {
    if s[0] != x || s[0].error != e {
      WithErrorMember(s[1..], e, x);
    }
  }

  /** The first row's error value has a non-empty group. */
  lemma GroupOfHead(s: seq<Trial>)
    requires s != []
    ensures WithError(s, s[0].error) != []
  {
  }

  /** No row of s has error e, so WithError(s, e) is empty. */
  lemma {:induction false} WithErrorNone(s: seq<Trial>, e: real)
    requires forall i :: 0 <= i < |s| ==> s[i].error != e
    ensures WithError(s, e) == []
  {
    if s != [] {
      WithErrorNone(s[1..], e);
    }
  }

  lemma {:induction false} InsertKeepsSorted(s: seq<Trial>, t: Trial)
    requires Sorted(s)
    ensures Sorted(InsertByError(s, t))
  {
    if s != [] && s[0].error <= t.error {
      var rest := InsertByError(s[1..], t);
      InsertKeepsSorted(s[1..], t);
      InsertKeepsLowerBound(s[1..], t, s[0].error);
      var r := [s[0]] + rest;
      forall i, j | 0 <= i < j < |r| ensures r[i].error <= r[j].error {
        if i == 0 {
          assert r[j] == rest[j - 1];
          assert r[j] in rest;
        } else {
          assert r[i] == rest[i - 1] && r[j] == rest[j - 1];
        }
      }
    }
  }

  /** A bound below every row of s and below t is a bound below every row of the insertion. */
  lemma InsertKeepsLowerBound(s: seq<Trial>, t: Trial, b: real)
    requires forall i :: 0 <= i < |s| ==> b <= s[i].error
    requires b <= t.error
    ensures forall x :: x in InsertByError(s, t) ==> b <= x.error
  {
    InsertPermutes(s, t);
    forall x | x in InsertByError(s, t) ensures b <= x.error {
      assert x in multiset(InsertByError(s, t));
      assert x in multiset(s) || x == t;
    }
  }

  /** InsertByError puts t at InsertionIndex and shifts the rest up by one. */
  lemma {:induction false} InsertAtIndex(s: seq<Trial>, t: Trial)
    ensures var k := InsertionIndex(s, t.error);
            InsertByError(s, t) == s[..k] + [t] + s[k..]
  {
    if s != [] && s[0].error <= t.error {
      InsertAtIndex(s[1..], t);
      var k := InsertionIndex(s[1..], t.error);
      assert s[..k + 1] == [s[0]] + s[1..][..k];
      assert s[k + 1..] == s[1..][k..];
    }
  }

  lemma {:induction false} WithErrorAppend(a: seq<Trial>, b: seq<Trial>, e: real)
    ensures WithError(a + b, e) == WithError(a, e) + WithError(b, e)
  {
    if a == [] {
      assert a + b == b;
    } else {
      var x, rest := a[0], a[1..];
      var h := if x.error == e then [x] else [];
      WithErrorAppend(rest, b, e);
      assert a == [x] + rest;
      assert a + b == [x] + (rest + b);
      WithErrorCons(x, rest + b, e);
      WithErrorCons(x, rest, e);
      var wr, wb := WithError(rest, e), WithError(b, e);
      assert h + (wr + wb) == (h + wr) + wb;
    }
  }

  /** The rows with error e of x followed by s: x if it errs by e, then those of s. */
  lemma WithErrorCons(x: Trial, s: seq<Trial>, e: real)
    ensures WithError([x] + s, e) == (if x.error == e then [x] else []) + WithError(s, e)
  {
    assert ([x] + s)[0] == x && ([x] + s)[1..] == s;
  }

  /** InsertByError adds t and keeps every row of s. */
  lemma {:induction false} InsertPermutes(s: seq<Trial>, t: Trial)
    ensures multiset(InsertByError(s, t)) == multiset(s) + multiset{t}
  {
    if s != [] && s[0].error <= t.error {
      InsertPermutes(s[1..], t);
      assert s == [s[0]] + s[1..];
    }
  }

  /** SortByError returns its input's rows, each as often as in the input. */
  lemma {:induction false} SortPermutes(s: seq<Trial>)
    ensures multiset(SortByError(s)) == multiset(s)
  {
    if s != [] {
      var init, last := s[..|s| - 1], s[|s| - 1];
      SortPermutes(init);
      InsertPermutes(SortByError(init), last);
      assert s == init + [last];
      assert multiset(s) == multiset(init) + multiset{last};
    }
  }

  /** SortByError returns its rows in ascending order of error. */
  lemma {:induction false} SortIsSorted(s: seq<Trial>)
    ensures Sorted(SortByError(s))
  {
    if s != [] {
      SortIsSorted(s[..|s| - 1]);
      InsertKeepsSorted(SortByError(s[..|s| - 1]), s[|s| - 1]);
    }
  }

  /** In a sorted board, the rows with error e all precede a new row that errs by e. */
  lemma {:induction false} InsertIsStable(s: seq<Trial>, t: Trial, e: real)
    requires Sorted(s)
    ensures WithError(InsertByError(s, t), e)
         == WithError(s, e) + (if t.error == e then [t] else [])
  {
    var tail := if t.error == e then [t] else [];
    if s == [] {
    } else if s[0].error <= t.error {
      var h := if s[0].error == e then [s[0]] else [];
      InsertIsStable(s[1..], t, e);
      WithErrorCons(s[0], InsertByError(s[1..], t), e);
      assert h + (WithError(s[1..], e) + tail) == (h + WithError(s[1..], e)) + tail;
    } else {
      WithErrorCons(t, s, e);
      if t.error == e {
        WithErrorNone(s, e);
      }
    }
  }

  /** SortByError is stable: the rows of each error value keep their relative order. */
  lemma {:induction false} SortIsStable(s: seq<Trial>, e: real)
    ensures WithError(SortByError(s), e) == WithError(s, e)
  {
    if s != [] {
      var init, last := s[..|s| - 1], s[|s| - 1];
      SortIsStable(init, e);
      SortIsSorted(init);
      InsertIsStable(SortByError(init), last, e);
      assert s == init + [last];
      WithErrorAppend(init, [last], e);
    }
  }

  /** Two sorted sequences with the same rows for every error value are equal. */
  lemma {:induction false} SortedGroupsDetermine(a: seq<Trial>, b: seq<Trial>)
    requires Sorted(a) && Sorted(b)
    requires forall e :: WithError(a, e) == WithError(b, e)
    ensures a == b
  {
    if a == [] && b == [] {
    } else if a == [] {
      GroupOfHead(b);
      assert false;
    } else if b == [] {
      GroupOfHead(a);
      assert false;
    } else {
      var m, n := a[0].error, b[0].error;
      assert WithError(a, m) == [a[0]] + WithError(a[1..], m);
      WithErrorMember(b, m, a[0]);
      assert n <= m;
      assert WithError(b, n) == [b[0]] + WithError(b[1..], n);
      WithErrorMember(a, n, b[0]);
      assert m <= n;
      assert a[0] == WithError(a, m)[0] == WithError(b, m)[0] == b[0];
      forall e ensures WithError(a[1..], e) == WithError(b[1..], e) {
        var head := if a[0].error == e then [a[0]] else [];
        assert WithError(a, e) == head + WithError(a[1..], e);
        assert WithError(b, e) == head + WithError(b[1..], e);
        assert (head + WithError(a[1..], e))[|head|..] == WithError(a[1..], e);
        assert (head + WithError(b[1..], e))[|head|..] == WithError(b[1..], e);
      }
      SortedGroupsDetermine(a[1..], b[1..]);
      assert a == [a[0]] + a[1..] && b == [b[0]] + b[1..];
    }
  }

  /**
   * SortByError is THE stable sort: any sorted sequence that keeps the rows
   * of every error value in their input order is SortByError(s).
   */
  lemma StableSortIsUnique(s: seq<Trial>, r: seq<Trial>)
    requires Sorted(r)
    requires forall e :: WithError(r, e) == WithError(s, e)
    ensures r == SortByError(s)
  {
    forall e ensures WithError(r, e) == WithError(SortByError(s), e) {
      SortIsStable(s, e);
    }
    SortIsSorted(s);
    SortedGroupsDetermine(r, SortByError(s));
  }

  /** Sorting a sorted board changes nothing. */
  lemma SortOfSorted(s: seq<Trial>)
    requires Sorted(s)
    ensures SortByError(s) == s
  {
    StableSortIsUnique(s, s);
  }

  // ---------------------------------------------------------------------
  // Update

  /** On a sorted board, the update inserts the newcomer after its equals and cuts to three. */
  lemma UpdateOfSorted(board: seq<Trial>, t: Trial)
    requires Sorted(board)
    ensures var k := InsertionIndex(board, t.error);
            Update(board, t) == (board[..k] + [t] + board[k..])[..Min(Capacity, |board| + 1)]
  {
    assert (board + [t])[..|board|] == board;
    SortOfSorted(board);
    InsertAtIndex(board, t);
  }

  /** A newcomer no better than the third row is dropped: the board keeps its three rows. */
  lemma TiedNewcomerDropped(board: seq<Trial>, t: Trial)
    requires Sorted(board) && |board| == Capacity
    requires board[Capacity - 1].error <= t.error
    ensures Update(board, t) == board
  {
    UpdateOfSorted(board, t);
    var k := InsertionIndex(board, t.error);
    assert k == |board|;
    assert board[..k] == board;
  }

  /** A newcomer strictly better than the third row (or arriving at a short board) is kept. */
  lemma BetterNewcomerKept(board: seq<Trial>, t: Trial)
    requires Sorted(board)
    requires |board| < Capacity || t.error < board[Capacity - 1].error
    ensures t in Update(board, t)
  {
    UpdateOfSorted(board, t);
    var k := InsertionIndex(board, t.error);
    assert k < Capacity;
    assert (board[..k] + [t] + board[k..])[k] == t;
  }

  /** Every kept row errs no more than any dropped row. */
  lemma UpdateKeepsTheBest(board: seq<Trial>, t: Trial, x: Trial, y: Trial)
    requires x in Update(board, t)
    requires y in multiset(board + [t]) - multiset(Update(board, t))
    ensures x.error <= y.error
  {
    var all := SortByError(board + [t]);
    SortIsSorted(board + [t]);
    SortPermutes(board + [t]);
    var n := Min(Capacity, |all|);
    DroppedAreTheTail(all, n, y);
    SortedSplit(all, n, x, y);
  }

  /** What a multiset loses by cutting a sequence to its first n rows lies in the rest. */
  lemma DroppedAreTheTail(all: seq<Trial>, n: nat, y: Trial)
    requires n <= |all|
    requires y in multiset(all) - multiset(all[..n])
    ensures y in all[n..]
  {
    assert all == all[..n] + all[n..];
    assert multiset(all) == multiset(all[..n]) + multiset(all[n..]);
    assert y in multiset(all[n..]);
  }

  /** In a sorted sequence, every row before a cut errs no more than every row after it. */
  lemma SortedSplit(all: seq<Trial>, n: nat, x: Trial, y: Trial)
    requires Sorted(all) && n <= |all|
    requires x in all[..n] && y in all[n..]
    ensures x.error <= y.error
  {
    var i :| 0 <= i < n && all[..n][i] == x;
    var j :| 0 <= j < |all| - n && all[n..][j] == y;
    assert all[i] == x && all[n + j] == y;
  }

  /** The update only keeps rows it was given: each at most as often as in the board plus the newcomer. */
  lemma UpdateDrawsFromInput(board: seq<Trial>, t: Trial)
    ensures multiset(Update(board, t)) <= multiset(board + [t])
  {
    var all := SortByError(board + [t]);
    SortPermutes(board + [t]);
    var n := Min(Capacity, |all|);
    assert all == all[..n] + all[n..];
    assert multiset(all) == multiset(all[..n]) + multiset(all[n..]);
  }

  /** A row on the board after an update was on the board before or is the newcomer. */
  lemma UpdateRowOrigin(board: seq<Trial>, t: Trial, x: Trial)
    requires x in Update(board, t)
    ensures x in board || x == t
  {
    UpdateDrawsFromInput(board, t);
    assert x in multiset(Update(board, t));
    assert x in multiset(board + [t]);
    assert x in board + [t];
  }

  /** Whatever trials are inserted into a valid board, it stays sorted with at most three rows. */
  lemma {:induction false} InsertAllBounded(board: seq<Trial>, ts: seq<Trial>)
    requires Sorted(board) && |board| <= Capacity
    ensures var r := InsertAll(board, ts); Sorted(r) && |r| <= Capacity
    ensures |InsertAll(board, ts)| == Min(Capacity, |board| + |ts|)
    decreases |ts|
  {
    if ts != [] {
      InsertAllBounded(Update(board, ts[0]), ts[1..]);
    }
  }
}
