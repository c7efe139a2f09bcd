/** What one worker's check() comes to, whatever its transactions answer: it ends, and it reports an error exactly when
    an answer that the text tests is wrong. */
module CheckPaths {
  import opened CounterCheck

  /** Where the loop begins: after so many syncs and transactions. */
  function LoopStart(first: bool): nat {
    if first then 4 else 2
  }

  /** The text's tests, by position: worker 0 compares its third answer with the initial value and its last one with 0;
      in the loop each second answer is compared with the one before it. */
  predicate TestOk(values: seq<nat>, first: bool, initial: nat, p: nat)
    requires p < |values|
  {
    var o := LoopStart(first);
    if first && p == 2 then values[p] == initial
    else if o <= p < o + 2 * NB_TX && (p - o) % 2 == 1 then values[p] <= values[p - 1]
    else if first && p == o + 2 * NB_TX + 2 then values[p] == 0
    else true
  }

  ghost predicate AllOk(values: seq<nat>, first: bool, initial: nat) {
    forall p: nat :: p < |values| ==> TestOk(values, first, initial, p)
  }

  /** The place after `|values|` answers, none of them wrong. */
  function Place(values: seq<nat>, first: bool): Local {
    var o, k := LoopStart(first), |values|;
    if k == 0 then Sync1
    else if first && k == 1 then InitWrite
    else if first && k == 2 then InitCheck
    else if k < o then Sync2
    else if k < o + 2 * NB_TX then
      if (k - o) % 2 == 0 then ReadLast((k - o) / 2) else Decrement((k - o) / 2, values[k - 1])
    else if k == o + 2 * NB_TX then ReadLast(NB_TX)
    else if k == o + 2 * NB_TX + 1 then Sync3(true)
    else if first && k == o + 2 * NB_TX + 2 then FinalCheck
    else Returned(Success)
  }

  lemma PrefixOk(values: seq<nat>, first: bool, initial: nat, p: nat)
    requires p < |values| - 1
    ensures TestOk(values[..|values| - 1], first, initial, p) == TestOk(values, first, initial, p)
  {
  }

  lemma NextPlace(values: seq<nat>, first: bool, initial: nat)
    requires values != [] && TestOk(values, first, initial, |values| - 1)
    ensures var p := values[..|values| - 1];
            Continue(Place(p, first), first, initial, values[|values| - 1]) == Place(values, first)
  {
  }

  lemma {:induction false} GoodPath(values: seq<nat>, first: bool, initial: nat)
    requires AllOk(values, first, initial)
    ensures Path(values, first, initial) == Place(values, first)
  {
    if values != [] {
      var p := values[..|values| - 1];
      forall k: nat | k < |p|
        ensures TestOk(p, first, initial, k)
      {
        PrefixOk(values, first, initial, k);
      }
      GoodPath(p, first, initial);
      NextPlace(values, first, initial);
    }
  }

  /** The place `n` steps after the answer at position `p`, which was wrong: the syncs that are left, and the error. */
  function FailedPlace(first: bool, p: nat, n: nat): Local {
    if first && p == 2 && n <= 3 then InitFailed(3 - n)
    else if p < LoopStart(first) + 2 * NB_TX && n <= 1 then Sync3(false)
    else Returned(Violated)
  }

  lemma {:induction false} FailedPath(values: seq<nat>, first: bool, initial: nat, p: nat)
    requires p < |values| && AllOk(values[..p], first, initial) && !TestOk(values, first, initial, p)
    ensures Path(values, first, initial) == FailedPlace(first, p, |values| - p)
  {
    var front := values[..|values| - 1];
    if p == |values| - 1 {
      GoodPath(front, first, initial);
    } else {
      assert front[..p] == values[..p];
      assert TestOk(front, first, initial, p) == TestOk(values, first, initial, p);
      FailedPath(front, first, initial, p);
    }
  }

  lemma {:induction false} FirstWrong(values: seq<nat>, first: bool, initial: nat, n: nat) returns (p: nat)
    requires n <= |values| && !AllOk(values[..n], first, initial)
    ensures p < n && AllOk(values[..p], first, initial) && !TestOk(values, first, initial, p)
    decreases n
  {
    if n > 0 {
      var front := values[..n - 1];
      if !AllOk(front, first, initial) {
        p := FirstWrong(values, first, initial, n - 1);
      } else {
        p := n - 1;
        SamePrefix(values, first, initial, n);
        SamePrefix(values, first, initial, n - 1);
        assert forall q: nat :: q < n - 1 ==> TestOk(front, first, initial, q);
      }
    }
  }

  lemma SamePrefix(values: seq<nat>, first: bool, initial: nat, n: nat)
    requires n <= |values|
    ensures forall q: nat :: q < n ==> TestOk(values[..n], first, initial, q) == TestOk(values, first, initial, q)
  {
  }

  /** A path that returned reports an error if and only if one of the answers it tested was wrong. */
  lemma ReportsWrongAnswers(values: seq<nat>, first: bool, initial: nat)
    requires Path(values, first, initial).Returned?
    ensures Path(values, first, initial).verdict == Violated <==>
              exists p: nat :: p < |values| && !TestOk(values, first, initial, p)
  {
    assert values[..|values|] == values;
    if AllOk(values, first, initial) {
      GoodPath(values, first, initial);
    } else {
      var p := FirstWrong(values, first, initial, |values|);
      FailedPath(values, first, initial, p);
    }
  }

  /** Every path of check() ends, whatever the answers: after at most so many syncs and transactions it has returned. */
  lemma EveryPathEnds(values: seq<nat>, first: bool, initial: nat)
    requires |values| >= 2 * NB_TX + 7
    ensures Path(values, first, initial).Returned?
  {
    assert values[..|values|] == values;
    if AllOk(values, first, initial) {
      GoodPath(values, first, initial);
    } else {
      var p := FirstWrong(values, first, initial, |values|);
      FailedPath(values, first, initial, p);
    }
  }
}
