/** A writer of two words that overtakes a reader of one of them between the two loads of its post-validation. */
module Overtaking {
  import opened LockWord
  import opened Options
  import opened Tl2
  import opened Tl2Invariant
  import opened Executions

  // ---- The writer ----

  /** A read-write transaction of the present that holds nothing yet. */
  predicate MayEnd(s: State, tx: Tx) {
    tx.pc == Body && !tx.ro && tx.held == {} && tx.wv == 0 && tx.rv == s.gvc
  }

  /** While it writes back: `t` is copied, its stripe still held. */
  function Copied(s: State, u: Tid, tx: Tx, f: Addr, t: Addr): State {
    WithLock(WithLock(s, u, StripeOf(f)), u, StripeOf(t))
      .(gvc := s.gvc + 1, mem := if t in tx.writeSet then s.mem[t := tx.writeSet[t]] else s.mem,
        commits := s.commits[s.gvc + 1 := Commit(u, tx.log, tx.writeSet)])
  }

  function Writing(s: State, tx: Tx, f: Addr, t: Addr, pc: Pc): Tx {
    tx.(held := {StripeOf(f), StripeOf(t)}, wv := s.gvc + 1, pc := pc)
  }

  /** It ends, locks both words, decides, and copies `t` back. */
  lemma CopiesBack(start: State, labels: seq<Label>, s: State, u: Tid, tx: Tx, f: Addr, t: Addr)
    returns (labels': seq<Label>)
    requires Exec(start, labels) == Some(Put(s, u, tx)) && MayEnd(s, tx) && tx.writeSet.Keys == {f, t}
    requires Still(s) && StripeOf(f) != StripeOf(t) && s.gvc + 1 < VERSION_LIMIT
    ensures Exec(start, labels') == Some(Put(Copied(s, u, tx, f, t), u, Writing(s, tx, f, t, Release({f}, t))))
    ensures |labels'| <= |labels| + 10
  {
    hide Exec, StripeOf;
    var lf, lt := StripeOf(f), StripeOf(t);
    labels' := QuietEnd(start, labels, s, u, tx);
    assert {f, t} - {f} == {t} && {t} - {t} == {} && {f, t} - {t} == {f};
    assert tx.held + {lf} == {lf} && {lf} + {lt} == {lf, lt};
    labels' := TakeLock(start, labels', s, u, tx.(pc := LockLoad({f, t})), f);
    var s1 := WithLock(s, u, lf);
    labels' := TakeLock(start, labels', s1, u, tx.(held := {lf}, pc := LockLoad({t})), t);
    var s2 := WithLock(s1, u, lt);
    labels' := QuietDecide(start, labels', s2, u, tx.(held := {lf, lt}, pc := LockLoad({})));
    var s3 := s2.(gvc := s.gvc + 1, commits := s.commits[s.gvc + 1 := Commit(u, tx.log, tx.writeSet)]);
    labels' := QuietCopyBack(start, labels', s3, u, Writing(s, tx, f, t, WriteBack({f, t})), t);
    assert s3.(mem := s3.mem[t := tx.writeSet[t]]) == Copied(s, u, tx, f, t);
  }

  // ---- The reader ----

  /** The reader after it accepted the new value of `t`, with the old version. */
  function Accepted(tx: Tx, t: Addr, x: Val): Tx {
    tx.(pc := Body, log := tx.log + [Rd(t, x, false, false)])
  }

  /** The read of `t` that began before the writer's lock ends after its release, with the old version. */
  lemma ReadsBetween(start: State, labels: seq<Label>, s: State, l: Tid, tx: Tx, u: Tid, w: Tx, f: Addr, t: Addr,
                     y: Val)
    returns (labels': seq<Label>, s': State)
    requires l != u && l in s.txs && u in s.txs && Exec(start, labels) == Some(s)
    requires s.txs[l] == tx.(pc := Copy(t, s.locks[StripeOf(t)].version)) && tx.ro && tx.writeSet == map[]
    requires s.txs[u] == w && w.pc == Release({f}, t) && w.wv == s.gvc < VERSION_LIMIT
    requires s.locks[StripeOf(t)].version <= tx.rv < s.gvc && Get(s.mem, t) == y
    ensures s' == s.(locks := s.locks[StripeOf(t) := Word(s.gvc, false)], owner := s.owner - {StripeOf(t)},
                     txs := s.txs[l := Accepted(tx, t, y)][u := w.(pc := WriteBack({f}))])
    ensures Exec(start, labels') == Some(s') && |labels'| <= |labels| + 4
  {
    hide Exec, StripeOf;
    var v, lt := s.locks[StripeOf(t)].version, StripeOf(t);
    var waiting := tx.(pc := PostLock(t, v, v, y));
    Focus(s, l);
    labels' := QuietCopy(start, labels, s, l, tx.(pc := Copy(t, v)), t);
    var s1 := Put(s, l, waiting);
    Focus(s1, u);
    labels' := QuietRelease(start, labels', s1, u, w);
    var s2 := Put(WithVersion(s1, lt, s.gvc), u, w.(pc := WriteBack({f})));
    Focus(s2, l);
    labels' := Move(start, labels', s2, l, waiting, Go(false), s2, Accepted(tx, t, y));
    s' := Put(s2, l, Accepted(tx, t, y));
    assert s'.txs == s.txs[l := Accepted(tx, t, y)][u := w.(pc := WriteBack({f}))];
  }
}
