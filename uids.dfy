/**
 * Session uid allocation: every masterRun does
 * `masterRun.uid = masterRun.uid ? masterRun.uid + 1 : 1`, a counter stored on
 * the function object and shared by all sessions of the master process.
 */
module Uids {

  /** The next uid after `last`; 0 stands for the counter not yet set (a falsy `undefined`). */
  function NextUid(last: nat): (u: nat)
    ensures u == last + 1
  {
    if last != 0 then last + 1 else 1
  }

  /** The uids handed to `k` sessions started one after another with the counter at `last`. */
  function Allocate(last: nat, k: nat): seq<nat>
    decreases k
  {
    if k == 0 then [] else [NextUid(last)] + Allocate(NextUid(last), k - 1)
  }

  /** k sessions get last+1, ..., last+k: consecutive, so pairwise distinct. */
  lemma {:induction false} AllocateConsecutive(last: nat, k: nat)
    ensures Allocate(last, k) == seq(k, i => last + 1 + i)
    decreases k
  {
    if k > 0 {
      AllocateConsecutive(last + 1, k - 1);
      assert [last + 1] + seq(k - 1, i => last + 1 + 1 + i) == seq(k, i => last + 1 + i);
    }
  }

  /** From a fresh master process, the sessions get 1, 2, ..., k and no uid is given twice. */
  lemma UidsStartAtOneAndNeverRepeat(k: nat)
    ensures |Allocate(0, k)| == k
    ensures forall i :: 0 <= i < k ==> Allocate(0, k)[i] == i + 1
    ensures forall i, j :: 0 <= i < j < k ==> Allocate(0, k)[i] != Allocate(0, k)[j]
  {
    AllocateConsecutive(0, k);
  }

  /** The counter `masterRun.uid`; `issued` records every uid handed out so far. */
  class UidCounter {
    var last: nat
    ghost var issued: set<int>

    ghost predicate Valid()
      reads this
    {
      forall u :: u in issued ==> 1 <= u <= last
    }

    constructor ()
      ensures Valid() && last == 0 && issued == {}
    {
      last := 0;
      issued := {};
    }

    /** The first two lines of masterRun: bump the counter and take its value as the session's uid. */
    method Next() returns (uid: nat)
      requires Valid()
      modifies this
      ensures Valid()
      ensures uid == old(last) + 1 && last == uid
      ensures uid !in old(issued) && issued == old(issued) + {uid}
    {
      last := NextUid(last);
      uid := last;
      issued := issued + {uid};
    }
  }
}
