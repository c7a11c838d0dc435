/** Counting the flags set in a sequence. */
module Counting {

  function CountTrue(flags: seq<bool>): nat {
    if flags == [] then 0
    else CountTrue(flags[..|flags| - 1]) + if flags[|flags| - 1] then 1 else 0
  }

  lemma {:induction false} CountUpdate(flags: seq<bool>, i: nat)
    requires i < |flags| && !flags[i]
    ensures CountTrue(flags[i := true]) == CountTrue(flags) + 1
  {
    var n := |flags| - 1;
    if i == n {
      assert flags[i := true][..n] == flags[..n];
    } else {
      assert flags[i := true][..n] == flags[..n][i := true];
      CountUpdate(flags[..n], i);
    }
  }

  /** The count reaches the length exactly when every flag is set. */
  lemma {:induction false} CountFull(flags: seq<bool>)
    ensures CountTrue(flags) <= |flags|
    ensures CountTrue(flags) == |flags| <==> forall i :: 0 <= i < |flags| ==> flags[i]
  {
    if flags != [] {
      var n := |flags| - 1;
      CountFull(flags[..n]);
      if forall i :: 0 <= i < n ==> flags[..n][i] {
        assert forall i :: 0 <= i < n ==> flags[i] == flags[..n][i];
      } else {
        var i :| 0 <= i < n && !flags[..n][i];
        assert !flags[i];
      }
    }
  }

  lemma {:induction false} CountNone(flags: seq<bool>)
    requires forall i :: 0 <= i < |flags| ==> !flags[i]
    ensures CountTrue(flags) == 0
  {
    if flags != [] {
      CountNone(flags[..|flags| - 1]);
    }
  }

  /** The count is the number of indices whose flag is set. */
  lemma {:induction false} CountIndices(flags: seq<bool>)
    ensures CountTrue(flags) == |set i | 0 <= i < |flags| && flags[i]|
  {
    var all := set i | 0 <= i < |flags| && flags[i];
    if flags != [] {
      var n := |flags| - 1;
      CountIndices(flags[..n]);
      var front := set i | 0 <= i < n && flags[..n][i];
      assert all == if flags[n] then front + {n} else front;
    }
  }
}
