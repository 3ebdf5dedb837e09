/** Small shared vocabulary: an optional value, and sums of naturals over a sequence. */
module Prelude {
  datatype Option<+T> = None | Some(value: T)

  function Sum(s: seq<nat>): nat
  {
    if s == [] then 0 else s[0] + Sum(s[1..])
  }

  /** A pointwise smaller sequence, up to one unit of slack per position, has a sum that is
      at most the length larger. */
  lemma {:induction false} SumSlack(s: seq<nat>, t: seq<nat>, slack: nat)
    requires |s| == |t|
    requires forall i :: 0 <= i < |s| ==> t[i] <= s[i] + slack
    ensures Sum(t) <= Sum(s) + slack * |s|
  {
    if s == [] {
    } else {
      SumSlack(s[1..], t[1..], slack);
    }
  }

  /** Isolating one position of a sum. */
  lemma {:induction false} SumAt(s: seq<nat>, k: nat)
    requires k < |s|
    ensures Sum(s) == s[k] + Sum(s[k := 0])
  {
    if k == 0 {
      assert s[0 := 0][1..] == s[1..];
    } else {
      assert s[k := 0][1..] == s[1..][k - 1 := 0];
      SumAt(s[1..], k - 1);
    }
  }

  /** If position k gives up more than every other position may gain, the sum falls. */
  lemma SumFalls(s: seq<nat>, t: seq<nat>, k: nat, slack: nat)
    requires |s| == |t| && k < |s|
    requires forall i :: 0 <= i < |s| && i != k ==> t[i] <= s[i] + slack
    requires t[k] + slack * |s| < s[k]
    ensures Sum(t) < Sum(s)
  {
    SumAt(s, k);
    SumAt(t, k);
    SumSlack(s[k := 0], t[k := 0], slack);
  }
}
