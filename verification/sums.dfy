/** Sums of a weight over a sequence, and what one update or append does to them. */
module Sums {

  function Sum<T>(f: T -> nat, s: seq<T>): (total: nat) {
    if |s| == 0 then 0 else Sum(f, s[..|s| - 1]) + f(s[|s| - 1])
  }

  lemma {:induction false} SumAppend<T>(f: T -> nat, s: seq<T>, x: T)
    ensures Sum(f, s + [x]) == Sum(f, s) + f(x)
  {
    assert (s + [x])[..|s|] == s;
  }

  lemma {:induction false} SumUpdate<T>(f: T -> nat, s: seq<T>, i: nat, x: T)
    requires i < |s|
    ensures Sum(f, s[i := x]) + f(s[i]) == Sum(f, s) + f(x)
  {
    var last := |s| - 1;
    if i == last {
      assert s[i := x][..last] == s[..last];
    } else {
      assert s[i := x][..last] == s[..last][i := x];
      SumUpdate(f, s[..last], i, x);
    }
  }

  lemma {:induction false} SumConstant<T>(f: T -> nat, s: seq<T>, c: nat)
    requires forall i :: 0 <= i < |s| ==> f(s[i]) == c
    ensures Sum(f, s) == |s| * c
  {
    if |s| > 0 {
      SumConstant(f, s[..|s| - 1], c);
    }
  }

  lemma {:induction false} SumBelow<T>(f: T -> nat, g: T -> nat, s: seq<T>)
    requires forall i :: 0 <= i < |s| ==> f(s[i]) <= g(s[i])
    ensures Sum(f, s) <= Sum(g, s)
  {
    if |s| > 0 {
      SumBelow(f, g, s[..|s| - 1]);
    }
  }

  function Ones<T>(f: T -> nat, s: seq<T>): set<int> {
    set i | 0 <= i < |s| && f(s[i]) == 1
  }

  /** A sum of ones and noughts counts the ones. */
  lemma {:induction false} SumCounts<T>(f: T -> nat, s: seq<T>)
    requires forall i :: 0 <= i < |s| ==> f(s[i]) <= 1
    ensures Sum(f, s) == |Ones(f, s)|
  {
    if |s| > 0 {
      var last := |s| - 1;
      SumCounts(f, s[..last]);
      assert Ones(f, s) == if f(s[last]) == 1 then Ones(f, s[..last]) + {last} else Ones(f, s[..last]);
    }
  }
}
