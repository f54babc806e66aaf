/** Taking sequences apart and putting them together. */
module Sequences {

  lemma TakeNext<T>(s: seq<T>, k: nat)
    requires k < |s|
    ensures s[..k + 1] == s[..k] + [s[k]] && s[..k + 1][..k] == s[..k] && (k == 0 ==> s[..k + 1] == [s[k]])
  {
  }

  lemma DropNext<T>(s: seq<T>, k: nat)
    requires k < |s|
    ensures s[k..] == [s[k]] + s[k + 1..]
  {
  }

  lemma Split<T>(s: seq<T>, k: nat)
    requires k <= |s|
    ensures s == s[..k] + s[k..]
  {
  }

  lemma Regroup<T>(a: seq<T>, b: seq<T>, c: seq<T>)
    ensures a + b + c == a + (b + c)
  {
  }

  /** The positions of the elements with a property. */
  ghost function Where<T>(s: seq<T>, f: T -> bool): set<nat> {
    set i: nat | i < |s| && f(s[i])
  }

  lemma {:induction false} WhereNext<T>(s: seq<T>, x: T, f: T -> bool)
    ensures |Where(s + [x], f)| == |Where(s, f)| + if f(x) then 1 else 0
  {
    forall i: nat
      ensures i in Where(s + [x], f) <==> i in Where(s, f) || (i == |s| && f(x))
    {
    }
    OneMore(Where(s, f), Where(s + [x], f), |s|, f(x));
  }

  lemma {:induction false} OneMore(s: set<nat>, t: set<nat>, x: nat, more: bool)
    requires x !in s && forall i :: i in t <==> i in s || (i == x && more)
    ensures |t| == |s| + if more then 1 else 0
  {
    assert t == s + if more then {x} else {};
  }
}
