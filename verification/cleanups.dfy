/** `Cleanups`: a stack of cleanup functions, called newest first. A
    cleanup function is modelled by a name and whether calling it raises;
    the object keeps the functions still registered and, as its observable
    effect, the calls made so far. */
module Cleanups {

  /** A registered cleanup function: calling it raises iff `raises`. */
  datatype Action = Action(name: string, raises: bool)

  /** The order in which `clean_up` calls a list of registered functions:
      the last one registered first. */
  function Reversed(s: seq<Action>): (r: seq<Action>)
    ensures |r| == |s|
    ensures forall i :: 0 <= i < |s| ==> r[i] == s[|s| - 1 - i]
  {
    if s == [] then [] else Reversed(s[1..]) + [s[0]]
  }

  /** Whether calling some function of `s` raises. */
  function AnyRaises(s: seq<Action>): (b: bool)
    ensures b <==> exists i :: 0 <= i < |s| && s[i].raises
  {
    if s == [] then false else s[0].raises || AnyRaises(s[1..])
  }

  /** Registering in two batches and cleaning up calls the second batch
      first, each batch newest first. */
  lemma {:induction false} ReversedAppend(a: seq<Action>, b: seq<Action>)
    ensures Reversed(a + b) == Reversed(b) + Reversed(a)
    decreases |a|
  {
    if a == [] {
      assert a + b == b;
    } else {
      assert (a + b)[1..] == a[1..] + b;
      ReversedAppend(a[1..], b);
    }
  }

  /** The function registered last is the one called first. */
  lemma LastAddedFirstCalled(s: seq<Action>, f: Action)
    ensures Reversed(s + [f]) == [f] + Reversed(s)
  {
    ReversedAppend(s, [f]);
  }

  /** A batch fails iff one of its parts fails: failure is decided over all
      the functions, not over those before the first failure. */
  lemma {:induction false} AnyRaisesAppend(a: seq<Action>, b: seq<Action>)
    ensures AnyRaises(a + b) == (AnyRaises(a) || AnyRaises(b))
    decreases |a|
  {
    if a == [] {
      assert a + b == b;
    } else {
      assert (a + b)[1..] == a[1..] + b;
      AnyRaisesAppend(a[1..], b);
    }
  }

  /** The calls still to be made when `pending[..k]` is what remains
      registered: none of `pending[k..]` is registered any more. */
  lemma CallStep(pending: seq<Action>, k: nat)
    requires 0 < k <= |pending|
    ensures Reversed(pending[k - 1..]) == Reversed(pending[k..]) + [pending[k - 1]]
    ensures AnyRaises(pending[k - 1..]) == (AnyRaises(pending[k..]) || pending[k - 1].raises)
  {
    assert pending[k - 1..][1..] == pending[k..];
  }

  class Cleanups {
    /** The registered functions, oldest first. */
    var cleanups: seq<Action>
    /** Every call made so far, in order. */
    var called: seq<Action>

    constructor()
      ensures cleanups == [] && called == []
    {
      cleanups := [];
      called := [];
    }

    /** `add_cleanup(func)`: pushes `func`; nothing is called. */
    method AddCleanup(f: Action)
      modifies this
      ensures cleanups == old(cleanups) + [f]
      ensures called == old(called)
    {
      cleanups := cleanups + [f];
    }

    /** `clean_up()`: calls every registered function, newest first, popping
        each after its call whether or not it raised; returns whether it
        raises at the end, which it does iff one of the calls raised. */
    method CleanUp() returns (raised: bool)
      modifies this
      ensures cleanups == []
      ensures called == old(called) + Reversed(old(cleanups))
      ensures raised == AnyRaises(old(cleanups))
      ensures old(cleanups) == [] ==> called == old(called) && !raised
    {
      ghost var pending := cleanups;
      var failed := false;
      while cleanups != []
        invariant |cleanups| <= |pending| && cleanups == pending[..|cleanups|]
        invariant called == old(called) + Reversed(pending[|cleanups|..])
        invariant failed == AnyRaises(pending[|cleanups|..])
        decreases |cleanups|
      {
        var k := |cleanups|;
        var f := cleanups[k - 1];
        called := called + [f];
        if f.raises {
          failed := true;
        }
        cleanups := cleanups[..k - 1];
        CallStep(pending, k);
      }
      assert pending[0..] == pending;
      raised := failed;
    }

    /** `__exit__`: cleans up, whatever ended the `with` block. */
    method Exit() returns (raised: bool)
      modifies this
      ensures cleanups == []
      ensures called == old(called) + Reversed(old(cleanups))
      ensures raised == AnyRaises(old(cleanups))
    {
      raised := CleanUp();
    }
  }

  /** `NullCleanups`: registers nothing and cleans up nothing. */
  class NullCleanups {
    constructor()
    {
    }

    /** `add_cleanup(func)`: `func` is dropped; the object has no state to
        change (no `modifies` clause). */
    method AddCleanup(f: Action)
    {
    }

    /** `__exit__`: nothing runs and nothing raises. */
    method Exit() returns (raised: bool)
      ensures !raised
    {
      raised := false;
    }
  }
}
