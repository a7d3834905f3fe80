/** A list picked out of another one, in its order. */
module Selection {
  /** The places `at` of `all` are exactly those that pass, and `picked` is what `f` makes of them. */
  ghost predicate PicksAt<T(!new), U>(at: seq<nat>, picked: seq<U>, all: seq<T>, passes: T -> bool, f: T -> U) {
    && |at| == |picked|
    && (forall j, k | 0 <= j < k < |at| :: at[j] < at[k])
    && (forall j | 0 <= j < |at| :: at[j] < |all| && picked[j] == f(all[at[j]]))
    && (forall i | 0 <= i < |all| :: passes(all[i]) <==> i in at)
  }

  ghost predicate Picks<T(!new), U>(picked: seq<U>, all: seq<T>, passes: T -> bool, f: T -> U) {
    exists at: seq<nat> :: PicksAt(at, picked, all, passes, f)
  }

  lemma PicksNothing<T(!new), U>(passes: T -> bool, f: T -> U)
    ensures Picks([], [], passes, f)
  {
    assert PicksAt([], [], [], passes, f);
  }

  function Shifted(at: seq<nat>): (moved: seq<nat>)
    ensures |moved| == |at| && forall j | 0 <= j < |at| :: moved[j] == at[j] + 1
  {
    seq(|at|, j requires 0 <= j < |at| => at[j] + 1)
  }

  lemma ShiftedHas(at: seq<nat>, i: nat)
    ensures i + 1 in Shifted(at) <==> i in at
    ensures 0 !in Shifted(at)
  {
    var moved := Shifted(at);
    if i in at {
      var j :| 0 <= j < |at| && at[j] == i;
      assert moved[j] == i + 1;
    }
  }

  lemma SkipsFirst<T(!new), U>(at: seq<nat>, picked: seq<U>, first: T, rest: seq<T>, passes: T -> bool, f: T -> U)
    requires PicksAt(at, picked, rest, passes, f) && !passes(first)
    ensures PicksAt(Shifted(at), picked, [first] + rest, passes, f)
  {
    var all := [first] + rest;
    ShiftedHas(at, 0);
    forall i | 0 <= i < |all| ensures passes(all[i]) <==> i in Shifted(at) {
      if i > 0 { ShiftedHas(at, i - 1); }
    }
  }

  function WithFirst(at: seq<nat>): (places: seq<nat>)
    ensures |places| == |at| + 1 && places[0] == 0 && forall j | 0 < j < |places| :: places[j] == at[j - 1] + 1
  {
    seq(|at| + 1, j requires 0 <= j < |at| + 1 => if j == 0 then 0 else at[j - 1] + 1)
  }

  lemma WithFirstHas(at: seq<nat>, i: nat)
    ensures 0 in WithFirst(at)
    ensures i + 1 in WithFirst(at) <==> i in at
  {
    hide WithFirst;
    var places := WithFirst(at);
    assert places[0] == 0;
    if i in at {
      var j :| 0 <= j < |at| && at[j] == i;
      assert places[j + 1] == i + 1;
    }
  }

  lemma TakesFirst<T(!new), U>(at: seq<nat>, picked: seq<U>, first: T, rest: seq<T>, passes: T -> bool, f: T -> U)
    requires PicksAt(at, picked, rest, passes, f) && passes(first)
    ensures PicksAt(WithFirst(at), [f(first)] + picked, [first] + rest, passes, f)
  {
    hide WithFirst;
    var all, places := [first] + rest, WithFirst(at);
    forall j | 0 <= j < |places| ensures places[j] < |all| && ([f(first)] + picked)[j] == f(all[places[j]]) {
    }
    forall i | 0 <= i < |all| ensures passes(all[i]) <==> i in places {
      if i > 0 { WithFirstHas(at, i - 1); } else { WithFirstHas(at, 0); }
    }
  }

  /** One more at the front, which passes or does not. */
  lemma PicksCons<T(!new), U>(picked: seq<U>, first: T, rest: seq<T>, passes: T -> bool, f: T -> U)
    requires Picks(picked, rest, passes, f)
    ensures Picks(if passes(first) then [f(first)] + picked else picked, [first] + rest, passes, f)
  {
    hide PicksAt;
    var at :| PicksAt(at, picked, rest, passes, f);
    if passes(first) {
      TakesFirst(at, picked, first, rest, passes, f);
    } else {
      SkipsFirst(at, picked, first, rest, passes, f);
    }
  }

  /** What is picked is decided by the test alone. */
  lemma PicksNothingIff<T(!new), U>(picked: seq<U>, all: seq<T>, passes: T -> bool, f: T -> U)
    requires Picks(picked, all, passes, f)
    ensures picked == [] <==> forall x | x in all :: !passes(x)
  {
    var at :| PicksAt(at, picked, all, passes, f);
    if picked != [] {
      assert at[0] in at && all[at[0]] in all;
    } else {
      forall x | x in all ensures !passes(x) {
        var i :| 0 <= i < |all| && all[i] == x;
      }
    }
  }
}
