/** Optional values and results shared by every module of the model. */
module Wrappers {

  /** `None` plays the part of Python's `None`. */
  datatype Option<+T> = None | Some(value: T)

  /** The outcome of an operation that can raise. */
  datatype Result<+R, +E> = Success(value: R) | Failure(error: E)
}

/** Small facts about sequences shared by the modules. */
module Seqs {
  /** The elements a list mentions. */
  function Elements<T>(s: seq<T>): set<T> {
    set x | x in s
  }

  /** What a loop that appends `f(x)` for each `x` of `cs` in turn has built at the end. */
  function Gather<C, T>(cs: seq<C>, f: C -> seq<T>): seq<T>
    decreases |cs|
  {
    if cs == [] then [] else Gather(cs[..|cs| - 1], f) + f(cs[|cs| - 1])
  }

  /** The first `j + 1` elements gather the first `j` and then the piece of element `j`. */
  lemma GatherStep<C, T>(cs: seq<C>, f: C -> seq<T>, j: nat)
    requires j < |cs|
    ensures Gather(cs[..j + 1], f) == Gather(cs[..j], f) + f(cs[j])
  {
    assert cs[..j + 1][..j] == cs[..j];
  }

  /** Something is gathered exactly when it is in the piece of some element. */
  lemma {:induction false} GatherMembers<C, T>(cs: seq<C>, f: C -> seq<T>)
    ensures forall x :: x in Gather(cs, f) <==> exists j :: 0 <= j < |cs| && x in f(cs[j])
    decreases |cs|
  {
    if cs != [] {
      var n := |cs| - 1;
      GatherMembers(cs[..n], f);
      assert forall j :: 0 <= j < n ==> cs[..n][j] == cs[j];
    }
  }

  /** Nothing is gathered when every piece is empty. */
  lemma {:induction false} GatherNone<C, T>(cs: seq<C>, f: C -> seq<T>)
    requires forall k :: 0 <= k < |cs| ==> f(cs[k]) == []
    ensures Gather(cs, f) == []
    decreases |cs|
  {
    if cs != [] {
      var n := |cs| - 1;
      assert forall k :: 0 <= k < n ==> cs[..n][k] == cs[k];
      GatherNone(cs[..n], f);
    }
  }

  /** When every piece but the `j`-th is empty, the result is that piece. */
  lemma {:induction false} GatherOnly<C, T>(cs: seq<C>, f: C -> seq<T>, j: nat)
    requires j < |cs|
    requires forall k :: 0 <= k < |cs| && k != j ==> f(cs[k]) == []
    ensures Gather(cs, f) == f(cs[j])
    decreases |cs|
  {
    var n := |cs| - 1;
    var init := cs[..n];
    assert forall k :: 0 <= k < n ==> init[k] == cs[k];
    if j < n {
      GatherOnly(init, f, j);
    } else {
      GatherNone(init, f);
    }
  }

  /** The piece of the `j`-th element sits in the result right after the pieces of the elements before it. */
  lemma {:induction false} GatherSlice<C, T>(cs: seq<C>, f: C -> seq<T>, j: nat)
    requires j < |cs|
    ensures |Gather(cs[..j], f)| + |f(cs[j])| <= |Gather(cs, f)|
    ensures Gather(cs, f)[|Gather(cs[..j], f)|..|Gather(cs[..j], f)| + |f(cs[j])|] == f(cs[j])
    decreases |cs|
  {
    var n := |cs| - 1;
    var init := cs[..n];
    assert Gather(cs, f) == Gather(init, f) + f(cs[n]);
    if j < n {
      GatherSlice(init, f, j);
      assert init[..j] == cs[..j] && init[j] == cs[j];
    } else {
      assert init == cs[..j];
    }
  }
}
