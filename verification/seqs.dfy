/** Sequence utilities: reversal and fail-fast traversal (the model of collecting an
    iterator of `Result`s into a `Result` of a vector). */
module Seqs {
  import opened Wrappers

  function Reverse<T>(s: seq<T>): (r: seq<T>)
    ensures |r| == |s|
    ensures forall i :: 0 <= i < |s| ==> r[i] == s[|s| - 1 - i]
  {
    if |s| == 0 then [] else Reverse(s[1..]) + [s[0]]
  }

  lemma ReverseInvolutive<T>(s: seq<T>)
    ensures Reverse(Reverse(s)) == s
  {
  }

  /** An absent list reads as the empty list. */
  function OrEmpty<T>(o: Option<seq<T>>): (r: seq<T>)
    ensures o.None? ==> r == []
    ensures o.Some? ==> r == o.value
  {
    match o
    case None => []
    case Some(xs) => xs
  }

  /** `f` fails on `xs[i]` and on no earlier element. */
  predicate FailsFirstAt<T, U, E>(xs: seq<T>, f: T -> Result<U, E>, i: int) {
    && 0 <= i < |xs|
    && f(xs[i]).Failure?
    && forall j :: 0 <= j < i ==> f(xs[j]).Success?
  }

  /** Applies `f` to every element in order and stops at the first failure, which becomes
      the result; no partial output survives a failure. */
  function Traverse<T, U, E>(xs: seq<T>, f: T -> Result<U, E>): (r: Result<seq<U>, E>)
    ensures r.Success? <==> forall i :: 0 <= i < |xs| ==> f(xs[i]).Success?
    ensures r.Success? ==> |r.value| == |xs|
    ensures r.Success? ==> forall i :: 0 <= i < |xs| ==> r.value[i] == f(xs[i]).value
    ensures forall i :: FailsFirstAt(xs, f, i) ==> r == Failure(f(xs[i]).error)
    ensures r.Failure? ==> exists i :: FailsFirstAt(xs, f, i)
  {
    if |xs| == 0 then Success([])
    else
      match f(xs[0])
      case Failure(e) =>
        assert FailsFirstAt(xs, f, 0);
        Failure(e)
      case Success(y) =>
        var rest := Traverse(xs[1..], f);
        assert forall i :: FailsFirstAt(xs, f, i) ==> i >= 1 && FailsFirstAt(xs[1..], f, i - 1);
        match rest
        case Failure(e) =>
          var k :| FailsFirstAt(xs[1..], f, k);
          assert FailsFirstAt(xs, f, k + 1);
          Failure(e)
        case Success(ys) => Success([y] + ys)
  }

  /** An optional value traverses as the sequence of its zero or one elements: both
      succeed together, with the same contents, or fail with the same error. */
  lemma TraverseOptionAgreesWithTraverse<T, U, E>(o: Option<T>, f: T -> Result<U, E>)
    ensures var xs := if o.None? then [] else [o.value];
      var r, rs := TraverseOption(o, f), Traverse(xs, f);
      && (r.Success? <==> rs.Success?)
      && (r.Success? ==> rs.value == (if r.value.None? then [] else [r.value.value]))
      && (r.Failure? ==> rs.error == r.error)
  {
  }

  /** Maps an optional value through a fallible `f`: absent stays absent, a failure of `f`
      is the failure of the whole. */
  function TraverseOption<T, U, E>(o: Option<T>, f: T -> Result<U, E>): (r: Result<Option<U>, E>)
    ensures o.None? ==> r == Success(None)
    ensures o.Some? ==> (r.Success? <==> f(o.value).Success?)
    ensures o.Some? && r.Success? ==> r.value == Some(f(o.value).value)
    ensures o.Some? && r.Failure? ==> r.error == f(o.value).error
  {
    match o
    case None => Success(None)
    case Some(x) =>
      match f(x)
      case Success(y) => Success(Some(y))
      case Failure(e) => Failure(e)
  }
}
