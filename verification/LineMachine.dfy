/**
  Line-oriented parsers: a state that every line may change, and a reading of every line
  in the state that the lines before it left. The first line that cannot be read ends
  the run with its error.
 */
module LineMachine {
  import opened Wrappers

  datatype Machine<!S, I, E> = Machine(next: (S, string) -> S, read: (S, string) -> Result<seq<I>, E>)

  function StateAfter<S, I, E>(m: Machine<S, I, E>, s: S, lines: seq<string>): S
    decreases |lines|
  {
    if lines == [] then s else StateAfter(m, m.next(s, lines[0]), lines[1..])
  }

  function Prepend<T, E>(front: seq<T>, r: Result<seq<T>, E>): Result<seq<T>, E> {
    match r
    case Failure(e) => Failure(e)
    case Success(rest) => Success(front + rest)
  }

  /** `r` and then, if it succeeded, `rest`. */
  function Then<T, E>(r: Result<seq<T>, E>, rest: Result<seq<T>, E>): Result<seq<T>, E> {
    match r
    case Failure(e) => Failure(e)
    case Success(front) => Prepend(front, rest)
  }

  function Run<S, I, E>(m: Machine<S, I, E>, s: S, lines: seq<string>): Result<seq<I>, E>
    decreases |lines|
  {
    if lines == [] then Success([])
    else Then(m.read(s, lines[0]), Run(m, m.next(s, lines[0]), lines[1..]))
  }

  lemma PrependNothing<T, E>(r: Result<seq<T>, E>)
    ensures Prepend([], r) == r
  {
    if r.Success? {
      assert [] + r.value == r.value;
    }
  }

  lemma ThenAssociative<T, E>(a: Result<seq<T>, E>, b: Result<seq<T>, E>, c: Result<seq<T>, E>)
    ensures Then(Then(a, b), c) == Then(a, Then(b, c))
  {
    if a.Success? && b.Success? && c.Success? {
      assert a.value + (b.value + c.value) == a.value + b.value + c.value;
    }
  }

  lemma {:induction false} StateAfterConcat<S, I, E>(m: Machine<S, I, E>, s: S, a: seq<string>, b: seq<string>)
    ensures StateAfter(m, s, a + b) == StateAfter(m, StateAfter(m, s, a), b)
    decreases |a|
  {
    if a == [] {
      assert a + b == b;
    } else {
      assert (a + b)[1..] == a[1..] + b;
      StateAfterConcat(m, m.next(s, a[0]), a[1..], b);
    }
  }

  lemma StateAfterSnoc<S, I, E>(m: Machine<S, I, E>, s: S, lines: seq<string>, line: string)
    ensures StateAfter(m, s, lines + [line]) == m.next(StateAfter(m, s, lines), line)
  {
    StateAfterConcat(m, s, lines, [line]);
    assert [line][1..] == [];
  }

  /** Running two pieces is running the first, then the second from where it ended. */
  lemma {:induction false} RunConcat<S, I, E>(m: Machine<S, I, E>, s: S, a: seq<string>, b: seq<string>)
    ensures Run(m, s, a + b) == Then(Run(m, s, a), Run(m, StateAfter(m, s, a), b))
    decreases |a|
  {
    if a == [] {
      assert a + b == b;
      PrependNothing(Run(m, s, b));
    } else {
      assert (a + b)[1..] == a[1..] + b;
      var next := m.next(s, a[0]);
      RunConcat(m, next, a[1..], b);
      ThenAssociative(m.read(s, a[0]), Run(m, next, a[1..]), Run(m, StateAfter(m, next, a[1..]), b));
    }
  }

  lemma RunSnoc<S, I, E>(m: Machine<S, I, E>, s: S, lines: seq<string>, line: string)
    ensures Run(m, s, lines + [line]) == Then(Run(m, s, lines), m.read(StateAfter(m, s, lines), line))
  {
    RunConcat(m, s, lines, [line]);
    assert [line][1..] == [];
    var last := m.read(StateAfter(m, s, lines), line);
    if last.Success? {
      assert last.value + [] == last.value;
    }
  }

  // ------------------------------------------------------------------- failure

  predicate FailsAt<S, I, E>(m: Machine<S, I, E>, s: S, lines: seq<string>, i: nat)
    requires i < |lines|
  {
    m.read(StateAfter(m, s, lines[..i]), lines[i]).Failure?
  }

  ghost predicate FirstFailure<S, I, E>(m: Machine<S, I, E>, s: S, lines: seq<string>, i: nat) {
    i < |lines| && FailsAt(m, s, lines, i) && forall j: nat :: j < i ==> !FailsAt(m, s, lines, j)
  }

  /** A line after the first fails exactly when it fails in the run of the tail. */
  lemma FailsInTail<S, I, E>(m: Machine<S, I, E>, s: S, lines: seq<string>, i: nat)
    requires 0 < i < |lines|
    ensures StateAfter(m, s, lines[..i]) == StateAfter(m, m.next(s, lines[0]), lines[1..][..i - 1])
    ensures FailsAt(m, s, lines, i) <==> FailsAt(m, m.next(s, lines[0]), lines[1..], i - 1)
  {
    assert lines[..i][1..] == lines[1..][..i - 1];
  }

  lemma {:induction false} FailureHasFirst<S, I, E>(m: Machine<S, I, E>, s: S, lines: seq<string>) returns (i: nat)
    requires Run(m, s, lines).Failure?
    ensures FirstFailure(m, s, lines, i)
    decreases |lines|
  {
    if m.read(s, lines[0]).Failure? {
      i := 0;
      assert lines[..0] == [];
    } else {
      var k := FailureHasFirst(m, m.next(s, lines[0]), lines[1..]);
      i := k + 1;
      assert lines[..0] == [];
      forall j: nat | 0 < j < |lines|
        ensures FailsAt(m, s, lines, j) <==> FailsAt(m, m.next(s, lines[0]), lines[1..], j - 1)
      {
        FailsInTail(m, s, lines, j);
      }
    }
  }

  lemma {:induction false} FailingLineFails<S, I, E>(m: Machine<S, I, E>, s: S, lines: seq<string>, i: nat)
    requires i < |lines| && FailsAt(m, s, lines, i)
    ensures Run(m, s, lines).Failure?
    decreases |lines|
  {
    assert lines[..0] == [];
    if i > 0 {
      FailsInTail(m, s, lines, i);
      FailingLineFails(m, m.next(s, lines[0]), lines[1..], i - 1);
    }
  }

  /** The error of a run is the error of the first line that cannot be read. */
  lemma {:induction false} FirstFailureDecides<S, I, E>(m: Machine<S, I, E>, s: S, lines: seq<string>, i: nat)
    requires FirstFailure(m, s, lines, i)
    ensures Run(m, s, lines) == Failure(m.read(StateAfter(m, s, lines[..i]), lines[i]).error)
    decreases |lines|
  {
    assert lines[..0] == [];
    if i > 0 {
      assert !FailsAt(m, s, lines, 0);
      var next, rest := m.next(s, lines[0]), lines[1..];
      forall j: nat | j < i
        ensures FailsAt(m, s, lines, j + 1) <==> FailsAt(m, next, rest, j)
      {
        FailsInTail(m, s, lines, j + 1);
      }
      FailsInTail(m, s, lines, i);
      FirstFailureDecides(m, next, rest, i - 1);
    }
  }

  /** The exact failure condition of a line machine. */
  lemma RunFailsExactly<S, I, E>(m: Machine<S, I, E>, s: S, lines: seq<string>)
    ensures Run(m, s, lines).Failure? <==> exists i: nat :: FirstFailure(m, s, lines, i)
    ensures Run(m, s, lines).Failure? <==> exists i: nat :: i < |lines| && FailsAt(m, s, lines, i)
    ensures forall i: nat :: FirstFailure(m, s, lines, i) ==>
              Run(m, s, lines) == Failure(m.read(StateAfter(m, s, lines[..i]), lines[i]).error)
  {
    if Run(m, s, lines).Failure? {
      var i := FailureHasFirst(m, s, lines);
    }
    forall i: nat | i < |lines| && FailsAt(m, s, lines, i)
      ensures Run(m, s, lines).Failure?
    {
      FailingLineFails(m, s, lines, i);
    }
    forall i: nat | FirstFailure(m, s, lines, i)
      ensures Run(m, s, lines) == Failure(m.read(StateAfter(m, s, lines[..i]), lines[i]).error)
    {
      FirstFailureDecides(m, s, lines, i);
    }
  }
}
