/** Stores that mark expired rows only when somebody looks: sweeping late, early or never makes no
    difference that a caller can see. */
module LazyExpiry {
  /** A store call by call: the state a call leaves and what it returns; sweeps return nothing of interest. */
  datatype Machine<!S, !C, !O> = Machine(call: (S, C) -> (S, O), isSweep: C -> bool, time: C -> int)

  /** What callers see of a sequence of calls. */
  function Outcomes<S, C, O>(m: Machine<S, C, O>, s: S, calls: seq<C>): seq<O>
    decreases |calls|
  {
    if calls == [] then []
    else
      var (s', outcome) := m.call(s, calls[0]);
      (if m.isSweep(calls[0]) then [] else [outcome]) + Outcomes(m, s', calls[1..])
  }

  /** The state a sequence of calls leaves, and the time of its last call. */
  function Final<S, C, O>(m: Machine<S, C, O>, s: S, calls: seq<C>): S
    decreases |calls|
  {
    if calls == [] then s else Final(m, m.call(s, calls[0]).0, calls[1..])
  }

  function LastTime<S, C, O>(m: Machine<S, C, O>, calls: seq<C>, from: int): int {
    if calls == [] then from else m.time(calls[|calls| - 1])
  }

  function WithoutSweeps<S, C, O>(m: Machine<S, C, O>, calls: seq<C>): seq<C> {
    if calls == [] then []
    else (if m.isSweep(calls[0]) then [] else [calls[0]]) + WithoutSweeps(m, calls[1..])
  }

  /** A clock that never runs back. */
  predicate Ascending<S, C, O>(m: Machine<S, C, O>, calls: seq<C>, from: int) {
    calls == [] || (from <= m.time(calls[0]) && Ascending(m, calls[1..], m.time(calls[0])))
  }

  /** States that differ only in what has been swept: they stay so as time passes, a sweep of one side keeps
      them so, and every other call answers alike and keeps them so. */
  ghost predicate Tolerates<S(!new), C(!new), O(!new)>(m: Machine<S, C, O>, alike: (S, S, int) -> bool) {
    && (forall a, b, t, u :: alike(a, b, t) && t <= u ==> alike(a, b, u))
    && (forall a, b, c :: alike(a, b, m.time(c)) && m.isSweep(c) ==> alike(m.call(a, c).0, b, m.time(c)))
    && (forall a, b, c :: alike(a, b, m.time(c)) && !m.isSweep(c) ==>
          m.call(a, c).1 == m.call(b, c).1 && alike(m.call(a, c).0, m.call(b, c).0, m.time(c)))
  }

  lemma {:induction false} SweepsDropOut<S(!new), C(!new), O(!new)>(
      m: Machine<S, C, O>, alike: (S, S, int) -> bool, a: S, b: S, calls: seq<C>, from: int)
    requires Tolerates(m, alike) && alike(a, b, from) && Ascending(m, calls, from)
    ensures Outcomes(m, a, calls) == Outcomes(m, b, WithoutSweeps(m, calls))
    decreases |calls|
  {
    if calls != [] {
      var c := calls[0];
      assert alike(a, b, m.time(c));
      if m.isSweep(c) {
        SweepsDropOut(m, alike, m.call(a, c).0, b, calls[1..], m.time(c));
        assert WithoutSweeps(m, calls) == WithoutSweeps(m, calls[1..]);
      } else {
        SweepsDropOut(m, alike, m.call(a, c).0, m.call(b, c).0, calls[1..], m.time(c));
        assert WithoutSweeps(m, calls) == [c] + WithoutSweeps(m, calls[1..]);
        assert WithoutSweeps(m, calls)[1..] == WithoutSweeps(m, calls[1..]);
      }
    }
  }

  /** Two call sequences that differ only in their sweeps give every caller the same answers. */
  lemma SameAnswers<S(!new), C(!new), O(!new)>(
      m: Machine<S, C, O>, alike: (S, S, int) -> bool, s: S, calls: seq<C>, others: seq<C>, from: int)
    requires Tolerates(m, alike) && alike(s, s, from)
    requires Ascending(m, calls, from) && Ascending(m, others, from)
    requires WithoutSweeps(m, calls) == WithoutSweeps(m, others)
    ensures Outcomes(m, s, calls) == Outcomes(m, s, others)
  {
    SweepsDropOut(m, alike, s, s, calls, from);
    SweepsDropOut(m, alike, s, s, others, from);
  }

  ghost predicate Symmetric<S(!new)>(alike: (S, S, int) -> bool) {
    forall a, b, t :: alike(a, b, t) ==> alike(b, a, t)
  }

  /** What `alike` says of a single state holds after every sequence of calls. */
  lemma {:induction false} StaysAlike<S(!new), C(!new), O(!new)>(
      m: Machine<S, C, O>, alike: (S, S, int) -> bool, s: S, calls: seq<C>, from: int)
    requires Tolerates(m, alike) && Symmetric(alike) && alike(s, s, from) && Ascending(m, calls, from)
    ensures alike(Final(m, s, calls), Final(m, s, calls), LastTime(m, calls, from))
    decreases |calls|
  {
    if calls != [] {
      var c := calls[0];
      var s' := m.call(s, c).0;
      assert alike(s, s, m.time(c));
      if m.isSweep(c) {
        assert alike(s', s, m.time(c));
        assert alike(s, s', m.time(c));
      }
      assert alike(s', s', m.time(c));
      StaysAlike(m, alike, s', calls[1..], m.time(c));
    }
  }
}
