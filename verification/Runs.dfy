/** Runs of a step system: a step function says what an event does, or that it is not enabled. */
module Runs {
  import opened Text

  function Exec<S, E>(step: (S, E) -> Option<S>, s: S, events: seq<E>): Option<S> {
    if events == [] then Some(s) else
    match Exec(step, s, events[..|events| - 1])
    case None => None
    case Some(mid) => step(mid, events[|events| - 1])
  }

  lemma ExecMore<S, E>(step: (S, E) -> Option<S>, s: S, events: seq<E>, e: E)
    ensures Exec(step, s, events).None? ==> Exec(step, s, events + [e]).None?
    ensures Exec(step, s, events).Some? ==> Exec(step, s, events + [e]) == step(Exec(step, s, events).value, e)
  {
    assert (events + [e])[..|events|] == events;
  }

  lemma ExecOne<S, E>(step: (S, E) -> Option<S>, s: S, e: E)
    ensures Exec(step, s, [e]) == step(s, e)
  {
    assert Exec(step, s, []) == Some(s);
    ExecMore(step, s, [], e);
    assert [] + [e] == [e];
  }

  lemma ExecTwo<S, E>(step: (S, E) -> Option<S>, s: S, a: E, b: E, s1: S, s2: S)
    requires step(s, a) == Some(s1) && step(s1, b) == Some(s2)
    ensures Exec(step, s, [a, b]) == Some(s2)
  {
    ExecOne(step, s, a);
    ExecMore(step, s, [a], b);
    assert [a] + [b] == [a, b];
  }

  lemma ExecFour<S, E>(step: (S, E) -> Option<S>, s: S, a: E, b: E, c: E, d: E, s1: S, s2: S, s3: S, s4: S)
    requires step(s, a) == Some(s1) && step(s1, b) == Some(s2) && step(s2, c) == Some(s3) && step(s3, d) == Some(s4)
    ensures Exec(step, s, [a, b, c, d]) == Some(s4)
  {
    ExecTwo(step, s, a, b, s1, s2);
    ExecMore(step, s, [a, b], c);
    assert [a, b] + [c] == [a, b, c];
    ExecMore(step, s, [a, b, c], d);
    assert [a, b, c] + [d] == [a, b, c, d];
  }

  lemma {:induction false} ExecConcat<S, E>(step: (S, E) -> Option<S>, s: S, a: seq<E>, b: seq<E>)
    ensures Exec(step, s, a).None? ==> Exec(step, s, a + b).None?
    ensures Exec(step, s, a).Some? ==> Exec(step, s, a + b) == Exec(step, Exec(step, s, a).value, b)
  {
    if b == [] {
      assert a + b == a;
    } else {
      var init, last := b[..|b| - 1], b[|b| - 1];
      ExecConcat(step, s, a, init);
      assert b == init + [last] && a + b == (a + init) + [last];
      ExecMore(step, s, a + init, last);
    }
  }
}
