/** Runs of a system given by its step function, which says for a state and an action what the next state is, if any. */
module Transitions {
  import opened SwarmTypes

  /** The state after a series of actions, if each of them can be taken. */
  ghost function Exec<S, A>(step: (S, A) -> Option<S>, s: S, actions: seq<A>): Option<S>
    decreases |actions|
  {
    if actions == [] then Some(s)
    else
      match step(s, actions[0])
      case None => None
      case Some(next) => Exec(step, next, actions[1..])
  }

  /** Some run leads from s to t. */
  ghost predicate Reaches<S, A(!new)>(step: (S, A) -> Option<S>, s: S, t: S) {
    exists actions: seq<A> :: Exec(step, s, actions) == Some(t)
  }

  lemma ReachesItself<S, A(!new)>(step: (S, A) -> Option<S>, s: S)
    ensures Reaches(step, s, s)
  {
    assert Exec(step, s, []) == Some(s);
  }

  lemma {:induction false} ExecAppend<S, A>(step: (S, A) -> Option<S>, s: S, first: seq<A>, second: seq<A>)
    requires Exec(step, s, first).Some?
    ensures Exec(step, s, first + second) == Exec(step, Exec(step, s, first).value, second)
    decreases |first|
  {
    if first == [] {
      assert first + second == second;
    } else {
      ExecAppend(step, step(s, first[0]).value, first[1..], second);
      assert (first + second)[1..] == first[1..] + second;
    }
  }

  /** Runs can be joined. */
  lemma ReachesOn<S, A(!new)>(step: (S, A) -> Option<S>, s: S, t: S, u: S)
    requires Reaches(step, s, t) && Reaches(step, t, u)
    ensures Reaches(step, s, u)
  {
    var first: seq<A> :| Exec(step, s, first) == Some(t);
    var second: seq<A> :| Exec(step, t, second) == Some(u);
    ExecAppend(step, s, first, second);
  }

  /** Runs can be extended by one step. */
  lemma ReachesNext<S, A(!new)>(step: (S, A) -> Option<S>, s: S, t: S, a: A, u: S)
    requires Reaches(step, s, t) && step(t, a) == Some(u)
    ensures Reaches(step, s, u)
  {
    assert Exec(step, u, [a][1..]) == Some(u);
    assert Exec(step, t, [a]) == Some(u);
    ReachesOn(step, s, t, u);
  }

  /** What holds at the start of a run and is kept by each step holds at its end. */
  lemma {:induction false} ExecKeeps<S(!new), A(!new)>(step: (S, A) -> Option<S>, inv: S -> bool, s: S, actions: seq<A>)
    requires inv(s) && Exec(step, s, actions).Some?
    requires forall x, a :: inv(x) && step(x, a).Some? ==> inv(step(x, a).value)
    ensures inv(Exec(step, s, actions).value)
    decreases |actions|
  {
    if actions != [] {
      assert inv(step(s, actions[0]).value);
      ExecKeeps(step, inv, step(s, actions[0]).value, actions[1..]);
    }
  }

  lemma InvariantHolds<S(!new), A(!new)>(step: (S, A) -> Option<S>, inv: S -> bool, s: S, t: S)
    requires inv(s) && Reaches(step, s, t)
    requires forall x, a :: inv(x) && step(x, a).Some? ==> inv(step(x, a).value)
    ensures inv(t)
  {
    var actions: seq<A> :| Exec(step, s, actions) == Some(t);
    ExecKeeps(step, inv, s, actions);
  }

  /** What a system can reach, one that allows more can reach as well. */
  lemma {:induction false} ExecAlso<S, A>(step: (S, A) -> Option<S>, more: (S, A) -> Option<S>, s: S, actions: seq<A>)
    requires Exec(step, s, actions).Some?
    requires forall x, a :: step(x, a).Some? ==> more(x, a) == step(x, a)
    ensures Exec(more, s, actions) == Exec(step, s, actions)
    decreases |actions|
  {
    if actions != [] {
      assert more(s, actions[0]) == step(s, actions[0]);
      ExecAlso(step, more, step(s, actions[0]).value, actions[1..]);
    }
  }

  lemma ReachesAlso<S(!new), A(!new)>(step: (S, A) -> Option<S>, more: (S, A) -> Option<S>, s: S, t: S)
    requires Reaches(step, s, t)
    requires forall x, a :: step(x, a).Some? ==> more(x, a) == step(x, a)
    ensures Reaches(more, s, t)
  {
    var actions: seq<A> :| Exec(step, s, actions) == Some(t);
    ExecAlso(step, more, s, actions);
  }

  // ---- what a run does on its way ----

  /** The actions lead from s to t, and what they do on the way, in order, is `events`. */
  ghost predicate Follows<S, A, E>(step: (S, A) -> Option<S>, does: (S, A) -> seq<E>, s: S, actions: seq<A>,
                                   events: seq<E>, t: S)
    decreases |actions|
  {
    if actions == [] then events == [] && s == t
    else
      var did := does(s, actions[0]);
      && step(s, actions[0]).Some? && did <= events
      && Follows(step, does, step(s, actions[0]).value, actions[1..], events[|did|..], t)
  }

  /** Some run leads from s to t doing exactly this on its way. */
  ghost predicate Goes<S, A(!new), E>(step: (S, A) -> Option<S>, does: (S, A) -> seq<E>, s: S, events: seq<E>, t: S) {
    exists actions: seq<A> :: Follows(step, does, s, actions, events, t)
  }

  lemma GoesNowhere<S, A(!new), E>(step: (S, A) -> Option<S>, does: (S, A) -> seq<E>, s: S)
    ensures Goes(step, does, s, [], s)
  {
    assert Follows(step, does, s, [], [], s);
  }

  /** One step in front of a run. */
  lemma GoesFirst<S, A(!new), E>(step: (S, A) -> Option<S>, does: (S, A) -> seq<E>, s: S, a: A, events: seq<E>, t: S)
    requires step(s, a).Some? && Goes(step, does, step(s, a).value, events, t)
    ensures Goes(step, does, s, does(s, a) + events, t)
  {
    var actions: seq<A> :| Follows(step, does, step(s, a).value, actions, events, t);
    var all := does(s, a) + events;
    assert ([a] + actions)[1..] == actions && all[|does(s, a)|..] == events;
    assert Follows(step, does, s, [a] + actions, all, t);
  }

  lemma {:induction false} FollowsThen<S, A(!new), E>(step: (S, A) -> Option<S>, does: (S, A) -> seq<E>, s: S,
                                                      actions: seq<A>, first: seq<E>, t: S, second: seq<E>, u: S)
    requires Follows(step, does, s, actions, first, t) && Goes(step, does, t, second, u)
    ensures Goes(step, does, s, first + second, u)
    decreases |actions|
  {
    if actions == [] {
      assert first + second == second;
    } else {
      var did := does(s, actions[0]);
      FollowsThen(step, does, step(s, actions[0]).value, actions[1..], first[|did|..], t, second, u);
      GoesFirst(step, does, s, actions[0], first[|did|..] + second, u);
      assert did + (first[|did|..] + second) == first + second;
    }
  }

  /** Runs can be joined. */
  lemma GoesOn<S, A(!new), E>(step: (S, A) -> Option<S>, does: (S, A) -> seq<E>, s: S, first: seq<E>, t: S,
                              second: seq<E>, u: S)
    requires Goes(step, does, s, first, t) && Goes(step, does, t, second, u)
    ensures Goes(step, does, s, first + second, u)
  {
    var actions: seq<A> :| Follows(step, does, s, actions, first, t);
    FollowsThen(step, does, s, actions, first, t, second, u);
  }

  /** What a system can do, one that allows more can do as well. */
  lemma {:induction false} FollowsAlso<S, A, E>(step: (S, A) -> Option<S>, more: (S, A) -> Option<S>,
                                                does: (S, A) -> seq<E>, s: S, actions: seq<A>, events: seq<E>, t: S)
    requires Follows(step, does, s, actions, events, t)
    requires forall x, a :: step(x, a).Some? ==> more(x, a) == step(x, a)
    ensures Follows(more, does, s, actions, events, t)
    decreases |actions|
  {
    if actions != [] {
      assert more(s, actions[0]) == step(s, actions[0]);
      FollowsAlso(step, more, does, step(s, actions[0]).value, actions[1..], events[|does(s, actions[0])|..], t);
    }
  }

  lemma GoesAlso<S(!new), A(!new), E>(step: (S, A) -> Option<S>, more: (S, A) -> Option<S>, does: (S, A) -> seq<E>,
                                      s: S, events: seq<E>, t: S)
    requires Goes(step, does, s, events, t)
    requires forall x, a :: step(x, a).Some? ==> more(x, a) == step(x, a)
    ensures Goes(more, does, s, events, t)
  {
    var actions: seq<A> :| Follows(step, does, s, actions, events, t);
    FollowsAlso(step, more, does, s, actions, events, t);
  }
}
