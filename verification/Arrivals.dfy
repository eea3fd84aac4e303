/** What a run records at a block, told from the states that arrived there. */
module Arrivals {
  import opened Prelude
  import opened Ordering
  import opened AbstractValues
  import opened Facets
  import opened ExecStates
  import opened ControlFlow
  import opened Recording

  /** The states in which the paths of `log` arrive at `b`, in order. */
  ghost function ArrivingAt(cfg: Cfg, func: nat, left: map<Path, StateView>, log: seq<Path>, b: nat): seq<StateView> {
    if log == [] then []
    else
      ArrivingAt(cfg, func, left, log[..|log| - 1], b)
      + if End(cfg, log[|log| - 1]) == Some(b) then [Arriving(cfg, func, left, log[|log| - 1])] else []
  }

  ghost function MergeAll(states: seq<StateView>): StateView
    requires states != []
  {
    if |states| == 1 then states[0] else Merged(MergeAll(states[..|states| - 1]), states[|states| - 1])
  }

  /** Where a path arrives is settled once the path it extends was left. */
  lemma ArrivalStays(cfg: Cfg, func: nat, left: map<Path, StateView>, path: Path, s: StateView, p: Path)
    requires p == [] || p[..|p| - 1] != path
    ensures Arriving(cfg, func, left[path := s], p) == Arriving(cfg, func, left, p)
  {
  }

  lemma {:induction false} ArrivalsStay(
      cfg: Cfg, func: nat, left: map<Path, StateView>, path: Path, s: StateView, log: seq<Path>, b: nat)
    requires forall p :: p in log ==> p == [] || p[..|p| - 1] != path
    ensures ArrivingAt(cfg, func, left[path := s], log, b) == ArrivingAt(cfg, func, left, log, b)
    decreases |log|
  {
    if log != [] {
      hide Arriving, End;
      assert log[|log| - 1] in log;
      ArrivalStays(cfg, func, left, path, s, log[|log| - 1]);
      ArrivalsStay(cfg, func, left, path, s, log[..|log| - 1], b);
    }
  }

  /** Entering a path changes no earlier arrival. */
  lemma LastIsNoParent(log: seq<Path>, path: Path)
    requires Related(log + [path], Sooner)
    ensures forall p :: p in log + [path] ==> p == [] || p[..|p| - 1] != path
  {
    EntersOnce(log, path);
    forall p | p in log + [path] && p != []
      ensures p[..|p| - 1] != path
    {
      if p in log && p[..|p| - 1] == path {
        PrefixIsSooner(path, p);
        SoonerIsStrict(path, p);
        assert false;
      }
    }
  }

  /** The state recorded at a block is the merge of the states that arrived
      there, in order. */
  lemma {:induction false} RecordedIsMerge(cfg: Cfg, facts: seq<AssignmentFact>, func: nat, log: seq<Path>, b: nat)
    requires Related(log, Sooner) && b < |cfg.blocks|
    ensures var m := Remembered(cfg, facts, func, log);
            var states := ArrivingAt(cfg, func, m.left, log, b);
            if b in m.recorded then states != [] && m.recorded[b] == MergeAll(states) else states == []
    decreases |log|
  {
    if log != [] {
      var init, path := log[..|log| - 1], log[|log| - 1];
      assert log == init + [path];
      RecordedIsMerge(cfg, facts, func, init, b);
      RecordStep(cfg, facts, func, init, path, b);
    }
  }

  lemma RecordStep(cfg: Cfg, facts: seq<AssignmentFact>, func: nat, init: seq<Path>, path: Path, b: nat)
    requires Related(init + [path], Sooner) && b < |cfg.blocks|
    ensures var m, m' := Remembered(cfg, facts, func, init), Remembered(cfg, facts, func, init + [path]);
            var before := ArrivingAt(cfg, func, m.left, init, b);
            var after := ArrivingAt(cfg, func, m'.left, init + [path], b);
            if End(cfg, path) == Some(b) then
              var s := Arriving(cfg, func, m.left, path);
              && after == before + [s]
              && m'.recorded == m.recorded[b := if b in m.recorded then Merged(m.recorded[b], s) else s]
            else after == before && (b in m'.recorded <==> b in m.recorded)
                 && (b in m.recorded ==> m'.recorded[b] == m.recorded[b])
  {
    hide Arriving, End, Merged, Sooner, TransferAll;
    var m := Remembered(cfg, facts, func, init);
    RememberNext(cfg, facts, func, init, path);
    var m' := Remembered(cfg, facts, func, init + [path]);
    LastIsNoParent(init, path);
    assert (init + [path])[..|init|] == init && path in init + [path];
    if m'.left != m.left {
      assert m'.left == m.left[path := m'.left[path]];
      ArrivalsStay(cfg, func, m.left, path, m'.left[path], init, b);
      ArrivalStays(cfg, func, m.left, path, m'.left[path], path);
    }
  }

  // ------------------------------------------------------------------ locals

  ghost function ValuesOf(states: seq<StateView>, name: string): seq<AbstractValue>
    requires forall k :: 0 <= k < |states| ==> name in states[k].locals
  {
    seq(|states|, k requires 0 <= k < |states| => states[k].locals[name])
  }

  ghost predicate AllBind(states: seq<StateView>, name: string) {
    forall k :: 0 <= k < |states| ==> name in states[k].locals
  }

  /** A name keeps the join of its values where every state binds it, and no
      proof elsewhere. */
  lemma {:induction false} LocalsOfMerge(states: seq<StateView>, name: string)
    requires states != []
    ensures AllBind(states, name) ==>
      && name in MergeAll(states).locals
      && MergeAll(states).locals[name] == JoinAll(ValuesOf(states, name))
    ensures !AllBind(states, name) && name in MergeAll(states).locals ==> MergeAll(states).locals[name] == Unknown
    decreases |states|
  {
    if |states| > 1 {
      hide Join, Merged, AllBind, ValuesOf;
      var init, last := states[..|states| - 1], states[|states| - 1];
      LocalsOfMerge(init, name);
      MergeLocal(MergeAll(init), last, name);
      BindLast(states, name);
      if name in last.locals {
        UnknownAbsorbs(last.locals[name]);
      }
    }
  }

  lemma MergeLocal(a: StateView, b: StateView, name: string)
    ensures name in a.locals && name in b.locals ==>
      name in Merged(a, b).locals && Merged(a, b).locals[name] == Join(a.locals[name], b.locals[name])
    ensures name in Merged(a, b).locals && !(name in a.locals && name in b.locals) ==>
      Merged(a, b).locals[name] == Unknown
  {
    hide Join;
  }

  lemma BindLast(states: seq<StateView>, name: string)
    requires |states| > 1
    ensures var init, last := states[..|states| - 1], states[|states| - 1];
            && (AllBind(states, name) <==> AllBind(init, name) && name in last.locals)
            && (AllBind(states, name) ==>
                  && ValuesOf(states, name) != []
                  && JoinAll(ValuesOf(states, name)) == Join(JoinAll(ValuesOf(init, name)), last.locals[name]))
  {
    hide Join;
    var init := states[..|states| - 1];
    assert forall k :: 0 <= k < |init| ==> init[k] == states[k];
    if AllBind(states, name) {
      var values := ValuesOf(states, name);
      assert values[..|values| - 1] == ValuesOf(init, name);
    }
  }

  lemma UnknownAbsorbs(a: AbstractValue)
    ensures Join(Unknown, a) == Unknown
  {
  }

  lemma {:induction false} ArrivalsAreNormal(
      cfg: Cfg, facts: seq<AssignmentFact>, func: nat, log: seq<Path>, part: seq<Path>, b: nat)
    ensures forall s :: s in ArrivingAt(cfg, func, Remembered(cfg, facts, func, log).left, part, b) ==> Normal(s)
    decreases |part|
  {
    if part != [] {
      hide Normal, Arriving, Remembered;
      ArrivalsAreNormal(cfg, facts, func, log, part[..|part| - 1], b);
      RunsAreNormal(cfg, facts, func, log, part[|part| - 1]);
    }
  }

  /** What a run records about a name is exact: while the proof is kept, every
      state that arrived binds the name, and everything described comes from the
      values that arrived; and the proof is kept exactly as far as the join of
      those values keeps it. */
  lemma RecordedIsTight(
      cfg: Cfg, facts: seq<AssignmentFact>, func: nat, log: seq<Path>, b: nat, name: string, c: Concrete)
    requires Related(log, Sooner) && b in Recorded(cfg, facts, func, log)
    requires name in Recorded(cfg, facts, func, log)[b].locals
    ensures var v := Recorded(cfg, facts, func, log)[b].locals[name];
            var states := ArrivingAt(cfg, func, Remembered(cfg, facts, func, log).left, log, b);
            && states != []
            && (Lost(v) <==> !AllBind(states, name) || Lost(JoinAll(ValuesOf(states, name))))
            && (!Lost(v) && Describes(v, c) ==> AllBind(states, name) && ComesFrom(ValuesOf(states, name), c))
  {
    hide Arriving, Sooner, Join, ComesFrom, Remembered;
    RecordedWhere(cfg, facts, func, log, b);
    RecordedIsMerge(cfg, facts, func, log, b);
    var states := ArrivingAt(cfg, func, Remembered(cfg, facts, func, log).left, log, b);
    LocalsOfMerge(states, name);
    ArrivalsAreNormal(cfg, facts, func, log, log, b);
    if AllBind(states, name) {
      var values := ValuesOf(states, name);
      forall v | v in values
        ensures NormalForm(v)
      {
        var k :| 0 <= k < |values| && values[k] == v;
        assert states[k] in states && Normal(states[k]);
      }
      if !Lost(JoinAll(values)) && Describes(JoinAll(values), c) {
        JoinAllIsTight(values, c);
      }
    }
  }
}
