/** A run together with the states it goes through, so that statements can name its steps. */
module Histories {
  import opened Interleaving

  datatype History = History(states: seq<State>, run: seq<Action>)

  function HistoryOf(cfg: Config, s: State, run: seq<Action>): (h: History)
    requires ValidRun(cfg, s, run)
    ensures h.run == run && |h.states| == |run| + 1
    decreases |run|
  {
    if run == [] then History([s], run)
    else History([s] + HistoryOf(cfg, Step(cfg, s, run[0]), run[1..]).states, run)
  }

  /** Step `i` leads from one state to the next. */
  ghost predicate StepAt(cfg: Config, h: History, i: nat)
    requires |h.states| == |h.run| + 1 && i < |h.run|
  {
    Enabled(h.states[i], h.run[i]) && h.states[i + 1] == Step(cfg, h.states[i], h.run[i])
  }

  ghost predicate Faithful(cfg: Config, h: History) {
    |h.states| == |h.run| + 1 && forall i: nat :: i < |h.run| ==> StepAt(cfg, h, i)
  }

  lemma {:induction false} HistoryIsFaithful(cfg: Config, s: State, run: seq<Action>)
    requires ValidRun(cfg, s, run)
    ensures var h := HistoryOf(cfg, s, run);
            Faithful(cfg, h) && h.states[0] == s && h.states[|run|] == After(cfg, s, run)
    decreases |run|
  {
    hide Step, Enabled;
    if run != [] {
      var s' := Step(cfg, s, run[0]);
      HistoryIsFaithful(cfg, s', run[1..]);
      var h, rest := HistoryOf(cfg, s, run), HistoryOf(cfg, s', run[1..]);
      forall i: nat | i < |run| ensures StepAt(cfg, h, i) {
        if i > 0 {
          assert StepAt(cfg, rest, i - 1);
          assert h.states[i] == rest.states[i - 1] && h.states[i + 1] == rest.states[i] && run[i] == run[1..][i - 1];
        }
      }
    }
  }

  /** The part of a run before step `i` is a run, and leads to the state before that step. */
  lemma {:induction false} PrefixIsRun(cfg: Config, s: State, run: seq<Action>, i: nat)
    requires ValidRun(cfg, s, run) && i <= |run|
    ensures ValidRun(cfg, s, run[..i]) && After(cfg, s, run[..i]) == HistoryOf(cfg, s, run).states[i]
    decreases |run|
  {
    hide Step, Enabled;
    if i > 0 {
      PrefixIsRun(cfg, Step(cfg, s, run[0]), run[1..], i - 1);
      assert run[..i][0] == run[0] && run[..i][1..] == run[1..][..i - 1];
    }
  }

  /** One run after another. */
  lemma {:induction false} RunAfterRun(cfg: Config, s: State, a: seq<Action>, b: seq<Action>)
    requires ValidRun(cfg, s, a) && ValidRun(cfg, After(cfg, s, a), b)
    ensures ValidRun(cfg, s, a + b) && After(cfg, s, a + b) == After(cfg, After(cfg, s, a), b)
    decreases |a|
  {
    hide Step, Enabled;
    if a == [] {
      assert a + b == b;
    } else {
      assert (a + b)[0] == a[0] && (a + b)[1..] == a[1..] + b;
      RunAfterRun(cfg, Step(cfg, s, a[0]), a[1..], b);
    }
  }
}
