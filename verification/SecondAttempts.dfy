/** When exactly a second attempt for one result id opens beside an open one. */
module SecondAttempts {
  import opened Basics
  import W = WritebackTable
  import opened Protocol
  import opened ProtocolCases
  import opened ProtocolInvariant
  import opened ProtocolSteps
  import opened ProtocolTheorems

  /** Event `e` starts an attempt beside one that stays open. */
  predicate OpensSecond(s: State, e: Event, c: Config) {
    e.step.Submit? && W.StartsSecond(s.wb, e.step.request, e.step.target, e.now, c.writebacks)
  }

  lemma StepOpensSecondExactly(s: State, step: Step, now: Time, c: Config)
    requires c.Valid() && Inv(s, c) && Enabled(s, step, now, c) && W.OneOpen(s.wb)
    ensures W.OneOpen(Next(s, step, now, c).wb) <==> !OpensSecond(s, At(now, step), c)
  {
    hide Inv, Enabled, Next, W.Inv, W.OneOpen, W.StartsSecond, W.Progresses;
    InvParts(s, c);
    if step.Submit? {
      IsSubmit(s, step.request, step.target, now, c);
      W.StartKeepsOneOpenExactly(s.wb, step.request, step.target, s.clock, now, c.writebacks);
    } else {
      StepFollows(s, step, now, c);
      StepAddsNone(s, step, now, c);
      W.FollowsKeepsOneOpen(s.wb, Next(s, step, now, c).wb);
    }
  }

  /** Event `k` of a run opens a second attempt. */
  predicate OpensSecondAt(start: Time, run: seq<Event>, k: nat, c: Config) {
    k < |run| && OpensSecond(After(start, run[..k], c), run[k], c)
  }

  /** In every state that the run passes through, at most one attempt of each result id is open. */
  predicate OneOpenThroughout(start: Time, run: seq<Event>, c: Config) {
    forall k :: 0 <= k <= |run| ==> W.OneOpen(After(start, run[..k], c).wb)
  }

  /** A run never has two open attempts of one result id exactly when none of its events is a submit that
      finds an attempt open whose ticket is over, but whose wait is not unless the table has forgotten it,
      and starts another under its own live ticket. */
  lemma {:induction false} OneOpenExactly(start: Time, run: seq<Event>, c: Config)
    requires c.Valid() && IsRun(start, run, c)
    ensures OneOpenThroughout(start, run, c) <==> forall k: nat :: !OpensSecondAt(start, run, k, c)
    decreases |run|
  {
    hide Inv, Next, Enabled, OpensSecond, W.OneOpen;
    if run == [] {
      NoneOpen();
    } else {
      var n := |run| - 1;
      OneOpenExactly(start, run[..n], c);
      RunKeepsInv(start, run[..n], c);
      if W.OneOpen(After(start, run[..n], c).wb) { StepOpensSecondExactly(After(start, run[..n], c), run[n].step, run[n].now, c); }
      OpensBefore(start, run, run[..n], c);
      OneOpenBefore(start, run, run[..n], c);
    }
  }

  lemma NoneOpen()
    ensures W.OneOpen(W.EMPTY)
  {
  }

  lemma OpensBefore(start: Time, run: seq<Event>, most: seq<Event>, c: Config)
    requires run != [] && most == run[..|run| - 1]
    ensures (forall k: nat :: !OpensSecondAt(start, run, k, c))
            <==> (forall k: nat :: !OpensSecondAt(start, most, k, c)) && !OpensSecond(After(start, most, c), run[|run| - 1], c)
  {
    hide After, OpensSecond;
    var n := |run| - 1;
    forall k: nat | k < n ensures OpensSecondAt(start, most, k, c) <==> OpensSecondAt(start, run, k, c) {
      assert most[..k] == run[..k];
    }
    assert OpensSecondAt(start, run, n, c) <==> OpensSecond(After(start, most, c), run[n], c);
  }

  lemma OneOpenBefore(start: Time, run: seq<Event>, most: seq<Event>, c: Config)
    requires run != [] && most == run[..|run| - 1]
    ensures OneOpenThroughout(start, run, c) <==> OneOpenThroughout(start, most, c) && W.OneOpen(After(start, run, c).wb)
    ensures OneOpenThroughout(start, most, c) ==> W.OneOpen(After(start, most, c).wb)
  {
    hide After, W.OneOpen;
    assert run[..|run|] == run && most[..|most|] == most;
    forall k | 0 <= k < |run| ensures most[..k] == run[..k] {
    }
  }
}
