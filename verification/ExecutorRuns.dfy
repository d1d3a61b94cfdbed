/** What a run of the bridge executor comes to, told from its actions alone: which client and
    generation are in force, why a call was refused, what each completion carries, and that closing
    ends. */
module ExecutorRuns {

  import opened Prelude
  import opened Executor

  // ---------- What the owner did ----------

  predicate Shut(actions: seq<Action>) {
    Close in actions
  }

  /** One generation to begin with, one for each replacement while open, one for closing. */
  function Generations(actions: seq<Action>): int {
    if actions == [] then 1
    else
      var front, last := actions[..|actions| - 1], actions[|actions| - 1];
      Generations(front) + if !Shut(front) && (last.Replace? || last.Close?) then 1 else 0
  }

  /** The client installed last, or none once closed. */
  function Installed(client: Option<int>, actions: seq<Action>): Option<int> {
    if actions == [] then client
    else
      var front, last := actions[..|actions| - 1], actions[|actions| - 1];
      if Shut(actions) then None else if last.Replace? then last.replacement else Installed(client, front)
  }

  /** The clients no longer wanted: each one replaced, the last one on closing, and any that comes
      too late. */
  function Discarded(client: Option<int>, actions: seq<Action>): set<int> {
    if actions == [] then {}
    else
      var front, last := actions[..|actions| - 1], actions[|actions| - 1];
      Discarded(client, front)
      + if last.Replace? && Shut(front) then Retired(last.replacement)
      else if (last.Replace? || last.Close?) && !Shut(front) then Retired(Installed(client, front))
      else {}
  }

  lemma ShutSoFar(actions: seq<Action>)
    requires actions != []
    ensures Shut(actions) <==> Shut(actions[..|actions| - 1]) || actions[|actions| - 1].Close?
  {
    assert actions == actions[..|actions| - 1] + [actions[|actions| - 1]];
  }

  /** Only the owner's steps touch what the owner decides. */
  lemma OwnerStep(s: State, a: Action)
    ensures var t := Step(s, a);
            && t.closed == (s.closed || a.Close?)
            && t.generation == s.generation + (if !s.closed && (a.Replace? || a.Close?) then 1 else 0)
            && t.client == (if s.closed then s.client else if a.Close? then None
                            else if a.Replace? then a.replacement else s.client)
            && t.retiring + t.poisoned == s.retiring + s.poisoned
                                          + (if a.Replace? && s.closed then Retired(a.replacement)
                                             else if (a.Replace? || a.Close?) && !s.closed
                                             then Retired(s.client) else {})
  {
  }

  /** In every interleaving the owner's calls alone decide whether the executor is closed, its
      generation, its client and which clients are closed or about to be. */
  lemma {:induction false} OwnerDecides(client: Option<int>, actions: seq<Action>)
    ensures var s := Run(Initial(client), actions);
            && (s.closed <==> Shut(actions))
            && s.generation == Generations(actions) && s.client == Installed(client, actions)
            && s.retiring + s.poisoned == Discarded(client, actions)
  {
    if actions != [] {
      var front, last := actions[..|actions| - 1], actions[|actions| - 1];
      OwnerDecides(client, front);
      ShutSoFar(actions);
      hide Shut, Step;
      OwnerStep(Run(Initial(client), front), last);
      if Shut(front) { ShutHasNone(client, front); }
    }
  }

  lemma ShutHasNone(client: Option<int>, actions: seq<Action>)
    requires Shut(actions)
    ensures Installed(client, actions) == None
  {
  }

  // ---------- The calls ----------

  /** The call was admitted by action k, under the generation and the client in force then, with the
      next number. */
  ghost predicate AdmittedAt(client: Option<int>, actions: seq<Action>, caller: int, job: Job, k: nat) {
    && k < |actions| && actions[k] == Admit(caller) && !Shut(actions[..k])
    && job == Job(Generations(actions[..k]), |Run(Initial(client), actions[..k]).submitters| + 1,
                  Installed(client, actions[..k]))
  }

  /** A call that was refused was refused because the executor was closed or its context was done. */
  predicate Explained(s: State, actions: seq<Action>, caller: int)
    requires caller in s.submitters
  {
    var w := s.submitters[caller];
    (w.Leaving? || w.Returned?) && !w.accepted ==> s.closed || GiveUpContext(caller) in actions
  }

  lemma StepExplains(s: State, actions: seq<Action>, a: Action, caller: int)
    requires caller in Step(s, a).submitters
    requires caller in s.submitters ==> Explained(s, actions, caller)
    ensures Explained(Step(s, a), actions + [a], caller)
  {
    assert (actions + [a])[|actions|] == a;
  }

  /** Refusals have a reason, in every run: closing, or the caller's own context. */
  lemma {:induction false} RefusalExplained(client: Option<int>, actions: seq<Action>, caller: int)
    requires caller in Run(Initial(client), actions).submitters
    ensures Explained(Run(Initial(client), actions), actions, caller)
  {
    if actions != [] {
      var front, last := actions[..|actions| - 1], actions[|actions| - 1];
      if caller in Run(Initial(client), front).submitters { RefusalExplained(client, front, caller); }
      hide Explained, Step;
      StepExplains(Run(Initial(client), front), front, last, caller);
      assert front + [last] == actions;
    }
  }

  // ---------- Admission ----------

  /** What a step does to the set of calls: only an admission adds one, under the generation and the
      client in force, and no step changes the job of another. */
  lemma AdmissionStep(s: State, a: Action, caller: int)
    ensures var t, admits := Step(s, a), a == Admit(caller) && !s.closed && caller !in s.submitters;
            && (caller in t.submitters <==> caller in s.submitters || admits)
            && (admits ==> t.submitters[caller].job == Job(s.generation, s.nextID + 1, s.client))
            && (caller in s.submitters ==> t.submitters[caller].job == s.submitters[caller].job)
  {
  }

  /** Every call has its number by the order of admissions. */
  lemma AdmissionCounts(s: State, a: Action)
    requires s.nextID == |s.submitters|
    ensures Step(s, a).nextID == |Step(s, a).submitters|
  {
    var t := Step(s, a);
    assert |s.submitters| == |s.submitters.Keys| && |t.submitters| == |t.submitters.Keys|;
    if Enabled(s, a) && OfCall(a) {
      assert t.submitters.Keys == s.submitters.Keys + {a.caller};
    } else {
      assert t.submitters == s.submitters;
    }
  }

  lemma {:induction false} Numbered(client: Option<int>, actions: seq<Action>)
    ensures Run(Initial(client), actions).nextID == |Run(Initial(client), actions).submitters|
  {
    if actions != [] {
      hide Step;
      Numbered(client, actions[..|actions| - 1]);
      AdmissionCounts(Run(Initial(client), actions[..|actions| - 1]), actions[|actions| - 1]);
    }
  }

  /** Every call of every run was admitted by one of the actions, while the executor was open, and
      carries the generation and the client in force at that moment. */
  lemma {:induction false} AdmittedUnder(client: Option<int>, actions: seq<Action>, caller: int) returns (k: nat)
    requires caller in Run(Initial(client), actions).submitters
    ensures AdmittedAt(client, actions, caller, Run(Initial(client), actions).submitters[caller].job, k)
  {
    assert actions != [];
    var front, last := actions[..|actions| - 1], actions[|actions| - 1];
    var s := Run(Initial(client), front);
    AdmissionStep(s, last, caller);
    hide Step, Shut, Generations, Installed;
    if caller in s.submitters {
      k := AdmittedUnder(client, front, caller);
      assert actions[..k] == front[..k];
    } else {
      k := |front|;
      OwnerDecides(client, front);
      Numbered(client, front);
    }
  }

  /** A call on an open executor with room in the queue is accepted, in four steps of its own. */
  lemma SubmitAccepted(s: State, caller: int)
    requires !s.closed && caller !in s.submitters && |s.queue| < QUEUE_CAPACITY
    ensures var job := Job(s.generation, s.nextID + 1, s.client);
            Run(s, [Admit(caller), Check(caller), Enqueue(caller), Leave(caller)])
            == s.(nextID := s.nextID + 1, queue := s.queue + [job], accepted := s.accepted + [job],
            submitters := s.submitters[caller := Returned(job, true)])
  {
    var a, b, c, d := Admit(caller), Check(caller), Enqueue(caller), Leave(caller);
    assert [a, b, c, d][..3] == [a, b, c] && [a, b, c][..2] == [a, b] && [a, b][..1] == [a] && [a][..0] == [];
    var job := Job(s.generation, s.nextID + 1, s.client);
    assert Run(s, []) == s;
    var s1 := Run(s, [a]);
    assert s1 == s.(nextID := s.nextID + 1, submitting := s.submitting + 1,
                 submitters := s.submitters[caller := Admitted(job)]);
    var s2 := Run(s, [a, b]);
    assert s2 == s1.(submitters := s.submitters[caller := Selecting(job)]);
    var s3 := Run(s, [a, b, c]);
    assert s3 == s2.(queue := s.queue + [job], accepted := s.accepted + [job],
                 submitters := s.submitters[caller := Leaving(job, true)]);
    assert Run(s, [a, b, c, d]).submitters == s.submitters[caller := Returned(job, true)];
  }

  /** A full queue holds a call up, and a closed executor refuses it at once. */
  lemma SubmitHeldUp(s: State, caller: int)
    ensures AtSelect(s, caller) && |s.queue| == QUEUE_CAPACITY ==> Step(s, Enqueue(caller)) == s
    ensures s.closed ==> Step(s, Admit(caller)) == s
    ensures s.closed && caller in s.submitters && s.submitters[caller].Admitted?
            ==> WasRefused(Step(s, Check(caller)), caller)
  {
  }

  predicate WasRefused(s: State, caller: int) {
    caller in s.submitters && s.submitters[caller].Leaving? && !s.submitters[caller].accepted
  }

  // ---------- What completions carry ----------

  function Outcomes(completions: seq<Completion>): seq<int> {
    seq(|completions|, i requires 0 <= i < |completions| => completions[i].outcome)
  }

  /** The outcomes with which running operations finished, in order. */
  function Finished(s: State, actions: seq<Action>): seq<int> {
    if actions == [] then []
    else
      var front, last := actions[..|actions| - 1], actions[|actions| - 1];
      Finished(s, front) + if last.Finish? && Run(s, front).worker.Running? then [last.outcome] else []
  }

  lemma OutcomeStep(s: State, a: Action)
    ensures Outcomes(Step(s, a).completions)
         == Outcomes(s.completions) + if a.Finish? && s.worker.Running? then [a.outcome] else []
  {
  }

  /** No result is lost or changed: the i-th completion carries the outcome of the i-th operation
      that finished. */
  lemma {:induction false} OutcomesDelivered(s: State, actions: seq<Action>)
    ensures Outcomes(Run(s, actions).completions) == Outcomes(s.completions) + Finished(s, actions)
  {
    if actions == [] {
      assert Outcomes(s.completions) + [] == Outcomes(s.completions);
    } else {
      hide Step, Outcomes;
      var front, last := actions[..|actions| - 1], actions[|actions| - 1];
      OutcomesDelivered(s, front);
      OutcomeStep(Run(s, front), last);
    }
  }

  lemma {:induction false} RunBoth(s: State, first: seq<Action>, second: seq<Action>)
    ensures Run(s, first + second) == Run(Run(s, first), second)
  {
    hide Step;
    if second == [] {
      assert first + second == first;
    } else {
      RunBoth(s, first, second[..|second| - 1]);
      assert (first + second)[..|first + second| - 1] == first + second[..|second| - 1];
    }
  }

  lemma RunOne(s: State, a: Action)
    ensures Run(s, [a]) == Step(s, a)
  {
    assert [a][..0] == [] && Run(s, []) == s;
  }

  /** Whatever has been accepted, a worker that is not interrupted by closing works it off, with
      nobody else's help: every accepted operation is completed. */
  lemma BacklogDone(s: State) returns (actions: seq<Action>)
    requires Ordered(s) && (s.worker.Receiving? || (s.worker.Running? && !s.worker.draining))
    ensures forall a :: a in actions ==> a.Receive? || a.Finish?
    ensures var t := Run(s, actions); t.queue == [] && t.accepted == s.accepted && |t.completions| == |s.accepted|
    decreases 2 * |s.queue| + if s.worker.Running? then 1 else 0
  {
    if s.worker.Receiving? && s.queue == [] {
      actions := [];
    } else {
      var a := if s.worker.Running? then Finish(0) else Receive;
      var t := Step(s, a);
      StepKeepsOrder(s, a);
      assert t.accepted == s.accepted && (t.worker.Receiving? || (t.worker.Running? && !t.worker.draining));
      var rest := BacklogDone(t);
      hide Run, Step, Ordered;
      RunBoth(s, [a], rest);
      RunOne(s, a);
      actions := [a] + rest;
    }
  }

  // ---------- Closing ends ----------

  function Stage(w: Submitter): nat {
    match w
    case Admitted(_) => 0
    case Selecting(_) => 1
    case Leaving(_, _) => 2
    case Returned(_, _) => 3
  }

  function AtStage(submitters: map<int, Submitter>, stage: nat): set<int> {
    set c | c in submitters && Stage(submitters[c]) == stage
  }

  /** A bound on the steps that the worker and the calls under way can still take. */
  function Remaining(s: State): nat {
    var worker :=
      match s.worker
      case Receiving => 3
      case Running(_, draining) => if draining then 2 else 4
      case Waiting => 2
      case Draining => 1
      case Exited => 0;
    5 * |AtStage(s.submitters, 0)| + 4 * |AtStage(s.submitters, 1)|
    + |AtStage(s.submitters, 2)| + 2 * |s.queue| + worker
  }

  lemma StageMoves(submitters: map<int, Submitter>, caller: int, w: Submitter, stage: nat)
    requires caller in submitters
    ensures |AtStage(submitters[caller := w], stage)|
         == |AtStage(submitters, stage)| - (if Stage(submitters[caller]) == stage then 1 else 0)
            + (if Stage(w) == stage then 1 else 0)
  {
    var before, after := AtStage(submitters, stage), AtStage(submitters[caller := w], stage);
    assert before - {caller} == after - {caller};
    OneApart(before, after, caller);
  }

  lemma OneApart(a: set<int>, b: set<int>, x: int)
    requires a - {x} == b - {x}
    ensures |a| - (if x in a then 1 else 0) == |b| - (if x in b then 1 else 0)
  {
    assert |a - {x}| == |a| - if x in a then 1 else 0;
    assert |b - {x}| == |b| - if x in b then 1 else 0;
  }

  /** Once closed, every step of a call or of the worker brings the end nearer. */
  lemma ClosingStep(s: State, a: Action)
    requires s.closed
    ensures Remaining(Step(s, a)) + (if Enabled(s, a) && !OfOwner(a) then 1 else 0) <= Remaining(s)
  {
    hide AtStage;
    if Enabled(s, a) && OfCall(a) {
      var w := Effect(s, a).submitters[a.caller];
      StageMoves(s.submitters, a.caller, w, 0);
      StageMoves(s.submitters, a.caller, w, 1);
      StageMoves(s.submitters, a.caller, w, 2);
      assert Effect(s, a).submitters == s.submitters[a.caller := w];
    }
  }

  /** The steps of calls and of the worker that were taken. */
  function Taken(s: State, actions: seq<Action>): nat {
    if actions == [] then 0
    else
      var front, last := actions[..|actions| - 1], actions[|actions| - 1];
      Taken(s, front) + if Enabled(Run(s, front), last) && !OfOwner(last) then 1 else 0
  }

  /** Closing ends, whatever the order: from a closed state at most Remaining(s) steps are left,
      however calls, worker and owner are interleaved. */
  lemma {:induction false} ClosingEnds(s: State, actions: seq<Action>)
    requires s.closed
    ensures Run(s, actions).closed && Taken(s, actions) + Remaining(Run(s, actions)) <= Remaining(s)
  {
    if actions != [] {
      var front, last := actions[..|actions| - 1], actions[|actions| - 1];
      ClosingEnds(s, front);
      OwnerStep(Run(s, front), last);
      ClosingStep(Run(s, front), last);
      hide Step, Enabled, Remaining;
    }
  }

  /** And it ends well: from every closed state of a run there is a way on, without any help of the
      owner, after which the worker has left and every accepted operation is completed. */
  lemma ClosingCompletes(s: State) returns (actions: seq<Action>)
    requires Inv(s) && s.closed
    ensures forall a :: a in actions ==> !OfOwner(a)
    ensures var t := Run(s, actions); Inv(t) && t.worker.Exited? && |t.completions| == |t.accepted|
    decreases Remaining(s)
  {
    if s.worker.Exited? {
      actions := [];
      AllCompleted(s);
      assert Run(s, []) == s;
    } else {
      var a := NeverStuck(s);
      ClosingStep(s, a);
      StepKeeps(s, a);
      OwnerStep(s, a);
      hide Inv, Step, Remaining, Enabled;
      var rest := ClosingCompletes(Step(s, a));
      hide Run;
      RunBoth(s, [a], rest);
      RunOne(s, a);
      actions := [a] + rest;
    }
  }
}
