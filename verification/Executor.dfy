/** The bridge executor of internal/bridge/executor.go as a protocol of interleaved steps: any
    number of submitters, Replace and Close calls, and one worker. A step is a critical section,
    a channel operation or a WaitGroup operation; a step that is not possible changes nothing. */
module Executor {

  import opened Prelude

  const QUEUE_CAPACITY := 64

  /** A client is known by a number, an operation's result by an opaque outcome. */
  datatype Job = Job(generation: int, operation: int, client: Option<int>)

  datatype Completion = Completion(generation: int, operation: int, outcome: int)

  /** One call of Submit, after its admission. */
  datatype Submitter =
    | Admitted(job: Job)                  // before the first look at the closing signal
    | Selecting(job: Job)                 // at the select that sends, or gives up
    | Leaving(job: Job, accepted: bool)   // result decided, WaitGroup not yet left
    | Returned(job: Job, accepted: bool)

  datatype Worker =
    | Receiving
    | Running(job: Job, draining: bool)
    | Waiting
    | Draining
    | Exited

  datatype State = State(
    client: Option<int>,
    generation: int,
    nextID: int,
    closed: bool,
    submitting: int,
    queue: seq<Job>,
    submitters: map<int, Submitter>,
    worker: Worker,
    completions: seq<Completion>,
    retiring: set<int>,
    poisoned: set<int>,
    // History, for stating properties: jobs in the order they were accepted, and the client
    // installed for each generation.
    accepted: seq<Job>,
    installed: map<int, Option<int>>)

  datatype Action =
    | Admit(caller: int)
    | Check(caller: int)
    | Enqueue(caller: int)
    | GiveUpClosing(caller: int)
    | GiveUpContext(caller: int)
    | Leave(caller: int)
    | Replace(replacement: Option<int>)
    | Close
    | Poison(retired: int)
    | Receive
    | NoticeClosing
    | WaitOver
    | Finish(outcome: int)
    | DrainNext
    | Exit

  function Initial(client: Option<int>): State {
    State(client, 1, 0, false, 0, [], map[], Receiving, [], {}, {}, [], map[1 := client])
  }

  predicate AtSelect(s: State, caller: int) {
    caller in s.submitters && s.submitters[caller].Selecting?
  }

  /** Whether the step can be taken; where a select could take several, each of them can. */
  predicate Enabled(s: State, a: Action) {
    match a
    case Admit(caller) => caller !in s.submitters && !s.closed
    case Check(caller) => caller in s.submitters && s.submitters[caller].Admitted?
    case Enqueue(caller) => AtSelect(s, caller) && |s.queue| < QUEUE_CAPACITY
    case GiveUpClosing(caller) => AtSelect(s, caller) && s.closed
    case GiveUpContext(caller) => AtSelect(s, caller)
    case Leave(caller) => caller in s.submitters && s.submitters[caller].Leaving?
    case Replace(_) => true
    case Close => !s.closed
    case Poison(retired) => retired in s.retiring
    case Receive => s.worker.Receiving? && s.queue != []
    case NoticeClosing => s.worker.Receiving? && s.closed
    case WaitOver => s.worker.Waiting? && s.submitting == 0
    case Finish(_) => s.worker.Running?
    case DrainNext => s.worker.Draining? && s.queue != []
    case Exit => s.worker.Draining? && s.queue == []
  }

  function Retired(client: Option<int>): set<int> {
    if client.Some? then {client.value} else {}
  }

  predicate OfCall(a: Action) {
    a.Admit? || a.Check? || a.Enqueue? || a.GiveUpClosing? || a.GiveUpContext? || a.Leave?
  }

  predicate OfOwner(a: Action) {
    a.Replace? || a.Close? || a.Poison?
  }

  /** The steps of a call of Submit. */
  function CallEffect(s: State, a: Action): State
    requires Enabled(s, a) && OfCall(a)
  {
    match a
    case Admit(caller) =>
      var job := Job(s.generation, s.nextID + 1, s.client);
      var submitters := s.submitters[caller := Admitted(job)];
      s.(nextID := s.nextID + 1, submitting := s.submitting + 1, submitters := submitters)
    case Check(caller) =>
      var job := s.submitters[caller].job;
      s.(submitters := s.submitters[caller := if s.closed then Leaving(job, false) else Selecting(job)])
    case Enqueue(caller) =>
      var job := s.submitters[caller].job;
      var submitters := s.submitters[caller := Leaving(job, true)];
      s.(queue := s.queue + [job], accepted := s.accepted + [job], submitters := submitters)
    case GiveUpClosing(caller) =>
      s.(submitters := s.submitters[caller := Leaving(s.submitters[caller].job, false)])
    case GiveUpContext(caller) =>
      s.(submitters := s.submitters[caller := Leaving(s.submitters[caller].job, false)])
    case Leave(caller) =>
      var w := s.submitters[caller];
      s.(submitting := s.submitting - 1, submitters := s.submitters[caller := Returned(w.job, w.accepted)])
  }

  /** The steps of Replace and Close. */
  function OwnerEffect(s: State, a: Action): State
    requires Enabled(s, a) && OfOwner(a)
  {
    match a
    case Replace(replacement) =>
      if s.closed then s.(retiring := s.retiring + Retired(replacement))
      else s.(client := replacement, generation := s.generation + 1, retiring := s.retiring + Retired(s.client),
           installed := s.installed[s.generation + 1 := replacement])
    case Close =>
      s.(closed := true, client := None, generation := s.generation + 1, retiring := s.retiring + Retired(s.client),
      installed := s.installed[s.generation + 1 := None])
    case Poison(retired) =>
      s.(retiring := s.retiring - {retired}, poisoned := s.poisoned + {retired})
  }

  /** The steps of the worker. */
  function WorkerEffect(s: State, a: Action): State
    requires Enabled(s, a) && !OfCall(a) && !OfOwner(a)
  {
    match a
    case Receive => s.(queue := s.queue[1..], worker := Running(s.queue[0], false))
    case NoticeClosing => s.(worker := Waiting)
    case WaitOver => s.(worker := Draining)
    case Finish(outcome) =>
      var job := s.worker.job;
      s.(completions := s.completions + [Completion(job.generation, job.operation, outcome)],
      worker := if s.worker.draining then Draining else Receiving)
    case DrainNext => s.(queue := s.queue[1..], worker := Running(s.queue[0], true))
    case Exit => s.(worker := Exited)
  }

  function Effect(s: State, a: Action): State
    requires Enabled(s, a)
  {
    if OfCall(a) then CallEffect(s, a) else if OfOwner(a) then OwnerEffect(s, a) else WorkerEffect(s, a)
  }

  function Step(s: State, a: Action): State {
    if Enabled(s, a) then Effect(s, a) else s
  }

  /** The state after the actions, in that order. */
  function Run(s: State, actions: seq<Action>): State {
    if actions == [] then s else Step(Run(s, actions[..|actions| - 1]), actions[|actions| - 1])
  }

  // ---------- Invariants ----------

  /** What the worker has taken off the queue and not completed. */
  function InHand(w: Worker): seq<Job> {
    if w.Running? then [w.job] else []
  }

  /** Accepted jobs, oldest first: those completed, the one running, those queued. */
  predicate Ordered(s: State) {
    && |s.completions| <= |s.accepted| && |s.queue| <= QUEUE_CAPACITY
    && s.accepted[|s.completions|..] == InHand(s.worker) + s.queue
    && forall i :: 0 <= i < |s.completions| ==>
                     && s.completions[i].generation == s.accepted[i].generation
                     && s.completions[i].operation == s.accepted[i].operation
  }

  predicate WasAccepted(w: Submitter) {
    (w.Leaving? || w.Returned?) && w.accepted
  }

  ghost predicate HasCaller(s: State, job: Job) {
    exists c :: c in s.submitters && WasAccepted(s.submitters[c]) && s.submitters[c].job == job
  }

  /** Every call has its own operation id, and exactly the accepted calls' jobs were accepted,
      each once. */
  ghost predicate Identified(s: State) {
    && s.nextID >= 0
    && (forall c :: c in s.submitters ==> 1 <= s.submitters[c].job.operation <= s.nextID)
    && (forall c, d :: c in s.submitters && d in s.submitters && c != d ==>
                         s.submitters[c].job.operation != s.submitters[d].job.operation)
    && (forall i, j :: 0 <= i < j < |s.accepted| ==> s.accepted[i].operation != s.accepted[j].operation)
    && (forall i :: 0 <= i < |s.accepted| ==> HasCaller(s, s.accepted[i]))
    && (forall c :: c in s.submitters && WasAccepted(s.submitters[c]) ==> s.submitters[c].job in s.accepted)
  }

  /** Generations are numbered from one; each had one client, on which its jobs run. */
  ghost predicate Fenced(s: State) {
    && s.generation >= 1 && (forall g :: g in s.installed <==> 1 <= g <= s.generation)
    && s.installed[s.generation] == s.client && (s.closed ==> s.client.None?)
    && (forall c :: c in s.submitters ==>
                      var job := s.submitters[c].job;
                      job.generation in s.installed && job.client == s.installed[job.generation])
    && (forall g :: g in s.installed && s.installed[g].Some? ==>
                      || s.installed[g] == s.client
                      || s.installed[g].value in s.retiring
                      || s.installed[g].value in s.poisoned)
  }

  function Live(submitters: map<int, Submitter>): set<int> {
    set c | c in submitters && !submitters[c].Returned?
  }

  /** The WaitGroup counts the calls under way; the worker only drains once there are none
      and there can be no more. */
  ghost predicate Drained(s: State) {
    && s.submitting == |Live(s.submitters)|
    && (s.worker.Waiting? ==> s.closed)
    && (s.worker.Draining? || s.worker.Exited? || (s.worker.Running? && s.worker.draining) ==>
          s.closed && s.submitting == 0)
    && (s.worker.Exited? ==> s.queue == [])
  }

  ghost predicate Inv(s: State) {
    Ordered(s) && Identified(s) && Fenced(s) && Drained(s)
  }

  lemma EnqueueKeepsOrder(s: State, job: Job, t: State)
    requires Ordered(s) && |s.queue| < QUEUE_CAPACITY
    requires t.queue == s.queue + [job] && t.accepted == s.accepted + [job]
    requires t.completions == s.completions && t.worker == s.worker
    ensures Ordered(t)
  {
    assert t.accepted[|s.completions|..] == s.accepted[|s.completions|..] + [job];
  }

  lemma FinishKeepsOrder(s: State, outcome: int, t: State)
    requires Ordered(s) && s.worker.Running? && !t.worker.Running?
    requires t.completions == s.completions + [Completion(s.worker.job.generation, s.worker.job.operation, outcome)]
    requires t.queue == s.queue && t.accepted == s.accepted
    ensures Ordered(t)
  {
    var n := |s.completions|;
    assert s.accepted[n..][1..] == s.accepted[n + 1..] && s.accepted[n..][0] == s.accepted[n];
  }

  lemma TakeKeepsOrder(s: State, t: State)
    requires Ordered(s) && !s.worker.Running? && s.queue != []
    requires t.worker.Running? && t.worker.job == s.queue[0] && t.queue == s.queue[1..]
    requires t.completions == s.completions && t.accepted == s.accepted
    ensures Ordered(t)
  {
    assert [s.queue[0]] + s.queue[1..] == s.queue;
  }

  lemma SameOrder(s: State, t: State)
    requires Ordered(s) && t.completions == s.completions && t.accepted == s.accepted
    requires t.queue == s.queue && InHand(t.worker) == InHand(s.worker)
    ensures Ordered(t)
  {
  }

  lemma StepKeepsOrder(s: State, a: Action)
    requires Ordered(s)
    ensures Ordered(Step(s, a))
  {
    hide Ordered;
    if Enabled(s, a) {
      var t := Effect(s, a);
      match a
      case Enqueue(caller) => EnqueueKeepsOrder(s, s.submitters[caller].job, t);
      case Finish(outcome) => FinishKeepsOrder(s, outcome, t);
      case Receive => TakeKeepsOrder(s, t);
      case DrainNext => TakeKeepsOrder(s, t);
      case _ => SameOrder(s, t);
    }
  }

  /** A call that moves on and keeps its job, without being accepted just now. */
  lemma MovedKeepsIds(s: State, caller: int, w: Submitter)
    requires Identified(s) && caller in s.submitters && w.job == s.submitters[caller].job
    requires WasAccepted(w) == WasAccepted(s.submitters[caller])
    ensures Identified(s.(submitters := s.submitters[caller := w]))
  {
    var t := s.(submitters := s.submitters[caller := w]);
    forall i | 0 <= i < |s.accepted| ensures HasCaller(t, s.accepted[i]) {
      assert HasCaller(s, s.accepted[i]);
      var c :| c in s.submitters && WasAccepted(s.submitters[c]) && s.submitters[c].job == s.accepted[i];
      assert c in t.submitters && WasAccepted(t.submitters[c]) && t.submitters[c].job == s.accepted[i];
    }
  }

  lemma AdmitKeepsIds(s: State, caller: int, job: Job)
    requires Identified(s) && caller !in s.submitters && job.operation == s.nextID + 1
    ensures Identified(s.(submitters := s.submitters[caller := Admitted(job)], nextID := s.nextID + 1))
  {
    var t := s.(submitters := s.submitters[caller := Admitted(job)], nextID := s.nextID + 1);
    forall i | 0 <= i < |s.accepted| ensures HasCaller(t, s.accepted[i]) {
      assert HasCaller(s, s.accepted[i]);
      var c :| c in s.submitters && WasAccepted(s.submitters[c]) && s.submitters[c].job == s.accepted[i];
      assert c in t.submitters && WasAccepted(t.submitters[c]) && t.submitters[c].job == s.accepted[i];
    }
  }

  lemma EnqueueKeepsIds(s: State, caller: int)
    requires Identified(s) && AtSelect(s, caller)
    ensures var job := s.submitters[caller].job;
            Identified(s.(accepted := s.accepted + [job], submitters := s.submitters[caller := Leaving(job, true)]))
  {
    var job := s.submitters[caller].job;
    var t := s.(accepted := s.accepted + [job], submitters := s.submitters[caller := Leaving(job, true)]);
    forall i | 0 <= i < |s.accepted| ensures HasCaller(t, s.accepted[i]) && s.accepted[i].operation != job.operation {
      assert HasCaller(s, s.accepted[i]);
      var c :| c in s.submitters && WasAccepted(s.submitters[c]) && s.submitters[c].job == s.accepted[i];
      assert c in t.submitters && WasAccepted(t.submitters[c]) && t.submitters[c].job == s.accepted[i];
    }
    assert caller in t.submitters && WasAccepted(t.submitters[caller]);
    assert HasCaller(t, job);
    assert t.accepted[|s.accepted|] == job;
    assert forall j :: j in s.accepted ==> j in t.accepted;
  }

  /** Identity depends on the calls, the counter and what was accepted, and on nothing else. */
  lemma SameIds(s: State, t: State)
    requires Identified(s) && t.submitters == s.submitters && t.nextID == s.nextID && t.accepted == s.accepted
    ensures Identified(t)
  {
    forall i | 0 <= i < |s.accepted| ensures HasCaller(t, s.accepted[i]) {
      assert HasCaller(s, s.accepted[i]);
    }
  }

  lemma StepKeepsIds(s: State, a: Action)
    requires Identified(s)
    ensures Identified(Step(s, a))
  {
    hide Identified;
    if Enabled(s, a) {
      match a
      case Admit(caller) =>
        var job := Job(s.generation, s.nextID + 1, s.client);
        AdmitKeepsIds(s, caller, job);
        SameIds(s.(submitters := s.submitters[caller := Admitted(job)], nextID := s.nextID + 1), Effect(s, a));
      case Check(caller) => MovedKeepsIds(s, caller, Effect(s, a).submitters[caller]);
      case Enqueue(caller) =>
        var job := s.submitters[caller].job;
        EnqueueKeepsIds(s, caller);
        SameIds(s.(accepted := s.accepted + [job], submitters := s.submitters[caller := Leaving(job, true)]),
                Effect(s, a));
      case GiveUpClosing(caller) => MovedKeepsIds(s, caller, Effect(s, a).submitters[caller]);
      case GiveUpContext(caller) => MovedKeepsIds(s, caller, Effect(s, a).submitters[caller]);
      case Leave(caller) =>
        var w := Effect(s, a).submitters[caller];
        MovedKeepsIds(s, caller, w);
        SameIds(s.(submitters := s.submitters[caller := w]), Effect(s, a));
      case _ => SameIds(s, Effect(s, a));
    }
  }

  lemma StepKeepsFence(s: State, a: Action)
    requires Fenced(s)
    ensures Fenced(Step(s, a))
  {
  }

  function Counted(submitters: map<int, Submitter>, caller: int): int {
    if caller in submitters && !submitters[caller].Returned? then 1 else 0
  }

  lemma LiveAfter(submitters: map<int, Submitter>, caller: int, w: Submitter)
    ensures var others := |Live(submitters)| - Counted(submitters, caller);
            |Live(submitters[caller := w])| == others + if w.Returned? then 0 else 1
  {
    var before, after := Live(submitters), Live(submitters[caller := w]);
    assert before - {caller} == after - {caller};
    assert |before - {caller}| == |before| - Counted(submitters, caller);
    assert |after - {caller}| == |after| - if w.Returned? then 0 else 1;
  }

  lemma NoneLive(submitters: map<int, Submitter>)
    requires forall c :: c in submitters ==> submitters[c].Returned?
    ensures |Live(submitters)| == 0
  {
    assert forall c :: c !in Live(submitters);
    assert Live(submitters) == {};
  }

  /** A step of a call. */
  lemma CallKeepsDrain(s: State, a: Action, w: Submitter)
    requires Drained(s) && Enabled(s, a)
    requires OfCall(a)
    requires a.caller in Effect(s, a).submitters && w == Effect(s, a).submitters[a.caller]
    ensures Drained(Effect(s, a))
  {
    hide Live;
    LiveAfter(s.submitters, a.caller, w);
    CallerLive(s.submitters, a.caller);
  }

  lemma StepKeepsDrain(s: State, a: Action)
    requires Drained(s)
    ensures Drained(Step(s, a))
  {
    hide Live;
    if Enabled(s, a) {
      if OfCall(a) {
        CallKeepsDrain(s, a, Effect(s, a).submitters[a.caller]);
      }
    }
  }

  lemma CallerLive(submitters: map<int, Submitter>, caller: int)
    ensures caller in Live(submitters) <==> caller in submitters && !submitters[caller].Returned?
    ensures caller in Live(submitters) ==> |Live(submitters)| >= 1
  {
  }

  lemma StepKeeps(s: State, a: Action)
    requires Inv(s)
    ensures Inv(Step(s, a))
  {
    hide Identified, Fenced, Drained, Ordered, Effect, Enabled;
    StepKeepsOrder(s, a);
    StepKeepsIds(s, a);
    StepKeepsFence(s, a);
    StepKeepsDrain(s, a);
  }

  // ---------- What holds in every run ----------

  lemma {:induction false} RunKeeps(s: State, actions: seq<Action>)
    requires Inv(s)
    ensures Inv(Run(s, actions))
  {
    hide Inv, Step;
    if actions != [] {
      RunKeeps(s, actions[..|actions| - 1]);
      StepKeeps(Run(s, actions[..|actions| - 1]), actions[|actions| - 1]);
    }
  }

  lemma InitialHolds(client: Option<int>)
    ensures Inv(Initial(client))
  {
    assert Live(Initial(client).submitters) == {};
    hide Live;
    assert Drained(Initial(client));
    hide Drained;
  }

  predicate CompletedOnce(s: State, operation: int) {
    exists i :: 0 <= i < |s.completions| && s.completions[i].operation == operation
                && forall j :: 0 <= j < |s.completions| && s.completions[j].operation == operation ==> j == i
  }

  predicate Completed(s: State, operation: int) {
    exists i :: 0 <= i < |s.completions| && s.completions[i].operation == operation
  }

  predicate IsRunning(s: State, operation: int) {
    s.worker.Running? && s.worker.job.operation == operation
  }

  predicate IsQueued(s: State, operation: int) {
    exists i :: 0 <= i < |s.queue| && s.queue[i].operation == operation
  }

  /** Where the accepted job at position k is. */
  lemma PlaceOf(s: State, k: nat)
    requires Ordered(s) && k < |s.accepted|
    ensures k < |s.completions| ==> s.completions[k].operation == s.accepted[k].operation
    ensures k == |s.completions| && s.worker.Running? ==> s.worker.job == s.accepted[k]
    ensures var first := |s.completions| + |InHand(s.worker)|;
            k >= first ==> k - first < |s.queue| && s.queue[k - first] == s.accepted[k]
  {
    var rest := s.accepted[|s.completions|..];
    if k >= |s.completions| { assert rest[k - |s.completions|] == s.accepted[k]; }
  }

  /** And the other way: what is completed, running or queued has a position. */
  lemma PositionOf(s: State, operation: int)
    requires Ordered(s)
    ensures IsRunning(s, operation) ==>
              |s.completions| < |s.accepted| && s.accepted[|s.completions|].operation == operation
    ensures IsQueued(s, operation) ==>
              exists k :: && |s.completions| + |InHand(s.worker)| <= k < |s.accepted|
                          && s.accepted[k].operation == operation
  {
    var n := |s.completions|;
    var rest := s.accepted[n..];
    assert forall i :: 0 <= i < |rest| ==> rest[i] == s.accepted[n + i];
    if IsQueued(s, operation) {
      var i :| 0 <= i < |s.queue| && s.queue[i].operation == operation;
      assert rest[|InHand(s.worker)| + i] == s.queue[i];
      assert s.accepted[n + |InHand(s.worker)| + i].operation == operation;
    }
  }

  /** An accepted operation is at any time in exactly one place: completed once, running or
      queued. */
  lemma AcceptedOnce(s: State, caller: int)
    requires Inv(s) && caller in s.submitters && WasAccepted(s.submitters[caller])
    ensures var o := s.submitters[caller].job.operation;
            && (Completed(s, o) <==> CompletedOnce(s, o))
            && (Completed(s, o) || IsRunning(s, o) || IsQueued(s, o))
            && !(Completed(s, o) && IsRunning(s, o)) && !(Completed(s, o) && IsQueued(s, o))
            && !(IsRunning(s, o) && IsQueued(s, o))
  {
    hide Fenced, Drained, HasCaller;
    var o := s.submitters[caller].job.operation;
    var k :| 0 <= k < |s.accepted| && s.accepted[k] == s.submitters[caller].job;
    PlaceOf(s, k);
    PositionOf(s, o);
    if k < |s.completions| {
      assert s.completions[k].operation == o;
      assert CompletedOnce(s, o) by {
        forall j | 0 <= j < |s.completions| && s.completions[j].operation == o ensures j == k {}
      }
    }
  }

  /** An operation whose submission failed, or has not succeeded yet, never ran. */
  lemma RejectedNever(s: State, caller: int)
    requires Inv(s) && caller in s.submitters && !WasAccepted(s.submitters[caller])
    ensures var o := s.submitters[caller].job.operation; !Completed(s, o) && !IsRunning(s, o) && !IsQueued(s, o)
  {
    hide Fenced, Drained, Ordered;
    var o := s.submitters[caller].job.operation;
    forall i | 0 <= i < |s.accepted| ensures s.accepted[i].operation != o {
      assert HasCaller(s, s.accepted[i]);
    }
    OnlyAccepted(s, o);
  }

  lemma OnlyAccepted(s: State, o: int)
    requires Ordered(s) && forall i :: 0 <= i < |s.accepted| ==> s.accepted[i].operation != o
    ensures !Completed(s, o) && !IsRunning(s, o) && !IsQueued(s, o)
  {
    PositionOf(s, o);
  }

  /** All jobs tagged with one generation run on one client. */
  lemma OneClientPerGeneration(s: State, c: int, d: int)
    requires Inv(s) && c in s.submitters && d in s.submitters
    requires s.submitters[c].job.generation == s.submitters[d].job.generation
    ensures s.submitters[c].job.client == s.submitters[d].job.client
  {
    hide Identified, Ordered, Drained;
  }

  /** When the worker has left, every accepted operation is completed; and nothing follows. */
  lemma ExitLeavesNothing(s: State, caller: int)
    requires Inv(s) && s.worker.Exited? && caller in s.submitters && WasAccepted(s.submitters[caller])
    ensures s.queue == [] && CompletedOnce(s, s.submitters[caller].job.operation)
  {
    AcceptedOnce(s, caller);
  }

  /** No step takes anything back: generations grow, completions and decided calls stay. */
  predicate Grows(s: State, t: State) {
    && s.generation <= t.generation && (s.closed ==> t.closed && t.generation == s.generation)
    && s.completions <= t.completions && s.accepted <= t.accepted && s.nextID <= t.nextID
    && (s.worker.Exited? ==> t.worker.Exited? && t.accepted == s.accepted && t.completions == s.completions)
    && (forall c :: c in s.submitters ==> c in t.submitters && t.submitters[c].job == s.submitters[c].job)
    && (forall c :: c in s.submitters && (s.submitters[c].Leaving? || s.submitters[c].Returned?) ==>
                      && (t.submitters[c].Leaving? || t.submitters[c].Returned?)
                      && t.submitters[c].accepted == s.submitters[c].accepted)
  }

  lemma StepGrows(s: State, a: Action)
    requires Drained(s)
    ensures Grows(s, Step(s, a))
  {
    hide Live;
    if Enabled(s, a) && a.Enqueue? { CallerLive(s.submitters, a.caller); }
  }

  lemma GrowsOn(s: State, t: State, u: State)
    requires Grows(s, t) && Grows(t, u)
    ensures Grows(s, u)
  {
  }

  lemma {:induction false} RunGrows(s: State, actions: seq<Action>)
    requires Inv(s)
    ensures Grows(s, Run(s, actions))
  {
    if actions != [] {
      hide Inv, Step, Grows;
      var front := actions[..|actions| - 1];
      var before := Run(s, front);
      RunGrows(s, front);
      RunKeeps(s, front);
      DrainedOf(before);
      StepGrows(before, actions[|actions| - 1]);
      GrowsOn(s, before, Run(s, actions));
    }
  }

  lemma DrainedOf(s: State)
    requires Inv(s)
    ensures Drained(s)
  {
  }

  /** Once closed, the executor is never stuck before the worker has left: the worker or a
      call under way can always move. */
  lemma NeverStuck(s: State) returns (a: Action)
    requires Inv(s) && s.closed && !s.worker.Exited?
    ensures Enabled(s, a) && !a.Admit? && !a.Replace? && !a.Close? && !a.Poison?
  {
    hide Identified, Fenced, Ordered;
    match s.worker
    case Receiving => a := NoticeClosing;
    case Running(_, _) => a := Finish(0);
    case Draining => a := if s.queue == [] then Exit else DrainNext;
    case Waiting =>
      if c :| c in s.submitters && !s.submitters[c].Returned? {
        var w := s.submitters[c];
        a := if w.Admitted? then Check(c) else if w.Selecting? then GiveUpClosing(c) else Leave(c);
      } else {
        NoneLive(s.submitters);
        a := WaitOver;
      }
  }

  // ---------- The executor object ----------

  /** The shared fields, and what each goroutine is doing; every method is one step. */
  class BridgeExecutor {
    var client: Option<int>
    var generation: int
    var nextID: int
    var closed: bool
    var submitting: int
    var jobs: seq<Job>
    var submitters: map<int, Submitter>
    var worker: Worker
    var completions: seq<Completion>
    var retiring: set<int>
    var poisoned: set<int>
    ghost var accepted: seq<Job>
    ghost var installed: map<int, Option<int>>

    ghost function Model(): State
      reads this
    {
      State(client, generation, nextID, closed, submitting, jobs, submitters, worker, completions, retiring, poisoned,
            accepted, installed)
    }

    ghost predicate Valid()
      reads this
    {
      Inv(Model())
    }

    constructor (client: Option<int>)
      ensures Valid() && Model() == Initial(client)
    {
      this.client := client;
      generation, nextID, closed, submitting := 1, 0, false, 0;
      jobs, submitters, worker, completions, retiring, poisoned := [], map[], Receiving, [], {}, {};
      accepted, installed := [], map[1 := client];
      new;
      InitialHolds(client);
    }

    /** The critical section of Submit. */
    method Admission(caller: int) returns (r: Option<Job>)
      requires Valid() && caller !in submitters
      modifies this`nextID, this`submitting, this`submitters
      ensures Valid() && Model() == Step(old(Model()), Admit(caller))
      ensures r.None? <==> old(closed)
      ensures r.Some? ==> r.value == Job(old(generation), nextID, old(client)) && nextID == old(nextID) + 1
    {
      StepKeeps(Model(), Admit(caller));
      hide Inv, OwnerEffect, WorkerEffect;
      if closed { return None; }
      nextID := nextID + 1;
      var job := Job(generation, nextID, client);
      submitting := submitting + 1;
      submitters := submitters[caller := Admitted(job)];
      assert Model() == Step(old(Model()), Admit(caller));
      return Some(job);
    }

    /** The first select of Submit. */
    method CheckClosing(caller: int) returns (open: bool)
      requires Valid() && caller in submitters && submitters[caller].Admitted?
      modifies this`submitters
      ensures Valid() && Model() == Step(old(Model()), Check(caller)) && open == !closed
    {
      StepKeeps(Model(), Check(caller));
      hide Inv, OwnerEffect, WorkerEffect;
      var job := submitters[caller].job;
      submitters := submitters[caller := if closed then Leaving(job, false) else Selecting(job)];
      assert Model() == Step(old(Model()), Check(caller));
      return !closed;
    }

    /** The second select of Submit, when it sends; a full queue cannot be sent to. */
    method Send(caller: int) returns (sent: bool)
      requires Valid() && AtSelect(Model(), caller)
      modifies this`jobs, this`accepted, this`submitters
      ensures Valid() && Model() == Step(old(Model()), Enqueue(caller)) && sent == (|old(jobs)| < QUEUE_CAPACITY)
    {
      StepKeeps(Model(), Enqueue(caller));
      hide Inv, OwnerEffect, WorkerEffect;
      if |jobs| == QUEUE_CAPACITY {
        return false;
      }
      QueueBounded(Model());
      var job := submitters[caller].job;
      jobs := jobs + [job];
      accepted := accepted + [job];
      submitters := submitters[caller := Leaving(job, true)];
      assert Model() == Step(old(Model()), Enqueue(caller));
      return true;
    }

    /** The second select of Submit, when its context is done. */
    method Abandon(caller: int)
      requires Valid() && AtSelect(Model(), caller)
      modifies this`submitters
      ensures Valid() && Model() == Step(old(Model()), GiveUpContext(caller))
    {
      StepKeeps(Model(), GiveUpContext(caller));
      hide Inv, OwnerEffect, WorkerEffect;
      submitters := submitters[caller := Leaving(submitters[caller].job, false)];
      assert Model() == Step(old(Model()), GiveUpContext(caller));
    }

    /** The deferred end of Submit. */
    method Depart(caller: int) returns (ok: bool)
      requires Valid() && caller in submitters && submitters[caller].Leaving?
      modifies this`submitting, this`submitters
      ensures Valid() && Model() == Step(old(Model()), Leave(caller)) && ok == WasAccepted(submitters[caller])
    {
      StepKeeps(Model(), Leave(caller));
      hide Inv, OwnerEffect, WorkerEffect;
      var w := submitters[caller];
      submitting := submitting - 1;
      submitters := submitters[caller := Returned(w.job, w.accepted)];
      assert Model() == Step(old(Model()), Leave(caller));
      return w.accepted;
    }

    method Install(replacement: Option<int>) returns (g: int)
      requires Valid()
      modifies this`retiring, this`client, this`generation, this`installed
      ensures Valid() && Model() == Step(old(Model()), Replace(replacement)) && g == generation
    {
      hide Inv, CallEffect, WorkerEffect;
      ghost var before := Model();
      if closed {
        retiring := retiring + Retired(replacement);
        assert Model() == Step(before, Replace(replacement));
        StepKeeps(before, Replace(replacement));
        return generation;
      }
      installed := installed[generation + 1 := replacement];
      generation := generation + 1;
      client, retiring := replacement, retiring + Retired(client);
      assert Model() == Step(before, Replace(replacement));
      StepKeeps(before, Replace(replacement));
      return generation;
    }

    method Shut() returns (g: int)
      requires Valid()
      modifies this`closed, this`retiring, this`client, this`generation, this`installed
      ensures Valid() && Model() == Step(old(Model()), Close) && g == generation && closed
    {
      hide Inv, CallEffect, WorkerEffect;
      ghost var before := Model();
      if closed {
        return generation;
      }
      installed := installed[generation + 1 := None];
      closed, generation := true, generation + 1;
      client, retiring := None, retiring + Retired(client);
      assert Model() == Step(before, Close);
      StepKeeps(before, Close);
      return generation;
    }

    /** One receive of the worker, in its loop or while it drains. */
    method Take() returns (job: Option<Job>)
      requires Valid() && (worker.Receiving? || worker.Draining?)
      modifies this`jobs, this`worker
      ensures Valid() && Model() == Step(old(Model()), if old(worker).Receiving? then Receive else DrainNext)
      ensures job == if old(jobs) == [] then None else Some(old(jobs)[0])
      ensures old(jobs) != [] ==> worker == Running(old(jobs)[0], old(worker).Draining?) && jobs == old(jobs)[1..]
    {
      StepKeeps(Model(), if worker.Receiving? then Receive else DrainNext);
      hide Inv, CallEffect, OwnerEffect;
      if jobs == [] { return None; }
      var next := jobs[0];
      jobs := jobs[1..];
      worker := Running(next, worker.Draining?);
      assert Model() == Step(old(Model()), if old(worker).Receiving? then Receive else DrainNext);
      return Some(next);
    }

    /** The operation returns and its completion is delivered. */
    method Complete(outcome: int)
      requires Valid() && worker.Running?
      modifies this`completions, this`worker
      ensures Valid() && Model() == Step(old(Model()), Finish(outcome))
      ensures completions == old(completions) +
                             [Completion(old(worker).job.generation, old(worker).job.operation, outcome)]
      ensures old(worker).draining ==> worker.Draining?
    {
      StepKeeps(Model(), Finish(outcome));
      hide Inv, CallEffect, OwnerEffect;
      var job := worker.job;
      completions := completions + [Completion(job.generation, job.operation, outcome)];
      worker := if worker.draining then Draining else Receiving;
      assert Model() == Step(old(Model()), Finish(outcome));
    }

    /** What is left to do after the closing signal once all calls have left. */
    method Drain(outcomes: int -> int)
      requires Valid() && worker.Waiting? && submitting == 0
      modifies this`worker, this`jobs, this`completions
      ensures Valid() && worker.Exited? && jobs == [] && accepted == old(accepted)
      ensures |completions| == |accepted| && old(completions) <= completions
      ensures forall i :: |old(completions)| <= i < |completions| ==>
                            completions[i].outcome == outcomes(completions[i].operation)
    {
      hide Inv, Step;
      BeginDrain();
      while jobs != []
        invariant forall i :: |old(completions)| <= i < |completions| ==>
                                completions[i].outcome == outcomes(completions[i].operation)
        invariant Valid() && worker.Draining? && accepted == old(accepted) && old(completions) <= completions
        decreases |jobs|
      {
        var job := Take();
        Complete(outcomes(job.value.operation));
      }
      EndDrain();
      AllCompleted(Model());
    }

    method BeginDrain()
      requires Valid() && worker.Waiting? && submitting == 0
      modifies this`worker
      ensures Valid() && Model() == Step(old(Model()), WaitOver) && worker.Draining?
    {
      StepKeeps(Model(), WaitOver);
      hide Inv, CallEffect, OwnerEffect;
      worker := Draining;
      assert Model() == Step(old(Model()), WaitOver);
    }

    method EndDrain()
      requires Valid() && worker.Draining? && jobs == []
      modifies this`worker
      ensures Valid() && Model() == Step(old(Model()), Exit) && worker.Exited?
    {
      StepKeeps(Model(), Exit);
      hide Inv, CallEffect, OwnerEffect;
      worker := Exited;
      assert Model() == Step(old(Model()), Exit);
    }
  }

  lemma QueueBounded(s: State)
    requires Inv(s)
    ensures |s.queue| <= QUEUE_CAPACITY
  {
  }

  lemma AllCompleted(s: State)
    requires Inv(s) && s.worker.Exited?
    ensures |s.completions| == |s.accepted|
  {
  }
}
