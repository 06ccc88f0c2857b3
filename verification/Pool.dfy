/**
 The thread pool as a transition system.  Workers sleep on a one-bit semaphore, so several posts collapse into
 one; a worker that pulls a job posts again if more are left.  The semaphore wait tests the bit once (`if`, not
 `while`), so a woken worker goes on whatever the bit says by then.
 */
module Pool {
  import opened Common

  /** Where a worker is: at the head of its loop, asleep un-notified, notified, past the wait, inside the pull
      between the queue update and the post, running a job (or none), gone. */
  datatype Worker<T> = Top | Waiting | Signalled | Woke | Posting(job: T) | Running(current: Option<T>) | Gone

  /** Who holds the lock of the queue between a queue update and the post. */
  datatype Holder = Free | ByPusher | ByWorker(w: nat)

  datatype State<T> = State(
    queue: seq<T>, bit: bool, keepalive: bool, lock: Holder, workers: seq<Worker<T>>,
    pushed: seq<T>, pulled: seq<T>, completed: seq<T>, drained: seq<T>)

  datatype Action<T> =
    | PushJob(job: T)               // push_work: update the queue, lock held
    | PushPost(wake: Option<nat>)   // push_work: post and unlock
    | Wait(w: nat)                  // bsem_wait: test the bit
    | Resume(w: nat)                // bsem_wait: leave the condition wait
    | Pull(w: nat)                  // pull_work: update the queue
    | PullPost(w: nat, wake: Option<nat>) // pull_work: post and unlock
    | Finish(w: nat)                // the job returns
    | Leave(w: nat)                 // the loop ends once the pool is shut down
    | Shutdown                      // threads_keepalive is cleared
    | PostAll                       // bsem_post_all
    | Drain                         // clear_work_queue: one pull
    | Spurious(w: nat)              // a wakeup without a signal

  /** A post may signal a sleeping worker; it does if there is one. */
  predicate MayWake<T>(s: State<T>, wake: Option<nat>) {
    match wake
    case None => forall w :: 0 <= w < |s.workers| ==> !s.workers[w].Waiting?
    case Some(w) => w < |s.workers| && s.workers[w].Waiting?
  }

  function Post<T>(s: State<T>, wake: Option<nat>): State<T>
    requires MayWake(s, wake)
  {
    s.(bit := true, workers := if wake.Some? then s.workers[wake.value := Signalled] else s.workers)
  }

  predicate AllGone<T>(s: State<T>) {
    forall w :: 0 <= w < |s.workers| ==> s.workers[w].Gone?
  }

  predicate Enabled<T>(s: State<T>, a: Action<T>) {
    match a
    case PushJob(_) => s.lock.Free?
    case PushPost(wake) => s.lock.ByPusher? && MayWake(s, wake)
    case Wait(w) => w < |s.workers| && s.workers[w].Top? && s.keepalive
    case Resume(w) => w < |s.workers| && s.workers[w].Signalled?
    case Pull(w) => w < |s.workers| && s.workers[w].Woke? && s.lock.Free?
    case PullPost(w, wake) => w < |s.workers| && s.workers[w].Posting? && s.lock == ByWorker(w) && MayWake(s, wake)
    case Finish(w) => w < |s.workers| && s.workers[w].Running?
    case Leave(w) => w < |s.workers| && (s.workers[w].Top? || s.workers[w].Woke?) && !s.keepalive
    case Shutdown => true
    case PostAll => !s.keepalive
    case Drain => !s.keepalive && AllGone(s) && s.lock.Free? && |s.queue| > 0
    case Spurious(w) => w < |s.workers| && s.workers[w].Waiting?
  }

  function Next<T>(s: State<T>, a: Action<T>): State<T>
    requires Enabled(s, a)
  {
    match a
    case PushJob(job) => s.(queue := s.queue + [job], pushed := s.pushed + [job], lock := ByPusher)
    case PushPost(wake) => Post(s, wake).(lock := Free)
    case Wait(w) =>
      if s.bit then s.(bit := false, workers := s.workers[w := Woke])
      else s.(workers := s.workers[w := Waiting])
    case Resume(w) => s.(bit := false, workers := s.workers[w := Woke])
    case Pull(w) =>
      if |s.queue| == 0 then s.(workers := s.workers[w := Running(None)])
      else
        var s' := s.(queue := s.queue[1..], pulled := s.pulled + [s.queue[0]]);
        if |s.queue| == 1 then s'.(workers := s.workers[w := Running(Some(s.queue[0]))])
        else s'.(lock := ByWorker(w), workers := s.workers[w := Posting(s.queue[0])])
    case PullPost(w, wake) =>
      var s' := Post(s, wake);
      s'.(lock := Free, workers := s'.workers[w := Running(Some(s.workers[w].job))])
    case Finish(w) =>
      var job := s.workers[w].current;
      s.(workers := s.workers[w := Top], completed := if job.Some? then s.completed + [job.value] else s.completed)
    case Leave(w) => s.(workers := s.workers[w := Gone])
    case Shutdown => s.(keepalive := false)
    case PostAll =>
      s.(bit := true, workers := seq(|s.workers|,
         w requires 0 <= w < |s.workers| => if s.workers[w].Waiting? then Signalled else s.workers[w]))
    case Drain => s.(queue := s.queue[1..], drained := s.drained + [s.queue[0]])
    case Spurious(w) => s.(workers := s.workers[w := Signalled])
  }

  ghost predicate Initial<T>(s: State<T>) {
    && s.queue == s.pushed == s.pulled == s.completed == s.drained == [] && !s.bit && s.keepalive && s.lock.Free?
    && forall w :: 0 <= w < |s.workers| ==> s.workers[w].Top?
  }

  ghost predicate Reaches<T>(s: State<T>, actions: seq<Action<T>>, s': State<T>)
    decreases |actions|
  {
    if |actions| == 0 then s == s'
    else Enabled(s, actions[0]) && Reaches(Next(s, actions[0]), actions[1..], s')
  }

  /** A pool starts with any number of workers, and a job can be pushed whenever nobody holds the queue. */
  lemma AnyPool<T>(n: nat, s: State<T>, job: T)
    ensures Initial<T>(State([], false, true, Free, seq(n, _ => Top), [], [], [], []))
    ensures s.lock.Free? ==> Enabled(s, PushJob(job)) && Next(s, PushJob(job)).queue == s.queue + [job]
  {
  }

  // ---- safety

  predicate SomeWoke<T>(s: State<T>) {
    exists w :: 0 <= w < |s.workers| && s.workers[w].Woke?
  }

  /** While the pool lives, pending work is always on its way to a worker: the bit is up, or a worker has passed the
      wait and will pull, or a push or pull is about to post. */
  predicate NoLostWork<T>(s: State<T>) {
    s.keepalive && |s.queue| > 0 ==> s.bit || SomeWoke(s) || !s.lock.Free?
  }

  /** A raised bit with sleepers has a worker that is already signalled. */
  predicate NoMissedSignal<T>(s: State<T>) {
    s.bit && (exists w :: 0 <= w < |s.workers| && s.workers[w].Waiting?) ==>
      exists w :: 0 <= w < |s.workers| && s.workers[w].Signalled?
  }

  /** The lock between update and post belongs to the worker that is there. */
  predicate LockOk<T>(s: State<T>) {
    && (forall w :: 0 <= w < |s.workers| ==> (s.workers[w].Posting? <==> s.lock == ByWorker(w)))
    && (s.lock.ByWorker? ==> s.lock.w < |s.workers|)
  }

  /** Every job pushed was pulled by a worker, or taken out at shutdown, or is still queued, in this order. */
  ghost predicate Conserved<T>(s: State<T>) {
    && s.pushed == s.pulled + s.drained + s.queue
    && (s.drained != [] ==> AllGone(s) && !s.keepalive)
  }

  predicate Staffed<T>(s: State<T>) {
    s.keepalive ==> forall w :: 0 <= w < |s.workers| ==> !s.workers[w].Gone?
  }

  ghost predicate Safe<T>(s: State<T>) {
    NoLostWork(s) && NoMissedSignal(s) && LockOk(s) && Conserved(s) && Staffed(s)
  }

  lemma PostSafe<T>(s: State<T>, wake: Option<nat>)
    requires LockOk(s) && MayWake(s, wake)
    ensures NoMissedSignal(Post(s, wake)) && LockOk(Post(s, wake))
    ensures forall w :: 0 <= w < |s.workers| ==> (Post(s, wake).workers[w].Gone? <==> s.workers[w].Gone?)
  {
    if wake.Some? {
      assert Post(s, wake).workers[wake.value].Signalled?;
    }
  }

  lemma WokeAt<T>(s: State<T>, w: nat)
    requires w < |s.workers| && s.workers[w].Woke?
    ensures SomeWoke(s)
  {
  }

  /** Moving one worker that was not awake keeps whoever else is awake. */
  lemma StillWoke<T>(s: State<T>, s': State<T>, w: nat)
    requires SomeWoke(s) && w < |s.workers| == |s'.workers| && !s.workers[w].Woke?
    requires forall v :: 0 <= v < |s.workers| && v != w ==> s'.workers[v] == s.workers[v]
    ensures SomeWoke(s')
  {
    var v :| 0 <= v < |s.workers| && s.workers[v].Woke?;
    assert s'.workers[v].Woke?;
  }

  lemma NoLostStep<T>(s: State<T>, a: Action<T>)
    requires Safe(s) && Enabled(s, a)
    ensures NoLostWork(Next(s, a))
  {
    var s' := Next(s, a);
    match a
    case Wait(w) => if s.bit { WokeAt(s', w); } else if SomeWoke(s) { StillWoke(s, s', w); }
    case Resume(w) => WokeAt(s', w);
    case Finish(w) => if SomeWoke(s) { StillWoke(s, s', w); }
    case Spurious(w) => if SomeWoke(s) { StillWoke(s, s', w); }
    case _ =>
  }

  lemma NoMissedStep<T>(s: State<T>, a: Action<T>)
    requires Safe(s) && Enabled(s, a)
    ensures NoMissedSignal(Next(s, a))
  {
    var s' := Next(s, a);
    if exists v :: 0 <= v < |s.workers| && s.workers[v].Signalled? {
      var v :| 0 <= v < |s.workers| && s.workers[v].Signalled?;
      assert !a.Resume? && !a.PostAll? ==> s'.workers[v].Signalled?;
    }
    match a
    case PushPost(wake) => PostSafe(s, wake);
    case PullPost(w, wake) =>
      PostSafe(s, wake);
      if wake.Some? { assert s'.workers[wake.value].Signalled?; }
    case Spurious(w) => assert s'.workers[w].Signalled?;
    case _ =>
  }

  lemma ConservedStep<T>(s: State<T>, a: Action<T>)
    requires Safe(s) && Enabled(s, a)
    ensures Conserved(Next(s, a))
  {
    match a
    case PushJob(job) => Pushed(s.pushed, s.pulled + s.drained, s.queue, job);
    case Pull(w) => if |s.queue| > 0 { assert s.drained == []; Taken(s.pulled, s.queue); }
    case Drain => Taken(s.pulled + s.drained, s.queue); Associate(s.pulled, s.drained, [s.queue[0]]);
    case _ =>
  }

  lemma Pushed<T>(pushed: seq<T>, out: seq<T>, queue: seq<T>, job: T)
    requires pushed == out + queue
    ensures pushed + [job] == out + (queue + [job])
  {
  }

  lemma Taken<T>(out: seq<T>, queue: seq<T>)
    requires |queue| > 0
    ensures out + queue == out + [queue[0]] + queue[1..]
  {
  }

  /** Every step of the pool, spurious wakeups and shutdown included, keeps it safe. */
  lemma SafeStep<T>(s: State<T>, a: Action<T>)
    requires Safe(s) && Enabled(s, a)
    ensures Safe(Next(s, a))
  {
    NoLostStep(s, a);
    NoMissedStep(s, a);
    ConservedStep(s, a);
  }

  lemma {:induction false} SafeReaches<T>(s: State<T>, actions: seq<Action<T>>, s': State<T>)
    requires Safe(s) && Reaches(s, actions, s')
    ensures Safe(s')
    decreases |actions|
  {
    if |actions| > 0 {
      SafeStep(s, actions[0]);
      SafeReaches(Next(s, actions[0]), actions[1..], s');
    }
  }

  /** No work is lost, in every reachable state; and what workers have pulled is a prefix of what was pushed, in
      order, each job once. */
  lemma PoolIsSafe<T>(s0: State<T>, actions: seq<Action<T>>, s: State<T>)
    requires Initial(s0) && Reaches(s0, actions, s)
    ensures NoLostWork(s) && NoMissedSignal(s)
    ensures s.pushed == s.pulled + s.drained + s.queue && s.pulled <= s.pushed
  {
    SafeReaches(s0, actions, s);
  }

  // ---- every job that is pulled is run

  /** How often a job occurs. */
  function Times<T(==)>(js: seq<T>, job: T): nat {
    if |js| == 0 then 0 else Times(js[..|js| - 1], job) + if js[|js| - 1] == job then 1 else 0
  }

  lemma TimesMore<T>(js: seq<T>, j: T, job: T)
    ensures Times(js + [j], job) == Times(js, job) + if j == job then 1 else 0
  {
    assert (js + [j])[..|js|] == js;
  }

  predicate Holds<T(==)>(w: Worker<T>, job: T) {
    w == Posting(job) || w == Running(Some(job))
  }

  /** How many workers have a job in hand. */
  function InHand<T(==)>(ws: seq<Worker<T>>, job: T): nat {
    if |ws| == 0 then 0 else (if Holds(ws[0], job) then 1 else 0) + InHand(ws[1..], job)
  }

  /** A job has been run as often as it was pulled, but for the times a worker still has it in hand. */
  predicate Accounted<T(==)>(s: State<T>, job: T) {
    Times(s.pulled, job) == Times(s.completed, job) + InHand(s.workers, job)
  }

  lemma {:induction false} HandUpdate<T>(ws: seq<Worker<T>>, w: nat, x: Worker<T>, job: T)
    requires w < |ws|
    ensures InHand(ws[w := x], job)
         == InHand(ws, job) - (if Holds(ws[w], job) then 1 else 0) + if Holds(x, job) then 1 else 0
  {
    if w == 0 {
      assert ws[0 := x][1..] == ws[1..];
    } else {
      HandUpdate(ws[1..], w - 1, x, job);
      assert ws[w := x][1..] == ws[1..][w - 1 := x];
    }
  }

  lemma {:induction false} HandSame<T>(ws: seq<Worker<T>>, vs: seq<Worker<T>>, job: T)
    requires |ws| == |vs| && forall w :: 0 <= w < |ws| ==> (Holds(ws[w], job) <==> Holds(vs[w], job))
    ensures InHand(ws, job) == InHand(vs, job)
  {
    if |ws| > 0 { HandSame(ws[1..], vs[1..], job); }
  }

  lemma {:induction false} HandNone<T>(ws: seq<Worker<T>>, job: T)
    requires forall w :: 0 <= w < |ws| ==> !ws[w].Posting? && (ws[w].Running? ==> ws[w].current.None?)
    ensures InHand(ws, job) == 0
  {
    if |ws| > 0 { HandNone(ws[1..], job); }
  }

  lemma PostAccounted<T>(s: State<T>, a: Action<T>, job: T)
    requires Accounted(s, job) && Enabled(s, a) && (a.PushPost? || a.PullPost?)
    ensures Accounted(Next(s, a), job)
  {
    if a.wake.Some? { HandUpdate(s.workers, a.wake.value, Signalled, job); }
    if a.PullPost? {
      HandUpdate(Post(s, a.wake).workers, a.w, Running(Some(s.workers[a.w].job)), job);
    }
  }

  /** A worker takes a job in hand that is pulled, and lets go of one that is completed. */
  lemma HandChange<T>(pulled: seq<T>, done: seq<T>, ws: seq<Worker<T>>, pulled': seq<T>, done': seq<T>, w: nat,
                      x: Worker<T>, job: T, taken: Option<T>, left: Option<T>)
    requires w < |ws| && Times(pulled, job) == Times(done, job) + InHand(ws, job)
    requires pulled' == pulled + (if taken.Some? then [taken.value] else [])
    requires done' == done + (if left.Some? then [left.value] else [])
    requires Holds(x, job) <==> taken == Some(job)
    requires Holds(ws[w], job) <==> left == Some(job)
    ensures Times(pulled', job) == Times(done', job) + InHand(ws[w := x], job)
  {
    HandUpdate(ws, w, x, job);
    if taken.Some? { TimesMore(pulled, taken.value, job); } else { assert pulled' == pulled; }
    if left.Some? { TimesMore(done, left.value, job); } else { assert done' == done; }
  }

  /** What a pull does. */
  lemma PullIs<T>(s: State<T>, w: nat) returns (taken: Option<T>, x: Worker<T>)
    requires Enabled(s, Pull(w))
    ensures Next(s, Pull(w)).workers == s.workers[w := x] && Next(s, Pull(w)).completed == s.completed
    ensures Next(s, Pull(w)).pulled == s.pulled + (if taken.Some? then [taken.value] else [])
    ensures if taken.Some? then x == Running(taken) || x == Posting(taken.value) else x == Running(None)
  {
    if |s.queue| == 0 {
      taken, x := None, Running(None);
      assert s.pulled + [] == s.pulled;
    } else {
      taken := Some(s.queue[0]);
      x := if |s.queue| == 1 then Running(taken) else Posting(s.queue[0]);
    }
  }

  lemma PullAccounted<T>(s: State<T>, w: nat, job: T)
    requires Accounted(s, job) && Enabled(s, Pull(w))
    ensures Accounted(Next(s, Pull(w)), job)
  {
    var taken, x := PullIs(s, w);
    assert s.completed + [] == s.completed;
    HandChange(s.pulled, s.completed, s.workers, Next(s, Pull(w)).pulled, s.completed, w, x, job, taken, None);
  }

  lemma FinishAccounted<T>(s: State<T>, w: nat, job: T)
    requires Accounted(s, job) && Enabled(s, Finish(w))
    ensures Accounted(Next(s, Finish(w)), job)
  {
    var s' := Next(s, Finish(w));
    HandChange(s.pulled, s.completed, s.workers, s'.pulled, s'.completed, w, Top, job, None, s.workers[w].current);
  }

  lemma AccountedStep<T>(s: State<T>, a: Action<T>, job: T)
    requires Accounted(s, job) && Enabled(s, a)
    ensures Accounted(Next(s, a), job)
  {
    match a
    case Pull(w) => PullAccounted(s, w, job);
    case Finish(w) => FinishAccounted(s, w, job);
    case PushPost(_) => PostAccounted(s, a, job);
    case PullPost(_, _) => PostAccounted(s, a, job);
    case PostAll => HandSame(s.workers, Next(s, a).workers, job);
    case Wait(w) => HandUpdate(s.workers, w, if s.bit then Woke else Waiting, job);
    case Resume(w) => HandUpdate(s.workers, w, Woke, job);
    case Leave(w) => HandUpdate(s.workers, w, Gone, job);
    case Spurious(w) => HandUpdate(s.workers, w, Signalled, job);
    case _ =>
  }

  lemma {:induction false} AccountedReaches<T>(s: State<T>, actions: seq<Action<T>>, s': State<T>, job: T)
    requires Accounted(s, job) && Reaches(s, actions, s')
    ensures Accounted(s', job)
    decreases |actions|
  {
    if |actions| > 0 {
      AccountedStep(s, actions[0], job);
      AccountedReaches(Next(s, actions[0]), actions[1..], s', job);
    }
  }

  /** In every reachable state every job has been run as often as it was pulled, but for the workers that have it in
      hand. */
  lemma PulledIsRun<T>(s0: State<T>, actions: seq<Action<T>>, s: State<T>, job: T)
    requires Initial(s0) && Reaches(s0, actions, s)
    ensures Times(s.pulled, job) == Times(s.completed, job) + InHand(s.workers, job)
  {
    HandNone(s0.workers, job);
    AccountedReaches(s0, actions, s, job);
  }

  // ---- progress

  /** A step that the pool takes by itself: no new push, no shutdown, no spurious wakeup. */
  predicate OwnStep<T>(a: Action<T>) {
    a.PushPost? || a.Wait? || a.Resume? || a.Pull? || a.PullPost? || a.Finish?
  }

  lemma SomeWake<T>(s: State<T>) returns (wake: Option<nat>)
    ensures MayWake(s, wake)
  {
    if w :| 0 <= w < |s.workers| && s.workers[w].Waiting? {
      wake := Some(w);
    } else {
      wake := None;
    }
  }

  /** Pending work and at least one worker: the pool can always go on. */
  lemma NeverStuck<T>(s: State<T>) returns (a: Action<T>)
    requires Safe(s) && s.keepalive && |s.queue| > 0 && |s.workers| > 0
    ensures Enabled(s, a) && OwnStep(a)
  {
    var wake := SomeWake(s);
    match s.lock
    case ByPusher => a := PushPost(wake);
    case ByWorker(w) => a := PullPost(w, wake);
    case Free =>
      match s.workers[0]
      case Top => a := Wait(0);
      case Signalled => a := Resume(0);
      case Woke => a := Pull(0);
      case Running(_) => a := Finish(0);
      case Waiting =>
        if w :| 0 <= w < |s.workers| && s.workers[w].Woke? {
          a := Pull(w);
        } else {
          var w :| 0 <= w < |s.workers| && s.workers[w].Signalled?;
          a := Resume(w);
        }
  }

  function Weight<T>(w: Worker<T>): nat {
    match w
    case Top => 2
    case Waiting => 0
    case Signalled => 8
    case Woke => 6
    case Posting(_) => 19
    case Running(_) => 4
    case Gone => 0
  }

  function Weights<T>(ws: seq<Worker<T>>): nat {
    if |ws| == 0 then 0 else Weight(ws[0]) + Weights(ws[1..])
  }

  function Measure<T>(s: State<T>): nat {
    14 * |s.queue| + (if s.bit then 6 else 0) + (if s.lock.ByPusher? then 15 else 0) + Weights(s.workers)
  }

  lemma {:induction false} WeightsUpdate<T>(ws: seq<Worker<T>>, w: nat, x: Worker<T>)
    requires w < |ws|
    ensures Weights(ws[w := x]) == Weights(ws) - Weight(ws[w]) + Weight(x)
  {
    if w == 0 {
      assert ws[0 := x][1..] == ws[1..];
    } else {
      WeightsUpdate(ws[1..], w - 1, x);
      assert ws[w := x][1..] == ws[1..][w - 1 := x];
    }
  }

  lemma PostWeights<T>(s: State<T>, wake: Option<nat>)
    requires MayWake(s, wake)
    ensures Weights(Post(s, wake).workers) <= Weights(s.workers) + 8
  {
    if wake.Some? { WeightsUpdate(s.workers, wake.value, Signalled); }
  }

  lemma PostLowers<T>(s: State<T>, a: Action<T>)
    requires LockOk(s) && Enabled(s, a) && (a.PushPost? || a.PullPost?)
    ensures Measure(Next(s, a)) < Measure(s)
  {
    match a
    case PushPost(wake) => PostWeights(s, wake);
    case PullPost(w, wake) =>
      PostWeights(s, wake);
      WeightsUpdate(Post(s, wake).workers, w, Running(Some(s.workers[w].job)));
  }

  lemma PullLowers<T>(s: State<T>, a: Action<T>)
    requires LockOk(s) && Enabled(s, a) && a.Pull?
    ensures Measure(Next(s, a)) < Measure(s)
  {
    WeightsUpdate(s.workers, a.w, Next(s, a).workers[a.w]);
  }

  /** Each of these steps lowers the measure. */
  lemma OwnStepLowers<T>(s: State<T>, a: Action<T>)
    requires LockOk(s) && Enabled(s, a) && OwnStep(a)
    ensures Measure(Next(s, a)) < Measure(s)
  {
    match a
    case Wait(w) => WeightsUpdate(s.workers, w, if s.bit then Woke else Waiting);
    case Resume(w) => WeightsUpdate(s.workers, w, Woke);
    case Finish(w) => WeightsUpdate(s.workers, w, Top);
    case Pull(_) => PullLowers(s, a);
    case _ => PostLowers(s, a);
  }

  predicate OwnSteps<T>(actions: seq<Action<T>>) {
    forall k :: 0 <= k < |actions| ==> OwnStep(actions[k])
  }

  lemma StuckIsEmpty<T>(s: State<T>)
    requires Safe(s) && forall a :: OwnStep(a) ==> !Enabled(s, a)
    ensures s.keepalive && |s.workers| > 0 ==> s.queue == []
    ensures forall w :: 0 <= w < |s.workers| ==> !s.workers[w].Posting? && !s.workers[w].Running?
  {
    if s.keepalive && |s.workers| > 0 && |s.queue| > 0 { var a := NeverStuck(s); }
    var wake := SomeWake(s);
    forall w | 0 <= w < |s.workers| ensures !s.workers[w].Posting? && !s.workers[w].Running? {
      assert !Enabled(s, Finish(w)) && !Enabled(s, PullPost(w, wake));
    }
  }

  /** Without new work every run of the pool is finite, and where it cannot go on the queue is empty. */
  lemma {:induction false} RunsEndEmpty<T>(s: State<T>, actions: seq<Action<T>>, s': State<T>)
    requires Safe(s) && Reaches(s, actions, s') && OwnSteps(actions)
    ensures |actions| <= Measure(s)
    ensures s'.keepalive && |s'.workers| > 0 && (forall a :: OwnStep(a) ==> !Enabled(s', a)) ==> s'.queue == []
    decreases |actions|
  {
    if |actions| > 0 {
      SafeStep(s, actions[0]);
      OwnStepLowers(s, actions[0]);
      RunsEndEmpty(Next(s, actions[0]), actions[1..], s');
    } else if forall a :: OwnStep(a) ==> !Enabled(s, a) {
      StuckIsEmpty(s);
    }
  }

  /** Where a living pool cannot go on, every job has been run as often as it was pushed. */
  lemma AllJobsRun<T>(s0: State<T>, actions: seq<Action<T>>, s: State<T>, job: T)
    requires Initial(s0) && Reaches(s0, actions, s)
    requires s.keepalive && |s.workers| > 0 && forall a :: OwnStep(a) ==> !Enabled(s, a)
    ensures Times(s.completed, job) == Times(s.pushed, job)
  {
    SafeReaches(s0, actions, s);
    PulledIsRun(s0, actions, s, job);
    StuckIsEmpty(s);
    HandNone(s.workers, job);
    assert s.pushed == s.pulled;
  }

  // ---- shutdown

  predicate NoSleepers<T>(s: State<T>) {
    forall w :: 0 <= w < |s.workers| ==> !s.workers[w].Waiting?
  }

  predicate ClosingStep<T>(a: Action<T>) {
    OwnStep(a) || a.Leave?
  }

  lemma PostAllWakes<T>(s: State<T>)
    requires Enabled<T>(s, PostAll)
    ensures NoSleepers(Next<T>(s, PostAll))
  {
  }

  /** Nobody goes to sleep any more, and each step brings the end nearer. */
  lemma ClosingLowers<T>(s: State<T>, a: Action<T>)
    requires LockOk(s) && !s.keepalive && NoSleepers(s) && Enabled(s, a) && ClosingStep(a)
    ensures Measure(Next(s, a)) < Measure(s) && !Next(s, a).keepalive && NoSleepers(Next(s, a))
  {
    if a.Leave? { WeightsUpdate(s.workers, a.w, Gone); } else { OwnStepLowers(s, a); }
  }

  /** After a shutdown and a post to all, every run of the pool is finite, and where it cannot go on every worker has
      left. */
  lemma {:induction false} RunsEndGone<T>(s: State<T>, actions: seq<Action<T>>, s': State<T>)
    requires Safe(s) && !s.keepalive && NoSleepers(s) && Reaches(s, actions, s')
    requires forall k :: 0 <= k < |actions| ==> ClosingStep(actions[k])
    ensures |actions| <= Measure(s)
    ensures (forall a :: ClosingStep(a) ==> !Enabled(s', a)) ==> AllGone(s') && s'.lock.Free?
    decreases |actions|
  {
    if |actions| > 0 {
      SafeStep(s, actions[0]);
      ClosingLowers(s, actions[0]);
      RunsEndGone(Next(s, actions[0]), actions[1..], s');
    } else if forall a :: ClosingStep(a) ==> !Enabled(s, a) {
      AllLeft(s);
    }
  }

  lemma AllLeft<T>(s: State<T>)
    requires LockOk(s) && !s.keepalive && NoSleepers(s) && forall a :: ClosingStep(a) ==> !Enabled(s, a)
    ensures AllGone(s) && s.lock.Free?
  {
    var wake := SomeWake(s);
    assert !Enabled(s, PushPost(wake));
    forall w | 0 <= w < |s.workers| ensures s.workers[w].Gone? {
      assert !Enabled(s, Leave(w)) && !Enabled(s, Resume(w));
      assert !Enabled(s, Finish(w)) && !Enabled(s, PullPost(w, wake));
    }
  }

  /** Once all workers have left, every job that was pushed has been run, or taken out of the queue, or is still in it,
      as often as it was pushed. */
  lemma GoneAccounts<T>(s0: State<T>, actions: seq<Action<T>>, s: State<T>, job: T)
    requires Initial(s0) && Reaches(s0, actions, s) && AllGone(s)
    ensures s.pushed == s.pulled + s.drained + s.queue && Times(s.pulled, job) == Times(s.completed, job)
  {
    SafeReaches(s0, actions, s);
    PulledIsRun(s0, actions, s, job);
    HandNone(s.workers, job);
  }
}
