/**
 The readers/writer monitor around the bulletin file.  Readers count themselves in and out under the mutex and
 scan without it; a writer waits under the mutex until the count is zero and keeps the mutex while it appends.
 */
module FileMonitor {
  import opened Counting

  /** `Entering` and `Leaving` hold the mutex, before the count is changed. */
  datatype Reader = Outside | Entering | Scanning | Leaving

  /** `Testing` and `Appending` hold the mutex; `Asleep` waits on the condition and `Notified` wants the mutex back. */
  datatype Writer = Idle | Testing | Appending | Asleep | Notified

  datatype Owner = Nobody | TheReader(r: nat) | TheWriter(w: nat)

  /** `visits` and `scans` count the calls of the readers and the scans they have finished, `calls` and `appends` the
      calls of the writers and the lines they have appended. */
  datatype State = State(
    readCount: int, owner: Owner, readers: seq<Reader>, writers: seq<Writer>,
    visits: seq<nat>, scans: seq<nat>, calls: seq<nat>, appends: seq<nat>)

  predicate Sized(s: State) {
    |s.visits| == |s.scans| == |s.readers| && |s.calls| == |s.appends| == |s.writers|
  }

  datatype Action =
    | EnterLock(r: nat) | CountIn(r: nat)   // read_descriptor: lock, reads++, unlock
    | LeaveLock(r: nat) | CountOut(r: nat)  // read_descriptor: lock, reads--, broadcast at zero, unlock
    | WriteLock(w: nat)                     // write_descriptor: lock
    | Test(w: nat)                          // write_descriptor: the loop test, then wait or go on
    | Wake(w: nat)                          // write_descriptor: leave the wait with the mutex
    | Append(w: nat)                        // write_descriptor: append, broadcast, unlock
    | Spurious(w: nat)                      // a wakeup without a broadcast

  function Broadcast(ws: seq<Writer>): (ws': seq<Writer>)
    ensures |ws'| == |ws|
    ensures forall w :: 0 <= w < |ws| ==> ws'[w] == if ws[w].Asleep? then Notified else ws[w]
  {
    seq(|ws|, w requires 0 <= w < |ws| => if ws[w].Asleep? then Notified else ws[w])
  }

  predicate Enabled(s: State, a: Action) {
    Sized(s) &&
    match a
    case EnterLock(r) => r < |s.readers| && s.readers[r].Outside? && s.owner.Nobody?
    case CountIn(r) => r < |s.readers| && s.readers[r].Entering?
    case LeaveLock(r) => r < |s.readers| && s.readers[r].Scanning? && s.owner.Nobody?
    case CountOut(r) => r < |s.readers| && s.readers[r].Leaving?
    case WriteLock(w) => w < |s.writers| && s.writers[w].Idle? && s.owner.Nobody?
    case Test(w) => w < |s.writers| && s.writers[w].Testing?
    case Wake(w) => w < |s.writers| && s.writers[w].Notified? && s.owner.Nobody?
    case Append(w) => w < |s.writers| && s.writers[w].Appending?
    case Spurious(w) => w < |s.writers| && s.writers[w].Asleep?
  }

  function Next(s: State, a: Action): State
    requires Enabled(s, a)
  {
    match a
    case EnterLock(r) =>
      s.(owner := TheReader(r), readers := s.readers[r := Entering], visits := s.visits[r := s.visits[r] + 1])
    case CountIn(r) => s.(readCount := s.readCount + 1, owner := Nobody, readers := s.readers[r := Scanning])
    case LeaveLock(r) =>
      s.(owner := TheReader(r), readers := s.readers[r := Leaving], scans := s.scans[r := s.scans[r] + 1])
    case CountOut(r) =>
      s.(readCount := s.readCount - 1, owner := Nobody, readers := s.readers[r := Outside],
         writers := if s.readCount - 1 == 0 then Broadcast(s.writers) else s.writers)
    case WriteLock(w) =>
      s.(owner := TheWriter(w), writers := s.writers[w := Testing], calls := s.calls[w := s.calls[w] + 1])
    case Test(w) =>
      if s.readCount != 0 then s.(owner := Nobody, writers := s.writers[w := Asleep])
      else s.(writers := s.writers[w := Appending])
    case Wake(w) => s.(owner := TheWriter(w), writers := s.writers[w := Testing])
    case Append(w) =>
      s.(owner := Nobody, writers := Broadcast(s.writers[w := Idle]), appends := s.appends[w := s.appends[w] + 1])
    case Spurious(w) => s.(writers := s.writers[w := Notified])
  }

  predicate Initial(s: State) {
    && Sized(s) && s.visits == s.scans && s.calls == s.appends
    && s.readCount == 0 && s.owner.Nobody?
    && (forall r :: 0 <= r < |s.readers| ==> s.readers[r].Outside?)
    && (forall w :: 0 <= w < |s.writers| ==> s.writers[w].Idle?)
  }

  predicate Reaches(s: State, actions: seq<Action>, s': State)
    decreases |actions|
  {
    if |actions| == 0 then s == s'
    else Enabled(s, actions[0]) && Reaches(Next(s, actions[0]), actions[1..], s')
  }

  /** A reader between its increment and its decrement. */
  predicate CountedIn(r: Reader) {
    r.Scanning? || r.Leaving?
  }

  predicate HoldsAsReader(r: Reader) {
    r.Entering? || r.Leaving?
  }

  predicate HoldsAsWriter(w: Writer) {
    w.Testing? || w.Appending?
  }

  /** A reader that is not inside has finished a scan for each of its calls, and a writer that has left has appended
      exactly once for each of its calls. */
  predicate Served(s: State) {
    && Sized(s)
    && (forall r :: 0 <= r < |s.readers| ==>
          s.visits[r] == s.scans[r] + if s.readers[r].Entering? || s.readers[r].Scanning? then 1 else 0)
    && (forall w :: 0 <= w < |s.writers| ==> s.calls[w] == s.appends[w] + if s.writers[w].Idle? then 0 else 1)
  }

  /** The count is the number of readers inside; one thread holds the mutex; nobody is inside while a writer appends;
      whoever sleeps will be woken by the last reader. */
  predicate Inv(s: State) {
    && Sized(s) && s.readCount == Count(s.readers, CountedIn)
    && (forall r :: 0 <= r < |s.readers| ==> (HoldsAsReader(s.readers[r]) <==> s.owner == TheReader(r)))
    && (forall w :: 0 <= w < |s.writers| ==> (HoldsAsWriter(s.writers[w]) <==> s.owner == TheWriter(w)))
    && (s.owner.TheReader? ==> s.owner.r < |s.readers|)
    && (s.owner.TheWriter? ==> s.owner.w < |s.writers|)
    && (forall w :: 0 <= w < |s.writers| && s.writers[w].Appending? ==> s.readCount == 0)
    && (forall w :: 0 <= w < |s.writers| && s.writers[w].Asleep? ==> s.readCount > 0)
  }

  lemma ServedStep(s: State, a: Action)
    requires Served(s) && Enabled(s, a)
    ensures Served(Next(s, a))
  {
  }

  lemma {:induction false} ServedReaches(s: State, actions: seq<Action>, s': State)
    requires Served(s) && Reaches(s, actions, s')
    ensures Served(s')
    decreases |actions|
  {
    if |actions| > 0 {
      ServedStep(s, actions[0]);
      ServedReaches(Next(s, actions[0]), actions[1..], s');
    }
  }

  lemma ReaderStep(s: State, a: Action, r: nat)
    requires Inv(s) && Enabled(s, a)
    requires a == EnterLock(r) || a == CountIn(r) || a == LeaveLock(r) || a == CountOut(r)
    ensures Inv(Next(s, a))
  {
    CountUpdate(s.readers, r, Next(s, a).readers[r], CountedIn);
  }

  lemma WriterStep(s: State, a: Action)
    requires Inv(s) && Enabled(s, a)
    requires a.WriteLock? || a.Test? || a.Wake? || a.Append? || a.Spurious?
    ensures Inv(Next(s, a))
  {
  }

  lemma InvStep(s: State, a: Action)
    requires Inv(s) && Enabled(s, a)
    ensures Inv(Next(s, a))
  {
    match a
    case EnterLock(r) => ReaderStep(s, a, r);
    case CountIn(r) => ReaderStep(s, a, r);
    case LeaveLock(r) => ReaderStep(s, a, r);
    case CountOut(r) => ReaderStep(s, a, r);
    case _ => WriterStep(s, a);
  }

  lemma {:induction false} InvReaches(s: State, actions: seq<Action>, s': State)
    requires Inv(s) && Reaches(s, actions, s')
    ensures Inv(s')
    decreases |actions|
  {
    if |actions| > 0 {
      InvStep(s, actions[0]);
      InvReaches(Next(s, actions[0]), actions[1..], s');
    }
  }

  /** In every reachable state, for any number of readers and writers. */
  lemma MonitorIsSafe(s0: State, actions: seq<Action>, s: State)
    requires Initial(s0) && Reaches(s0, actions, s)
    ensures s.readCount == Count(s.readers, CountedIn)
    ensures forall r, w :: 0 <= r < |s.readers| && 0 <= w < |s.writers| && s.writers[w].Appending? ==>
                             !s.readers[r].Scanning?
    ensures Served(s)
    ensures forall v, w :: 0 <= v < w < |s.writers| ==> !(s.writers[v].Appending? && s.writers[w].Appending?)
    ensures forall w :: 0 <= w < |s.writers| && s.writers[w].Asleep? ==>
                          exists r :: 0 <= r < |s.readers| && CountedIn(s.readers[r])
  {
    CountNone(s0.readers, CountedIn);
    ServedReaches(s0, actions, s);
    InvReaches(s0, actions, s);
    CountNone(s.readers, CountedIn);
  }

  /** The last reader releases every waiting writer. */
  lemma LastReaderReleases(s: State, r: nat)
    requires Enabled(s, CountOut(r)) && s.readCount == 1
    ensures var s' := Next(s, CountOut(r));
            && s'.readCount == 0
            && forall w :: 0 <= w < |s.writers| && s.writers[w].Asleep? ==> s'.writers[w].Notified?
  {
  }

  /** As long as anybody is inside or waiting, somebody can move, without a spurious wakeup. */
  lemma NeverStuck(s: State) returns (a: Action)
    requires Inv(s)
    requires || (exists r :: 0 <= r < |s.readers| && !s.readers[r].Outside?)
             || (exists w :: 0 <= w < |s.writers| && !s.writers[w].Idle?)
    ensures Enabled(s, a) && !a.Spurious? && !a.EnterLock? && !a.WriteLock?
  {
    CountNone(s.readers, CountedIn);
    match s.owner
    case TheReader(r) => a := if s.readers[r].Entering? then CountIn(r) else CountOut(r);
    case TheWriter(w) => a := if s.writers[w].Testing? then Test(w) else Append(w);
    case Nobody =>
      if r :| 0 <= r < |s.readers| && s.readers[r].Scanning? {
        a := LeaveLock(r);
      } else {
        var w :| 0 <= w < |s.writers| && !s.writers[w].Idle?;
        a := Wake(w);
      }
  }

  // ---- progress

  /** A step of those that are inside or waiting: nobody new arrives and nobody wakes up by chance. */
  predicate OwnStep(a: Action) {
    !a.EnterLock? && !a.WriteLock? && !a.Spurious?
  }

  /** The steps a reader still has to take. */
  function ReaderSteps(r: Reader): nat {
    match r
    case Outside => 0
    case Entering => 3
    case Scanning => 2
    case Leaving => 1
  }

  /** How far a writer is from sleeping or appending; a writer that has appended weighs nothing. */
  function WriterWeight(w: Writer, k: nat): nat {
    match w
    case Idle => 0
    case Testing => k + 1
    case Appending => k
    case Asleep => k
    case Notified => k + 2
  }

  function ReaderSum(rs: seq<Reader>): nat {
    if |rs| == 0 then 0 else ReaderSteps(rs[0]) + ReaderSum(rs[1..])
  }

  function WriterSum(ws: seq<Writer>, k: nat): nat {
    if |ws| == 0 then 0 else WriterWeight(ws[0], k) + WriterSum(ws[1..], k)
  }

  /** More than all sleepers gain when they are notified. */
  function Stake(s: State): nat {
    2 * |s.writers| + 1
  }

  function Measure(s: State): nat {
    Stake(s) * ReaderSum(s.readers) + WriterSum(s.writers, Stake(s))
  }

  lemma {:induction false} ReaderUpdate(rs: seq<Reader>, r: nat, x: Reader)
    requires r < |rs|
    ensures ReaderSum(rs[r := x]) == ReaderSum(rs) - ReaderSteps(rs[r]) + ReaderSteps(x)
  {
    if r == 0 {
      assert rs[0 := x][1..] == rs[1..];
    } else {
      ReaderUpdate(rs[1..], r - 1, x);
      assert rs[r := x][1..] == rs[1..][r - 1 := x];
    }
  }

  lemma {:induction false} WriterUpdate(ws: seq<Writer>, w: nat, x: Writer, k: nat)
    requires w < |ws|
    ensures WriterSum(ws[w := x], k) == WriterSum(ws, k) - WriterWeight(ws[w], k) + WriterWeight(x, k)
  {
    if w == 0 {
      assert ws[0 := x][1..] == ws[1..];
    } else {
      WriterUpdate(ws[1..], w - 1, x, k);
      assert ws[w := x][1..] == ws[1..][w - 1 := x];
    }
  }

  lemma {:induction false} BroadcastSum(ws: seq<Writer>, k: nat)
    ensures WriterSum(Broadcast(ws), k) <= WriterSum(ws, k) + 2 * |ws|
  {
    if |ws| > 0 {
      BroadcastSum(ws[1..], k);
      assert Broadcast(ws)[1..] == Broadcast(ws[1..]);
    }
  }

  lemma ReaderLowers(s: State, a: Action, r: nat)
    requires Enabled(s, a) && (a == CountIn(r) || a == LeaveLock(r) || a == CountOut(r))
    ensures Measure(Next(s, a)) < Measure(s)
  {
    var s' := Next(s, a);
    ReaderUpdate(s.readers, r, s'.readers[r]);
    BroadcastSum(s.writers, Stake(s));
    assert ReaderSum(s.readers) == ReaderSum(s'.readers) + 1;
    assert Stake(s) * (ReaderSum(s'.readers) + 1) == Stake(s) * ReaderSum(s'.readers) + Stake(s);
  }

  lemma WriterLowers(s: State, a: Action)
    requires Enabled(s, a) && (a.Test? || a.Wake? || a.Append?)
    ensures Measure(Next(s, a)) < Measure(s)
  {
    var k := Stake(s);
    match a
    case Test(w) => WriterUpdate(s.writers, w, Next(s, a).writers[w], k);
    case Wake(w) => WriterUpdate(s.writers, w, Testing, k);
    case Append(w) =>
      WriterUpdate(s.writers, w, Idle, k);
      BroadcastSum(s.writers[w := Idle], k);
  }

  /** Without new arrivals every run of the monitor is finite, and where it cannot go on every reader and every writer
      has left, having scanned or appended once for each call. */
  lemma {:induction false} RunsEndFree(s: State, actions: seq<Action>, s': State)
    requires Inv(s) && Served(s) && Reaches(s, actions, s') && forall j :: 0 <= j < |actions| ==> OwnStep(actions[j])
    ensures |actions| <= Measure(s)
    ensures (forall a :: OwnStep(a) ==> !Enabled(s', a)) ==>
              && (forall r :: 0 <= r < |s'.readers| ==> s'.readers[r].Outside?)
              && (forall w :: 0 <= w < |s'.writers| ==> s'.writers[w].Idle?)
              && s'.scans == s'.visits && s'.appends == s'.calls
    decreases |actions|
  {
    if |actions| > 0 {
      var a := actions[0];
      InvStep(s, a);
      ServedStep(s, a);
      match a {
        case CountIn(r) => ReaderLowers(s, a, r);
        case LeaveLock(r) => ReaderLowers(s, a, r);
        case CountOut(r) => ReaderLowers(s, a, r);
        case _ => WriterLowers(s, a);
      }
      RunsEndFree(Next(s, a), actions[1..], s');
    } else if (exists r :: 0 <= r < |s.readers| && !s.readers[r].Outside?)
              || exists w :: 0 <= w < |s.writers| && !s.writers[w].Idle? {
      var a := NeverStuck(s);
    }
  }

  /** The monitor starts with any number of readers and writers, and whoever is outside can come in whenever nobody
      holds the mutex. */
  lemma AnyMonitor(n: nat, m: nat, s: State, r: nat, w: nat)
    ensures Initial(State(0, Nobody, seq(n, _ => Outside), seq(m, _ => Idle),
                          seq(n, _ => 0), seq(n, _ => 0), seq(m, _ => 0), seq(m, _ => 0)))
    ensures Sized(s) && s.owner.Nobody? && r < |s.readers| && s.readers[r].Outside? ==> Enabled(s, EnterLock(r))
    ensures Sized(s) && s.owner.Nobody? && w < |s.writers| && s.writers[w].Idle? ==> Enabled(s, WriteLock(w))
  {
  }
}
