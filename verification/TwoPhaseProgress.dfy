/**
 That calls succeed.  From any state in which a call has not started and all its peers can carry it out, whatever other
 calls are doing, there is a run in which it returns 0 and all peers have stored its line.
 */
module TwoPhaseProgress {
  import opened Common
  import opened LineCodec
  import opened BulletinLines
  import opened PeerProtocol
  import opened TwoPhase
  import opened TwoPhaseInvariant
  import opened TwoPhaseTheorems
  import opened TwoPhaseRuns

  /** The system with run `k` in state `t`. */
  function With(m: Board, bs: seq<Board>, ts: seq<Txn>, k: nat, t: Txn): System
    requires k < |ts|
  {
    System(m, bs, ts[k := t])
  }

  /** A step of run `k` that changes no board. */
  lemma Moves(s0: System, m: Board, bs: seq<Board>, ts: seq<Txn>, k: nat, t: Txn, a: Action, t': Txn)
    requires k < |ts| && CanReach(s0, With(m, bs, ts, k, t)) && a.t == k && !a.RunLocal? && !a.Handle?
    requires Enabled(With(m, bs, ts, k, t), a) && t' == Next(With(m, bs, ts, k, t), a).txns[k]
    ensures CanReach(s0, With(m, bs, ts, k, t'))
  {
    Then(s0, With(m, bs, ts, k, t), a);
    assert ts[k := t][k := t'] == ts[k := t'];
    assert Next(With(m, bs, ts, k, t), a) == With(m, bs, ts, k, t');
  }

  lemma Answers(s0: System, m: Board, bs: seq<Board>, ts: seq<Txn>, k: nat, t: Txn, i: nat)
    requires k < |ts| && CanReach(s0, With(m, bs, ts, k, t)) && i < |t.links| == |bs|
    requires CanFinish(t.links[i], NoFault)
    ensures CanReach(s0, With(m, bs[i := Handled(t.links[i], bs[i], NoFault).board], ts, k,
                              t.(links := t.links[i := DoHandle(t.links[i], bs[i], NoFault)])))
  {
    var a := Action.Handle(k, i, NoFault);
    var t' := t.(links := t.links[i := DoHandle(t.links[i], bs[i], NoFault)]);
    Then(s0, With(m, bs, ts, k, t), a);
    assert ts[k := t][k := t'] == ts[k := t'];
    assert Next(With(m, bs, ts, k, t), a) == With(m, bs[i := Handled(t.links[i], bs[i], NoFault).board], ts, k, t');
  }

  // ---- handing out the jobs of a phase

  /** The run starts a phase with `n` peers. */
  predicate Starts(t: Txn, n: nat) {
    && t.pc.Spawn? && t.pushed == 0 && t.pos == 0 && t.neg == 0
    && t.marked == Marked(n, 0) && t.work == seq(n, _ => Unclaimed) && |t.links| == n && |t.dontReissue| == n
  }

  /** The first `i` of `n` peers are marked. */
  function Marked(n: nat, i: nat): seq<bool> {
    seq(n, q => q < i)
  }

  /** The first `i` of `n` jobs are finished. */
  function JobsAt(phase: JobKind, n: nat, i: nat): seq<Job> {
    seq(n, q => Job(phase, if q < i then Finished else Ready))
  }

  lemma {:induction false} Hands(s0: System, m: Board, bs: seq<Board>, ts: seq<Txn>, k: nat, t: Txn, n: nat, p: nat)
    requires k < |ts| && p <= n && Starts(t, n) && CanReach(s0, With(m, bs, ts, k, t))
    ensures CanReach(s0, With(m, bs, ts, k, t.(pushed := p, jobs := t.jobs + JobsAt(t.phase, p, 0))))
    decreases p
  {
    if p == 0 {
      assert t.jobs + JobsAt(t.phase, 0, 0) == t.jobs;
      assert t.(pushed := 0, jobs := t.jobs) == t;
    } else {
      Hands(s0, m, bs, ts, k, t, n, p - 1);
      var t1, t2 := t.(pushed := p - 1, jobs := t.jobs + JobsAt(t.phase, p - 1, 0)),
                    t.(pushed := p, jobs := t.jobs + JobsAt(t.phase, p, 0));
      assert JobsAt(t.phase, p, 0) == JobsAt(t.phase, p - 1, 0) + [Job(t.phase, Ready)];
      Associate(t.jobs, JobsAt(t.phase, p - 1, 0), [Job(t.phase, Ready)]);
      Moves(s0, m, bs, ts, k, t1, Push(k), t2);
    }
  }

  lemma {:induction false} FirstAt(marked: seq<bool>, i: nat)
    requires i < |marked| && !marked[i] && forall q :: 0 <= q < i ==> marked[q]
    ensures FirstUnmarked(marked) == i
  {
    if i > 0 { FirstAt(marked[1..], i - 1); }
  }

  lemma {:induction false} FirstBehind(marked: seq<bool>)
    requires forall q :: 0 <= q < |marked| ==> marked[q]
    ensures FirstUnmarked(marked) == |marked|
  {
    if |marked| > 0 { FirstBehind(marked[1..]); }
  }

  // ---- one peer after the other

  /** The request that the phase sends to a peer. */
  function Asked(t: Txn, l: Link): Link {
    l.(log := l.log + [MessageFor(t, t.phase)])
  }

  /** What a voting phase makes of a peer that says yes: `l'` and `b'`. */
  predicate SaysYes(t: Txn, l: Link, b: Board, l': Link, b': Board) {
    && CanFinish(Asked(t, l), NoFault)
    && var h := DoHandle(Asked(t, l), b, NoFault);
       && l.taken < |h.replies| && h.replies[|h.replies| - 1] == Positive
       && l' == h.(taken := |h.replies|) && b' == Handled(Asked(t, l), b, NoFault).board
  }

  /** What the last phase makes of a peer. */
  predicate TakesLeave(t: Txn, l: Link, b: Board, l': Link, b': Board) {
    && CanFinish(Asked(t, l), NoFault)
    && l' == DoHandle(Asked(t, l), b, NoFault) && b' == Handled(Asked(t, l), b, NoFault).board
  }

  /** The first `i` of the new ones, then the old ones. */
  function Mixed<T>(olds: seq<T>, news: seq<T>, i: nat): seq<T>
    requires i <= |olds| == |news|
  {
    seq(|olds|, q requires 0 <= q < |olds| => if q < i then news[q] else olds[q])
  }

  lemma MixedNext<T>(olds: seq<T>, news: seq<T>, i: nat)
    requires i < |olds| == |news|
    ensures Mixed(olds, news, i)[i] == olds[i] && Mixed(olds, news, i)[i := news[i]] == Mixed(olds, news, i + 1)
  {
  }

  lemma MixedEnds<T>(olds: seq<T>, news: seq<T>)
    requires |olds| == |news|
    ensures Mixed(olds, news, 0) == olds && Mixed(olds, news, |olds|) == news
  {
  }

  /** The state when the first `i` peers are through with the phase. */
  function Through(t: Txn, n: nat, i: nat, pc: Pc, news: seq<Link>, done: Work): Txn
    requires |t.links| == |news| == n && i <= n
  {
    t.(pc := pc, pushed := n, jobs := t.jobs + JobsAt(t.phase, n, i), marked := Marked(n, i),
       work := seq(n, q => if q < i then done else Unclaimed),
       pos := if Voting(t.phase) then i else 0, links := Mixed(t.links, news, i))
  }

  function VotePc(t: Txn, n: nat, i: nat): Pc {
    if Voting(t.phase) then Wait(i == n) else Returned
  }

  function DoneWork(t: Txn): Work {
    if Voting(t.phase) then Voted(VotePositive) else Closed
  }

  /** Peer `i` is claimed. */
  function Claiming(t: Txn, n: nat, i: nat, news: seq<Link>): Txn
    requires |t.links| == |news| == n && i < n
  {
    var u, j := Through(t, n, i, VotePc(t, n, i), news, DoneWork(t)), |t.jobs| + i;
    u.(marked := u.marked[i := true], work := u.work[i := ClaimedBy(j)],
       jobs := u.jobs[j := Job(t.phase, Claimed(i))])
  }

  lemma ClaimsNext(s0: System, m: Board, bs: seq<Board>, ts: seq<Txn>, k: nat, t: Txn, n: nat, i: nat, news: seq<Link>)
    requires k < |ts| && Starts(t, n) && i < n == |news|
    requires CanReach(s0, With(m, bs, ts, k, Through(t, n, i, VotePc(t, n, i), news, DoneWork(t))))
    ensures CanReach(s0, With(m, bs, ts, k, Claiming(t, n, i, news)))
  {
    var u, j := Through(t, n, i, VotePc(t, n, i), news, DoneWork(t)), |t.jobs| + i;
    FirstAt(u.marked, i);
    assert u.jobs[j] == Job(t.phase, Ready);
    Moves(s0, m, bs, ts, k, u, Claim(k, j), Claiming(t, n, i, news));
  }

  lemma Twice<T>(s: seq<T>, i: nat, x: T, y: T)
    requires i < |s|
    ensures s[i := x][i := y] == s[i := y]
  {
  }

  lemma ThroughNext(t: Txn, n: nat, i: nat, news: seq<Link>)
    requires Starts(t, n) && i < n == |news|
    ensures var u, v, j := Through(t, n, i, VotePc(t, n, i), news, DoneWork(t)),
                           Through(t, n, i + 1, VotePc(t, n, i + 1), news, DoneWork(t)), |t.jobs| + i;
            && v.marked == u.marked[i := true] && v.work == u.work[i := DoneWork(t)]
            && v.jobs == u.jobs[j := Job(t.phase, Finished)] && v.links == u.links[i := news[i]]
            && u.links[i] == t.links[i]
  {
    MixedNext(t.links, news, i);
    var j := |t.jobs| + i;
    assert JobsAt(t.phase, n, i)[i := Job(t.phase, Finished)] == JobsAt(t.phase, n, i + 1);
    assert (t.jobs + JobsAt(t.phase, n, i))[j := Job(t.phase, Finished)]
        == t.jobs + JobsAt(t.phase, n, i)[i := Job(t.phase, Finished)];
  }

  /** The request is out. */
  function Asking(t: Txn, n: nat, i: nat, news: seq<Link>): Txn
    requires |t.links| == |news| == n && i < n
  {
    var u, j := Through(t, n, i, VotePc(t, n, i), news, DoneWork(t)), |t.jobs| + i;
    u.(marked := u.marked[i := true], work := u.work[i := if Voting(t.phase) then SentBy(j) else Closed],
       jobs := u.jobs[j := Job(t.phase, if Voting(t.phase) then Sent(i) else Finished)],
       links := u.links[i := Asked(t, t.links[i])])
  }

  lemma AsksNext(s0: System, m: Board, bs: seq<Board>, ts: seq<Txn>, k: nat, t: Txn, n: nat, i: nat, news: seq<Link>)
    requires k < |ts| && Starts(t, n) && i < n == |news| && !t.dontReissue[i]
    requires CanReach(s0, With(m, bs, ts, k, Claiming(t, n, i, news)))
    ensures CanReach(s0, With(m, bs, ts, k, Asking(t, n, i, news)))
  {
    var u, c, j := Through(t, n, i, VotePc(t, n, i), news, DoneWork(t)), Claiming(t, n, i, news), |t.jobs| + i;
    ThroughNext(t, n, i, news);
    Twice(u.work, i, ClaimedBy(j), if Voting(t.phase) then SentBy(j) else Closed);
    Twice(u.jobs, j, Job(t.phase, Claimed(i)), Job(t.phase, if Voting(t.phase) then Sent(i) else Finished));
    assert c.jobs[j] == Job(t.phase, Claimed(i));
    Moves(s0, m, bs, ts, k, c, Send(k, j), Asking(t, n, i, news));
  }

  /** One peer of a voting phase. */
  lemma VotesNext(s0: System, m: Board, bs: seq<Board>, ts: seq<Txn>, k: nat, t: Txn, n: nat, i: nat,
                  news: seq<Link>, bs': seq<Board>)
    requires k < |ts| && Starts(t, n) && Voting(t.phase) && i < n == |news| == |bs| == |bs'|
    requires SaysYes(t, t.links[i], bs[i], news[i], bs'[i])
    requires CanReach(s0, With(m, Mixed(bs, bs', i), ts, k, Asking(t, n, i, news)))
    ensures CanReach(s0, With(m, Mixed(bs, bs', i + 1), ts, k,
                              Through(t, n, i + 1, VotePc(t, n, i + 1), news, DoneWork(t))))
  {
    var a, j := Asking(t, n, i, news), |t.jobs| + i;
    MixedNext(bs, bs', i);
    ThroughNext(t, n, i, news);
    Answers(s0, m, Mixed(bs, bs', i), ts, k, a, i);
    var h := DoHandle(Asked(t, t.links[i]), bs[i], NoFault);
    var b := a.(links := a.links[i := h]);
    assert b.jobs[j] == Job(t.phase, Sent(i)) && b.links[i] == h;
    VoteIs(t, n, i, news, h);
    Moves(s0, m, Mixed(bs, bs', i + 1), ts, k, b, CastVote(k, j, true),
          Through(t, n, i + 1, VotePc(t, n, i + 1), news, DoneWork(t)));
  }

  lemma VoteIs(t: Txn, n: nat, i: nat, news: seq<Link>, h: Link)
    requires Starts(t, n) && Voting(t.phase) && i < n == |news|
    requires |h.replies| > h.taken && h.replies[|h.replies| - 1] == Positive && news[i] == h.(taken := |h.replies|)
    ensures var a, j := Asking(t, n, i, news), |t.jobs| + i;
            var b := a.(links := a.links[i := h]);
            CanVote(b, j, true) && DoVote(b, j, true) == Through(t, n, i + 1, VotePc(t, n, i + 1), news, DoneWork(t))
  {
    var u, a, j := Through(t, n, i, VotePc(t, n, i), news, DoneWork(t)), Asking(t, n, i, news), |t.jobs| + i;
    ThroughNext(t, n, i, news);
    Twice(u.work, i, SentBy(j), Voted(VotePositive));
    Twice(u.jobs, j, Job(t.phase, Sent(i)), Job(t.phase, Finished));
    Twice(u.links, i, Asked(t, t.links[i]), h);
    Twice(u.links, i, h, news[i]);
    assert a.jobs[j] == Job(t.phase, Sent(i));
  }

  /** One peer of the last phase. */
  lemma LeavesNext(s0: System, m: Board, bs: seq<Board>, ts: seq<Txn>, k: nat, t: Txn, n: nat, i: nat,
                   news: seq<Link>, bs': seq<Board>)
    requires k < |ts| && Starts(t, n) && !Voting(t.phase) && i < n == |news| == |bs| == |bs'|
    requires TakesLeave(t, t.links[i], bs[i], news[i], bs'[i])
    requires CanReach(s0, With(m, Mixed(bs, bs', i), ts, k, Asking(t, n, i, news)))
    ensures CanReach(s0, With(m, Mixed(bs, bs', i + 1), ts, k,
                              Through(t, n, i + 1, VotePc(t, n, i + 1), news, DoneWork(t))))
  {
    var u, a := Through(t, n, i, VotePc(t, n, i), news, DoneWork(t)), Asking(t, n, i, news);
    MixedNext(bs, bs', i);
    ThroughNext(t, n, i, news);
    Twice(u.links, i, Asked(t, t.links[i]), news[i]);
    Answers(s0, m, Mixed(bs, bs', i), ts, k, a, i);
  }

  // ---- whole phases

  /** All jobs are handed out. */
  lemma Opens(s0: System, m: Board, bs: seq<Board>, ts: seq<Txn>, k: nat, t: Txn, n: nat, news: seq<Link>)
    requires k < |ts| && Starts(t, n) && n == |news| && CanReach(s0, With(m, bs, ts, k, t))
    ensures CanReach(s0, With(m, bs, ts, k, Through(t, n, 0, VotePc(t, n, 0), news, DoneWork(t))))
  {
    var u := Through(t, n, 0, VotePc(t, n, 0), news, DoneWork(t));
    Hands(s0, m, bs, ts, k, t, n, n);
    MixedEnds(t.links, news);
    assert u.work == t.work;
    Moves(s0, m, bs, ts, k, t.(pushed := n, jobs := t.jobs + JobsAt(t.phase, n, 0)), EndPush(k), u);
  }

  /** What a phase makes of all peers. */
  predicate Passes(t: Txn, ls: seq<Link>, bs: seq<Board>, news: seq<Link>, bs': seq<Board>) {
    && |ls| == |bs| == |news| == |bs'|
    && forall i :: 0 <= i < |ls| ==>
         if Voting(t.phase) then SaysYes(t, ls[i], bs[i], news[i], bs'[i])
         else TakesLeave(t, ls[i], bs[i], news[i], bs'[i])
  }

  lemma {:induction false} GoesThrough(s0: System, m: Board, bs: seq<Board>, ts: seq<Txn>, k: nat, t: Txn, n: nat,
                                       i: nat, news: seq<Link>, bs': seq<Board>)
    requires k < |ts| && Starts(t, n) && i <= n == |news| == |bs| == |bs'| && CanReach(s0, With(m, bs, ts, k, t))
    requires Passes(t, t.links, bs, news, bs') && forall q :: 0 <= q < n ==> !t.dontReissue[q]
    ensures CanReach(s0, With(m, Mixed(bs, bs', i), ts, k, Through(t, n, i, VotePc(t, n, i), news, DoneWork(t))))
    decreases i
  {
    if i == 0 {
      Opens(s0, m, bs, ts, k, t, n, news);
      MixedEnds(bs, bs');
    } else {
      GoesThrough(s0, m, bs, ts, k, t, n, i - 1, news, bs');
      ClaimsNext(s0, m, Mixed(bs, bs', i - 1), ts, k, t, n, i - 1, news);
      AsksNext(s0, m, Mixed(bs, bs', i - 1), ts, k, t, n, i - 1, news);
      if Voting(t.phase) {
        VotesNext(s0, m, bs, ts, k, t, n, i - 1, news, bs');
      } else {
        LeavesNext(s0, m, bs, ts, k, t, n, i - 1, news, bs');
      }
    }
  }

  /** A phase that all peers pass. */
  lemma PhaseDone(s0: System, m: Board, bs: seq<Board>, ts: seq<Txn>, k: nat, t: Txn, n: nat,
                  news: seq<Link>, bs': seq<Board>)
    requires k < |ts| && Starts(t, n) && n == |news| == |bs| == |bs'| && CanReach(s0, With(m, bs, ts, k, t))
    requires Passes(t, t.links, bs, news, bs') && forall q :: 0 <= q < n ==> !t.dontReissue[q]
    ensures CanReach(s0, With(m, bs', ts, k, Through(t, n, n, VotePc(t, n, n), news, DoneWork(t))))
  {
    GoesThrough(s0, m, bs, ts, k, t, n, n, news, bs');
    MixedEnds(bs, bs');
  }

  // ---- the call

  /** A call that has not started and that all peers can carry out: they accept the precommit and understand the commit,
      and the number is there for a replace and not there for a write. */
  predicate AllAble(t: Txn, bs: seq<Board>) {
    && Unstarted(t, |bs|) && Addressed(t) && t.first.Precommit? && IsCommit(t.second)
    && forall i :: 0 <= i < |bs| ==> (t.id in bs[i] <==> t.kind.ReplaceRun?)
  }

  /** The conversation with a peer after the precommit, after the commit and in the end. */
  function Yes(t: Txn): Link
    requires t.first.Precommit?
  {
    Link([t.first], 1, [Positive], 1, FRESH.(user := t.first.user), false, false)
  }

  function YesYes(t: Txn, b: Board): Link
    requires t.first.Precommit? && (t.kind.ReplaceRun? ==> t.id in b)
  {
    Link([t.first, t.second], 2, [Positive, Positive], 2,
         if t.kind.WriteRun? then Session(t.first.user, UndoWrite(t.id), NO_TEXTS, true)
         else Session(t.first.user, UndoReplace(t.id, Keep(b[t.id], NO_TEXTS)), Keep(b[t.id], NO_TEXTS), true),
         false, false)
  }

  function Goodbye(t: Txn, b: Board): Link
    requires t.first.Precommit? && (t.kind.ReplaceRun? ==> t.id in b)
  {
    var l := YesYes(t, b);
    l.(log := l.log + [Quit], next := 3, session := l.session.(open := false))
  }

  function Changed(t: Txn, b: Board): Board
    requires t.first.Precommit? && IsCommit(t.second)
  {
    Put(b, t.id, t.first.user, t.second.message)
  }

  lemma FirstYes(t: Txn, b: Board)
    requires t.first.Precommit? && t.phase.SendPrecommit?
    ensures SaysYes(t, FRESH_LINK, b, Yes(t), b)
  {
    assert Asked(t, FRESH_LINK).log == [t.first];
  }

  lemma SecondYes(t: Txn, b: Board)
    requires Addressed(t) && t.first.Precommit? && IsCommit(t.second) && t.phase.SendCommit?
    requires t.id in b <==> t.kind.ReplaceRun?
    ensures SaysYes(t, Yes(t), b, YesYes(t, b), Changed(t, b))
  {
    assert Asked(t, Yes(t)).log == [t.first, t.second];
  }

  lemma LastLeave(t: Txn, b: Board, b': Board)
    requires t.first.Precommit? && t.phase.SendQuit? && (t.kind.ReplaceRun? ==> t.id in b)
    ensures TakesLeave(t, YesYes(t, b), b', Goodbye(t, b), b')
  {
    assert Asked(t, YesYes(t, b)).log == [t.first, t.second, Quit];
  }

  /** The call as it starts its second phase, runs its own store and starts its last phase. */
  function Second(t: Txn, n: nat): Txn
    requires Unstarted(t, n) && t.first.Precommit?
  {
    t.(phase := SendCommit, jobs := JobsAt(SendPrecommit, n, n), links := seq(n, _ => Yes(t)))
  }

  function Jobs2(n: nat): seq<Job> {
    JobsAt(SendPrecommit, n, n) + JobsAt(SendCommit, n, n)
  }

  function Last(t: Txn, bs: seq<Board>): Txn
    requires AllAble(t, bs)
  {
    t.(phase := SendQuit, result := 0, jobs := Jobs2(|bs|),
       links := seq(|bs|, i requires 0 <= i < |bs| => YesYes(t, bs[i])))
  }

  function NewBoards(t: Txn, bs: seq<Board>): seq<Board>
    requires t.first.Precommit? && IsCommit(t.second)
  {
    seq(|bs|, i requires 0 <= i < |bs| => Changed(t, bs[i]))
  }

  lemma PrecommitsAll(s0: System, m: Board, bs: seq<Board>, ts: seq<Txn>, k: nat, t: Txn)
    requires k < |ts| && AllAble(t, bs) && CanReach(s0, With(m, bs, ts, k, t))
    ensures CanReach(s0, With(m, bs, ts, k, Second(t, |bs|)))
  {
    var n, news := |bs|, seq(|bs|, _ => Yes(t));
    assert t.marked == Marked(n, 0);
    forall i | 0 <= i < n ensures SaysYes(t, t.links[i], bs[i], news[i], bs[i]) { FirstYes(t, bs[i]); }
    PhaseDone(s0, m, bs, ts, k, t, n, news, bs);
    var u := Through(t, n, n, VotePc(t, n, n), news, DoneWork(t));
    SecondIs(t, n, u);
    Moves(s0, m, bs, ts, k, u, Decide(k), Second(t, n));
  }

  lemma SecondIs(t: Txn, n: nat, u: Txn)
    requires Unstarted(t, n) && t.first.Precommit?
    requires u == Through(t, n, n, Wait(true), seq(n, _ => Yes(t)), Voted(VotePositive))
    ensures CanDecide(u) && DoDecide(u) == Second(t, n) && Starts(Second(t, n), n)
  {
    MixedEnds(t.links, seq(n, _ => Yes(t)));
    assert t.jobs + JobsAt(t.phase, n, n) == JobsAt(SendPrecommit, n, n);
    assert DoDecide(u).marked == t.marked && DoDecide(u).work == t.work;
    assert t.marked == Marked(n, 0);
  }

  lemma CommitsAll(s0: System, m: Board, bs: seq<Board>, ts: seq<Txn>, k: nat, t: Txn)
    requires k < |ts| && AllAble(t, bs) && CanReach(s0, With(m, bs, ts, k, Second(t, |bs|)))
    ensures CanReach(s0, With(MasterPut(m, t), NewBoards(t, bs), ts, k, Last(t, bs)))
  {
    var n, t2, bs' := |bs|, Second(t, |bs|), NewBoards(t, bs);
    var news := seq(n, i requires 0 <= i < n => YesYes(t, bs[i]));
    assert t2.marked == Marked(n, 0);
    forall i | 0 <= i < n ensures SaysYes(t2, t2.links[i], bs[i], news[i], bs'[i]) {
      SecondYes(t2, bs[i]);
    }
    PhaseDone(s0, m, bs, ts, k, t2, n, news, bs');
    var u := Through(t2, n, n, VotePc(t2, n, n), news, DoneWork(t2));
    MixedEnds(t2.links, news);
    Moves(s0, m, bs', ts, k, u, Decide(k), u.(pc := Local));
    Then(s0, With(m, bs', ts, k, u.(pc := Local)), RunLocal(k, true));
    LastIs(t, bs, u.(pc := Local));
    assert ts[k := u.(pc := Local)][k := Last(t, bs)] == ts[k := Last(t, bs)];
    assert Next(With(m, bs', ts, k, u.(pc := Local)), RunLocal(k, true))
        == With(MasterPut(m, t), bs', ts, k, Last(t, bs));
  }

  lemma LastIs(t: Txn, bs: seq<Board>, u: Txn)
    requires AllAble(t, bs)
    requires u == Through(Second(t, |bs|), |bs|, |bs|, Local,
                          seq(|bs|, i requires 0 <= i < |bs| => YesYes(t, bs[i])), Voted(VotePositive))
    ensures DoLocal(u, true) == Last(t, bs) && Starts(Last(t, bs), |bs|)
  {
    var n := |bs|;
    MixedEnds(Second(t, n).links, seq(n, i requires 0 <= i < n => YesYes(t, bs[i])));
    assert DoLocal(u, true).marked == t.marked && DoLocal(u, true).work == t.work;
    assert t.marked == Marked(n, 0);
  }

  lemma LeavesAll(s0: System, m: Board, bs: seq<Board>, ts: seq<Txn>, k: nat, t: Txn) returns (t': Txn)
    requires k < |ts| && AllAble(t, bs) && CanReach(s0, With(m, NewBoards(t, bs), ts, k, Last(t, bs)))
    ensures CanReach(s0, With(m, NewBoards(t, bs), ts, k, t')) && Quiet(t') && t'.result == 0
  {
    var n, t3, bs' := |bs|, Last(t, bs), NewBoards(t, bs);
    var news := seq(n, i requires 0 <= i < n => Goodbye(t, bs[i]));
    assert t3.marked == Marked(n, 0);
    forall i | 0 <= i < n ensures TakesLeave(t3, t3.links[i], bs'[i], news[i], bs'[i]) {
      LastLeave(t3, bs[i], bs'[i]);
    }
    PhaseDone(s0, m, bs', ts, k, t3, n, news, bs');
    t' := Through(t3, n, n, Returned, news, Closed);
    MixedEnds(t3.links, news);
  }

  /** From any state in which call `k` has not started and all its peers can carry it out, whatever the other calls are
      doing, there are steps that lead to its return with 0: the master has stored its line, all peers have stored what
      they made of it, and the other calls are as they were. */
  lemma CanSucceed(s0: System, s: System, n: nat, k: nat) returns (s': System)
    requires CanReach(s0, s) && k < |s.txns| && n == |s.boards| && AllAble(s.txns[k], s.boards)
    ensures CanReach(s0, s') && |s'.txns| == |s.txns| && |s'.boards| == n
    ensures Quiet(s'.txns[k]) && s'.txns[k].result == 0
    ensures forall q :: 0 <= q < |s.txns| && q != k ==> s'.txns[q] == s.txns[q]
    ensures s'.master == MasterPut(s.master, s.txns[k])
    ensures forall i :: 0 <= i < n ==>
              var t := s.txns[k]; s'.boards[i] == Put(s.boards[i], t.id, t.first.user, t.second.message)
  {
    var t, ts := s.txns[k], s.txns;
    assert ts[k := t] == ts && With(s.master, s.boards, ts, k, t) == s;
    PrecommitsAll(s0, s.master, s.boards, ts, k, t);
    CommitsAll(s0, s.master, s.boards, ts, k, t);
    var t' := LeavesAll(s0, MasterPut(s.master, t), s.boards, ts, k, t);
    s' := With(MasterPut(s.master, t), NewBoards(t, s.boards), ts, k, t');
  }

  /** A step of one call never keeps another call from taking a step. */
  lemma NoInterference(s: System, a: Action, b: Action)
    requires Enabled(s, a) && Enabled(s, b) && a.t != b.t
    ensures Enabled(Next(s, a), b)
  {
  }

  lemma {:induction false} FirstCalls(s0: System, p: nat) returns (s: System)
    requires p <= |s0.txns| && DistinctIds(s0.txns)
    requires forall k :: 0 <= k < |s0.txns| ==> AllAble(s0.txns[k], s0.boards)
    ensures CanReach(s0, s) && |s.txns| == |s0.txns| && |s.boards| == |s0.boards|
    ensures forall k :: 0 <= k < p ==> Quiet(s.txns[k]) && s.txns[k].result == 0
    ensures forall k :: p <= k < |s.txns| ==> s.txns[k] == s0.txns[k] && AllAble(s.txns[k], s.boards)
    decreases p
  {
    if p == 0 {
      Stay(s0);
      s := s0;
    } else {
      var s1 := FirstCalls(s0, p - 1);
      s := CanSucceed(s0, s1, |s1.boards|, p - 1);
      forall k | p <= k < |s.txns| ensures AllAble(s.txns[k], s.boards) {
        assert s0.txns[k].id != s0.txns[p - 1].id;
      }
    }
  }

  /** Any number of calls on distinct numbers that all peers can carry out, with any number of peers, can all return
      0. */
  lemma AllCallsSucceed(m: Board, bs: seq<Board>, ts: seq<Txn>) returns (s: System)
    requires forall k :: 0 <= k < |ts| ==> AllAble(ts[k], bs) && (ts[k].kind.ReplaceRun? ==> ts[k].id in m)
    requires forall j, k :: 0 <= j < k < |ts| ==> ts[j].id != ts[k].id
    ensures Reachable(System(m, bs, ts), s, |bs|) && |s.txns| == |ts|
    ensures forall k :: 0 <= k < |ts| ==> Quiet(s.txns[k]) && s.txns[k].result == 0
  {
    s := FirstCalls(System(m, bs, ts), |ts|);
  }
}
