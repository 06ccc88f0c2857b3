/** Why a call of the replication protocol fails: it never does without a reason. */
module TwoPhaseReasons {
  import opened Common
  import opened BulletinLines
  import opened PeerProtocol
  import opened Counting
  import opened TwoPhase
  import opened TwoPhaseInvariant
  import opened TwoPhaseTheorems

  predicate SomeDeclined(t: Txn) {
    exists i :: 0 <= i < |t.links| && Declined(t.links[i])
  }

  predicate SomeDenied(t: Txn) {
    exists i :: 0 <= i < |t.links| && Denied(t.links[i])
  }

  /** A call that gives up before its commit has no yes of some peer; one that takes its commit back has no yes of some
      peer, or its own store has failed, and then all peers had said yes. */
  predicate Because(t: Txn) {
    && (t.phase.SendQuit? && t.result == -1 ==> SomeDeclined(t))
    && (t.phase.SendPrecommit? && t.pc.Returned? ==> SomeDeclined(t))
    && (t.phase.SendDel? ==> t.failed || SomeDenied(t))
    && (t.failed ==> t.phase.SendDel? && !SomeDenied(t))
  }

  /** The phase goes on and the conversations with it. */
  predicate GoesOn(t: Txn, t': Txn) {
    && t'.phase == t.phase && t'.result == t.result && t'.failed == t.failed
    && (t'.pc.Returned? && t.phase.SendPrecommit? ==> t.pc.Returned?)
    && |t'.links| == |t.links|
    && (forall i :: 0 <= i < |t.links| ==>
          && (t.phase.SendQuit? || t.pc.Returned? ==> (Declined(t.links[i]) ==> Declined(t'.links[i])))
          && (t.phase.SendDel? ==> (Denied(t.links[i]) <==> Denied(t'.links[i]))))
  }

  lemma GoesOnBecause(t: Txn, t': Txn)
    requires Because(t) && GoesOn(t, t')
    ensures Because(t')
  {
    if SomeDeclined(t) {
      var i :| 0 <= i < |t.links| && Declined(t.links[i]);
      if t.phase.SendQuit? || t.pc.Returned? { assert Declined(t'.links[i]); }
    }
    if SomeDenied(t) {
      var i :| 0 <= i < |t.links| && Denied(t.links[i]);
      if t.phase.SendDel? { assert Denied(t'.links[i]); }
    }
    if SomeDenied(t') {
      var i :| 0 <= i < |t'.links| && Denied(t'.links[i]);
      if t.phase.SendDel? { assert Denied(t.links[i]); }
    }
  }

  /** Someone has voted against. */
  lemma SomeAgainst(t: Txn, n: nat) returns (i: nat)
    requires RunOk(t, n) && t.pos + t.neg == n && t.pos < n
    ensures i < n && t.work[i].Voted? && t.work[i].vote != VotePositive
  {
    VotesBound(t, n);
    CountAll(t.work, IsFor);
    i :| 0 <= i < n && !IsFor(t.work[i]);
  }

  lemma AllFor(t: Txn, n: nat)
    requires RunOk(t, n) && t.pos == n && t.phase.SendCommit?
    ensures !SomeDenied(t)
  {
    VotesBound(t, n);
    forall i | 0 <= i < n ensures !Denied(t.links[i]) {
      assert LinkOk(t, t.work[i], t.links[i], t.dontReissue[i]);
      assert t.work[i] == Voted(VotePositive);
    }
  }

  lemma DecideBecause(t: Txn, n: nat)
    requires RunOk(t, n) && Because(t) && CanDecide(t)
    ensures Because(DoDecide(t))
  {
    if t.pos < n {
      var i := SomeAgainst(t, n);
      assert LinkOk(t, t.work[i], t.links[i], t.dontReissue[i]);
      assert DoDecide(t).links == t.links;
    }
  }

  lemma LocalBecause(t: Txn, n: nat, ok: bool)
    requires RunOk(t, n) && Because(t) && t.pc.Local?
    ensures Because(DoLocal(t, ok))
  {
    AllFor(t, n);
    assert DoLocal(t, ok).links == t.links;
  }

  lemma VoteBecause(t: Txn, n: nat, j: nat, got: bool)
    requires RunOk(t, n) && Because(t) && CanVote(t, j, got)
    ensures Because(DoVote(t, j, got))
  {
    assert JobOk(t.phase, t.work, j, t.jobs[j]);
    VotesBound(t, n);
    GoesOnBecause(t, DoVote(t, j, got));
  }

  lemma SendBecause(t: Txn, n: nat, j: nat)
    requires RunOk(t, n) && Because(t) && CanSend(t, j)
    ensures Because(DoSend(t, j))
  {
    GoesOnBecause(t, DoSend(t, j));
  }

  lemma HandleBecause(t: Txn, n: nat, i: nat, b: Board, fault: Fault)
    requires RunOk(t, n) && Because(t) && i < n && CanFinish(t.links[i], fault)
    ensures Because(t.(links := t.links[i := DoHandle(t.links[i], b, fault)]))
  {
    assert LinkOk(t, t.work[i], t.links[i], t.dontReissue[i]);
    GoesOnBecause(t, t.(links := t.links[i := DoHandle(t.links[i], b, fault)]));
  }

  lemma BecauseStep(s: System, s0: System, n: nat, a: Action, k: nat)
    requires Inv(s, s0, n) && Enabled(s, a) && k < |s.txns| && Because(s.txns[k])
    ensures Because(Next(s, a).txns[k])
  {
    if a.t == k {
      var t := s.txns[k];
      assert RunOk(t, n);
      match a
      case Push(_) => GoesOnBecause(t, DoPush(t));
      case EndPush(_) => GoesOnBecause(t, DoEndPush(t));
      case Decide(_) => DecideBecause(t, n);
      case RunLocal(_, ok) => LocalBecause(t, n, ok);
      case Claim(_, j) => GoesOnBecause(t, DoClaim(t, j));
      case Send(_, j) => SendBecause(t, n, j);
      case CastVote(_, j, got) => VoteBecause(t, n, j, got);
      case Handle(_, i, fault) => HandleBecause(t, n, i, s.boards[i], fault);
    }
  }

  lemma {:induction false} BecauseReaches(s: System, s0: System, n: nat, actions: seq<Action>, s': System, k: nat)
    requires Inv(s, s0, n) && Reaches(s, actions, s') && k < |s.txns| && Because(s.txns[k])
    ensures k < |s'.txns| && Because(s'.txns[k])
    decreases |actions|
  {
    if |actions| > 0 {
      InvStep(s, s0, n, actions[0]);
      BecauseStep(s, s0, n, actions[0], k);
      BecauseReaches(Next(s, actions[0]), s0, n, actions[1..], s', k);
    }
  }

  lemma ReachableBecause(s0: System, s: System, n: nat, k: nat)
    requires Reachable(s0, s, n) && k < |s.txns|
    ensures Because(s.txns[k]) && Inv(s, s0, n)
  {
    var actions :| Reaches(s0, actions, s);
    InvInitial(s0, n);
    InvReaches(s0, s0, n, actions, s);
    assert Unstarted(s0.txns[k], n);
    BecauseReaches(s0, s0, n, actions, s, k);
  }

  /** A call that is over and has sent no commit has no yes to its precommit from some peer: the peer said no, or its
      answer was not read in time. */
  lemma NoCommitWithoutReason(s0: System, s: System, n: nat, k: nat)
    requires Reachable(s0, s, n) && k < |s.txns| && Over(s.txns[k]) && n > 0
    requires forall i :: 0 <= i < |s.txns[k].links| ==> !CommitSent(s.txns[k], s.txns[k].links[i])
    ensures |s.txns[k].links| == n && s.txns[k].result == -1
    ensures exists i :: 0 <= i < n && var l := s.txns[k].links[i];
              l.taken == 0 || (|l.replies| > 0 && l.replies[0] != Positive)
  {
    ReachableBecause(s0, s, n, k);
    var t := s.txns[k];
    assert RunOk(t, n);
    OverWork(t, n);
    assert LinkOk(t, t.work[0], t.links[0], t.dontReissue[0]);
    assert !CommitSent(t, t.links[0]);
    assert SomeDeclined(t);
    var i :| 0 <= i < |t.links| && Declined(t.links[i]);
  }

  /** A call that is over with -1 after its commit has no yes to it from some peer, or its own store has failed; if that
      is why, all peers had said yes. */
  lemma NoAbortWithoutReason(s0: System, s: System, n: nat, k: nat)
    requires Reachable(s0, s, n) && k < |s.txns| && Over(s.txns[k]) && s.txns[k].result == -1
    requires forall i :: 0 <= i < |s.txns[k].links| ==> CommitSent(s.txns[k], s.txns[k].links[i])
    ensures |s.txns[k].links| == n
    ensures var t := s.txns[k];
            !t.failed <==> exists i :: 0 <= i < n && var l := t.links[i];
                             l.taken != 2 || (|l.replies| > 1 && l.replies[1] != Positive)
  {
    ReachableBecause(s0, s, n, k);
    var t := s.txns[k];
    assert RunOk(t, n);
    OverWork(t, n);
    if n > 0 {
      assert LinkOk(t, t.work[0], t.links[0], t.dontReissue[0]);
      assert CommitSent(t, t.links[0]);
    }
    if SomeDenied(t) {
      var i :| 0 <= i < |t.links| && Denied(t.links[i]);
    }
  }
}
