/**
 The invariant of the replication protocol.  Three layers: the bookkeeping of the sender jobs in one phase, the
 conversation with one peer, and what the message number of a run shows at that peer.
 */
module TwoPhaseInvariant {
  import opened Common
  import opened LineCodec
  import opened BulletinLines
  import opened PeerProtocol
  import opened Counting
  import opened Wire
  import opened TwoPhase

  predicate IsReady(j: Job) { j.state.Ready? }
  predicate IsTaken(w: Work) { !w.Unclaimed? }
  predicate IsFor(w: Work) { w == Voted(VotePositive) }
  predicate IsAgainst(w: Work) { w.Voted? && !w.vote.VotePositive? }
  predicate HasVoted(w: Work) { w.Voted? }

  // ---- layer one: claims and votes

  predicate JobOk(phase: JobKind, work: seq<Work>, j: nat, job: Job) {
    match job.state
    case Ready => job.kind == phase
    case Claimed(i) => job.kind == phase && i < |work| && work[i] == ClaimedBy(j)
    case Sent(i) => job.kind == phase && Voting(phase) && i < |work| && work[i] == SentBy(j)
    case Finished => true
  }

  predicate WorkOk(phase: JobKind, jobs: seq<Job>, i: nat, w: Work) {
    match w
    case Unclaimed => true
    case ClaimedBy(j) => j < |jobs| && jobs[j].state == Claimed(i)
    case SentBy(j) => Voting(phase) && j < |jobs| && jobs[j].state == Sent(i)
    case Voted(_) => Voting(phase)
    case Closed => !Voting(phase)
  }

  /** Jobs and peers point at each other, so two jobs never hold the same peer. */
  ghost predicate Linked(phase: JobKind, jobs: seq<Job>, work: seq<Work>) {
    && (forall j :: 0 <= j < |jobs| ==> JobOk(phase, work, j, jobs[j]))
    && (forall i :: 0 <= i < |work| ==> WorkOk(phase, jobs, i, work[i]))
  }

  /** The marked peers are the claimed ones and form a prefix. */
  ghost predicate Marks(marked: seq<bool>, work: seq<Work>) {
    && |marked| == |work|
    && (forall i :: 0 <= i < |work| ==> (marked[i] <==> IsTaken(work[i])))
    && (forall i, k :: 0 <= i < k < |work| && marked[k] ==> marked[i])
  }

  /** Every job of the phase is still ready or has claimed a peer; the counters count the votes. */
  ghost predicate Counts(t: Txn) {
    && Count(t.jobs, IsReady) + Count(t.work, IsTaken) == t.pushed
    && t.pos == Count(t.work, IsFor)
    && t.neg == Count(t.work, IsAgainst)
  }

  ghost predicate PhaseOk(t: Txn, n: nat) {
    && |t.marked| == |t.dontReissue| == |t.work| == |t.links| == n
    && t.pushed <= n && Linked(t.phase, t.jobs, t.work) && Marks(t.marked, t.work) && Counts(t)
  }

  /** Where the coordinator is. */
  ghost predicate PcOk(t: Txn, n: nat) {
    && (t.pc.Wait? ==> Voting(t.phase) && t.pushed == n && (t.pc.woken ==> t.pos + t.neg == n))
    && (t.pc.Local? ==> t.phase.SendCommit? && t.pos == n && t.neg == 0)
    && (t.pc.Returned? ==> t.pushed == n && !t.phase.SendCommit?)
    && (t.pc.Returned? && t.phase.SendPrecommit? ==> t.kind.ReplaceRun? && t.pos + t.neg == n)
    && (t.result == 0 ==> t.phase.SendQuit?)
    && (t.phase.SendQuit? && t.result == -1 ==> t.kind.WriteRun?)
    && (t.result == 0 || t.result == -1)
  }

  // ---- layer two: the conversation with one peer

  /** Everything a run ever sends to one peer. */
  predicate LogOk(t: Txn, log: seq<Msg>) {
    && |log| <= 3
    && (|log| >= 1 ==> log[0] == t.first)
    && (|log| >= 2 ==> log[1] == t.second || (log[1] == Quit && |log| == 2))
    && (|log| == 3 ==> log[2] == Abort || log[2] == Quit)
  }

  /** The master has no yes of the peer to the precommit, or to the commit. */
  predicate Declined(l: Link) {
    l.taken == 0 || (|l.replies| > 0 && l.replies[0] != Positive)
  }

  predicate Denied(l: Link) {
    l.taken != 2 || (|l.replies| > 1 && l.replies[1] != Positive)
  }

  /** How far the conversation is in each phase. */
  predicate LinkOk(t: Txn, w: Work, l: Link, dont: bool) {
    && LogOk(t, l.log)
    && var idle := w.Unclaimed? || w.ClaimedBy?;
    match t.phase
    case SendPrecommit =>
      && !dont && |l.log| == (if idle then 0 else 1)
      && (w.Voted? || l.taken == 0)
      && (w == Voted(VotePositive) ==> l.taken == 1 && |l.replies| >= 1 && l.replies[0] == Positive)
      && (w.Voted? && w.vote != VotePositive ==> Declined(l))
    case SendCommit =>
      && l.taken >= 1 && |l.replies| >= 1 && l.replies[0] == Positive
      && |l.log| == (if idle then 1 else 2) && (|l.log| == 2 ==> l.log[1] == t.second)
      && (w.Voted? || l.taken == 1)
      && (l.taken == 2 ==> |l.replies| == 2)
      && (dont <==> w == Voted(VoteExists))
      && (dont <==> l.taken == 2 && l.replies[1] == NegativeExists)
      && (w == Voted(VotePositive) ==> l.taken == 2 && |l.replies| == 2 && l.replies[1] == Positive)
      && (w.Voted? && w.vote != VotePositive ==> Denied(l))
    case SendDel =>
      && l.taken >= 1 && |l.replies| >= 1 && l.replies[0] == Positive
      && |l.log| == (if idle || dont then 2 else 3) && l.log[1] == t.second && (|l.log| == 3 ==> l.log[2] == Abort)
      && (l.taken == 2 ==> |l.replies| == 2)
      && (dont <==> l.taken == 2 && l.replies[1] == NegativeExists)
    case SendQuit =>
      && !dont
      && if t.result == 0 then
           && |l.log| == (if idle then 2 else 3) && l.log[1] == t.second && (|l.log| == 3 ==> l.log[2] == Quit)
           && l.taken == 2 && |l.replies| == 2 && l.replies[0] == l.replies[1] == Positive
         else
           |l.log| == (if idle then 1 else 2) && (|l.log| == 2 ==> l.log[1] == Quit)
  }

  // ---- layer three: what the number of the run shows at the peer

  function UndoOf(t: Txn, before: Slot): Undo {
    if t.kind.WriteRun? then UndoWrite(t.id)
    else if before.Some? then UndoReplace(t.id, Keep(before.value, NO_TEXTS))
    else NoUndo
  }

  /** The commit of the run can succeed where the number shows `before`. */
  predicate Applicable(t: Txn, before: Slot) {
    before.Some? <==> t.kind.ReplaceRun?
  }

  /** The peer has answered the commit positively. */
  predicate Accepted(l: Link) {
    |l.replies| == 2 && l.replies[1] == Positive
  }

  /** The peer has handled an abort. */
  predicate Aborted(l: Link) {
    l.next == 3 && |l.log| == 3 && l.log[2] == Abort
  }

  /** What the undo of the run leaves at a number that showed `before`. */
  function Back(t: Txn, before: Slot): Slot {
    if t.kind.WriteRun? || before.None? then None
    else
      var e := Keep(before.value, NO_TEXTS);
      Some(Reading(e.user, e.message))
  }

  /** What the number of the run shows at the peer. */
  function CellOf(t: Txn, l: Link, before: Slot): Slot {
    if !Accepted(l) then before
    else if Aborted(l) && !l.stuck then Back(t, before)
    else if l.missed then before
    else Some(PeerEntry(t))
  }

  /** The session at the peer as a function of how many requests it has handled. */
  predicate SessionOk(t: Txn, l: Link, now: Slot, before: Slot) {
    && l.next <= |l.log|
    && now == CellOf(t, l, before)
    && (l.next == 0 ==> l.session == FRESH && l.replies == [])
    && (l.next >= 1 ==> |l.replies| >= 1 && l.replies[0] == if t.first.Precommit? then Positive else Negative)
    && (l.next >= 1 && t.first.Precommit? ==> l.session.user == t.first.user)
    && (l.next == 1 ==> l.session.open == t.first.Precommit?)
    && (l.next >= 2 ==> t.first.Precommit?)
    && (l.next >= 2 && l.log[1] == t.second ==> |l.replies| == 2)
    && !(l.next < 2 && |l.replies| > 1) && |l.replies| <= 2
    && (Accepted(l) ==> l.next >= 2 && l.log[1] == t.second && IsCommit(t.second) && Applicable(t, before))
    && l.session.undo == (if Accepted(l) then UndoOf(t, before) else NoUndo)
    && (!Accepted(l) ==> l.session.kept == NO_TEXTS)
    && (Accepted(l) && l.next == 2 ==> l.session.open)
    && (l.next == 3 ==> !l.session.open)
    && (l.missed ==> Accepted(l) && t.kind.ReplaceRun?)
    && (l.stuck ==> Accepted(l) && Aborted(l))
  }

  ghost predicate LinksOk(t: Txn, n: nat) {
    && |t.dontReissue| == |t.work| == |t.links| == n
    && forall i :: 0 <= i < n ==> LinkOk(t, t.work[i], t.links[i], t.dontReissue[i])
  }

  ghost predicate RunOk(t: Txn, n: nat) {
    Addressed(t) && PhaseOk(t, n) && PcOk(t, n) && LinksOk(t, n)
  }

  predicate DistinctIds(txns: seq<Txn>) {
    forall j, k :: 0 <= j < k < |txns| ==> txns[j].id != txns[k].id
  }

  /** The run itself does not change, only its progress. */
  predicate SameRun(t: Txn, t': Txn) {
    && t.kind == t'.kind && t.id == t'.id && t.user == t'.user && t.message == t'.message
    && t.first == t'.first && t.second == t'.second
  }

  predicate Owned(s: System, id: string) {
    exists k :: 0 <= k < |s.txns| && s.txns[k].id == id
  }

  ghost predicate PeerCellOk(s: System, s0: System, k: nat, i: nat)
    requires k < |s.txns| && i < |s.boards| && i < |s0.boards| && i < |s.txns[k].links|
  {
    var t, before := s.txns[k], Cell(s0.boards[i], s.txns[k].id);
    SessionOk(t, t.links[i], Cell(s.boards[i], t.id), before)
  }

  /** What the master shows once it has stored the line. */
  function MasterCell(t: Txn, before: Slot): Slot {
    if t.kind.WriteRun? && before.Some? then before else Some(EntryFor(t))
  }

  ghost predicate MasterCellOk(s: System, s0: System, k: nat)
    requires k < |s.txns|
  {
    var t := s.txns[k];
    Cell(s.master, t.id) == if t.result == 0 then MasterCell(t, Cell(s0.master, t.id)) else Cell(s0.master, t.id)
  }

  /** Numbers that no run works on show everywhere what they showed at the start. */
  ghost predicate UntouchedOk(s: System, s0: System, id: string)
    requires |s.boards| == |s0.boards|
  {
    !Owned(s0, id) ==>
      && Cell(s.master, id) == Cell(s0.master, id)
      && forall i :: 0 <= i < |s.boards| ==> Cell(s.boards[i], id) == Cell(s0.boards[i], id)
  }

  /** The invariant of a state `s` of a system that started as `s0` with `n` peers. */
  ghost predicate Inv(s: System, s0: System, n: nat) {
    && |s.boards| == |s0.boards| == n && |s.txns| == |s0.txns| && DistinctIds(s0.txns)
    && (forall k :: 0 <= k < |s.txns| ==> SameRun(s.txns[k], s0.txns[k]) && RunOk(s.txns[k], n))
    && (forall k, i :: 0 <= k < |s.txns| && 0 <= i < n ==> PeerCellOk(s, s0, k, i))
    && (forall k :: 0 <= k < |s.txns| ==> MasterCellOk(s, s0, k))
    && (forall id :: UntouchedOk(s, s0, id))
  }

  // ---- steps inside one run

  /** A step of the master leaves what the peer has done alone and may send it another request. */
  predicate Talks(l: Link, l': Link) {
    && l.log <= l'.log && l'.next == l.next && l'.replies == l.replies && l'.session == l.session
    && l'.missed == l.missed && l'.stuck == l.stuck
  }

  predicate AllTalk(ls: seq<Link>, ls': seq<Link>) {
    |ls| == |ls'| && forall i :: 0 <= i < |ls| ==> Talks(ls[i], ls'[i])
  }

  ghost predicate RunStep(t: Txn, t': Txn, n: nat) {
    RunOk(t', n) && SameRun(t', t) && AllTalk(t.links, t'.links)
  }

  lemma PushKeeps(t: Txn, n: nat)
    requires RunOk(t, n) && CanPush(t)
    ensures RunStep(t, DoPush(t), n)
  {
    CountAppend(t.jobs, Job(t.phase, Ready), IsReady);
  }

  /** A ready job always finds an unmarked peer. */
  lemma ReadyFinds(t: Txn, n: nat, j: nat)
    requires PhaseOk(t, n) && CanClaim(t, j)
    ensures FirstUnmarked(t.marked) < n
  {
    CountNone(t.jobs, IsReady);
    CountAll(t.work, IsTaken);
  }

  /** A job and its peer move on together. */
  lemma LinkedMove(phase: JobKind, jobs: seq<Job>, work: seq<Work>, j: nat, i: nat, st: JobState, w: Work)
    requires Linked(phase, jobs, work) && j < |jobs| && i < |work|
    requires (jobs[j].state == Ready && work[i] == Unclaimed) || jobs[j].state == Claimed(i) || jobs[j].state == Sent(i)
    requires || (st == Claimed(i) && w == ClaimedBy(j))
             || (st == Sent(i) && w == SentBy(j) && Voting(phase))
             || (st == Finished && w.Voted? && Voting(phase))
             || (st == Finished && w.Closed? && !Voting(phase))
    ensures Linked(phase, jobs[j := Job(jobs[j].kind, st)], work[i := w])
  {
  }

  lemma CountsMove(t: Txn, j: nat, i: nat, job: Job, w: Work)
    requires j < |t.jobs| && i < |t.work|
    ensures Count(t.jobs[j := job], IsReady)
         == Count(t.jobs, IsReady) - (if IsReady(t.jobs[j]) then 1 else 0) + if IsReady(job) then 1 else 0
    ensures Count(t.work[i := w], IsTaken)
         == Count(t.work, IsTaken) - (if IsTaken(t.work[i]) then 1 else 0) + if IsTaken(w) then 1 else 0
    ensures Count(t.work[i := w], IsFor)
         == Count(t.work, IsFor) - (if IsFor(t.work[i]) then 1 else 0) + if IsFor(w) then 1 else 0
    ensures Count(t.work[i := w], IsAgainst)
         == Count(t.work, IsAgainst) - (if IsAgainst(t.work[i]) then 1 else 0) + if IsAgainst(w) then 1 else 0
  {
    CountUpdate(t.jobs, j, job, IsReady);
    CountUpdate(t.work, i, w, IsTaken);
    CountUpdate(t.work, i, w, IsFor);
    CountUpdate(t.work, i, w, IsAgainst);
  }

  /** A step inside a phase that concerns one peer. */
  lemma LinksMove(t: Txn, t': Txn, n: nat, i: nat)
    requires LinksOk(t, n) && i < n && SameRun(t', t) && t'.phase == t.phase && t'.result == t.result
    requires |t'.work| == |t'.links| == |t'.dontReissue| == n
    requires t'.work == t.work[i := t'.work[i]] && t'.links == t.links[i := t'.links[i]]
    requires t'.dontReissue == t.dontReissue[i := t'.dontReissue[i]]
    requires LinkOk(t', t'.work[i], t'.links[i], t'.dontReissue[i]) && Talks(t.links[i], t'.links[i])
    ensures LinksOk(t', n) && AllTalk(t.links, t'.links)
  {
    forall q | 0 <= q < n ensures LinkOk(t', t'.work[q], t'.links[q], t'.dontReissue[q]) {
      assert LinkOk(t, t.work[q], t.links[q], t.dontReissue[q]);
    }
  }

  lemma ClaimPhase(t: Txn, n: nat, j: nat)
    requires PhaseOk(t, n) && CanClaim(t, j)
    ensures PhaseOk(DoClaim(t, j), n)
  {
    ReadyFinds(t, n, j);
    var i := FirstUnmarked(t.marked);
    assert JobOk(t.phase, t.work, j, t.jobs[j]);
    LinkedMove(t.phase, t.jobs, t.work, j, i, Claimed(i), ClaimedBy(j));
    CountsMove(t, j, i, Job(t.jobs[j].kind, Claimed(i)), ClaimedBy(j));
  }

  lemma ClaimKeeps(t: Txn, n: nat, j: nat)
    requires RunOk(t, n) && CanClaim(t, j)
    ensures RunStep(t, DoClaim(t, j), n)
  {
    ClaimPhase(t, n, j);
    ReadyFinds(t, n, j);
    var i, t' := FirstUnmarked(t.marked), DoClaim(t, j);
    assert LinkOk(t, t.work[i], t.links[i], t.dontReissue[i]);
    LinksMove(t, t', n, i);
  }

  lemma SendPhase(t: Txn, n: nat, j: nat)
    requires PhaseOk(t, n) && CanSend(t, j)
    ensures PhaseOk(DoSend(t, j), n)
  {
    var i, t' := t.jobs[j].state.peer, DoSend(t, j);
    assert JobOk(t.phase, t.work, j, t.jobs[j]);
    LinkedMove(t.phase, t.jobs, t.work, j, i, t'.jobs[j].state, t'.work[i]);
    CountsMove(t, j, i, t'.jobs[j], t'.work[i]);
  }

  lemma SendLink(t: Txn, n: nat, j: nat)
    requires RunOk(t, n) && CanSend(t, j)
    ensures var i, t' := t.jobs[j].state.peer, DoSend(t, j);
            && i < n && |t'.work| == |t'.links| == |t'.dontReissue| == n
            && LinkOk(t', t'.work[i], t'.links[i], t'.dontReissue[i]) && Talks(t.links[i], t'.links[i])
  {
    var i := t.jobs[j].state.peer;
    assert JobOk(t.phase, t.work, j, t.jobs[j]);
    assert LinkOk(t, t.work[i], t.links[i], t.dontReissue[i]);
  }

  lemma SendKeeps(t: Txn, n: nat, j: nat)
    requires RunOk(t, n) && CanSend(t, j)
    ensures RunStep(t, DoSend(t, j), n)
  {
    SendPhase(t, n, j);
    SendLink(t, n, j);
    var i, t' := t.jobs[j].state.peer, DoSend(t, j);
    assert JobOk(t.phase, t.work, j, t.jobs[j]);
    LinksMove(t, t', n, i);
  }

  /** The votes never exceed the claims; once there are `n` of them no job of the phase is left. */
  lemma VotesBound(t: Txn, n: nat)
    requires PhaseOk(t, n)
    ensures t.pos + t.neg <= Count(t.work, IsTaken) <= n
    ensures t.pos + t.neg == n ==> forall i :: 0 <= i < n ==> t.work[i].Voted?
    ensures t.pos + t.neg == n ==> forall j :: 0 <= j < |t.jobs| ==> t.jobs[j].state.Finished?
    ensures t.pos == n ==> forall i :: 0 <= i < n ==> t.work[i] == Voted(VotePositive)
  {
    CountDisjoint(t.work, IsFor, IsAgainst, IsTaken);
    CountDisjoint(t.work, IsFor, IsAgainst, HasVoted);
    CountAll(t.work, HasVoted);
    CountAll(t.work, IsFor);
    if t.pos + t.neg == n {
      CountNone(t.jobs, IsReady);
      forall j | 0 <= j < |t.jobs| ensures t.jobs[j].state.Finished? {
        assert JobOk(t.phase, t.work, j, t.jobs[j]);
        assert !IsReady(t.jobs[j]);
      }
    }
  }

  lemma VotePhase(t: Txn, n: nat, j: nat, got: bool)
    requires PhaseOk(t, n) && CanVote(t, j, got)
    ensures PhaseOk(DoVote(t, j, got), n)
  {
    var i, t' := t.jobs[j].state.peer, DoVote(t, j, got);
    assert JobOk(t.phase, t.work, j, t.jobs[j]);
    LinkedMove(t.phase, t.jobs, t.work, j, i, t'.jobs[j].state, t'.work[i]);
    CountsMove(t, j, i, t'.jobs[j], t'.work[i]);
  }

  lemma VotePc(t: Txn, n: nat, j: nat, got: bool)
    requires PhaseOk(t, n) && PcOk(t, n) && CanVote(t, j, got)
    ensures PcOk(DoVote(t, j, got), n)
  {
    VotePhase(t, n, j, got);
    VotesBound(t, n);
    VotesBound(DoVote(t, j, got), n);
    assert JobOk(t.phase, t.work, j, t.jobs[j]);
  }

  lemma VoteKeeps(t: Txn, n: nat, j: nat, got: bool, now: Slot, before: Slot)
    requires RunOk(t, n) && CanVote(t, j, got)
    requires SessionOk(t, t.links[t.jobs[j].state.peer], now, before)
    ensures RunStep(t, DoVote(t, j, got), n)
  {
    VotePhase(t, n, j, got);
    VotePc(t, n, j, got);
    var i, t' := t.jobs[j].state.peer, DoVote(t, j, got);
    assert JobOk(t.phase, t.work, j, t.jobs[j]);
    assert LinkOk(t, t.work[i], t.links[i], t.dontReissue[i]);
    LinksMove(t, t', n, i);
  }

  /** The coordinator moves and leaves everything else as it is. */
  lemma PcMove(t: Txn, pc: Pc, n: nat)
    requires RunOk(t, n)
    ensures PhaseOk(t.(pc := pc), n) && LinksOk(t.(pc := pc), n) && AllTalk(t.links, t.(pc := pc).links)
  {
    var t' := t.(pc := pc);
    forall i | 0 <= i < n ensures LinkOk(t', t'.work[i], t'.links[i], t'.dontReissue[i]) {
      assert LinkOk(t, t.work[i], t.links[i], t.dontReissue[i]);
    }
  }

  lemma EndPushKeeps(t: Txn, n: nat)
    requires RunOk(t, n) && CanEndPush(t)
    ensures RunStep(t, DoEndPush(t), n)
  {
    PcMove(t, DoEndPush(t).pc, n);
  }

  /** No job of a finished phase is left, so none can touch the counters of the next one. */
  lemma StartKeeps(t: Txn, n: nat, phase: JobKind, result: int)
    requires PhaseOk(t, n) && t.pos + t.neg == n
    ensures PhaseOk(StartPhase(t, phase, result), n)
  {
    VotesBound(t, n);
    var t' := StartPhase(t, phase, result);
    CountNone(t'.jobs, IsReady);
    CountNone(t'.work, IsTaken);
    CountNone(t'.work, IsFor);
    CountNone(t'.work, IsAgainst);
  }

  /** The phase changes there are. */
  predicate Follows(t: Txn, phase: JobKind, result: int) {
    match phase
    case SendPrecommit => false
    case SendCommit => t.phase.SendPrecommit? && t.pos == |t.links| && result == -1
    case SendDel => t.phase.SendCommit? && result == -1
    case SendQuit =>
      if result == 0 then t.phase.SendCommit? && t.pos == |t.links|
      else t.phase.SendPrecommit? && t.kind.WriteRun? && result == -1
  }

  lemma StartRun(t: Txn, n: nat, phase: JobKind, result: int)
    requires RunOk(t, n) && t.pos + t.neg == n && Follows(t, phase, result)
    ensures RunStep(t, StartPhase(t, phase, result), n)
  {
    var t' := StartPhase(t, phase, result);
    VotesBound(t, n);
    StartKeeps(t, n, phase, result);
    forall i | 0 <= i < n ensures LinkOk(t', t'.work[i], t'.links[i], t'.dontReissue[i]) {
      assert LinkOk(t, t.work[i], t.links[i], t.dontReissue[i]);
    }
  }

  lemma DecideKeeps(t: Txn, n: nat)
    requires RunOk(t, n) && CanDecide(t)
    ensures RunStep(t, DoDecide(t), n)
  {
    if t.phase.SendCommit? {
      if t.pos == n { PcMove(t, Local, n); } else { StartRun(t, n, SendDel, -1); }
    } else if t.pos == n {
      StartRun(t, n, SendCommit, -1);
    } else if t.kind.WriteRun? {
      StartRun(t, n, SendQuit, -1);
    } else {
      PcMove(t, Returned, n);
    }
  }

  lemma LocalKeeps(t: Txn, n: nat, ok: bool)
    requires RunOk(t, n) && t.pc.Local?
    ensures RunStep(t, DoLocal(t, ok), n)
  {
    if ok {
      StartRun(t, n, SendQuit, 0);
    } else {
      FailedKeeps(t, n);
      StartRun(t.(failed := true), n, SendDel, -1);
    }
  }

  lemma FailedKeeps(t: Txn, n: nat)
    requires RunOk(t, n)
    ensures RunOk(t.(failed := true), n)
  {
    var t' := t.(failed := true);
    forall i | 0 <= i < n ensures LinkOk(t', t'.work[i], t'.links[i], t'.dontReissue[i]) {
      assert LinkOk(t, t.work[i], t.links[i], t.dontReissue[i]);
    }
  }

  // ---- steps of a peer

  /** The ways a request changes a board. */
  lemma OneCell(b: Board, id: string, user: string, message: string)
    ensures SameElsewhere(b, b, id) && SameElsewhere(b, b - {id}, id) && SameElsewhere(b, Put(b, id, user, message), id)
    ensures Cell(b - {id}, id) == None && Cell(Put(b, id, user, message), id) == Some(Reading(user, message))
  {
    RemoveTwice(b, id);
    PutElsewhere(b, id, user, message);
  }

  ghost predicate HandleReady(t: Txn, l: Link, b: Board, before: Slot) {
    Addressed(t) && LogOk(t, l.log) && SessionOk(t, l, Cell(b, t.id), before) && CanHandle(l)
  }

  ghost predicate HandleDone(t: Txn, l: Link, b: Board, fault: Fault, before: Slot)
    requires CanFinish(l, fault)
  {
    && SessionOk(t, DoHandle(l, b, fault), Cell(Handled(l, b, fault).board, t.id), before)
    && l.replies <= DoHandle(l, b, fault).replies
    && SameElsewhere(b, Handled(l, b, fault).board, t.id)
  }

  lemma HandleFirst(t: Txn, l: Link, b: Board, fault: Fault, before: Slot)
    requires HandleReady(t, l, b, before) && CanFinish(l, fault) && l.next == 0
    ensures HandleDone(t, l, b, fault, before)
  {
    assert l.log[0] == t.first;
  }

  lemma HandleWrite(t: Txn, l: Link, b: Board, fault: Fault, before: Slot)
    requires HandleReady(t, l, b, before) && CanFinish(l, fault) && l.next == 1
    requires l.log[1] == t.second && t.second.CommitWrite?
    ensures HandleDone(t, l, b, fault, before)
  {
    OneCell(b, t.id, t.first.user, t.second.message);
  }

  lemma HandleReplace(t: Txn, l: Link, b: Board, fault: Fault, before: Slot)
    requires HandleReady(t, l, b, before) && CanFinish(l, fault) && l.next == 1
    requires l.log[1] == t.second && t.second.CommitReplace?
    ensures HandleDone(t, l, b, fault, before)
  {
    OneCell(b, t.id, t.first.user, t.second.message);
  }

  lemma HandleRefused(t: Txn, l: Link, b: Board, fault: Fault, before: Slot)
    requires HandleReady(t, l, b, before) && CanFinish(l, fault) && l.next == 1
    requires l.log[1] == t.second && t.second.Bad?
    ensures HandleDone(t, l, b, fault, before)
  {
  }

  lemma HandleQuit(t: Txn, l: Link, b: Board, fault: Fault, before: Slot)
    requires HandleReady(t, l, b, before) && CanFinish(l, fault) && l.next >= 1 && l.log[l.next] == Quit
    ensures HandleDone(t, l, b, fault, before)
  {
  }

  lemma HandleAbort(t: Txn, l: Link, b: Board, fault: Fault, before: Slot)
    requires HandleReady(t, l, b, before) && CanFinish(l, fault) && l.next == 2 && l.log[2] == Abort
    ensures HandleDone(t, l, b, fault, before)
  {
    assert l.session.undo == if Accepted(l) then UndoOf(t, before) else NoUndo;
    match l.session.undo
    case NoUndo =>
    case UndoWrite(id) => OneCell(b, t.id, "", "");
    case UndoReplace(id, e) => OneCell(b, t.id, e.user, e.message);
  }

  /** One request handled by the peer: the session stays as described, and the board changes at most at the number
      of the run. */
  lemma HandleKeeps(t: Txn, l: Link, b: Board, fault: Fault, before: Slot)
    requires HandleReady(t, l, b, before) && CanFinish(l, fault)
    ensures HandleDone(t, l, b, fault, before)
  {
    if l.next == 0 {
      HandleFirst(t, l, b, fault, before);
    } else if l.log[l.next] == Quit {
      HandleQuit(t, l, b, fault, before);
    } else if l.next == 2 {
      HandleAbort(t, l, b, fault, before);
    } else if t.second.Bad? {
      HandleRefused(t, l, b, fault, before);
    } else if t.second.CommitWrite? {
      HandleWrite(t, l, b, fault, before);
    } else {
      HandleReplace(t, l, b, fault, before);
    }
  }

  lemma HandleKeepsLinks(t: Txn, n: nat, i: nat, l: Link)
    requires RunOk(t, n) && i < n && l.log == t.links[i].log && l.taken == t.links[i].taken
    requires t.links[i].replies <= l.replies && |l.replies| <= 2
    ensures RunOk(t.(links := t.links[i := l]), n)
  {
    var t' := t.(links := t.links[i := l]);
    forall q | 0 <= q < n ensures LinkOk(t', t'.work[q], t'.links[q], t'.dontReissue[q]) {
      assert LinkOk(t, t.work[q], t.links[q], t.dontReissue[q]);
    }
  }

  /** What the master sends does not disturb the description of the session. */
  lemma TalkKeeps(t: Txn, t': Txn, l: Link, l': Link, now: Slot, before: Slot)
    requires SessionOk(t, l, now, before) && Talks(l, l') && SameRun(t', t) && LogOk(t, l.log) && LogOk(t', l'.log)
    ensures SessionOk(t', l', now, before)
  {
  }

  // ---- the whole system

  /** A step of the master leaves what is known about the peers as it is. */
  lemma PeersUndisturbed(s: System, s': System, s0: System, n: nat, k: nat, t': Txn)
    requires Inv(s, s0, n) && k < |s.txns| && RunStep(s.txns[k], t', n)
    requires s'.txns == s.txns[k := t'] && s'.boards == s.boards
    ensures forall q :: 0 <= q < |s'.txns| ==> |s'.txns[q].links| == n
    ensures forall q, i :: 0 <= q < |s'.txns| && 0 <= i < n ==> PeerCellOk(s', s0, q, i)
  {
    var t := s.txns[k];
    forall q, i | 0 <= q < |s'.txns| && 0 <= i < n ensures PeerCellOk(s', s0, q, i) {
      assert PeerCellOk(s, s0, q, i);
      if q == k {
        assert LinkOk(t, t.work[i], t.links[i], t.dontReissue[i]);
        assert LinkOk(t', t'.work[i], t'.links[i], t'.dontReissue[i]);
        TalkKeeps(t, t', t.links[i], t'.links[i], Cell(s.boards[i], t'.id), Cell(s0.boards[i], t'.id));
      }
    }
  }

  /** A step of the master that does not touch its board. */
  lemma MasterStep(s: System, s': System, s0: System, n: nat, k: nat, t': Txn)
    requires Inv(s, s0, n) && k < |s.txns| && RunStep(s.txns[k], t', n) && t'.result == s.txns[k].result
    requires s' == s.(txns := s.txns[k := t'])
    ensures Inv(s', s0, n)
  {
    PeersUndisturbed(s, s', s0, n, k, t');
    forall q | 0 <= q < |s'.txns| ensures MasterCellOk(s', s0, q) { assert MasterCellOk(s, s0, q); }
    forall id ensures UntouchedOk(s', s0, id) { assert UntouchedOk(s, s0, id); }
  }

  lemma IdsDiffer(s: System, s0: System, n: nat, q: nat, k: nat)
    requires Inv(s, s0, n) && q < |s.txns| && k < |s.txns| && q != k
    ensures s.txns[q].id != s.txns[k].id
  {
    assert SameRun(s.txns[q], s0.txns[q]) && SameRun(s.txns[k], s0.txns[k]);
  }

  lemma MasterPutIs(m: Board, t: Txn)
    ensures Cell(MasterPut(m, t), t.id) == MasterCell(t, Cell(m, t.id)) && SameElsewhere(m, MasterPut(m, t), t.id)
  {
    OneCell(m, t.id, t.user, t.message);
  }

  /** The master stores the new line of run `k`. */
  lemma MasterStores(s: System, s0: System, n: nat, k: nat, t': Txn)
    requires Inv(s, s0, n) && k < |s.txns| && RunStep(s.txns[k], t', n) && s.txns[k].result == -1 && t'.result == 0
    ensures Inv(s.(txns := s.txns[k := t'], master := MasterPut(s.master, t')), s0, n)
  {
    var s' := s.(txns := s.txns[k := t'], master := MasterPut(s.master, t'));
    MasterPutIs(s.master, t');
    PeersUndisturbed(s, s', s0, n, k, t');
    assert MasterCellOk(s, s0, k);
    forall q | 0 <= q < |s'.txns| ensures MasterCellOk(s', s0, q) {
      assert MasterCellOk(s, s0, q);
      if q != k {
        IdsDiffer(s, s0, n, q, k);
        SameCell(s.master, s'.master, t'.id, s.txns[q].id);
      }
    }
    forall id ensures UntouchedOk(s', s0, id) {
      assert UntouchedOk(s, s0, id);
      assert SameRun(s.txns[k], s0.txns[k]);
      if id == t'.id { assert Owned(s0, id); } else { SameCell(s.master, s'.master, t'.id, id); }
    }
  }

  lemma LocalStep(s: System, s0: System, n: nat, k: nat, ok: bool)
    requires Inv(s, s0, n) && Enabled(s, RunLocal(k, ok))
    ensures Inv(Next(s, RunLocal(k, ok)), s0, n)
  {
    LocalKeeps(s.txns[k], n, ok);
    if ok {
      MasterStores(s, s0, n, k, DoLocal(s.txns[k], ok));
    } else {
      MasterStep(s, Next(s, RunLocal(k, ok)), s0, n, k, DoLocal(s.txns[k], ok));
    }
  }

  predicate SameElsewhere(b: Board, b': Board, id: string) {
    b - {id} == b' - {id}
  }

  lemma SameCell(b: Board, b': Board, id: string, other: string)
    requires SameElsewhere(b, b', id) && other != id
    ensures Cell(b', other) == Cell(b, other)
  {
    assert other in b <==> other in b - {id};
    assert other in b' <==> other in b' - {id};
    assert other in b ==> b[other] == (b - {id})[other];
    assert other in b' ==> b'[other] == (b' - {id})[other];
  }

  function WithPeer(s: System, k: nat, i: nat, l: Link, b: Board): System
    requires k < |s.txns| && i < |s.boards| && i < |s.txns[k].links|
  {
    s.(txns := s.txns[k := s.txns[k].(links := s.txns[k].links[i := l])], boards := s.boards[i := b])
  }

  lemma PeerStepCell(s: System, s0: System, k: nat, i: nat, l: Link, b: Board, q: nat, p: nat)
    requires k < |s.txns| && i < |s.boards| == |s0.boards| && i < |s.txns[k].links|
    requires q < |s.txns| && p < |s.boards| && p < |s.txns[q].links| && PeerCellOk(s, s0, q, p)
    requires q != k ==> s.txns[q].id != s.txns[k].id
    requires SameElsewhere(s.boards[i], b, s.txns[k].id)
    requires SessionOk(s.txns[k], l, Cell(b, s.txns[k].id), Cell(s0.boards[i], s.txns[k].id))
    ensures PeerCellOk(WithPeer(s, k, i, l, b), s0, q, p)
  {
    if q != k && p == i {
      SameCell(s.boards[i], b, s.txns[k].id, s.txns[q].id);
    }
  }

  /** A change of one board at the number of run `k`, together with the matching link. */
  lemma PeerChange(s: System, s0: System, n: nat, k: nat, i: nat, l: Link, b: Board)
    requires Inv(s, s0, n) && k < |s.txns| && i < n && SameElsewhere(s.boards[i], b, s.txns[k].id)
    requires |s.txns[k].links| == n && RunOk(s.txns[k].(links := s.txns[k].links[i := l]), n)
    requires SessionOk(s.txns[k], l, Cell(b, s.txns[k].id), Cell(s0.boards[i], s.txns[k].id))
    ensures Inv(WithPeer(s, k, i, l, b), s0, n)
  {
    var s' := WithPeer(s, k, i, l, b);
    forall q, p | 0 <= q < |s'.txns| && 0 <= p < n ensures PeerCellOk(s', s0, q, p) {
      assert PeerCellOk(s, s0, q, p);
      if q != k { IdsDiffer(s, s0, n, q, k); }
      PeerStepCell(s, s0, k, i, l, b, q, p);
    }
    forall q | 0 <= q < |s'.txns| ensures MasterCellOk(s', s0, q) { assert MasterCellOk(s, s0, q); }
    forall id ensures UntouchedOk(s', s0, id) {
      assert UntouchedOk(s, s0, id);
      assert SameRun(s.txns[k], s0.txns[k]);
      if id == s.txns[k].id {
        assert Owned(s0, id);
      } else {
        SameCell(s.boards[i], b, s.txns[k].id, id);
      }
    }
  }

  lemma HandleStep(s: System, s0: System, n: nat, k: nat, i: nat, fault: Fault)
    requires Inv(s, s0, n) && Enabled(s, Action.Handle(k, i, fault))
    ensures Inv(Next(s, Action.Handle(k, i, fault)), s0, n)
  {
    var t := s.txns[k];
    var l, b := t.links[i], s.boards[i];
    assert PeerCellOk(s, s0, k, i);
    assert LinkOk(t, t.work[i], l, t.dontReissue[i]);
    HandleKeeps(t, l, b, fault, Cell(s0.boards[i], t.id));
    HandleKeepsLinks(t, n, i, DoHandle(l, b, fault));
    PeerChange(s, s0, n, k, i, DoHandle(l, b, fault), Handled(l, b, fault).board);
  }

  lemma VoteStep(s: System, s0: System, n: nat, k: nat, j: nat, got: bool)
    requires Inv(s, s0, n) && Enabled(s, CastVote(k, j, got))
    ensures Inv(Next(s, CastVote(k, j, got)), s0, n)
  {
    var t := s.txns[k];
    var i := t.jobs[j].state.peer;
    assert PeerCellOk(s, s0, k, i);
    VoteKeeps(t, n, j, got, Cell(s.boards[i], t.id), Cell(s0.boards[i], t.id));
    MasterStep(s, Next(s, CastVote(k, j, got)), s0, n, k, DoVote(t, j, got));
  }

  predicate OfCoordinator(a: Action) {
    a.Push? || a.EndPush? || a.Decide?
  }

  lemma CoordinatorStep(s: System, s0: System, n: nat, a: Action)
    requires Inv(s, s0, n) && Enabled(s, a) && OfCoordinator(a)
    ensures Inv(Next(s, a), s0, n)
  {
    var t := s.txns[a.t];
    match a
    case Push(k) => PushKeeps(t, n); MasterStep(s, Next(s, a), s0, n, k, DoPush(t));
    case EndPush(k) => EndPushKeeps(t, n); MasterStep(s, Next(s, a), s0, n, k, DoEndPush(t));
    case Decide(k) => DecideKeeps(t, n); MasterStep(s, Next(s, a), s0, n, k, DoDecide(t));
  }

  lemma JobStep(s: System, s0: System, n: nat, a: Action)
    requires Inv(s, s0, n) && Enabled(s, a) && (a.Claim? || a.Send?)
    ensures Inv(Next(s, a), s0, n)
  {
    var t := s.txns[a.t];
    match a
    case Claim(k, j) => ClaimKeeps(t, n, j); MasterStep(s, Next(s, a), s0, n, k, DoClaim(t, j));
    case Send(k, j) => SendKeeps(t, n, j); MasterStep(s, Next(s, a), s0, n, k, DoSend(t, j));
  }

  /** Every action of the system keeps the invariant. */
  lemma InvStep(s: System, s0: System, n: nat, a: Action)
    requires Inv(s, s0, n) && Enabled(s, a)
    ensures Inv(Next(s, a), s0, n)
  {
    match a
    case RunLocal(k, ok) => LocalStep(s, s0, n, k, ok);
    case CastVote(k, j, got) => VoteStep(s, s0, n, k, j, got);
    case Handle(k, i, fault) => HandleStep(s, s0, n, k, i, fault);
    case Claim(_, _) => JobStep(s, s0, n, a);
    case Send(_, _) => JobStep(s, s0, n, a);
    case _ => CoordinatorStep(s, s0, n, a);
  }

  lemma StartOk(t: Txn, n: nat)
    requires Addressed(t) && Unstarted(t, n)
    ensures RunOk(t, n) && forall i :: 0 <= i < n ==> t.links[i] == FRESH_LINK
  {
    CountNone(t.jobs, IsReady);
    CountNone(t.work, IsTaken);
    CountNone(t.work, IsFor);
    CountNone(t.work, IsAgainst);
  }

  lemma InvInitial(s: System, n: nat)
    requires Initial(s, n)
    ensures Inv(s, s, n)
  {
    forall k | 0 <= k < |s.txns| ensures RunOk(s.txns[k], n) && MasterCellOk(s, s, k) { StartOk(s.txns[k], n); }
    forall k, i | 0 <= k < |s.txns| && 0 <= i < n ensures PeerCellOk(s, s, k, i) { StartOk(s.txns[k], n); }
  }

  lemma {:induction false} InvReaches(s: System, s0: System, n: nat, actions: seq<Action>, s': System)
    requires Inv(s, s0, n) && Reaches(s, actions, s')
    ensures Inv(s', s0, n)
    decreases |actions|
  {
    if |actions| > 0 {
      InvStep(s, s0, n, actions[0]);
      InvReaches(Next(s, actions[0]), s0, n, actions[1..], s');
    }
  }
}
