/**
 The replication protocol as a transition system.  Any number of runs of `sync_write` and `sync_replace` go on
 at once, each with its own session on each of `n` peers.  Every step of a sender job under the mutex, every
 send, every vote, every step of the coordinator and every request a peer handles is one action; the actions of
 all runs interleave freely.  A step that never comes (a connection that fails, a wakeup that is missed) is an
 action that is never taken.
 */
module TwoPhase {
  import opened Common
  import opened LineCodec
  import opened BulletinLines
  import opened PeerProtocol
  import opened Wire

  datatype Kind = WriteRun | ReplaceRun

  /** The functions a sender job can run. */
  datatype JobKind = SendPrecommit | SendCommit | SendDel | SendQuit

  /** `Claimed` and `Sent` hold the job's local `mark`. */
  datatype JobState = Ready | Claimed(peer: nat) | Sent(peer: nat) | Finished

  datatype Job = Job(kind: JobKind, state: JobState)

  datatype Vote = VotePositive | VoteNegative | VoteExists

  /** How far the current phase has got with one peer. */
  datatype Work = Unclaimed | ClaimedBy(job: nat) | SentBy(job: nat) | Voted(vote: Vote) | Closed

  /** The connection to a peer: all requests sent so far and how many the peer has handled, all replies sent so far
      and how many the master has read, and the state of the session at the peer.  `missed` and `stuck` tell that the
      peer's replace and its undo failed without anybody noticing. */
  datatype Link = Link(log: seq<Msg>, next: nat, replies: seq<Reply>, taken: nat, session: Session,
                       missed: bool, stuck: bool)

  /** The coordinator hands out jobs, waits for the last vote, runs its own store operation, has returned. */
  datatype Pc = Spawn | Wait(woken: bool) | Local | Returned

  /** `failed` tells that the master's own store has failed; `first` and `second` are what a peer makes of the precommit
      and the commit. */
  datatype Txn = Txn(
    kind: Kind, id: string, user: string, message: string, first: Msg, second: Msg,
    pc: Pc, phase: JobKind, result: int, failed: bool,
    pushed: nat, jobs: seq<Job>,
    pos: nat, neg: nat, marked: seq<bool>, dontReissue: seq<bool>,
    work: seq<Work>, links: seq<Link>)

  datatype System = System(master: Board, boards: seq<Board>, txns: seq<Txn>)

  datatype Action =
    | Push(t: nat)
    | EndPush(t: nat)
    | Decide(t: nat)
    | RunLocal(t: nat, ok: bool)
    | Claim(t: nat, job: nat)
    | Send(t: nat, job: nat)
    | CastVote(t: nat, job: nat, got: bool)
    | Handle(t: nat, peer: nat, fault: Fault)

  const FRESH_LINK := Link([], 0, [], 0, FRESH, false, false)

  /** The line of the commit. */
  function CommitLine(kind: Kind, id: string, message: string): string {
    match kind
    case WriteRun => CommitWriteLine(id, message)
    case ReplaceRun => CommitReplaceLine(id, message)
  }

  /** What the master stores under the number of the run, as a reader gets it. */
  function EntryFor(t: Txn): Option<Entry> {
    Reading(t.user, t.message)
  }

  /** The master's board once the run has stored its line.  A write under a number that is there already appends a
      second line, and readers go on getting the first one. */
  function MasterPut(m: Board, t: Txn): Board {
    if t.kind.WriteRun? && t.id in m then m else Put(m, t.id, t.user, t.message)
  }

  /** What a peer stores. */
  function PeerEntry(t: Txn): Option<Entry> {
    if t.first.Precommit? && IsCommit(t.second) then Reading(t.first.user, t.second.message) else None
  }

  function FirstUnmarked(marked: seq<bool>): (i: nat)
    ensures i <= |marked|
    ensures i < |marked| ==> !marked[i]
    ensures forall k :: 0 <= k < i ==> marked[k]
  {
    if |marked| == 0 || !marked[0] then 0 else 1 + FirstUnmarked(marked[1..])
  }

  /** The three-way test behind the broadcast. */
  predicate LastVote(pos: nat, neg: nat, n: nat) {
    pos == n || neg == n || pos + neg == n
  }

  /** The guard in front of the coordinator's wait, as it is written. */
  predicate MustWait(pos: nat, neg: nat, n: nat) {
    pos != n || neg != n || pos + neg != n
  }

  /** The counters and marks as every phase starts with them. */
  function StartPhase(t: Txn, phase: JobKind, result: int): Txn {
    t.(pc := Spawn, phase := phase, result := result, pushed := 0, pos := 0, neg := 0,
       marked := seq(|t.marked|, _ => false), work := seq(|t.work|, _ => Unclaimed))
  }

  function NewTxn(kind: Kind, id: string, user: string, message: string, first: Msg, second: Msg, n: nat): Txn {
    Txn(kind, id, user, message, first, second, Spawn, SendPrecommit, -1, false, 0, [], 0, 0,
        seq(n, _ => false), seq(n, _ => false), seq(n, _ => Unclaimed), seq(n, _ => FRESH_LINK))
  }

  predicate Voting(phase: JobKind) {
    phase.SendPrecommit? || phase.SendCommit?
  }

  // ---- the coordinator

  predicate CanPush(t: Txn) {
    t.pc.Spawn? && t.pushed < |t.links|
  }

  function DoPush(t: Txn): Txn {
    t.(pushed := t.pushed + 1, jobs := t.jobs + [Job(t.phase, Ready)])
  }

  predicate CanEndPush(t: Txn) {
    t.pc.Spawn? && t.pushed == |t.links|
  }

  function DoEndPush(t: Txn): Txn {
    if Voting(t.phase) then t.(pc := Wait(!MustWait(t.pos, t.neg, |t.links|))) else t.(pc := Returned)
  }

  predicate CanDecide(t: Txn) {
    t.pc == Wait(true)
  }

  function DoDecide(t: Txn): Txn {
    if t.phase.SendPrecommit? then
      if t.pos == |t.links| then StartPhase(t, SendCommit, -1)
      else if t.kind.WriteRun? then StartPhase(t, SendQuit, -1)
      else t.(pc := Returned)
    else
      if t.pos == |t.links| then t.(pc := Local)
      else StartPhase(t, SendDel, -1)
  }

  /** The master's own write and read-back, which succeeds or fails as a whole. */
  function DoLocal(t: Txn, ok: bool): Txn {
    if ok then StartPhase(t, SendQuit, 0) else StartPhase(t.(failed := true), SendDel, -1)
  }

  // ---- the sender jobs

  predicate CanClaim(t: Txn, j: nat) {
    j < |t.jobs| && t.jobs[j].state.Ready?
  }

  function DoClaim(t: Txn, j: nat): Txn
    requires CanClaim(t, j) && |t.marked| == |t.work|
  {
    var i := FirstUnmarked(t.marked);
    if i == |t.marked| then t.(jobs := t.jobs[j := t.jobs[j].(state := Finished)])
    else t.(marked := t.marked[i := true], work := t.work[i := ClaimedBy(j)],
            jobs := t.jobs[j := t.jobs[j].(state := Claimed(i))])
  }

  predicate CanSend(t: Txn, j: nat) {
    j < |t.jobs| && t.jobs[j].state.Claimed? && t.jobs[j].state.peer < |t.links| == |t.work| == |t.dontReissue|
  }

  /** A request as it arrives.  The lines of the last two always arrive as what they are. */
  function MessageFor(t: Txn, kind: JobKind): Msg {
    match kind
    case SendPrecommit => t.first
    case SendCommit => t.second
    case SendDel => Abort
    case SendQuit => Quit
  }

  /** The last two kinds send nothing to a peer that must not be disturbed, and wait for no answer. */
  function DoSend(t: Txn, j: nat): Txn
    requires CanSend(t, j)
  {
    var i, kind := t.jobs[j].state.peer, t.jobs[j].kind;
    var link := t.links[i];
    var sent := link.(log := link.log + [MessageFor(t, kind)]);
    if Voting(kind) then
      t.(links := t.links[i := sent], work := t.work[i := SentBy(j)],
         jobs := t.jobs[j := t.jobs[j].(state := Sent(i))])
    else
      t.(links := if t.dontReissue[i] then t.links else t.links[i := sent], work := t.work[i := Closed],
         jobs := t.jobs[j := t.jobs[j].(state := Finished)])
  }

  predicate CanVote(t: Txn, j: nat, got: bool) {
    && j < |t.jobs| && t.jobs[j].state.Sent?
    && t.jobs[j].state.peer < |t.links| == |t.work| == |t.dontReissue|
    && (got ==> t.links[t.jobs[j].state.peer].taken < |t.links[t.jobs[j].state.peer].replies|)
  }

  /** The vote a reply counts as.  Only a commit tells an existing line apart from other refusals. */
  function VoteFor(kind: JobKind, reply: Option<Reply>): Vote {
    match reply
    case Some(Positive) => VotePositive
    case Some(NegativeExists) => if kind.SendCommit? then VoteExists else VoteNegative
    case _ => VoteNegative
  }

  /** The job reads what has arrived, of which the last reply stays in the buffer, or gives up; then it votes. */
  function DoVote(t: Txn, j: nat, got: bool): Txn
    requires CanVote(t, j, got)
  {
    var i, kind := t.jobs[j].state.peer, t.jobs[j].kind;
    var link := t.links[i];
    var reply := if got then Some(link.replies[|link.replies| - 1]) else None;
    var vote := VoteFor(kind, reply);
    var pos := if vote.VotePositive? then t.pos + 1 else t.pos;
    var neg := if vote.VotePositive? then t.neg else t.neg + 1;
    t.(links := t.links[i := if got then link.(taken := |link.replies|) else link],
       pos := pos, neg := neg,
       dontReissue := if vote.VoteExists? then t.dontReissue[i := true] else t.dontReissue,
       work := t.work[i := Voted(vote)],
       jobs := t.jobs[j := t.jobs[j].(state := Finished)],
       pc := if t.pc.Wait? && LastVote(pos, neg, |t.links|) then Wait(true) else t.pc)
  }

  // ---- the peers

  predicate CanHandle(l: Link) {
    l.session.open && l.next < |l.log|
  }

  predicate CanFinish(l: Link, fault: Fault) {
    CanHandle(l) && !Hangs(l.session, l.log[l.next], fault)
  }

  function Handled(l: Link, b: Board, fault: Fault): Result
    requires CanFinish(l, fault)
  {
    Step(l.session, b, l.log[l.next], fault)
  }

  function DoHandle(l: Link, b: Board, fault: Fault): Link
    requires CanFinish(l, fault)
  {
    var r, m := Handled(l, b, fault), l.log[l.next];
    l.(next := l.next + 1, session := r.session,
       replies := if r.reply.Some? then l.replies + [r.reply.value] else l.replies,
       missed := l.missed || (fault.StoreFails? && m.CommitReplace? && Committed(m, r)),
       stuck := l.stuck || (fault.StoreFails? && m.Abort? && !l.session.undo.NoUndo?))
  }

  // ---- the system

  predicate Enabled(s: System, a: Action) {
    a.t < |s.txns| && var t := s.txns[a.t];
    match a
    case Push(_) => CanPush(t)
    case EndPush(_) => CanEndPush(t)
    case Decide(_) => CanDecide(t)
    case RunLocal(_, _) => t.pc.Local?
    case Claim(_, j) => CanClaim(t, j) && |t.marked| == |t.work|
    case Send(_, j) => CanSend(t, j)
    case CastVote(_, j, got) => CanVote(t, j, got)
    case Handle(_, i, fault) => i < |t.links| && i < |s.boards| && CanFinish(t.links[i], fault)
  }

  function Next(s: System, a: Action): System
    requires Enabled(s, a)
  {
    var t := s.txns[a.t];
    match a
    case Push(_) => s.(txns := s.txns[a.t := DoPush(t)])
    case EndPush(_) => s.(txns := s.txns[a.t := DoEndPush(t)])
    case Decide(_) => s.(txns := s.txns[a.t := DoDecide(t)])
    case RunLocal(_, ok) =>
      s.(txns := s.txns[a.t := DoLocal(t, ok)],
         master := if ok then MasterPut(s.master, t) else s.master)
    case Claim(_, j) => s.(txns := s.txns[a.t := DoClaim(t, j)])
    case Send(_, j) => s.(txns := s.txns[a.t := DoSend(t, j)])
    case CastVote(_, j, got) => s.(txns := s.txns[a.t := DoVote(t, j, got)])
    case Handle(_, i, fault) =>
      s.(txns := s.txns[a.t := t.(links := t.links[i := DoHandle(t.links[i], s.boards[i], fault)])],
         boards := s.boards[i := Handled(t.links[i], s.boards[i], fault).board])
  }

  /** `s'` is reached from `s` by these actions. */
  predicate Reaches(s: System, actions: seq<Action>, s': System)
    decreases |actions|
  {
    if |actions| == 0 then s == s'
    else Enabled(s, actions[0]) && Reaches(Next(s, actions[0]), actions[1..], s')
  }

  /** The run has not started. */
  predicate Unstarted(t: Txn, n: nat) {
    t == NewTxn(t.kind, t.id, t.user, t.message, t.first, t.second, n)
  }

  /** What a peer makes of the first two requests: a precommit, and a commit of this kind under this number, unless it
      refuses them. */
  predicate Addressed(t: Txn) {
    && (t.first.Precommit? || t.first.Bad?)
    && (t.second.Bad? || (if t.kind.WriteRun? then t.second.CommitWrite? else t.second.CommitReplace?))
    && (!t.second.Bad? ==> t.second.id == t.id)
  }

  /** Runs on pairwise distinct message numbers, none of which has started; a replace only starts if the master has
      the number. */
  predicate Initial(s: System, n: nat) {
    && |s.boards| == n
    && (forall k :: 0 <= k < |s.txns| ==> Addressed(s.txns[k]) && Unstarted(s.txns[k], n))
    && (forall k :: 0 <= k < |s.txns| && s.txns[k].kind.ReplaceRun? ==> s.txns[k].id in s.master)
    && (forall j, k :: 0 <= j < k < |s.txns| ==> s.txns[j].id != s.txns[k].id)
  }

  // ---- the lines on the wire

  /** The peers have the requests of the run from the lines that the master sends. */
  predicate OnTheWire(t: Txn) {
    && RunId(t.id)
    && t.first == Parse(PrecommitLine(t.user)) && t.second == Parse(CommitLine(t.kind, t.id, t.message))
  }

  /** Whatever name and message, the lines of a run arrive under its number or are refused. */
  lemma WireAddressed(t: Txn)
    requires OnTheWire(t)
    ensures Addressed(t)
  {
    PrecommitShape(t.user);
    if t.kind.WriteRun? { WriteShape(t.id, t.message); } else { ReplaceShape(t.id, t.message); }
  }
}
