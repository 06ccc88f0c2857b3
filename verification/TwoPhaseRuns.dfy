/**
 Runs of the replication protocol with one peer: that calls can succeed, and how each failure the theorems speak of
 comes about.
 */
module TwoPhaseRuns {
  import opened Common
  import opened Tokenize
  import opened LineCodec
  import opened BulletinLines
  import opened PeerProtocol
  import opened Wire
  import opened Agreement
  import opened ReplaceAgreement
  import opened TwoPhase
  import opened TwoPhaseInvariant
  import opened TwoPhaseTheorems

  ghost predicate CanReach(s0: System, s: System) {
    exists actions :: Reaches(s0, actions, s)
  }

  lemma Stay(s0: System)
    ensures CanReach(s0, s0)
  {
    assert Reaches(s0, [], s0);
  }

  lemma {:induction false} ReachesMore(s0: System, actions: seq<Action>, s: System, a: Action)
    requires Reaches(s0, actions, s) && Enabled(s, a)
    ensures Reaches(s0, actions + [a], Next(s, a))
    decreases |actions|
  {
    if |actions| == 0 {
      assert actions + [a] == [a] && [a][1..] == [];
    } else {
      ReachesMore(Next(s0, actions[0]), actions[1..], s, a);
      assert (actions + [a])[1..] == actions[1..] + [a];
    }
  }

  lemma Then(s0: System, s: System, a: Action)
    requires CanReach(s0, s) && Enabled(s, a)
    ensures CanReach(s0, Next(s, a))
  {
    var actions :| Reaches(s0, actions, s);
    ReachesMore(s0, actions, s, a);
  }

  /** A system with one run and one peer. */
  function One(m: Board, b: Board, t: Txn): System {
    System(m, [b], [t])
  }

  /** A step of the run that changes no board. */
  lemma Act(s0: System, m: Board, b: Board, t: Txn, a: Action, t': Txn)
    requires CanReach(s0, One(m, b, t)) && a.t == 0 && !a.RunLocal? && !a.Handle?
    requires Enabled(One(m, b, t), a) && t' == Next(One(m, b, t), a).txns[0]
    ensures CanReach(s0, One(m, b, t'))
  {
    Then(s0, One(m, b, t), a);
    assert Next(One(m, b, t), a) == One(m, b, t');
  }

  lemma Answer(s0: System, m: Board, b: Board, t: Txn, fault: Fault)
    requires CanReach(s0, One(m, b, t)) && |t.links| == 1 && CanFinish(t.links[0], fault)
    ensures CanReach(s0, One(m, Handled(t.links[0], b, fault).board, t.(links := [DoHandle(t.links[0], b, fault)])))
  {
    var a := Action.Handle(0, 0, fault);
    Then(s0, One(m, b, t), a);
    assert t.links[0 := DoHandle(t.links[0], b, fault)] == [DoHandle(t.links[0], b, fault)];
    assert Next(One(m, b, t), a)
        == One(m, Handled(t.links[0], b, fault).board, t.(links := [DoHandle(t.links[0], b, fault)]));
  }

  /** The run starts a phase. */
  predicate Begins(t: Txn) {
    && t.pc.Spawn? && t.pushed == 0 && t.pos == 0 && t.neg == 0
    && t.marked == [false] && t.work == [Unclaimed] && |t.links| == 1 && |t.dontReissue| == 1
  }

  /** The job of the phase holds the peer. */
  function Claiming(t: Txn): Txn {
    t.(pushed := 1, jobs := t.jobs + [Job(t.phase, Claimed(0))], marked := [true], work := [ClaimedBy(|t.jobs|)])
  }

  function Request(t: Txn): Link
    requires |t.links| == 1
  {
    t.links[0].(log := t.links[0].log + [MessageFor(t, t.phase)])
  }

  lemma Claims(s0: System, m: Board, b: Board, t: Txn)
    requires CanReach(s0, One(m, b, t)) && Begins(t)
    ensures CanReach(s0, One(m, b, Claiming(t)))
  {
    var t1 := DoPush(t);
    Act(s0, m, b, t, Push(0), t1);
    var j := |t.jobs|;
    assert FirstUnmarked([false]) == 0;
    assert t1.jobs[j := Job(t.phase, Claimed(0))] == t.jobs + [Job(t.phase, Claimed(0))];
    Act(s0, m, b, t1, Claim(0, j), Claiming(t));
  }

  /** The request has been sent. */
  function Asking(t: Txn): Txn
    requires |t.links| == 1
  {
    Claiming(t).(jobs := t.jobs + [Job(t.phase, Sent(0))], work := [SentBy(|t.jobs|)], links := [Request(t)])
  }

  lemma Asks(s0: System, m: Board, b: Board, t: Txn)
    requires CanReach(s0, One(m, b, t)) && Begins(t) && Voting(t.phase)
    ensures CanReach(s0, One(m, b, Asking(t)))
  {
    Claims(s0, m, b, t);
    var j := |t.jobs|;
    assert Claiming(t).jobs[j := Job(t.phase, Sent(0))] == t.jobs + [Job(t.phase, Sent(0))];
    assert t.links[0 := Request(t)] == [Request(t)];
    Act(s0, m, b, Claiming(t), Send(0, j), Asking(t));
  }

  /** The link once the peer has answered and the master has read the answer, or given up. */
  function Read(l: Link, got: bool): Link {
    if got then l.(taken := |l.replies|) else l
  }

  /** The vote is counted. */
  function Counted(t: Txn, l: Link, vote: Vote, pc: Pc): Txn {
    t.(pc := pc, pushed := 1, jobs := t.jobs + [Job(t.phase, Finished)], marked := [true], work := [Voted(vote)],
       pos := if vote.VotePositive? then 1 else 0, neg := if vote.VotePositive? then 0 else 1,
       dontReissue := if vote.VoteExists? then [true] else t.dontReissue, links := [l])
  }

  lemma Votes(s0: System, m: Board, b: Board, t: Txn, l: Link, pc: Pc, got: bool)
    requires |t.links| == 1 && CanReach(s0, One(m, b, Asking(t).(pc := pc, links := [l])))
    requires Begins(t) && Voting(t.phase) && (pc.Spawn? || pc.Wait?) && (got ==> l.taken < |l.replies|)
    ensures var vote := VoteFor(t.phase, if got then Some(l.replies[|l.replies| - 1]) else None);
            CanReach(s0, One(m, b, Counted(t, Read(l, got), vote, if pc.Wait? then Wait(true) else pc)))
  {
    var t1, j := Asking(t).(pc := pc, links := [l]), |t.jobs|;
    var vote := VoteFor(t.phase, if got then Some(l.replies[|l.replies| - 1]) else None);
    assert t1.jobs[j := Job(t.phase, Finished)] == t.jobs + [Job(t.phase, Finished)];
    assert [l][0 := Read(l, got)] == [Read(l, got)];
    assert vote.VoteExists? ==> t.dontReissue[0 := true] == [true];
    Act(s0, m, b, t1, CastVote(0, j, got), Counted(t, Read(l, got), vote, if pc.Wait? then Wait(true) else pc));
  }

  lemma Waits(s0: System, m: Board, b: Board, t: Txn, fault: Fault)
    requires CanReach(s0, One(m, b, t)) && Begins(t) && Voting(t.phase) && CanFinish(Request(t), fault)
    ensures CanReach(s0, One(m, Handled(Request(t), b, fault).board,
                             Asking(t).(pc := Wait(false), links := [DoHandle(Request(t), b, fault)])))
  {
    Asks(s0, m, b, t);
    var t1 := Asking(t).(pc := Wait(false));
    Act(s0, m, b, Asking(t), EndPush(0), t1);
    Answer(s0, m, b, t1, fault);
  }

  function VoteOf(t: Txn, l: Link, got: bool): Vote
    requires got ==> |l.replies| > 0
  {
    VoteFor(t.phase, if got then Some(l.replies[|l.replies| - 1]) else None)
  }

  /** A whole phase in which the coordinator sleeps in time. */
  lemma Polls(s0: System, m: Board, b: Board, t: Txn, fault: Fault, got: bool)
    requires CanReach(s0, One(m, b, t)) && Begins(t) && Voting(t.phase) && CanFinish(Request(t), fault)
    requires got ==> t.links[0].taken < |DoHandle(Request(t), b, fault).replies|
    ensures var l := DoHandle(Request(t), b, fault);
            CanReach(s0, One(m, Handled(Request(t), b, fault).board,
                             DoDecide(Counted(t, Read(l, got), VoteOf(t, l, got), Wait(true)))))
  {
    Waits(s0, m, b, t, fault);
    var l, b' := DoHandle(Request(t), b, fault), Handled(Request(t), b, fault).board;
    Votes(s0, m, b', t, l, Wait(false), got);
    var t2 := Counted(t, Read(l, got), VoteOf(t, l, got), Wait(true));
    Act(s0, m, b', t2, Decide(0), DoDecide(t2));
  }

  /** The call has returned and its last job is done. */
  function Left(t: Txn, l: Link): Txn {
    t.(pc := Returned, pushed := 1, jobs := t.jobs + [Job(t.phase, Finished)], marked := [true], work := [Closed],
       links := [l])
  }

  /** The last phase. */
  lemma Closes(s0: System, m: Board, b: Board, t: Txn, fault: Fault)
    requires CanReach(s0, One(m, b, t)) && Begins(t) && !Voting(t.phase) && !t.dontReissue[0]
    requires CanFinish(Request(t), fault)
    ensures CanReach(s0, One(m, Handled(Request(t), b, fault).board, Left(t, DoHandle(Request(t), b, fault))))
  {
    Claims(s0, m, b, t);
    var j, t1 := |t.jobs|, Left(t, Request(t)).(pc := Spawn);
    assert Claiming(t).jobs[j := Job(t.phase, Finished)] == t.jobs + [Job(t.phase, Finished)];
    assert t.links[0 := Request(t)] == [Request(t)];
    Act(s0, m, b, Claiming(t), Send(0, j), t1);
    Act(s0, m, b, t1, EndPush(0), Left(t, Request(t)));
    Answer(s0, m, b, Left(t, Request(t)), fault);
  }

  // ---- the runs

  /** A run with what its lines arrive as. */
  function WireTxn(kind: Kind, id: string, user: string, message: string): Txn {
    NewTxn(kind, id, user, message, Parse(PrecommitLine(user)), Parse(CommitLine(kind, id, message)), 1)
  }

  /** A run that has not started and that a peer can carry out: it accepts the precommit and understands the commit,
      and the number is there for a replace and not there for a write. */
  predicate Able(t: Txn, b: Board) {
    && Begins(t) && t.phase.SendPrecommit? && t.jobs == [] && t.links == [FRESH_LINK] && t.dontReissue == [false]
    && t.result == -1 && t.first.Precommit? && IsCommit(t.second) && Addressed(t)
    && (t.id in b <==> t.kind.ReplaceRun?)
  }

  predicate Possible(t: Txn, m: Board, b: Board) {
    && OnTheWire(t) && Unstarted(t, 1) && (t.kind.ReplaceRun? ==> t.id in m)
    && t.first.Precommit? && IsCommit(t.second)
    && (t.id in b <==> t.kind.ReplaceRun?)
  }

  lemma StartsOne(t: Txn, m: Board, b: Board)
    requires Possible(t, m, b)
    ensures Initial(One(m, b, t), 1) && CanReach(One(m, b, t), One(m, b, t)) && Able(t, b)
  {
    Stay(One(m, b, t));
    WireAddressed(t);
  }

  /** Faults that leave the peer's answer to the commit positive. */
  predicate Quietly(t: Txn, fault: Fault) {
    fault.NoFault? || (fault.StoreFails? && t.kind.ReplaceRun?)
  }

  /** After a precommit that the peer has accepted. */
  function Precommitted(t: Txn): Txn
    requires t.first.Precommit?
  {
    t.(phase := SendCommit, jobs := [Job(SendPrecommit, Finished)],
       links := [Link([t.first], 1, [Positive], 1, FRESH.(user := t.first.user), false, false)])
  }

  lemma PrecommitHandled(t: Txn, b: Board)
    requires Able(t, b)
    ensures Request(t).log == [t.first] && CanFinish(Request(t), NoFault)
    ensures Handled(Request(t), b, NoFault).board == b
    ensures DoHandle(Request(t), b, NoFault) == Precommitted(t).links[0].(taken := 0)
  {
  }

  lemma PrecommittedIs(t: Txn, b: Board)
    requires Able(t, b)
    ensures Begins(Precommitted(t))
    ensures DoDecide(Counted(t, Precommitted(t).links[0], VotePositive, Wait(true))) == Precommitted(t)
  {
  }

  lemma Precommits(s0: System, m: Board, b: Board, t: Txn)
    requires CanReach(s0, One(m, b, t)) && Able(t, b)
    ensures CanReach(s0, One(m, b, Precommitted(t)))
  {
    PrecommitHandled(t, b);
    PrecommittedIs(t, b);
    Polls(s0, m, b, t, NoFault, true);
  }

  /** The peer has handled the commit. */
  function Done(t: Txn, b: Board, fault: Fault, got: bool): Link
    requires Able(t, b)
  {
    Link([t.first, t.second], 2, [Positive, Positive], if got then 2 else 1,
         if t.kind.WriteRun? then Session(t.first.user, UndoWrite(t.id), NO_TEXTS, true)
         else Session(t.first.user, UndoReplace(t.id, Keep(b[t.id], NO_TEXTS)), Keep(b[t.id], NO_TEXTS), true),
         fault.StoreFails?, false)
  }

  function Changed(t: Txn, b: Board, fault: Fault): Board
    requires Able(t, b)
  {
    if fault.StoreFails? then b else Put(b, t.id, t.first.user, t.second.message)
  }

  lemma CommitHandled(t: Txn, b: Board, fault: Fault)
    requires Able(t, b) && Quietly(t, fault)
    ensures CanFinish(Request(Precommitted(t)), fault)
    ensures DoHandle(Request(Precommitted(t)), b, fault) == Done(t, b, fault, false)
    ensures Handled(Request(Precommitted(t)), b, fault).board == Changed(t, b, fault)
  {
    assert Request(Precommitted(t)).log == [t.first, t.second];
  }

  /** The coordinator has seen the vote on the commit. */
  function Decided(t: Txn, b: Board, fault: Fault, got: bool): Txn
    requires Able(t, b)
  {
    DoDecide(Counted(Precommitted(t), Done(t, b, fault, got), if got then VotePositive else VoteNegative, Wait(true)))
  }

  lemma Commits(s0: System, m: Board, b: Board, t: Txn, fault: Fault, got: bool)
    requires CanReach(s0, One(m, b, t)) && Able(t, b) && Quietly(t, fault)
    ensures CanReach(s0, One(m, Changed(t, b, fault), Decided(t, b, fault, got)))
  {
    Precommits(s0, m, b, t);
    PrecommittedIs(t, b);
    CommitHandled(t, b, fault);
    assert Read(Done(t, b, fault, false), got) == Done(t, b, fault, got);
    Polls(s0, m, b, Precommitted(t), fault, got);
  }

  /** The peer has been asked for all but the last request and has handled what it was asked. */
  predicate LastPhase(t: Txn) {
    && Begins(t) && !Voting(t.phase) && t.dontReissue == [false]
    && (forall j :: 0 <= j < |t.jobs| ==> t.jobs[j].state.Finished?)
    && t.links[0].session.open && t.links[0].next == |t.links[0].log|
  }

  lemma DecidedCommit(t: Txn, b: Board, fault: Fault)
    requires Able(t, b)
    ensures var d := Decided(t, b, fault, true);
            d.pc.Local? && d.kind == t.kind && d.id == t.id && d.user == t.user && d.message == t.message
            && LastPhase(DoLocal(d, true)) && DoLocal(d, true).phase.SendQuit? && DoLocal(d, true).result == 0
  {
  }

  lemma DecidedAbort(t: Txn, b: Board, fault: Fault)
    requires Able(t, b)
    ensures var d := Decided(t, b, fault, false);
            LastPhase(d) && d.phase.SendDel? && d.result == -1 && d.links == [Done(t, b, fault, false)]
  {
  }

  /** The last request. */
  lemma Ends(s0: System, m: Board, b: Board, t: Txn, fault: Fault) returns (s: System)
    requires CanReach(s0, One(m, b, t)) && LastPhase(t) && CanFinish(Request(t), fault)
    ensures CanReach(s0, s) && s.master == m && |s.txns| == |s.boards| == 1
    ensures Quiet(s.txns[0]) && s.txns[0].result == t.result && s.boards[0] == Handled(Request(t), b, fault).board
  {
    Closes(s0, m, b, t, fault);
    s := One(m, Handled(Request(t), b, fault).board, Left(t, DoHandle(Request(t), b, fault)));
  }

  lemma Stores(s0: System, m: Board, b: Board, d: Txn)
    requires CanReach(s0, One(m, b, d)) && d.pc.Local?
    ensures CanReach(s0, One(MasterPut(m, d), b, DoLocal(d, true)))
  {
    Then(s0, One(m, b, d), RunLocal(0, true));
    assert Next(One(m, b, d), RunLocal(0, true)) == One(MasterPut(m, d), b, DoLocal(d, true));
  }

  lemma Finishes(s0: System, m: Board, b: Board, t: Txn, fault: Fault) returns (s: System)
    requires CanReach(s0, One(m, b, t)) && Able(t, b) && Quietly(t, fault)
    ensures CanReach(s0, s) && |s.txns| == |s.boards| == 1 && Quiet(s.txns[0]) && s.txns[0].result == 0
    ensures s.master == MasterPut(m, t) && s.boards[0] == Changed(t, b, fault)
  {
    Commits(s0, m, b, t, fault, true);
    DecidedCommit(t, b, fault);
    var d, b' := Decided(t, b, fault, true), Changed(t, b, fault);
    Stores(s0, m, b', d);
    s := Ends(s0, MasterPut(m, t), b', DoLocal(d, true), NoFault);
  }

  /** All goes well, but for a replace of the peer that may fail unnoticed: the call returns 0. */
  lemma Succeeds(t: Txn, m: Board, b: Board, fault: Fault) returns (s: System)
    requires Possible(t, m, b) && Quietly(t, fault)
    ensures Able(t, b) && Reachable(One(m, b, t), s, 1)
    ensures |s.txns| == |s.boards| == 1 && Quiet(s.txns[0]) && s.txns[0].result == 0
    ensures s.master == MasterPut(m, t) && s.boards[0] == Changed(t, b, fault)
  {
    StartsOne(t, m, b);
    s := Finishes(One(m, b, t), m, b, t, fault);
  }

  lemma TakesBackAll(s0: System, m: Board, b: Board, t: Txn, fault: Fault, fault': Fault) returns (s: System)
    requires CanReach(s0, One(m, b, t)) && Able(t, b) && Quietly(t, fault) && !fault'.NoFile?
    ensures CanReach(s0, s) && |s.txns| == |s.boards| == 1 && Quiet(s.txns[0]) && s.txns[0].result == -1
    ensures s.master == m
    ensures s.boards[0] == if fault'.StoreFails? then Changed(t, b, fault)
                           else Undone(Done(t, b, fault, false).session.undo, Changed(t, b, fault))
  {
    Commits(s0, m, b, t, fault, false);
    DecidedAbort(t, b, fault);
    s := Ends(s0, m, Changed(t, b, fault), Decided(t, b, fault, false), fault');
  }

  /** The answer to the commit is lost, and the peer undoes it: the call returns -1. */
  lemma Fails(t: Txn, m: Board, b: Board, fault: Fault, fault': Fault) returns (s: System)
    requires Possible(t, m, b) && Quietly(t, fault) && !fault'.NoFile?
    ensures Able(t, b) && Reachable(One(m, b, t), s, 1)
    ensures |s.txns| == |s.boards| == 1 && Quiet(s.txns[0]) && s.txns[0].result == -1
    ensures s.master == m
    ensures s.boards[0] == if fault'.StoreFails? then Changed(t, b, fault)
                           else Undone(Done(t, b, fault, false).session.undo, Changed(t, b, fault))
  {
    StartsOne(t, m, b);
    s := TakesBackAll(One(m, b, t), m, b, t, fault, fault');
  }

  // ---- what goes wrong

  /** If master and peer do not make the same of the texts, a call that returns 0 can leave them showing different
      things. */
  lemma Diverges(t: Txn, m: Board, b: Board) returns (s: System)
    requires Possible(t, m, b) && !Agrees(t) && (t.kind.WriteRun? ==> t.id !in m)
    ensures Reachable(One(m, b, t), s, 1) && |s.txns| == |s.boards| == 1 && Quiet(s.txns[0]) && s.txns[0].result == 0
    ensures Cell(s.boards[0], t.id) != Cell(s.master, t.id)
  {
    s := Finally(t, m, b);
  }

  /** Every write whose name or message has an empty word where blanks are not skipped is such a call. */
  lemma WriteDiverges(id: string, names: seq<string>, ws: seq<string>, m: Board, b: Board) returns (t: Txn, s: System)
    requires RunId(id) && id !in m && id !in b && AllWords(names) && |ws| >= 1 && AllWords(ws)
    requires NonEmpty(ws) != [] && (names == [] || NonEmpty(names) != [])
    requires !(Skipped(true, names) && Skipped(true, ws))
    ensures t == WireTxn(WriteRun, id, UserText(names), Rebuilt(ws))
    ensures Reachable(One(m, b, t), s, 1) && |s.txns| == |s.boards| == 1 && Quiet(s.txns[0]) && s.txns[0].result == 0
    ensures Cell(s.boards[0], t.id) != Cell(s.master, t.id)
  {
    t := WireTxn(WriteRun, id, UserText(names), Rebuilt(ws));
    WriteAgrees(names, id, ws);
    s := Diverges(t, m, b);
  }

  /** So is every replace whose name or text does not survive. */
  lemma ReplaceDiverges(id: string, names: seq<string>, message: string, m: Board, b: Board) returns (t: Txn, s: System)
    requires MasterSends(id, message) && |id| <= (if message == "" then 4 else 5) && id in m && id in b
    requires AllWords(names) && (names == [] || NonEmpty(names) != []) && !ReplaceSurvives(names, id, message)
    ensures t == WireTxn(ReplaceRun, id, UserText(names), message)
    ensures Reachable(One(m, b, t), s, 1) && |s.txns| == |s.boards| == 1 && Quiet(s.txns[0]) && s.txns[0].result == 0
    ensures Cell(s.boards[0], t.id) != Cell(s.master, t.id)
  {
    t := WireTxn(ReplaceRun, id, UserText(names), message);
    ReplaceAgrees(names, id, message);
    s := Diverges(t, m, b);
  }

  /** A replace whose text runs past the window of the peers is such a call. */
  lemma LossyReplace(m: Board, b: Board) returns (t: Txn, s: System)
    requires "5" in m && "5" in b
    ensures t == WireTxn(ReplaceRun, "5", "nobody", "abcd/efgh ")
    ensures Reachable(One(m, b, t), s, 1) && |s.txns| == |s.boards| == 1 && Quiet(s.txns[0]) && s.txns[0].result == 0
    ensures Cell(s.master, "5") == Some(Some(Entry("nobody", "abcd/efgh ")))
    ensures Cell(s.boards[0], "5") == Some(Some(Entry("nobody", "abcd")))
  {
    t := WireTxn(ReplaceRun, "5", "nobody", "abcd/efgh ");
    LossyPossible(m, b, t);
    LossyReadings();
    s := Finally(t, m, b);
  }

  /** What a call that returns 0 leaves behind. */
  lemma Finally(t: Txn, m: Board, b: Board) returns (s: System)
    requires Possible(t, m, b)
    ensures Reachable(One(m, b, t), s, 1) && |s.txns| == |s.boards| == 1 && Quiet(s.txns[0]) && s.txns[0].result == 0
    ensures Cell(s.master, t.id) == MasterCell(t, Cell(m, t.id)) && Cell(s.boards[0], t.id) == Some(PeerEntry(t))
  {
    s := Succeeds(t, m, b, NoFault);
    MasterPutIs(m, t);
    OneCell(b, t.id, t.first.user, t.second.message);
  }

  lemma LossyReadings()
    ensures Reading("nobody", "abcd/efgh ") == Some(Entry("nobody", "abcd/efgh "))
    ensures Reading("nobody", "abcd") == Some(Entry("nobody", "abcd"))
  {
    ReadsSame("nobody", "abcd/efgh ");
    ReadsSame("nobody", "abcd");
  }

  lemma LossyPossible(m: Board, b: Board, t: Txn)
    requires "5" in m && "5" in b && t == WireTxn(ReplaceRun, "5", "nobody", "abcd/efgh ")
    ensures Possible(t, m, b) && t.first == Precommit("nobody") && t.second == CommitReplace("5", "abcd")
  {
    ReplaceLosesText();
    NobodyHeard();
  }

  lemma ReadsSame(user: string, message: string)
    requires '/' !in user && user != "" && user[0] != ' '
    requires message != "" && message[0] != ' ' && Faithful(message, 0, |message|)
    ensures Reading(user, message) == Some(Entry(user, message))
  {
    BlankEndIs(message, 0, |message|, 0);
    PlainStored(user, message);
    StrippedSame(user);
    MessageSame(message);
  }

  /** A replace that the undo does not restore can fail and leave the peer with something else. */
  lemma UndoLoses(t: Txn, m: Board, b: Board) returns (s: System)
    requires Possible(t, m, b) && t.kind.ReplaceRun? && ReadableBoard(b) && !Restored(Cell(b, t.id))
    ensures Reachable(One(m, b, t), s, 1) && |s.txns| == |s.boards| == 1 && Quiet(s.txns[0]) && s.txns[0].result == -1
    ensures s.master == m && s.boards[0] != b
  {
    s := Fails(t, m, b, NoFault, NoFault);
    BackDiffers(t, b);
  }

  lemma BackDiffers(t: Txn, b: Board)
    requires Able(t, b) && t.kind.ReplaceRun? && ReadableBoard(b) && !Restored(Cell(b, t.id))
    ensures Undone(Done(t, b, NoFault, false).session.undo, Changed(t, b, NoFault)) != b
  {
    PutElsewhere(b, t.id, t.first.user, t.second.message);
    PutBack(t.id, Keep(b[t.id], NO_TEXTS), Changed(t, b, NoFault), b);
  }

  /** A replace that fails at the peer unnoticed: the call returns 0, and the peer shows what it showed. */
  lemma ReplaceMissed(t: Txn, m: Board, b: Board) returns (s: System)
    requires Possible(t, m, b) && t.kind.ReplaceRun? && b[t.id] != EntryFor(t)
    ensures Reachable(One(m, b, t), s, 1) && |s.txns| == |s.boards| == 1 && Quiet(s.txns[0]) && s.txns[0].result == 0
    ensures s.boards[0] == b && Cell(s.boards[0], t.id) != Cell(s.master, t.id)
  {
    s := Succeeds(t, m, b, StoreFails);
    MasterPutIs(m, t);
  }

  /** An undo that fails unnoticed: the call returns -1, and the peer has a line that nobody else has. */
  lemma UndoMissed(t: Txn, m: Board, b: Board) returns (s: System)
    requires Possible(t, m, b) && t.kind.WriteRun?
    ensures Reachable(One(m, b, t), s, 1) && |s.txns| == |s.boards| == 1 && Quiet(s.txns[0]) && s.txns[0].result == -1
    ensures s.master == m && t.id !in b && Cell(s.boards[0], t.id) == Some(PeerEntry(t))
  {
    s := Fails(t, m, b, NoFault, StoreFails);
    OneCell(b, t.id, t.first.user, t.second.message);
  }

  /** A write under a number that the master has already: the call returns 0, the peer shows the new line and the master
      the old one. */
  lemma MasterMissed(t: Txn, m: Board, b: Board) returns (s: System)
    requires Possible(t, m, b) && t.kind.WriteRun? && t.id in m && m[t.id] != PeerEntry(t)
    ensures Reachable(One(m, b, t), s, 1) && |s.txns| == |s.boards| == 1 && Quiet(s.txns[0]) && s.txns[0].result == 0
    ensures s.master == m && Cell(s.boards[0], t.id) == Some(PeerEntry(t)) != Cell(s.master, t.id)
  {
    s := Succeeds(t, m, b, NoFault);
    OneCell(b, t.id, t.first.user, t.second.message);
  }

  /** A replace that leaves without a goodbye: the answer to the precommit is lost. */
  lemma ReplaceLeaves(t: Txn, m: Board, b: Board) returns (s: System)
    requires Possible(t, m, b) && t.kind.ReplaceRun?
    ensures Reachable(One(m, b, t), s, 1) && |s.txns| == 1 && Quiet(s.txns[0]) && s.txns[0].result == -1
    ensures |s.txns[0].links| == 1 && s.txns[0].links[0].log == [t.first] && s.txns[0].links[0].session.open
  {
    StartsOne(t, m, b);
    PrecommitHandled(t, b);
    Polls(One(m, b, t), m, b, t, NoFault, false);
    s := One(m, b, DoDecide(Counted(t, Precommitted(t).links[0].(taken := 0), VoteNegative, Wait(true))));
  }

  /** A coordinator that hands out its last job, is overtaken by it and goes to sleep for good. */
  lemma OversleepsHappens(t: Txn, m: Board, b: Board) returns (s: System)
    requires Possible(t, m, b)
    ensures Reachable(One(m, b, t), s, 1) && |s.txns| == 1 && Overslept(s.txns[0], 1)
  {
    var s0 := One(m, b, t);
    StartsOne(t, m, b);
    Asks(s0, m, b, t);
    PrecommitHandled(t, b);
    Answer(s0, m, b, Asking(t), NoFault);
    var l := Precommitted(t).links[0].(taken := 0);
    Votes(s0, m, b, t, l, Spawn, true);
    var t2 := Counted(t, Precommitted(t).links[0], VotePositive, Spawn);
    Act(s0, m, b, t2, EndPush(0), t2.(pc := Wait(false)));
    s := One(m, b, t2.(pc := Wait(false)));
  }
}
