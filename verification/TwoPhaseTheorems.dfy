/** What the replication protocol guarantees, over every run of the system. */
module TwoPhaseTheorems {
  import opened Common
  import opened LineCodec
  import opened BulletinLines
  import opened PeerProtocol
  import opened Counting
  import opened TwoPhase
  import opened TwoPhaseInvariant
  import opened Wire
  import opened Agreement
  import opened ReplaceAgreement

  /** A state that any actions of any runs lead to. */
  ghost predicate Reachable(s0: System, s: System, n: nat) {
    Initial(s0, n) && exists actions :: Reaches(s0, actions, s)
  }

  lemma ReachableInv(s0: System, s: System, n: nat)
    requires Reachable(s0, s, n)
    ensures Inv(s, s0, n)
  {
    var actions :| Reaches(s0, actions, s);
    InvInitial(s0, n);
    InvReaches(s0, s0, n, actions, s);
  }

  /** The call has returned and its last jobs are done. */
  predicate Over(t: Txn) {
    t.pc.Returned? && forall j :: 0 <= j < |t.jobs| ==> t.jobs[j].state.Finished?
  }

  /** The call is over, and peer `i` has handled everything that was sent to it, or has closed the session. */
  predicate QuietAt(t: Txn, i: nat) {
    Over(t) && i < |t.links| && !CanHandle(t.links[i])
  }

  /** The call is over for all its peers. */
  predicate Quiet(t: Txn) {
    Over(t) && forall i :: 0 <= i < |t.links| ==> QuietAt(t, i)
  }

  /** The board after exactly the runs that returned 0. */
  function Outcome(b: Board, txns: seq<Txn>): Board {
    if |txns| == 0 then b
    else
      var t, rest := txns[|txns| - 1], Outcome(b, txns[..|txns| - 1]);
      if t.result == 0 then Put(rest, t.id, t.user, t.message) else rest
  }

  // ---- atomicity

  /** At the end of a call every job of the last phase has done its work. */
  lemma OverWork(t: Txn, n: nat)
    requires RunOk(t, n) && Over(t)
    ensures forall i :: 0 <= i < n ==> t.work[i].Voted? || t.work[i].Closed?
  {
    CountNone(t.jobs, IsReady);
    CountAll(t.work, IsTaken);
    forall i | 0 <= i < n ensures t.work[i].Voted? || t.work[i].Closed? {
      assert WorkOk(t.phase, t.jobs, i, t.work[i]);
      assert IsTaken(t.work[i]);
    }
  }

  /** What peers and master make of the texts of the run is the same entry. */
  predicate Agrees(t: Txn) {
    PeerEntry(t) == EntryFor(t)
  }

  /** The conversation with a peer decides what the call leaves there: a call that returned 0 its new line, one that
      returned -1 what was there, unless it was replaced or the undo failed. */
  lemma QuietPeer(t: Txn, n: nat, i: nat, now: Slot, before: Slot)
    requires RunOk(t, n) && QuietAt(t, i) && SessionOk(t, t.links[i], now, before)
    ensures var l := t.links[i];
            && (t.result == 0 ==> Accepted(l) && now == if l.missed then before else Some(PeerEntry(t)))
            && (t.result == -1 && !Accepted(l) ==> now == before)
            && (t.result == -1 && Accepted(l) ==>
                  now == if !l.stuck then Back(t, before) else if l.missed then before else Some(PeerEntry(t)))
            && (Accepted(l) ==> Applicable(t, before))
            && (t.kind.WriteRun? ==> !l.missed)
  {
    OverWork(t, n);
    assert LinkOk(t, t.work[i], t.links[i], t.dontReissue[i]);
  }

  /** An undo restores what a replace overwrote: a line without an entry, or a text that does not end in a slash. */
  predicate Restored(before: Slot) {
    before.Some? && (before.value.Some? ==> Whole(before.value.value))
  }

  /** When peer `i` ends up with run `k` as it should: at a run that returned 0, it stored what the master means to
      store; at a run that returned -1, it never accepted the commit, or the undo took it back.  An undo takes back a
      write always, and a replace as said above.  The rest is about failures of the peer's file that nobody notices. */
  predicate PeerFollows(s0: System, s: System, k: nat, i: nat)
    requires k < |s.txns| && i < |s.txns[k].links| && i < |s0.boards|
  {
    var t, l, before := s.txns[k], s.txns[k].links[i], Cell(s0.boards[i], s.txns[k].id);
    if t.result == 0 then
      if l.missed then before == Some(EntryFor(t)) else Agrees(t)
    else
      !Accepted(l)
      || (if l.stuck then l.missed || before == Some(PeerEntry(t)) else t.kind.WriteRun? || Restored(before))
  }

  /** When the master ends up with run `k` as it should: a write that returned 0 had a number that was not there, or
      that showed the same already. */
  predicate MasterFollows(s0: System, s: System, k: nat)
    requires k < |s.txns|
  {
    var t, before := s.txns[k], Cell(s0.master, s.txns[k].id);
    t.result == 0 && t.kind.WriteRun? && before.Some? ==> before == Some(EntryFor(t))
  }

  ghost predicate ReadableBoards(s: System) {
    forall i :: 0 <= i < |s.boards| ==> ReadableBoard(s.boards[i])
  }

  lemma BackIs(t: Txn, before: Slot)
    requires Applicable(t, before) && (before.Some? && before.value.Some? ==> Readable(before.value.value))
    ensures Back(t, before) == before <==> t.kind.WriteRun? || Restored(before)
  {
    if before.Some? && before.value.Some? { RestorableIfWhole(before.value.value); }
    NoTexts();
  }

  lemma NoTexts()
    ensures Reading("", "") == None
  {
    BehindParts("", "");
    PlainUser("");
    AfterStarts("");
    assert Behind("", "") == [Stripped("")];
  }

  /** What a run is to leave at its number. */
  function Goal(t: Txn, before: Slot): Slot {
    if t.result == 0 then Some(EntryFor(t)) else before
  }

  /** One run, in the middle of any others.  Once it is quiet at a peer, whatever its other peers do, that peer shows
      the new line under its number if the run returned 0, and what it showed before if it returned -1, exactly if it
      follows. */
  lemma RunIsAtomic(s0: System, s: System, n: nat, k: nat, i: nat)
    requires Reachable(s0, s, n) && ReadableBoards(s0) && k < |s.txns| && QuietAt(s.txns[k], i)
    ensures i < n == |s.boards| == |s0.boards| == |s.txns[k].links|
    ensures s.txns[k].result == 0 || s.txns[k].result == -1
    ensures var t := s.txns[k];
            Cell(s.boards[i], t.id) == Goal(t, Cell(s0.boards[i], t.id)) <==> PeerFollows(s0, s, k, i)
  {
    ReachableInv(s0, s, n);
    PeerCellIs(s0, s, n, k, i);
  }

  lemma PeerCellIs(s0: System, s: System, n: nat, k: nat, i: nat)
    requires Inv(s, s0, n) && ReadableBoards(s0) && k < |s.txns| && QuietAt(s.txns[k], i)
    ensures i < n == |s.txns[k].links|
    ensures var t := s.txns[k];
            Cell(s.boards[i], t.id) == Goal(t, Cell(s0.boards[i], t.id)) <==> PeerFollows(s0, s, k, i)
  {
    var t, before := s.txns[k], Cell(s0.boards[i], s.txns[k].id);
    assert RunOk(t, n);
    assert PeerCellOk(s, s0, k, i);
    QuietPeer(t, n, i, Cell(s.boards[i], t.id), before);
    if Accepted(t.links[i]) { BackIs(t, before); }
  }

  /** The master, in every reachable state, whatever the peers do: it shows the new line under the number of a run that
      has stored it and what it showed before under the others, exactly if it follows. */
  lemma MasterShows(s0: System, s: System, n: nat, k: nat)
    requires Reachable(s0, s, n) && k < |s.txns|
    ensures var t := s.txns[k];
            Cell(s.master, t.id) == Goal(t, Cell(s0.master, t.id)) <==> MasterFollows(s0, s, k)
  {
    ReachableInv(s0, s, n);
    assert RunOk(s.txns[k], n);
    assert MasterCellOk(s, s0, k);
  }

  lemma {:induction false} OutcomeCell(b: Board, txns: seq<Txn>, id: string)
    requires DistinctIds(txns)
    ensures forall k :: 0 <= k < |txns| && txns[k].id == id ==>
              Cell(Outcome(b, txns), id) == Goal(txns[k], Cell(b, id))
    ensures (forall k :: 0 <= k < |txns| ==> txns[k].id != id) ==> Cell(Outcome(b, txns), id) == Cell(b, id)
  {
    if |txns| > 0 {
      var init, t := txns[..|txns| - 1], txns[|txns| - 1];
      OutcomeCell(b, init, id);
      assert forall k :: 0 <= k < |init| ==> init[k] == txns[k];
      OneCell(Outcome(b, init), t.id, t.user, t.message);
      if id != t.id { SameCell(Outcome(b, init), Put(Outcome(b, init), t.id, t.user, t.message), t.id, id); }
    }
  }

  lemma SameBoards(b: Board, c: Board)
    requires forall id :: Cell(b, id) == Cell(c, id)
    ensures b == c
  {
    assert forall id :: id in b <==> Cell(b, id).Some?;
    assert forall id :: id in c <==> Cell(c, id).Some?;
    forall id | id in b && id in c ensures b[id] == c[id] {
      assert Cell(b, id) == Cell(c, id);
    }
  }

  /** The number of the run shows what the run is to leave there. */
  predicate Settled(b: Board, b0: Board, t: Txn) {
    Cell(b, t.id) == Goal(t, Cell(b0, t.id))
  }

  /** A board on which no other number has changed is the outcome exactly if all runs are settled on it. */
  lemma OutcomeIs(b: Board, b0: Board, txns: seq<Txn>)
    requires DistinctIds(txns)
    requires forall id :: (forall k :: 0 <= k < |txns| ==> txns[k].id != id) ==> Cell(b, id) == Cell(b0, id)
    ensures b == Outcome(b0, txns) <==> forall k :: 0 <= k < |txns| ==> Settled(b, b0, txns[k])
  {
    var c := Outcome(b0, txns);
    forall k | 0 <= k < |txns| ensures Settled(b, b0, txns[k]) <==> Cell(b, txns[k].id) == Cell(c, txns[k].id) {
      OutcomeCell(b0, txns, txns[k].id);
    }
    if forall k :: 0 <= k < |txns| ==> Settled(b, b0, txns[k]) {
      forall id ensures Cell(b, id) == Cell(c, id) {
        OutcomeCell(b0, txns, id);
      }
      SameBoards(b, c);
    }
  }

  lemma NotOwned(s0: System, s: System, n: nat, id: string)
    requires Inv(s, s0, n) && forall k :: 0 <= k < |s.txns| ==> s.txns[k].id != id
    ensures !Owned(s0, id)
  {
    assert forall k :: 0 <= k < |s.txns| ==> SameRun(s.txns[k], s0.txns[k]);
  }

  lemma DistinctNow(s0: System, s: System, n: nat)
    requires Inv(s, s0, n)
    ensures DistinctIds(s.txns)
  {
    assert forall k :: 0 <= k < |s.txns| ==> SameRun(s.txns[k], s0.txns[k]);
  }

  lemma OthersUntouched(s0: System, s: System, n: nat, id: string)
    requires Inv(s, s0, n) && forall k :: 0 <= k < |s.txns| ==> s.txns[k].id != id
    ensures Cell(s.master, id) == Cell(s0.master, id)
    ensures forall i :: 0 <= i < n ==> Cell(s.boards[i], id) == Cell(s0.boards[i], id)
  {
    NotOwned(s0, s, n, id);
    assert UntouchedOk(s, s0, id);
  }

  /** Any number of runs on distinct numbers, interleaved in any way and whatever the peers do: in every reachable state
      the master shows what it showed at the start, updated by exactly the runs that have stored their line, exactly if
      it follows them all. */
  lemma MasterIsOutcome(s0: System, s: System, n: nat)
    requires Reachable(s0, s, n)
    ensures s.master == Outcome(s0.master, s.txns) <==> forall k :: 0 <= k < |s.txns| ==> MasterFollows(s0, s, k)
  {
    ReachableInv(s0, s, n);
    DistinctNow(s0, s, n);
    forall id | forall k :: 0 <= k < |s.txns| ==> s.txns[k].id != id
      ensures Cell(s.master, id) == Cell(s0.master, id)
    {
      OthersUntouched(s0, s, n, id);
    }
    forall k | 0 <= k < |s.txns| ensures Settled(s.master, s0.master, s.txns[k]) <==> MasterFollows(s0, s, k) {
      MasterShows(s0, s, n, k);
    }
    OutcomeIs(s.master, s0.master, s.txns);
  }

  /** A peer for which all runs are over, whatever the other peers do, shows in the end what it showed at the start,
      updated by exactly the runs that returned 0, exactly if it follows them all. */
  lemma AllRunsAtomic(s0: System, s: System, n: nat, i: nat)
    requires Reachable(s0, s, n) && ReadableBoards(s0) && i < n
    requires forall k :: 0 <= k < |s.txns| ==> QuietAt(s.txns[k], i)
    ensures |s.boards| == |s0.boards| == n && forall k :: 0 <= k < |s.txns| ==> |s.txns[k].links| == n
    ensures s.boards[i] == Outcome(s0.boards[i], s.txns)
       <==> forall k :: 0 <= k < |s.txns| ==> PeerFollows(s0, s, k, i)
  {
    ReachableInv(s0, s, n);
    DistinctNow(s0, s, n);
    forall id | forall k :: 0 <= k < |s.txns| ==> s.txns[k].id != id
      ensures Cell(s.boards[i], id) == Cell(s0.boards[i], id)
    {
      OthersUntouched(s0, s, n, id);
    }
    forall k | 0 <= k < |s.txns|
      ensures |s.txns[k].links| == n && (Settled(s.boards[i], s0.boards[i], s.txns[k]) <==> PeerFollows(s0, s, k, i))
    {
      PeerCellIs(s0, s, n, k, i);
    }
    OutcomeIs(s.boards[i], s0.boards[i], s.txns);
  }

  // ---- the condition, for a caller

  /** No replace and no undo of the run has failed unnoticed at this peer. */
  predicate NoFailure(l: Link) {
    !l.missed && !l.stuck
  }

  /** Without failures a peer follows a write exactly if the write failed, or the empty words of the name and of the
      message stand where blanks are skipped. */
  lemma WriteFollows(s0: System, s: System, n: nat, k: nat, i: nat, names: seq<string>, ws: seq<string>)
    requires Reachable(s0, s, n) && k < |s.txns| && QuietAt(s.txns[k], i)
    requires OnTheWire(s.txns[k]) && AllWords(names) && |ws| >= 1 && AllWords(ws)
    requires var t := s.txns[k]; t.kind.WriteRun? && t.user == UserText(names) && t.message == Rebuilt(ws)
    ensures i < |s.txns[k].links| == n == |s0.boards|
    ensures NoFailure(s.txns[k].links[i]) ==>
              (PeerFollows(s0, s, k, i) <==> s.txns[k].result != 0 || (Skipped(true, names) && Skipped(true, ws)))
  {
    WriteAgrees(names, s.txns[k].id, ws);
    AcceptedTexts(s0, s, n, k, i);
  }

  /** Without failures a peer follows a replace that returned 0 exactly if name and text survive, and one that returned
      -1 exactly if it never accepted it or the undo restores what it had. */
  lemma ReplaceFollows(s0: System, s: System, n: nat, k: nat, i: nat, names: seq<string>)
    requires Reachable(s0, s, n) && k < |s.txns| && QuietAt(s.txns[k], i)
    requires OnTheWire(s.txns[k]) && AllWords(names)
    requires var t := s.txns[k]; t.kind.ReplaceRun? && t.user == UserText(names) && MasterSends(t.id, t.message)
    ensures i < |s.txns[k].links| == n == |s0.boards|
    ensures var t := s.txns[k];
            NoFailure(t.links[i]) ==>
              (PeerFollows(s0, s, k, i) <==>
                if t.result == 0 then ReplaceSurvives(names, t.id, t.message)
                else Accepted(t.links[i]) ==> Restored(Cell(s0.boards[i], t.id)))
  {
    ReplaceAgrees(names, s.txns[k].id, s.txns[k].message);
    AcceptedTexts(s0, s, n, k, i);
  }

  lemma AcceptedTexts(s0: System, s: System, n: nat, k: nat, i: nat)
    requires Reachable(s0, s, n) && k < |s.txns| && QuietAt(s.txns[k], i)
    ensures i < |s.txns[k].links| == n == |s0.boards|
    ensures s.txns[k].result == 0 ==> s.txns[k].first.Precommit? && IsCommit(s.txns[k].second)
    ensures IsCommit(s.txns[k].second) ==> (s.txns[k].second.CommitWrite? <==> s.txns[k].kind.WriteRun?)
  {
    ReachableInv(s0, s, n);
    var t := s.txns[k];
    assert PeerCellOk(s, s0, k, i);
    QuietPeer(t, n, i, Cell(s.boards[i], t.id), Cell(s0.boards[i], t.id));
  }

  lemma OutcomeOne(b: Board, txns: seq<Txn>)
    requires |txns| == 1
    ensures Outcome(b, txns) == if txns[0].result == 0 then Put(b, txns[0].id, txns[0].user, txns[0].message) else b
  {
    assert txns[..0] == [];
  }

  ghost predicate WriteOf(t: Txn, names: seq<string>, ws: seq<string>) {
    && OnTheWire(t)
    && AllWords(names) && |ws| >= 1 && AllWords(ws) && Skipped(true, names) && Skipped(true, ws)
    && t.kind.WriteRun? && t.user == UserText(names) && t.message == Rebuilt(ws)
  }

  lemma SinglePeer(s0: System, s: System, n: nat, i: nat)
    requires Reachable(s0, s, n) && ReadableBoards(s0) && |s.txns| == 1 && QuietAt(s.txns[0], i)
    requires i < n == |s.txns[0].links| == |s0.boards| && PeerFollows(s0, s, 0, i)
    ensures |s.boards| == n && s.boards[i] == Outcome(s0.boards[i], s.txns)
  {
    AllRunsAtomic(s0, s, n, i);
  }

  /** A single write under a new number whose words all survive, with no failure of a peer's file: all replicas change
      alike or none. */
  lemma SingleWriteAtomic(s0: System, s: System, n: nat, names: seq<string>, ws: seq<string>)
    requires Reachable(s0, s, n) && ReadableBoards(s0) && |s.txns| == 1 && Quiet(s.txns[0])
    requires WriteOf(s.txns[0], names, ws) && s.txns[0].id !in s0.master
    requires forall l :: l in s.txns[0].links ==> NoFailure(l)
    ensures |s.boards| == |s0.boards| == n
    ensures var t := s.txns[0];
            if t.result == 0 then
              && s.master == Put(s0.master, t.id, t.user, t.message)
              && forall i :: 0 <= i < n ==> s.boards[i] == Put(s0.boards[i], t.id, t.user, t.message)
            else s.master == s0.master && s.boards == s0.boards
  {
    ReachableInv(s0, s, n);
    assert RunOk(s.txns[0], n);
    MasterIsOutcome(s0, s, n);
    OutcomeOne(s0.master, s.txns);
    forall i | 0 <= i < n ensures s.boards[i] == Outcome(s0.boards[i], s.txns) {
      assert QuietAt(s.txns[0], i);
      WriteFollows(s0, s, n, 0, i, names, ws);
      assert NoFailure(s.txns[0].links[i]);
      SinglePeer(s0, s, n, i);
    }
    forall i | 0 <= i < n { OutcomeOne(s0.boards[i], s.txns); }
  }

  // ---- ordering, in every reachable state

  /** The commit of the run has been sent to the peer. */
  predicate CommitSent(t: Txn, l: Link) {
    |l.log| >= 2 && l.log[1] == t.second
  }

  predicate HasAccepted(l: Link) {
    l.next >= 1 && |l.replies| >= 1 && l.replies[0] == Positive && l.taken >= 1
  }

  lemma CommitPhase(t: Txn, n: nat, i: nat, p: nat)
    requires RunOk(t, n) && i < n && p < n && CommitSent(t, t.links[i])
    ensures |t.links[p].replies| >= 1 && t.links[p].replies[0] == Positive && t.links[p].taken >= 1
  {
    assert LinkOk(t, t.work[i], t.links[i], t.dontReissue[i]);
    assert LinkOk(t, t.work[p], t.links[p], t.dontReissue[p]);
    assert !t.phase.SendPrecommit?;
    assert !(t.phase.SendQuit? && t.result != 0);
  }

  /** Even the request to commit is only sent once all peers have accepted the precommit, and only then can a peer
      have accepted it. */
  lemma CommitNeedsAllPrecommits(s0: System, s: System, n: nat, k: nat, i: nat, p: nat)
    requires Reachable(s0, s, n) && k < |s.txns| && i < n && p < n
    ensures |s.boards| == |s.txns[k].links| == n
    ensures CommitSent(s.txns[k], s.txns[k].links[i]) ==> HasAccepted(s.txns[k].links[p])
    ensures Accepted(s.txns[k].links[i]) ==> CommitSent(s.txns[k], s.txns[k].links[i])
  {
    ReachableInv(s0, s, n);
    var t := s.txns[k];
    assert PeerCellOk(s, s0, k, i) && PeerCellOk(s, s0, k, p);
    if CommitSent(t, t.links[i]) {
      CommitPhase(t, n, i, p);
    }
  }

  /** The master has stored the new line only if every peer has accepted it and said so; and then every peer keeps
      showing what it made of it, unless its replace failed unnoticed. */
  lemma MasterNeedsAllPeers(s0: System, s: System, n: nat, k: nat, i: nat)
    requires Reachable(s0, s, n) && k < |s.txns| && i < n && s.txns[k].result == 0
    ensures |s.boards| == |s0.boards| == |s.txns[k].links| == n
    ensures var t, l := s.txns[k], s.txns[k].links[i];
            && Accepted(l) && l.taken == 2
            && Cell(s.boards[i], t.id) == if l.missed then Cell(s0.boards[i], t.id) else Some(PeerEntry(t))
  {
    ReachableInv(s0, s, n);
    var t := s.txns[k];
    assert PeerCellOk(s, s0, k, i);
    assert LinkOk(t, t.work[i], t.links[i], t.dontReissue[i]);
  }

  // ---- claims and votes, in every reachable state

  lemma {:induction false} CountSum<T>(s: seq<T>, p: T -> bool, q: T -> bool, r: T -> bool)
    requires forall i :: 0 <= i < |s| ==> !(p(s[i]) && q(s[i])) && (p(s[i]) || q(s[i]) <==> r(s[i]))
    ensures Count(s, p) + Count(s, q) == Count(s, r)
  {
    if |s| > 0 {
      var init := s[..|s| - 1];
      assert forall i :: 0 <= i < |init| ==> s[i] == init[i];
      CountSum(init, p, q, r);
    }
  }

  predicate HoldsPeer(j: Job) {
    j.state.Claimed? || j.state.Sent?
  }

  /** The marks are a prefix, two jobs never hold one peer, the counters are the votes cast and never exceed the
      peers, and the three-way test of the broadcast holds exactly at the last vote, when no job of the phase is
      left that could touch the next phase. */
  lemma ClaimAndVote(s0: System, s: System, n: nat, k: nat)
    requires Reachable(s0, s, n) && k < |s.txns|
    ensures var t := s.txns[k];
            && |t.marked| == |t.work| == n
            && (forall i, p :: 0 <= i < p < n && t.marked[p] ==> t.marked[i])
            && t.pos + t.neg == Count(t.work, HasVoted) <= n
            && (LastVote(t.pos, t.neg, n) <==> Count(t.work, HasVoted) == n)
            && (LastVote(t.pos, t.neg, n) ==> forall j :: 0 <= j < |t.jobs| ==> t.jobs[j].state.Finished?)
    ensures var jobs := s.txns[k].jobs;
            forall j, j' :: 0 <= j < j' < |jobs| && HoldsPeer(jobs[j]) && HoldsPeer(jobs[j']) ==>
                              jobs[j].state.peer != jobs[j'].state.peer
  {
    ReachableInv(s0, s, n);
    var t := s.txns[k];
    assert RunOk(t, n);
    VotesBound(t, n);
    CountSum(t.work, IsFor, IsAgainst, HasVoted);
    assert forall j :: 0 <= j < |t.jobs| ==> JobOk(t.phase, t.work, j, t.jobs[j]);
  }

  /** Every phase contacts a peer at most once: one precommit, then one commit or a quit, then one abort or quit.  A
      call that is over and returned 0 has sent all three. */
  lemma ContactedOnce(s0: System, s: System, n: nat, k: nat, i: nat)
    requires Reachable(s0, s, n) && k < |s.txns| && i < n
    ensures |s.txns[k].links| == n && LogOk(s.txns[k], s.txns[k].links[i].log)
    ensures var t := s.txns[k]; Over(t) && t.result == 0 ==> t.links[i].log == [t.first, t.second, Quit]
  {
    ReachableInv(s0, s, n);
    var t := s.txns[k];
    assert RunOk(t, n);
    assert LinkOk(t, t.work[i], t.links[i], t.dontReissue[i]);
    if Over(t) { OverWork(t, n); }
  }

  lemma FailedLog(t: Txn, n: nat, i: nat)
    requires RunOk(t, n) && Over(t) && t.result == -1 && i < n && CommitSent(t, t.links[i])
    ensures var l := t.links[i];
            l.log == if l.taken == 2 && |l.replies| == 2 && l.replies[1] == NegativeExists then [t.first, t.second]
                     else [t.first, t.second, Abort]
  {
    OverWork(t, n);
    assert LinkOk(t, t.work[i], t.links[i], t.dontReissue[i]);
  }

  /** A call that is over and failed after its commit has sent an abort to all peers but those whose `negative_exists`
      it has read. */
  lemma AbortsSent(s0: System, s: System, n: nat, k: nat, i: nat)
    requires Reachable(s0, s, n) && k < |s.txns| && Over(s.txns[k]) && s.txns[k].result == -1 && i < n
    ensures |s.txns[k].links| == n
    ensures var t, l := s.txns[k], s.txns[k].links[i];
            CommitSent(t, l) ==>
              l.log == if l.taken == 2 && |l.replies| == 2 && l.replies[1] == NegativeExists then [t.first, t.second]
                       else [t.first, t.second, Abort]
  {
    ReachableInv(s0, s, n);
    assert RunOk(s.txns[k], n);
    if CommitSent(s.txns[k], s.txns[k].links[i]) { FailedLog(s.txns[k], n, i); }
  }

  /** A run that fails before its commit says goodbye to a peer if it is a write; a replace just leaves. */
  lemma FailedPrecommit(s0: System, s: System, n: nat, k: nat, i: nat)
    requires Reachable(s0, s, n) && k < |s.txns| && Over(s.txns[k]) && i < n
    ensures |s.txns[k].links| == n
    ensures var t, l := s.txns[k], s.txns[k].links[i];
            !CommitSent(t, l) ==> l.log == if t.kind.WriteRun? then [t.first, Quit] else [t.first]
  {
    ReachableInv(s0, s, n);
    var t := s.txns[k];
    assert RunOk(t, n);
    OverWork(t, n);
    assert LinkOk(t, t.work[i], t.links[i], t.dontReissue[i]);
  }

  /** No request of a run, not even its abort, changes a peer's board at the number of another run. */
  lemma OnlyOwnNumber(s0: System, s: System, n: nat, k: nat, i: nat, fault: Fault)
    requires Reachable(s0, s, n) && Enabled(s, Action.Handle(k, i, fault))
    ensures SameElsewhere(s.boards[i], Next(s, Action.Handle(k, i, fault)).boards[i], s.txns[k].id)
  {
    ReachableInv(s0, s, n);
    var t := s.txns[k];
    assert PeerCellOk(s, s0, k, i);
    assert LinkOk(t, t.work[i], t.links[i], t.dontReissue[i]);
    HandleKeeps(t, t.links[i], s.boards[i], fault, Cell(s0.boards[i], t.id));
  }

  // ---- the missed wakeup

  /** The guard in front of the wait holds whenever there is a peer, however many votes are in; so the coordinator
      always goes to sleep. */
  lemma AlwaysSleeps(t: Txn, n: nat)
    requires RunOk(t, n) && CanEndPush(t) && Voting(t.phase)
    ensures DoEndPush(t).pc == Wait(n == 0)
  {
    VotesBound(t, n);
  }

  /** Asleep with all votes cast: nothing is left that could wake it. */
  predicate Overslept(t: Txn, n: nat) {
    t.pc == Wait(false) && t.pos + t.neg == n
  }

  lemma OversleptStep(s: System, s0: System, n: nat, k: nat, a: Action)
    requires Inv(s, s0, n) && k < |s.txns| && Overslept(s.txns[k], n) && Enabled(s, a)
    ensures Overslept(Next(s, a).txns[k], n)
  {
    if a.t == k {
      assert RunOk(s.txns[k], n);
      VotesBound(s.txns[k], n);
    }
  }

  /** The call returns only if the coordinator is asleep before the last vote of each phase is cast: a coordinator
      that goes to sleep after it never gets further, whatever else happens. */
  lemma {:induction false} OversleepsForever(s: System, s0: System, n: nat, k: nat, actions: seq<Action>, s': System)
    requires Inv(s, s0, n) && k < |s.txns| && Overslept(s.txns[k], n) && Reaches(s, actions, s')
    ensures k < |s'.txns| && Overslept(s'.txns[k], n)
    decreases |actions|
  {
    if |actions| > 0 {
      InvStep(s, s0, n, actions[0]);
      OversleptStep(s, s0, n, k, actions[0]);
      OversleepsForever(Next(s, actions[0]), s0, n, k, actions[1..], s');
    }
  }

  /** It goes to sleep for good exactly if all votes are in by then, and there is a peer. */
  lemma OversleepsWhen(t: Txn, n: nat)
    requires RunOk(t, n) && CanEndPush(t) && Voting(t.phase)
    ensures Overslept(DoEndPush(t), n) <==> n > 0 && t.pos + t.neg == n
  {
    AlwaysSleeps(t, n);
  }

  /** A job that has claimed a peer and gets no connection to it never votes; as long as there is one in a voting phase
      the call does not get past the wait. */
  lemma ConnectionFails(s0: System, s: System, n: nat, k: nat, j: nat)
    requires Reachable(s0, s, n) && k < |s.txns| && Voting(s.txns[k].phase)
    requires j < |s.txns[k].jobs| && s.txns[k].jobs[j].state.Claimed?
    ensures s.txns[k].pc.Spawn? || s.txns[k].pc == Wait(false)
  {
    ReachableInv(s0, s, n);
    assert RunOk(s.txns[k], n);
    VotesBound(s.txns[k], n);
  }

  /** A coordinator that sleeps before the last vote is woken by it, and by no other vote. */
  lemma LastVoteWakes(t: Txn, n: nat, j: nat, got: bool)
    requires RunOk(t, n) && CanVote(t, j, got) && t.pc == Wait(false)
    ensures DoVote(t, j, got).pc == Wait(DoVote(t, j, got).pos + DoVote(t, j, got).neg == n)
  {
    VotePhase(t, n, j, got);
    VotesBound(DoVote(t, j, got), n);
  }
}
