/**
 The record that the sender jobs of one run share, and what they do with it under its mutex.  Every method is a
 critical section of the source and carries out the bookkeeping of one action of the protocol.
 */
module PeerStat {
  import opened Common
  import opened PeerProtocol
  import opened TwoPhase
  import opened PeerSession

  /** What is left in the receive buffer once its last character, the newline, is dropped. */
  function Received(reply: Option<Reply>): string {
    match reply
    case None => ""
    case Some(Positive) => "positive"
    case Some(Negative) => "negative"
    case Some(NegativeExists) => "negative_exists"
  }

  function ReplyRead(t: Txn, j: nat, got: bool): Option<Reply>
    requires CanVote(t, j, got)
  {
    var link := t.links[t.jobs[j].state.peer];
    if got then Some(link.replies[|link.replies| - 1]) else None
  }

  lemma FirstUnmarkedIs(marked: seq<bool>, i: nat)
    requires i <= |marked| && (i < |marked| ==> !marked[i])
    requires forall k :: 0 <= k < i ==> marked[k]
    ensures FirstUnmarked(marked) == i
  {
    if i > 0 {
      FirstUnmarkedIs(marked[1..], i - 1);
    }
  }

  class Stat {
    var posCount: nat
    var negCount: nat
    const marked: array<bool>
    const dontReissue: array<bool>

    /** The record holds the shared state of run `t`. */
    ghost predicate Holds(t: Txn)
      reads this, marked, dontReissue
    {
      && marked != dontReissue
      && posCount == t.pos && negCount == t.neg
      && marked[..] == t.marked && dontReissue[..] == t.dontReissue
      && |t.marked| == |t.dontReissue| == |t.work| == |t.links|
    }

    constructor (n: nat, ghost t: Txn)
      requires Unstarted(t, n)
      ensures Holds(t) && fresh(marked) && fresh(dontReissue)
    {
      posCount, negCount := 0, 0;
      marked := new bool[n](_ => false);
      dontReissue := new bool[n](_ => false);
    }

    /** Takes the first unmarked peer; -1 if there is none. */
    method ClaimPeer(ghost t: Txn, ghost j: nat) returns (mark: int)
      requires Holds(t) && CanClaim(t, j)
      modifies marked
      ensures Holds(DoClaim(t, j))
      ensures mark == if FirstUnmarked(t.marked) < |t.marked| then FirstUnmarked(t.marked) else -1
    {
      mark := -1;
      var i := 0;
      while i < marked.Length
        invariant 0 <= i <= marked.Length && marked[..] == t.marked
        invariant forall k :: 0 <= k < i ==> marked[k]
      {
        if !marked[i] {
          assert !t.marked[i] && forall k :: 0 <= k < i ==> t.marked[k] == marked[k];
          FirstUnmarkedIs(t.marked, i);
          mark := i;
          marked[i] := true;
          return;
        }
        i := i + 1;
      }
      assert forall k :: 0 <= k < i ==> t.marked[k] == marked[k];
      FirstUnmarkedIs(t.marked, i);
    }

    /** Counts the answer to a precommit; says whether the coordinator is woken. */
    method CountPrecommit(buff: string, ghost t: Txn, ghost j: nat, ghost got: bool) returns (broadcast: bool)
      requires Holds(t) && CanVote(t, j, got) && t.jobs[j].kind.SendPrecommit? && buff == Received(ReplyRead(t, j, got))
      modifies this
      ensures Holds(DoVote(t, j, got))
      ensures broadcast == LastVote(DoVote(t, j, got).pos, DoVote(t, j, got).neg, |t.links|)
    {
      if buff == "positive" {
        posCount := posCount + 1;
      } else {
        negCount := negCount + 1;
      }
      var n := marked.Length;
      broadcast := posCount == n || negCount == n || posCount + negCount == n;
    }

    /** Counts the answer to a commit and remembers a peer that refused because it has the line already. */
    method CountCommit(buff: string, mark: nat, ghost t: Txn, ghost j: nat, ghost got: bool) returns (broadcast: bool)
      requires Holds(t) && CanVote(t, j, got) && t.jobs[j].kind.SendCommit? && buff == Received(ReplyRead(t, j, got))
      requires mark == t.jobs[j].state.peer
      modifies this, dontReissue
      ensures Holds(DoVote(t, j, got))
      ensures broadcast == LastVote(DoVote(t, j, got).pos, DoVote(t, j, got).neg, |t.links|)
    {
      if buff == "positive" {
        posCount := posCount + 1;
      } else if buff == "negative_exists" {
        negCount := negCount + 1;
        dontReissue[mark] := true;
      } else {
        negCount := negCount + 1;
      }
      var n := marked.Length;
      broadcast := posCount == n || negCount == n || posCount + negCount == n;
    }

    /** Prepares the counters and marks for the next phase. */
    method Reset(ghost t: Txn, ghost phase: JobKind, ghost result: int)
      requires Holds(t)
      modifies this, marked
      ensures Holds(StartPhase(t, phase, result))
    {
      posCount, negCount := 0, 0;
      var i := 0;
      while i < marked.Length
        invariant 0 <= i <= marked.Length && dontReissue[..] == t.dontReissue
        invariant posCount == negCount == 0
        invariant forall k :: 0 <= k < i ==> !marked[k]
      {
        marked[i] := false;
        i := i + 1;
      }
    }
  }

  /** What the master compares is what the peer has sent, less its last character; no two answers are the same, and
      none is the empty buffer of a lost answer. */
  lemma RepliesArrive(r: Reply, q: Reply)
    ensures var text := ReplyText(Some(r)); text != "" && text[..|text| - 1] == Received(Some(r))
    ensures Received(Some(r)) != Received(None)
    ensures r != q ==> Received(Some(r)) != Received(Some(q))
  {
    assert |"positive"| == 8 && |"negative"| == 8 && |"negative_exists"| == 15 && "positive"[0] != "negative"[0];
    assert "positive\n"[..8] == "positive" && "negative\n"[..8] == "negative";
    assert "negative_exists\n"[..15] == "negative_exists";
  }
}
