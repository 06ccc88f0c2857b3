/** The linked work queue of a thread pool: cells chained from the first to the last, and a counter. */
module WorkQueue {

  class Work<T> {
    var prev: Work?<T> // the job behind this one
    const job: T

    constructor (job: T)
      ensures this.job == job && prev == null
    {
      this.job := job;
      prev := null;
    }
  }

  class Queue<T> {
    var first: Work?<T>
    var last: Work?<T>
    var workToBeDone: nat
    /** The binary semaphore that tells the workers of pending work. */
    var bit: bool
    /** The cells of the queue in order. */
    ghost var cells: seq<Work<T>>

    ghost predicate Valid()
      reads this, cells
    {
      && workToBeDone == |cells|
      && (|cells| == 0 ==> first == null && last == null)
      && (|cells| > 0 ==> first == cells[0] && last == cells[|cells| - 1] && last.prev == null)
      && (forall i, j :: 0 <= i < j < |cells| ==> cells[i] != cells[j])
      && (forall i :: 0 <= i < |cells| - 1 ==> cells[i].prev == cells[i + 1])
    }

    /** The jobs that wait, oldest first. */
    ghost function Jobs(): seq<T>
      reads this, cells
    {
      seq(|cells|, i requires 0 <= i < |cells| reads this, cells => cells[i].job)
    }

    constructor ()
      ensures Valid() && Jobs() == [] && !bit && cells == []
    {
      first, last, workToBeDone, bit, cells := null, null, 0, false, [];
    }

    /** `push_work`, with its post of the semaphore. */
    method PushWork(newWork: Work<T>)
      requires Valid() && newWork !in cells
      modifies this, newWork, cells
      ensures Valid() && cells == old(cells) + [newWork] && bit
      ensures Jobs() == old(Jobs()) + [newWork.job]
    {
      newWork.prev := null;
      if workToBeDone == 0 {
        first := newWork;
        last := newWork;
      } else {
        last.prev := newWork;
        last := newWork;
      }
      workToBeDone := workToBeDone + 1;
      cells := cells + [newWork];
      bit := true;
    }

    /** `pull_work`: the oldest job, or nothing; posts again if work is left. */
    method PullWork() returns (work: Work?<T>)
      requires Valid()
      modifies this
      ensures Valid()
      ensures work == null <==> old(Jobs()) == []
      ensures work == null ==> cells == [] && bit == old(bit)
      ensures work != null ==> [work] + cells == old(cells) && [work.job] + Jobs() == old(Jobs())
      ensures work != null ==> bit == (old(bit) || Jobs() != [])
    {
      work := first;
      if workToBeDone == 0 {
      } else if workToBeDone == 1 {
        first := null;
        last := null;
        workToBeDone := 0;
        cells := [];
      } else {
        first := work.prev;
        workToBeDone := workToBeDone - 1;
        cells := cells[1..];
        bit := true;
      }
    }

    /** `clear_work_queue`: takes out everything that is left; nothing is lost or taken twice. */
    method ClearWorkQueue() returns (drained: seq<T>)
      requires Valid()
      modifies this
      ensures Valid() && Jobs() == [] && !bit
      ensures drained == old(Jobs())
    {
      drained := [];
      while workToBeDone > 0
        invariant Valid() && drained + Jobs() == old(Jobs())
        decreases workToBeDone
      {
        ghost var before := Jobs();
        var work := PullWork();
        assert drained + before == (drained + [work.job]) + Jobs();
        drained := drained + [work.job];
      }
      first, last, workToBeDone, bit, cells := null, null, 0, false, [];
    }
  }
}
