/**
 The linked task queue of HW4: nodes with a `next` pointer, `queue_head` and `queue_tail`.

 Each method is the body of one critical section, so ThreadPool may treat it as a single step. The
 ghost set `freed` records the nodes given back by line 22; the asserts in the methods show that no
 pointer into it is ever followed, although `tail` itself is left dangling when the queue empties.
 */
module TaskQueue {

  class Task {
    const job: nat
    ghost const serial: nat   // how many tasks were linked before this one
    var next: Task?

    constructor (job: nat, ghost serial: nat)
      ensures this.job == job && this.serial == serial && next == null
    {
      this.job := job;
      this.serial := serial;
      next := null;
    }
  }

  class Queue {
    var head: Task?
    var tail: Task?

    ghost var nodes: seq<Task>   // every node ever linked, in order
    ghost var added: seq<nat>    // their jobs
    ghost var taken: nat         // how many of them have been taken, from the front
    ghost var freed: set<Task>

    ghost predicate Valid()
      reads this, nodes
    {
      && taken <= |nodes| == |added|
      && (forall i :: 0 <= i < |nodes| ==> nodes[i].job == added[i] && nodes[i].serial == i)
      && head == (if taken == |nodes| then null else nodes[taken])
      && (nodes != [] ==> tail == nodes[|nodes| - 1])
      && (forall i {:trigger nodes[i].next} :: taken <= i < |nodes| ==> nodes[i].next == After(nodes, i))
      && (forall i :: taken <= i < |nodes| ==> nodes[i] !in freed)
    }

    /** The node that follows node i in the list. */
    static ghost function After(nodes: seq<Task>, i: nat): Task?
      requires i < |nodes|
    {
      if i + 1 < |nodes| then nodes[i + 1] else null
    }

    /** The jobs still waiting: what was added but not taken. */
    ghost function Contents(): seq<nat>
      reads this
      requires taken <= |added|
    {
      added[taken..]
    }

    /** tpool_init, line 79. */
    constructor ()
      ensures Valid() && added == [] && taken == 0 && freed == {}
    {
      head, tail := null, null;
      nodes, added, taken, freed := [], [], 0, {};
    }

    /** tpool_add, lines 37-52: all three branches append. */
    method Add(job: nat)
      requires Valid()
      modifies this, nodes
      ensures Valid()
      ensures Contents() == old(Contents()) + [job]
      ensures added == old(added) + [job]
      ensures fresh(tail) && nodes == old(nodes) + [tail] && taken == old(taken) && freed == old(freed)
    {
      var task := new Task(job, |nodes|);
      Link(task);
    }

    /** The three branches of lines 41-52. */
    method Link(task: Task)
      requires Valid() && task.serial == |nodes| && task.next == null && task !in freed
      modifies this`head, this`tail, this`nodes, this`added, nodes
      ensures Valid() && tail == task && nodes == old(nodes) + [task] && added == old(added) + [task.job]
    {
      if head != null && head.next != null {
        assert tail == nodes[|nodes| - 1] && tail !in freed;
        tail.next := task;
        tail := task;
      } else if head != null && head.next == null {
        assert head == nodes[taken] && head !in freed && After(nodes, taken) == null;
        head.next := task;
        tail := task;
      } else {
        head, tail := task, task;
      }
      nodes, added := nodes + [task], added + [task.job];
    }

    /** `work`, lines 16-20: take the first task, or nothing. */
    method Take() returns (task: Task?)
      requires Valid()
      modifies this`head, this`taken
      ensures Valid()
      ensures task == null <==> old(Contents()) == []
      ensures task == null ==> taken == old(taken)
      ensures task != null ==>
                && taken == old(taken) + 1 && task == nodes[old(taken)] && task !in freed
                && old(Contents()) == [task.job] + Contents()
    {
      task := head;
      if task != null {
        assert task !in freed && task.next == After(nodes, taken);
        assert added[taken..] == [added[taken]] + added[taken + 1..];
        head := task.next;
        taken := taken + 1;
      }
    }

    /** `work`, line 22. The worker that took a task frees it once. */
    method Free(task: Task)
      requires Valid() && task.serial < taken && task == nodes[task.serial] && task !in freed
      modifies this`freed
      ensures Valid() && freed == old(freed) + {task}
    {
      freed := freed + {task};
    }
  }

  /** Adding, taking and freeing one task leaves `tail` pointing at freed memory, and the next Add is still safe. */
  method StaleTail(job: nat, next: nat) returns (queue: Queue)
    ensures fresh(queue) && queue.Valid() && queue.Contents() == [next]
  {
    queue := new Queue();
    queue.Add(job);
    var task := queue.Take();
    queue.Free(task);
    assert queue.tail == task && task in queue.freed;
    queue.Add(next);
  }
}
