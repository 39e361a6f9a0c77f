/** The signaling server's worker pool: workers share one task queue, take
    tasks off it and hand each to the injected processor.  Threads are not
    part of this sequential model: a worker's loop is run pass by pass, and
    stopping the pool runs each worker's loop to its end in turn, the way
    joining its thread waits for it. */
module Workers {
  import opened Common
  import opened Queue

  /** The processor injected into every worker: it records each task it is
      handed, with the id of the worker that handed it. */
  class Processor {
    var handled: seq<(SignalingTask, nat)>

    constructor ()
      ensures handled == []
    {
      handled := [];
    }

    method Process(task: SignalingTask, workerId: nat)
      modifies this
      ensures handled == old(handled) + [(task, workerId)]
    {
      handled := handled + [(task, workerId)];
    }
  }

  /** The tasks of a processor log, in the order they were handled. */
  function Tasks(log: seq<(SignalingTask, nat)>): (ts: seq<SignalingTask>)
    ensures |ts| == |log| && forall i :: 0 <= i < |log| ==> ts[i] == log[i].0
  {
    seq(|log|, i requires 0 <= i < |log| => log[i].0)
  }

  /** A processor log in which one worker handled `tasks` in order. */
  function HandledBy(tasks: seq<SignalingTask>, workerId: nat): (log: seq<(SignalingTask, nat)>)
    ensures Tasks(log) == tasks
    ensures forall i :: 0 <= i < |log| ==> log[i].1 == workerId
  {
    seq(|tasks|, i requires 0 <= i < |tasks| => (tasks[i], workerId))
  }

  lemma HandledByAppend(tasks: seq<SignalingTask>, task: SignalingTask, workerId: nat)
    ensures HandledBy(tasks + [task], workerId) == HandledBy(tasks, workerId) + [(task, workerId)]
  {
    assert HandledBy(tasks + [task], workerId) == HandledBy(tasks, workerId) + [(task, workerId)];
  }

  lemma TasksAppend(a: seq<(SignalingTask, nat)>, b: seq<(SignalingTask, nat)>)
    ensures Tasks(a + b) == Tasks(a) + Tasks(b)
  {
    assert Tasks(a + b) == Tasks(a) + Tasks(b);
  }

  class Worker {
    const id: nat
    const queue: BlockingQueue<SignalingTask>
    const processor: Processor
    var running: bool

    constructor (id: nat, queue: BlockingQueue<SignalingTask>, processor: Processor)
      ensures this.id == id && this.queue == queue && this.processor == processor
      ensures !running
    {
      this.id := id;
      this.queue := queue;
      this.processor := processor;
      running := false;
    }

    /** Clears the running flag; a worker that is not running is left alone. */
    method Stop()
      modifies this`running
      ensures !running
    {
      if !running {
        return;
      }
      running := false;
    }

    /** The start of the loop: the running flag is set. */
    method StartLoop()
      modifies this`running
      ensures running
    {
      running := true;
    }

    method ProcessMessage(task: SignalingTask)
      modifies processor
      ensures processor.handled == old(processor.handled) + [(task, id)]
    {
      processor.Process(task, id);
    }

    /** One pass of the loop body.  While running, the worker pops with a
        timeout; once stopped, it only takes what is already queued and
        leaves the loop when the queue is empty.  A task taken off the front
        is processed at once. */
    method LoopIteration() returns (exited: bool)
      modifies queue, processor
      ensures exited <==> !running && old(queue.items) == []
      ensures old(queue.items) == [] ==>
        queue.items == [] && processor.handled == old(processor.handled)
      ensures old(queue.items) != [] ==>
        && queue.items == old(queue.items)[1..]
        && processor.handled == old(processor.handled) + [(old(queue.items)[0], id)]
    {
      var task := EmptyTask();
      if running {
        var ok;
        ok, task := queue.Pop(task, DefaultTimeout);
        if ok {
          ProcessMessage(task);
        }
        exited := false;
      } else {
        var ok;
        ok, task := queue.TryPop(task);
        if ok {
          ProcessMessage(task);
          exited := false;
        } else {
          exited := true;
        }
      }
    }

    /** The rest of the loop once the flag is cleared: every queued task is
        processed by this worker, front first, and the loop ends with the
        queue empty. */
    method FinishLoop()
      requires !running
      modifies queue, processor
      ensures queue.items == []
      ensures processor.handled == old(processor.handled) + HandledBy(old(queue.items), id)
    {
      var exited := false;
      ghost var taken: seq<SignalingTask> := [];
      while !exited
        invariant taken + queue.items == old(queue.items)
        invariant exited ==> queue.items == []
        invariant processor.handled == old(processor.handled) + HandledBy(taken, id)
        decreases |queue.items|, if exited then 0 else 1
      {
        ghost var items := queue.items;
        exited := LoopIteration();
        if items != [] {
          HandledByAppend(taken, items[0], id);
          assert items == [items[0]] + items[1..];
          taken := taken + [items[0]];
        }
      }
      assert taken == old(queue.items);
    }
  }

  /** The pop timeout of a running worker, in milliseconds. */
  const DefaultTimeout: int := 100

  class WorkerPool {
    const queue: BlockingQueue<SignalingTask>
    var running: bool
    var workers: seq<Worker>
    /** The processor the workers were started with. */
    var processor: Processor?

    /** A running pool has at least one worker and a processor, and every
        worker is on the pool's queue and processor; a stopped pool has no
        workers. */
    predicate Valid()
      reads this, workers
    {
      && (!running ==> workers == [])
      && (running ==> processor != null && |workers| > 0)
      && (forall i :: 0 <= i < |workers| ==> workers[i].queue == queue && workers[i].processor == processor)
    }

    constructor ()
      ensures Valid() && !running && workers == [] && queue.items == []
      ensures fresh(queue)
    {
      queue := new BlockingQueue<SignalingTask>();
      running := false;
      workers := [];
      processor := null;
    }

    /** Starts `threadCount` workers with ids 1 to threadCount on the shared
        queue and returns true; an already running pool is left alone and
        the result is false.  A count of 0 is fatal to the program. */
    method Start(threadCount: nat, processor: Processor) returns (ok: bool)
      requires Valid()
      requires running || threadCount > 0
      modifies this`running, this`workers, this`processor
      ensures Valid()
      ensures ok <==> !old(running)
      ensures !ok ==> running && workers == old(workers) && this.processor == old(this.processor)
      ensures ok ==>
        && running && this.processor == processor && |workers| == threadCount
        && (forall i :: 0 <= i < threadCount ==> workers[i].id == i + 1 && workers[i].running)
        && (forall i :: 0 <= i < threadCount ==> fresh(workers[i]))
    {
      if running {
        return false;
      }
      running := true;
      this.processor := processor;
      workers := [];
      var i := 0;
      while i < threadCount
        invariant 0 <= i <= threadCount
        invariant |workers| == i && this.processor == processor && running
        invariant forall k :: 0 <= k < i ==> workers[k].id == k + 1 && workers[k].running
        invariant forall k :: 0 <= k < i ==> workers[k].queue == queue && workers[k].processor == processor
        invariant forall k :: 0 <= k < i ==> fresh(workers[k])
      {
        var worker := new Worker(i + 1, queue, processor);
        worker.StartLoop();
        workers := workers + [worker];
        i := i + 1;
      }
      ok := true;
    }

    /** Stops a running pool and returns true: every worker's flag is
        cleared, every worker's loop runs to its end, which processes every
        task still queued exactly once and in order, and the worker list is
        emptied.  A pool that is not running is left alone and the result
        is false. */
    method Stop() returns (ok: bool)
      requires Valid()
      modifies this`running, this`workers, workers, queue, processor
      ensures Valid() && !running && workers == []
      ensures ok <==> old(running)
      ensures !ok ==> queue.items == old(queue.items)
      ensures !ok ==> processor == old(processor) && (processor == null || processor.handled == old(processor.handled))
      ensures ok ==>
        && queue.items == [] && processor != null
        && Tasks(processor.handled) == Tasks(old(processor.handled)) + old(queue.items)
    {
      if !running {
        return false;
      }
      running := false;
      var ws := workers;
      var i := 0;
      while i < |ws|
        invariant 0 <= i <= |ws|
        invariant forall k :: 0 <= k < i ==> !ws[k].running
        modifies ws
      {
        ws[i].Stop();
        i := i + 1;
      }
      var pending := queue.items;
      i := 0;
      while i < |ws|
        invariant 0 <= i <= |ws|
        invariant forall k :: 0 <= k < |ws| ==> !ws[k].running
        invariant i == 0 ==> queue.items == pending && processor.handled == old(processor.handled)
        invariant i > 0 ==> queue.items == [] && Tasks(processor.handled) == Tasks(old(processor.handled)) + pending
        modifies queue, processor
      {
        ghost var before := processor.handled;
        ws[i].FinishLoop();
        TasksAppend(before, HandledBy(if i == 0 then pending else [], ws[i].id));
        i := i + 1;
      }
      workers := [];
      ok := true;
    }

    /** Queues one task on a running pool and returns true; a pool that is
        not running queues nothing and returns false. */
    method SubmitTask(task: SignalingTask) returns (ok: bool)
      modifies queue
      ensures ok <==> running
      ensures ok ==> queue.items == old(queue.items) + [task]
      ensures !ok ==> queue.items == old(queue.items)
    {
      if !running {
        return false;
      }
      ok := queue.Push(task);
    }

    method GetQueueSize() returns (n: nat)
      ensures n == |queue.items|
    {
      n := queue.Size();
    }
  }
}
