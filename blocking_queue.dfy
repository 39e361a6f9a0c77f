/** The task queue the signaling server's connections feed and its workers
    drain: a first-in first-out queue.  Locking, waiting and waking are not
    part of this sequential model, so a pop that would wait on an empty
    queue times out. */
module Queue {

  class BlockingQueue<T> {
    /** The queued elements, front first. */
    var items: seq<T>

    constructor ()
      ensures items == []
    {
      items := [];
    }

    /** Appends `ele` at the back; always succeeds. */
    method Push(ele: T) returns (ok: bool)
      modifies this
      ensures ok
      ensures items == old(items) + [ele]
    {
      items := items + [ele];
      ok := true;
    }

    /** Takes the front element, waiting up to `timeoutMs` for one.  Nothing
        else can fill the queue meanwhile, so on an empty queue the wait
        times out: the result is false, `value` is handed back unchanged and
        the queue stays as it was. */
    method Pop(value: T, timeoutMs: int) returns (ok: bool, result: T)
      modifies this
      ensures ok <==> old(items) != []
      ensures ok ==> result == old(items)[0] && items == old(items)[1..]
      ensures !ok ==> result == value && items == old(items)
    {
      if items == [] {
        return false, value;
      }
      result := items[0];
      items := items[1..];
      ok := true;
    }

    /** Takes the front element if there is one, without waiting. */
    method TryPop(value: T) returns (ok: bool, result: T)
      modifies this
      ensures ok <==> old(items) != []
      ensures ok ==> result == old(items)[0] && items == old(items)[1..]
      ensures !ok ==> result == value && items == old(items)
    {
      if items == [] {
        return false, value;
      }
      result := items[0];
      items := items[1..];
      ok := true;
    }

    method Size() returns (n: nat)
      ensures n == |items|
    {
      n := |items|;
    }

    /** True exactly when the queue holds nothing, that is when Size is 0. */
    method Empty() returns (b: bool)
      ensures b <==> |items| == 0
    {
      b := items == [];
    }
  }
}
