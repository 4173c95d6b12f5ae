/** The Redis state the intake service and the deploy worker share: the list
    `build-queue` and the hash `status`. */
module Store {
  import opened Wrappers

  function Reverse<T>(s: seq<T>): (r: seq<T>)
    ensures |r| == |s|
    ensures forall i :: 0 <= i < |s| ==> r[i] == s[|s| - 1 - i]
  {
    if s == [] then [] else Reverse(s[1..]) + [s[0]]
  }

  lemma ReversePrepend<T>(x: T, q: seq<T>)
    ensures Reverse([x] + q) == Reverse(q) + [x]
  {
    assert ([x] + q)[1..] == q;
  }

  lemma ReverseAppend<T>(q: seq<T>, x: T)
    ensures Reverse(q + [x]) == [x] + Reverse(q)
  {
    assert forall i :: 0 <= i < |q| + 1 ==> Reverse(q + [x])[i] == ([x] + Reverse(q))[i];
  }

  /** A snapshot of both keys: the list head first, and the hash. */
  datatype State = State(buildQueue: seq<string>, status: map<string, string>)

  /** The ids still waiting, oldest first: `lPush` adds at the head and
      `brPop` takes from the tail, so the tail is the oldest. */
  function Pending(s: State): seq<string> {
    Reverse(s.buildQueue)
  }

  class Redis {
    var buildQueue: seq<string>
    var status: map<string, string>

    constructor ()
      ensures buildQueue == [] && status == map[]
    {
      buildQueue := [];
      status := map[];
    }

    function Snapshot(): State
      reads this
    {
      State(buildQueue, status)
    }

    /** `lPush("build-queue", id)`: the id joins as the newest entry and
        every entry already waiting keeps its place. */
    method LPush(id: string)
      modifies this
      ensures buildQueue == [id] + old(buildQueue)
      ensures status == old(status)
      ensures Pending(Snapshot()) == Pending(old(Snapshot())) + [id]
    {
      ReversePrepend(id, buildQueue);
      buildQueue := [id] + buildQueue;
    }

    /** `brPop("build-queue", 0)`: the oldest entry, or `None` when the list
        is empty and the call goes on blocking. */
    method BRPop() returns (element: Option<string>)
      modifies this
      ensures old(buildQueue) == [] ==> element.None? && buildQueue == []
      ensures old(buildQueue) != [] ==> element.Some? && old(buildQueue) == buildQueue + [element.value]
      ensures element.Some? ==> Pending(old(Snapshot())) == [element.value] + Pending(Snapshot())
      ensures status == old(status)
    {
      if buildQueue == [] {
        return None;
      }
      var n := |buildQueue| - 1;
      element := Some(buildQueue[n]);
      assert buildQueue == buildQueue[..n] + [buildQueue[n]];
      ReverseAppend(buildQueue[..n], buildQueue[n]);
      buildQueue := buildQueue[..n];
    }

    /** `hSet("status", field, value)`. */
    method HSet(field: string, value: string)
      modifies this
      ensures status == old(status)[field := value]
      ensures buildQueue == old(buildQueue)
    {
      status := status[field := value];
    }
  }
}
