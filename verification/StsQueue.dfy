/** The linked message queue (common/src/sts_queue.c). */
module StsQueues {
  import opened Text

  class Element<T> {
    var value: T
    var next: Element?<T>

    constructor (value: T)
      ensures this.value == value && next == null
    {
      this.value := value;
      next := null;
    }
  }

  class StsQueue<T> {
    var head: Element?<T>
    var tail: Element?<T>

    /** The abstract value: the queued values, oldest first. */
    ghost var Contents: seq<T>
    /** The elements reachable from `head`, in order. */
    ghost var chain: seq<Element<T>>
    ghost var Repr: set<object>

    /** `tail` is the last element whenever there is one; once the queue is empty it may be anything. */
    ghost predicate Valid()
      reads this, Repr
      ensures Valid() ==> this in Repr
    {
      && this in Repr
      && |Contents| == |chain|
      && (forall i | 0 <= i < |chain| :: chain[i] in Repr && chain[i].value == Contents[i])
      && (forall i, j | 0 <= i < j < |chain| :: chain[i] != chain[j])
      && (forall i, j | 0 <= i && j == i + 1 < |chain| :: chain[i].next == chain[j])
      && (chain == [] ==> head == null)
      && (chain != [] ==> head == chain[0] && tail == chain[|chain| - 1] && chain[|chain| - 1].next == null)
    }

    constructor ()
      ensures Valid() && fresh(Repr)
      ensures Contents == []
    {
      head, tail := null, null;
      chain, Contents := [], [];
      Repr := {this};
    }

    method Push(elem: T)
      requires Valid()
      modifies Repr
      ensures Valid() && fresh(Repr - old(Repr))
      ensures Contents == old(Contents) + [elem]
    {
      var element := new Element(elem);
      if head == null {
        head := element;
        tail := element;
      } else {
        tail.next := element;
        tail := element;
      }
      chain, Contents := chain + [element], Contents + [elem];
      Repr := Repr + {element};
    }

    /** `None` is the NULL that pop returns for an empty queue. */
    method Pop() returns (value: Option<T>)
      requires Valid()
      modifies Repr
      ensures Valid() && fresh(Repr - old(Repr))
      ensures old(Contents) == [] ==> value == None && Contents == []
      ensures old(Contents) != [] ==> value == Some(old(Contents)[0]) && Contents == old(Contents)[1..]
    {
      if head == null {
        value := None;
      } else {
        value := Some(head.value);
        assert |chain| > 1 ==> chain[0].next == chain[1];
        head := head.next;
        chain, Contents := chain[1..], Contents[1..];
        assert forall i | 0 <= i < |chain| :: chain[i] == old(chain)[i + 1];
      }
    }
  }
}
