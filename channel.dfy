/**
 * The item channel of the channel experiment (extra/lib_arcsend.rs:70-91 and
 * 312-321): every line becomes a `SkimJaime` item, and all items are sent
 * into a bounded channel sized to hold exactly them.
 */
module SkimChannel {
  /** A line wrapped as a skim item; it is displayed, matched and output
      as the line itself. */
  datatype SkimJaime = SkimJaime(line: string) {
    function Display(): (s: string) ensures s == line { line }
    function Text(): (s: string) ensures s == line { line }
    function Output(): (s: string) ensures s == line { line }
  }

  /** The items made from lines, in order. */
  function Wrap(lines: seq<string>): (items: seq<SkimJaime>)
    ensures |items| == |lines|
    ensures forall k :: 0 <= k < |lines| ==> items[k].Output() == lines[k]
  {
    seq(|lines|, k requires 0 <= k < |lines| => SkimJaime(lines[k]))
  }

  /** The outputs of the items made from lines are those lines. */
  lemma {:induction false} WrapOutputs(lines: seq<string>)
    ensures seq(|lines|, k requires 0 <= k < |lines| => Wrap(lines)[k].Output()) == lines
  {
    var items := Wrap(lines);
    var outputs := seq(|lines|, k requires 0 <= k < |lines| => items[k].Output());
    assert forall k :: 0 <= k < |lines| ==> outputs[k] == lines[k];
  }

  /** A first-in first-out channel with a fixed capacity. */
  class BoundedChannel<T> {
    const capacity: nat
    var queue: seq<T>

    predicate Valid()
      reads this
    {
      |queue| <= capacity
    }

    constructor (capacity: nat)
      ensures Valid() && this.capacity == capacity && queue == []
    {
      this.capacity := capacity;
      queue := [];
    }

    /** Sending into a channel that has room appends the item. */
    method Send(item: T)
      requires Valid() && |queue| < capacity
      modifies this
      ensures Valid() && queue == old(queue) + [item]
    {
      queue := queue + [item];
    }

    /** Receiving everything drains the channel in sending order. */
    method ReceiveAll() returns (items: seq<T>)
      requires Valid()
      modifies this
      ensures Valid() && items == old(queue) && queue == []
    {
      items := [];
      while |queue| > 0
        invariant Valid()
        invariant items + queue == old(queue)
        decreases |queue|
      {
        items := items + [queue[0]];
        queue := queue[1..];
      }
    }
  }

  /** `skim_items`: a channel with room for exactly the items, holding them
      all in order, so no send is ever refused. */
  method SkimItems<T>(items: seq<T>) returns (rx: BoundedChannel<T>)
    ensures fresh(rx) && rx.Valid()
    ensures rx.capacity == |items| && rx.queue == items
  {
    rx := new BoundedChannel(|items|);
    for k := 0 to |items|
      invariant rx.Valid() && rx.capacity == |items| && rx.queue == items[..k]
    {
      rx.Send(items[k]);
    }
  }
}
