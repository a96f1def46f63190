/** End-of-topic detection: the partitions that have not yet reported their end. */
module Detection {
  import opened Kafka
  import opened Events

  /** The partitions still awaited after an event. */
  function Awaited(remaining: set<Partition>, ev: Event): set<Partition> {
    if ev.Eof? then remaining - {ev.partition} else remaining
  }

  class EofDetection {
    var remaining: set<Partition>

    constructor Begin(partitions: seq<Partition>)
      ensures remaining == set p | p in partitions
    {
      remaining := {};
      new;
      for i := 0 to |partitions|
        invariant remaining == set p | p in partitions[..i]
      {
        assert partitions[..i + 1] == partitions[..i] + [partitions[i]];
        remaining := remaining + {partitions[i]};
      }
      assert partitions[..|partitions|] == partitions;
    }

    method Observe(ev: Event) returns (done: bool)
      modifies this
      ensures remaining == Awaited(old(remaining), ev)
      ensures done <==> remaining == {}
    {
      if ev.Eof? {
        remaining := remaining - {ev.partition};
      }
      done := |remaining| == 0;
    }
  }
}
