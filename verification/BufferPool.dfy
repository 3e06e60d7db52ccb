/** Reusable read buffers in three size tiers. */
module BufferPool {
  import opened Bytes

  const SMALL_SIZE: nat := 4 * 1024
  const MEDIUM_SIZE: nat := 64 * 1024
  const LARGE_SIZE: nat := 1024 * 1024

  datatype Buffer = Buffer(content: seq<Byte>, capacity: nat)

  datatype Tier = Small | Medium | Large | Oversized

  function TierOf(size: nat): Tier {
    if size <= SMALL_SIZE then Small
    else if size <= MEDIUM_SIZE then Medium
    else if size <= LARGE_SIZE then Large
    else Oversized
  }

  /** Where the tiers end: 4 KiB, 64 KiB and 1 MiB. */
  lemma TierBounds(size: nat)
    ensures TierOf(size) == Small <==> size <= 4096
    ensures TierOf(size) == Medium <==> 4096 < size <= 65536
    ensures TierOf(size) == Large <==> 65536 < size <= 1048576
  {
  }

  /** The buffers waiting in each tier, oldest first. */
  datatype Tiers = Tiers(small: seq<Buffer>, medium: seq<Buffer>, large: seq<Buffer>) {
    function At(tier: Tier): seq<Buffer> {
      match tier
      case Small => small
      case Medium => medium
      case Large => large
      case Oversized => []
    }
  }

  class BufferPool {
    const smallCount: nat
    const mediumCount: nat
    const largeCount: nat
    var small: seq<Buffer>
    var medium: seq<Buffer>
    var large: seq<Buffer>

    ghost function Waiting(): Tiers
      reads this
    {
      Tiers(small, medium, large)
    }

    function Limit(tier: Tier): nat {
      match tier
      case Small => smallCount
      case Medium => mediumCount
      case Large => largeCount
      case Oversized => 0
    }

    constructor (smallCount: nat, mediumCount: nat, largeCount: nat)
      ensures Waiting() == Tiers(seq(smallCount, i => Buffer([], SMALL_SIZE)),
                                 seq(mediumCount, i => Buffer([], MEDIUM_SIZE)),
                                 seq(largeCount, i => Buffer([], LARGE_SIZE)))
      ensures forall tier :: |Waiting().At(tier)| <= Limit(tier)
    {
      this.smallCount := if smallCount == 0 then 1 else smallCount;
      this.mediumCount := if mediumCount == 0 then 1 else mediumCount;
      this.largeCount := if largeCount == 0 then 1 else largeCount;
      small := seq(smallCount, i => Buffer([], SMALL_SIZE));
      medium := seq(mediumCount, i => Buffer([], MEDIUM_SIZE));
      large := seq(largeCount, i => Buffer([], LARGE_SIZE));
    }

    /** Hands out an empty buffer: the oldest of the tier that fits `needed`, or a new one. */
    method Checkout(needed: nat) returns (buffer: Buffer)
      modifies this
      ensures buffer.content == []
      ensures var queue := old(Waiting()).At(TierOf(needed));
        if queue == [] then buffer.capacity >= needed && Waiting() == old(Waiting())
        else buffer.capacity == queue[0].capacity && Waiting().At(TierOf(needed)) == queue[1..]
      ensures forall tier | tier != TierOf(needed) :: Waiting().At(tier) == old(Waiting()).At(tier)
    {
      if needed <= SMALL_SIZE {
        if small != [] {
          buffer := small[0].(content := []);
          small := small[1..];
          return;
        }
        buffer := Buffer([], SMALL_SIZE);
      } else if needed <= MEDIUM_SIZE {
        if medium != [] {
          buffer := medium[0].(content := []);
          medium := medium[1..];
          return;
        }
        buffer := Buffer([], MEDIUM_SIZE);
      } else if needed <= LARGE_SIZE {
        if large != [] {
          buffer := large[0].(content := []);
          large := large[1..];
          return;
        }
        buffer := Buffer([], LARGE_SIZE);
      } else {
        buffer := Buffer([], needed);
      }
    }

    /** Takes a buffer back, emptied; a full tier or an oversized buffer drops it. */
    method Checkin(buffer: Buffer)
      requires forall tier :: |Waiting().At(tier)| <= Limit(tier)
      modifies this
      ensures forall tier :: |Waiting().At(tier)| <= Limit(tier)
      ensures var tier := TierOf(buffer.capacity);
        var queue := old(Waiting()).At(tier);
        Waiting().At(tier) == if |queue| < Limit(tier) then queue + [buffer.(content := [])] else queue
      ensures forall tier | tier != TierOf(buffer.capacity) :: Waiting().At(tier) == old(Waiting()).At(tier)
    {
      var cleared := buffer.(content := []);
      if cleared.capacity <= SMALL_SIZE {
        if |small| < smallCount {
          small := small + [cleared];
        }
      } else if cleared.capacity <= MEDIUM_SIZE {
        if |medium| < mediumCount {
          medium := medium + [cleared];
        }
      } else if cleared.capacity <= LARGE_SIZE {
        if |large| < largeCount {
          large := large + [cleared];
        }
      }
    }
  }
}
