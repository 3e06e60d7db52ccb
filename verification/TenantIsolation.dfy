/** The cache that partitions its entries by tenant and bounds each partition. */
module TenantIsolation {
  import opened Wrappers

  datatype TenantCacheKey = TenantCacheKey(partition: string, key: string)

  function KeysOf(entries: map<TenantCacheKey, string>, tenant: string): (keys: set<string>)
    ensures forall k :: k in keys <==> TenantCacheKey(tenant, k) in entries
  {
    set cacheKey | cacheKey in entries && cacheKey.partition == tenant :: cacheKey.key
  }

  /** The entries of one tenant, seen as a cache of its own. */
  function Partition(entries: map<TenantCacheKey, string>, tenant: string): map<string, string> {
    map k | k in KeysOf(entries, tenant) :: entries[TenantCacheKey(tenant, k)]
  }

  lemma PartitionAfterInsert(entries: map<TenantCacheKey, string>, tenant: string, key: string, value: string, other: string)
    ensures Partition(entries[TenantCacheKey(tenant, key) := value], other)
         == if other == tenant then Partition(entries, tenant)[key := value] else Partition(entries, other)
  {
  }

  function Without(entries: map<TenantCacheKey, string>, tenant: string): map<TenantCacheKey, string> {
    map cacheKey | cacheKey in entries && cacheKey.partition != tenant :: entries[cacheKey]
  }

  lemma PartitionAfterRemoval(entries: map<TenantCacheKey, string>, tenant: string, other: string)
    ensures Partition(Without(entries, tenant), other)
         == if other == tenant then map[] else Partition(entries, other)
  {
  }

  /** A tenant's counter is the size of its partition, which is within the bound. */
  ghost predicate Counted(entries: map<TenantCacheKey, string>, counts: map<string, nat>, max: nat) {
    forall tenant :: CountedFor(entries, counts, max, tenant)
  }

  ghost predicate CountedFor(entries: map<TenantCacheKey, string>, counts: map<string, nat>, max: nat, tenant: string) {
    |Partition(entries, tenant)| == (if tenant in counts then counts[tenant] else 0) <= max
  }

  lemma InsertKeepsCount(entries: map<TenantCacheKey, string>, counts: map<string, nat>, max: nat,
                         tenant: string, key: string, value: string)
    requires Counted(entries, counts, max)
    requires key in Partition(entries, tenant) || |Partition(entries, tenant)| < max
    ensures Counted(entries[TenantCacheKey(tenant, key) := value],
                    if key in Partition(entries, tenant) then counts else counts[tenant := |Partition(entries, tenant)| + 1], max)
  {
    var view := Partition(entries, tenant);
    var counts' := if key in view then counts else counts[tenant := |view| + 1];
    var entries' := entries[TenantCacheKey(tenant, key) := value];
    forall other ensures CountedFor(entries', counts', max, other) {
      assert CountedFor(entries, counts, max, other);
      PartitionAfterInsert(entries, tenant, key, value, other);
      SizeAfterUpdate(view, key, value);
    }
  }

  lemma SizeAfterUpdate(view: map<string, string>, key: string, value: string)
    ensures |view[key := value]| == if key in view then |view| else |view| + 1
  {
    if key in view {
      assert view[key := value].Keys == view.Keys;
      assert |view| == |view.Keys| && |view[key := value]| == |view[key := value].Keys|;
    }
  }

  lemma RemovalKeepsCount(entries: map<TenantCacheKey, string>, counts: map<string, nat>, max: nat, tenant: string)
    requires Counted(entries, counts, max)
    ensures Counted(Without(entries, tenant), counts - {tenant}, max)
  {
    forall other ensures CountedFor(Without(entries, tenant), counts - {tenant}, max, other) {
      assert CountedFor(entries, counts, max, other);
      PartitionAfterRemoval(entries, tenant, other);
    }
  }

  datatype Call =
    | Insert(tenant: string, key: string, value: string)
    | Get(tenant: string, key: string)
    | RemoveTenant(tenant: string)

  datatype Reply = Inserted(ok: bool) | Found(value: Option<string>) | Removed

  /** The reference: a private cache of bounded size that serves a single tenant. */
  function Private(max: nat, view: map<string, string>, call: Call): (map<string, string>, Reply) {
    match call
    case Insert(_, key, value) =>
      if key in view || |view| < max then (view[key := value], Inserted(true)) else (view, Inserted(false))
    case Get(_, key) =>
      (view, Found(if key in view then Some(view[key]) else None))
    case RemoveTenant(_) =>
      (map[], Removed)
  }

  /** The calls of one tenant, in order, with the replies at the same positions. */
  function CallsOf(calls: seq<Call>, tenant: string): seq<Call> {
    if calls == [] then []
    else CallsOf(calls[..|calls| - 1], tenant) + if calls[|calls| - 1].tenant == tenant then [calls[|calls| - 1]] else []
  }

  function RepliesOf(calls: seq<Call>, replies: seq<Reply>, tenant: string): seq<Reply>
    requires |replies| == |calls|
  {
    if calls == [] then []
    else
      RepliesOf(calls[..|calls| - 1], replies[..|calls| - 1], tenant)
      + if calls[|calls| - 1].tenant == tenant then [replies[|calls| - 1]] else []
  }

  function PrivateRun(max: nat, view: map<string, string>, calls: seq<Call>): (map<string, string>, seq<Reply>) {
    if calls == [] then (view, [])
    else
      var (before, replies) := PrivateRun(max, view, calls[..|calls| - 1]);
      var (after, reply) := Private(max, before, calls[|calls| - 1]);
      (after, replies + [reply])
  }

  class PartitionedCache {
    const maxPerTenant: nat
    var entries: map<TenantCacheKey, string>
    var counts: map<string, nat>

    ghost predicate Valid()
      reads this
    {
      Counted(entries, counts, maxPerTenant)
    }

    /** What one tenant can read. */
    function View(tenant: string): map<string, string>
      reads this
    {
      Partition(entries, tenant)
    }

    constructor (max: nat)
      ensures Valid() && maxPerTenant == max
      ensures forall tenant :: Partition(entries, tenant) == map[]
    {
      maxPerTenant, entries, counts := max, map[], map[];
    }

    method Insert(tenant: string, key: string, value: string) returns (ok: bool)
      requires Valid()
      modifies this
      ensures Valid()
      ensures (View(tenant), Inserted(ok)) == Private(maxPerTenant, old(View(tenant)), Call.Insert(tenant, key, value))
      ensures forall other | other != tenant :: View(other) == old(View(other))
    {
      forall other
        ensures Partition(entries[TenantCacheKey(tenant, key) := value], other)
             == if other == tenant then View(tenant)[key := value] else View(other)
      {
        PartitionAfterInsert(entries, tenant, key, value, other);
      }
      var cacheKey := TenantCacheKey(tenant, key);
      if cacheKey in entries {
        InsertKeepsCount(entries, counts, maxPerTenant, tenant, key, value);
        entries := entries[cacheKey := value];
        return true;
      }
      assert CountedFor(entries, counts, maxPerTenant, tenant);
      var current := if tenant in counts then counts[tenant] else 0;
      if current >= maxPerTenant {
        return false;
      }
      InsertKeepsCount(entries, counts, maxPerTenant, tenant, key, value);
      entries := entries[cacheKey := value];
      counts := if tenant in counts then counts[tenant := counts[tenant] + 1] else counts[tenant := 1];
      return true;
    }

    method Get(tenant: string, key: string) returns (value: Option<string>)
      ensures (View(tenant), Found(value)) == Private(maxPerTenant, View(tenant), Call.Get(tenant, key))
    {
      var cacheKey := TenantCacheKey(tenant, key);
      value := if cacheKey in entries then Some(entries[cacheKey]) else None;
    }

    method RemoveTenant(tenant: string)
      requires Valid()
      modifies this
      ensures Valid()
      ensures View(tenant) == map[]
      ensures forall other | other != tenant :: View(other) == old(View(other))
    {
      RemovalKeepsCount(entries, counts, maxPerTenant, tenant);
      forall other
        ensures Partition(Without(entries, tenant), other) == if other == tenant then map[] else View(other)
      {
        PartitionAfterRemoval(entries, tenant, other);
      }
      entries := Without(entries, tenant);
      counts := counts - {tenant};
    }

    /** Serves one call: its own tenant sees what a private cache does, no other sees anything. */
    method Serve(call: Call) returns (reply: Reply)
      requires Valid()
      modifies this
      ensures Valid()
      ensures (View(call.tenant), reply) == Private(maxPerTenant, old(View(call.tenant)), call)
      ensures forall other | other != call.tenant :: View(other) == old(View(other))
    {
      match call {
        case Insert(tenant, key, value) =>
          var ok := Insert(tenant, key, value);
          reply := Inserted(ok);
        case Get(tenant, key) =>
          var value := Get(tenant, key);
          reply := Found(value);
        case RemoveTenant(tenant) =>
          RemoveTenant(tenant);
          reply := Removed;
      }
    }

    /** After any sequence of calls of any tenants, each tenant has seen exactly what a private
        cache of its own would have shown it for its own calls alone. */
    method ServeAll(calls: seq<Call>) returns (replies: seq<Reply>)
      requires Valid()
      modifies this
      ensures Valid()
      ensures |replies| == |calls|
      ensures forall tenant ::
        SeenAsPrivate(maxPerTenant, calls, replies, tenant, old(View(tenant)), View(tenant))
    {
      replies := [];
      for i := 0 to |calls|
        invariant Valid() && |replies| == i
        invariant forall tenant ::
          SeenAsPrivate(maxPerTenant, calls[..i], replies, tenant, old(View(tenant)), View(tenant))
      {
        label before:
        var reply := Serve(calls[i]);
        forall tenant
          ensures SeenAsPrivate(maxPerTenant, calls[..i + 1], replies + [reply], tenant, old(View(tenant)), View(tenant))
        {
          assert SeenAsPrivate(maxPerTenant, calls[..i], replies, tenant, old(View(tenant)), old@before(View(tenant)));
          SeenOneMore(maxPerTenant, calls[..i], replies, tenant, old(View(tenant)), old@before(View(tenant)),
                      calls[i], reply, View(tenant));
          assert calls[..i] + [calls[i]] == calls[..i + 1];
        }
        replies := replies + [reply];
      }
      assert calls[..|calls|] == calls;
    }
  }

  /** The tenant's own calls, run on a private cache, give its replies and lead from `first` to `last`. */
  ghost predicate SeenAsPrivate(max: nat, calls: seq<Call>, replies: seq<Reply>, tenant: string,
                                first: map<string, string>, last: map<string, string>)
    requires |replies| == |calls|
  {
    PrivateRun(max, first, CallsOf(calls, tenant)) == (last, RepliesOf(calls, replies, tenant))
  }

  lemma SeenOneMore(max: nat, calls: seq<Call>, replies: seq<Reply>, tenant: string,
                    first: map<string, string>, last: map<string, string>,
                    call: Call, reply: Reply, next: map<string, string>)
    requires |replies| == |calls| && SeenAsPrivate(max, calls, replies, tenant, first, last)
    requires if call.tenant == tenant then (next, reply) == Private(max, last, call) else next == last
    ensures SeenAsPrivate(max, calls + [call], replies + [reply], tenant, first, next)
  {
    assert (calls + [call])[..|calls|] == calls && (replies + [reply])[..|calls|] == replies;
    var own := CallsOf(calls, tenant);
    assert (own + [call])[..|own|] == own;
    assert own + [] == own && RepliesOf(calls, replies, tenant) + [] == RepliesOf(calls, replies, tenant);
  }

  /** What a private cache shows: the last value inserted under a key, until it is overwritten or
      everything is removed; an insert under one key, or a refused one, changes no other. */
  lemma ReadAfterWrite(max: nat, view: map<string, string>, key: string, value: string, other: string)
    ensures var (after, reply) := Private(max, view, Call.Insert("t", key, value));
      && reply == Inserted(key in view || |view| < max)
      && (reply == Inserted(true) ==> Private(max, after, Call.Get("t", key)) == (after, Found(Some(value))))
      && (other != key || reply == Inserted(false) ==>
            Private(max, after, Call.Get("t", other)).1 == Private(max, view, Call.Get("t", other)).1)
    ensures Private(max, view, Call.Get("t", key)).0 == view
    ensures var emptied := Private(max, view, RemoveTenant("t")).0;
      Private(max, emptied, Call.Get("t", key)) == (emptied, Found(None))
  {
  }

  /** A private cache never holds more than the bound, and refuses only a new key when full. */
  lemma {:induction false} PrivateRunBounded(max: nat, view: map<string, string>, calls: seq<Call>)
    requires |view| <= max
    ensures |PrivateRun(max, view, calls).0| <= max
    ensures |PrivateRun(max, view, calls).1| == |calls|
    ensures forall i | 0 <= i < |calls| ::
      PrivateRun(max, view, calls).1[i] == Inserted(false)
      <==> calls[i].Insert? && calls[i].key !in PrivateRun(max, view, calls[..i]).0 && |PrivateRun(max, view, calls[..i]).0| == max
  {
    if calls != [] {
      var n := |calls| - 1;
      var before := PrivateRun(max, view, calls[..n]).0;
      PrivateRunBounded(max, view, calls[..n]);
      PrivateBounded(max, before, calls[n]);
      hide Private;
      forall i | 0 <= i < n ensures calls[..n][..i] == calls[..i] {
      }
    }
  }

  lemma PrivateBounded(max: nat, view: map<string, string>, call: Call)
    requires |view| <= max
    ensures |Private(max, view, call).0| <= max
    ensures Private(max, view, call).1 == Inserted(false) <==> call.Insert? && call.key !in view && |view| == max
  {
    if call.Insert? {
      SizeAfterUpdate(view, call.key, call.value);
    }
  }
}
