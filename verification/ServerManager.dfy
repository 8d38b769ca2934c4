/**
 `AsyncLLMServerManager` of verl/experimental/agent_loop/agent_loop.py: new request ids go to the server with
 the fewest requests, known ones to the server they had before.
 */
module ServerManager {
  import opened Sequences
  import Heap = ServerHeap
  import Lru = StickyCache

  datatype Error = NoServers | ValueTooLarge

  datatype Result<+S> = Ok(server: S) | Err(error: Error)

  /** A server handle with its hash. */
  datatype Handle<+S> = Handle(hash: int, server: S)

  /** Two requests with one id, and fewer other ids between them than the cache has places. */
  predicate Close(requestIds: seq<string>, i: nat, j: nat, places: int)
    requires i < j < |requestIds|
  {
    requestIds[i] == requestIds[j] && |Lru.Others(requestIds, i, j)| < places
  }

  /** Request j is the next one with the id of request i. */
  predicate NextWithId(requestIds: seq<string>, i: nat, j: nat)
    requires i < j < |requestIds|
  {
    requestIds[i] == requestIds[j] && Lru.NotAgain(requestIds, i, j)
  }

  /** From one request to the next the heap stays as it is, or its least loaded server is raised. */
  ghost predicate Moves<S>(before: seq<Heap.Entry<S>>, after: seq<Heap.Entry<S>>) {
    && |before| == |after| > 0 && Heap.IsHeap(before) && Heap.IsHeap(after) && Heap.FirstIsLeast(before)
    && (after == before || IsPermutation(after, Heap.RootRaised(before)))
  }

  /** The heaps before and after each request, and the least loaded servers that they offer. */
  ghost predicate Witnessed<S>(heaps: seq<seq<Heap.Entry<S>>>, offered: seq<S>) {
    |heaps| == |offered| + 1 &&
    forall n :: 0 <= n < |offered| ==> Moves(heaps[n], heaps[n + 1]) && offered[n] == heaps[n][0].server
  }

  lemma WitnessedNext<S>(heaps: seq<seq<Heap.Entry<S>>>, offered: seq<S>, after: seq<Heap.Entry<S>>)
    requires Witnessed(heaps, offered) && Moves(heaps[|offered|], after)
    ensures Witnessed(heaps + [after], offered + [heaps[|offered|][0].server])
  {
  }

  /**
   Every next request with an id is served like the one before it exactly as long as fewer other ids came in between
   than the cache has places, and else by the server that is the least loaded at that moment.
   */
  ghost predicate ServedAsDue<S>(requestIds: seq<string>, servers: seq<S>, offered: seq<S>, places: int) {
    |servers| == |offered| == |requestIds| &&
    forall i, j :: 0 <= i < j < |requestIds| && NextWithId(requestIds, i, j) ==>
      servers[j] == if |Lru.Others(requestIds, i, j)| < places then servers[i] else offered[j]
  }

  lemma RunServes<S>(start: Lru.Cache<string, S>, requestIds: seq<string>, offered: seq<S>, places: int,
      now: Lru.Cache<string, S>, servers: seq<S>)
    requires places >= 1 && Lru.Ok(start, places) && |offered| == |requestIds|
    requires Lru.IsRun(start, requestIds, offered, places, now, servers)
    ensures ServedAsDue(requestIds, servers, offered, places)
    ensures forall i, j :: 0 <= i < j < |requestIds| && Close(requestIds, i, j, places) ==> servers[i] == servers[j]
  {
    forall i, j | 0 <= i < j < |requestIds| && NextWithId(requestIds, i, j)
      ensures servers[j] == if |Lru.Others(requestIds, i, j)| < places then servers[i] else offered[j]
    {
      Lru.RunStickyIff(start, requestIds, offered, places, now, servers, i, j);
    }
    forall i, j | 0 <= i < j < |requestIds| && Close(requestIds, i, j, places) ensures servers[i] == servers[j] {
      Lru.RunSticky(start, requestIds, offered, places, now, servers, i, j);
    }
  }

  function Unloaded<S>(handles: seq<Handle<S>>): (h: seq<Heap.Entry<S>>)
    ensures |h| == |handles|
    ensures forall i :: 0 <= i < |h| ==> h[i] == Heap.Entry(0, handles[i].hash, handles[i].server)
  {
    seq(|handles|, i requires 0 <= i < |handles| => Heap.Entry(0, handles[i].hash, handles[i].server))
  }

  lemma UnloadedBalanced<S>(handles: seq<Handle<S>>)
    ensures Heap.Balanced(Unloaded(handles)) && Heap.Total(Unloaded(handles)) == 0
  {
    Heap.TotalBounds(Unloaded(handles), 0, 0);
  }

  class AsyncLLMServerManager<S> {
    const weightedServers: array<Heap.Entry<S>>
    const maxCacheSize: int
    var requestIdToServer: Lru.Cache<string, S>
    ghost var misses: nat

    ghost predicate Valid()
      reads this, weightedServers
    {
      && Heap.IsHeap(weightedServers[..]) && Heap.Balanced(weightedServers[..])
      && Heap.Total(weightedServers[..]) == misses
      && (if maxCacheSize >= 1 then Lru.Ok(requestIdToServer, maxCacheSize) else requestIdToServer == [])
      && (weightedServers.Length == 0 ==> requestIdToServer == [])
    }

    /** The server a new request id is offered. */
    function Offered(): S
      requires weightedServers.Length > 0
      reads this, weightedServers
    {
      weightedServers[0].server
    }

    constructor (handles: seq<Handle<S>>, maxCacheSize: int)
      ensures Valid() && misses == 0 && requestIdToServer == [] && this.maxCacheSize == maxCacheSize
      ensures fresh(weightedServers) && IsPermutation(weightedServers[..], Unloaded(handles))
    {
      this.maxCacheSize := maxCacheSize;
      requestIdToServer := [];
      misses := 0;
      var entries := new Heap.Entry<S>[|handles|](i requires 0 <= i < |handles| =>
        Heap.Entry(0, handles[i].hash, handles[i].server));
      weightedServers := entries;
      new;
      assert weightedServers[..] == Unloaded(handles);
      UnloadedBalanced(handles);
      Heap.Heapify(weightedServers);
      Heap.TotalPermutation(weightedServers[..], Unloaded(handles));
      Heap.BalancedPermutation(weightedServers[..], Unloaded(handles));
    }

    /** `_choose_server` */
    method ChooseServer(requestId: string) returns (r: Result<S>)
      requires Valid()
      modifies this, weightedServers
      ensures Valid()
      // a known id keeps its server and costs nobody a request
      ensures Lru.Holds(old(requestIdToServer), requestId) ==>
        r.Ok? && weightedServers[..] == old(weightedServers[..]) && misses == old(misses)
      // an unknown one raises the least loaded server
      ensures !Lru.Holds(old(requestIdToServer), requestId) && weightedServers.Length > 0 ==>
        misses == old(misses) + 1 &&
        IsPermutation(weightedServers[..], Heap.RootRaised(old(weightedServers[..])))
      // which is the one with the fewest requests, and the lowest hash among those
      ensures Heap.FirstIsLeast(old(weightedServers[..]))
      // either way the cache moves on as a least-recently-used cache
      ensures weightedServers.Length > 0 && maxCacheSize >= 1 ==>
        r == Ok(Lru.Served(old(requestIdToServer), requestId, old(Offered()))) &&
        requestIdToServer == Lru.Access(old(requestIdToServer), requestId, old(Offered()), maxCacheSize)
      ensures r == Err(NoServers) <==> weightedServers.Length == 0
      ensures r == Err(ValueTooLarge) <==> weightedServers.Length > 0 && maxCacheSize < 1
      ensures r.Err? ==> requestIdToServer == old(requestIdToServer)
    {
      Heap.HeapFirstIsLeast(weightedServers[..]);
      if Lru.Holds(requestIdToServer, requestId) {
        var server := requestIdToServer[Lru.Find(requestIdToServer, requestId)].value;
        requestIdToServer := Lru.Renew(requestIdToServer, requestId);
        return Ok(server);
      }
      if weightedServers.Length == 0 { return Err(NoServers); }
      var server := weightedServers[0].server;
      RaiseRoot();
      if maxCacheSize < 1 { return Err(ValueTooLarge); }
      requestIdToServer := Lru.Store(requestIdToServer, requestId, server, maxCacheSize);
      return Ok(server);
    }

    /** Counts a request of the first server in place and lets `heapreplace` restore the heap. */
    method RaiseRoot()
      requires Valid() && weightedServers.Length > 0
      modifies this`misses, weightedServers
      ensures Valid() && misses == old(misses) + 1
      ensures IsPermutation(weightedServers[..], Heap.RootRaised(old(weightedServers[..])))
    {
      ghost var raised := Heap.RootRaised(weightedServers[..]);
      Heap.RaiseBalanced(weightedServers[..]);
      weightedServers[0] := weightedServers[0].(count := weightedServers[0].count + 1);
      assert weightedServers[..] == raised;
      misses := misses + 1;
      Heap.SiftUp(weightedServers, 0);
      Heap.TotalPermutation(weightedServers[..], raised);
      Heap.BalancedPermutation(weightedServers[..], raised);
    }

    /** Any run of requests; `heaps` and `offered` are the heaps that it goes through and their least loaded servers. */
    method ServeAll(requestIds: seq<string>)
      returns (servers: seq<S>, ghost heaps: seq<seq<Heap.Entry<S>>>, ghost offered: seq<S>)
      requires Valid() && weightedServers.Length > 0 && maxCacheSize >= 1
      modifies this, weightedServers
      ensures Valid() && old(misses) <= misses <= old(misses) + |requestIds|
      ensures Witnessed(heaps, offered) && |offered| == |requestIds|
      ensures heaps[0] == old(weightedServers[..]) && heaps[|requestIds|] == weightedServers[..]
      ensures ServedAsDue(requestIds, servers, offered, maxCacheSize)
      ensures forall i, j :: 0 <= i < j < |requestIds| && Close(requestIds, i, j, maxCacheSize) ==>
        servers[i] == servers[j]
    {
      servers, heaps, offered := [], [weightedServers[..]], [];
      ghost var start := requestIdToServer;
      for n := 0 to |requestIds|
        invariant Valid() && old(misses) <= misses <= old(misses) + n
        invariant Witnessed(heaps, offered) && |offered| == n
        invariant heaps[0] == old(weightedServers[..]) && heaps[n] == weightedServers[..]
        invariant Lru.IsRun(start, requestIds, offered, maxCacheSize, requestIdToServer, servers)
      {
        var server;
        server, heaps, offered := ServeNext(requestIds, n, start, heaps, offered, servers);
        servers := servers + [server];
      }
      RunServes(start, requestIds, offered, maxCacheSize, requestIdToServer, servers);
    }

    /** One request of a run. */
    method ServeNext(requestIds: seq<string>, n: nat, ghost start: Lru.Cache<string, S>,
        ghost heaps: seq<seq<Heap.Entry<S>>>, ghost offered: seq<S>, ghost servers: seq<S>)
      returns (server: S, ghost heaps': seq<seq<Heap.Entry<S>>>, ghost offered': seq<S>)
      requires Valid() && weightedServers.Length > 0 && maxCacheSize >= 1 && n < |requestIds|
      requires Witnessed(heaps, offered) && |offered| == n && heaps[n] == weightedServers[..]
      requires |start| <= maxCacheSize
      requires Lru.IsRun(start, requestIds, offered, maxCacheSize, requestIdToServer, servers)
      modifies this, weightedServers
      ensures Valid() && old(misses) <= misses <= old(misses) + 1
      ensures Witnessed(heaps', offered') && |offered'| == n + 1
      ensures heaps'[0] == heaps[0] && heaps'[n + 1] == weightedServers[..]
      ensures Lru.IsRun(start, requestIds, offered', maxCacheSize, requestIdToServer, servers + [server])
    {
      Lru.RunGrows(start, requestIds, offered, maxCacheSize, requestIdToServer, servers, Offered());
      offered' := offered + [Offered()];
      var r := ChooseServer(requestIds[n]);
      server := r.server;
      WitnessedNext(heaps, offered, weightedServers[..]);
      heaps' := heaps + [weightedServers[..]];
    }

    /** The load of every server is the average of the misses, rounded down or up. */
    lemma LoadsEven(i: nat)
      requires Valid() && i < weightedServers.Length
      ensures var n, c := weightedServers.Length, weightedServers[i].count; n * c - n < misses < n * c + n
    {
      Heap.NearAverage(weightedServers[..], i);
    }
  }
}
