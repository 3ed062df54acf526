/**
 * The crawl queue of getAllAreaUrls.js: the tile URLs generated over the
 * region, the random draw that removes one per timer tick, the two progress
 * counters, and the cool-down computed from the ingest endpoint's reply.
 * A queued URL is represented by the tile whose four coordinates it carries.
 */
module CrawlQueue {
  import opened Wrappers
  import opened Tiler
  import opened Numbers

  /** The script's module-level state: `urlQueue`, `totalUrls` and `processedUrls`. */
  datatype CrawlState = CrawlState(queue: seq<Tile>, totalUrls: int, processedUrls: int)

  /** The state before anything is generated (getAllAreaUrls.js:5-9). */
  const Initial: CrawlState := CrawlState([], 0, 1)

  /** `q.splice(i, 1)`: `q` without its element at `i`. */
  function Splice<T>(q: seq<T>, i: nat): seq<T>
    requires i < |q|
  {
    q[..i] + q[i + 1..]
  }

  /** Splicing removes exactly the element at `i` and keeps the others in order. */
  lemma SpliceRemovesOne<T>(q: seq<T>, i: nat)
    requires i < |q|
    ensures |Splice(q, i)| == |q| - 1
    ensures forall k :: 0 <= k < i ==> Splice(q, i)[k] == q[k]
    ensures forall k :: i <= k < |q| - 1 ==> Splice(q, i)[k] == q[k + 1]
    ensures multiset(Splice(q, i)) + multiset{q[i]} == multiset(q)
  {
    assert q == q[..i] + [q[i]] + q[i + 1..];
  }

  /** `generateUrls` (getAllAreaUrls.js:76-87): the grid is appended and `totalUrls` set to the queue length. */
  function Generate(s: CrawlState, t: Tiling): CrawlState
    requires t.Valid()
  {
    CrawlState(s.queue + Grid(t), |s.queue + Grid(t)|, s.processedUrls)
  }

  /**
   * One firing of the timer (getAllAreaUrls.js:90-99); `pick` is the index
   * `Math.floor(Math.random() * urlQueue.length)` would yield. Returns the
   * new state and the tile whose request is sent, if any.
   */
  function Step(s: CrawlState, pick: nat): (CrawlState, Option<Tile>)
    requires s.queue != [] ==> pick < |s.queue|
  {
    if s.queue != [] then
      (CrawlState(Splice(s.queue, pick), s.totalUrls, s.processedUrls + 1), Some(s.queue[pick]))
    else
      (s, None)
  }

  /**
   * The script's start (getAllAreaUrls.js:102-110): generate the queue, then,
   * when it is not empty, send one request at once, without counting it in
   * `processedUrls`.
   */
  function Launch(s: CrawlState, t: Tiling, pick: nat): (CrawlState, Option<Tile>)
    requires t.Valid()
    requires s.queue + Grid(t) != [] ==> pick < |s.queue + Grid(t)|
  {
    var g := Generate(s, t);
    if g.queue != [] then
      (CrawlState(Splice(g.queue, pick), g.totalUrls, g.processedUrls), Some(g.queue[pick]))
    else
      (g, None)
  }

  /** Every request still to be sent, plus the ones already counted, makes up the total. */
  predicate Balanced(s: CrawlState)
  {
    |s.queue| + s.processedUrls == s.totalUrls
  }

  /** A tick with work left sends the drawn tile, removes it alone, and counts it. */
  lemma StepDispatchesOne(s: CrawlState, pick: nat)
    requires s.queue != [] && pick < |s.queue|
    ensures var (s', sent) := Step(s, pick);
      && sent == Some(s.queue[pick])
      && |s'.queue| == |s.queue| - 1
      && multiset(s'.queue) + multiset{s.queue[pick]} == multiset(s.queue)
      && s'.processedUrls == s.processedUrls + 1
      && s'.totalUrls == s.totalUrls
  {
    SpliceRemovesOne(s.queue, pick);
  }

  /** Once the queue is empty every further tick sends nothing and changes nothing. */
  lemma StepWhenDrained(s: CrawlState, pick: nat)
    requires s.queue == []
    ensures Step(s, pick) == (s, None)
  {
  }

  /** Every tick keeps the queue and the counters in balance. */
  lemma StepKeepsBalance(s: CrawlState, pick: nat)
    requires Balanced(s) && (s.queue != [] ==> pick < |s.queue|)
    ensures Balanced(Step(s, pick).0)
  {
    if s.queue != [] {
      SpliceRemovesOne(s.queue, pick);
    }
  }

  /** The draws `picks` are in range for the queue as it shrinks by one per tick. */
  predicate PicksFit(n: nat, picks: seq<nat>)
  {
    forall k :: 0 <= k < |picks| && k < n ==> picks[k] < n - k
  }

  /** Successive ticks with the draws `picks`; returns the final state and the tiles sent, in order. */
  function Run(s: CrawlState, picks: seq<nat>): (CrawlState, seq<Tile>)
    requires PicksFit(|s.queue|, picks)
    decreases |picks|
  {
    if picks == [] then (s, [])
    else
      var (s1, sent) := Step(s, picks[0]);
      assert PicksFit(|s1.queue|, picks[1..]) by {
        if s.queue != [] {
          SpliceRemovesOne(s.queue, picks[0]);
          assert forall k :: 0 <= k < |picks| - 1 ==> picks[1..][k] == picks[k + 1];
        }
      }
      var (s2, rest) := Run(s1, picks[1..]);
      (s2, (if sent.Some? then [sent.value] else []) + rest)
  }

  /** The first tick of a run, followed by the run of the remaining draws. */
  lemma RunUnfold(s: CrawlState, picks: seq<nat>)
    requires PicksFit(|s.queue|, picks) && picks != []
    ensures var (s1, sent) := Step(s, picks[0]);
      && PicksFit(|s1.queue|, picks[1..])
      && Run(s, picks) == (Run(s1, picks[1..]).0, (if sent.Some? then [sent.value] else []) + Run(s1, picks[1..]).1)
  {
    var (s1, sent) := Step(s, picks[0]);
    if s.queue != [] {
      SpliceRemovesOne(s.queue, picks[0]);
      assert forall k :: 0 <= k < |picks| - 1 ==> picks[1..][k] == picks[k + 1];
    }
  }

  /**
   * After `k` ticks `min(k, |queue|)` requests have been sent and counted,
   * `totalUrls` is untouched, and after as many ticks as there were tiles the
   * queue is empty.
   */
  lemma {:induction false} RunCounts(s: CrawlState, picks: seq<nat>)
    requires PicksFit(|s.queue|, picks)
    ensures var (s', sent) := Run(s, picks);
      && |sent| == MinNat(|picks|, |s.queue|)
      && |s'.queue| == |s.queue| - MinNat(|picks|, |s.queue|)
      && s'.processedUrls == s.processedUrls + MinNat(|picks|, |s.queue|)
      && s'.totalUrls == s.totalUrls
    decreases |picks|
  {
    if picks != [] {
      RunUnfold(s, picks);
      var (s1, o) := Step(s, picks[0]);
      RunCounts(s1, picks[1..]);
      if s.queue != [] {
        SpliceRemovesOne(s.queue, picks[0]);
      }
    }
  }

  /**
   * Each queued tile is sent exactly once: the tiles sent and the rest of the
   * queue together are the original queue, as a multiset.
   */
  lemma {:induction false} RunSendsEachOnce(s: CrawlState, picks: seq<nat>)
    requires PicksFit(|s.queue|, picks)
    ensures var (s', sent) := Run(s, picks);
      multiset(sent) + multiset(s'.queue) == multiset(s.queue)
    decreases |picks|
  {
    if picks != [] {
      RunUnfold(s, picks);
      var (s1, o) := Step(s, picks[0]);
      RunSendsEachOnce(s1, picks[1..]);
      if s.queue != [] {
        SpliceRemovesOne(s.queue, picks[0]);
      }
    }
  }

  /**
   * The whole crawl from the initial state: after the first request and one
   * tick per remaining tile, every tile of the grid has been requested exactly
   * once and `processedUrls` has reached `totalUrls`.
   */
  lemma WholeCrawl(t: Tiling, first: nat, picks: seq<nat>)
    requires t.Valid() && first < |Grid(t)|
    requires |picks| == |Grid(t)| - 1 && PicksFit(|Grid(t)| - 1, picks)
    ensures var (s1, sent1) := Launch(Initial, t, first);
      var (s2, rest) := Run(s1, picks);
      && sent1.Some?
      && multiset([sent1.value] + rest) == multiset(Grid(t))
      && s2.queue == []
      && s2.processedUrls == s2.totalUrls == |Grid(t)|
  {
    LaunchState(t, first);
    DrainAfterFirst(Grid(t), first, picks);
  }

  /** Sending the tile at `first`, then one tick per remaining tile, sends each tile of `g` once. */
  lemma DrainAfterFirst(g: seq<Tile>, first: nat, picks: seq<nat>)
    requires first < |g| && |picks| == |g| - 1 && PicksFit(|g| - 1, picks)
    ensures var (s2, rest) := Run(CrawlState(Splice(g, first), |g|, 1), picks);
      && multiset([g[first]] + rest) == multiset(g)
      && s2.queue == []
      && s2.processedUrls == s2.totalUrls == |g|
  {
    var s1 := CrawlState(Splice(g, first), |g|, 1);
    SpliceRemovesOne(g, first);
    RunDrains(s1, picks);
    var rest := Run(s1, picks).1;
    assert multiset(rest) == multiset(Splice(g, first));
    assert multiset([g[first]] + rest) == multiset{g[first]} + multiset(rest);
  }

  /** The state right after the launch from the initial state. */
  lemma LaunchState(t: Tiling, first: nat)
    requires t.Valid() && first < |Grid(t)|
    ensures Launch(Initial, t, first) == (CrawlState(Splice(Grid(t), first), |Grid(t)|, 1), Some(Grid(t)[first]))
  {
    assert Initial.queue + Grid(t) == Grid(t);
  }

  /** One tick per queued tile sends every tile, empties the queue and counts each tick. */
  lemma RunDrains(s: CrawlState, picks: seq<nat>)
    requires |picks| == |s.queue| && PicksFit(|s.queue|, picks)
    ensures var (s', sent) := Run(s, picks);
      && multiset(sent) == multiset(s.queue)
      && s'.queue == []
      && s'.processedUrls == s.processedUrls + |s.queue|
      && s'.totalUrls == s.totalUrls
  {
    RunSendsEachOnce(s, picks);
    RunCounts(s, picks);
  }

  /**
   * A grid with no tiles sends nothing at start-up and leaves the queue
   * empty; `totalUrls` is then 0 while `processedUrls` stays at 1.
   */
  lemma LaunchWhenEmpty(t: Tiling, pick: nat)
    requires t.Valid() && Grid(t) == []
    ensures Launch(Initial, t, pick) == (CrawlState([], 0, 1), None)
    ensures !Balanced(Launch(Initial, t, pick).0)
  {
    assert Initial.queue + Grid(t) == [];
  }

  /** With the script's own corners and steps the start-up always sends a first request. */
  lemma CrawlLaunchSends(pick: nat)
    requires pick < |Grid(Tiling(RegionOf(TopLeft, TopRight, BottomLeft, BottomRight), StepLat, StepLng))|
    ensures Launch(Initial, Tiling(RegionOf(TopLeft, TopRight, BottomLeft, BottomRight), StepLat, StepLng), pick).1.Some?
  {
    var t := Tiling(RegionOf(TopLeft, TopRight, BottomLeft, BottomRight), StepLat, StepLng);
    CrawlGridNotEmpty();
    assert Initial.queue + Grid(t) == Grid(t);
  }

  /** After the launch with a non-empty grid, queue and counters are in balance. */
  lemma LaunchBalanced(t: Tiling, first: nat)
    requires t.Valid() && first < |Grid(t)|
    ensures Balanced(Launch(Initial, t, first).0)
  {
    assert Initial.queue + Grid(t) == Grid(t);
    SpliceRemovesOne(Grid(t), first);
  }

  /** What `POST /inputdata` answers: the counts in `response.data`. */
  datatype IngestReply = IngestReply(processed: int, skipped: int, added: int)

  /**
   * The wait after a successful request (getAllAreaUrls.js:68): one second
   * per added record, ten seconds when nothing was added.
   */
  function WaitTime(added: int): (ms: int)
    ensures ms >= 1000
    ensures added > 0 ==> ms == 1000 * added
    ensures added <= 0 ==> ms == 10000
  {
    if added > 0 then added * 1000 else 10000
  }

  /**
   * The wait of `sendRequest` (getAllAreaUrls.js:59-73): a failed request
   * (`None`) is only logged and waits nothing.
   */
  function CoolDown(reply: Option<IngestReply>): (ms: nat)
    ensures ms > 0 <==> reply.Some?
    ensures reply.Some? ==> ms == WaitTime(reply.value.added)
  {
    match reply
    case None => 0
    case Some(r) => WaitTime(r.added)
  }

  /** Among tiles that added records, a busier tile waits strictly longer. */
  lemma WaitGrowsWithYield(a: int, b: int)
    requires 0 < a < b
    ensures WaitTime(a) < WaitTime(b)
  {
  }

  /** Ten seconds is not a lower bound: a tile that added one record waits less than an empty one. */
  lemma OneRecordWaitsLessThanNone()
    ensures WaitTime(1) == 1000 < WaitTime(0) == 10000
  {
  }

  /** The script's state as a mutable object. */
  class Crawler {
    var urlQueue: seq<Tile>
    var totalUrls: int
    var processedUrls: int

    function State(): CrawlState
      reads this
    {
      CrawlState(urlQueue, totalUrls, processedUrls)
    }

    constructor ()
      ensures State() == Initial
    {
      urlQueue := [];
      totalUrls := 0;
      processedUrls := 1;
    }

    /**
     * `generateUrls` (getAllAreaUrls.js:76-87): latitude runs down from
     * `maxLat` while above `minLat`, longitude up from `minLng` while below
     * `maxLng`, and each tile is pushed with its far edges clamped.
     */
    method GenerateUrls(t: Tiling)
      requires t.Valid()
      modifies this
      ensures State() == Generate(old(State()), t)
    {
      var r := t.region;
      var lat := r.maxLat;
      ghost var i: nat := 0;
      while lat > r.minLat
        invariant i <= Rows(t)
        invariant lat == r.maxLat - Offset(i, t.stepLat)
        invariant urlQueue == old(urlQueue) + GridRows(t, i)
        invariant totalUrls == old(totalUrls) && processedUrls == old(processedUrls)
        decreases Rows(t) - i
      {
        CountIsOffsetsBelow(r.maxLat - r.minLat, t.stepLat, i);
        var lng := r.minLng;
        ghost var j: nat := 0;
        while lng < r.maxLng
          invariant j <= Cols(t)
          invariant lng == r.minLng + Offset(j, t.stepLng)
          invariant urlQueue == old(urlQueue) + GridRows(t, i) + RowTiles(t, i)[..j]
          invariant totalUrls == old(totalUrls) && processedUrls == old(processedUrls)
          decreases Cols(t) - j
        {
          CountIsOffsetsBelow(r.maxLng - r.minLng, t.stepLng, j);
          var lat2 := Max(lat - t.stepLat, r.minLat);
          var lng2 := Min(lng + t.stepLng, r.maxLng);
          assert RowTiles(t, i)[..j + 1] == RowTiles(t, i)[..j] + [Tile(lat, lat2, lng, lng2)];
          urlQueue := urlQueue + [Tile(lat, lat2, lng, lng2)];
          OffsetNext(j, t.stepLng);
          lng := lng + t.stepLng;
          j := j + 1;
        }
        CountIsOffsetsBelow(r.maxLng - r.minLng, t.stepLng, j);
        assert RowTiles(t, i)[..j] == RowTiles(t, i);
        OffsetNext(i, t.stepLat);
        lat := lat - t.stepLat;
        i := i + 1;
      }
      CountIsOffsetsBelow(r.maxLat - r.minLat, t.stepLat, i);
      totalUrls := |urlQueue|;
    }

    /** `getRandomUrl` (getAllAreaUrls.js:52-56): removes and returns the element at the drawn index. */
    method GetRandomUrl(pick: nat) returns (url: Tile)
      requires pick < |urlQueue|
      modifies this
      ensures url == old(urlQueue)[pick]
      ensures State() == CrawlState(Splice(old(urlQueue), pick), old(totalUrls), old(processedUrls))
    {
      url := urlQueue[pick];
      urlQueue := urlQueue[..pick] + urlQueue[pick + 1..];
    }

    /** One firing of the timer (getAllAreaUrls.js:90-99); returns the tile whose request is sent. */
    method Tick(pick: nat) returns (sent: Option<Tile>)
      requires urlQueue != [] ==> pick < |urlQueue|
      modifies this
      ensures (State(), sent) == Step(old(State()), pick)
    {
      if |urlQueue| > 0 {
        var url := GetRandomUrl(pick);
        processedUrls := processedUrls + 1;
        sent := Some(url);
      } else {
        sent := None;
      }
    }

    /** The script's start (getAllAreaUrls.js:102-110): generate, then send the first request. */
    method Start(t: Tiling, pick: nat) returns (first: Option<Tile>)
      requires t.Valid()
      requires urlQueue + Grid(t) != [] ==> pick < |urlQueue + Grid(t)|
      modifies this
      ensures (State(), first) == Launch(old(State()), t, pick)
    {
      GenerateUrls(t);
      if |urlQueue| > 0 {
        var url := GetRandomUrl(pick);
        first := Some(url);
      } else {
        first := None;
      }
    }
  }
}
