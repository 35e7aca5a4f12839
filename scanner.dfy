/** The trade scanner of main.py: one run of `job` pages through the public
    /trades feed for trades newer than the saved watermark, collects the
    proxy wallets that trade, adds the unseen ones to the seen-wallets file,
    and saves a new watermark. The HTTP feed is a parameter: the answer the
    API gives for each page. */
module Scanner {
  import opened Basics
  import opened CheckpointText

  /** Records per request; the Data-API maximum. */
  const FETCH_LIMIT: nat := 500

  /** A record of the /trades feed, reduced to the two fields the scanner
      reads; either may be absent from the JSON object. */
  datatype Trade = Trade(timestamp: Option<int>, proxyWallet: Option<string>)

  /** The answer to each page request, in page order (page k starts at
      offset k * FETCH_LIMIT). Past its last page the feed answers an empty
      array. */
  datatype TradeFeed = TradeFeed(pages: seq<Response<Trade>>)

  /** The answer for page k. */
  function Page(feed: TradeFeed, k: nat): Response<Trade> {
    if k < |feed.pages| then feed.pages[k] else EmptyPage()
  }

  /** The answer to the request with this offset. */
  function Request(feed: TradeFeed, offset: nat): Response<Trade>
  {
    Page(feed, offset / FETCH_LIMIT)
  }

  /** `t.get("timestamp", 0) > since_ts`: a trade without a timestamp counts
      as time 0. */
  predicate IsFresh(t: Trade, since: int) {
    t.timestamp.GetOr(0) > since
  }

  /** The comprehension that keeps a page's trades newer than the watermark. */
  function FreshOf(batch: seq<Trade>, since: int): (kept: seq<Trade>)
    ensures |kept| <= |batch|
    ensures forall t :: t in kept <==> t in batch && IsFresh(t, since)
  {
    if batch == [] then []
    else (if IsFresh(batch[0], since) then [batch[0]] else []) + FreshOf(batch[1..], since)
  }

  /** One trade is kept exactly when it is fresh. */
  lemma FreshOfOne(t: Trade, since: int)
    ensures FreshOf([t], since) == if IsFresh(t, since) then [t] else []
  {
    assert [t][1..] == [];
  }

  /** The comprehension keeps the page's order and multiplicity: filtering
      two runs of trades one after the other is filtering the whole. */
  lemma {:induction false} FreshOfAppend(a: seq<Trade>, b: seq<Trade>, since: int)
    ensures FreshOf(a + b, since) == FreshOf(a, since) + FreshOf(b, since)
  {
    if a == [] {
      assert a + b == b;
    } else {
      assert (a + b)[0] == a[0];
      assert (a + b)[1..] == a[1..] + b;
      FreshOfAppend(a[1..], b, since);
      var h := if IsFresh(a[0], since) then [a[0]] else [];
      assert FreshOf(a + b, since) == h + (FreshOf(a[1..], since) + FreshOf(b, since));
      assert h + (FreshOf(a[1..], since) + FreshOf(b, since)) == (h + FreshOf(a[1..], since)) + FreshOf(b, since);
    }
  }

  /** What a call of fetch_trades_since amounts to: its outcome (the trades,
      or the KeyError it raises) and the offsets it requested, in order. */
  datatype Scan = Scan(outcome: Fetched<Trade>, offsets: seq<nat>)

  /** A scan preceded by earlier pages that contributed these trades and
      these requests. */
  function Extend(trades: seq<Trade>, offsets: seq<nat>, rest: Scan): Scan {
    Scan(
      match rest.outcome
      case Fetched(later) => Fetched(trades + later)
      case Raised => Raised,
      offsets + rest.offsets)
  }

  /** A page after which the scan goes on to the next one: answered with
      200, non-empty, full, and its last (oldest) trade newer than the
      watermark. */
  predicate Continues(feed: TradeFeed, since: int, k: nat) {
    var resp := Page(feed, k);
    && resp.status == OK
    && resp.batch != []
    && resp.batch[|resp.batch| - 1].timestamp.Some?
    && resp.batch[|resp.batch| - 1].timestamp.value > since
    && |resp.batch| >= FETCH_LIMIT
  }

  /** The scan from page k on, page by page. */
  function ScanFrom(feed: TradeFeed, since: int, k: nat): (s: Scan)
    ensures s.offsets != [] && s.offsets[0] == k * FETCH_LIMIT
    ensures s.outcome.Fetched? ==> forall t :: t in s.outcome.records ==> IsFresh(t, since)
    decreases |feed.pages| - k
  {
    var offset := k * FETCH_LIMIT;
    var resp := Page(feed, k);
    if resp.status != OK || resp.batch == [] then Scan(Fetched([]), [offset])
    else
      var kept := FreshOf(resp.batch, since);
      match resp.batch[|resp.batch| - 1].timestamp
      case None => Scan(Raised, [offset])
      case Some(oldest) =>
        if oldest <= since || |resp.batch| < FETCH_LIMIT then Scan(Fetched(kept), [offset])
        else Extend(kept, [offset], ScanFrom(feed, since, k + 1))
  }

  /** fetch_trades_since: pages through the feed from offset 0 and keeps the
      trades newer than `since`. */
  method FetchTradesSince(feed: TradeFeed, since: int) returns (outcome: Fetched<Trade>, offsets: seq<nat>)
    ensures Scan(outcome, offsets) == ScanFrom(feed, since, 0)
    ensures outcome.Fetched? ==> forall t :: t in outcome.records ==> IsFresh(t, since)
  {
    var trades: seq<Trade> := [];
    var offset: nat := 0;
    offsets := [];
    ghost var page: nat := 0;
    ExtendNothing(ScanFrom(feed, since, 0));
    while true
      invariant offset == page * FETCH_LIMIT
      invariant Extend(trades, offsets, ScanFrom(feed, since, page)) == ScanFrom(feed, since, 0)
      decreases |feed.pages| - page
    {
      var resp := Request(feed, offset);
      assert resp == Page(feed, page);
      if resp.status != OK || resp.batch == [] {
        ScanStops(feed, since, page, trades, offsets, Fetched([]));
        outcome, offsets := Fetched(trades + []), offsets + [offset];
        return;
      }
      var batch := resp.batch;
      var kept := FreshOf(batch, since);
      var oldest := batch[|batch| - 1].timestamp;
      if oldest.None? {
        // batch[-1]["timestamp"] raises KeyError
        ScanStops(feed, since, page, trades, offsets, Raised);
        outcome, offsets := Raised, offsets + [offset];
        return;
      }
      if oldest.value <= since || |batch| < FETCH_LIMIT {
        ScanStops(feed, since, page, trades, offsets, Fetched(kept));
        outcome, offsets := Fetched(trades + kept), offsets + [offset];
        return;
      }
      ScanGoesOn(feed, since, page, trades, offsets);
      trades, offsets := trades + kept, offsets + [offset];
      offset := offset + FETCH_LIMIT;
      page := page + 1;
    }
  }

  /** The loop of fetch_trades_since stops at page k with this last step. */
  lemma ScanStops(feed: TradeFeed, since: int, k: nat, trades: seq<Trade>, offsets: seq<nat>, last: Fetched<Trade>)
    requires Extend(trades, offsets, ScanFrom(feed, since, k)) == ScanFrom(feed, since, 0)
    requires ScanFrom(feed, since, k) == Scan(last, [k * FETCH_LIMIT])
    ensures ScanFrom(feed, since, 0)
         == Scan(match last case Fetched(r) => Fetched(trades + r) case Raised => Raised, offsets + [k * FETCH_LIMIT])
  {
  }

  /** The loop of fetch_trades_since moves from page k to page k + 1. */
  lemma ScanGoesOn(feed: TradeFeed, since: int, k: nat, trades: seq<Trade>, offsets: seq<nat>)
    requires Continues(feed, since, k)
    requires Extend(trades, offsets, ScanFrom(feed, since, k)) == ScanFrom(feed, since, 0)
    ensures Extend(trades + FreshOf(Page(feed, k).batch, since), offsets + [k * FETCH_LIMIT], ScanFrom(feed, since, k + 1))
         == ScanFrom(feed, since, 0)
  {
    StopsExactlyAtBoundary(feed, since, k);
    ExtendAssociates(trades, offsets, FreshOf(Page(feed, k).batch, since), [k * FETCH_LIMIT], ScanFrom(feed, since, k + 1));
  }

  /** With a non-negative watermark, every trade the scan keeps carries a
      timestamp: one without counts as time 0, which is never fresh. */
  lemma FreshTradesAreTimed(feed: TradeFeed, since: int)
    requires since >= 0
    ensures ScanFrom(feed, since, 0).outcome.Fetched? ==>
      forall t :: t in ScanFrom(feed, since, 0).outcome.records ==> t.timestamp.Some?
  {
  }

  lemma ExtendNothing(s: Scan)
    ensures Extend([], [], s) == s
  {
    match s.outcome
    case Fetched(later) => assert [] + later == later;
    case Raised =>
  }

  // ----------------------------------------------------------------------
  // Properties of the scan

  /** The offsets 0, FETCH_LIMIT, 2 * FETCH_LIMIT, ... of the first n pages. */
  function PageOffsets(n: nat): seq<nat>
  {
    seq(n, j => j * FETCH_LIMIT)
  }

  /** The fresh trades of the first n pages, page after page. */
  function FreshPages(feed: TradeFeed, since: int, n: nat): seq<Trade> {
    if n == 0 then [] else FreshPages(feed, since, n - 1) + FreshOf(Page(feed, n - 1).batch, since)
  }

  lemma ExtendAssociates(t1: seq<Trade>, o1: seq<nat>, t2: seq<Trade>, o2: seq<nat>, rest: Scan)
    ensures Extend(t1, o1, Extend(t2, o2, rest)) == Extend(t1 + t2, o1 + o2, rest)
  {
    match rest.outcome
    case Fetched(later) => assert t1 + (t2 + later) == (t1 + t2) + later;
    case Raised =>
  }

  /** The offset moves on by exactly FETCH_LIMIT, and only after a page
      that continues the scan; every other page is the last one requested. */
  lemma StopsExactlyAtBoundary(feed: TradeFeed, since: int, k: nat)
    ensures Continues(feed, since, k) ==>
      ScanFrom(feed, since, k)
        == Extend(FreshOf(Page(feed, k).batch, since), [k * FETCH_LIMIT], ScanFrom(feed, since, k + 1))
    ensures Continues(feed, since, k) ==> ScanFrom(feed, since, k).offsets[1] == k * FETCH_LIMIT + FETCH_LIMIT
    ensures !Continues(feed, since, k) ==> ScanFrom(feed, since, k).offsets == [k * FETCH_LIMIT]
  {
  }

  /** The first n pages all continue the scan. */
  predicate AllContinue(feed: TradeFeed, since: int, n: nat) {
    forall j :: 0 <= j < n ==> Continues(feed, since, j)
  }

  /** Over n pages that all continue, the scan is the in-order concatenation
      of their fresh trades followed by whatever the scan from page n does. */
  lemma {:induction false} ScanUnrolled(feed: TradeFeed, since: int, n: nat)
    requires AllContinue(feed, since, n)
    ensures ScanFrom(feed, since, 0)
         == Extend(FreshPages(feed, since, n), PageOffsets(n), ScanFrom(feed, since, n))
  {
    if n == 0 {
      ExtendNothing(ScanFrom(feed, since, 0));
    } else {
      var m := n - 1;
      var before := Extend(FreshPages(feed, since, m), PageOffsets(m), ScanFrom(feed, since, m));
      assert ScanFrom(feed, since, 0) == before by {
        ScanUnrolled(feed, since, m);
      }
      assert before == Extend(FreshPages(feed, since, n), PageOffsets(n), ScanFrom(feed, since, n)) by {
        assert Continues(feed, since, m);
        UnrollOnePage(feed, since, m);
      }
    }
  }

  lemma UnrollOnePage(feed: TradeFeed, since: int, m: nat)
    requires Continues(feed, since, m)
    ensures Extend(FreshPages(feed, since, m), PageOffsets(m), ScanFrom(feed, since, m))
         == Extend(FreshPages(feed, since, m + 1), PageOffsets(m + 1), ScanFrom(feed, since, m + 1))
  {
    var o := m * FETCH_LIMIT;
    StopsExactlyAtBoundary(feed, since, m);
    ExtendAssociates(FreshPages(feed, since, m), PageOffsets(m),
                     FreshOf(Page(feed, m).batch, since), [o], ScanFrom(feed, since, m + 1));
    assert PageOffsets(m) + [o] == PageOffsets(m + 1);
  }

  /** N full pages whose oldest trades are all newer than the watermark,
      then a shorter page: exactly N + 1 requests, at offsets
      0, FETCH_LIMIT, ..., N * FETCH_LIMIT. */
  lemma FullPagesThenPartial(feed: TradeFeed, since: int, n: nat)
    requires AllContinue(feed, since, n)
    requires |Page(feed, n).batch| < FETCH_LIMIT
    ensures ScanFrom(feed, since, 0).offsets == PageOffsets(n + 1)
  {
    ScanUnrolled(feed, since, n);
    assert !Continues(feed, since, n);
    assert PageOffsets(n) + [n * FETCH_LIMIT] == PageOffsets(n + 1);
  }

  /** A page answered with an error status ends the scan, and the trades of
      the pages before it are kept. */
  lemma ErrorKeepsEarlierPages(feed: TradeFeed, since: int, n: nat)
    requires AllContinue(feed, since, n)
    requires Page(feed, n).status != OK
    ensures ScanFrom(feed, since, 0) == Scan(Fetched(FreshPages(feed, since, n)), PageOffsets(n + 1))
  {
    ScanUnrolled(feed, since, n);
    assert FreshPages(feed, since, n) + [] == FreshPages(feed, since, n);
    assert PageOffsets(n) + [n * FETCH_LIMIT] == PageOffsets(n + 1);
  }

  // ----------------------------------------------------------------------
  // Addresses

  /** extract_addresses: the proxyWallet of every trade that has one. */
  function ExtractAddresses(trades: seq<Trade>): set<string> {
    if trades == [] then {}
    else
      var rest := ExtractAddresses(trades[1..]);
      match trades[0].proxyWallet
      case Some(a) => {a} + rest
      case None => rest
  }

  /** An address is extracted exactly when some trade has it as its proxy
      wallet. */
  lemma {:induction false} ExtractedAreWallets(trades: seq<Trade>, a: string)
    ensures a in ExtractAddresses(trades) <==> exists t :: t in trades && t.proxyWallet == Some(a)
  {
    if trades != [] {
      ExtractedAreWallets(trades[1..], a);
      assert forall t :: t in trades <==> t == trades[0] || t in trades[1..];
    }
  }

  /** The addresses of a scan are those of its pages together. */
  lemma {:induction false} ExtractAppend(a: seq<Trade>, b: seq<Trade>)
    ensures ExtractAddresses(a + b) == ExtractAddresses(a) + ExtractAddresses(b)
  {
    if a != [] {
      ExtractAppend(a[1..], b);
      assert (a + b)[1..] == a[1..] + b;
    } else {
      assert a + b == b;
    }
  }

  // ----------------------------------------------------------------------
  // The scheduled job

  /** How a run of `job` ended: an exception escaped from the scan, or it
      completed with the fresh trades and the newly seen addresses. */
  datatype JobRun = Aborted | Ran(trades: seq<Trade>, newAddrs: set<string>)

  /** The contents of seen_users.txt and of last_check.txt; None when the
      file does not exist. */
  datatype Checkpoint = Checkpoint(seenUsersFile: Option<string>, lastCheckFile: Option<string>)

  /** What one run of `job` does to the checkpoint files. startClock is the
      clock when the watermark is loaded, endClock the clock when the new
      one is saved. */
  function JobEffect(files: Checkpoint, feed: TradeFeed, startClock: int, endClock: int): (JobRun, Checkpoint) {
    var since := LoadTimestamp(files.lastCheckFile, startClock);
    Settle(files, ParseSeenUsers(files.seenUsersFile), ScanFrom(feed, since, 0).outcome, endClock)
  }

  /** The second half of `job`: given the seen set it loaded and the outcome
      of the scan, what it returns and writes. */
  function Settle(files: Checkpoint, seen: set<string>, outcome: Fetched<Trade>, endClock: int): (JobRun, Checkpoint) {
    match outcome
    case Raised => (Aborted, files)
    case Fetched(trades) =>
      var newAddrs := ExtractAddresses(trades) - seen;
      var seenFile := if newAddrs == {} then files.seenUsersFile else Some(RenderSeenUsers(seen + newAddrs));
      (Ran(trades, newAddrs), Checkpoint(seenFile, Some(RenderTimestamp(endClock))))
  }

  /** The seen set read back after a run contains every address read
      before it: the file never loses an address. */
  lemma JobNeverShrinks(files: Checkpoint, feed: TradeFeed, startClock: int, endClock: int)
    ensures ParseSeenUsers(files.seenUsersFile)
         <= ParseSeenUsers(JobEffect(files, feed, startClock, endClock).1.seenUsersFile)
  {
    var seen := ParseSeenUsers(files.seenUsersFile);
    var since := LoadTimestamp(files.lastCheckFile, startClock);
    match ScanFrom(feed, since, 0).outcome
    case Raised =>
    case Fetched(trades) =>
      var newAddrs := ExtractAddresses(trades) - seen;
      if newAddrs != {} {
        LoadedAreClean(files.seenUsersFile);
        SaveNeverShrinks(seen, newAddrs);
      }
  }

  /** The new addresses are those of the fresh trades not seen before; when
      the addresses are clean, the seen set afterwards is exactly the old
      one together with every address of the fresh trades. */
  lemma JobAddsFreshAddresses(files: Checkpoint, feed: TradeFeed, startClock: int, endClock: int)
    ensures var (run, after) := JobEffect(files, feed, startClock, endClock);
      var seen := ParseSeenUsers(files.seenUsersFile);
      run.Ran? ==>
        && run.newAddrs !! seen
        && seen + run.newAddrs == seen + ExtractAddresses(run.trades)
        && ((forall a :: a in ExtractAddresses(run.trades) ==> Clean(a)) ==>
              ParseSeenUsers(after.seenUsersFile) == seen + ExtractAddresses(run.trades))
  {
    var seen := ParseSeenUsers(files.seenUsersFile);
    var since := LoadTimestamp(files.lastCheckFile, startClock);
    match ScanFrom(feed, since, 0).outcome
    case Raised =>
    case Fetched(trades) =>
      var extracted := ExtractAddresses(trades);
      var newAddrs := extracted - seen;
      UnionOfDifference(seen, extracted);
      if newAddrs != {} && forall a :: a in extracted ==> Clean(a) {
        LoadedAreClean(files.seenUsersFile);
        LoadSaveRoundTrip(seen + newAddrs);
      } else if newAddrs == {} {
        EmptyDifference(extracted, seen);
      }
  }

  /** A run whose fresh trades bring no unseen address leaves the
      seen-wallets file as it was; the watermark still moves. */
  lemma JobWithoutNewUsersKeepsFile(files: Checkpoint, feed: TradeFeed, startClock: int, endClock: int)
    requires JobEffect(files, feed, startClock, endClock).0.Ran?
    requires ExtractAddresses(JobEffect(files, feed, startClock, endClock).0.trades) <= ParseSeenUsers(files.seenUsersFile)
    ensures JobEffect(files, feed, startClock, endClock).1.seenUsersFile == files.seenUsersFile
    ensures JobEffect(files, feed, startClock, endClock).1.lastCheckFile == Some(RenderTimestamp(endClock))
  {
  }

  /** A run that returns saves endClock as the watermark, which is what the
      next run loads, even when the scan stopped on an HTTP error. A run
      that raises saves nothing. */
  lemma JobWatermark(files: Checkpoint, feed: TradeFeed, startClock: int, endClock: int, nextClock: int)
    ensures var (run, after) := JobEffect(files, feed, startClock, endClock);
      && (run.Ran? ==> LoadTimestamp(after.lastCheckFile, nextClock) == endClock)
      && (run.Aborted? ==> after == files)
      && (run.Aborted? <==> ScanFrom(feed, LoadTimestamp(files.lastCheckFile, startClock), 0).outcome.Raised?)
  {
    WatermarkReloads(endClock, nextClock);
  }

  lemma UnionOfDifference(a: set<string>, b: set<string>)
    ensures a + (b - a) == a + b
  {
    forall x ensures x in a + (b - a) <==> x in a + b {
    }
  }

  lemma EmptyDifference(a: set<string>, b: set<string>)
    requires a - b == {}
    ensures a <= b
  {
    forall x | x in a ensures x in b {
      assert x !in a - b;
    }
  }

  /** The scanner's persistent state, the two checkpoint files. */
  class Monitor {
    var seenUsersFile: Option<string>
    var lastCheckFile: Option<string>

    constructor (files: Checkpoint)
      ensures seenUsersFile == files.seenUsersFile && lastCheckFile == files.lastCheckFile
    {
      seenUsersFile := files.seenUsersFile;
      lastCheckFile := files.lastCheckFile;
    }

    function Files(): Checkpoint
      reads this
    {
      Checkpoint(seenUsersFile, lastCheckFile)
    }

    /** load_seen_users */
    method LoadSeenUsers() returns (users: set<string>)
      ensures users == ParseSeenUsers(seenUsersFile)
      ensures forall u :: u in users ==> Clean(u)
    {
      LoadedAreClean(seenUsersFile);
      users := ParseSeenUsers(seenUsersFile);
    }

    /** save_seen_users: rewrites the whole file. */
    method SaveSeenUsers(users: set<string>)
      modifies this`seenUsersFile
      ensures seenUsersFile == Some(RenderSeenUsers(users))
      ensures (forall u :: u in users ==> Clean(u)) ==> ParseSeenUsers(seenUsersFile) == users
    {
      seenUsersFile := Some(RenderSeenUsers(users));
      if forall u :: u in users ==> Clean(u) {
        LoadSaveRoundTrip(users);
      }
    }

    /** load_last_timestamp, with the wall clock as a parameter. */
    method LoadLastTimestamp(clock: int) returns (ts: int)
      ensures ts == LoadTimestamp(lastCheckFile, clock)
      ensures lastCheckFile == None ==> ts == clock - SCAN_INTERVAL_MIN * 60
      ensures lastCheckFile.Some? && ParseTimestamp(lastCheckFile.value).None? ==> ts == clock - SCAN_INTERVAL_MIN * 60
      ensures lastCheckFile.Some? && ParseTimestamp(lastCheckFile.value).Some? ==> ts == ParseTimestamp(lastCheckFile.value).value
    {
      ts := LoadTimestamp(lastCheckFile, clock);
    }

    /** save_last_timestamp */
    method SaveLastTimestamp(ts: int)
      modifies this`lastCheckFile
      ensures lastCheckFile == Some(RenderTimestamp(ts))
      ensures LoadTimestamp(lastCheckFile, 0) == ts
    {
      lastCheckFile := Some(RenderTimestamp(ts));
      WatermarkReloads(ts, 0);
    }

    /** job: one scan cycle. */
    method Job(feed: TradeFeed, startClock: int, endClock: int) returns (run: JobRun)
      modifies this
      ensures (run, Files()) == JobEffect(old(Files()), feed, startClock, endClock)
      ensures ParseSeenUsers(old(seenUsersFile)) <= ParseSeenUsers(seenUsersFile)
    {
      ghost var before := Files();
      JobNeverShrinks(before, feed, startClock, endClock);
      var seenUsers := LoadSeenUsers();
      var lastTs := LoadLastTimestamp(startClock);
      var outcome, _ := FetchTradesSince(feed, lastTs);
      ghost var effect := Settle(before, seenUsers, outcome, endClock);
      assert JobEffect(before, feed, startClock, endClock) == effect;
      if outcome.Raised? {
        assert effect == (Aborted, before);
        return Aborted;
      }
      var newTrades := outcome.records;
      var newAddrs := ExtractAddresses(newTrades) - seenUsers;
      if newAddrs != {} {
        seenUsers := seenUsers + newAddrs;
        SaveSeenUsers(seenUsers);
      }
      assert seenUsersFile == effect.1.seenUsersFile;
      SaveLastTimestamp(endClock);
      assert Files() == effect.1;
      run := Ran(newTrades, newAddrs);
    }
  }
}
