/** The Smart-Score-Lite grader of grade_users.py: for every wallet listed
    in the seen-wallets file, page through its trade activity (retrying on
    HTTP 429), fetch its portfolio value, aggregate what it spent and
    received, and score it; then list the grades in wallet order and in
    descending score order. The Data API is a parameter: the answer of each
    request, per wallet, page and attempt. */
module Grader {
  import opened Basics
  import opened Approx
  import opened Ranking
  import opened CheckpointText

  /** Records per /activity request. */
  const PAGE_LIMIT: nat := 500
  /** The default `retries` of safe_get. */
  const RETRIES: nat := 4

  // ----------------------------------------------------------------------
  // safe_get

  /** What safe_get amounts to: the first response that is not a 429, the
      HTTPError that raise_for_status raises on the last 429, or, when no
      attempt is allowed at all, the error of reading `r` before any
      assignment. */
  datatype GetResult<R> = Got(resp: Response<R>) | Throttled(last: Response<R>) | NeverSent

  /** The first attempt from i on whose answer is not a 429, or `retries`
      when there is none. */
  function FirstAnswered<R>(reply: nat -> Response<R>, retries: nat, i: nat): (j: nat)
    requires i <= retries
    ensures i <= j <= retries
    decreases retries - i
  {
    if i == retries || reply(i).status != TOO_MANY_REQUESTS then i
    else FirstAnswered(reply, retries, i + 1)
  }

  /** safe_get over a server that answers attempt i with reply(i). */
  function SafeGetOutcome<R>(reply: nat -> Response<R>, retries: nat): GetResult<R> {
    var j := FirstAnswered(reply, retries, 0);
    if j < retries then Got(reply(j))
    else if retries == 0 then NeverSent
    else Throttled(reply(retries - 1))
  }

  /** The number of requests safe_get sends. */
  function RequestsSent<R>(reply: nat -> Response<R>, retries: nat): nat {
    var j := FirstAnswered(reply, retries, 0);
    if j < retries then j + 1 else retries
  }

  /** The pause after the 429 of attempt i: 2^i seconds plus a jitter. */
  function Backoff(i: nat, jitter: nat -> real): real {
    Pow2(i) as real + jitter(i)
  }

  /** safe_get: jitter(i) is the random.random() drawn after attempt i;
      `waits` lists the pauses in order. */
  method SafeGet<R>(reply: nat -> Response<R>, retries: nat, jitter: nat -> real)
    returns (res: GetResult<R>, sent: nat, waits: seq<real>)
    ensures res == SafeGetOutcome(reply, retries)
    ensures sent == RequestsSent(reply, retries)
    ensures |waits| == FirstAnswered(reply, retries, 0)
    ensures forall i :: 0 <= i < |waits| ==> waits[i] == Backoff(i, jitter)
  {
    var r: Option<Response<R>> := None;
    waits := [];
    sent := 0;
    var attempt: nat := 0;
    while attempt < retries
      invariant attempt <= retries
      invariant FirstAnswered(reply, retries, 0) == FirstAnswered(reply, retries, attempt)
      invariant sent == attempt && |waits| == attempt
      invariant forall i :: 0 <= i < attempt ==> waits[i] == Backoff(i, jitter)
      invariant r == if attempt == 0 then None else Some(reply(attempt - 1))
    {
      var resp := reply(attempt);
      r := Some(resp);
      sent := sent + 1;
      if resp.status != TOO_MANY_REQUESTS {
        return Got(resp), sent, waits;
      }
      waits := waits + [Backoff(attempt, jitter)];
      attempt := attempt + 1;
    }
    // r.raise_for_status(): r is the last 429, or was never assigned.
    res := if r.None? then NeverSent else Throttled(r.value);
  }

  /** FirstAnswered is the first attempt that is not a 429. */
  lemma {:induction false} FirstAnsweredIsFirst<R>(reply: nat -> Response<R>, retries: nat, i: nat)
    requires i <= retries
    ensures forall k :: i <= k < FirstAnswered(reply, retries, i) ==> reply(k).status == TOO_MANY_REQUESTS
    ensures FirstAnswered(reply, retries, i) < retries ==> reply(FirstAnswered(reply, retries, i)).status != TOO_MANY_REQUESTS
    decreases retries - i
  {
    if i < retries && reply(i).status == TOO_MANY_REQUESTS {
      FirstAnsweredIsFirst(reply, retries, i + 1);
    }
  }

  /** safe_get returns a response exactly when some allowed attempt is not
      throttled, raises on the last 429 exactly when all of them are, and
      never sends more than `retries` requests. */
  lemma SafeGetCases<R>(reply: nat -> Response<R>, retries: nat)
    ensures SafeGetOutcome(reply, retries).Got?
        <==> exists k :: 0 <= k < retries && reply(k).status != TOO_MANY_REQUESTS
    ensures SafeGetOutcome(reply, retries).Throttled?
        <==> retries > 0 && forall k :: 0 <= k < retries ==> reply(k).status == TOO_MANY_REQUESTS
    ensures SafeGetOutcome(reply, retries).NeverSent? <==> retries == 0
    ensures RequestsSent(reply, retries) <= retries
  {
    FirstAnsweredIsFirst(reply, retries, 0);
  }

  /** When attempt k is the first one not throttled, safe_get returns its
      response after k + 1 requests. */
  lemma SafeGetReturnsFirstAnswer<R>(reply: nat -> Response<R>, retries: nat, k: nat)
    requires k < retries && reply(k).status != TOO_MANY_REQUESTS
    requires forall i :: 0 <= i < k ==> reply(i).status == TOO_MANY_REQUESTS
    ensures SafeGetOutcome(reply, retries) == Got(reply(k))
    ensures RequestsSent(reply, retries) == k + 1
  {
    FirstAnsweredIsFirst(reply, retries, 0);
  }

  /** The sum of the pauses. */
  function Total(waits: seq<real>): real {
    if waits == [] then 0.0 else Total(waits[..|waits| - 1]) + waits[|waits| - 1]
  }

  /** n pauses of 2^i plus a jitter in [0, 1) add up to at least 2^n - 1
      seconds and less than 2^n - 1 + n (19 seconds for the default four). */
  lemma {:induction false} BackoffTotal(waits: seq<real>, jitter: nat -> real)
    requires forall i :: 0 <= i < |waits| ==> waits[i] == Backoff(i, jitter)
    requires forall i :: 0 <= i < |waits| ==> 0.0 <= jitter(i) < 1.0
    ensures (Pow2(|waits|) - 1) as real <= Total(waits)
    ensures |waits| > 0 ==> Total(waits) < (Pow2(|waits|) - 1 + |waits|) as real
  {
    if waits != [] {
      var n := |waits| - 1;
      var front := waits[..n];
      assert forall i :: 0 <= i < |front| ==> front[i] == waits[i];
      BackoffTotal(front, jitter);
      assert Pow2(n + 1) == 2 * Pow2(n);
      assert waits[n] == Pow2(n) as real + jitter(n);
    }
  }

  // ----------------------------------------------------------------------
  // fetch_trades

  /** An /activity record, reduced to the two fields the grade reads. */
  datatype Activity = Activity(side: string, usdcSize: real)

  /** A wallet's activity feed: for page k (offset k * PAGE_LIMIT), the
      answer of each attempt. Past its last page it answers an empty array. */
  datatype ActivityFeed = ActivityFeed(pages: seq<nat -> Response<Activity>>)

  function NoMoreActivity(attempt: nat): Response<Activity> {
    EmptyPage()
  }

  function ActivityPage(feed: ActivityFeed, k: nat): nat -> Response<Activity> {
    if k < |feed.pages| then feed.pages[k] else NoMoreActivity
  }

  /** The answers to the request with this offset. */
  function ActivityRequest(feed: ActivityFeed, offset: nat): nat -> Response<Activity>
  {
    ActivityPage(feed, offset / PAGE_LIMIT)
  }

  /** What safe_get gives for page k. */
  function PageAnswer(feed: ActivityFeed, k: nat): GetResult<Activity> {
    SafeGetOutcome(ActivityPage(feed, k), RETRIES)
  }

  lemma PastTheEnd(feed: ActivityFeed, k: nat)
    ensures k >= |feed.pages| ==> PageAnswer(feed, k) == Got(EmptyPage())
  {
    if k >= |feed.pages| {
      assert FirstAnswered(NoMoreActivity, RETRIES, 0) == 0;
    }
  }

  /** The visible effects of fetch_trades: a request at an offset, or the
      polite pause between two pages. */
  datatype Step = Get(offset: nat) | Pause

  /** What a call of fetch_trades amounts to: the trades (or the exception
      safe_get raised) and the steps it took. */
  datatype Paging = Paging(outcome: Fetched<Activity>, log: seq<Step>)

  /** A paging preceded by pages that gave these records and these steps. */
  function Then(batch: seq<Activity>, steps: seq<Step>, rest: Paging): Paging {
    Paging(Prepend(batch, rest.outcome), steps + rest.log)
  }

  /** fetch_trades from page k on. */
  function TradesFrom(feed: ActivityFeed, k: nat): Paging
    decreases |feed.pages| - k
  {
    PastTheEnd(feed, k);
    var get := Get(k * PAGE_LIMIT);
    match PageAnswer(feed, k)
    case Got(r) =>
      if r.status != OK then Paging(Fetched([]), [get])
      else if |r.batch| < PAGE_LIMIT then Paging(Fetched(r.batch), [get])
      else Then(r.batch, [get, Pause], TradesFrom(feed, k + 1))
    case _ => Paging(Raised, [get])
  }

  /** fetch_trades: the trades of all pages, in order, until a short page
      or an error status. */
  method FetchTrades(feed: ActivityFeed, jitter: nat -> real) returns (outcome: Fetched<Activity>, log: seq<Step>)
    ensures Paging(outcome, log) == TradesFrom(feed, 0)
  {
    var trades: seq<Activity> := [];
    var offset: nat := 0;
    log := [];
    ghost var page: nat := 0;
    ThenNothing(TradesFrom(feed, 0));
    while true
      invariant offset == page * PAGE_LIMIT
      invariant Then(trades, log, TradesFrom(feed, page)) == TradesFrom(feed, 0)
      decreases |feed.pages| - page
    {
      assert ActivityRequest(feed, offset) == ActivityPage(feed, page);
      var answer, _, _ := SafeGet(ActivityRequest(feed, offset), RETRIES, jitter);
      if !answer.Got? {
        PagingStops(feed, page, trades, log, Raised);
        outcome, log := Raised, log + [Get(offset)];
        return;
      }
      var r := answer.resp;
      if r.status != OK {
        PagingStops(feed, page, trades, log, Fetched([]));
        outcome, log := Fetched(trades + []), log + [Get(offset)];
        return;
      }
      var batch := r.batch;
      if |batch| < PAGE_LIMIT {
        PagingStops(feed, page, trades, log, Fetched(batch));
        outcome, log := Fetched(trades + batch), log + [Get(offset)];
        return;
      }
      PagingGoesOn(feed, page, trades, log);
      trades, log := trades + batch, log + [Get(offset), Pause];
      offset := offset + PAGE_LIMIT;
      page := page + 1;
    }
  }

  lemma ThenNothing(p: Paging)
    ensures Then([], [], p) == p
  {
    match p.outcome
    case Fetched(later) => assert [] + later == later;
    case Raised =>
  }

  lemma ThenAssociates(b1: seq<Activity>, s1: seq<Step>, b2: seq<Activity>, s2: seq<Step>, rest: Paging)
    ensures Then(b1, s1, Then(b2, s2, rest)) == Then(b1 + b2, s1 + s2, rest)
  {
    match rest.outcome
    case Fetched(later) => assert b1 + (b2 + later) == (b1 + b2) + later;
    case Raised =>
  }

  /** The loop of fetch_trades stops at page k with this last outcome. */
  lemma PagingStops(feed: ActivityFeed, k: nat, trades: seq<Activity>, log: seq<Step>, last: Fetched<Activity>)
    requires Then(trades, log, TradesFrom(feed, k)) == TradesFrom(feed, 0)
    requires TradesFrom(feed, k) == Paging(last, [Get(k * PAGE_LIMIT)])
    ensures TradesFrom(feed, 0) == Paging(Prepend(trades, last), log + [Get(k * PAGE_LIMIT)])
  {
  }

  /** A page that is answered, 200 and full. */
  predicate FullPage(feed: ActivityFeed, k: nat) {
    var a := PageAnswer(feed, k);
    a.Got? && a.resp.status == OK && |a.resp.batch| >= PAGE_LIMIT
  }

  /** The loop of fetch_trades moves from page k to page k + 1. */
  lemma PagingGoesOn(feed: ActivityFeed, k: nat, trades: seq<Activity>, log: seq<Step>)
    requires FullPage(feed, k)
    requires Then(trades, log, TradesFrom(feed, k)) == TradesFrom(feed, 0)
    ensures Then(trades + PageAnswer(feed, k).resp.batch, log + [Get(k * PAGE_LIMIT), Pause], TradesFrom(feed, k + 1))
         == TradesFrom(feed, 0)
  {
    var batch := PageAnswer(feed, k).resp.batch;
    assert TradesFrom(feed, k) == Then(batch, [Get(k * PAGE_LIMIT), Pause], TradesFrom(feed, k + 1));
    ThenAssociates(trades, log, batch, [Get(k * PAGE_LIMIT), Pause], TradesFrom(feed, k + 1));
  }

  // ----------------------------------------------------------------------
  // Properties of the paging

  /** A log that requests offset k * PAGE_LIMIT, then the next offsets in
      turn, with exactly one pause between two requests and none after the
      last. */
  predicate Paced(log: seq<Step>, k: nat)
    decreases |log|
  {
    && |log| >= 1
    && log[0] == Get(k * PAGE_LIMIT)
    && (|log| == 1 || (|log| >= 3 && log[1] == Pause && Paced(log[2..], k + 1)))
  }

  lemma {:induction false} PagingIsPaced(feed: ActivityFeed, k: nat)
    ensures Paced(TradesFrom(feed, k).log, k)
    decreases |feed.pages| - k
  {
    PastTheEnd(feed, k);
    if FullPage(feed, k) {
      var rest := TradesFrom(feed, k + 1);
      PagingIsPaced(feed, k + 1);
      var log := [Get(k * PAGE_LIMIT), Pause] + rest.log;
      assert TradesFrom(feed, k).log == log;
      assert log[2..] == rest.log;
    }
  }

  /** The first n pages are all full. */
  predicate AllFull(feed: ActivityFeed, n: nat) {
    forall j :: 0 <= j < n ==> FullPage(feed, j)
  }

  /** The records of the first n pages, in page order. */
  function Batches(feed: ActivityFeed, n: nat): seq<Activity> {
    if n == 0 then []
    else Batches(feed, n - 1) + (match PageAnswer(feed, n - 1) case Got(r) => r.batch case _ => [])
  }

  /** The steps over n full pages: a request and a pause for each. */
  function PacedSteps(n: nat): seq<Step> {
    if n == 0 then [] else PacedSteps(n - 1) + [Get((n - 1) * PAGE_LIMIT), Pause]
  }

  /** Over n full pages, fetch_trades is their records in order followed by
      whatever paging from page n gives. */
  lemma {:induction false} PagingUnrolled(feed: ActivityFeed, n: nat)
    requires AllFull(feed, n)
    ensures TradesFrom(feed, 0) == Then(Batches(feed, n), PacedSteps(n), TradesFrom(feed, n))
  {
    if n == 0 {
      ThenNothing(TradesFrom(feed, 0));
    } else {
      var m := n - 1;
      PagingUnrolled(feed, m);
      assert FullPage(feed, m);
      var batch := PageAnswer(feed, m).resp.batch;
      assert TradesFrom(feed, m) == Then(batch, [Get(m * PAGE_LIMIT), Pause], TradesFrom(feed, n));
      ThenAssociates(Batches(feed, m), PacedSteps(m), batch, [Get(m * PAGE_LIMIT), Pause], TradesFrom(feed, n));
    }
  }

  /** A short page after n full ones ends the paging: the result is the
      n + 1 batches concatenated in order, after n + 1 requests. */
  lemma ShortPageEndsPaging(feed: ActivityFeed, n: nat)
    requires AllFull(feed, n)
    requires PageAnswer(feed, n).Got? && PageAnswer(feed, n).resp.status == OK
    requires |PageAnswer(feed, n).resp.batch| < PAGE_LIMIT
    ensures TradesFrom(feed, 0)
         == Paging(Fetched(Batches(feed, n) + PageAnswer(feed, n).resp.batch), PacedSteps(n) + [Get(n * PAGE_LIMIT)])
  {
    PagingUnrolled(feed, n);
  }

  /** An error status after n full pages ends the paging and keeps the
      records of the n pages before it. */
  lemma ErrorPageKeepsEarlierBatches(feed: ActivityFeed, n: nat)
    requires AllFull(feed, n)
    requires PageAnswer(feed, n).Got? && PageAnswer(feed, n).resp.status != OK
    ensures TradesFrom(feed, 0) == Paging(Fetched(Batches(feed, n)), PacedSteps(n) + [Get(n * PAGE_LIMIT)])
  {
    PagingUnrolled(feed, n);
    assert Batches(feed, n) + [] == Batches(feed, n);
  }

  /** A page still throttled after every retry makes fetch_trades raise,
      whatever the pages before it gave. */
  lemma ThrottledPageRaises(feed: ActivityFeed, n: nat)
    requires AllFull(feed, n)
    requires !PageAnswer(feed, n).Got?
    ensures TradesFrom(feed, 0).outcome == Raised
  {
    PagingUnrolled(feed, n);
  }

  // ----------------------------------------------------------------------
  // fetch_value

  /** fetch_value: a single request, no retry. The array holds the value
      fields of the JSON objects. */
  function FetchValue(resp: Response<real>): (v: real)
    ensures resp.status != OK || resp.batch == [] ==> v == 0.0
    ensures resp.status == OK && resp.batch != [] ==> v == resp.batch[0]
  {
    if resp.status != OK then 0.0
    else if resp.batch != [] then resp.batch[0]
    else 0.0
  }

  // ----------------------------------------------------------------------
  // grade_wallet: aggregation

  /** The sum of usdcSize over the records on this side. */
  function SumSide(trades: seq<Activity>, side: string): real {
    if trades == [] then 0.0
    else (if trades[0].side == side then trades[0].usdcSize else 0.0) + SumSide(trades[1..], side)
  }

  datatype Metrics = Metrics(spent: real, recv: real, value: real, profit: real, roi: real, volume: real)

  /** The aggregation of grade_wallet over the trades and the portfolio
      value. */
  function Measure(trades: seq<Activity>, value: real): Metrics {
    var spent := SumSide(trades, "BUY");
    var recv := SumSide(trades, "SELL");
    var profit := recv + value - spent;
    Metrics(spent, recv, value, profit, if spent > 0.0 then profit / spent else 0.0, spent + recv)
  }

  predicate NonNegativeSizes(trades: seq<Activity>) {
    forall i :: 0 <= i < |trades| ==> trades[i].usdcSize >= 0.0
  }

  lemma {:induction false} SumSideNonNegative(trades: seq<Activity>, side: string)
    requires NonNegativeSizes(trades)
    ensures SumSide(trades, side) >= 0.0
  {
    if trades != [] {
      assert NonNegativeSizes(trades[1..]) by {
        forall i | 0 <= i < |trades[1..]| ensures trades[1..][i].usdcSize >= 0.0 {
          assert trades[1..][i] == trades[i + 1];
        }
      }
      SumSideNonNegative(trades[1..], side);
    }
  }

  /** With non-negative sizes, spent and received are non-negative and
      volume bounds both. */
  lemma MeasureBounds(trades: seq<Activity>, value: real)
    requires NonNegativeSizes(trades)
    ensures var m := Measure(trades, value);
      0.0 <= m.spent <= m.volume && 0.0 <= m.recv <= m.volume
  {
    SumSideNonNegative(trades, "BUY");
    SumSideNonNegative(trades, "SELL");
  }

  lemma {:induction false} SumSideAppend(a: seq<Activity>, b: seq<Activity>, side: string)
    ensures SumSide(a + b, side) == SumSide(a, side) + SumSide(b, side)
  {
    if a == [] {
      assert a + b == b;
    } else {
      assert (a + b)[1..] == a[1..] + b;
      SumSideAppend(a[1..], b, side);
    }
  }

  /** The sums over the concatenated pages are the sums of the pages. */
  lemma MeasureOverPages(a: seq<Activity>, b: seq<Activity>, value: real)
    ensures Measure(a + b, value).spent == Measure(a, value).spent + Measure(b, value).spent
    ensures Measure(a + b, value).recv == Measure(a, value).recv + Measure(b, value).recv
    ensures Measure(a + b, value).volume == Measure(a, value).volume + Measure(b, value).volume
  {
    SumSideAppend(a, b, "BUY");
    SumSideAppend(a, b, "SELL");
  }

  /** roi is the profit per unit spent, and 0 when nothing was spent: no
      division by zero happens. */
  lemma RoiPerSpent(trades: seq<Activity>, value: real)
    ensures var m := Measure(trades, value);
      && (m.spent > 0.0 ==> m.roi * m.spent == m.profit)
      && (m.spent <= 0.0 ==> m.roi == 0.0)
  {
  }

  /** roi is not the profit per unit of volume: once a wallet has bought,
      sold and made or lost anything, the two differ. */
  lemma RoiIsNotPerVolume(trades: seq<Activity>, value: real)
    requires NonNegativeSizes(trades)
    requires Measure(trades, value).spent > 0.0 && Measure(trades, value).recv > 0.0
    requires Measure(trades, value).profit != 0.0
    ensures Measure(trades, value).roi != Measure(trades, value).profit / Measure(trades, value).volume
  {
    var m := Measure(trades, value);
    MeasureBounds(trades, value);
    assert m.volume > m.spent;
  }

  // ----------------------------------------------------------------------
  // grade_wallet: the score

  /** The three saturating terms weighted 0.60, 0.25 and 0.15. */
  function RawScore(tanh: real -> real, roi: real, volume: real, profit: real): real {
    0.60 * tanh(5.0 * roi) + 0.25 * tanh(volume / 1000.0) + 0.15 * tanh(profit / 500.0)
  }

  /** Smart-Score-Lite: 50 + 50 * raw, rounded to one decimal. */
  function SmartScore(tanh: real -> real, round: (real, nat) -> real, roi: real, volume: real, profit: real): real {
    round(50.0 + 50.0 * RawScore(tanh, roi, volume, profit), 1)
  }

  /** The weights sum to 1, so raw stays strictly between -1 and 1. */
  lemma RawInUnit(tanh: real -> real, roi: real, volume: real, profit: real)
    requires IsSaturating(tanh)
    ensures -1.0 <= RawScore(tanh, roi, volume, profit) <= 1.0
  {
    assert -1.0 <= tanh(5.0 * roi) <= 1.0;
    assert -1.0 <= tanh(volume / 1000.0) <= 1.0;
    assert -1.0 <= tanh(profit / 500.0) <= 1.0;
  }

  /** The top of the range is reached: once all three terms saturate (in
      double precision, for example roi 4, volume 20000 and profit 20000),
      the score is exactly 100. */
  lemma SaturatedScoresHundred(tanh: real -> real, round: (real, nat) -> real, roi: real, volume: real, profit: real)
    requires IsRounding(round)
    requires tanh(5.0 * roi) == 1.0 && tanh(volume / 1000.0) == 1.0 && tanh(profit / 500.0) == 1.0
    ensures SmartScore(tanh, round, roi, volume, profit) == 100.0
  {
    assert RawScore(tanh, roi, volume, profit) == 1.0;
    assert Decimal(1000, 1) == 100.0;
  }

  /** Every score lies in [0, 100]. */
  lemma ScoreInRange(tanh: real -> real, round: (real, nat) -> real, roi: real, volume: real, profit: real)
    requires IsSaturating(tanh) && IsRounding(round)
    ensures 0.0 <= SmartScore(tanh, round, roi, volume, profit) <= 100.0
  {
    RawInUnit(tanh, roi, volume, profit);
    RoundingKeepsPercentRange(round, 50.0 + 50.0 * RawScore(tanh, roi, volume, profit), 1);
  }

  /** A wallet with zero roi, volume and profit scores exactly 50. */
  lemma NeutralScore(tanh: real -> real, round: (real, nat) -> real)
    requires IsSaturating(tanh) && IsRounding(round)
    ensures SmartScore(tanh, round, 0.0, 0.0, 0.0) == 50.0
  {
    assert RawScore(tanh, 0.0, 0.0, 0.0) == 0.0;
    assert Decimal(500, 1) == 50.0;
  }

  /** The score never drops when roi, volume or profit grows. */
  lemma ScoreMonotone(tanh: real -> real, round: (real, nat) -> real,
                      roi: real, volume: real, profit: real, roi': real, volume': real, profit': real)
    requires IsSaturating(tanh) && IsRounding(round)
    requires roi <= roi' && volume <= volume' && profit <= profit'
    ensures SmartScore(tanh, round, roi, volume, profit) <= SmartScore(tanh, round, roi', volume', profit')
  {
    assert tanh(5.0 * roi) <= tanh(5.0 * roi');
    assert tanh(volume / 1000.0) <= tanh(volume' / 1000.0);
    assert tanh(profit / 500.0) <= tanh(profit' / 500.0);
  }

  // ----------------------------------------------------------------------
  // grade_wallet

  /** One row of grades.csv. */
  datatype Grade = Grade(wallet: string, profit: real, roi: real, volume: real, score: real)

  function ScoreOf(g: Grade): real {
    g.score
  }

  /** The record grade_wallet returns: rounded metrics, and the score of the
      unrounded ones. */
  function MakeGrade(addr: string, m: Metrics, tanh: real -> real, round: (real, nat) -> real): Grade {
    Grade(addr, round(m.profit, 2), round(m.roi, 4), round(m.volume, 2), SmartScore(tanh, round, m.roi, m.volume, m.profit))
  }

  function LowerChar(c: char): char {
    if 'A' <= c <= 'Z' then (c as int + 32) as char else c
  }

  /** str.lower() on the ASCII letters: 'A'..'Z' become 'a'..'z', every
      other character is kept. */
  function AsciiLower(s: string): (r: string)
    ensures |r| == |s|
    ensures forall i :: 0 <= i < |s| && 'A' <= s[i] <= 'Z' ==> r[i] as int == s[i] as int + 32
    ensures forall i :: 0 <= i < |s| && !('A' <= s[i] <= 'Z') ==> r[i] == s[i]
    ensures forall i :: 0 <= i < |r| ==> !('A' <= r[i] <= 'Z')
  {
    seq(|s|, i requires 0 <= i < |s| => LowerChar(s[i]))
  }

  lemma AsciiLowerIdempotent(s: string)
    ensures AsciiLower(AsciiLower(s)) == AsciiLower(s)
  {
  }

  /** The Data API: each wallet's activity feed, and the /value answer for
      each wallet. */
  datatype DataApi = DataApi(activity: string -> ActivityFeed, value: string -> Response<real>)

  /** grade_wallet: activity is fetched for the lower-cased address, the
      value for the address as given; None is an exception from safe_get. */
  function GradeOf(addr: string, api: DataApi, tanh: real -> real, round: (real, nat) -> real): Option<Grade> {
    match TradesFrom(api.activity(AsciiLower(addr)), 0).outcome
    case Raised => None
    case Fetched(trades) => Some(MakeGrade(addr, Measure(trades, FetchValue(api.value(addr))), tanh, round))
  }

  method GradeWallet(addr: string, api: DataApi, tanh: real -> real, round: (real, nat) -> real, jitter: nat -> real)
    returns (g: Option<Grade>)
    ensures g == GradeOf(addr, api, tanh, round)
  {
    var outcome, _ := FetchTrades(api.activity(AsciiLower(addr)), jitter);
    if outcome.Raised? {
      return None;
    }
    var value := FetchValue(api.value(addr));
    g := Some(MakeGrade(addr, Measure(outcome.records, value), tanh, round));
  }

  /** A grade names the wallet as listed and scores it within [0, 100]. */
  lemma GradeBounds(addr: string, api: DataApi, tanh: real -> real, round: (real, nat) -> real)
    requires IsSaturating(tanh) && IsRounding(round)
    ensures GradeOf(addr, api, tanh, round).Some? ==>
      var g := GradeOf(addr, api, tanh, round).value;
      g.wallet == addr && 0.0 <= g.score <= 100.0
  {
    if GradeOf(addr, api, tanh, round).Some? {
      var m := Measure(TradesFrom(api.activity(AsciiLower(addr)), 0).outcome.records, FetchValue(api.value(addr)));
      ScoreInRange(tanh, round, m.roi, m.volume, m.profit);
    }
  }

  // ----------------------------------------------------------------------
  // main: the wallet list, the grades and their ranking

  /** The line boundaries of str.splitlines(). */
  predicate IsLineBreak(c: char) {
    c == '\n' || c == '\r' || c == '\U{0B}' || c == '\U{0C}' || '\U{1C}' <= c <= '\U{1E}'
    || c == '\U{85}' || c == '\U{2028}' || c == '\U{2029}'
  }

  /** The index of the first line boundary of s, or |s|. */
  function BreakAt(s: string): (n: nat)
    ensures n <= |s|
    ensures n < |s| ==> IsLineBreak(s[n])
    ensures forall i :: 0 <= i < n ==> !IsLineBreak(s[i])
  {
    if s == [] || IsLineBreak(s[0]) then 0 else 1 + BreakAt(s[1..])
  }

  /** str.splitlines(): "\r\n" is one boundary. */
  function SplitLines(text: string): seq<string>
    decreases |text|
  {
    if text == [] then []
    else
      var n := BreakAt(text);
      if n == |text| then [text]
      else
        var width := if text[n] == '\r' && n + 1 < |text| && text[n + 1] == '\n' then 2 else 1;
        [text[..n]] + SplitLines(text[n + width..])
  }

  /** splitlines ends a line at its first boundary character, and a '\r'
      followed by '\n' is one boundary. */
  lemma SplitLinesAtBreak(u: string, c: char, v: string)
    requires NoLineBreak(u) && IsLineBreak(c)
    ensures SplitLines(u + [c] + v)
         == [u] + SplitLines(if c == '\r' && v != [] && v[0] == '\n' then v[1..] else v)
  {
    var t := u + [c] + v;
    assert t[|u|] == c;
    assert forall i :: 0 <= i < |u| ==> t[i] == u[i];
    var n := BreakAt(t);
    assert n == |u|;
    assert t[..n] == u;
    if c == '\r' && v != [] && v[0] == '\n' {
      assert t[n + 1] == '\n';
      assert t[n + 2..] == v[1..];
    } else {
      assert t[n + 1..] == v;
    }
  }

  /** The stripped, non-blank lines, in file order. */
  function NonBlank(ls: seq<string>): seq<string> {
    if ls == [] then []
    else (if Strip(ls[0]) != [] then [Strip(ls[0])] else []) + NonBlank(ls[1..])
  }

  /** The wallet list of main. */
  function WalletList(text: string): seq<string> {
    NonBlank(SplitLines(text))
  }

  predicate NoLineBreak(u: string) {
    forall i :: 0 <= i < |u| ==> !IsLineBreak(u[i])
  }

  /** Every character of s that splitlines would break at is a '\n'. */
  predicate OnlyNewlines(s: string) {
    forall i :: 0 <= i < |s| ==> s[i] == '\n' || !IsLineBreak(s[i])
  }

  lemma {:induction false} BreakAtIsLineEnd(s: string)
    requires OnlyNewlines(s)
    ensures BreakAt(s) == LineEnd(s)
  {
    if s != [] && !IsLineBreak(s[0]) {
      assert OnlyNewlines(s[1..]) by {
        forall i | 0 <= i < |s[1..]| ensures s[1..][i] == '\n' || !IsLineBreak(s[1..][i]) {
          assert s[1..][i] == s[i + 1];
        }
      }
      BreakAtIsLineEnd(s[1..]);
    }
  }

  lemma {:induction false} SplitIsLines(s: string)
    requires OnlyNewlines(s)
    ensures SplitLines(s) == Lines(s)
    decreases |s|
  {
    if s != [] {
      BreakAtIsLineEnd(s);
      var n := BreakAt(s);
      if n == |s| {
        assert s[..n] == s;
      } else {
        assert s[n] == '\n';
        var rest := s[n + 1..];
        assert OnlyNewlines(rest) by {
          forall i | 0 <= i < |rest| ensures rest[i] == '\n' || !IsLineBreak(rest[i]) {
            assert rest[i] == s[n + 1 + i];
          }
        }
        SplitIsLines(rest);
        assert SplitLines(s) == [s[..n]] + SplitLines(rest);
      }
    }
  }

  lemma {:induction false} JoinOnlyNewlines(ls: seq<string>)
    requires forall l :: l in ls ==> NoLineBreak(l)
    ensures OnlyNewlines(Join(ls))
  {
    if ls != [] {
      JoinOnlyNewlines(ls[1..]);
      var head := ls[0] + "\n";
      var tail := Join(ls[1..]);
      assert Join(ls) == head + tail;
      assert ls[0] in ls;
      forall i | 0 <= i < |head + tail| ensures (head + tail)[i] == '\n' || !IsLineBreak((head + tail)[i]) {
        if i < |ls[0]| {
          assert (head + tail)[i] == ls[0][i];
        } else if i == |ls[0]| {
          assert (head + tail)[i] == '\n';
        } else {
          assert (head + tail)[i] == tail[i - |head|];
        }
      }
    }
  }

  lemma {:induction false} NonBlankOfClean(ls: seq<string>)
    requires forall l :: l in ls ==> Clean(l)
    ensures NonBlank(ls) == ls
  {
    if ls != [] {
      var head := ls[0];
      assert head in ls;
      StripClean(head);
      NonBlankOfClean(ls[1..]);
      assert NonBlank(ls) == [head] + ls[1..];
      HeadAndTail(ls);
    }
  }

  lemma HeadAndTail<T>(s: seq<T>)
    requires s != []
    ensures [s[0]] + s[1..] == s
  {
  }

  /** On a file the scanner saved, grade_users.py reads back exactly the saved
      wallets, in sorted order, each once, provided no address holds a
      character that splitlines breaks at. */
  lemma WalletsOfSavedFile(users: set<string>)
    requires forall u :: u in users ==> Clean(u) && NoLineBreak(u)
    ensures WalletList(RenderSeenUsers(users)) == SortedUsers(users)
  {
    var sorted := SortedUsers(users);
    JoinOnlyNewlines(sorted);
    SplitIsLines(Join(sorted));
    SavedSorted(users);
    NonBlankOfClean(sorted);
  }

  /** The grades of the wallets in list order; an exception from any of
      them ends main. */
  function GradeList(wallets: seq<string>, api: DataApi, tanh: real -> real, round: (real, nat) -> real): Fetched<Grade> {
    if wallets == [] then Fetched([])
    else
      match GradeOf(wallets[0], api, tanh, round)
      case None => Raised
      case Some(g) => Prepend([g], GradeList(wallets[1..], api, tanh, round))
  }

  /** grades has one entry per wallet: the grade of the wallet at the same
      position. */
  lemma {:induction false} GradesInWalletOrder(wallets: seq<string>, api: DataApi, tanh: real -> real, round: (real, nat) -> real)
    requires GradeList(wallets, api, tanh, round).Fetched?
    ensures |GradeList(wallets, api, tanh, round).records| == |wallets|
    ensures forall i :: 0 <= i < |wallets| ==>
      GradeOf(wallets[i], api, tanh, round) == Some(GradeList(wallets, api, tanh, round).records[i])
  {
    if wallets != [] {
      var g := GradeOf(wallets[0], api, tanh, round).value;
      var later := GradeList(wallets[1..], api, tanh, round).records;
      GradesInWalletOrder(wallets[1..], api, tanh, round);
      var gs := [g] + later;
      assert GradeList(wallets, api, tanh, round).records == gs;
      forall i | 0 <= i < |wallets| ensures GradeOf(wallets[i], api, tanh, round) == Some(gs[i]) {
        if i > 0 {
          assert wallets[i] == wallets[1..][i - 1];
          assert gs[i] == later[i - 1];
        }
      }
    }
  }

  /** main raises exactly when grading some wallet raises. */
  lemma {:induction false} GradingRaisesIffSomeWalletRaises(wallets: seq<string>, api: DataApi, tanh: real -> real, round: (real, nat) -> real)
    ensures GradeList(wallets, api, tanh, round).Raised?
        <==> exists i :: 0 <= i < |wallets| && GradeOf(wallets[i], api, tanh, round).None?
  {
    if wallets != [] {
      var rest := wallets[1..];
      GradingRaisesIffSomeWalletRaises(rest, api, tanh, round);
      if GradeOf(wallets[0], api, tanh, round).Some? {
        if GradeList(rest, api, tanh, round).Raised? {
          var i :| 0 <= i < |rest| && GradeOf(rest[i], api, tanh, round).None?;
          assert wallets[i + 1] == rest[i];
        } else {
          forall i | 0 <= i < |wallets| ensures GradeOf(wallets[i], api, tanh, round).Some? {
            if i > 0 {
              assert wallets[i] == rest[i - 1];
            }
          }
        }
      }
    }
  }

  /** main: grade every wallet of seen_users.txt, then rank the grades. A
      missing file raises. */
  method GradeAllWallets(seenUsersFile: Option<string>, api: DataApi, tanh: real -> real, round: (real, nat) -> real, jitter: nat -> real)
    returns (grades: Fetched<Grade>, ranked: seq<Grade>)
    ensures seenUsersFile.None? ==> grades == Raised
    ensures seenUsersFile.Some? ==> grades == GradeList(WalletList(seenUsersFile.value), api, tanh, round)
    ensures ranked == if grades.Fetched? then SortDesc(grades.records, ScoreOf) else []
  {
    if seenUsersFile.None? {
      return Raised, [];
    }
    var wallets := WalletList(seenUsersFile.value);
    var done: seq<Grade> := [];
    var i := 0;
    assert Prepend(done, GradeList(wallets[i..], api, tanh, round)) == GradeList(wallets, api, tanh, round) by {
      assert wallets[0..] == wallets;
      match GradeList(wallets, api, tanh, round)
      case Fetched(later) => assert [] + later == later;
      case Raised =>
    }
    while i < |wallets|
      invariant 0 <= i <= |wallets|
      invariant Prepend(done, GradeList(wallets[i..], api, tanh, round)) == GradeList(wallets, api, tanh, round)
    {
      var g := GradeWallet(wallets[i], api, tanh, round, jitter);
      assert wallets[i..][0] == wallets[i] && wallets[i..][1..] == wallets[i + 1..];
      if g.None? {
        return Raised, [];
      }
      PrependTwice(done, [g.value], GradeList(wallets[i + 1..], api, tanh, round));
      done := done + [g.value];
      i := i + 1;
    }
    assert wallets[i..] == [];
    assert done + [] == done;
    grades := Fetched(done);
    ranked := SortDesc(done, ScoreOf);
  }

  lemma PrependTwice(a: seq<Grade>, b: seq<Grade>, rest: Fetched<Grade>)
    ensures Prepend(a, Prepend(b, rest)) == Prepend(a + b, rest)
  {
    match rest
    case Fetched(later) => assert a + (b + later) == (a + b) + later;
    case Raised =>
  }
}
