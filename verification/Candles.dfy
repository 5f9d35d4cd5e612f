/** One-minute candles (backend/app/tasks/jobs.py:19-123): each run extends a pair's candles minute by minute up
    to the last complete minute.  Times are in microseconds. */
module Candles {

  const MINUTE := 60000000

  datatype Tick = Tick(time: int, price: real, quantity: real, quote: real)

  datatype Candle = Candle(
    time: int,
    open: real,
    high: real,
    low: real,
    close: real,
    volume: real,
    quoteVolume: real,
    count: nat)

  /** The trade log is read in time order. */
  ghost predicate Sorted(log: seq<Tick>) {
    forall i, j :: 0 <= i < j < |log| ==> log[i].time <= log[j].time
  }

  function Between(log: seq<Tick>, a: int, b: int): seq<Tick> {
    if log == [] then []
    else (if a <= log[0].time < b then [log[0]] else []) + Between(log[1..], a, b)
  }

  function Before(log: seq<Tick>, b: int): seq<Tick> {
    if log == [] then []
    else (if log[0].time < b then [log[0]] else []) + Before(log[1..], b)
  }

  function High(ts: seq<Tick>): real
    requires ts != []
  {
    if |ts| == 1 then ts[0].price else var h := High(ts[1..]); if ts[0].price > h then ts[0].price else h
  }

  function Low(ts: seq<Tick>): real
    requires ts != []
  {
    if |ts| == 1 then ts[0].price else var l := Low(ts[1..]); if ts[0].price < l then ts[0].price else l
  }

  function Volume(ts: seq<Tick>): real {
    if ts == [] then 0.0 else ts[0].quantity + Volume(ts[1..])
  }

  function QuoteVolume(ts: seq<Tick>): real {
    if ts == [] then 0.0 else ts[0].quote + QuoteVolume(ts[1..])
  }

  function MinuteOf(t: int): int {
    t - t % MINUTE
  }

  function LastMinute(now: int): int {
    MinuteOf(now) - MINUTE
  }

  // ----- the candles table -----

  predicate Has(cs: seq<Candle>, time: int) {
    exists i :: 0 <= i < |cs| && cs[i].time == time
  }

  /** The close of the candle at a time, if there is one. */
  function CloseAt(cs: seq<Candle>, time: int): (r: seq<real>)
    ensures r == [] <==> !Has(cs, time)
    ensures r != [] ==> exists i :: 0 <= i < |cs| && cs[i].time == time && r == [cs[i].close]
  {
    if cs == [] then []
    else if cs[|cs| - 1].time == time then [cs[|cs| - 1].close]
    else CloseAt(cs[..|cs| - 1], time)
  }

  function Latest(cs: seq<Candle>): int
    requires cs != []
  {
    if |cs| == 1 then cs[0].time
    else var l := Latest(cs[..|cs| - 1]); if cs[|cs| - 1].time > l then cs[|cs| - 1].time else l
  }

  /** The price an empty minute carries: the previous minute's close, else the last earlier trade's price, else
      the market's. */
  function Carried(cs: seq<Candle>, log: seq<Tick>, minute: int, market: real): real {
    var previous, earlier := CloseAt(cs, minute - MINUTE), Before(log, minute);
    if previous != [] then previous[0]
    else if earlier != [] then earlier[|earlier| - 1].price
    else market
  }

  function Build(cs: seq<Candle>, log: seq<Tick>, minute: int, market: real): Candle {
    var ts := Between(log, minute, minute + MINUTE);
    if ts != [] then
      Candle(minute, ts[0].price, High(ts), Low(ts), ts[|ts| - 1].price, Volume(ts), QuoteVolume(ts), |ts|)
    else
      var p := Carried(cs, log, minute, market);
      Candle(minute, p, p, p, p, 0.0, 0.0, 0)
  }

  function AddMinute(cs: seq<Candle>, log: seq<Tick>, minute: int, market: real): seq<Candle> {
    if Has(cs, minute) then cs else cs + [Build(cs, log, minute, market)]
  }

  function Start(cs: seq<Candle>, log: seq<Tick>, cut: int): int {
    if cs != [] then Latest(cs) + MINUTE
    else if log != [] then MinuteOf(log[0].time)
    else cut
  }

  function Extend(cs: seq<Candle>, log: seq<Tick>, minute: int, cut: int, market: real): seq<Candle>
    decreases cut - minute + MINUTE
  {
    if minute > cut then cs else Extend(AddMinute(cs, log, minute, market), log, minute + MINUTE, cut, market)
  }

  /** The table after a run. */
  function Aggregated(cs: seq<Candle>, log: seq<Tick>, now: int, market: real): seq<Candle> {
    Extend(cs, log, Start(cs, log, LastMinute(now)), LastMinute(now), market)
  }

  class CandleTable {
    var candles: seq<Candle>

    constructor ()
      ensures candles == []
    {
      candles := [];
    }

    method Aggregate(log: seq<Tick>, now: int, market: real) returns (added: nat)
      modifies this
      ensures candles == Aggregated(old(candles), log, now, market)
      ensures |candles| == |old(candles)| + added
    {
      hide Between, Carried, High, Low, Volume, QuoteVolume, Latest, MinuteOf, Has, LastMinute;
      var cut := LastMinute(now);
      var minute;
      if candles != [] {
        minute := Latest(candles) + MINUTE;
      } else if log != [] {
        minute := MinuteOf(log[0].time);
      } else {
        minute := cut;
      }
      added := 0;
      while minute <= cut
        invariant Aggregated(old(candles), log, now, market) == Extend(candles, log, minute, cut, market)
        invariant |candles| == |old(candles)| + added
        decreases cut - minute
      {
        var ts := Between(log, minute, minute + MINUTE);
        var candle;
        if ts != [] {
          candle := Candle(minute, ts[0].price, High(ts), Low(ts), ts[|ts| - 1].price,
                           Volume(ts), QuoteVolume(ts), |ts|);
        } else {
          var price := Carried(candles, log, minute, market);
          candle := Candle(minute, price, price, price, price, 0.0, 0.0, 0);
        }
        if !Has(candles, minute) {
          candles := candles + [candle];
          added := added + 1;
        }
        minute := minute + MINUTE;
      }
    }
  }

  // ----- the log in windows -----

  lemma {:induction false} BetweenNone(log: seq<Tick>, a: int, b: int)
    requires forall t :: t in log ==> t.time < a || t.time >= b
    ensures Between(log, a, b) == []
  {
    if log == [] {
    } else {
      BetweenNone(log[1..], a, b);
    }
  }

  lemma SortedTail(log: seq<Tick>)
    requires Sorted(log) && log != []
    ensures Sorted(log[1..]) && forall t :: t in log[1..] ==> t.time >= log[0].time
  {
    forall t | t in log[1..] ensures t.time >= log[0].time {
      var i :| 0 <= i < |log| - 1 && log[1..][i] == t;
      assert log[i + 1] == t;
    }
  }

  lemma NoTicks(a: int, b: int)
    ensures Between([], a, b) == [] && Before([], b) == []
  {
  }

  lemma FirstTick(log: seq<Tick>, a: int, b: int)
    requires log != []
    ensures Between(log, a, b) == (if a <= log[0].time < b then [log[0]] else []) + Between(log[1..], a, b)
    ensures Before(log, b) == (if log[0].time < b then [log[0]] else []) + Before(log[1..], b)
  {
  }

  /** Two windows that meet hold, one after the other, what the window over both holds. */
  lemma {:induction false} WindowsJoin(log: seq<Tick>, a: int, b: int, c: int)
    requires Sorted(log) && a <= b <= c
    ensures Between(log, a, c) == Between(log, a, b) + Between(log, b, c)
  {
    hide Sorted, Between;
    if log == [] {
      NoTicks(a, b);
      NoTicks(b, c);
      NoTicks(a, c);
    } else {
      SortedTail(log);
      WindowsJoin(log[1..], a, b, c);
      FirstTick(log, a, b);
      FirstTick(log, b, c);
      FirstTick(log, a, c);
      if b <= log[0].time { BetweenNone(log[1..], a, b); }
    }
  }

  /** What came before a time is what came since any time before the log began. */
  lemma {:induction false} BeforeIs(log: seq<Tick>, a: int, b: int)
    requires forall t :: t in log ==> t.time >= a
    ensures Before(log, b) == Between(log, a, b)
  {
    if log == [] {
    } else {
      assert log[0] in log;
      BeforeIs(log[1..], a, b);
    }
  }

  lemma {:induction false} BetweenAppend(log: seq<Tick>, more: seq<Tick>, a: int, b: int)
    ensures Between(log + more, a, b) == Between(log, a, b) + Between(more, a, b)
    ensures Before(log + more, b) == Before(log, b) + Before(more, b)
  {
    hide Between, Before;
    if log == [] {
      assert log + more == more;
      NoTicks(a, b);
    } else {
      assert (log + more)[1..] == log[1..] + more;
      BetweenAppend(log[1..], more, a, b);
      FirstTick(log, a, b);
      FirstTick(log + more, a, b);
    }
  }

  lemma {:induction false} BeforeNone(log: seq<Tick>, b: int)
    requires forall t :: t in log ==> t.time >= b
    ensures Before(log, b) == []
  {
    if log == [] {
    } else {
      assert log[0] in log;
      BeforeNone(log[1..], b);
    }
  }

  lemma {:induction false} VolumesAppend(a: seq<Tick>, b: seq<Tick>)
    ensures Volume(a + b) == Volume(a) + Volume(b) && QuoteVolume(a + b) == QuoteVolume(a) + QuoteVolume(b)
  {
    if a == [] {
      assert a + b == b;
    } else {
      assert (a + b)[1..] == a[1..] + b;
      VolumesAppend(a[1..], b);
    }
  }

  lemma {:induction false} RangeOf(ts: seq<Tick>)
    requires ts != []
    ensures forall t :: t in ts ==> Low(ts) <= t.price <= High(ts)
    ensures exists t :: t in ts && t.price == Low(ts)
    ensures exists t :: t in ts && t.price == High(ts)
  {
    if |ts| > 1 { RangeOf(ts[1..]); } else { assert ts[0] in ts; }
  }

  // ----- what a table says of the log -----

  /** A candle tells its minute's trades exactly: how many, how much, first, last, and the tightest bounds; and
      in an empty minute it stands still at the last earlier trade's price, if there was one. */
  ghost predicate Tells(c: Candle, log: seq<Tick>) {
    var ts, earlier := Between(log, c.time, c.time + 60000000), Before(log, c.time);
    && c.count == |ts| && c.volume == Volume(ts) && c.quoteVolume == QuoteVolume(ts)
    && c.low <= c.open <= c.high && c.low <= c.close <= c.high
    && if ts != [] then
         && c.open == ts[0].price && c.close == ts[|ts| - 1].price
         && (forall t :: t in ts ==> c.low <= t.price <= c.high)
         && (exists t :: t in ts && t.price == c.low) && (exists t :: t in ts && t.price == c.high)
       else
         && c.open == c.close == c.high == c.low
         && (earlier != [] ==> c.close == earlier[|earlier| - 1].price)
  }

  /** Candles for every minute from the first on, ending just before `end`, none of the log earlier; an empty one
      carries the close before it. */
  ghost predicate Table(cs: seq<Candle>, log: seq<Tick>, end: int) {
    && (forall i :: 0 <= i < |cs| ==> cs[i].time == end - (|cs| - i) * 60000000)
    && (forall t :: t in log ==> t.time >= end - |cs| * 60000000)
    && (forall i :: 0 <= i < |cs| ==> Tells(cs[i], log))
    && (forall i :: 0 < i < |cs| && cs[i].count == 0 ==> cs[i].close == cs[i - 1].close)
  }

  lemma CandleTells(cs: seq<Candle>, log: seq<Tick>, minute: int, market: real)
    requires Sorted(log) && Table(cs, log, minute)
    ensures Tells(Build(cs, log, minute, market), log)
  {
    hide High, Low, Volume, QuoteVolume, CloseAt, Table;
    var ts := Between(log, minute, minute + MINUTE);
    NoVolume();
    if ts != [] {
      RangeOf(ts);
      assert ts[0] in ts && ts[|ts| - 1] in ts;
    } else if Before(log, minute) != [] {
      CarriesLast(cs, log, minute, market);
    }
  }

  lemma NoVolume()
    ensures Volume([]) == 0.0 == QuoteVolume([])
  {
  }

  lemma CarriesLast(cs: seq<Candle>, log: seq<Tick>, minute: int, market: real)
    requires Sorted(log) && Table(cs, log, minute) && Before(log, minute) != []
    ensures var e := Before(log, minute); Carried(cs, log, minute, market) == e[|e| - 1].price
  {
    hide High, Low, Volume, QuoteVolume, Between, Before, CloseAt, Table, Tells;
    if cs == [] {
      BeforeNone(log, minute) by { EmptyTable(log, minute); }
      assert false;
    } else {
      var c := cs[|cs| - 1];
      LastTold(cs, log, minute);
      LastClose(cs, c.time);
      ToldClose(c, log);
    }
  }

  lemma LastClose(cs: seq<Candle>, time: int)
    requires cs != [] && cs[|cs| - 1].time == time
    ensures CloseAt(cs, time) == [cs[|cs| - 1].close]
  {
  }

  /** A candle closes at the last price there was by its end. */
  lemma ToldClose(c: Candle, log: seq<Tick>)
    requires Tells(c, log)
    ensures var e := Before(log, c.time) + Between(log, c.time, c.time + MINUTE);
      e != [] ==> c.close == e[|e| - 1].price
  {
    hide High, Low, Volume, QuoteVolume, Between, Before;
  }

  /** The candle of a minute without trades stands still at the close of the one before, or, as the first of its table,
      at the market's price. */
  lemma EmptyStands(cs: seq<Candle>, log: seq<Tick>, minute: int, market: real)
    requires Table(cs, log, minute)
    ensures var c := Build(cs, log, minute, market);
      c.count == 0 ==>
        && c.open == c.high == c.low == c.close == (if cs != [] then cs[|cs| - 1].close else market)
        && c.volume == 0.0 == c.quoteVolume
  {
    hide High, Low, Volume, QuoteVolume, Between, Before, CloseAt, Tells;
    if cs != [] {
      LastClose(cs, minute - MINUTE);
    } else {
      BeforeNone(log, minute) by { EmptyTable(log, minute); }
      NoClose(minute - MINUTE);
    }
  }

  lemma NoClose(time: int)
    ensures CloseAt([], time) == []
  {
  }

  lemma AddKeeps(cs: seq<Candle>, log: seq<Tick>, minute: int, market: real)
    requires Sorted(log) && Table(cs, log, minute)
    ensures AddMinute(cs, log, minute, market) == cs + [Build(cs, log, minute, market)]
    ensures Table(AddMinute(cs, log, minute, market), log, minute + MINUTE)
  {
    hide Build, Tells;
    CandleTells(cs, log, minute, market);
    var cs' := cs + [Build(cs, log, minute, market)];
    assert Build(cs, log, minute, market).time == minute by { BuildTime(cs, log, minute, market); }
    forall i | 0 <= i < |cs'| ensures cs'[i].time == minute + MINUTE - (|cs'| - i) * MINUTE && Tells(cs'[i], log) {
      if i < |cs| { assert cs'[i] == cs[i]; }
    }
    EmptyStands(cs, log, minute, market);
  }

  lemma BuildTime(cs: seq<Candle>, log: seq<Tick>, minute: int, market: real)
    ensures Build(cs, log, minute, market).time == minute
  {
  }

  lemma {:induction false} ExtendKeeps(cs: seq<Candle>, log: seq<Tick>, minute: int, cut: int, market: real)
    requires Sorted(log) && Table(cs, log, minute) && (cut - minute) % MINUTE == 0
    ensures var cs' := Extend(cs, log, minute, cut, market);
      && Table(cs', log, if minute > cut then minute else cut + MINUTE)
      && cs <= cs' && (minute <= cut ==> |cs'| == |cs| + (cut - minute) / MINUTE + 1)
    decreases cut - minute + MINUTE
  {
    hide Table, AddMinute;
    if minute <= cut {
      AddKeeps(cs, log, minute, market);
      ExtendKeeps(AddMinute(cs, log, minute, market), log, minute + MINUTE, cut, market);
    }
  }

  lemma {:induction false} LatestIs(cs: seq<Candle>, end: int)
    requires cs != [] && forall i :: 0 <= i < |cs| ==> cs[i].time == end - (|cs| - i) * MINUTE
    ensures Latest(cs) == end - MINUTE
  {
    if |cs| > 1 { LatestIs(cs[..|cs| - 1], end - MINUTE); }
  }

  /** A run keeps the table telling the log and extends it to the last complete minute. */
  lemma AggregateKeeps(cs: seq<Candle>, log: seq<Tick>, now: int, market: real, end: int)
    requires Sorted(log) && Table(cs, log, end) && end % MINUTE == 0
    requires cs == [] ==> end == Start([], log, LastMinute(now))
    ensures var cs', cut := Aggregated(cs, log, now, market), LastMinute(now);
      Table(cs', log, if end > cut then end else cut + MINUTE) && cs <= cs' && (end <= cut ==> cs' != [])
  {
    hide Extend, Tells;
    if cs != [] { LatestIs(cs, end); }
    ExtendKeeps(cs, log, end, LastMinute(now), market);
  }

  lemma LastMinuteGrows(a: int, b: int)
    requires a <= b
    ensures LastMinute(a) <= LastMinute(b) && LastMinute(a) % MINUTE == 0
  {
    assert MinuteOf(a) == a / MINUTE * MINUTE && MinuteOf(b) == b / MINUTE * MINUTE;
  }

  /** Trades that come in after the last candle's minute change nothing about the candles there are. */
  lemma LaterTrades(cs: seq<Candle>, log: seq<Tick>, more: seq<Tick>, end: int)
    requires Table(cs, log, end) && forall t :: t in more ==> t.time >= end
    ensures Table(cs, log + more, end)
  {
    hide Tells;
    forall i | 0 <= i < |cs| ensures Tells(cs[i], log + more) {
      LaterTold(cs[i], log, more, end);
    }
  }

  lemma LaterTold(c: Candle, log: seq<Tick>, more: seq<Tick>, end: int)
    requires Tells(c, log) && c.time + MINUTE <= end && forall t :: t in more ==> t.time >= end
    ensures Tells(c, log + more)
  {
    hide High, Low, Volume, QuoteVolume, Between, Before;
    BetweenAppend(log, more, c.time, c.time + MINUTE);
    BetweenAppend(log, more, c.time, c.time);
    BetweenNone(more, c.time, c.time + MINUTE);
    BeforeNone(more, c.time);
    assert Between(log, c.time, c.time + MINUTE) + [] == Between(log, c.time, c.time + MINUTE);
    assert Before(log, c.time) + [] == Before(log, c.time);
  }

  // ----- the partition -----

  /** The trades the candles count, candle by candle. */
  function Counted(cs: seq<Candle>, log: seq<Tick>): seq<Tick> {
    if cs == [] then []
    else var c := cs[|cs| - 1]; Counted(cs[..|cs| - 1], log) + Between(log, c.time, c.time + MINUTE)
  }

  function Counts(cs: seq<Candle>): nat {
    if cs == [] then 0 else Counts(cs[..|cs| - 1]) + cs[|cs| - 1].count
  }

  function Volumes(cs: seq<Candle>): real {
    if cs == [] then 0.0 else Volumes(cs[..|cs| - 1]) + cs[|cs| - 1].volume
  }

  function QuoteVolumes(cs: seq<Candle>): real {
    if cs == [] then 0.0 else QuoteVolumes(cs[..|cs| - 1]) + cs[|cs| - 1].quoteVolume
  }

  lemma FrontTable(cs: seq<Candle>, log: seq<Tick>, end: int)
    requires Table(cs, log, end) && cs != []
    ensures Table(cs[..|cs| - 1], log, end - MINUTE)
  {
    hide Tells;
  }

  /** Candles partition the log: what they count, one after the other, is the log up to their end, each trade
      once, and their counts and volumes add up to the log's. */
  lemma {:induction false} Partition(cs: seq<Candle>, log: seq<Tick>, end: int)
    requires Sorted(log) && Table(cs, log, end)
    ensures Counted(cs, log) == Before(log, end)
    ensures Counts(cs) == |Before(log, end)|
    ensures Volumes(cs) == Volume(Before(log, end)) && QuoteVolumes(cs) == QuoteVolume(Before(log, end))
    decreases |cs|
  {
    hide Volume, QuoteVolume, Between, Before, Table;
    if cs == [] {
      assert forall t :: t in log ==> t.time >= end by { EmptyTable(log, end); }
      BeforeNone(log, end);
      NoVolume();
    } else {
      var front, c := cs[..|cs| - 1], cs[|cs| - 1];
      FrontTable(cs, log, end);
      Partition(front, log, end - MINUTE);
      LastTold(cs, log, end);
      VolumesAppend(Before(log, end - MINUTE), Between(log, c.time, c.time + MINUTE));
    }
  }

  lemma EmptyTable(log: seq<Tick>, end: int)
    requires Table([], log, end)
    ensures forall t :: t in log ==> t.time >= end
  {
  }

  lemma LastTold(cs: seq<Candle>, log: seq<Tick>, end: int)
    requires Sorted(log) && Table(cs, log, end) && cs != []
    ensures var c := cs[|cs| - 1];
      && c.time == end - MINUTE && Tells(c, log)
      && Before(log, end) == Before(log, end - MINUTE) + Between(log, c.time, c.time + MINUTE)
  {
    hide Tells, Between, Before;
    var first := end - |cs| * MINUTE;
    BeforeIs(log, first, end);
    BeforeIs(log, first, end - MINUTE);
    WindowsJoin(log, first, end - MINUTE, end);
  }

  /** Running again at the same time, or earlier, adds nothing. */
  lemma AggregateIdempotent(cs: seq<Candle>, log: seq<Tick>, now: int, market: real, end: int, again: int,
                            market': real)
    requires Sorted(log) && Table(cs, log, end) && end % MINUTE == 0 && again <= now
    requires cs == [] ==> end == Start([], log, LastMinute(now))
    ensures var cs' := Aggregated(cs, log, now, market); Aggregated(cs', log, again, market') == cs'
  {
    hide Tells, LastMinute, MinuteOf, Table, Aggregated, Build;
    var cs', cut := Aggregated(cs, log, now, market), LastMinute(now);
    AggregateKeeps(cs, log, now, market, end);
    LastMinuteGrows(again, now);
    if cs' != [] {
      TableTimes(cs', log, if end > cut then end else cut + MINUTE);
      LatestIs(cs', if end > cut then end else cut + MINUTE);
    }
    NothingToAdd(cs', log, again, market');
  }

  lemma TableTimes(cs: seq<Candle>, log: seq<Tick>, end: int)
    requires Table(cs, log, end)
    ensures forall i :: 0 <= i < |cs| ==> cs[i].time == end - (|cs| - i) * MINUTE
  {
  }

  lemma NothingToAdd(cs: seq<Candle>, log: seq<Tick>, now: int, market: real)
    ensures Start(cs, log, LastMinute(now)) > LastMinute(now) ==> Aggregated(cs, log, now, market) == cs
  {
  }

  // ----- every run of the job -----

  /** More trades are stored, then the job runs. */
  datatype Round = Round(more: seq<Tick>, now: int, market: real)

  predicate InTime(cs: seq<Candle>, log: seq<Tick>, round: Round) {
    forall t :: t in round.more ==> cs != [] ==> t.time >= Latest(cs) + MINUTE
  }

  ghost predicate AllInTime(cs: seq<Candle>, log: seq<Tick>, rounds: seq<Round>)
    decreases |rounds|
  {
    rounds != [] ==>
      var r := rounds[0];
      && Sorted(log + r.more) && InTime(cs, log, r)
      && AllInTime(Aggregated(cs, log + r.more, r.now, r.market), log + r.more, rounds[1..])
  }

  ghost function Rounds(cs: seq<Candle>, log: seq<Tick>, rounds: seq<Round>): (seq<Candle>, seq<Tick>)
    decreases |rounds|
  {
    if rounds == [] then (cs, log)
    else
      var r := rounds[0];
      Rounds(Aggregated(cs, log + r.more, r.now, r.market), log + r.more, rounds[1..])
  }

  ghost predicate Told(cs: seq<Candle>, log: seq<Tick>) {
    Sorted(log) && (cs != [] ==> Table(cs, log, Latest(cs) + MINUTE) && Latest(cs) % MINUTE == 0)
  }

  lemma RoundTold(cs: seq<Candle>, log: seq<Tick>, r: Round)
    requires Told(cs, log) && Sorted(log + r.more) && InTime(cs, log, r)
    ensures Told(Aggregated(cs, log + r.more, r.now, r.market), log + r.more)
  {
    hide Tells, Aggregated, Table, MinuteOf, LastMinute, Latest, Start, Sorted;
    var log', cut := log + r.more, LastMinute(r.now);
    var end := if cs != [] then Latest(cs) + MINUTE else Start([], log', cut);
    LastMinuteGrows(r.now, r.now);
    if cs != [] {
      LaterTrades(cs, log, r.more, end);
      NextMinute(Latest(cs));
    } else {
      OpeningTable(log', cut);
    }
    NextMinute(cut);
    AggregateKeeps(cs, log', r.now, r.market, end);
    var cs' := Aggregated(cs, log', r.now, r.market);
    if cs' != [] {
      var last := if end > cut then end else cut + MINUTE;
      TableTimes(cs', log', last);
      LatestIs(cs', last);
      PreviousMinute(last);
    }
  }

  lemma NextMinute(t: int)
    requires t % MINUTE == 0
    ensures (t + MINUTE) % MINUTE == 0
  {
  }

  lemma PreviousMinute(t: int)
    requires t % MINUTE == 0
    ensures (t - MINUTE) % MINUTE == 0
  {
  }

  lemma OpeningTable(log: seq<Tick>, cut: int)
    requires Sorted(log) && cut % MINUTE == 0
    ensures Table([], log, Start([], log, cut)) && Start([], log, cut) % MINUTE == 0
  {
    forall t | t in log ensures t.time >= Start([], log, cut) {
      var j :| 0 <= j < |log| && log[j] == t;
      assert log[0].time <= t.time;
    }
  }

  lemma {:induction false} RoundsTold(cs: seq<Candle>, log: seq<Tick>, rounds: seq<Round>)
    requires Told(cs, log) && AllInTime(cs, log, rounds)
    ensures var (cs', log') := Rounds(cs, log, rounds); Told(cs', log')
    decreases |rounds|
  {
    hide Told, Aggregated, Sorted, InTime;
    if rounds == [] {
    } else {
      var r := rounds[0];
      RoundTold(cs, log, r);
      RoundsTold(Aggregated(cs, log + r.more, r.now, r.market), log + r.more, rounds[1..]);
    }
  }

  lemma TableTells(cs: seq<Candle>, log: seq<Tick>, end: int)
    requires Table(cs, log, end) && end % MINUTE == 0
    ensures forall i :: 0 <= i < |cs| ==> Tells(cs[i], log) && cs[i].time % 60000000 == 0
    ensures forall i :: 0 < i < |cs| ==>
      cs[i].time == cs[i - 1].time + 60000000 && (cs[i].count == 0 ==> cs[i].open == cs[i - 1].close)
  {
    hide Between, Before, High, Low, Volume, QuoteVolume;
  }

  /** However often the job runs while trades come in on time, the candles are contiguous minutes, each tells
      its own minute, and together they partition the log up to the end of the last of them. */
  lemma EveryRunPartitions(rounds: seq<Round>)
    requires AllInTime([], [], rounds)
    ensures var (cs, log) := Rounds([], [], rounds);
      && (forall i :: 0 <= i < |cs| ==> Tells(cs[i], log) && cs[i].time % 60000000 == 0)
      && (forall i :: 0 < i < |cs| ==>
            cs[i].time == cs[i - 1].time + 60000000 && (cs[i].count == 0 ==> cs[i].open == cs[i - 1].close))
      && (cs != [] ==>
            var until := Before(log, cs[|cs| - 1].time + 60000000);
            && Counted(cs, log) == until && Counts(cs) == |until|
            && Volumes(cs) == Volume(until) && QuoteVolumes(cs) == QuoteVolume(until))
  {
    hide Rounds, AllInTime, Tells, Latest, Counted, Counts, Volumes, QuoteVolumes, Volume, QuoteVolume, Before;
    RoundsTold([], [], rounds);
    var (cs, log) := Rounds([], [], rounds);
    if cs != [] {
      Partition(cs, log, Latest(cs) + MINUTE);
      NextMinute(Latest(cs));
      TableTells(cs, log, Latest(cs) + MINUTE);
    }
  }

  /** A run brings the candles up to the last minute that is over: if it adds any, the last of them is that minute's; if
      it adds none, there is one already, or the first trade is of a minute that is not over yet. */
  lemma RunReaches(cs: seq<Candle>, log: seq<Tick>, r: Round)
    requires Told(cs, log) && Sorted(log + r.more) && InTime(cs, log, r)
    ensures var all := log + r.more; var cs' := Aggregated(cs, all, r.now, r.market);
      && cs <= cs'
      && (cs' != cs ==> cs' != [] && var last := cs'[|cs'| - 1].time; last + 60000000 <= r.now < last + 120000000)
      && (cs' == cs ==> if cs != [] then r.now < cs[|cs| - 1].time + 120000000
                        else all != [] && r.now < all[0].time + 60000000)
  {
    hide Tells, Table, MinuteOf, LastMinute, Latest, Sorted, Extend;
    var log', cut := log + r.more, LastMinute(r.now);
    var end := if cs != [] then Latest(cs) + MINUTE else Start([], log', cut);
    LastMinuteGrows(r.now, r.now);
    CutIs(r.now);
    if cs != [] {
      LaterTrades(cs, log, r.more, end);
      NextMinute(Latest(cs));
    } else {
      OpeningTable(log', cut);
      StartIs(log', cut);
    }
    AggregateKeeps(cs, log', r.now, r.market, end);
    var cs' := Aggregated(cs, log', r.now, r.market);
    TableTimes(cs', log', if end > cut then end else cut + MINUTE);
    if cs != [] { TableTimes(cs, log', end); }
    ReachesIf(cs, log', end, cut, r.market);
  }

  lemma CutIs(now: int)
    ensures LastMinute(now) + 60000000 <= now < LastMinute(now) + 120000000
  {
  }

  lemma StartIs(log: seq<Tick>, cut: int)
    ensures Start([], log, cut) > cut ==> log != [] && Start([], log, cut) == MinuteOf(log[0].time) <= log[0].time
  {
  }

  /** Nothing is added exactly when the next minute is past the last that is over. */
  lemma ReachesIf(cs: seq<Candle>, log: seq<Tick>, end: int, cut: int, market: real)
    requires Sorted(log) && Table(cs, log, end) && (cut - end) % MINUTE == 0
    ensures Extend(cs, log, end, cut, market) == cs <==> end > cut
  {
    hide Table, Sorted, AddMinute;
    ExtendKeeps(cs, log, end, cut, market);
  }

  // ----- late trades -----

  /** The log with one more trade put into it. */
  function Slipped(log: seq<Tick>, i: nat, late: Tick): seq<Tick>
    requires i <= |log|
  {
    log[..i] + [late] + log[i..]
  }

  lemma SlippedWindows(log: seq<Tick>, i: nat, late: Tick, a: int, b: int)
    requires i <= |log|
    ensures late.time < a || late.time >= b ==> Between(Slipped(log, i, late), a, b) == Between(log, a, b)
    ensures late.time >= b ==> Before(Slipped(log, i, late), b) == Before(log, b)
    ensures |Before(Slipped(log, i, late), b)| == |Before(log, b)| + (if late.time < b then 1 else 0)
  {
    assert log == log[..i] + log[i..];
    BetweenAppend(log[..i], log[i..], a, b);
    BetweenAppend(log[..i] + [late], log[i..], a, b);
    BetweenAppend(log[..i], [late], a, b);
  }

  lemma {:induction false} LatestHas(cs: seq<Candle>)
    requires cs != []
    ensures Has(cs, Latest(cs))
  {
    var front := cs[..|cs| - 1];
    if |cs| == 1 {
      assert cs[0].time == Latest(cs);
    } else {
      LatestHas(front);
      var k :| 0 <= k < |front| && front[k].time == Latest(front);
      assert cs[k].time == Latest(front) && cs[|cs| - 1].time == cs[|cs| - 1].time;
    }
  }

  /** With a candle for the minute before, a trade of an earlier minute plays no part. */
  lemma {:induction false} ExtendMisses(cs: seq<Candle>, log: seq<Tick>, i: nat, late: Tick, minute: int, cut: int,
                                        market: real)
    requires i <= |log| && late.time < minute && Has(cs, minute - MINUTE)
    ensures Extend(cs, Slipped(log, i, late), minute, cut, market) == Extend(cs, log, minute, cut, market)
    decreases cut - minute + MINUTE
  {
    hide Between, Before, High, Low, Volume, QuoteVolume, Slipped;
    if minute > cut {
    } else {
      SlippedWindows(log, i, late, minute, minute + MINUTE);
      var cs1 := AddMinute(cs, log, minute, market);
      assert AddMinute(cs, Slipped(log, i, late), minute, market) == cs1;
      HasAdded(cs, log, minute, market);
      ExtendMisses(cs1, log, i, late, minute + MINUTE, cut, market);
    }
  }

  lemma HasAdded(cs: seq<Candle>, log: seq<Tick>, minute: int, market: real)
    ensures Has(AddMinute(cs, log, minute, market), minute)
  {
    hide Between, Carried, High, Low, Volume, QuoteVolume;
    var cs1 := AddMinute(cs, log, minute, market);
    if !Has(cs, minute) { assert cs1[|cs|].time == minute; }
  }

  lemma {:induction false} ExtendLatest(cs: seq<Candle>, log: seq<Tick>, minute: int, cut: int, market: real)
    requires cs != []
    ensures var cs' := Extend(cs, log, minute, cut, market); cs' != [] && Latest(cs') >= Latest(cs)
    decreases cut - minute + MINUTE
  {
    hide Build;
    if minute > cut {
    } else {
      var cs1 := AddMinute(cs, log, minute, market);
      if cs1 != cs { assert cs1[..|cs|] == cs; }
      ExtendLatest(cs1, log, minute + MINUTE, cut, market);
    }
  }

  /** Runs over a log with a trade slipped in before the end of the last candle make the same table as runs over the
      log without it. */
  lemma {:induction false} RoundsMiss(cs: seq<Candle>, log: seq<Tick>, i: nat, late: Tick, rounds: seq<Round>)
    requires cs != [] && i <= |log| && late.time < Latest(cs) + MINUTE
    ensures var (cs', log') := Rounds(cs, log, rounds);
      && i <= |log'| && Rounds(cs, Slipped(log, i, late), rounds) == (cs', Slipped(log', i, late))
      && cs' != [] && Latest(cs') >= Latest(cs)
    decreases |rounds|
  {
    hide Extend, Latest, LastMinute;
    if rounds == [] {
    } else {
      var r := rounds[0];
      assert Slipped(log, i, late) + r.more == Slipped(log + r.more, i, late);
      LatestHas(cs);
      ExtendMisses(cs, log + r.more, i, late, Latest(cs) + MINUTE, LastMinute(r.now), r.market);
      ExtendLatest(cs, log + r.more, Latest(cs) + MINUTE, LastMinute(r.now), r.market);
      RoundsMiss(Aggregated(cs, log + r.more, r.now, r.market), log + r.more, i, late, rounds[1..]);
    }
  }

  lemma SlippedSorted(log: seq<Tick>, i: nat, late: Tick)
    requires i <= |log| && Sorted(Slipped(log, i, late))
    ensures Sorted(log)
  {
    var s := Slipped(log, i, late);
    forall j | 0 <= j < |log| ensures log[j] == s[if j < i then j else j + 1] {}
  }

  /** If the rounds are in time for the log with the late trade, they are for the log without it. */
  lemma {:induction false} MissedInTime(cs: seq<Candle>, log: seq<Tick>, i: nat, late: Tick, rounds: seq<Round>)
    requires cs != [] && i <= |log| && late.time < Latest(cs) + MINUTE && AllInTime(cs, Slipped(log, i, late), rounds)
    ensures AllInTime(cs, log, rounds)
    decreases |rounds|
  {
    hide Extend, Latest, LastMinute, Sorted;
    if rounds == [] {
    } else {
      var r := rounds[0];
      assert Slipped(log, i, late) + r.more == Slipped(log + r.more, i, late);
      SlippedSorted(log + r.more, i, late);
      LatestHas(cs);
      ExtendMisses(cs, log + r.more, i, late, Latest(cs) + MINUTE, LastMinute(r.now), r.market);
      ExtendLatest(cs, log + r.more, Latest(cs) + MINUTE, LastMinute(r.now), r.market);
      MissedInTime(Aggregated(cs, log + r.more, r.now, r.market), log + r.more, i, late, rounds[1..]);
    }
  }

  /** A trade stored after the candles reached `Latest(cs)`: whatever runs follow, the candles count every trade up to
      their end if and only if that trade is later than the last minute that had its candle.  Otherwise they are the
      candles of a log that never had it. */
  lemma LateTradeLost(cs: seq<Candle>, log: seq<Tick>, i: nat, late: Tick, rounds: seq<Round>)
    requires Told(cs, log) && cs != [] && i <= |log|
    requires Sorted(Slipped(log, i, late)) && AllInTime(cs, Slipped(log, i, late), rounds)
    ensures var (cs', all) := Rounds(cs, Slipped(log, i, late), rounds);
      && cs' != []
      && (Counts(cs') == |Before(all, Latest(cs') + MINUTE)| <==> late.time >= Latest(cs) + MINUTE)
      && (late.time < Latest(cs) + MINUTE ==> cs' == Rounds(cs, log, rounds).0)
  {
    hide Rounds, AllInTime, Latest, Counts, Before, Slipped, Sorted, Told;
    var all := Slipped(log, i, late);
    if late.time < Latest(cs) + MINUTE {
      MissedInTime(cs, log, i, late, rounds);
      RoundsMiss(cs, log, i, late, rounds);
      RoundsTold(cs, log, rounds);
      var (cs', log') := Rounds(cs, log, rounds);
      ToldCounts(cs', log');
      SlippedWindows(log', i, late, 0, Latest(cs') + MINUTE);
    } else {
      SlippedTold(cs, log, i, late);
      RoundsTold(cs, all, rounds);
      RoundsKeep(cs, all, rounds);
      var (cs', log') := Rounds(cs, all, rounds);
      ToldCounts(cs', log');
    }
  }

  lemma ToldCounts(cs: seq<Candle>, log: seq<Tick>)
    requires Told(cs, log) && cs != []
    ensures Counts(cs) == |Before(log, Latest(cs) + MINUTE)|
  {
    hide Table, Latest, Counted, Counts, Volumes, QuoteVolumes, Volume, QuoteVolume, Before;
    Partition(cs, log, Latest(cs) + MINUTE);
  }

  lemma {:induction false} RoundsKeep(cs: seq<Candle>, log: seq<Tick>, rounds: seq<Round>)
    requires cs != []
    ensures Rounds(cs, log, rounds).0 != []
    decreases |rounds|
  {
    hide Extend, Latest, LastMinute;
    if rounds == [] {
    } else {
      var r := rounds[0];
      ExtendLatest(cs, log + r.more, Latest(cs) + MINUTE, LastMinute(r.now), r.market);
      RoundsKeep(Aggregated(cs, log + r.more, r.now, r.market), log + r.more, rounds[1..]);
    }
  }

  lemma SlippedTold(cs: seq<Candle>, log: seq<Tick>, i: nat, late: Tick)
    requires Told(cs, log) && cs != [] && i <= |log| && late.time >= Latest(cs) + MINUTE
    requires Sorted(Slipped(log, i, late))
    ensures Told(cs, Slipped(log, i, late))
  {
    hide Latest, Sorted, Tells;
    var all, end := Slipped(log, i, late), Latest(cs) + MINUTE;
    forall t | t in all ensures t == late || t in log {
      assert log == log[..i] + log[i..];
    }
    forall j | 0 <= j < |cs| ensures Tells(cs[j], all) {
      StillTells(cs[j], log, i, late);
    }
  }

  lemma StillTells(c: Candle, log: seq<Tick>, i: nat, late: Tick)
    requires Tells(c, log) && i <= |log| && late.time >= c.time + MINUTE
    ensures Tells(c, Slipped(log, i, late))
  {
    hide Between, Before, Slipped, Volume, QuoteVolume;
    SlippedWindows(log, i, late, c.time, c.time + MINUTE);
    SlippedWindows(log, i, late, c.time, c.time);
  }

  lemma OneCandle(first: Tick, market: real)
    requires first.time == 0
    ensures Aggregated([], [first], MINUTE, market) == [Build([], [first], 0, market)]
  {
    hide Build;
    var c := Build([], [first], 0, market);
    assert AddMinute([], [first], 0, market) == [c] && Extend([c], [first], MINUTE, 0, market) == [c];
  }

  lemma FirstCandle(first: Tick, market: real)
    requires first.time == 0
    ensures var cs := Aggregated([], [first], MINUTE, market);
      Told(cs, [first]) && cs != [] && Latest(cs) == 0
  {
    hide Build, Aggregated, Table;
    var none: seq<Tick> := [];
    assert none + [first] == [first];
    RoundTold([], none, Round([first], MINUTE, market));
    OneCandle(first, market);
    BuildTime([], [first], 0, market);
  }

  /** One trade in the first minute, and its candle; another of the same minute stored after that is in no candle,
      whenever the job runs next. */
  lemma LateTradeExample(now: int, market: real)
    ensures var first, late := Tick(0, 5.0, 1.0, 5.0), Tick(1, 6.0, 2.0, 12.0);
      var cs := Aggregated([], [first], MINUTE, market); var cs' := Aggregated(cs, [first, late], now, market);
      && cs' == Aggregated(cs, [first], now, market)
      && cs' != [] && Counts(cs') != |Before([first, late], Latest(cs') + MINUTE)|
  {
    hide Aggregated, Counts, Latest, Table, Before;
    var first, late := Tick(0, 5.0, 1.0, 5.0), Tick(1, 6.0, 2.0, 12.0);
    var cs := Aggregated([], [first], MINUTE, market);
    var round, log := Round([], now, market), [first, late];
    FirstCandle(first, market);
    assert Slipped([first], 1, late) == log && log + round.more == log && [first] + round.more == [first];
    assert [round][1..] == [];
    LateTradeLost(cs, [first], 1, late, [round]);
  }
}
