/** The accumulator that turns overlapping windows of log lines into a deduplicated five-minute window. */
module Traffic {
  import opened Wrappers

  /** What the two line parsers, which are parameters, read in a line; a line stands for its own digest. */
  datatype Direction = Inbound | Outbound
  datatype Message = Message(direction: Direction, scope: string, bytes: nat)
  datatype Link = Link(transport: string, status: string)
  datatype Stamped<+T> = Stamped(id: string, at: int, data: T)

  // milliseconds
  const FIVE_MINUTES := 300_000
  const ONE_MINUTE := 60_000
  const AHEAD := 30_000
  const BUCKET := 10_000

  // --- sequences ordered by time ---

  predicate Sorted<T>(xs: seq<Stamped<T>>) { forall j, k :: 0 <= j < k < |xs| ==> xs[j].at <= xs[k].at }
  predicate Distinct<T>(xs: seq<Stamped<T>>) { forall j, k :: 0 <= j < k < |xs| ==> xs[j].id != xs[k].id }

  function Since<T>(xs: seq<Stamped<T>>, cutoff: int): seq<Stamped<T>> {
    if xs == [] then []
    else (if xs[0].at >= cutoff then [xs[0]] else []) + Since(xs[1..], cutoff)
  }

  function InsertByTime<T>(x: Stamped<T>, xs: seq<Stamped<T>>): seq<Stamped<T>> {
    if xs == [] || x.at <= xs[0].at then [x] + xs else [xs[0]] + InsertByTime(x, xs[1..])
  }

  /** A stable sort by time. */
  function SortByTime<T>(xs: seq<Stamped<T>>): seq<Stamped<T>> {
    if xs == [] then [] else InsertByTime(xs[0], SortByTime(xs[1..]))
  }

  lemma {:induction false} SinceHas<T>(xs: seq<Stamped<T>>, cutoff: int, x: Stamped<T>)
    ensures x in Since(xs, cutoff) <==> x in xs && x.at >= cutoff
  {
    if xs != [] {
      SinceHas(xs[1..], cutoff, x);
      assert x in xs <==> x == xs[0] || x in xs[1..];
    }
  }

  lemma {:induction false} SinceOrder<T>(xs: seq<Stamped<T>>, cutoff: int)
    ensures Sorted(xs) ==> Sorted(Since(xs, cutoff))
    ensures Distinct(xs) ==> Distinct(Since(xs, cutoff))
  {
    if xs != [] {
      SinceOrder(xs[1..], cutoff);
      var rest := Since(xs[1..], cutoff);
      forall k | 0 <= k < |rest| ensures rest[k] in xs[1..] { SinceHas(xs[1..], cutoff, rest[k]); }
    }
  }

  lemma SinceContents<T(!new)>(xs: seq<Stamped<T>>, cutoff: int)
    ensures forall x :: x in Since(xs, cutoff) <==> x in xs && x.at >= cutoff
    ensures Sorted(xs) ==> Sorted(Since(xs, cutoff))
    ensures Distinct(xs) ==> Distinct(Since(xs, cutoff))
  {
    SinceOrder(xs, cutoff);
    forall x ensures x in Since(xs, cutoff) <==> x in xs && x.at >= cutoff { SinceHas(xs, cutoff, x); }
  }

  lemma {:induction false} InsertHas<T>(x: Stamped<T>, xs: seq<Stamped<T>>, y: Stamped<T>)
    ensures y in InsertByTime(x, xs) <==> y == x || y in xs
  {
    if xs != [] && x.at > xs[0].at {
      InsertHas(x, xs[1..], y);
      assert y in xs <==> y == xs[0] || y in xs[1..];
    }
  }

  lemma {:induction false} InsertOrder<T>(x: Stamped<T>, xs: seq<Stamped<T>>)
    requires Sorted(xs)
    ensures Sorted(InsertByTime(x, xs))
    ensures Distinct(xs) && (forall k :: 0 <= k < |xs| ==> xs[k].id != x.id) ==> Distinct(InsertByTime(x, xs))
  {
    if xs != [] && x.at > xs[0].at {
      InsertOrder(x, xs[1..]);
      var rest := InsertByTime(x, xs[1..]);
      forall k | 0 <= k < |rest| ensures rest[k] == x || rest[k] in xs[1..] { InsertHas(x, xs[1..], rest[k]); }
    }
  }

  lemma {:induction false} SortHas<T>(xs: seq<Stamped<T>>, x: Stamped<T>)
    ensures x in SortByTime(xs) <==> x in xs
  {
    if xs != [] {
      SortHas(xs[1..], x);
      InsertHas(xs[0], SortByTime(xs[1..]), x);
      assert x in xs <==> x == xs[0] || x in xs[1..];
    }
  }

  lemma {:induction false} SortOrder<T>(xs: seq<Stamped<T>>)
    ensures Sorted(SortByTime(xs)) && (Distinct(xs) ==> Distinct(SortByTime(xs)))
  {
    if xs != [] {
      SortOrder(xs[1..]);
      var rest := SortByTime(xs[1..]);
      forall k | 0 <= k < |rest| ensures rest[k] in xs[1..] { SortHas(xs[1..], rest[k]); }
      InsertOrder(xs[0], rest);
    }
  }

  lemma SortContents<T(!new)>(xs: seq<Stamped<T>>)
    ensures Sorted(SortByTime(xs)) && (forall x :: x in SortByTime(xs) <==> x in xs)
    ensures Distinct(xs) ==> Distinct(SortByTime(xs))
  {
    SortOrder(xs);
    forall x ensures x in SortByTime(xs) <==> x in xs { SortHas(xs, x); }
  }

  // --- what a log line is ---

  /** A line's two readings carry the line as their id and, if it has both, the same time. */
  ghost predicate Reads(event: string -> Option<Stamped<Message>>, link: string -> Option<Stamped<Link>>) {
    forall l ::
      && (event(l).Some? ==> event(l).value.id == l) && (link(l).Some? ==> link(l).value.id == l)
      && (event(l).Some? && link(l).Some? ==> event(l).value.at == link(l).value.at)
  }

  // --- summaries ---

  function Count(xs: seq<Stamped<Message>>, from: int, to: int): nat {
    if xs == [] then 0 else (if from <= xs[0].at < to then 1 else 0) + Count(xs[1..], from, to)
  }

  function Received(xs: seq<Stamped<Message>>): nat {
    if xs == [] then 0 else (if xs[0].data.direction == Inbound then 1 else 0) + Received(xs[1..])
  }

  function Bytes(xs: seq<Stamped<Message>>): nat {
    if xs == [] then 0 else xs[0].data.bytes + Bytes(xs[1..])
  }

  function Within(xs: seq<Stamped<Message>>, from: int, to: int): seq<Stamped<Message>> {
    if xs == [] then []
    else (if from <= xs[0].at < to then [xs[0]] else []) + Within(xs[1..], from, to)
  }

  datatype Window = Window(inbound: nat, outbound: nat, total: nat, bytes: nat)
  datatype Bucket = Bucket(startedAt: int, inbound: nat, outbound: nat, total: nat)
  datatype Summary = Summary(oneMinute: Window, fiveMinutes: Window, buckets: seq<Bucket>,
                             recent: seq<Stamped<Message>>, recentConnections: seq<Stamped<Link>>)

  lemma {:induction false} ReceivedWithin(xs: seq<Stamped<Message>>)
    ensures Received(xs) <= |xs|
  {
    if xs != [] { ReceivedWithin(xs[1..]); }
  }

  function WindowOf(xs: seq<Stamped<Message>>, cutoff: int): Window {
    var inside := Since(xs, cutoff);
    ReceivedWithin(inside);
    Window(Received(inside), |inside| - Received(inside), |inside|, Bytes(inside))
  }

  function BucketOf(xs: seq<Stamped<Message>>, startedAt: int): Bucket {
    var inside := Within(xs, startedAt, startedAt + BUCKET);
    ReceivedWithin(inside);
    Bucket(startedAt, Received(inside), |inside| - Received(inside), |inside|)
  }

  /** `n` buckets in a row. */
  function BucketsOf(xs: seq<Stamped<Message>>, first: int, n: nat): seq<Bucket> {
    if n == 0 then [] else BucketsOf(xs, first, n - 1) + [BucketOf(xs, first + (n - 1) * BUCKET)]
  }

  function FirstBucket(now: int): int { now / BUCKET * BUCKET - 5 * BUCKET }

  function Total(buckets: seq<Bucket>): nat {
    if buckets == [] then 0 else Total(buckets[..|buckets| - 1]) + buckets[|buckets| - 1].total
  }

  function Newest<T>(xs: seq<Stamped<T>>, n: nat): seq<Stamped<T>> {
    if xs == [] || n == 0 then [] else [xs[|xs| - 1]] + Newest(xs[..|xs| - 1], n - 1)
  }

  lemma {:induction false} WithinIsCount(xs: seq<Stamped<Message>>, from: int, to: int)
    ensures |Within(xs, from, to)| == Count(xs, from, to)
  {
    if xs != [] { WithinIsCount(xs[1..], from, to); }
  }

  lemma {:induction false} CountAdds(xs: seq<Stamped<Message>>, from: int, mid: int, to: int)
    requires from <= mid <= to
    ensures Count(xs, from, mid) + Count(xs, mid, to) == Count(xs, from, to)
  {
    if xs != [] { CountAdds(xs[1..], from, mid, to); }
  }

  lemma {:induction false} CountNone(xs: seq<Stamped<Message>>, from: int)
    ensures Count(xs, from, from) == 0
  {
    if xs != [] { CountNone(xs[1..], from); }
  }

  /** Consecutive buckets count every message of their span once. */
  lemma {:induction false} BucketsPartition(xs: seq<Stamped<Message>>, first: int, n: nat)
    ensures Total(BucketsOf(xs, first, n)) == Count(xs, first, first + n * BUCKET)
  {
    if n == 0 {
      CountNone(xs, first);
    } else {
      BucketsPartition(xs, first, n - 1);
      var start := first + (n - 1) * BUCKET;
      WithinIsCount(xs, start, start + BUCKET);
      CountAdds(xs, first, start, start + BUCKET);
    }
  }

  /** The six buckets that end with the current one lie within the last minute and the half minute ahead. */
  lemma BucketsWithinMinute(xs: seq<Stamped<Message>>, now: int)
    ensures Total(BucketsOf(xs, FirstBucket(now), 6)) <= |Since(xs, now - ONE_MINUTE)| <= |Since(xs,
            now - FIVE_MINUTES)|
  {
    var first := FirstBucket(now);
    BucketsPartition(xs, first, 6);
    CountBound(xs, first, first + 6 * BUCKET, now - ONE_MINUTE);
    SinceShrinks(xs, now - FIVE_MINUTES, now - ONE_MINUTE);
  }

  lemma {:induction false} CountBound(xs: seq<Stamped<Message>>, from: int, to: int, cutoff: int)
    requires cutoff <= from
    ensures Count(xs, from, to) <= |Since(xs, cutoff)|
  {
    if xs != [] { CountBound(xs[1..], from, to, cutoff); }
  }

  lemma {:induction false} SinceShrinks<T>(xs: seq<Stamped<T>>, early: int, late: int)
    requires early <= late
    ensures |Since(xs, late)| <= |Since(xs, early)|
  {
    if xs != [] { SinceShrinks(xs[1..], early, late); }
  }

  // --- what the numbers of a summary count ---

  predicate Falls<T>(x: Stamped<T>, from: int, until: Option<int>) {
    from <= x.at && (until.Some? ==> x.at < until.value)
  }

  /** The messages of a direction in a span. */
  function Tally(xs: seq<Stamped<Message>>, from: int, until: Option<int>, direction: Direction): nat {
    if xs == [] then 0
    else (if Falls(xs[0], from, until) && xs[0].data.direction == direction then 1 else 0)
         + Tally(xs[1..], from, until, direction)
  }

  /** The bytes of the messages from a time on. */
  function Volume(xs: seq<Stamped<Message>>, from: int): nat {
    if xs == [] then 0 else (if xs[0].at >= from then xs[0].data.bytes else 0) + Volume(xs[1..], from)
  }

  function Counted(xs: seq<Stamped<Message>>, from: int): Window {
    var i, o := Tally(xs, from, None, Inbound), Tally(xs, from, None, Outbound);
    Window(i, o, i + o, Volume(xs, from))
  }

  lemma {:induction false} WindowCounts(xs: seq<Stamped<Message>>, cutoff: int)
    ensures WindowOf(xs, cutoff) == Counted(xs, cutoff)
  {
    if xs != [] {
      WindowCounts(xs[1..], cutoff);
      var rest := Since(xs[1..], cutoff);
      assert [] + rest == rest;
      assert xs[0].at >= cutoff ==> ([xs[0]] + rest)[1..] == rest;
    }
  }

  lemma {:induction false} BucketCounts(xs: seq<Stamped<Message>>, startedAt: int)
    ensures var i, o := Tally(xs, startedAt, Some(startedAt + 10_000), Inbound),
                        Tally(xs, startedAt, Some(startedAt + 10_000), Outbound);
            BucketOf(xs, startedAt) == Bucket(startedAt, i, o, i + o)
  {
    if xs != [] {
      BucketCounts(xs[1..], startedAt);
      var rest := Within(xs[1..], startedAt, startedAt + BUCKET);
      assert [] + rest == rest;
      assert startedAt <= xs[0].at < startedAt + BUCKET ==> ([xs[0]] + rest)[1..] == rest;
    }
  }

  lemma {:induction false} BucketsAre(xs: seq<Stamped<Message>>, first: int, n: nat)
    ensures |BucketsOf(xs, first, n)| == n
    ensures forall k :: 0 <= k < n ==> BucketsOf(xs, first, n)[k] == BucketOf(xs, first + k * BUCKET)
  {
    if n > 0 { BucketsAre(xs, first, n - 1); }
  }

  lemma {:induction false} NewestAre<T>(xs: seq<Stamped<T>>, n: nat)
    ensures |Newest(xs, n)| == if |xs| < n then |xs| else n
    ensures forall k :: 0 <= k < |Newest(xs, n)| ==> Newest(xs, n)[k] == xs[|xs| - 1 - k]
    decreases n
  {
    if xs != [] && n > 0 {
      var m := |xs| - 1;
      var before := xs[..m];
      var rest := Newest(before, n - 1);
      NewestAre(before, n - 1);
      assert Newest(xs, n) == [xs[m]] + rest;
      forall k | 0 <= k < |rest| ensures rest[k] == xs[m - 1 - k] { assert before[|before| - 1 - k] == xs[m - 1 - k]; }
    }
  }

  /** Each bucket counts its ten seconds; the last of the six is the current one. */
  predicate BucketsCount(buckets: seq<Bucket>, xs: seq<Stamped<Message>>, now: int) {
    && |buckets| == 6
    && forall k :: 0 <= k < 6 ==>
         var start := now / 10_000 * 10_000 - (5 - k) * 10_000;
         var i, o := Tally(xs, start, Some(start + 10_000), Inbound), Tally(xs, start, Some(start + 10_000), Outbound);
         buckets[k] == Bucket(start, i, o, i + o)
  }

  lemma BucketsDoCount(xs: seq<Stamped<Message>>, now: int)
    ensures BucketsCount(BucketsOf(xs, FirstBucket(now), 6), xs, now)
  {
    var buckets := BucketsOf(xs, FirstBucket(now), 6);
    BucketsAre(xs, FirstBucket(now), 6);
    forall k | 0 <= k < 6
      ensures var start := now / 10_000 * 10_000 - (5 - k) * 10_000;
              var i, o := Tally(xs, start, Some(start + 10_000), Inbound),
                  Tally(xs, start, Some(start + 10_000), Outbound);
              buckets[k] == Bucket(start, i, o, i + o)
    {
      BucketCounts(xs, FirstBucket(now) + k * BUCKET);
    }
  }

  /** The last forty, newest first. */
  predicate LastForty<T(==)>(recent: seq<Stamped<T>>, xs: seq<Stamped<T>>) {
    && |recent| == (if |xs| < 40 then |xs| else 40)
    && forall k :: 0 <= k < |recent| ==> recent[k] == xs[|xs| - 1 - k]
  }

  /** The elements of one time. */
  function At<T>(xs: seq<Stamped<T>>, at: int): seq<Stamped<T>> {
    if xs == [] then [] else (if xs[0].at == at then [xs[0]] else []) + At(xs[1..], at)
  }

  lemma {:induction false} InsertIsStable<T>(x: Stamped<T>, xs: seq<Stamped<T>>, at: int)
    requires Sorted(xs)
    ensures At(InsertByTime(x, xs), at) == At([x] + xs, at)
  {
    assert ([x] + xs)[1..] == xs;
    if xs != [] && x.at > xs[0].at {
      InsertIsStable(x, xs[1..], at);
      assert ([xs[0]] + InsertByTime(x, xs[1..]))[1..] == InsertByTime(x, xs[1..]);
      assert ([x] + xs[1..])[1..] == xs[1..];
      if x.at == at { NoneAtFirst(xs, at); }
    }
  }

  lemma NoneAtFirst<T>(xs: seq<Stamped<T>>, at: int)
    requires xs != [] && xs[0].at < at
    ensures At(xs, at) == At(xs[1..], at)
  {
  }

  /** Sorting by time keeps the order in which lines of the same time came. */
  lemma {:induction false} SortIsStable<T>(xs: seq<Stamped<T>>, at: int)
    ensures At(SortByTime(xs), at) == At(xs, at)
  {
    if xs != [] {
      SortIsStable(xs[1..], at);
      SortOrder(xs[1..]);
      InsertIsStable(xs[0], SortByTime(xs[1..]), at);
      assert ([xs[0]] + SortByTime(xs[1..]))[1..] == SortByTime(xs[1..]);
    }
  }

  // --- the contents of an accumulator ---

  function TimeOf(event: string -> Option<Stamped<Message>>, link: string -> Option<Stamped<Link>>,
      line: string): Option<int> {
    if event(line).Some? then Some(event(line).value.at)
    else if link(line).Some? then Some(link(line).value.at)
    else None
  }

  /** Each line of a kind that was seen is held with its reading, once, and nothing else is. */
  ghost predicate Readings<T(!new)>(reading: string -> Option<Stamped<T>>, seen: map<string, int>,
      xs: seq<Stamped<T>>) {
    Distinct(xs) && forall x :: x in xs <==> x.id in seen && reading(x.id) == Some(x)
  }

  /** The seen lines are those ever accepted that are no older than the cutoff, each with its time. */
  ghost predicate Seen(event: string -> Option<Stamped<Message>>, link: string -> Option<Stamped<Link>>,
                       seen: map<string, int>, accepted: set<string>, cutoff: int) {
    && (forall l :: l in accepted ==> TimeOf(event, link, l).Some?)
    && forall l :: l in seen <==>
         l in accepted && TimeOf(event, link, l).Some? && TimeOf(event, link, l).value >= cutoff
  }

  ghost predicate Timed(event: string -> Option<Stamped<Message>>, link: string -> Option<Stamped<Link>>,
      seen: map<string, int>) {
    forall l :: l in seen ==> Some(seen[l]) == TimeOf(event, link, l)
  }

  function Recent(seen: map<string, int>, cutoff: int): map<string, int> {
    map l | l in seen && seen[l] >= cutoff :: seen[l]
  }

  lemma SeenLater(event: string -> Option<Stamped<Message>>, link: string -> Option<Stamped<Link>>,
                  seen: map<string, int>, accepted: set<string>, cutoff: int, later: int)
    requires Seen(event, link, seen, accepted, cutoff) && Timed(event, link, seen) && later >= cutoff
    ensures Seen(event, link, Recent(seen, later), accepted, later) && Timed(event, link, Recent(seen, later))
  {
  }

  /** A reading has its line's time. */
  ghost predicate TimesAgree<T(!new)>(reading: string -> Option<Stamped<T>>, seen: map<string, int>) {
    forall l {:trigger reading(l)} :: l in seen && reading(l).Some? ==> reading(l).value.at == seen[l]
  }

  lemma ReadingsLater<T(!new)>(reading: string -> Option<Stamped<T>>, seen: map<string, int>, xs: seq<Stamped<T>>,
      cutoff: int)
    requires Readings(reading, seen, xs) && TimesAgree(reading, seen)
    ensures Readings(reading, Recent(seen, cutoff), Since(xs, cutoff)) && (Sorted(xs) ==> Sorted(Since(xs, cutoff)))
  {
    SinceContents(xs, cutoff);
    forall x ensures x in Since(xs, cutoff) <==> x.id in Recent(seen, cutoff) && reading(x.id) == Some(x) {
      assert x in xs <==> x.id in seen && reading(x.id) == Some(x);
    }
  }

  lemma ReadingsSorted<T(!new)>(reading: string -> Option<Stamped<T>>, seen: map<string, int>, xs: seq<Stamped<T>>)
    requires Readings(reading, seen, xs)
    ensures Readings(reading, seen, SortByTime(xs)) && Sorted(SortByTime(xs))
  {
    SortContents(xs);
    forall x ensures x in SortByTime(xs) <==> x.id in seen && reading(x.id) == Some(x) {
      assert x in xs <==> x.id in seen && reading(x.id) == Some(x);
    }
  }

  lemma ReadingsGrow<T(!new)>(reading: string -> Option<Stamped<T>>, seen: map<string, int>, xs: seq<Stamped<T>>,
      line: string, at: int)
    requires Readings(reading, seen, xs) && line !in seen && (reading(line).Some? ==> reading(line).value.id == line)
    ensures Readings(reading, seen[line := at], if reading(line).Some? then xs + [reading(line).value] else xs)
  {
    var ys := if reading(line).Some? then xs + [reading(line).value] else xs;
    forall x ensures x in ys <==> x.id in seen[line := at] && reading(x.id) == Some(x) {
      assert x in xs <==> x.id in seen && reading(x.id) == Some(x);
    }
    forall k | 0 <= k < |xs| ensures xs[k].id != line { assert xs[k] in xs; }
  }

  class Accumulator {
    const parseEvent: string -> Option<Stamped<Message>>
    const parseLink: string -> Option<Stamped<Link>>
    var seen: map<string, int>
    var events: seq<Stamped<Message>>
    var connections: seq<Stamped<Link>>
    ghost var clock: int // the time of the last call
    ghost var accepted: set<string> // every line an ingest has accepted

    constructor (parseEvent: string -> Option<Stamped<Message>>, parseLink: string -> Option<Stamped<Link>>,
        ghost now: int)
      requires Reads(parseEvent, parseLink)
      ensures Valid() && this.parseEvent == parseEvent && this.parseLink == parseLink && accepted == {} && clock == now
    {
      this.parseEvent, this.parseLink := parseEvent, parseLink;
      seen, events, connections := map[], [], [];
      clock, accepted := now, {};
    }

    /** A line says something, at a time neither long past nor far ahead. */
    predicate Acceptable(line: string, now: int) {
      var at := TimeOf(parseEvent, parseLink, line);
      at.Some? && now - FIVE_MINUTES <= at.value <= now + AHEAD
    }

    ghost predicate Holds()
      reads this
    {
      && Reads(parseEvent, parseLink)
      && Seen(parseEvent, parseLink, seen, accepted, clock - FIVE_MINUTES) && Timed(parseEvent, parseLink, seen)
      && Readings(parseEvent, seen, events) && Readings(parseLink, seen, connections)
    }

    /** The seen lines are the accepted ones of the last five minutes, and their readings are held in order of time. */
    ghost predicate Valid()
      reads this
    {
      Holds() && Sorted(events) && Sorted(connections)
    }

    method Prune(now: int)
      requires Holds() && now >= clock
      modifies this
      ensures Holds() && clock == now && accepted == old(accepted)
      ensures (old(Sorted(events)) ==> Sorted(events)) && (old(Sorted(connections)) ==> Sorted(connections))
    {
      var cutoff := now - FIVE_MINUTES;
      SeenLater(parseEvent, parseLink, seen, accepted, clock - FIVE_MINUTES, cutoff);
      ReadingsLater(parseEvent, seen, events, cutoff);
      ReadingsLater(parseLink, seen, connections, cutoff);
      events := Since(events, cutoff);
      connections := Since(connections, cutoff);
      seen := Recent(seen, cutoff);
      clock := now;
    }

    /** Takes a window of log lines, whichever of them earlier calls have taken already. */
    method Ingest(lines: seq<string>, now: int)
      requires Valid() && now >= clock
      modifies this
      ensures Valid() && clock == now
      ensures accepted == old(accepted) + set l | l in lines && TimeOf(parseEvent, parseLink, l).Some?
                                                  && now - 300_000 <= TimeOf(parseEvent, parseLink, l).value <= now
                                                      + 30_000
    {
      Prune(now);
      var i := 0;
      while i < |lines|
        invariant 0 <= i <= |lines| && Holds() && clock == now
        invariant accepted == old(accepted) + set l | l in lines[..i] && Acceptable(l, now)
      {
        var line := lines[i];
        assert lines[..i + 1] == lines[..i] + [line];
        IngestLine(line, now);
        i := i + 1;
      }
      assert lines[..i] == lines;
      SortAll();
      Prune(now);
    }

    method SortAll()
      requires Holds()
      modifies this`events, this`connections
      ensures Valid()
    {
      ReadingsSorted(parseEvent, seen, events);
      ReadingsSorted(parseLink, seen, connections);
      events := SortByTime(events);
      connections := SortByTime(connections);
    }

    method IngestLine(line: string, now: int)
      requires Holds() && clock == now
      modifies this
      ensures Holds() && clock == now && accepted == old(accepted) + if Acceptable(line, now) then {line} else {}
    {
      var event := parseEvent(line);
      var connection := parseLink(line);
      if event.None? && connection.None? { return; }
      var at := if event.Some? then event.value.at else connection.value.at;
      if line in seen { return; }
      if at < now - FIVE_MINUTES || at > now + AHEAD { return; }
      ReadingsGrow(parseEvent, seen, events, line, at);
      ReadingsGrow(parseLink, seen, connections, line, at);
      seen := seen[line := at];
      if event.Some? { events := events + [event.value]; }
      if connection.Some? { connections := connections + [connection.value]; }
      accepted := accepted + {line};
    }

    method Summarize(now: int) returns (s: Summary)
      requires Valid() && now >= clock
      modifies this
      ensures Valid() && clock == now && accepted == old(accepted)
      ensures s.fiveMinutes == Counted(events, now - 300_000) && s.oneMinute == Counted(events, now - 60_000)
      ensures BucketsCount(s.buckets, events, now)
      ensures LastForty(s.recent, events) && LastForty(s.recentConnections, connections)
      ensures s.fiveMinutes.total == |events| && Total(s.buckets) <= s.oneMinute.total <= s.fiveMinutes.total
    {
      Prune(now);
      AllRecent(parseEvent, parseLink, seen, events, accepted, now - FIVE_MINUTES);
      BucketsWithinMinute(events, now);
      WindowCounts(events, now - ONE_MINUTE);
      WindowCounts(events, now - FIVE_MINUTES);
      BucketsDoCount(events, now);
      NewestAre(events, 40);
      NewestAre(connections, 40);
      s := Summary(WindowOf(events, now - ONE_MINUTE), WindowOf(events, now - FIVE_MINUTES),
                   BucketsOf(events, FirstBucket(now), 6), Newest(events, 40), Newest(connections, 40));
    }
  }

  lemma AllRecent(event: string -> Option<Stamped<Message>>, link: string -> Option<Stamped<Link>>,
      seen: map<string, int>,
                  xs: seq<Stamped<Message>>, accepted: set<string>, cutoff: int)
    requires Seen(event, link, seen, accepted, cutoff) && Readings(event, seen, xs)
    ensures Since(xs, cutoff) == xs
  {
    forall x | x in xs ensures x.at >= cutoff { assert TimeOf(event, link, x.id) == Some(x.at); }
    AllSince(xs, cutoff);
  }

  lemma {:induction false} AllSince<T>(xs: seq<Stamped<T>>, cutoff: int)
    requires forall x :: x in xs ==> x.at >= cutoff
    ensures Since(xs, cutoff) == xs
  {
    if xs != [] {
      assert xs[0] in xs;
      AllSince(xs[1..], cutoff);
    }
  }
}
