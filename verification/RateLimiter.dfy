/** The in-memory rate limiter. Times are clock readings in nanoseconds; a request reads the
    clock twice, once for the comparison and once for the value it stores. */
module RateLimiter {

  datatype Visitor = Visitor(count: int, lastSeen: int)

  type Visitors = map<string, Visitor>

  datatype Limits = Limits(rate: int, window: int)

  /** A request's clock readings, or a cleanup pass with one reading per visitor. */
  datatype Op = Request(ip: string, checked: int, stamped: int) | Cleanup(readings: string -> int)

  predicate Expired(l: Limits, v: Visitor, now: int) {
    now - v.lastSeen > l.window
  }

  /** One request: the table afterwards, and whether it is let through. */
  function Allow(l: Limits, vs: Visitors, ip: string, checked: int, stamped: int): (Visitors, bool) {
    if ip !in vs then (vs[ip := Visitor(1, stamped)], true)
    else if Expired(l, vs[ip], checked) then (vs[ip := Visitor(1, stamped)], true)
    else if vs[ip].count >= l.rate then (vs, false)
    else (vs[ip := Visitor(vs[ip].count + 1, stamped)], true)
  }

  function Clean(l: Limits, vs: Visitors, readings: string -> int): Visitors {
    map ip | ip in vs && !Expired(l, vs[ip], readings(ip)) :: vs[ip]
  }

  function Step(l: Limits, vs: Visitors, op: Op): Visitors {
    match op
    case Request(ip, checked, stamped) => Allow(l, vs, ip, checked, stamped).0
    case Cleanup(readings) => Clean(l, vs, readings)
  }

  function Run(l: Limits, ops: seq<Op>): Visitors {
    if ops == [] then map[] else Step(l, Run(l, ops[..|ops| - 1]), ops[|ops| - 1])
  }

  /** The requests of `ip` that were let through. */
  function LetThrough(l: Limits, ops: seq<Op>, ip: string): (h: seq<Op>)
    ensures forall i :: 0 <= i < |h| ==> h[i].Request?
  {
    if ops == [] then []
    else
      var front, last := ops[..|ops| - 1], ops[|ops| - 1];
      LetThrough(l, front, ip)
      + (if last.Request? && last.ip == ip && Allow(l, Run(l, front), ip, last.checked, last.stamped).1 then [last] else [])
  }

  /** The times of these requests, as stored. */
  function Accepted(l: Limits, ops: seq<Op>, ip: string): (h: seq<int>) {
    var h := LetThrough(l, ops, ip);
    seq(|h|, i requires 0 <= i < |h| => h[i].stamped)
  }

  // ---------- the clock ----------

  /** Every reading of `op` lies between `lo` and `hi`. */
  ghost predicate Between(op: Op, lo: int, hi: int) {
    match op
    case Request(_, checked, stamped) => lo <= checked <= stamped <= hi
    case Cleanup(readings) => forall ip :: lo <= readings(ip) <= hi
  }

  /** The clock never goes back from one operation to the next: `clock[i]` separates the
      readings of operation `i` from those of the next one. */
  ghost predicate Monotone(ops: seq<Op>, clock: seq<int>) {
    && |clock| == |ops| + 1
    && (forall i :: 0 <= i < |ops| ==> clock[i] <= clock[i + 1] && Between(ops[i], clock[i], clock[i + 1]))
  }

  lemma MonotoneFront(ops: seq<Op>, clock: seq<int>)
    requires Monotone(ops, clock) && ops != []
    ensures Monotone(ops[..|ops| - 1], clock[..|clock| - 1])
  {
  }

  // ---------- spacing ----------

  function Most(l: Limits): nat {
    if l.rate < 1 then 1 else l.rate
  }

  /** Any `Most + 1` consecutive accepted requests span more than the window. */
  predicate Spaced(l: Limits, h: seq<int>) {
    forall i :: 0 <= i && i + Most(l) < |h| ==> h[i + Most(l)] - h[i] > l.window
  }

  predicate Ascending(h: seq<int>) {
    forall i, j :: 0 <= i <= j < |h| ==> h[i] <= h[j]
  }

  /** What a visitor says about the requests accepted so far: the last `count` of them form
      a burst, separated from the earlier ones by more than the window. */
  predicate Explains(l: Limits, h: seq<int>, v: Visitor) {
    && 1 <= v.count <= Most(l) && v.count <= |h|
    && v.lastSeen == h[|h| - 1]
    && (v.count < |h| ==> h[|h| - v.count] - h[|h| - v.count - 1] > l.window)
  }

  /** The invariant of one client: spaced history, explained by the visitor if there is
      one, and more than a window ago if there is none. */
  predicate Good(l: Limits, h: seq<int>, vs: Visitors, ip: string, now: int) {
    && Ascending(h) && Spaced(l, h) && (h != [] ==> h[|h| - 1] <= now)
    && (if ip in vs then Explains(l, h, vs[ip]) else h == [] || now - h[|h| - 1] > l.window)
  }

  /** A request after a gap longer than the window starts a new burst. */
  lemma NewBurst(l: Limits, h: seq<int>, t: int)
    requires l.window >= 0 && Ascending(h) && Spaced(l, h) && (h != [] ==> t - h[|h| - 1] > l.window)
    ensures Ascending(h + [t]) && Spaced(l, h + [t]) && Explains(l, h + [t], Visitor(1, t))
  {
    var g := h + [t];
    forall i | 0 <= i && i + Most(l) < |g| ensures g[i + Most(l)] - g[i] > l.window {
      if i + Most(l) == |h| {
        assert h[i] <= h[|h| - 1];
      }
    }
  }

  /** A request within a burst that is not full. */
  lemma LongerBurst(l: Limits, h: seq<int>, v: Visitor, t: int)
    requires l.window >= 0 && Ascending(h) && Spaced(l, h) && Explains(l, h, v) && v.count < l.rate && h[|h| - 1] <= t
    ensures Ascending(h + [t]) && Spaced(l, h + [t]) && Explains(l, h + [t], Visitor(v.count + 1, t))
  {
    var g := h + [t];
    forall i | 0 <= i && i + Most(l) < |g| ensures g[i + Most(l)] - g[i] > l.window {
      if i + Most(l) == |h| {
        assert i <= |h| - v.count - 1;
        assert h[i] <= h[|h| - v.count - 1] && h[|h| - v.count] <= h[|h| - 1];
      }
    }
  }

  lemma RequestKeepsGood(l: Limits, h: seq<int>, vs: Visitors, ip: string, checked: int, stamped: int, lo: int, hi: int)
    requires l.window >= 0 && Good(l, h, vs, ip, lo) && lo <= checked <= stamped <= hi
    ensures var (vs', ok) := Allow(l, vs, ip, checked, stamped);
            Good(l, if ok then h + [stamped] else h, vs', ip, hi)
  {
    if ip !in vs || Expired(l, vs[ip], checked) {
      NewBurst(l, h, stamped);
    } else if vs[ip].count < l.rate {
      LongerBurst(l, h, vs[ip], stamped);
    }
  }

  /** A request of another client leaves this one's table entry alone, and a cleanup pass
      removes it only after more than a window. */
  lemma OtherKeepsGood(l: Limits, h: seq<int>, vs: Visitors, ip: string, op: Op, lo: int, hi: int)
    requires Good(l, h, vs, ip, lo) && Between(op, lo, hi) && lo <= hi && !(op.Request? && op.ip == ip)
    ensures Good(l, h, Step(l, vs, op), ip, hi)
  {
  }

  lemma AcceptedNext(l: Limits, ops: seq<Op>, ip: string)
    requires ops != []
    ensures var n := |ops| - 1; var h := Accepted(l, ops[..n], ip);
            Accepted(l, ops, ip)
            == if ops[n].Request? && ops[n].ip == ip && Allow(l, Run(l, ops[..n]), ip, ops[n].checked, ops[n].stamped).1
               then h + [ops[n].stamped] else h
  {
  }

  lemma {:induction false} AlwaysGood(l: Limits, ops: seq<Op>, clock: seq<int>, ip: string)
    requires l.window >= 0 && Monotone(ops, clock)
    ensures Good(l, Accepted(l, ops, ip), Run(l, ops), ip, clock[|ops|])
  {
    if ops != [] {
      var n := |ops| - 1;
      MonotoneFront(ops, clock);
      var h, vs := Accepted(l, ops[..n], ip), Run(l, ops[..n]);
      AlwaysGood(l, ops[..n], clock[..n + 1], ip);
      assert clock[..n + 1][n] == clock[n] && Between(ops[n], clock[n], clock[n + 1]);
      AcceptedNext(l, ops, ip);
      if ops[n].Request? && ops[n].ip == ip {
        RequestKeepsGood(l, h, vs, ip, ops[n].checked, ops[n].stamped, clock[n], clock[n + 1]);
      } else {
        OtherKeepsGood(l, h, vs, ip, ops[n], clock[n], clock[n + 1]);
      }
    }
  }

  // ---------- who is refused ----------

  /** The request at `i` came more than a window after the stamp of the one before it. */
  predicate Begins(l: Limits, h: seq<Op>, i: nat)
    requires i < |h| && forall j :: 0 <= j < |h| ==> h[j].Request?
  {
    i == 0 || h[i].checked - h[i - 1].stamped > l.window
  }

  /** The requests from `b` on are the current burst. */
  predicate Burst(l: Limits, h: seq<Op>, b: int)
    requires forall j :: 0 <= j < |h| ==> h[j].Request?
  {
    0 <= b < |h| && Begins(l, h, b) && forall i :: b < i < |h| ==> !Begins(l, h, i)
  }

  /** The visitor keeps the size of the current burst and the last stamp; without a visitor
      the last stamp is more than a window old. */
  predicate Remembers(l: Limits, h: seq<Op>, vs: Visitors, ip: string, now: int)
    requires forall j :: 0 <= j < |h| ==> h[j].Request?
  {
    if ip in vs then Burst(l, h, |h| - vs[ip].count) && vs[ip].lastSeen == h[|h| - 1].stamped
    else h == [] || now - h[|h| - 1].stamped > l.window
  }

  lemma FirstOfBurst(l: Limits, h: seq<Op>, op: Op)
    requires op.Request? && (forall j :: 0 <= j < |h| ==> h[j].Request?)
    requires h == [] || op.checked - h[|h| - 1].stamped > l.window
    ensures Burst(l, h + [op], |h|)
  {
  }

  lemma OneMoreInBurst(l: Limits, h: seq<Op>, b: int, op: Op)
    requires op.Request? && (forall j :: 0 <= j < |h| ==> h[j].Request?)
    requires Burst(l, h, b) && op.checked - h[|h| - 1].stamped <= l.window
    ensures Burst(l, h + [op], b)
  {
    var g := h + [op];
    assert Begins(l, g, b) by { assert Begins(l, h, b); }
    forall i | b < i < |g| ensures !Begins(l, g, i) {
      if i < |h| { assert !Begins(l, h, i); }
    }
  }

  lemma RequestRemembered(l: Limits, h: seq<Op>, vs: Visitors, op: Op, lo: int, hi: int)
    requires op.Request? && (forall j :: 0 <= j < |h| ==> h[j].Request?)
    requires Remembers(l, h, vs, op.ip, lo) && Between(op, lo, hi)
    ensures var (vs', ok) := Allow(l, vs, op.ip, op.checked, op.stamped);
            Remembers(l, if ok then h + [op] else h, vs', op.ip, hi)
  {
    if op.ip !in vs || Expired(l, vs[op.ip], op.checked) {
      FirstOfBurst(l, h, op);
    } else {
      OneMoreInBurst(l, h, |h| - vs[op.ip].count, op);
    }
  }

  lemma OtherRemembered(l: Limits, h: seq<Op>, vs: Visitors, ip: string, op: Op, lo: int, hi: int)
    requires forall j :: 0 <= j < |h| ==> h[j].Request?
    requires Remembers(l, h, vs, ip, lo) && Between(op, lo, hi) && lo <= hi && !(op.Request? && op.ip == ip)
    ensures Remembers(l, h, Step(l, vs, op), ip, hi)
  {
    hide Burst;
  }

  lemma {:induction false} AlwaysRemembers(l: Limits, ops: seq<Op>, clock: seq<int>, ip: string)
    requires Monotone(ops, clock)
    ensures Remembers(l, LetThrough(l, ops, ip), Run(l, ops), ip, clock[|ops|])
  {
    if ops != [] {
      var n := |ops| - 1;
      MonotoneFront(ops, clock);
      AlwaysRemembers(l, ops[..n], clock[..n + 1], ip);
      assert clock[..n + 1][n] == clock[n] && Between(ops[n], clock[n], clock[n + 1]);
      hide Burst, Monotone;
      if ops[n].Request? && ops[n].ip == ip {
        assert ops == ops[..n] + [ops[n]];
        LetThroughNext(l, ops[..n], ops[n]);
        RequestRemembered(l, LetThrough(l, ops[..n], ip), Run(l, ops[..n]), ops[n], clock[n], clock[n + 1]);
      } else {
        assert LetThrough(l, ops, ip) == LetThrough(l, ops[..n], ip);
        OtherRemembered(l, LetThrough(l, ops[..n], ip), Run(l, ops[..n]), ip, ops[n], clock[n], clock[n + 1]);
      }
    }
  }

  lemma BeginsNoLater(l: Limits, h: seq<Op>, a: int, b: int)
    requires (forall j :: 0 <= j < |h| ==> h[j].Request?) && Burst(l, h, a) && 0 <= b < |h| && Begins(l, h, b)
    ensures b <= a
  {
  }

  lemma BurstIsUnique(l: Limits, h: seq<Op>, a: int, b: int)
    requires (forall j :: 0 <= j < |h| ==> h[j].Request?) && Burst(l, h, a) && Burst(l, h, b)
    ensures a == b
  {
    BeginsNoLater(l, h, a, b);
    BeginsNoLater(l, h, b, a);
  }

  /** After any run, cleanup included, a client's next request is refused exactly if its check comes
      within the window of the client's last accepted stamp, and the current burst, the accepted
      requests since the last one that came more than a window after the stamp before it, has
      `rate` requests already. */
  lemma {:induction false} RefusedIff(l: Limits, ops: seq<Op>, clock: seq<int>, op: Op)
    requires op.Request? && Monotone(ops, clock) && clock[|ops|] <= op.checked <= op.stamped
    ensures var h, next := LetThrough(l, ops, op.ip), LetThrough(l, ops + [op], op.ip);
            && (next == h || next == h + [op])
            && (next == h <==>
                && h != [] && op.checked - h[|h| - 1].stamped <= l.window
                && exists b :: 0 <= b < |h| && |h| - b >= l.rate
                               && Begins(l, h, b) && forall i :: b < i < |h| ==> !Begins(l, h, i))
  {
    hide Allow;
    var h, vs := LetThrough(l, ops, op.ip), Run(l, ops);
    AlwaysRemembers(l, ops, clock, op.ip);
    LetThroughNext(l, ops, op);
    hide Run, LetThrough;
    RefusedNow(l, h, vs, op, clock[|ops|]);
  }

  lemma LetThroughNext(l: Limits, ops: seq<Op>, op: Op)
    requires op.Request?
    ensures var h := LetThrough(l, ops, op.ip);
            LetThrough(l, ops + [op], op.ip)
            == if Allow(l, Run(l, ops), op.ip, op.checked, op.stamped).1 then h + [op] else h
  {
    assert (ops + [op])[..|ops|] == ops;
  }

  lemma RefusedNow(l: Limits, h: seq<Op>, vs: Visitors, op: Op, now: int)
    requires op.Request? && (forall j :: 0 <= j < |h| ==> h[j].Request?)
    requires Remembers(l, h, vs, op.ip, now) && now <= op.checked
    ensures !Allow(l, vs, op.ip, op.checked, op.stamped).1
            <==> h != [] && op.checked - h[|h| - 1].stamped <= l.window
                 && exists b :: |h| - b >= l.rate && Burst(l, h, b)
  {
    if op.ip in vs {
      var n := vs[op.ip].count;
      assert Burst(l, h, |h| - n);
      forall b | Burst(l, h, b) ensures |h| - b == n { BurstIsUnique(l, h, b, |h| - n); }
    }
  }

  // ---------- the bound ----------

  /** How many elements of `h` lie in the closed interval from `from` to `from + window`. */
  function CountIn(h: seq<int>, from: int, window: int): nat {
    if h == [] then 0
    else CountIn(h[..|h| - 1], from, window) + (if from <= h[|h| - 1] <= from + window then 1 else 0)
  }

  lemma {:induction false} CountAtMostLength(h: seq<int>, from: int, window: int, k: nat)
    requires k <= |h| && forall i :: 0 <= i < |h| - k ==> !(from <= h[i] <= from + window)
    ensures CountIn(h, from, window) <= k
  {
    if h != [] {
      CountAtMostLength(h[..|h| - 1], from, window, if k == 0 then 0 else k - 1);
    }
  }

  lemma {:induction false} SpacedCount(l: Limits, h: seq<int>, from: int)
    requires Ascending(h) && Spaced(l, h)
    ensures CountIn(h, from, l.window) <= Most(l)
  {
    if h != [] {
      var n := |h| - 1;
      if from <= h[n] <= from + l.window {
        forall i | 0 <= i < |h| - Most(l) ensures h[i] < from {
          assert h[i + Most(l)] - h[i] > l.window && h[i + Most(l)] <= h[n];
        }
        CountAtMostLength(h, from, l.window, if Most(l) <= |h| then Most(l) else |h|);
      } else {
        assert forall i :: 0 <= i && i + Most(l) < n ==> h[..n][i + Most(l)] - h[..n][i] > l.window;
        SpacedCount(l, h[..n], from);
      }
    }
  }

  /** For every client and every closed interval as long as the window, at most `rate`
      requests are let through; a rate below one still lets the first request of an
      interval through. */
  lemma {:induction false} SlidingWindow(l: Limits, ops: seq<Op>, clock: seq<int>, ip: string, from: int)
    requires l.window >= 0 && Monotone(ops, clock)
    ensures CountIn(Accepted(l, ops, ip), from, l.window) <= (if l.rate < 1 then 1 else l.rate)
  {
    AlwaysGood(l, ops, clock, ip);
    SpacedCount(l, Accepted(l, ops, ip), from);
  }

  ghost predicate Bounded(l: Limits, ops: seq<Op>, clock: seq<int>, ip: string, from: int) {
    Monotone(ops, clock) ==> CountIn(Accepted(l, ops, ip), from, l.window) <= l.rate
  }

  function OneRequest(): seq<Op> {
    [Request("client", 0, 0)]
  }

  /** A single request is let through at any rate. */
  lemma OneIsLetThrough(l: Limits)
    requires l.window >= 0
    ensures Monotone(OneRequest(), [0, 0]) && CountIn(Accepted(l, OneRequest(), "client"), 0, l.window) == 1
  {
    assert OneRequest()[..0] == [] && [0][..0] == [];
    assert LetThrough(l, OneRequest(), "client") == OneRequest();
    assert Accepted(l, OneRequest(), "client") == [0];
  }

  /** The rate itself is the bound exactly when it is at least one. */
  lemma RateIsBoundIff(l: Limits)
    requires l.window >= 0
    ensures (forall ops, clock, ip, from :: Bounded(l, ops, clock, ip, from)) <==> l.rate >= 1
  {
    if l.rate >= 1 {
      forall ops, clock, ip, from ensures Bounded(l, ops, clock, ip, from) {
        if Monotone(ops, clock) { SlidingWindow(l, ops, clock, ip, from); }
      }
    } else {
      OneIsLetThrough(l);
      assert !Bounded(l, OneRequest(), [0, 0], "client", 0);
    }
  }

  // ---------- cleanup is invisible ----------

  function Requests(ops: seq<Op>): seq<Op> {
    if ops == [] then []
    else Requests(ops[..|ops| - 1]) + (if ops[|ops| - 1].Request? then [ops[|ops| - 1]] else [])
  }

  /** Without cleanup the table holds the same visitors, and besides them only expired ones. */
  predicate Covers(l: Limits, all: Visitors, vs: Visitors, now: int) {
    && (forall ip :: ip in vs ==> ip in all && all[ip] == vs[ip])
    && (forall ip :: ip in all && ip !in vs ==> Expired(l, all[ip], now))
  }

  lemma {:induction false} CleanupCovered(l: Limits, ops: seq<Op>, clock: seq<int>)
    requires Monotone(ops, clock)
    ensures Covers(l, Run(l, Requests(ops)), Run(l, ops), clock[|ops|])
  {
    if ops != [] {
      var n := |ops| - 1;
      MonotoneFront(ops, clock);
      CleanupCovered(l, ops[..n], clock[..n + 1]);
      assert clock[..n + 1][n] == clock[n] && Between(ops[n], clock[n], clock[n + 1]);
      if ops[n].Request? {
        assert (Requests(ops[..n]) + [ops[n]])[..|Requests(ops[..n])|] == Requests(ops[..n]);
        RequestCovered(l, Run(l, Requests(ops[..n])), Run(l, ops[..n]), ops[n], clock[n], clock[n + 1]);
      } else {
        assert Requests(ops) == Requests(ops[..n]);
      }
    }
  }

  lemma RequestCovered(l: Limits, all: Visitors, vs: Visitors, op: Op, lo: int, hi: int)
    requires op.Request? && Between(op, lo, hi) && Covers(l, all, vs, lo)
    ensures Covers(l, Step(l, all, op), Step(l, vs, op), hi)
  {
  }

  /** Every request gets the same answer as if no cleanup had ever run. */
  lemma {:induction false} CleanupNeverMatters(l: Limits, ops: seq<Op>, clock: seq<int>, ip: string, checked: int, stamped: int)
    requires Monotone(ops, clock) && clock[|ops|] <= checked <= stamped
    ensures Allow(l, Run(l, ops), ip, checked, stamped).1 == Allow(l, Run(l, Requests(ops)), ip, checked, stamped).1
  {
    CleanupCovered(l, ops, clock);
  }

  // ---------- the limiter ----------

  class Limiter {
    const rate: int
    const window: int
    var visitors: Visitors

    constructor (rate: int, window: int)
      ensures this.rate == rate && this.window == window && visitors == map[]
    {
      this.rate, this.window, visitors := rate, window, map[];
    }

    method AllowWithMemory(ip: string, checked: int, stamped: int) returns (ok: bool)
      modifies this
      ensures (visitors, ok) == Allow(Limits(rate, window), old(visitors), ip, checked, stamped)
      ensures ok <==> ip !in old(visitors) || checked - old(visitors)[ip].lastSeen > window || old(visitors)[ip].count < rate
      ensures ok ==> ip in visitors && visitors[ip].lastSeen == stamped && visitors == old(visitors)[ip := visitors[ip]]
      ensures !ok ==> visitors == old(visitors)
    {
      if ip !in visitors {
        visitors := visitors[ip := Visitor(1, stamped)];
        return true;
      }
      var v := visitors[ip];
      if checked - v.lastSeen > window {
        visitors := visitors[ip := Visitor(1, stamped)];
        return true;
      }
      if v.count >= rate { return false; }
      visitors := visitors[ip := Visitor(v.count + 1, stamped)];
      return true;
    }

    /** One tick of the cleanup loop: visitors in any order, deleting while walking. */
    method CleanupPass(readings: string -> int)
      modifies this
      ensures visitors == Clean(Limits(rate, window), old(visitors), readings)
    {
      ghost var was := visitors;
      var left := visitors.Keys;
      while left != {}
        invariant left <= was.Keys
        invariant visitors == map ip | ip in was && (ip in left || !Expired(Limits(rate, window), was[ip], readings(ip))) :: was[ip]
        decreases left
      {
        var ip :| ip in left;
        left := left - {ip};
        if readings(ip) - visitors[ip].lastSeen > window {
          visitors := visitors - {ip};
        }
      }
    }
  }
}
