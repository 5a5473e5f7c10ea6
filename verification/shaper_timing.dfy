/** What the link emulator's figures mean: how late a packet is due, when the bottleneck starts on it, how much a
    backlog carries, how many packets are lost; and that no packet leaves before its profile's delay has passed. */
module ShaperTiming {
  import opened Basics
  import opened ShaperHeap
  import opened Shaper
  import opened ShaperRuns

  function Positive(x: real): real { if x < 0.0 then 0.0 else x }

  predicate Through(v: Verdict) { v.Immediate? || v.Queued? }

  // ---------- When a packet is due ----------

  /** The least and the greatest one-way delay of a profile, in milliseconds. */
  function Least(p: Profile): real { Positive(p.delayMs - Positive(p.jitterMs)) }

  function Most(p: Profile): real { Positive(p.delayMs + Positive(p.jitterMs)) }

  predicate Drawn(c: Call) { -1.0 <= c.jitterDraw <= 1.0 }

  /** The lateness, in nanoseconds, of a packet delayed by ms milliseconds. */
  predicate LateBy(late: int, ms: real) { 1_000_000.0 * ms - 1.0 < late as real <= 1_000_000.0 * ms }

  /** Where the bottleneck starts on the packet just accepted: at once without a rate cap, else in its slot. */
  function Begins(after: Core, c: Call): int {
    if c.profile.rateKbit > 0.0 && after.slots != [] then after.slots[|after.slots| - 1].at else c.now
  }

  lemma DelayIs(c: Call)
    ensures LateBy(Delay(c), Positive(c.profile.delayMs + c.jitterDraw * Positive(c.profile.jitterMs)))
  {
  }

  /** An accepted packet is due its profile's delay, moved by the drawn share of the jitter and never negative, after
      the bottleneck starts on it: on a capped link that is when it is sent or when the bottleneck is free,
      whichever is later, and otherwise when it is sent. It carries the bytes sent. */
  lemma DueAfterItsDelay(s: Core, c: Call)
    ensures var r := Send(s, c);
            Through(r.1) ==>
              && r.1.p.buf == c.buf
              && LateBy(r.1.p.due - Begins(r.0, c),
                        Positive(c.profile.delayMs + c.jitterDraw * Positive(c.profile.jitterMs)))
              && (c.profile.rateKbit > 0.0 ==>
                    && r.0.slots == s.slots + [r.0.slots[|r.0.slots| - 1]]
                    && Begins(r.0, c) == if s.nextFree < c.now then c.now else s.nextFree)
  {
    hide Delay, Tx, LateBy;
    DelayIs(c);
  }

  lemma Scales(draw: real, jitter: real)
    requires -1.0 <= draw <= 1.0 && jitter >= 0.0
    ensures -jitter <= draw * jitter <= jitter
  {
  }

  /** So with any draw it is due between the least and the greatest delay of the profile. */
  lemma DueBetween(s: Core, c: Call)
    requires Drawn(c)
    ensures var r := Send(s, c);
            Through(r.1) ==>
              1_000_000.0 * Least(c.profile) - 1.0 < (r.1.p.due - Begins(r.0, c)) as real
                <= 1_000_000.0 * Most(c.profile)
  {
    hide Send, Begins, Least, Most, Positive, LateBy;
    DueAfterItsDelay(s, c);
    DrawnDelay(c);
    if Through(Send(s, c).1) {
      LateBetween(Send(s, c).1.p.due - Begins(Send(s, c).0, c),
                  Positive(c.profile.delayMs + c.jitterDraw * Positive(c.profile.jitterMs)),
                  Least(c.profile), Most(c.profile));
    }
  }

  lemma DrawnDelay(c: Call)
    requires Drawn(c)
    ensures var p := c.profile;
            Least(p) <= Positive(p.delayMs + c.jitterDraw * Positive(p.jitterMs)) <= Most(p)
  {
    var x, d := c.jitterDraw * Positive(c.profile.jitterMs), c.profile.delayMs;
    Scales(c.jitterDraw, Positive(c.profile.jitterMs));
    assert d - Positive(c.profile.jitterMs) <= d + x <= d + Positive(c.profile.jitterMs);
  }

  lemma LateBetween(late: int, ms: real, lo: real, hi: real)
    requires LateBy(late, ms) && lo <= ms <= hi
    ensures 1_000_000.0 * lo - 1.0 < late as real <= 1_000_000.0 * hi
  {
  }

  // ---------- The bottleneck ----------

  /** When the bottleneck has served all these. */
  function End(slots: seq<Slot>): int {
    if slots == [] then 0 else slots[|slots| - 1].at + slots[|slots| - 1].tx
  }

  /** A queue served first come, first served, that is never idle while a packet waits. */
  ghost predicate Busy(c: Core) {
    && c.nextFree == End(c.slots)
    && forall i :: 0 <= i < |c.slots| ==> c.slots[i].at == Max(c.slots[i].now, End(c.slots[..i]))
  }

  lemma SlotsMore(s: Core, c: Call)
    ensures var s' := Send(s, c).0;
            || (s'.slots == s.slots && s'.nextFree == s.nextFree)
            || exists l: Slot :: s'.slots == s.slots + [l] && s'.nextFree == l.at + l.tx
                                 && l.now == c.now && l.at == Max(s.nextFree, c.now)
  {
    hide Tx, Delay, Max;
    var s' := Send(s, c).0;
    if s'.slots != s.slots { assert s'.slots == s.slots + [s'.slots[|s.slots|]]; }
  }

  lemma SendBusy(s: Core, c: Call)
    requires Busy(s)
    ensures Busy(Send(s, c).0)
  {
    SlotsMore(s, c);
    hide Send;
    var s' := Send(s, c).0;
    if s'.slots != s.slots {
      var l :| s'.slots == s.slots + [l] && s'.nextFree == l.at + l.tx
               && l.now == c.now && l.at == Max(s.nextFree, c.now);
      forall i | 0 <= i < |s'.slots| ensures s'.slots[i].at == Max(s'.slots[i].now, End(s'.slots[..i])) {
        assert s'.slots[..i] == s.slots[..i];
        assert s.slots[..|s.slots|] == s.slots;
      }
    }
  }

  lemma {:induction false} RunBusy(s: State, acts: seq<Action>, s': State)
    requires Run(s, acts, s') && Busy(s.core)
    ensures Busy(s'.core)
    decreases |acts|
  {
    hide Send, IsPass, IsTop, Wait;
    if acts != [] {
      if acts[0].DoSend? { SendBusy(s.core, acts[0].c); }
      assert Busy(Next(s, acts[0]).core) by { SameSlots(s, acts[0]); }
      hide Busy, Next, Enabled;
      RunBusy(Next(s, acts[0]), acts[1..], s');
    }
  }

  lemma SameSlots(s: State, a: Action)
    requires Enabled(s, a)
    ensures var s' := Next(s, a);
            if a.DoSend? then s'.core == Send(s.core, a.c).0
            else s'.core.slots == s.core.slots && s'.core.nextFree == s.core.nextFree
  {
    hide Send, IsPass, IsTop, Wait;
  }

  /** In every state: each packet's serialization starts when it is sent or when the one before it ends, whichever is
      later, and a send is dropped at the tail if and only if, not lost, it would start more than 200 ms late. */
  lemma NeverIdle(s: State, i: nat, c: Call)
    requires Reachable(s)
    ensures i < |s.core.slots| ==>
              var at, free := s.core.slots[i].at, End(s.core.slots[..i]);
              at >= s.core.slots[i].now && at >= free && (at == s.core.slots[i].now || at == free)
    ensures Send(s.core, c).1 == TailDropped
            <==> Send(s.core, c).1 != Lost && c.profile.rateKbit > 0.0 && End(s.core.slots) - c.now > 200_000_000
  {
    hide Tx, Delay;
    var acts :| Run(Init(), acts, s);
    RunBusy(Init(), acts, s);
  }

  /** A backlogged stretch at one rate carries what the rate allows: together with RateRespected, the bits are those
      of the time to within a nanosecond a packet. */
  lemma BacklogUsesTheRate(s: State, i: nat, j: nat, rate: real)
    requires Reachable(s) && i < j <= |s.core.slots|
    requires forall k :: i <= k < j ==> s.core.slots[k].rate == rate
    requires forall k :: i < k < j ==> s.core.slots[k].now <= s.core.slots[k - 1].at + s.core.slots[k - 1].tx
    ensures var slots := s.core.slots;
            (Bits(slots[i..j]) as real) * 1_000_000.0
            >= rate * ((slots[j - 1].at + slots[j - 1].tx - slots[i].at) as real)
  {
    hide Tx, Reachable, Bits, Total;
    var part := s.core.slots[i..j];
    SlotsTimed(s, i, j, rate);
    forall k | 0 < k < |part| ensures part[k].at == part[k - 1].at + part[k - 1].tx {
      NeverIdle(s, i + k, Call(0, Profile(0.0, 0.0, 0.0, 0.0), 0.0, 0.0, []));
      Serialized(s, i + k);
      assert s.core.slots[..i + k][i + k - 1] == s.core.slots[i + k - 1];
    }
    BackToBack(part);
    BitsFill(part, rate);
  }

  lemma Serialized(s: State, k: nat)
    requires Reachable(s) && 0 < k < |s.core.slots|
    ensures s.core.slots[k - 1].at + s.core.slots[k - 1].tx <= s.core.slots[k].at
  {
    hide Tx, HeapOk, LoopOk, Reachable;
    ReachableInv(s);
  }

  lemma {:induction false} BackToBack(slots: seq<Slot>)
    requires slots != [] && forall k :: 0 < k < |slots| ==> slots[k].at == slots[k - 1].at + slots[k - 1].tx
    ensures Total(slots) == End(slots) - slots[0].at
    decreases |slots|
  {
    var init := slots[..|slots| - 1];
    if init != [] {
      BackToBack(init);
      assert init[|init| - 1] == slots[|slots| - 2];
    } else {
      assert Total(init) == 0;
    }
  }

  /** So many nanoseconds are filled by so many bits. */
  predicate Fills(bits: nat, time: nat, rate: real) { rate * (time as real) <= (bits as real) * 1_000_000.0 }

  lemma {:induction false} BitsFill(slots: seq<Slot>, rate: real)
    requires rate > 0.0
    requires forall i :: 0 <= i < |slots| ==> slots[i].rate == rate && slots[i].tx == Tx(slots[i].len, rate)
    ensures Fills(Bits(slots), Total(slots), rate)
    decreases |slots|
  {
    if slots != [] {
      hide Tx, Fills;
      var init, last := slots[..|slots| - 1], slots[|slots| - 1];
      assert forall i :: 0 <= i < |init| ==> init[i] == slots[i];
      BitsFill(init, rate);
      OneFills(last.len, rate);
      FillsAdd(Bits(init), 8 * last.len, Total(init), last.tx, rate);
    }
  }

  lemma FillsAdd(a: nat, b: nat, x: nat, y: nat, rate: real)
    requires Fills(a, x, rate) && Fills(b, y, rate)
    ensures Fills(a + b, x + y, rate)
  {
    Distribute(rate, x as real, y as real);
    assert (x + y) as real == x as real + y as real && (a + b) as real == a as real + b as real;
  }

  lemma OneFills(len: nat, rate: real)
    requires rate > 0.0
    ensures Fills(8 * len, Tx(len, rate), rate)
  {
    var q := (len as real) * 8.0 / rate;
    assert q * rate == (len as real) * 8.0;
    var x := q * 1_000_000.0;
    MulMono(rate, Tx(len, rate) as real, x);
    assert rate * x == (q * rate) * 1_000_000.0 by { MulSwap(rate, q, 1_000_000.0); }
  }

  // ---------- Loss ----------

  /** How many of the draws 0, 100/n, 200/n, ..., the first k of them, lose a packet. */
  function Losses(s: Core, c: Call, n: nat, k: nat): nat
    requires n > 0
  {
    if k == 0 then 0
    else
      var draw := c.(lossDraw := 100.0 * (k - 1) as real / n as real);
      Losses(s, c, n, k - 1) + if Send(s, draw).1 == Lost then 1 else 0
  }

  lemma LostBelow(s: Core, c: Call, n: nat, j: nat)
    requires n > 0
    ensures Send(s, c.(lossDraw := 100.0 * j as real / n as real)).1 == Lost
            <==> 100.0 * (j as real) < c.profile.lossPct * n as real
  {
    var x, m := 100.0 * (j as real), n as real;
    LostIff(s, c.(lossDraw := 100.0 * j as real / n as real));
    hide Send;
    Quotients(x, m, c.profile.lossPct);
  }

  lemma LostIff(s: Core, c: Call)
    ensures Send(s, c).1 == Lost <==> c.profile.lossPct > 0.0 && c.lossDraw < c.profile.lossPct
  {
    hide Tx, Delay;
  }

  lemma Quotients(x: real, m: real, p: real)
    requires m > 0.0 && x >= 0.0
    ensures x / m >= 0.0 && (x / m < p <==> x < p * m)
    ensures p <= 0.0 ==> p * m <= 0.0
  {
    var q := x / m;
    assert q * m == x;
    if q < p { assert q * m < p * m; } else { assert q * m >= p * m; }
    Sign(q, m);
  }

  lemma Sign(q: real, m: real)
    requires m > 0.0
    ensures q < 0.0 ==> q * m < 0.0
  {
  }

  lemma {:induction false} LossesUpTo(s: Core, c: Call, n: nat, k: nat)
    requires n > 0
    ensures var total, l := c.profile.lossPct * n as real, 100.0 * Losses(s, c, n, k) as real;
            if k == 0 || 100.0 * (k - 1) as real < total then Losses(s, c, n, k) == k
            else Losses(s, c, n, k) == 0 || total <= l < total + 100.0
    ensures c.profile.lossPct >= 0.0 && k > 0 && 100.0 * (k - 1) as real >= c.profile.lossPct * n as real ==>
              c.profile.lossPct * n as real <= 100.0 * Losses(s, c, n, k) as real
    decreases k
  {
    hide Send;
    if k > 0 {
      LossesUpTo(s, c, n, k - 1);
      LostBelow(s, c, n, k - 1);
    }
  }

  /** The share of evenly spread draws that lose a packet is the profile's loss, to within one draw; so none are lost
      at 0 and all at 100. */
  lemma LossIsItsShare(s: Core, c: Call, n: nat)
    requires n > 0 && 0.0 <= c.profile.lossPct <= 100.0
    ensures var lost, share := 100.0 * Losses(s, c, n, n) as real, c.profile.lossPct * n as real;
            share <= lost < share + 100.0
  {
    hide Losses;
    LossesUpTo(s, c, n, n);
    var share, all := c.profile.lossPct * n as real, 100.0 * n as real;
    Within(c.profile.lossPct, 100.0, n as real);
    Within(0.0, c.profile.lossPct, n as real);
    assert 100.0 * (n - 1) as real == all - 100.0;
  }

  lemma Within(a: real, b: real, m: real)
    requires a <= b && m > 0.0
    ensures a * m <= b * m
  {
  }

  // ---------- No packet leaves early ----------

  /** What the call's profile allows for a packet of it. */
  predicate OnTime(c: Call, p: Packet) {
    && p.buf == c.buf
    && 1_000_000.0 * Least(c.profile) - 1.0 < (p.due - c.now) as real
    && (p.due - c.now) as real <= 200_000_000.0 + 1_000_000.0 * Most(c.profile)
  }

  /** One of the actions was the send of this packet; on the synchronous path it was due at once. */
  ghost predicate WasSent(acts: seq<Action>, p: Packet, atOnce: bool) {
    exists i: nat :: i < |acts| && acts[i].DoSend? && OnTime(acts[i].c, p) && (atOnce ==> p.due <= acts[i].c.now)
  }

  ghost predicate AllSent(acts: seq<Action>, s: State) {
    && (forall p :: p in s.core.h || p in Ready(s.loop) ==> WasSent(acts, p, false))
    && forall p :: p in s.flight ==> WasSent(acts, p, true)
  }

  predicate AllDrawn(acts: seq<Action>) { forall i :: 0 <= i < |acts| && acts[i].DoSend? ==> Drawn(acts[i].c) }

  lemma SentOnTime(s: Core, c: Call)
    requires Drawn(c)
    ensures var r := Send(s, c);
            Through(r.1) ==> OnTime(c, r.1.p) && (r.1.Immediate? ==> r.1.p.due <= c.now)
  {
    DueBetween(s, c);
    DueAfterItsDelay(s, c);
    hide Delay, Tx, Least, Most, LateBy;
    var r := Send(s, c);
    if Through(r.1) {
      assert 0 <= Begins(r.0, c) - c.now <= 200_000_000;
    }
  }

  lemma WasSentMore(acts: seq<Action>, a: Action, p: Packet, atOnce: bool)
    requires WasSent(acts, p, atOnce)
    ensures WasSent(acts + [a], p, atOnce)
  {
    hide OnTime;
    var i: nat :| i < |acts| && acts[i].DoSend? && OnTime(acts[i].c, p) && (atOnce ==> p.due <= acts[i].c.now);
    assert (acts + [a])[i] == acts[i];
  }

  lemma JustSent(acts: seq<Action>, s: Core, c: Call)
    requires Drawn(c) && Through(Send(s, c).1)
    ensures WasSent(acts + [DoSend(c)], Send(s, c).1.p, Send(s, c).1.Immediate?)
  {
    hide Send, OnTime;
    SentOnTime(s, c);
    assert (acts + [DoSend(c)])[|acts|] == DoSend(c);
  }

  /** Where a step takes its packets from. */
  lemma PacketsFrom(s: State, a: Action, p: Packet)
    requires Enabled(s, a)
    ensures var s' := Next(s, a);
            && (p in s'.core.h || p in Ready(s'.loop) ==>
                  p in s.core.h || p in Ready(s.loop)
                  || (a.DoSend? && Send(s.core, a.c).1.Queued? && p == Send(s.core, a.c).1.p))
            && (p in s'.flight ==>
                  p in s.flight || (a.DoSend? && Send(s.core, a.c).1.Immediate? && p == Send(s.core, a.c).1.p))
  {
    hide Send, IsTop, Wait, Sorted;
    match a
    case DoSend(c) => SendShape(s.core, c);
    case DoPass(now, ready, left, top) =>
      assert p in ready ==> p in multiset(ready);
      assert p in multiset(ready) + left <==> p in s.core.h;
    case Deliver => assert p in s.loop.ready[1..] ==> p in s.loop.ready;
    case Post =>
    case DeliverNow(_) =>
    case Arm(_) =>
    case Wake =>
    case Fire(_) =>
    case Stop =>
  }

  lemma StepSent(s: State, acts: seq<Action>, a: Action)
    requires AllSent(acts, s) && Enabled(s, a) && (a.DoSend? ==> Drawn(a.c))
    ensures AllSent(acts + [a], Next(s, a))
  {
    hide Next, IsPass, IsTop, Send, WasSent, OnTime;
    var s' := Next(s, a);
    forall p | p in s'.core.h || p in Ready(s'.loop) ensures WasSent(acts + [a], p, false) {
      PacketsFrom(s, a, p);
      if p in s.core.h || p in Ready(s.loop) {
        WasSentMore(acts, a, p, false);
      } else {
        JustSent(acts, s.core, a.c);
      }
    }
    forall p | p in s'.flight ensures WasSent(acts + [a], p, true) {
      PacketsFrom(s, a, p);
      if p in s.flight {
        WasSentMore(acts, a, p, true);
      } else {
        JustSent(acts, s.core, a.c);
      }
    }
  }

  /** The state before action k, with all packets accounted for by the sends before it. */
  lemma {:induction false} BeforeAction(s: State, before: seq<Action>, acts: seq<Action>, s': State, k: nat)
    returns (mid: State)
    requires Run(s, acts, s') && AllSent(before, s) && AllDrawn(acts) && k < |acts|
    ensures AllSent(before + acts[..k], mid) && Enabled(mid, acts[k])
    decreases |acts|
  {
    hide AllSent, IsPass, IsTop, Next;
    if k == 0 {
      assert before + acts[..0] == before;
      mid := s;
    } else {
      StepSent(s, before, acts[0]);
      mid := BeforeAction(Next(s, acts[0]), before + [acts[0]], acts[1..], s', k - 1);
      assert before + [acts[0]] + acts[1..][..k - 1] == before + acts[..k];
    }
  }

  /** No packet is let out before the delay of the profile it was sent under has passed. Whatever the scheduler takes
      from the heap was sent, with those bytes, at least the profile's least delay before the pass, to a nanosecond;
      what a sender delivers itself was sent under a profile whose least delay is below a nanosecond. */
  lemma NoneBeforeItsDelay(acts: seq<Action>, s: State, k: nat, p: Packet)
    requires Run(Init(), acts, s) && AllDrawn(acts) && k < |acts|
    requires (acts[k].DoPass? && p in acts[k].ready) || acts[k] == DeliverNow(p)
    ensures exists i: nat :: i < k && acts[i].DoSend? && acts[i].c.buf == p.buf &&
              var least := 1_000_000.0 * Least(acts[i].c.profile);
              if acts[k].DoPass? then least - 1.0 < (acts[k].now - acts[i].c.now) as real else least < 1.0
  {
    hide Run, Least, Most, AllSent, Enabled;
    NothingSent();
    var mid := BeforeAction(Init(), [], acts, s, k);
    assert [] + acts[..k] == acts[..k];
    Takes(mid, acts[k], p);
    FromSent(acts[..k], mid, p, !acts[k].DoPass?);
    var i: nat :| i < k && acts[..k][i].DoSend? && OnTime(acts[..k][i].c, p)
                  && (!acts[k].DoPass? ==> p.due <= acts[..k][i].c.now);
    assert acts[..k][i] == acts[i];
  }

  lemma NothingSent()
    ensures AllSent([], Init())
  {
  }

  lemma Takes(s: State, a: Action, p: Packet)
    requires Enabled(s, a) && ((a.DoPass? && p in a.ready) || a == DeliverNow(p))
    ensures if a.DoPass? then p in s.core.h && p.due <= a.now else p in s.flight
  {
    hide IsTop, Sorted;
    if a.DoPass? { assert p in multiset(a.ready); }
  }

  lemma FromSent(acts: seq<Action>, s: State, p: Packet, atOnce: bool)
    requires AllSent(acts, s) && (if atOnce then p in s.flight else p in s.core.h)
    ensures WasSent(acts, p, atOnce)
  {
    hide WasSent;
  }
}
