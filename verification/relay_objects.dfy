/** The relay's objects as the source has them: the group buffer, the track, the subscriber with its bounded
    queue, and the ingest and writer loops over real streams. The generation stamp and the run loop's filter are
    those of the step system in module Relay. */
module RelayObjects {
  import opened Basics
  import opened Wire
  import opened WireStreams
  import opened WireIO
  import Relay

  /** The objects of a group back to back. */
  function Concat(objs: seq<seq<byte>>): seq<byte> {
    if objs == [] then [] else objs[0] + Concat(objs[1..])
  }

  function EncodeEach(objs: seq<Object>): (r: seq<seq<byte>>)
    ensures |r| == |objs|
  {
    if objs == [] then [] else [EncodeObject(objs[0])] + EncodeEach(objs[1..])
  }

  lemma {:induction false} ConcatEach(objs: seq<Object>)
    ensures Concat(EncodeEach(objs)) == EncodeAll(objs)
  {
    hide EncodeObject;
    if objs != [] {
      ConcatEach(objs[1..]);
      assert EncodeEach(objs)[1..] == EncodeEach(objs[1..]);
    }
  }

  lemma {:induction false} ConcatMore(objs: seq<seq<byte>>, x: seq<byte>)
    ensures Concat(objs + [x]) == Concat(objs) + x
  {
    if objs == [] {
      assert ([] + [x])[1..] == [];
    } else {
      ConcatMore(objs[1..], x);
      assert (objs + [x])[1..] == objs[1..] + [x];
    }
  }

  datatype Poll = More(obj: seq<byte>) | Ended | MustWait

  class GroupBuffer {
    const seqNo: u64
    var gen: nat
    var objs: seq<seq<byte>>
    var closed: bool

    constructor (seqNo: u64)
      ensures this.seqNo == seqNo && gen == 0 && objs == [] && !closed
    {
      this.seqNo := seqNo;
      gen := 0;
      objs := [];
      closed := false;
    }

    method Append(obj: seq<byte>)
      modifies this`objs
      ensures objs == old(objs) + [obj]
    {
      objs := objs + [obj];
    }

    method Close()
      modifies this`closed
      ensures closed
    {
      closed := true;
    }

    /** One turn of the loop of next, up to its return or its wait. */
    method Next(i: nat) returns (r: Poll)
      ensures r == if i < |objs| then More(objs[i]) else if closed then Ended else MustWait
    {
      if i < |objs| { return More(objs[i]); }
      if closed { return Ended; }
      return MustWait;
    }
  }

  /** The connection to a subscriber: the bytes of each stream written and finished. */
  class Connection {
    var streams: seq<seq<byte>>

    constructor ()
      ensures streams == []
    {
      streams := [];
    }
  }

  /** A queued group as the run loop sees it. */
  datatype Item = Item(seqNo: u64, gen: nat, body: seq<byte>)

  function View(g: GroupBuffer): Item
    reads g
  {
    Item(g.seqNo, g.gen, Concat(g.objs))
  }

  function Views(q: seq<GroupBuffer>): (r: seq<Item>)
    reads q
    ensures |r| == |q| && forall i :: 0 <= i < |r| ==> r[i] == View(q[i])
  {
    seq(|q|, i requires 0 <= i < |q| reads q => View(q[i]))
  }

  function StreamOf(name: seq<byte>, x: Item): seq<byte> {
    EncodeHeader(Header(name, x.seqNo)) + x.body
  }

  function Streams(name: seq<byte>, items: seq<Item>): (r: seq<seq<byte>>)
    ensures |r| == |items|
  {
    seq(|items|, i requires 0 <= i < |items| => StreamOf(name, items[i]))
  }

  lemma StreamsMore(name: seq<byte>, items: seq<Item>, x: Item)
    ensures Streams(name, items + [x]) == Streams(name, items) + [StreamOf(name, x)]
  {
  }

  function GroupOf(x: Item): Relay.Group { Relay.Group(x.seqNo, x.gen) }

  function After(x: Item): Relay.Cursor { Relay.Cursor(true, x.gen, x.seqNo) }

  /** The run loop over a queue of groups: the cursor it ends with and the items it writes. */
  function RunAll(c: Relay.Cursor, items: seq<Item>): (Relay.Cursor, seq<Item>)
    decreases |items|
  {
    if items == [] then (c, [])
    else if Relay.Stale(c, GroupOf(items[0])) then RunAll(c, items[1..])
    else
      var r := RunAll(After(items[0]), items[1..]);
      (r.0, [items[0]] + r.1)
  }

  lemma RunAllNone(c: Relay.Cursor)
    ensures RunAll(c, []) == (c, [])
  {
  }

  lemma RunAllFirst(c: Relay.Cursor, items: seq<Item>, written: seq<Item>)
    requires items != []
    ensures var x := items[0];
            var r := RunAll(c, items);
            var r' := if Relay.Stale(c, GroupOf(x)) then RunAll(c, items[1..]) else RunAll(After(x), items[1..]);
            r.0 == r'.0 && written + r.1 == (if Relay.Stale(c, GroupOf(x)) then written else written + [x]) + r'.1
  {
  }

  lemma {:induction false} RunAllMore(c: Relay.Cursor, items: seq<Item>, x: Item)
    ensures var r := RunAll(c, items);
            RunAll(c, items + [x]) == if Relay.Stale(r.0, GroupOf(x)) then r else (After(x), r.1 + [x])
    decreases |items|
  {
    if items == [] {
      assert ([] + [x])[1..] == [] && [x] + [] == [] + [x];
    } else {
      assert (items + [x])[0] == items[0] && (items + [x])[1..] == items[1..] + [x];
      var c' := if Relay.Stale(c, GroupOf(items[0])) then c else After(items[0]);
      RunAllMore(c', items[1..], x);
      var sent := RunAll(c', items[1..]).1;
      assert [items[0]] + (sent + [x]) == ([items[0]] + sent) + [x];
    }
  }

  predicate Below(gids: seq<nat>, n: nat) { forall i :: 0 <= i < |gids| ==> gids[i] < n }

  /** The items of groups given by their positions in a publish order. */
  function ItemsOf(order: seq<Item>, gids: seq<nat>): (r: seq<Item>)
    requires Below(gids, |order|)
    ensures |r| == |gids|
  {
    seq(|gids|, i requires 0 <= i < |gids| => order[gids[i]])
  }

  function PubOf(order: seq<Item>): (r: seq<Relay.Group>)
    ensures |r| == |order| && forall i :: 0 <= i < |r| ==> r[i] == GroupOf(order[i])
  {
    seq(|order|, i requires 0 <= i < |order| => GroupOf(order[i]))
  }

  function TakenBy(gids: seq<nat>): seq<Relay.Pop> {
    seq(|gids|, i requires 0 <= i < |gids| => Relay.Pop(Relay.Entry(gids[i], false), false))
  }

  /** The run loop does what the step system says: whatever groups it takes, in whatever order, it ends with
      the cursor and writes the groups that Fold computes. */
  lemma {:induction false} RunIsFold(order: seq<Item>, gids: seq<nat>)
    requires Below(gids, |order|)
    ensures var r := RunAll(Relay.Cursor(false, 0, 0), ItemsOf(order, gids));
            var f := Relay.Fold(PubOf(order), TakenBy(gids));
            && r.0 == f.0
            && Below(f.1, |order|)
            && r.1 == ItemsOf(order, f.1)
    decreases |gids|
  {
    if gids != [] {
      var init, g := gids[..|gids| - 1], gids[|gids| - 1];
      RunIsFold(order, init);
      assert TakenBy(gids)[..|gids| - 1] == TakenBy(init);
      assert ItemsOf(order, gids) == ItemsOf(order, init) + [order[g]];
      RunAllMore(Relay.Cursor(false, 0, 0), ItemsOf(order, init), order[g]);
      var sent := Relay.Fold(PubOf(order), TakenBy(init)).1;
      assert ItemsOf(order, sent + [g]) == ItemsOf(order, sent) + [order[g]];
    }
  }

  class Subscriber {
    const conn: Connection
    const track: seq<byte>
    var queue: seq<GroupBuffer>
    var cursor: Relay.Cursor

    constructor (conn: Connection, track: seq<byte>)
      ensures this.conn == conn && this.track == track
      ensures queue == [] && cursor == Relay.Cursor(false, 0, 0)
    {
      this.conn := conn;
      this.track := track;
      queue := [];
      cursor := Relay.Cursor(false, 0, 0);
    }

    predicate Bounded()
      reads this
    {
      |queue| <= Relay.QUEUE_CAP
    }

    /** The run loop takes some groups from the queue between two operations of an enqueue. */
    method RunTakes() returns (k: nat)
      modifies this`queue
      ensures k <= |old(queue)| && queue == old(queue)[k..]
    {
      k :| 0 <= k <= |queue|;
      queue := queue[k..];
    }

    /** enqueue with the run loop interfering at every point but no other producer: it finishes within two
        rounds; the group is last in the queue; what is gone from the front are the groups the run loop took
        and at most one dropped group, and that only when the queue was full. */
    method Enqueue(g: GroupBuffer) returns (rounds: nat, dropped: seq<GroupBuffer>, taken: nat)
      requires Bounded()
      modifies this`queue
      ensures Bounded() && 1 <= rounds <= 2
      ensures taken + |dropped| <= |old(queue)| && queue == old(queue)[taken + |dropped|..] + [g]
      ensures |dropped| <= 1
      ensures dropped != [] ==> rounds == 2 && |old(queue)| == Relay.QUEUE_CAP &&
                                exists j :: 0 <= j <= taken && old(queue)[j] == dropped[0]
      ensures |old(queue)| < Relay.QUEUE_CAP ==> rounds == 1
    {
      rounds, dropped, taken := 0, [], 0;
      ghost var at := 0;
      while true
        invariant rounds <= 1 && |queue| <= |old(queue)|
        invariant rounds == 0 ==> dropped == []
        invariant rounds == 1 ==> |queue| < Relay.QUEUE_CAP && |old(queue)| == Relay.QUEUE_CAP
        invariant 0 <= at <= |old(queue)| && |dropped| <= 1 && taken + |dropped| <= |old(queue)|
        invariant queue == old(queue)[taken + |dropped|..]
        invariant dropped != [] ==> at <= taken && old(queue)[at] == dropped[0]
        decreases 2 - rounds
      {
        rounds := rounds + 1;
        var k := RunTakes();
        taken := taken + k;
        if |queue| < Relay.QUEUE_CAP {
          queue := queue + [g];
          return;
        }
        k := RunTakes();
        taken := taken + k;
        if queue != [] {
          at, dropped := taken, [queue[0]];
          queue := queue[1..];
        }
      }
    }

    /** writeGroup, for a group whose ingest has ended: a stream with the header and every object. */
    method WriteGroup(g: GroupBuffer)
      requires g.closed
      modifies conn
      ensures conn.streams == old(conn.streams) + [StreamOf(track, View(g))]
    {
      var st := new Writer();
      st.WriteGroupHeader(Header(track, g.seqNo));
      var i := 0;
      while true
        invariant 0 <= i <= |g.objs|
        invariant st.out == EncodeHeader(Header(track, g.seqNo)) + Concat(g.objs[..i])
        invariant fresh(st) && conn.streams == old(conn.streams)
        modifies st
        decreases |g.objs| - i
      {
        var r := g.Next(i);
        if r.Ended? { break; }
        st.Write(r.obj);
        ConcatMore(g.objs[..i], g.objs[i]);
        assert g.objs[..i + 1] == g.objs[..i] + [g.objs[i]];
        i := i + 1;
      }
      assert g.objs[..i] == g.objs;
      conn.streams := conn.streams + [st.out];
    }

    /** run, until the queue is empty: the filter and the writes. */
    method Run()
      requires forall g :: g in queue ==> g.closed
      modifies this, conn
      ensures var want := RunAll(old(cursor), old(Views(queue)));
              && cursor == want.0 && queue == []
              && conn.streams == old(conn.streams) + Streams(track, want.1)
    {
      hide StreamOf, EncodeHeader, Concat, RunAll;
      ghost var items, written: seq<Item> := Views(queue), [];
      ghost var want := RunAll(cursor, items);
      assert Streams(track, written) == [] && [] + want.1 == want.1;
      while queue != []
        invariant forall g :: g in queue ==> g.closed
        invariant items == Views(queue)
        invariant want == (RunAll(cursor, items).0, written + RunAll(cursor, items).1)
        invariant conn.streams == old(conn.streams) + Streams(track, written)
        decreases |queue|
      {
        var g := queue[0];
        assert items[0] == View(g) && items[1..] == Views(queue[1..]);
        RunAllFirst(cursor, items, written);
        items, queue := items[1..], queue[1..];
        if cursor.started && g.gen == cursor.gen && g.seqNo <= cursor.seqNo {
          continue;
        }
        cursor := Relay.Cursor(true, g.gen, g.seqNo);
        WriteGroup(g);
        StreamsMore(track, written, View(g));
        written := written + [View(g)];
      }
      RunAllNone(cursor);
    }

    /** run, for a queue of one group. */
    method RunOne(g: GroupBuffer)
      requires queue == [g] && g.closed
      modifies this, conn
      ensures var x := Item(g.seqNo, old(g.gen), Concat(old(g.objs)));
              conn.streams == old(conn.streams) + Streams(track, RunAll(old(cursor), [x]).1)
    {
      assert Views(queue) == [View(g)];
      Run();
    }
  }

  /** What Stamp needs to know of a track. */
  function Newest(live: GroupBuffer?): seq<Relay.Group>
    reads live
  {
    if live == null then [] else [Relay.Group(live.seqNo, live.gen)]
  }

  /** The queue `before` after some groups left its front and g was put in last. */
  predicate TookLast(before: seq<GroupBuffer>, after: seq<GroupBuffer>, g: GroupBuffer) {
    1 <= |after| <= |before| + 1 && after == before[|before| + 1 - |after|..] + [g]
  }

  class Track {
    const name: seq<byte>
    var subs: set<Subscriber>
    var live: GroupBuffer?
    var gen: nat

    constructor (name: seq<byte>)
      ensures this.name == name && subs == {} && live == null && gen == 0
    {
      this.name := name;
      subs := {};
      live := null;
      gen := 0;
    }

    method AddSub(s: Subscriber)
      modifies this`subs
      ensures subs == old(subs) + {s}
    {
      subs := subs + {s};
    }

    method RemoveSub(s: Subscriber)
      modifies this`subs
      ensures subs == old(subs) - {s}
    {
      subs := subs - {s};
    }

    /** The join of handleSubscriber: the subscriber enters the set, the cached group is read, and once the greeting
        is written that group is enqueued. A greeting that fails takes the subscriber out again. */
    method Join(s: Subscriber, greeted: bool)
      requires s !in subs && s.queue == []
      modifies this`subs, s`queue
      ensures subs == old(subs) + if greeted then {s} else {}
      ensures s.queue == if greeted && live != null then [live] else []
    {
      AddSub(s);
      var cached := live;
      if !greeted {
        RemoveSub(s);
        return;
      }
      if cached != null {
        var rounds, dropped, taken := s.Enqueue(cached);
      }
    }

    /** publishGroup: the lock region stamps the group and replaces the cached one, then every subscriber of
        the snapshot is enqueued to, in some order. */
    method PublishGroup(g: GroupBuffer)
      requires forall s :: s in subs ==> s.Bounded()
      modifies this`live, this`gen, g`gen, subs`queue
      ensures gen == Relay.Stamp(old(Newest(live)), old(gen), g.seqNo) && g.gen == gen && live == g
      ensures forall s :: s in subs ==> s.Bounded() && TookLast(old(s.queue), s.queue, g)
    {
      if live != null && g.seqNo < live.seqNo {
        gen := gen + 1;
      }
      g.gen := gen;
      live := g;
      var todo := subs;
      while todo != {}
        invariant todo <= subs
        invariant forall s :: s in subs ==> s.Bounded()
        invariant forall s :: s in todo ==> s.queue == old(s.queue)
        invariant forall s :: s in subs - todo ==> TookLast(old(s.queue), s.queue, g)
        modifies subs`queue
        decreases todo
      {
        var s :| s in todo;
        var rounds, dropped, taken := s.Enqueue(g);
        todo := todo - {s};
      }
    }
  }

  /** The object loop of ingestGroupStream and its deferred close. */
  method IngestObjects(r: Reader, g: GroupBuffer)
    requires g.objs == []
    modifies r, g`objs, g`closed
    ensures g.closed && Concat(g.objs) == EncodeAll(ReadObjects(old(r.rest), r.end).objs)
  {
    hide EncodeObject, ReadObject, Concat;
    ghost var want := ReadObjects(r.rest, r.end).objs;
    ghost var got: seq<Object> := [];
    assert [] + want == want && Concat([]) == EncodeAll([]) by { ConcatEach([]); }
    while true
      invariant want == got + ReadObjects(r.rest, r.end).objs
      invariant Concat(g.objs) == EncodeAll(got)
      decreases |r.rest|
    {
      ghost var left := ReadObjects(r.rest, r.end);
      var o := r.ReadNextObject();
      if o.Err? {
        assert left.objs == [] && got + [] == got;
        break;
      }
      ghost var later := ReadObjects(r.rest, r.end).objs;
      assert left.objs == [o.value] + later && got + ([o.value] + later) == (got + [o.value]) + later;
      var enc := EncodeObject(o.value);
      ConcatMore(g.objs, enc);
      EncodeAllMore(got, o.value);
      g.Append(enc);
      got := got + [o.value];
    }
    assert want == got;
    g.Close();
  }

  /** ingestGroupStream: without a readable header nothing is published; otherwise the group is published
      first, then holds the re-encoding of every object that could be read, and is closed however the
      stream ended. */
  method IngestGroupStream(r: Reader, t: Track) returns (g: GroupBuffer?)
    requires forall s :: s in t.subs ==> s.Bounded()
    modifies r, t`live, t`gen, t.subs`queue
    ensures var h := ReadHeader(old(r.rest), r.end);
            if h.Fail? then g == null && t.live == old(t.live) && t.gen == old(t.gen)
            else g != null && fresh(g) && t.live == g && g.closed && g.seqNo == h.value.seqNo &&
                 g.gen == t.gen == Relay.Stamp(old(Newest(t.live)), old(t.gen), g.seqNo) &&
                 Concat(g.objs) == EncodeAll(ReadObjects(h.rest, r.end).objs)
    ensures forall s :: s in t.subs ==>
              s.Bounded() && if g == null then s.queue == old(s.queue) else TookLast(old(s.queue), s.queue, g)
  {
    hide ReadHeader, EncodeAll, ReadObjects;
    var h := r.ReadGroupHeader();
    if h.Err? { return null; }
    g := new GroupBuffer(h.value.seqNo);
    t.PublishGroup(g);
    IngestObjects(r, g);
  }

  lemma {:induction false} EncodeAllMore(objs: seq<Object>, o: Object)
    ensures EncodeAll(objs + [o]) == EncodeAll(objs) + EncodeObject(o)
  {
    hide EncodeObject;
    if objs == [] {
      assert ([] + [o])[1..] == [];
    } else {
      EncodeAllMore(objs[1..], o);
      assert (objs + [o])[1..] == objs[1..] + [o];
    }
  }

  lemma FirstInQueue(queue: seq<GroupBuffer>, g: GroupBuffer)
    requires TookLast([], queue, g)
    ensures queue == [g]
  {
  }

  lemma OneStream(c: Relay.Cursor, name: seq<byte>, x: Item)
    ensures Streams(name, RunAll(c, [x]).1)
            == if Relay.Stale(c, Relay.Group(x.seqNo, x.gen)) then [] else [StreamOf(name, x)]
  {
    hide StreamOf;
    assert [x][1..] == [];
  }

  lemma StreamIsHop(name: seq<byte>, x: Item, s: seq<byte>, end: End)
    requires var h := ReadHeader(s, end);
             h.Ok? && h.value == Header(name, x.seqNo) && x.body == EncodeAll(ReadObjects(h.rest, end).objs)
    ensures Hop(s, end) == Some(StreamOf(name, x))
  {
    hide ReadHeader, EncodeAll, ReadObjects, EncodeHeader;
  }

  /** A stream through the relay, from ingest by way of the fan-out, the queue and the run loop: a subscriber of
      the track whose queue was empty is sent exactly the bytes that a hop makes of the stream, unless its filter
      holds the group to be one it has passed. */
  method ForwardOne(r: Reader, t: Track, s: Subscriber)
    requires s in t.subs && s.track == t.name && s.queue == []
    requires forall q :: q in t.subs ==> q.Bounded()
    modifies r, t`live, t`gen, t.subs`queue, s, s.conn
    ensures var h := ReadHeader(old(r.rest), r.end);
            if h.Fail? then s.conn.streams == old(s.conn.streams)
            else
              var gen := Relay.Stamp(old(Newest(t.live)), old(t.gen), h.value.seqNo);
              h.value.name == t.name ==>
                s.conn.streams == old(s.conn.streams)
                                  + if Relay.Stale(old(s.cursor), Relay.Group(h.value.seqNo, gen)) then []
                                    else [Hop(old(r.rest), r.end).value]
  {
    hide *;
    ghost var bytes, c := r.rest, s.cursor;
    var g := IngestGroupStream(r, t);
    if g != null {
      ghost var x := Item(g.seqNo, g.gen, Concat(g.objs));
      FirstInQueue(s.queue, g);
      s.RunOne(g);
      OneStream(c, s.track, x);
      ghost var h := ReadHeader(bytes, r.end);
      if h.value.name == t.name { StreamIsHop(s.track, x, bytes, r.end); }
    }
  }
}
