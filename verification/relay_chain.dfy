/** Relays feeding relays: what a subscriber is delivered when its queue was offered groups in publish order,
    and what reaches the end of a chain of any number of relays.

    A run is in order for a subscriber when its queue took the groups in publish order. Parallel ingests
    and fan-outs do not ensure that; the theorems here are about the runs in which it is so. */
module RelayChain {
  import opened Relay
  import opened RelayInvariants
  import opened RelayTheorems

  // ---------- Collapsing repeats ----------

  /** The list with adjacent equal elements merged. */
  function Collapse<T(==)>(xs: seq<T>): (r: seq<T>)
    ensures xs != [] ==> r != [] && r[|r| - 1] == xs[|xs| - 1]
  {
    if |xs| <= 1 then xs
    else
      var r := Collapse(xs[..|xs| - 1]);
      if xs[|xs| - 1] == xs[|xs| - 2] then r else r + [xs[|xs| - 1]]
  }

  lemma CollapseMore<T>(xs: seq<T>, x: T)
    ensures Collapse(xs + [x]) == if xs != [] && xs[|xs| - 1] == x then Collapse(xs) else Collapse(xs) + [x]
  {
    var ys := xs + [x];
    if xs == [] {
      assert ys == [x];
    } else {
      assert ys[..|ys| - 1] == xs && ys[|ys| - 1] == x && ys[|ys| - 2] == xs[|xs| - 1];
    }
  }

  predicate NoRepeats<T(==)>(xs: seq<T>) { forall i :: 0 < i < |xs| ==> xs[i] != xs[i - 1] }

  lemma NoRepeatsMore<T>(xs: seq<T>, x: T)
    ensures NoRepeats(xs + [x]) <==> NoRepeats(xs) && (xs != [] ==> xs[|xs| - 1] != x)
  {
    var ys := xs + [x];
    assert ys[|xs|] == x;
    if NoRepeats(ys) {
      forall i | 0 < i < |xs|
        ensures xs[i] != xs[i - 1]
      {
        assert ys[i] != ys[i - 1];
      }
      if xs != [] { assert ys[|xs|] != ys[|xs| - 1]; }
    } else if NoRepeats(xs) && (xs != [] ==> xs[|xs| - 1] != x) {
      forall i | 0 < i < |ys|
        ensures ys[i] != ys[i - 1]
      {
        if i < |xs| { assert xs[i] != xs[i - 1]; }
      }
    }
  }

  lemma {:induction false} CollapseNoRepeats<T>(xs: seq<T>)
    ensures NoRepeats(Collapse(xs))
    decreases |xs|
  {
    if |xs| > 1 {
      CollapseNoRepeats(xs[..|xs| - 1]);
      NoRepeatsMore(Collapse(xs[..|xs| - 1]), xs[|xs| - 1]);
    }
  }

  lemma {:induction false} CollapseFixed<T>(xs: seq<T>)
    requires NoRepeats(xs)
    ensures Collapse(xs) == xs
    decreases |xs|
  {
    if |xs| > 1 {
      var init, x := xs[..|xs| - 1], xs[|xs| - 1];
      assert xs == init + [x];
      NoRepeatsMore(init, x);
      CollapseFixed(init);
    }
  }

  lemma CollapseTwice<T>(xs: seq<T>)
    ensures Collapse(Collapse(xs)) == Collapse(xs)
  {
    CollapseNoRepeats(xs);
    CollapseFixed(Collapse(xs));
  }

  // ---------- One hop ----------

  function Groups(pub: seq<Group>, gids: seq<nat>): (r: seq<Group>)
    ensures |r| == |gids|
    ensures forall i :: 0 <= i < |r| ==> r[i] == GroupAt(pub, gids[i])
  {
    seq(|gids|, i requires 0 <= i < |gids| => GroupAt(pub, gids[i]))
  }

  function Numbers(groups: seq<Group>): (r: seq<nat>)
    ensures |r| == |groups|
    ensures forall i :: 0 <= i < |r| ==> r[i] == groups[i].seqNo
  {
    seq(|groups|, i requires 0 <= i < |groups| => groups[i].seqNo)
  }

  /** The sequence numbers published on a track, and those a subscriber has been sent. */
  function Published(st: State): seq<nat> { Numbers(st.pub) }

  function Delivered(st: State, id: SubId): seq<nat>
    requires id in st.subs
  {
    Numbers(Groups(st.pub, st.subs[id].sent))
  }

  /** The groups run took from the queue. */
  function Kept(popped: seq<Pop>): (r: seq<nat>)
    ensures forall g :: g in r ==> exists i :: 0 <= i < |popped| && popped[i].entry.gid == g
  {
    if popped == [] then []
    else
      var p := popped[|popped| - 1];
      if p.dropped then Kept(popped[..|popped| - 1]) else Kept(popped[..|popped| - 1]) + [p.entry.gid]
  }

  predicate NonDecreasing(xs: seq<nat>) { forall i, j :: 0 <= i <= j < |xs| ==> xs[i] <= xs[j] }

  function Gids(entries: seq<Entry>): (r: seq<nat>)
    ensures |r| == |entries|
    ensures forall i :: 0 <= i < |r| ==> r[i] == entries[i].gid
  {
    seq(|entries|, i requires 0 <= i < |entries| => entries[i].gid)
  }

  lemma {:induction false} KeptInOrder(popped: seq<Pop>)
    requires NonDecreasing(Gids(Entries(popped)))
    ensures NonDecreasing(Kept(popped))
    ensures forall g :: g in Kept(popped) ==> g <= popped[|popped| - 1].entry.gid
    decreases |popped|
  {
    if popped != [] {
      var init, p := popped[..|popped| - 1], popped[|popped| - 1];
      assert Gids(Entries(init)) == Gids(Entries(popped))[..|init|];
      KeptInOrder(init);
      assert Gids(Entries(popped))[|init|] == p.entry.gid;
      var before := Kept(init);
      forall i | 0 <= i < |before|
        ensures before[i] <= p.entry.gid
      {
        assert before[i] in before;
        var k :| 0 <= k < |init| && init[k].entry.gid == before[i];
        assert Gids(Entries(popped))[k] == before[i];
      }
      NonDecreasingMore(before, p.entry.gid);
    }
  }

  lemma NonDecreasingMore(xs: seq<nat>, x: nat)
    requires NonDecreasing(xs) && forall i :: 0 <= i < |xs| ==> xs[i] <= x
    ensures NonDecreasing(xs + [x]) && forall g :: g in xs + [x] ==> g <= x
  {
  }

  lemma InOrderPrefix(xs: seq<nat>, x: nat)
    requires NonDecreasing(xs + [x])
    ensures NonDecreasing(xs) && (xs != [] ==> xs[|xs| - 1] <= x)
  {
    var ys := xs + [x];
    forall i, j | 0 <= i <= j < |xs|
      ensures xs[i] <= xs[j]
    {
      assert ys[i] <= ys[j];
    }
    if xs != [] { assert ys[|xs| - 1] <= ys[|xs|]; }
  }

  lemma GroupsMore(pub: seq<Group>, gids: seq<nat>, g: nat)
    ensures Groups(pub, gids + [g]) == Groups(pub, gids) + [GroupAt(pub, g)]
  {
  }

  /** Taken in publish order, the run loop sends the groups it takes with adjacent repeats merged: the only
      ones its filter removes are repeats of the group it sent last. */
  lemma {:induction false} FilterCollapses(pub: seq<Group>, gen: nat, popped: seq<Pop>)
    requires Stamped(pub, gen) && NonDecreasing(Kept(popped))
    requires forall g :: g in Kept(popped) ==> g < |pub|
    ensures var r := Fold(pub, popped);
            var kept := Groups(pub, Kept(popped));
            && Groups(pub, r.1) == Collapse(kept)
            && (if kept == [] then r.0 == Cursor(false, 0, 0)
                else r.0 == Cursor(true, kept[|kept| - 1].gen, kept[|kept| - 1].seqNo))
    decreases |popped|
  {
    if popped != [] {
      var init, p := popped[..|popped| - 1], popped[|popped| - 1];
      if p.dropped {
        FilterCollapses(pub, gen, init);
      } else {
        var before, g := Kept(init), p.entry.gid;
        assert Kept(popped) == before + [g];
        InOrderPrefix(before, g);
        assert forall h :: h in before ==> h in Kept(popped);
        assert g in Kept(popped);
        FilterCollapses(pub, gen, init);
        var r := Fold(pub, init);
        if before != [] {
          assert before[|before| - 1] in before;
          assert LexLeq(pub[before[|before| - 1]], pub[g]);
        }
        FilterOne(Groups(pub, before), r.0, pub[g]);
        GroupsMore(pub, before, g);
        GroupsMore(pub, r.1, g);
      }
    }
  }

  /** What the run loop's filter does with the next group in order. */
  lemma FilterOne(kept: seq<Group>, c: Cursor, x: Group)
    requires kept != [] ==> LexLeq(kept[|kept| - 1], x)
    requires c == if kept == [] then Cursor(false, 0, 0) else Cursor(true, kept[|kept| - 1].gen, kept[|kept| - 1].seqNo)
    ensures Stale(c, x) <==> kept != [] && kept[|kept| - 1] == x
    ensures Collapse(kept + [x]) == if Stale(c, x) then Collapse(kept) else Collapse(kept) + [x]
  {
    CollapseMore(kept, x);
  }

  /** A group taken in publish order is sent if and only if no earlier group taken equals it in sequence number and
      generation: a restart at the live sequence number is not told from a repeat. */
  lemma {:induction false} SentIff(pub: seq<Group>, gen: nat, popped: seq<Pop>, g: nat)
    requires Stamped(pub, gen) && NonDecreasing(Kept(popped))
    requires forall h :: h in Kept(popped) ==> h < |pub|
    ensures g in Fold(pub, popped).1
            <==> g in Kept(popped) && FirstOfItsKind(pub, Kept(popped), g)
    decreases |popped|
  {
    if popped != [] {
      var init, p := popped[..|popped| - 1], popped[|popped| - 1];
      if p.dropped {
        SentIff(pub, gen, init, g);
      } else {
        var before, x := Kept(init), p.entry.gid;
        assert Kept(popped) == before + [x];
        InOrderPrefix(before, x);
        assert forall h :: h in before ==> h in Kept(popped);
        assert x in Kept(popped);
        SentIff(pub, gen, init, g);
        FilterCollapses(pub, gen, init);
        var r := Fold(pub, init);
        hide Fold, Kept, Collapse, Stamped, NonDecreasing;
        assert r.0 == CursorAfter(pub, before);
        SentStep(pub, gen, before, x, r.1, g);
      }
    }
  }

  /** The cursor after sending the last of these groups. */
  function CursorAfter(pub: seq<Group>, gids: seq<nat>): Cursor {
    if gids == [] then Cursor(false, 0, 0)
    else var g := GroupAt(pub, gids[|gids| - 1]); Cursor(true, g.gen, g.seqNo)
  }

  /** No group in the list that comes before g equals it. */
  predicate FirstOfItsKind(pub: seq<Group>, gids: seq<nat>, g: nat) {
    forall h :: h in gids && h < g ==> GroupAt(pub, h) != GroupAt(pub, g)
  }

  lemma SentStep(pub: seq<Group>, gen: nat, before: seq<nat>, x: nat, sent: seq<nat>, g: nat)
    requires Stamped(pub, gen) && NonDecreasing(before + [x]) && forall h :: h in before + [x] ==> h < |pub|
    requires g in sent <==> g in before && FirstOfItsKind(pub, before, g)
    ensures var sent' := if Stale(CursorAfter(pub, before), GroupAt(pub, x)) then sent else sent + [x];
            g in sent' <==> g in before + [x] && FirstOfItsKind(pub, before + [x], g)
  {
    LastTaken(pub, gen, before, x);
    if before != [] {
      var l := before[|before| - 1];
      assert l in before;
      if g == x {
        assert FirstOfItsKind(pub, before + [x], x) <==> FirstOfItsKind(pub, before, x);
      } else {
        assert g in before ==> g < x || g == l;
      }
    }
  }

  /** What the last group taken tells of all that were taken before x. */
  lemma LastTaken(pub: seq<Group>, gen: nat, before: seq<nat>, x: nat)
    requires Stamped(pub, gen) && NonDecreasing(before + [x]) && forall h :: h in before + [x] ==> h < |pub|
    ensures before != [] ==>
              var l := before[|before| - 1];
              && l in before && l <= x && (forall h :: h in before ==> h <= l)
              && (Stale(CursorAfter(pub, before), GroupAt(pub, x)) <==> GroupAt(pub, l) == GroupAt(pub, x))
              && (GroupAt(pub, l) != GroupAt(pub, x) <==>
                  forall h :: h in before ==> GroupAt(pub, h) != GroupAt(pub, x))
  {
    if before != [] {
      var n, l := |before|, before[|before| - 1];
      var all := before + [x];
      assert all[n - 1] == l && all[n] == x && x in all && l in all;
      forall h | h in before ensures h <= l && LexLeq(GroupAt(pub, h), GroupAt(pub, l)) && h in all {
        var i :| 0 <= i < n && before[i] == h;
        assert all[i] == h && all[i] <= all[n - 1];
      }
      assert LexLeq(pub[l], pub[x]);
    }
  }

  predicate GensRise(groups: seq<Group>) { forall i :: 0 < i < |groups| ==> groups[i - 1].gen <= groups[i].gen }

  lemma GensRiseMore(groups: seq<Group>, x: Group)
    ensures GensRise(groups + [x]) <==> GensRise(groups) && (groups != [] ==> groups[|groups| - 1].gen <= x.gen)
  {
    var more := groups + [x];
    if GensRise(more) {
      forall i | 0 < i < |groups| ensures groups[i - 1].gen <= groups[i].gen { assert more[i - 1].gen <= more[i].gen; }
      if groups != [] { assert more[|groups| - 1].gen <= more[|groups|].gen; }
    }
  }

  /** The filter compares within one generation only, so what it sends changes generation as what it takes does. */
  lemma {:induction false} SentGens(pub: seq<Group>, popped: seq<Pop>)
    ensures var r := Fold(pub, popped);
            var kept, sent := Groups(pub, Kept(popped)), Groups(pub, r.1);
            && (GensRise(kept) <==> GensRise(sent)) && (kept == [] <==> sent == []) && (r.0.started <==> sent != [])
            && (kept != [] ==> kept[|kept| - 1].gen == sent[|sent| - 1].gen == r.0.gen)
    decreases |popped|
  {
    hide GensRise;
    if popped == [] {
      assert Groups(pub, Kept(popped)) == Groups(pub, Fold(pub, popped).1);
    } else {
      var init, p := popped[..|popped| - 1], popped[|popped| - 1];
      SentGens(pub, init);
      if !p.dropped {
        var r, g := Fold(pub, init), GroupAt(pub, p.entry.gid);
        GroupsMore(pub, Kept(init), p.entry.gid);
        GensRiseMore(Groups(pub, Kept(init)), g);
        if !Stale(r.0, g) {
          GroupsMore(pub, r.1, p.entry.gid);
          GensRiseMore(Groups(pub, r.1), g);
        }
      }
    }
  }

  /** What the subscriber has been sent increases lexicographically by generation and number, each on the one before. */
  predicate LexSent(st: State, id: SubId)
    requires id in st.subs
  {
    var sent := Groups(st.pub, st.subs[id].sent);
    forall i :: 0 < i < |sent| ==> LexLess(sent[i - 1], sent[i])
  }

  /** Across generations the order of what is sent can break, and this is exactly when: the groups sent increase
      lexicographically, each on the one before, if and only if the run loop never took from the queue a group of an
      older generation after one of a newer generation. */
  lemma AcrossGenerations(st: State, id: SubId)
    requires Reachable(st) && id in st.subs
    ensures LexSent(st, id) <==> GensRise(Groups(st.pub, Kept(st.subs[id].popped)))
  {
    hide Fold, Kept;
    ReachableInv(st);
    assert SubOk(st.pub, st.fan, id, st.subs[id]);
    FoldSentOk(st.pub, st.subs[id].popped);
    SentGens(st.pub, st.subs[id].popped);
  }

  /** Nothing more will reach the subscriber, and it has taken everything from its queue. */
  predicate Quiet(st: State, id: SubId) {
    && id in st.subs && st.subs[id].phase == Running && st.subs[id].queue == []
    && forall g :: 0 <= g < |st.fan| ==> id !in st.fan[g].todo
  }

  predicate InOrder(st: State, id: SubId)
    requires id in st.subs
  {
    NonDecreasing(Gids(st.subs[id].accepted))
  }

  predicate NoDrops(st: State, id: SubId)
    requires id in st.subs
  {
    forall i :: 0 <= i < |st.subs[id].popped| ==> !st.subs[id].popped[i].dropped
  }

  /** With queue drops: what is delivered is what was kept, repeats merged. */
  lemma HopCollapsesKept(st: State, id: SubId)
    requires Reachable(st) && id in st.subs && InOrder(st, id)
    ensures Groups(st.pub, st.subs[id].sent) == Collapse(Groups(st.pub, Kept(st.subs[id].popped)))
    ensures NonDecreasing(Kept(st.subs[id].popped))
  {
    hide Fold, Kept;
    ReachableInv(st);
    var s := st.subs[id];
    assert SubOk(st.pub, st.fan, id, s);
    assert Gids(Entries(s.popped)) == Gids(s.accepted)[..|s.popped|];
    KeptInOrder(s.popped);
    forall g | g in Kept(s.popped)
      ensures g < |st.pub|
    {
      var i :| 0 <= i < |s.popped| && s.popped[i].entry.gid == g;
      assert s.accepted[i] == s.popped[i].entry;
      AcceptedBelow(|st.pub|, st.fan, id, s, s.accepted[i]);
    }
    FilterCollapses(st.pub, st.gen, s.popped);
  }

  lemma {:induction false} KeptAll(popped: seq<Pop>)
    requires forall i :: 0 <= i < |popped| ==> !popped[i].dropped
    ensures Kept(popped) == Gids(Entries(popped))
    decreases |popped|
  {
    if popped != [] {
      var init := popped[..|popped| - 1];
      KeptAll(init);
      assert Gids(Entries(popped)) == Gids(Entries(init)) + [popped[|popped| - 1].entry.gid];
    }
  }

  function From(lo: nat, hi: nat): (r: seq<nat>)
    requires lo <= hi
    ensures |r| == hi - lo && forall i :: 0 <= i < |r| ==> r[i] == lo + i
  {
    seq(hi - lo, i requires 0 <= i < hi - lo => lo + i)
  }

  ghost predicate Covers(xs: seq<nat>, lo: nat, hi: nat) {
    NonDecreasing(xs) && lo <= hi && forall g: nat {:trigger g in xs} :: g in xs <==> lo <= g < hi
  }

  lemma CoverEnd(xs: seq<nat>, lo: nat, hi: nat)
    requires Covers(xs, lo, hi) && xs != []
    ensures lo < hi && xs[|xs| - 1] == hi - 1
  {
    assert xs[|xs| - 1] in xs;
    assert hi - 1 in xs;
    var j :| 0 <= j < |xs| && xs[j] == hi - 1;
    assert xs[j] <= xs[|xs| - 1];
  }

  /** Without its last element, which it may hold once or more often. */
  lemma CoverInit(init: seq<nat>, x: nat, lo: nat, hi: nat)
    requires Covers(init + [x], lo, hi)
    ensures lo < hi && x == hi - 1
    ensures Covers(init, lo, if x in init then hi else hi - 1)
  {
    CoverEnd(init + [x], lo, hi);
    InOrderPrefix(init, x);
    forall g: nat
      ensures g in init <==> lo <= g < if x in init then hi else hi - 1
    {
      assert g in init + [x] <==> g in init || g == x;
    }
  }

  lemma CoverStep(pub: seq<Group>, init: seq<nat>, lo: nat, hi: nat)
    requires lo < hi && (init == [] <==> lo == hi - 1) && (init != [] ==> init[|init| - 1] == hi - 2)
    requires Collapse(Groups(pub, init)) == Collapse(Groups(pub, From(lo, hi - 1)))
    ensures Collapse(Groups(pub, init) + [GroupAt(pub, hi - 1)]) == Collapse(Groups(pub, From(lo, hi)))
  {
    hide *;
    var x, before := GroupAt(pub, hi - 1), From(lo, hi - 1);
    assert From(lo, hi) == before + [hi - 1];
    GroupsMore(pub, before, hi - 1);
    CollapseMore(Groups(pub, before), x);
    CollapseMore(Groups(pub, init), x);
    if init != [] { assert before[|before| - 1] == hi - 2; }
  }

  lemma CoverEmpty(lo: nat, hi: nat)
    requires Covers([], lo, hi)
    ensures lo == hi
  {
    var none: seq<nat> := [];
    assert lo in none <==> lo < hi;
  }

  /** A non-decreasing list that hits every number from lo to hi, and no other, differs from that range
      only in repeats. */
  lemma {:induction false} CoverCollapses(pub: seq<Group>, xs: seq<nat>, lo: nat, hi: nat)
    requires Covers(xs, lo, hi)
    ensures Collapse(Groups(pub, xs)) == Collapse(Groups(pub, From(lo, hi)))
    decreases |xs|
  {
    hide *;
    if xs == [] {
      CoverEmpty(lo, hi);
      assert From(lo, hi) == xs;
    } else {
      var init, x := xs[..|xs| - 1], xs[|xs| - 1];
      assert xs == init + [x];
      CoverInit(init, x, lo, hi);
      GroupsMore(pub, init, x);
      if x in init {
        CoverEnd(init, lo, hi);
        CollapseMore(Groups(pub, init), GroupAt(pub, x));
        CoverCollapses(pub, init, lo, hi);
      } else {
        CoverCollapses(pub, init, lo, hi - 1);
        if init == [] { CoverEmpty(lo, hi - 1); } else { CoverEnd(init, lo, hi - 1); }
        CoverStep(pub, init, lo, hi);
      }
    }
  }

  /** Merging groups and merging their sequence numbers agree. */
  predicate MergesAlike(groups: seq<Group>) { Numbers(Collapse(groups)) == Collapse(Numbers(groups)) }

  /** They do where a repeated sequence number is never a restart. */
  lemma {:induction false} NumbersCollapse(pub: seq<Group>, lo: nat, hi: nat)
    requires Contiguous(pub) && lo <= hi <= |pub|
    ensures MergesAlike(pub[lo..hi])
    decreases hi
  {
    hide MergesAlike;
    if lo < hi {
      NumbersCollapse(pub, lo, hi - 1);
      assert pub[lo..hi] == pub[lo..hi - 1] + [pub[hi - 1]];
      MergeOneMore(pub[lo..hi - 1], pub[hi - 1]);
    } else {
      assert pub[lo..hi] == [];
      MergeNone();
    }
  }

  lemma MergeNone()
    ensures MergesAlike([])
  {
    assert Numbers([]) == [];
  }

  lemma MergeOneMore(groups: seq<Group>, x: Group)
    requires MergesAlike(groups)
    requires groups != [] ==> (groups[|groups| - 1] == x <==> groups[|groups| - 1].seqNo == x.seqNo)
    ensures MergesAlike(groups + [x])
  {
    hide Collapse;
    CollapseMore(groups, x);
    NumbersMore(groups, x);
    CollapseMore(Numbers(groups), x.seqNo);
    NumbersMore(Collapse(groups), x);
  }

  lemma NumbersMore(groups: seq<Group>, x: Group)
    ensures Numbers(groups + [x]) == Numbers(groups) + [x.seqNo]
  {
  }

  lemma QuietTookAll(st: State, id: SubId)
    requires Reachable(st) && Quiet(st, id)
    ensures var s := st.subs[id];
            && s.accepted == Entries(s.popped)
            && FirstOffered(s) <= |st.pub|
            && forall g: nat {:trigger g in Gids(s.accepted)} ::
                 g in Gids(s.accepted) <==> FirstOffered(s) <= g < |st.pub|
  {
    hide Fold;
    ReachableInv(st);
    var s := st.subs[id];
    assert SubOk(st.pub, st.fan, id, s);
    forall g: nat
      ensures g in Gids(s.accepted) <==> FirstOffered(s) <= g < |st.pub|
    {
      LateJoinHasNoGap(st, id, g);
      GidAccepted(s.accepted, g);
    }
  }

  lemma GidAccepted(entries: seq<Entry>, g: nat)
    ensures g in Gids(entries) <==> Entry(g, false) in entries || Entry(g, true) in entries
  {
    if g in Gids(entries) {
      var i :| 0 <= i < |entries| && Gids(entries)[i] == g;
      assert entries[i] == Entry(g, entries[i].late);
    }
    if Entry(g, false) in entries {
      var i :| 0 <= i < |entries| && entries[i] == Entry(g, false);
      assert Gids(entries)[i] == g;
    }
    if Entry(g, true) in entries {
      var i :| 0 <= i < |entries| && entries[i] == Entry(g, true);
      assert Gids(entries)[i] == g;
    }
  }

  lemma NumbersAreVisible(st: State)
    requires Reachable(st)
    ensures Contiguous(st.pub)
  {
    ReachableInv(st);
  }

  /** One hop without drops delivers exactly what was published since the subscriber's first group, with
      adjacent equal sequence numbers merged, however often the publisher restarted. */
  lemma HopDelivers(st: State, id: SubId)
    requires Reachable(st) && Quiet(st, id) && InOrder(st, id) && NoDrops(st, id)
    ensures FirstOffered(st.subs[id]) <= |st.pub|
    ensures Delivered(st, id) == Collapse(Published(st)[FirstOffered(st.subs[id])..])
  {
    hide Fold, Collapse, Kept, Reachable, FirstOffered, NonDecreasing, Gids, Entries, Groups, Numbers, From;
    NumbersAreVisible(st);
    var s, n := st.subs[id], |st.pub|;
    var lo := FirstOffered(s);
    QuietTookAll(st, id);
    HopCollapsesKept(st, id);
    KeptAll(s.popped);
    CoverCollapses(st.pub, Gids(s.accepted), lo, n);
    NumbersCollapse(st.pub, lo, n);
    assert Groups(st.pub, From(lo, n)) == st.pub[lo..n];
    assert Numbers(st.pub[lo..n]) == Published(st)[lo..];
  }

  /** With drops, and whatever else interleaved: once nothing is pending, the last group the queue took was
      not dropped. In order, that is the newest group of the track. */
  lemma NewestIsDelivered(st: State, id: SubId)
    requires Reachable(st) && Quiet(st, id) && FirstOffered(st.subs[id]) < |st.pub|
    ensures var p := st.subs[id].popped; p != [] && !p[|p| - 1].dropped
    ensures InOrder(st, id) ==>
              Delivered(st, id) != [] &&
              Delivered(st, id)[|Delivered(st, id)| - 1] == Published(st)[|st.pub| - 1]
  {
    hide Fold, Collapse, Reachable, FirstOffered;
    var s, n := st.subs[id], |st.pub|;
    QuietTookAll(st, id);
    assert n - 1 in Gids(s.accepted);
    LastNotDropped(st, id);
    if InOrder(st, id) {
      CoverEnd(Gids(s.accepted), FirstOffered(s), n);
      HopCollapsesKept(st, id);
      var kept := Kept(s.popped);
      assert kept[|kept| - 1] == s.popped[|s.popped| - 1].entry.gid == n - 1;
      var groups := Groups(st.pub, s.sent);
      assert groups[|groups| - 1] == st.pub[n - 1];
    }
  }

  /** The newest group itself was sent, last. */
  predicate NewestSent(st: State, id: SubId)
    requires id in st.subs
  {
    var sent := st.subs[id].sent; sent != [] && sent[|sent| - 1] + 1 == |st.pub|
  }

  /** The newest group, and not only its number, is delivered if and only if no group taken before it has its number
      and generation; so always if the group published before it differs from it, and without drops exactly then or
      if it is the first group offered. A publisher that restarts at the live number makes such an equal group. */
  lemma NewestIsSentIff(st: State, id: SubId)
    requires Reachable(st) && Quiet(st, id) && FirstOffered(st.subs[id]) < |st.pub| && InOrder(st, id)
    ensures var n, s := |st.pub|, st.subs[id];
            && (NewestSent(st, id) <==> FirstOfItsKind(st.pub, Kept(s.popped), n - 1))
            && (n == 1 || st.pub[n - 2] != st.pub[n - 1] ==> NewestSent(st, id))
            && (NoDrops(st, id) ==>
                  (NewestSent(st, id) <==> FirstOffered(s) == n - 1 || st.pub[n - 2] != st.pub[n - 1]))
  {
    ReachableInv(st);
    assert Stamped(st.pub, st.gen);
    KeptBelow(st, id);
    hide Fold, FirstOffered, Reachable, Inv, InOrder, Quiet, Kept, NoDrops, NewestSent, Stamped, FirstOfItsKind;
    var s, n := st.subs[id], |st.pub|;
    NewestFirst(st, id);
    if n >= 2 {
      OnlyBeforeEqual(st.pub, st.gen, Kept(s.popped));
      if NoDrops(st, id) { KeptUndropped(st, id); }
    }
    NoneBefore(st.pub, Kept(s.popped), n - 1);
  }

  lemma NoneBefore(pub: seq<Group>, kept: seq<nat>, g: nat)
    ensures (forall h :: h in kept ==> h >= g) ==> FirstOfItsKind(pub, kept, g)
  {
  }

  lemma ReachableStamped(st: State)
    requires Reachable(st)
    ensures Inv(st) && Stamped(st.pub, st.gen)
  {
    hide Reachable, SubOk, FanOk, Contiguous;
    ReachableInv(st);
  }

  lemma NewestFirst(st: State, id: SubId)
    requires Reachable(st) && Quiet(st, id) && FirstOffered(st.subs[id]) < |st.pub| && InOrder(st, id)
    ensures NewestSent(st, id) <==> FirstOfItsKind(st.pub, Kept(st.subs[id].popped), |st.pub| - 1)
  {
    hide Inv, FirstOffered, Reachable, InOrder, Fold, Kept, FirstOfItsKind, Collapse, Groups, Stamped;
    ReachableStamped(st);
    NewestWasKept(st, id);
    HopCollapsesKept(st, id);
    KeptBelow(st, id);
    FoldIsSent(st, id);
    LastSentIff(st.pub, st.gen, st.subs[id].popped, |st.pub| - 1);
  }

  lemma LastSentIff(pub: seq<Group>, gen: nat, popped: seq<Pop>, n: nat)
    requires Stamped(pub, gen) && NonDecreasing(Kept(popped)) && n + 1 == |pub| && n in Kept(popped)
    requires forall h :: h in Kept(popped) ==> h < |pub|
    ensures var sent := Fold(pub, popped).1;
            sent != [] && sent[|sent| - 1] == n <==> FirstOfItsKind(pub, Kept(popped), n)
  {
    hide Fold, Kept, FirstOfItsKind, Stamped, NonDecreasing, StrictlyIncreasing;
    SentIff(pub, gen, popped, n);
    SentIncreases(pub, popped);
    LastIs(Fold(pub, popped).1, n);
  }

  lemma FoldIsSent(st: State, id: SubId)
    requires Reachable(st) && id in st.subs
    ensures st.subs[id].sent == Fold(st.pub, st.subs[id].popped).1
  {
    hide Fold;
    ReachableInv(st);
    assert SubOk(st.pub, st.fan, id, st.subs[id]);
  }

  lemma NewestWasKept(st: State, id: SubId)
    requires Reachable(st) && Quiet(st, id) && FirstOffered(st.subs[id]) < |st.pub| && InOrder(st, id)
    ensures |st.pub| - 1 in Kept(st.subs[id].popped)
  {
    hide Fold, FirstOffered, Reachable;
    var s, n := st.subs[id], |st.pub|;
    QuietTookAll(st, id);
    NewestIsDelivered(st, id);
    LastKept(s.popped);
    assert n - 1 in Gids(s.accepted);
    CoverEnd(Gids(s.accepted), FirstOffered(s), n);
  }

  /** Without drops the run loop has taken every group offered. */
  lemma KeptUndropped(st: State, id: SubId)
    requires Reachable(st) && Quiet(st, id) && NoDrops(st, id)
    ensures forall g: nat {:trigger g in Kept(st.subs[id].popped)} ::
              g in Kept(st.subs[id].popped) <==> FirstOffered(st.subs[id]) <= g < |st.pub|
  {
    hide Fold, FirstOffered, Reachable, Kept;
    QuietTookAll(st, id);
    KeptAll(st.subs[id].popped);
  }

  lemma KeptBelow(st: State, id: SubId)
    requires Inv(st) && id in st.subs
    ensures forall g :: g in Kept(st.subs[id].popped) ==> g < |st.pub|
  {
    hide Fold, Kept;
    var s := st.subs[id];
    assert SubOk(st.pub, st.fan, id, s);
    forall g | g in Kept(s.popped) ensures g < |st.pub| {
      var i :| 0 <= i < |s.popped| && s.popped[i].entry.gid == g;
      assert s.accepted[i] == s.popped[i].entry;
      AcceptedBelow(|st.pub|, st.fan, id, s, s.accepted[i]);
    }
  }

  lemma LastKept(popped: seq<Pop>)
    ensures popped != [] && !popped[|popped| - 1].dropped ==> popped[|popped| - 1].entry.gid in Kept(popped)
  {
  }

  lemma LastIs(xs: seq<nat>, n: nat)
    requires StrictlyIncreasing(xs) && forall x :: x in xs ==> x <= n
    ensures n in xs <==> xs != [] && xs[|xs| - 1] == n
  {
    if n in xs {
      var i :| 0 <= i < |xs| && xs[i] == n;
      assert xs[|xs| - 1] in xs && xs[i] <= xs[|xs| - 1];
    }
  }

  /** In publish order, a group equal to the newest has only equal groups after it. */
  lemma OnlyBeforeEqual(pub: seq<Group>, gen: nat, kept: seq<nat>)
    requires Stamped(pub, gen) && |pub| >= 2 && forall g :: g in kept ==> g < |pub|
    ensures pub[|pub| - 2] != pub[|pub| - 1] ==> FirstOfItsKind(pub, kept, |pub| - 1)
    ensures |pub| - 2 in kept ==> (FirstOfItsKind(pub, kept, |pub| - 1) <==> pub[|pub| - 2] != pub[|pub| - 1])
  {
    var n := |pub| - 1;
    forall h | h in kept && h < n ensures LexLeq(pub[h], pub[n - 1]) && LexLeq(pub[n - 1], pub[n]) {}
  }

  lemma LastNotDropped(st: State, id: SubId)
    requires Reachable(st) && Quiet(st, id) && st.subs[id].popped != []
    ensures var p := st.subs[id].popped; !p[|p| - 1].dropped
  {
    hide Fold, AcceptedOk, PhaseOk, QueueOk;
    ReachableInv(st);
    assert SubOk(st.pub, st.fan, id, st.subs[id]);
    assert forall g: nat :: !Busy(st.fan, g, id);
  }

  // ---------- Chains ----------

  /** xs is ys with some elements left out; ix says which ones are kept. */
  ghost predicate SubsequenceAt(ix: seq<nat>, xs: seq<nat>, ys: seq<nat>) {
    && |ix| == |xs| && StrictlyIncreasing(ix)
    && forall i :: 0 <= i < |ix| ==> ix[i] < |ys| && xs[i] == ys[ix[i]]
  }

  ghost predicate Subsequence(xs: seq<nat>, ys: seq<nat>) { exists ix :: SubsequenceAt(ix, xs, ys) }

  lemma {:induction false} SentIncreases(pub: seq<Group>, popped: seq<Pop>)
    requires NonDecreasing(Kept(popped))
    ensures var sent := Fold(pub, popped).1;
            StrictlyIncreasing(sent) && forall g :: g in sent ==> g in Kept(popped)
    ensures var r := Fold(pub, popped);
            r.1 != [] ==> r.0.started && GroupAt(pub, r.1[|r.1| - 1]) == Group(r.0.seqNo, r.0.gen)
    decreases |popped|
  {
    if popped != [] {
      var init, p := popped[..|popped| - 1], popped[|popped| - 1];
      assert p.dropped || Kept(popped) == Kept(init) + [p.entry.gid];
      assert Kept(init) == Kept(popped)[..|Kept(init)|];
      SentIncreases(pub, init);
      var r, g := Fold(pub, init), p.entry.gid;
      if !p.dropped && !Stale(r.0, GroupAt(pub, g)) && r.1 != [] {
        var l := r.1[|r.1| - 1];
        assert l in Kept(init);
        var i :| 0 <= i < |Kept(init)| && Kept(init)[i] == l;
        assert Kept(popped)[i] == l && Kept(popped)[|Kept(init)|] == g;
        assert l != g;
      }
    }
  }

  /** Each hop leaves groups out and changes nothing else. */
  lemma HopIsSubsequence(st: State, id: SubId)
    requires Reachable(st) && id in st.subs && InOrder(st, id)
    ensures Subsequence(Delivered(st, id), Published(st))
  {
    hide SubsequenceAt, Reachable, InOrder, Delivered, Published;
    HopSubsequenceAt(st, id);
  }

  /** One relay of a chain: its track's state, and the subscriber that is the next relay's upstream
      connection. The connection may be a late join, but it has been offered something. */
  datatype Relayed = Relayed(st: State, id: SubId)

  ghost predicate HopOk(r: Relayed) {
    && Reachable(r.st) && r.id in r.st.subs && Quiet(r.st, r.id) && InOrder(r.st, r.id)
    && FirstOffered(r.st.subs[r.id]) < |r.st.pub|
  }

  /** Each relay publishes, in order, what the one before it delivered. */
  ghost predicate Chain(relays: seq<Relayed>) {
    && (forall i :: 0 <= i < |relays| ==> HopOk(relays[i]))
    && forall i :: 0 < i < |relays| ==> Published(relays[i].st) == Delivered(relays[i - 1].st, relays[i - 1].id)
  }

  function Outcome(r: Relayed): seq<nat>
    requires r.id in r.st.subs
  {
    Delivered(r.st, r.id)
  }

  /** A chain of any number of relays, each connected from the start and with no queue drops, delivers exactly
      the published sequence with adjacent repeats merged: no pattern of publisher restarts can starve a region
      behind it. */
  lemma {:induction false} ChainDelivers(relays: seq<Relayed>)
    requires relays != [] && Chain(relays)
    requires forall i :: 0 <= i < |relays| ==>
               NoDrops(relays[i].st, relays[i].id) && FirstOffered(relays[i].st.subs[relays[i].id]) == 0
    ensures Outcome(relays[|relays| - 1]) == Collapse(Published(relays[0].st))
    decreases |relays|
  {
    hide Delivered, Published, Collapse, Reachable, Quiet, InOrder, NoDrops;
    var last := relays[|relays| - 1];
    assert HopOk(last);
    HopDelivers(last.st, last.id);
    assert Published(last.st)[0..] == Published(last.st);
    if |relays| > 1 {
      var init := relays[..|relays| - 1];
      ChainDelivers(init);
      CollapseTwice(Published(relays[0].st));
      assert Published(last.st) == Outcome(init[|init| - 1]);
    }
  }

  /** The groups at the end of a chain, each as its position in what the first relay published. */
  function Origins(relays: seq<Relayed>): seq<nat>
    requires forall i :: 0 <= i < |relays| ==> relays[i].id in relays[i].st.subs
  {
    if relays == [] then []
    else
      var last := relays[|relays| - 1];
      var sent := last.st.subs[last.id].sent;
      if |relays| == 1 then sent else Picked(Origins(relays[..|relays| - 1]), sent)
  }

  function Picked(xs: seq<nat>, ix: seq<nat>): (r: seq<nat>)
    ensures |r| == |ix|
  {
    seq(|ix|, i requires 0 <= i < |ix| => if ix[i] < |xs| then xs[ix[i]] else 0)
  }

  lemma PickedSubsequence(ix: seq<nat>, iy: seq<nat>, xs: seq<nat>, ys: seq<nat>, zs: seq<nat>)
    requires SubsequenceAt(ix, xs, ys) && SubsequenceAt(iy, ys, zs)
    ensures SubsequenceAt(Picked(iy, ix), xs, zs) && |ix| == |xs| && |iy| == |ys|
    ensures xs != [] && ys != [] && zs != [] ==>
              (Picked(iy, ix)[|xs| - 1] == |zs| - 1 <==> ix[|xs| - 1] == |ys| - 1 && iy[|ys| - 1] == |zs| - 1)
  {
    if xs != [] && ys != [] && zs != [] {
      var k := ix[|xs| - 1];
      if k < |ys| - 1 { assert iy[k] < iy[|ys| - 1] < |zs|; }
    }
  }

  lemma DeliveredAt(st: State, id: SubId)
    requires id in st.subs
    ensures var sent := st.subs[id].sent;
            && |Delivered(st, id)| == |sent| && |Published(st)| == |st.pub|
            && forall i :: 0 <= i < |sent| && sent[i] < |st.pub| ==> Delivered(st, id)[i] == Published(st)[sent[i]]
  {
  }

  lemma HopSubsequenceAt(st: State, id: SubId)
    requires Reachable(st) && id in st.subs && InOrder(st, id)
    ensures SubsequenceAt(st.subs[id].sent, Delivered(st, id), Published(st))
  {
    hide Inv, Reachable, Fold, Collapse, Kept, NonDecreasing, Groups;
    ReachableInv(st);
    FoldIsSent(st, id);
    var s := st.subs[id];
    HopCollapsesKept(st, id);
    SentIncreases(st.pub, s.popped);
    DeliveredAt(st, id);
    forall i | 0 <= i < |s.sent|
      ensures s.sent[i] < |st.pub|
    {
      SentWasOffered(st, id, s.sent[i]);
    }
  }

  /** With drops and late joins at any relays, the chain delivers a subsequence of what was published, and its last
      number is the newest published, through any restarts. Its last group is the newest group itself if and only
      if every relay sent on the newest group it had; NewestIsSentIff says when a relay does. */
  lemma {:induction false} ChainReachesNewest(relays: seq<Relayed>)
    requires relays != [] && Chain(relays)
    ensures var out, pub := Outcome(relays[|relays| - 1]), Published(relays[0].st);
            var from := Origins(relays);
            && SubsequenceAt(from, out, pub) && out != [] && pub != [] && out[|out| - 1] == pub[|pub| - 1]
            && |from| == |out| && (from[|out| - 1] == |pub| - 1
                <==> AllNewest(relays))
    decreases |relays|
  {
    hide *;
    ChainLast(relays);
    var last := relays[|relays| - 1];
    HopFacts(last);
    OriginsStep(relays);
    AllNewestSplit(relays);
    if |relays| > 1 {
      ChainInit(relays);
      var init := relays[..|relays| - 1];
      ChainReachesNewest(init);
      PickedSubsequence(last.st.subs[last.id].sent, Origins(init),
                        Outcome(last), Published(last.st), Published(relays[0].st));
    }
  }

  lemma ChainLast(relays: seq<Relayed>)
    requires relays != [] && Chain(relays)
    ensures HopOk(relays[|relays| - 1]) && forall i :: 0 <= i < |relays| ==> relays[i].id in relays[i].st.subs
  {
    hide Delivered, Published, Reachable, Quiet, InOrder, FirstOffered;
  }

  lemma OriginsStep(relays: seq<Relayed>)
    requires relays != [] && forall i :: 0 <= i < |relays| ==> relays[i].id in relays[i].st.subs
    ensures var last := relays[|relays| - 1];
            var sent := last.st.subs[last.id].sent;
            Origins(relays) == if |relays| == 1 then sent else Picked(Origins(relays[..|relays| - 1]), sent)
  {
  }

  /** Every relay of the chain sent on the newest group it had. */
  predicate AllNewest(relays: seq<Relayed>)
    requires forall i :: 0 <= i < |relays| ==> relays[i].id in relays[i].st.subs
  {
    forall i :: 0 <= i < |relays| ==> NewestSent(relays[i].st, relays[i].id)
  }

  lemma AllNewestSplit(relays: seq<Relayed>)
    requires relays != [] && forall i :: 0 <= i < |relays| ==> relays[i].id in relays[i].st.subs
    ensures var init, last := relays[..|relays| - 1], relays[|relays| - 1];
            && (AllNewest(relays) <==> AllNewest(init) && NewestSent(last.st, last.id))
            && (|relays| == 1 ==> AllNewest(init))
  {
    hide NewestSent;
    var init, n := relays[..|relays| - 1], |relays| - 1;
    assert forall i :: 0 <= i < n ==> init[i] == relays[i];
  }

  lemma ChainInit(relays: seq<Relayed>)
    requires |relays| > 1 && Chain(relays)
    ensures var init, last := relays[..|relays| - 1], relays[|relays| - 1];
            && Chain(init) && init[0] == relays[0] && (forall i :: 0 <= i < |init| ==> init[i].id in init[i].st.subs)
            && Published(last.st) == Outcome(init[|init| - 1])
  {
    hide Delivered, Published, Reachable, Quiet, InOrder, FirstOffered;
  }

  lemma HopFacts(r: Relayed)
    requires HopOk(r)
    ensures var out, pub := Outcome(r), Published(r.st);
            var sent := r.st.subs[r.id].sent;
            && SubsequenceAt(sent, out, pub) && |sent| == |out| && out != [] && pub != []
            && out[|out| - 1] == pub[|pub| - 1]
            && (NewestSent(r.st, r.id) <==> sent[|out| - 1] == |pub| - 1)
  {
    hide Delivered, Reachable, Quiet, InOrder;
    HopSubsequenceAt(r.st, r.id);
    NewestIsDelivered(r.st, r.id);
  }
}
