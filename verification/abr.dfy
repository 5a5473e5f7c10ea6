/** internal/moqclient/pub.go:39-40 and 146-178: the publisher's bitrate ladder, with hysteresis. */
module Abr {

  const LADDER: seq<int> := [250, 500, 1000, 2500, 5000]

  /** adapt's variables; slow and fast count verdicts in a row since the last move or the session's start. */
  datatype Rate = Rate(tier: nat, slow: nat, fast: nat, kbps: int)

  /** The tier a publisher starts on: that of its configured bitrate, else the lowest. */
  function StartTier(kbps: int): (t: nat)
    ensures t < |LADDER| && (LADDER[t] == kbps || (t == 0 && kbps !in LADDER))
  {
    if kbps == 5000 then 4 else if kbps == 2500 then 3 else if kbps == 1000 then 2 else if kbps == 500 then 1 else 0
  }

  function Started(tier: nat): Rate
    requires tier < |LADDER|
  {
    Rate(tier, 0, 0, LADDER[tier])
  }

  predicate OnLadder(r: Rate) { r.tier < |LADDER| && r.kbps == LADDER[r.tier] }

  /** One group's verdict counted; ratio is the time its writes took over the group's duration. */
  function Counted(r: Rate, ratio: real): Rate {
    if ratio > 0.5 then r.(slow := r.slow + 1, fast := 0)
    else if ratio < 0.1 then r.(fast := r.fast + 1, slow := 0)
    else r.(slow := 0, fast := 0)
  }

  function SteppedDown(r: Rate): Rate
    requires OnLadder(r)
  {
    if r.slow >= 2 && r.tier > 0 then Rate(r.tier - 1, 0, r.fast, LADDER[r.tier - 1]) else r
  }

  function SteppedUp(r: Rate): Rate
    requires OnLadder(r)
  {
    if r.fast >= 10 && r.tier < |LADDER| - 1 then Rate(r.tier + 1, r.slow, 0, LADDER[r.tier + 1]) else r
  }

  function Adapted(r: Rate, ratio: real): (q: Rate)
    requires OnLadder(r)
    ensures OnLadder(q)
  {
    SteppedUp(SteppedDown(Counted(r, ratio)))
  }

  // ---------- Runs ----------

  /** A new session, which forgets the counts, or a group's verdict. */
  datatype Event = Session | Verdict(ratio: real)

  function Step(r: Rate, e: Event): (q: Rate)
    requires OnLadder(r)
    ensures OnLadder(q)
  {
    if e.Session? then r.(slow := 0, fast := 0) else Adapted(r, e.ratio)
  }

  function Run(start: nat, events: seq<Event>): (r: Rate)
    requires start < |LADDER|
    ensures OnLadder(r)
  {
    if events == [] then Started(start) else Step(Run(start, events[..|events| - 1]), events[|events| - 1])
  }

  /** How often a run stepped up, or down. */
  function Ups(start: nat, events: seq<Event>): nat
    requires start < |LADDER|
  {
    if events == [] then 0
    else
      var before := events[..|events| - 1];
      Ups(start, before) + if Run(start, events).tier > Run(start, before).tier then 1 else 0
  }

  function Downs(start: nat, events: seq<Event>): nat
    requires start < |LADDER|
  {
    if events == [] then 0
    else
      var before := events[..|events| - 1];
      Downs(start, before) + if Run(start, events).tier < Run(start, before).tier then 1 else 0
  }

  function Verdicts(events: seq<Event>): nat {
    if events == [] then 0
    else Verdicts(events[..|events| - 1]) + if events[|events| - 1].Verdict? then 1 else 0
  }

  /** How many of the session's latest verdicts in a row meant headroom. */
  function Headroom(events: seq<Event>): nat {
    if events == [] || events[|events| - 1].Session? || events[|events| - 1].ratio >= 0.1 then 0
    else 1 + Headroom(events[..|events| - 1])
  }

  /** How many of the session's latest verdicts in a row meant starvation. */
  function Starvation(events: seq<Event>): nat {
    if events == [] || events[|events| - 1].Session? || events[|events| - 1].ratio <= 0.5 then 0
    else 1 + Starvation(events[..|events| - 1])
  }

  /** The cost of one step's moves, in verdicts. */
  lemma StepCost(r: Rate, e: Event)
    requires OnLadder(r) && !(r.fast > 0 && r.slow > 0)
    ensures var q := Step(r, e);
            && r.tier - 1 <= q.tier <= r.tier + 1 && !(q.fast > 0 && q.slow > 0)
            && (q.tier > r.tier ==>
                  10 + q.slow + q.fast <= r.slow + r.fast + 1 && r.fast >= 9 && e.Verdict? && e.ratio < 0.1)
            && (q.tier < r.tier ==>
                  2 + q.slow + q.fast <= r.slow + r.fast + 1 && r.slow >= 1 && e.Verdict? && e.ratio > 0.5)
            && q.slow + q.fast <= r.slow + r.fast + if e.Verdict? then 1 else 0
  {
    hide LADDER;
  }

  lemma {:induction false} CountsAreTrailing(start: nat, events: seq<Event>)
    requires start < |LADDER|
    ensures var r := Run(start, events);
            && r.fast <= Headroom(events) && r.slow <= Starvation(events) && !(r.fast > 0 && r.slow > 0)
            && (r.tier > 0 ==> r.slow < 2) && (r.tier < |LADDER| - 1 ==> r.fast < 10)
  {
    if events != [] {
      CountsAreTrailing(start, events[..|events| - 1]);
    }
  }

  /** A step up follows ten verdicts of headroom in a row, a step down two of starvation, and either is of one tier. */
  lemma MovesAreEarned(start: nat, events: seq<Event>)
    requires start < |LADDER| && events != []
    ensures var was, now := Run(start, events[..|events| - 1]).tier, Run(start, events).tier;
            && was - 1 <= now <= was + 1
            && (now > was ==> Headroom(events) >= 10) && (now < was ==> Starvation(events) >= 2)
  {
    hide Step;
    CountsAreTrailing(start, events[..|events| - 1]);
    StepCost(Run(start, events[..|events| - 1]), events[|events| - 1]);
  }

  /** Hysteresis over any number of sessions: the moves account for the tier, and every step up uses up ten verdicts
      of its own and every step down two. */
  lemma {:induction false} Hysteresis(start: nat, events: seq<Event>)
    requires start < |LADDER|
    ensures var r := Run(start, events);
            && r.tier - start == Ups(start, events) - Downs(start, events)
            && 10 * Ups(start, events) + 2 * Downs(start, events) + r.slow + r.fast <= Verdicts(events)
  {
    hide Step, Headroom, Starvation;
    if events != [] {
      Hysteresis(start, events[..|events| - 1]);
      CountsAreTrailing(start, events[..|events| - 1]);
      StepCost(Run(start, events[..|events| - 1]), events[|events| - 1]);
    }
  }

  // ---------- When it moves ----------

  /** How many verdicts of headroom there have been in a row since the last move or the start of the session. */
  function HeadroomRow(start: nat, events: seq<Event>): nat
    requires start < |LADDER|
  {
    if events == [] then 0
    else
      var before, e := events[..|events| - 1], events[|events| - 1];
      if e.Session? || Run(start, events).tier != Run(start, before).tier || e.ratio >= 0.1 then 0
      else HeadroomRow(start, before) + 1
  }

  /** The same for starvation. */
  function StarvationRow(start: nat, events: seq<Event>): nat
    requires start < |LADDER|
  {
    if events == [] then 0
    else
      var before, e := events[..|events| - 1], events[|events| - 1];
      if e.Session? || Run(start, events).tier != Run(start, before).tier || e.ratio <= 0.5 then 0
      else StarvationRow(start, before) + 1
  }

  /** One step, for counts as they occur. */
  lemma StepMoves(r: Rate, e: Event)
    requires OnLadder(r) && !(r.fast > 0 && r.slow > 0) && (r.tier > 0 ==> r.slow < 2) && (r.tier < 4 ==> r.fast < 10)
    ensures var q := Step(r, e);
            && (q.tier == r.tier + 1 <==> e.Verdict? && e.ratio < 0.1 && r.fast == 9 && r.tier < 4)
            && (q.tier + 1 == r.tier <==> e.Verdict? && e.ratio > 0.5 && r.slow == 1 && r.tier > 0)
            && (q.tier == r.tier || q.tier == r.tier + 1 || q.tier + 1 == r.tier)
            && q.fast == (if e.Session? || q.tier != r.tier || e.ratio >= 0.1 then 0 else r.fast + 1)
            && q.slow == if e.Session? || q.tier != r.tier || e.ratio <= 0.5 then 0 else r.slow + 1
  {
    assert |LADDER| == 5;
    hide LADDER;
  }

  /** The counts are those rows. */
  lemma {:induction false} CountsAreRows(start: nat, events: seq<Event>)
    requires start < |LADDER|
    ensures var r := Run(start, events); r.fast == HeadroomRow(start, events) && r.slow == StarvationRow(start, events)
  {
    assert |LADDER| == 5;
    hide Step, Headroom, Starvation, LADDER;
    if events != [] {
      var before := events[..|events| - 1];
      CountsAreRows(start, before);
      CountsAreTrailing(start, before);
      StepMoves(Run(start, before), events[|events| - 1]);
    }
  }

  /** A verdict steps up if and only if it is the tenth of headroom in a row since the last move or the start of the
      session and the tier is not the top one; and down if and only if it is the second of starvation and the tier
      is not the lowest. */
  lemma MovesIff(start: nat, events: seq<Event>, e: Event)
    requires start < |LADDER|
    ensures var was, now := Run(start, events).tier, Run(start, events + [e]).tier;
            && (now == was + 1
                <==> e.Verdict? && e.ratio < 0.1 && HeadroomRow(start, events) + 1 == 10 && was < |LADDER| - 1)
            && (now + 1 == was <==> e.Verdict? && e.ratio > 0.5 && StarvationRow(start, events) + 1 == 2 && was > 0)
            && (now == was || now == was + 1 || now + 1 == was)
  {
    hide Step, Headroom, Starvation, HeadroomRow, StarvationRow;
    var all := events + [e];
    assert all[..|all| - 1] == events;
    CountsAreRows(start, events);
    CountsAreTrailing(start, events);
    StepMoves(Run(start, events), e);
  }

  predicate AllHeadroom(events: seq<Event>) {
    forall i :: 0 <= i < |events| ==> events[i].Verdict? && events[i].ratio < 0.1
  }

  predicate AllStarved(events: seq<Event>) {
    forall i :: 0 <= i < |events| ==> events[i].Verdict? && events[i].ratio > 0.5
  }

  /** Under lasting headroom the ladder is climbed a tier every ten groups, to its top. */
  lemma {:induction false} HeadroomClimbs(start: nat, events: seq<Event>)
    requires start < |LADDER| && AllHeadroom(events)
    ensures var up, r := |events| / 10, Run(start, events);
            && r.tier == (if start + up < 4 then start + up else 4)
            && (r.tier < 4 ==> r.fast == |events| % 10) && (r.tier > 0 ==> r.slow < 2)
            && (r.slow > 0 ==> r.fast == 0) && (events != [] ==> r.slow == 0)
  {
    assert |LADDER| == 5;
    hide Step, Headroom, Starvation, LADDER;
    if events != [] {
      var before := events[..|events| - 1];
      HeadroomClimbs(start, before);
      CountsAreTrailing(start, before);
      StepMoves(Run(start, before), events[|events| - 1]);
    }
  }

  /** Under lasting starvation it is descended a tier every two groups, to its foot. */
  lemma {:induction false} StarvationDescends(start: nat, events: seq<Event>)
    requires start < |LADDER| && AllStarved(events)
    ensures var down, r := |events| / 2, Run(start, events);
            && r.tier == (if start > down then start - down else 0)
            && (r.tier > 0 ==> r.slow == |events| % 2) && (events != [] ==> r.fast == 0)
  {
    assert |LADDER| == 5;
    hide Step, Headroom, Starvation, LADDER;
    if events != [] {
      var before := events[..|events| - 1];
      StarvationDescends(start, before);
      CountsAreTrailing(start, before);
      StepMoves(Run(start, before), events[|events| - 1]);
    }
  }
}
