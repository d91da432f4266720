/** The client's badge display (frontend/script.js): the progress bar
    towards the next badge, and the notifications shown for badges a
    completed task has just earned. */
module ClientBadges {
  import opened Common
  import opened Catalog

  /** The position of the first badge above the points, or `|bs|`. */
  function AboveIndex(bs: seq<Badge>, points: int): (k: nat)
    ensures k <= |bs|
    ensures forall j :: 0 <= j < k ==> bs[j].threshold <= points
    ensures k < |bs| ==> points < bs[k].threshold
  {
    if bs == [] || points < bs[0].threshold then 0
    else 1 + AboveIndex(bs[1..], points)
  }

  /** `bs.find(badge => points < badge.points)`. */
  function FirstAbove(bs: seq<Badge>, points: int): (r: Option<Badge>)
    ensures r.Some? ==> r.value in bs && points < r.value.threshold
    ensures r.None? <==> forall b :: b in bs ==> b.threshold <= points
    ensures r.Some? ==> exists i :: 0 <= i < |bs| && bs[i] == r.value &&
                          forall j :: 0 <= j < i ==> bs[j].threshold <= points
  {
    var k := AboveIndex(bs, points);
    if k < |bs| then Some(bs[k]) else None
  }

  /** The position of the first badge at or below the points, or `|bs|`. */
  function AtOrBelowIndex(bs: seq<Badge>, points: int): (k: nat)
    ensures k <= |bs|
    ensures forall j :: 0 <= j < k ==> points < bs[j].threshold
    ensures k < |bs| ==> bs[k].threshold <= points
  {
    if bs == [] || bs[0].threshold <= points then 0
    else 1 + AtOrBelowIndex(bs[1..], points)
  }

  /** `bs.find(badge => badge.points <= points)`. */
  function FirstAtOrBelow(bs: seq<Badge>, points: int): (r: Option<Badge>)
    ensures r.Some? ==> r.value in bs && r.value.threshold <= points
    ensures r.None? <==> forall b :: b in bs ==> points < b.threshold
    ensures r.Some? ==> exists i :: 0 <= i < |bs| && bs[i] == r.value &&
                          forall j :: 0 <= j < i ==> points < bs[j].threshold
  {
    var k := AtOrBelowIndex(bs, points);
    if k < |bs| then Some(bs[k]) else None
  }

  /** `nextBadge`: the first badge above the points, or the last badge once
      every threshold is reached. */
  function NextBadge(points: int): (b: Badge)
    ensures b in Badges
    ensures points < b.threshold || b == Badges[|Badges| - 1]
  {
    match FirstAbove(Badges, points)
    case Some(b) => b
    case None => Badges[|Badges| - 1]
  }

  /** `previousBadgePoints`, as written: the threshold of the FIRST badge at
      or below the points, or 0 if there is none. */
  function PreviousBadgePoints(points: int): (p: int)
    ensures p == 0 || (p <= points && exists b :: b in Badges && b.threshold == p)
  {
    match FirstAtOrBelow(Badges, points)
    case Some(b) => b.threshold
    case None => 0
  }

  /** The next badge is the cheapest one still ahead, and Planet Protector
      once 500 points are reached. */
  lemma NextBadgeIsCheapestAhead(points: int)
    ensures points < 500 ==>
              && points < NextBadge(points).threshold
              && (forall b :: b in Badges && points < b.threshold ==> NextBadge(points).threshold <= b.threshold)
    ensures 500 <= points ==> NextBadge(points) == Badges[4] && NextBadge(points).name == "Planet Protector"
  {
    BadgeLadder();
    var k := AboveIndex(Badges, points);
    if points < 500 {
      assert k < |Badges|;
      forall b | b in Badges && points < b.threshold
        ensures NextBadge(points).threshold <= b.threshold
      {
        var m :| 0 <= m < |Badges| && Badges[m] == b;
        assert k <= m;
      }
    }
  }

  /** With the ladder in ascending order, the first threshold at or below
      the points is always Green Sprout's: previous is 0 below 50 and 50
      from there on, whatever the points. */
  lemma PreviousAsWritten(points: int)
    ensures PreviousBadgePoints(points) == if points < 50 then 0 else 50
  {
    BadgeLadder();
    if points < 50 {
      assert FirstAtOrBelow(Badges, points).None?;
    }
  }

  /** The threshold of the highest badge already reached, or 0: the figure a
      progress bar between consecutive badges would start from. */
  function HighestReached(points: int): (t: int)
    ensures t == 0 || exists b :: b in Badges && b.threshold == t
    ensures t <= points || t == 0
    ensures forall b :: b in Badges && b.threshold <= points ==> b.threshold <= t
  {
    BadgeThresholds();
    if points >= 500 then 500
    else if points >= 300 then 300
    else if points >= 200 then 200
    else if points >= 100 then 100
    else if points >= 50 then 50
    else 0
  }

  /** The code's previous threshold agrees with the highest badge reached
      exactly while fewer than 100 points are held. */
  lemma PreviousIsHighestOnlyBelow100(points: int)
    ensures PreviousBadgePoints(points) == HighestReached(points) <==> points < 100
  {
    PreviousAsWritten(points);
  }

  /** `pointsToNextBadge`: never zero, so the percentage is always defined. */
  function Span(points: int): (s: int)
    ensures s > 0
  {
    PreviousAsWritten(points);
    NextBadgeIsCheapestAhead(points);
    BadgeLadder();
    assert points < 500 ==> Badges[0] in Badges;
    NextBadge(points).threshold - PreviousBadgePoints(points)
  }

  /** `pointsEarned`: the points past the previous threshold as the code
      computes it, that is past 50 from 50 points on. */
  function Earned(points: int): (e: int)
    ensures e == if points < 50 then points else points - 50
    ensures 0 <= points ==> 0 <= e
  {
    PreviousAsWritten(points);
    points - PreviousBadgePoints(points)
  }

  /** `Math.min(pointsEarned / pointsToNextBadge * 100, 100)`: within
      [0, 100] for any non-negative balance, and full from 500 points on. */
  function ProgressWidth(points: int): (w: real)
    ensures 0 <= points ==> 0.0 <= w <= 100.0
    ensures 500 <= points ==> w == 100.0
  {
    PreviousAsWritten(points);
    NextBadgeIsCheapestAhead(points);
    var earned, span := Earned(points), Span(points);
    assert 500 <= points ==> span == 450;
    RatioBounds(earned, span);
    var ratio := earned as real / span as real * 100.0;
    if ratio < 100.0 then ratio else 100.0
  }

  /** The percentage of a positive whole is non-negative for a non-negative
      part and reaches 100 once the part covers the whole. */
  lemma RatioBounds(part: int, whole: int)
    requires whole > 0
    ensures 0 <= part ==> 0.0 <= part as real / whole as real * 100.0
    ensures whole <= part ==> 100.0 <= part as real / whole as real * 100.0
  {
    var q := part as real / whole as real;
    assert q * whole as real == part as real;
  }

  /** The worked example: 120 points show progress towards Nature Champion
      at 200, counted from 50 — 70 of 150 points. */
  lemma ProgressAt120()
    ensures NextBadge(120).name == "Nature Champion"
    ensures PreviousBadgePoints(120) == 50 && Span(120) == 150 && Earned(120) == 70
  {
    PreviousAsWritten(120);
    NextBadgeIsCheapestAhead(120);
    assert FirstAbove(Badges, 120) == Some(Badges[2]);
  }

  /** `userData.badges.filter(badge => !previousBadges.includes(badge))`. */
  function NewBadges(previous: seq<string>, current: seq<string>): (r: seq<string>)
    ensures forall x :: x in r <==> x in current && x !in previous
    ensures |r| <= |current|
  {
    if current == [] then []
    else (if current[0] in previous then [] else [current[0]]) + NewBadges(previous, current[1..])
  }

  /** The filter keeps the order of the current list: it distributes over
      concatenation. */
  lemma {:induction false} NewBadgesAppend(previous: seq<string>, a: seq<string>, b: seq<string>)
    ensures NewBadges(previous, a + b) == NewBadges(previous, a) + NewBadges(previous, b)
  {
    if a == [] {
      assert a + b == b;
    } else {
      assert (a + b)[1..] == a[1..] + b;
      NewBadgesAppend(previous, a[1..], b);
    }
  }

  /** A list compared against a superset of itself yields nothing new. */
  lemma {:induction false} NewBadgesNone(previous: seq<string>, current: seq<string>)
    requires forall x :: x in current ==> x in previous
    ensures NewBadges(previous, current) == []
  {
    if current != [] {
      NewBadgesNone(previous, current[1..]);
    }
  }

  /** Appending fresh names to the previous list yields exactly those names,
      in order. */
  lemma {:induction false} NewBadgesOfAppended(previous: seq<string>, added: seq<string>)
    requires forall x :: x in added ==> x !in previous
    ensures NewBadges(previous, previous + added) == added
  {
    NewBadgesAppend(previous, previous, added);
    NewBadgesNone(previous, previous);
    NewBadgesAllNew(previous, added);
  }

  lemma {:induction false} NewBadgesAllNew(previous: seq<string>, added: seq<string>)
    requires forall x :: x in added ==> x !in previous
    ensures NewBadges(previous, added) == added
  {
    if added != [] {
      NewBadgesAllNew(previous, added[1..]);
    }
  }

  const CongratsOpening := "Congratulations! You've earned the \""
  const CongratsClosing := "\" badge!"

  /** The toast text for one newly earned badge: the badge's name stands
      at a fixed position between the fixed opening and closing. */
  function Congratulation(badge: string): (m: string)
    ensures |m| == |CongratsOpening| + |badge| + |CongratsClosing|
    ensures m[|CongratsOpening|..|CongratsOpening| + |badge|] == badge
  {
    CongratsOpening + badge + CongratsClosing
  }

  /** One notification per new badge, in order, each naming its badge; none
      exactly when every current badge was held before. */
  function Notifications(previous: seq<string>, current: seq<string>): (ns: seq<string>)
    ensures |ns| == |NewBadges(previous, current)|
    ensures forall i :: 0 <= i < |ns| ==> ns[i] == Congratulation(NewBadges(previous, current)[i])
    ensures ns == [] <==> forall x :: x in current ==> x in previous
  {
    var earned := NewBadges(previous, current);
    assert earned != [] ==> earned[0] in earned;
    seq(|earned|, i requires 0 <= i < |earned| => Congratulation(earned[i]))
  }
}
