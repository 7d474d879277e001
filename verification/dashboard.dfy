/**
 * The learner's dashboard (src/pages/Dashboard.tsx): progress within the
 * current level, points still needed for the next one, the level shown, and
 * the badge catalogue with each badge marked earned or not.
 */
module Dashboard {
  import opened Optional
  import Progression

  /** The learner's `profiles` row; `level` may be null. */
  datatype Profile = Profile(fullName: Option<string>, points: int, level: Option<int>)

  /** A row of the `badges` catalogue. */
  datatype Badge = Badge(id: string, name: string, description: string, pointsRequired: int)

  /** The artwork a badge card shows; other badges get the generic award icon. */
  datatype Art = EcoWarrior | PlanetProtector | AwardIcon

  /** What one badge card shows. */
  datatype BadgeCard = BadgeCard(name: string, description: string, earned: bool, art: Art)

  /** JavaScript's `points % 100`: the remainder takes the sign of the
      dividend (truncating division), unlike Dafny's `%`. */
  function JsRemLevel(points: int): (r: int)
    ensures points >= 0 ==> 0 <= r < Progression.PointsPerLevel
    ensures points < 0 ==> -Progression.PointsPerLevel < r <= 0
    ensures (points - r) % Progression.PointsPerLevel == 0
  {
    if points >= 0 then points % Progression.PointsPerLevel
    else -((-points) % Progression.PointsPerLevel)
  }

  /** The progress bar's value, read as an integer: points into the current
      level, or 0 with no profile. */
  function Progress(profile: Option<Profile>): (p: int)
    ensures profile.None? ==> p == 0
    ensures profile.Some? && profile.value.points >= 0 ==> 0 <= p < Progression.PointsPerLevel
    ensures profile.Some? ==> (profile.value.points - p) % Progression.PointsPerLevel == 0
  {
    match profile
    case None => 0
    case Some(pr) => JsRemLevel(pr.points)
  }

  /** "N points to Level ...": with no profile the expression is NaN, which is
      `None` here. */
  function ToNextLevel(profile: Option<Profile>): (n: Option<int>)
    ensures n.None? <==> profile.None?
    ensures profile.Some? && profile.value.points >= 0 ==> 1 <= n.value <= Progression.PointsPerLevel
    ensures n.Some? ==> (profile.value.points + n.value) % Progression.PointsPerLevel == 0
  {
    match profile
    case None => None
    case Some(pr) => Some(Progression.PointsPerLevel - JsRemLevel(pr.points))
  }

  /** `profile?.level || 1`: a missing profile, a null level or level 0 all show 1. */
  function ShownLevel(profile: Option<Profile>): (l: int)
    ensures l != 0
    ensures profile.None? ==> l == 1
    ensures profile.Some? && (profile.value.level.None? || profile.value.level == Some(0)) ==> l == 1
    ensures profile.Some? && profile.value.level.Some? && profile.value.level.value != 0 ==>
              l == profile.value.level.value
  {
    match profile
    case None => 1
    case Some(pr) =>
      match pr.level
      case None => 1
      case Some(v) => if v == 0 then 1 else v
  }

  /** The artwork chosen by badge name. */
  function ArtFor(name: string): Art
  {
    if name == "Eco Warrior" then EcoWarrior
    else if name == "Planet Protector" then PlanetProtector
    else AwardIcon
  }

  /** One card per catalogue badge, in catalogue order, marked earned when its
      id is among the learner's `user_badges` ids. */
  function BadgeCards(badges: seq<Badge>, earnedIds: seq<string>): (cards: seq<BadgeCard>)
    ensures |cards| == |badges|
    ensures forall i :: 0 <= i < |badges| ==>
              && cards[i].name == badges[i].name
              && cards[i].description == badges[i].description
              && cards[i].art == ArtFor(badges[i].name)
              && (cards[i].earned <==> badges[i].id in earnedIds)
  {
    if |badges| == 0 then []
    else
      var b := badges[0];
      [BadgeCard(b.name, b.description, b.id in earnedIds, ArtFor(b.name))] + BadgeCards(badges[1..], earnedIds)
  }

  /** The "Badges Earned" figure: the number of `user_badges` rows. */
  function BadgesEarned(earnedIds: seq<string>): nat
  {
    |earnedIds|
  }

  /** Number of cards shown as earned. */
  function CountEarned(cards: seq<BadgeCard>): nat
  {
    if |cards| == 0 then 0 else (if cards[0].earned then 1 else 0) + CountEarned(cards[1..])
  }

  /** The ids of the catalogue badges. */
  function CatalogueIds(badges: seq<Badge>): set<string>
  {
    if |badges| == 0 then {} else {badges[0].id} + CatalogueIds(badges[1..])
  }

  predicate DistinctBadges(badges: seq<Badge>)
  {
    forall i, j :: 0 <= i < j < |badges| ==> badges[i].id != badges[j].id
  }

  predicate DistinctIds(ids: seq<string>)
  {
    forall i, j :: 0 <= i < j < |ids| ==> ids[i] != ids[j]
  }

  /** With no profile the bar is empty and the level shown is 1. */
  lemma NoProfileDefaults()
    ensures Progress(None) == 0 && ShownLevel(None) == 1 && ToNextLevel(None).None?
  {
  }

  /** With a profile, progress into the level and points to the next level
      add up to one level's worth. */
  lemma ProgressAndRemainderFillALevel(profile: Profile)
    ensures Progress(Some(profile)) + ToNextLevel(Some(profile)).value == Progression.PointsPerLevel
  {
  }

  /** Earning the points the dashboard says are missing lands exactly on the
      next level boundary, and the level computed there is the one announced. */
  lemma NextLevelIsAnnounced(profile: Profile)
    requires profile.points >= 0
    requires profile.level == Some(Progression.Level(profile.points))
    ensures profile.points + ToNextLevel(Some(profile)).value == Progression.PointsPerLevel * Progression.Level(profile.points)
    ensures Progression.Level(profile.points + ToNextLevel(Some(profile)).value) == ShownLevel(Some(profile)) + 1
  {
  }

  /** A catalogue id occurs at some position of the catalogue. */
  lemma {:induction false} CatalogueIdAt(badges: seq<Badge>, x: string)
    requires x in CatalogueIds(badges)
    ensures exists i :: 0 <= i < |badges| && badges[i].id == x
  {
    if badges[0].id != x {
      CatalogueIdAt(badges[1..], x);
      var i :| 0 <= i < |badges| - 1 && badges[1..][i].id == x;
      assert badges[i + 1].id == x;
    }
  }

  lemma IntersectionStep(a: string, rest: set<string>, earned: set<string>)
    requires a !in rest
    ensures |({a} + rest) * earned| == (if a in earned then 1 else 0) + |rest * earned|
  {
    var head := {a} * earned;
    assert ({a} + rest) * earned == head + rest * earned;
    if a in earned {
      assert head == {a};
    } else {
      assert head == {};
    }
  }

  lemma {:induction false} EarnedCardsCountCommonIds(badges: seq<Badge>, earnedIds: seq<string>)
    requires DistinctBadges(badges)
    ensures CountEarned(BadgeCards(badges, earnedIds)) == |CatalogueIds(badges) * (set x | x in earnedIds)|
  {
    var earned := set x | x in earnedIds;
    if |badges| > 0 {
      var rest := badges[1..];
      assert DistinctBadges(rest) by {
        forall i, j | 0 <= i < j < |rest| ensures rest[i].id != rest[j].id {
          assert rest[i] == badges[i + 1] && rest[j] == badges[j + 1];
        }
      }
      EarnedCardsCountCommonIds(rest, earnedIds);
      var cards := BadgeCards(badges, earnedIds);
      assert cards[1..] == BadgeCards(rest, earnedIds);
      assert CountEarned(cards) == (if cards[0].earned then 1 else 0) + CountEarned(cards[1..]);
      if badges[0].id in CatalogueIds(rest) {
        CatalogueIdAt(rest, badges[0].id);
      }
      IntersectionStep(badges[0].id, CatalogueIds(rest), earned);
    }
  }

  lemma {:induction false} DistinctIdsCardinality(ids: seq<string>)
    requires DistinctIds(ids)
    ensures |set x | x in ids| == |ids|
  {
    if |ids| > 0 {
      var rest := ids[1..];
      DistinctIdsCardinality(rest);
      assert (set x | x in ids) == {ids[0]} + (set x | x in rest);
      assert ids[0] !in rest;
    }
  }

  /** When the learner's badge rows name distinct catalogue badges, the
      "Badges Earned" figure equals the number of cards shown as earned. */
  lemma {:induction false} EarnedFigureMatchesCards(badges: seq<Badge>, earnedIds: seq<string>)
    requires DistinctBadges(badges) && DistinctIds(earnedIds)
    requires forall k :: 0 <= k < |earnedIds| ==> earnedIds[k] in CatalogueIds(badges)
    ensures CountEarned(BadgeCards(badges, earnedIds)) == BadgesEarned(earnedIds)
  {
    EarnedCardsCountCommonIds(badges, earnedIds);
    DistinctIdsCardinality(earnedIds);
    assert CatalogueIds(badges) * (set x | x in earnedIds) == (set x | x in earnedIds);
  }
}
