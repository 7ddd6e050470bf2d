/**
 * Styles of the leaderboard ranks: the round badge (gold, silver, bronze, then
 * one plain style) and the gradient of the progress bar, which cycles through
 * eight colours.
 */
module RankStyle {

  const GoldBadge: string := "bg-linear-to-r from-amber-400 to-orange-500 text-white"
  const SilverBadge: string := "bg-linear-to-r from-gray-300 to-gray-400 text-white"
  const BronzeBadge: string := "bg-linear-to-r from-amber-600 to-amber-700 text-white"
  const PlainBadge: string := "bg-gray-100 text-gray-600 dark:bg-gray-800 dark:text-gray-400"

  /** The bar gradients, in the order they are handed out. */
  const BarColors: seq<string> := [
    "from-amber-400 to-orange-500",
    "from-gray-300 to-gray-400",
    "from-amber-600 to-amber-700",
    "from-pink-400 to-pink-600",
    "from-pink-300 to-rose-500",
    "from-cyan-400 to-blue-500",
    "from-green-400 to-emerald-500",
    "from-rose-400 to-pink-500"
  ]

  /** `getRankBadgeClass`. */
  function RankBadgeClass(index: int): string {
    if index == 0 then GoldBadge
    else if index == 1 then SilverBadge
    else if index == 2 then BronzeBadge
    else PlainBadge
  }

  /** `getRankBarColor`, for the non-negative ranks it is called with. */
  function RankBarColor(index: nat): (color: string)
    ensures color in BarColors
  {
    BarColors[index % |BarColors|]
  }

  /** The three podium ranks get three different badges, and every other rank
      gets the plain one, which differs from all three. */
  lemma BadgeClasses(index: int)
    ensures RankBadgeClass(0) == GoldBadge
    ensures RankBadgeClass(1) == SilverBadge
    ensures RankBadgeClass(2) == BronzeBadge
    ensures GoldBadge != SilverBadge && SilverBadge != BronzeBadge && GoldBadge != BronzeBadge
    ensures index !in {0, 1, 2} ==> RankBadgeClass(index) == PlainBadge
    ensures RankBadgeClass(index) == PlainBadge <==> index !in {0, 1, 2}
  {
  }

  /** The bar colours repeat with period eight. */
  lemma BarColorPeriodic(index: nat)
    ensures RankBarColor(index + 8) == RankBarColor(index)
  {
  }

  /** The badge of a podium rank is the bar gradient framed by the badge's
      background and text classes. */
  predicate FramesGradient(badge: string, gradient: string) {
    badge == "bg-linear-to-r " + gradient + " text-white"
  }

  lemma GoldFramesFirstColor()
    ensures FramesGradient(GoldBadge, BarColors[0])
  {
  }

  lemma SilverFramesSecondColor()
    ensures FramesGradient(SilverBadge, BarColors[1])
  {
  }

  lemma BronzeFramesThirdColor()
    ensures FramesGradient(BronzeBadge, BarColors[2])
  {
  }

  /** For the podium ranks, the bar gradient is the gradient of the badge. */
  lemma PodiumBarMatchesBadge(index: nat)
    requires index < 3
    ensures FramesGradient(RankBadgeClass(index), RankBarColor(index))
  {
    assert index % 8 == index;
    if index == 0 {
      GoldFramesFirstColor();
    } else if index == 1 {
      SilverFramesSecondColor();
    } else {
      BronzeFramesThirdColor();
    }
  }
}
