// The streak badge of components/features/spaces/Streak.tsx: its colour
// band, the milestone celebration (whose confetti animation is not
// modelled) and its label.

module StreakBadge {
  import opened Opt
  import opened WebStorage

  const MilestoneKey := "openbook.streak.lastCelebratedMilestone"

  /** The background band of the badge. */
  datatype Band = Yellow | Orange | Red | White

  /** The band a streak falls in: yellow for 7-13, orange for 14-29, red
      for 30-49, white otherwise (50-100 included). */
  function BandOf(streak: int): (b: Band)
    ensures b == Yellow <==> 7 <= streak <= 13
    ensures b == Orange <==> 14 <= streak <= 29
    ensures b == Red <==> 30 <= streak <= 49
    ensures b == White <==> streak < 7 || streak > 49
  {
    if 7 <= streak <= 13 then Yellow
    else if 14 <= streak <= 29 then Orange
    else if 30 <= streak <= 49 then Red
    else if 50 <= streak <= 100 then White
    else White
  }

  /** The class names of each band. */
  function BandClass(b: Band): string
  {
    match b
    case Yellow => "bg-yellow-100 dark:bg-yellow-900/30"
    case Orange => "bg-orange-100 dark:bg-orange-900/30"
    case Red => "bg-red-100 dark:bg-red-900/30"
    case White => "bg-white dark:bg-neutral-900"
  }

  const Milestones: seq<int> := [7, 30, 100]

  /** `milestones.find(m => m === streak)`. */
  function CurrentMilestone(streak: int): (m: Option<int>)
    ensures m.Some? <==> streak == 7 || streak == 30 || streak == 100
    ensures m.Some? ==> m.value == streak
  {
    if streak in Milestones then Some(streak) else None
  }

  /** The last celebrated milestone as `parseInt` reads it, '0' standing in
      for a missing or empty entry. */
  function LastCelebrated(items: map<string, string>): Option<int>
  {
    ParseInt(StoredOr(items, MilestoneKey, "0"))
  }

  /** The guard of the celebration: the streak is a milestone and differs
      from the last one celebrated (NaN differing from everything). */
  predicate ShouldCelebrate(items: map<string, string>, streak: int)
  {
    CurrentMilestone(streak).Some? && LastCelebrated(items) != Some(streak)
  }

  /** The effect run whenever the streak changes: when the guard holds, the
      milestone is recorded and the celebration starts. */
  method CelebrateMilestone(storage: LocalStorage, hasWindow: bool, streak: int) returns (celebrate: bool)
    modifies storage
    ensures celebrate <==> hasWindow && ShouldCelebrate(old(storage.items), streak)
    ensures celebrate ==> storage.items == old(storage.items)[MilestoneKey := IntToString(streak)]
    ensures !celebrate ==> storage.items == old(storage.items)
  {
    var currentMilestone := CurrentMilestone(streak);
    if !hasWindow {
      return false;
    }
    var stored := storage.GetItem(MilestoneKey);
    var lastCelebrated := ParseInt(if stored.Some? && stored.value != "" then stored.value else "0");
    celebrate := currentMilestone.Some? && lastCelebrated != currentMilestone;
    if celebrate {
      storage.SetItem(MilestoneKey, IntToString(currentMilestone.value));
    }
  }

  /** Once a milestone is celebrated it is not celebrated again until
      another milestone has been. */
  lemma NeverTwiceInARow(items: map<string, string>, streak: int)
    requires ShouldCelebrate(items, streak)
    ensures !ShouldCelebrate(items[MilestoneKey := IntToString(streak)], streak)
  {
    ParseIntToString(streak);
  }

  /** After one milestone is celebrated, reaching a different one
      celebrates again. */
  lemma NextMilestoneCelebrated(items: map<string, string>, m1: int, m2: int)
    requires CurrentMilestone(m1).Some? && CurrentMilestone(m2).Some? && m1 != m2
    ensures ShouldCelebrate(items[MilestoneKey := IntToString(m1)], m2)
  {
    ParseIntToString(m1);
  }

  /** The unit of the label: 'day' exactly for a streak of 1. */
  function DayUnit(streak: int): (u: string)
    ensures u == "day" <==> streak == 1
    ensures u == "days" <==> streak != 1
  {
    "day" + (if streak != 1 then "s" else "")
  }

  /** The badge text: the streak, its unit and a flame. */
  function Label(streak: int): string
  {
    IntToString(streak) + " " + DayUnit(streak) + " \U{1F525}"
  }
}
