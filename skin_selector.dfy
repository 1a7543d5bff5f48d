/**
 * The story chapter shown in the legend dialog and the unlock flags of the
 * skin gallery.
 */
module SkinSelector {
  import opened GameLogic
  import opened StoryMap

  /** `Array.prototype.indexOf`: the first matching index, or -1. */
  function IndexOf<T(==)>(xs: seq<T>, x: T): (k: int)
    ensures -1 <= k < |xs|
    ensures k == -1 <==> x !in xs
    ensures k >= 0 ==> xs[k] == x && forall j :: 0 <= j < k ==> xs[j] != x
  {
    if xs == [] then -1
    else if xs[0] == x then 0
    else var k := IndexOf(xs[1..], x); if k == -1 then -1 else k + 1
  }

  /** The chapter number shown under the current story. */
  function ChapterNumber(level: int): (c: int)
    ensures 1 <= c <= |StorySegments| && StorySegments[c - 1] == CurrentSegment(level)
  {
    IndexOf(StorySegments, CurrentSegment(level)) + 1
  }

  /** The chapter is the current segment's position, counted from 1, so it lies in 1..8. */
  lemma ChapterInRange(level: int)
    ensures ChapterNumber(level) == CurrentIndex(level) + 1
    ensures 1 <= ChapterNumber(level) <= 8
  {
    StorySegmentsSorted();
    var k := CurrentIndex(level);
    var i := IndexOf(StorySegments, CurrentSegment(level));
    assert i >= 0 && StorySegments[i] == StorySegments[k];
    assert StorySegments[i].level == StorySegments[k].level;
    assert i == k;
  }

  /** `stats.level >= skin.level`. */
  predicate IsUnlocked(skin: AvatarUnlock, level: int) {
    level >= skin.level
  }

  /** The gallery's flags, one per skin in table order. */
  function UnlockFlags(level: int): (flags: seq<bool>)
    ensures |flags| == |AvatarUnlocks|
  {
    seq(|AvatarUnlocks|, i requires 0 <= i < |AvatarUnlocks| => IsUnlocked(AvatarUnlocks[i], level))
  }

  /**
   * The unlocked skins are a prefix of the table: a skin is unlocked only if
   * every earlier one is, and from level 1 on the first one always is.
   */
  lemma UnlocksArePrefix(level: int)
    ensures forall i, j :: 0 <= i < j < |AvatarUnlocks| && UnlockFlags(level)[j] ==> UnlockFlags(level)[i]
    ensures level >= 1 ==> UnlockFlags(level)[0]
  {
    AvatarUnlocksSorted();
  }

  /** Levelling up never locks a skin again. */
  lemma UnlocksMonotone(a: int, b: int)
    requires a <= b
    ensures forall i :: 0 <= i < |AvatarUnlocks| && UnlockFlags(a)[i] ==> UnlockFlags(b)[i]
  {
  }
}
