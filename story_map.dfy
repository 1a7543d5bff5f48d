/**
 * Where the player stands in the story: the last segment reached and the
 * next one ahead, looked up in the level-sorted story table.
 */
module StoryMap {
  import opened Wrappers
  import opened GameLogic

  /** `segs.slice().reverse().find(s => level >= s.level)`, as an index. */
  function LastReached(segs: seq<StorySegment>, level: int): (r: Option<nat>)
    ensures r.Some? ==> r.value < |segs| && segs[r.value].level <= level
                        && forall j :: r.value < j < |segs| ==> segs[j].level > level
    ensures r.None? ==> forall j :: 0 <= j < |segs| ==> segs[j].level > level
  {
    if segs == [] then None
    else if segs[|segs| - 1].level <= level then Some(|segs| - 1)
    else LastReached(segs[..|segs| - 1], level)
  }

  /** `segs.find(s => s.level > level)`, as an index. */
  function FirstAbove(segs: seq<StorySegment>, level: int): (r: Option<nat>)
    ensures r.Some? ==> r.value < |segs| && segs[r.value].level > level
                        && forall j :: 0 <= j < r.value ==> segs[j].level <= level
    ensures r.None? ==> forall j :: 0 <= j < |segs| ==> segs[j].level <= level
  {
    if segs == [] then None
    else if segs[0].level > level then Some(0)
    else match FirstAbove(segs[1..], level)
      case None => None
      case Some(i) => Some(i + 1)
  }

  /** Index of the current segment, falling back to the first one. */
  function CurrentIndex(level: int): (k: nat)
    ensures k < |StorySegments|
  {
    match LastReached(StorySegments, level)
    case None => 0
    case Some(i) => i
  }

  /** `segments.slice().reverse().find(...) || segments[0]`. */
  function CurrentSegment(level: int): (seg: StorySegment)
    ensures seg in StorySegments
    ensures level >= 1 ==> seg.level <= level
  {
    StorySegmentsSorted();
    StorySegments[CurrentIndex(level)]
  }

  /** `segments.find(s => s.level > level)`. */
  function NextSegment(level: int): (next: Option<StorySegment>)
    ensures next.Some? ==> next.value in StorySegments && next.value.level > level
    ensures next.None? ==> forall j :: 0 <= j < |StorySegments| ==> StorySegments[j].level <= level
  {
    match FirstAbove(StorySegments, level)
    case None => None
    case Some(i) => Some(StorySegments[i])
  }

  /**
   * From level 1 on, the current segment is reached and no later one is;
   * below level 1 the lookup falls back to the first segment.
   */
  lemma CurrentIsLastReached(level: int)
    ensures level >= 1 ==> CurrentSegment(level).level <= level
                           && forall j :: CurrentIndex(level) < j < |StorySegments| ==> StorySegments[j].level > level
    ensures level < 1 ==> CurrentIndex(level) == 0
  {
    StorySegmentsSorted();
    if level >= 1 {
      assert StorySegments[0].level <= level;
    }
  }

  /** There is a next segment exactly while the level is below the final one at 500. */
  lemma NextAbsentIffFinal(level: int)
    ensures NextSegment(level).None? <==> level >= 500
  {
    StorySegmentsSorted();
    if level < 500 {
      assert StorySegments[7].level > level;
    }
  }

  /** The next segment is the one right after the current one, and the level lies between them. */
  lemma CurrentPrecedesNext(level: int)
    requires level >= 1 && NextSegment(level).Some?
    ensures CurrentSegment(level).level <= level < NextSegment(level).value.level
    ensures FirstAbove(StorySegments, level) == Some(CurrentIndex(level) + 1)
  {
    StorySegmentsSorted();
    assert StorySegments[0].level <= level;
    var k := CurrentIndex(level);
    var n := FirstAbove(StorySegments, level).value;
    assert StorySegments[n].level > level;
    assert n > k;
    assert StorySegments[k + 1].level > level;
    assert n == k + 1;
  }
}
