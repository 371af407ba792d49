/**
 * Editing the discovered chapter list: moving the selected chapter one
 * place up or down (`move_chapter`) and switching it on or off
 * (`toggle_chapter`). The list box selection is part of the state; it
 * always names a position of the list.
 */
module ChapterList {
  import opened Prelude
  import opened Models
  import Planner

  /** The chapter list and the selected row of the list box, if any. */
  datatype ListState = ListState(chapters: seq<Chapter>, selected: Option<nat>)

  /** The list box mirrors the list, so a selection is a valid position. */
  predicate Valid(st: ListState)
  {
    st.selected.Some? ==> st.selected.value < |st.chapters|
  }

  /** The list with positions `i` and `j` exchanged. */
  function Swap<T>(s: seq<T>, i: nat, j: nat): (r: seq<T>)
    requires i < |s| && j < |s|
  {
    s[i := s[j]][j := s[i]]
  }

  /** Exchanging two positions is a permutation. */
  lemma SwapPermutes<T>(s: seq<T>, i: nat, j: nat)
    requires i < |s| && j < |s|
    ensures multiset(Swap(s, i, j)) == multiset(s)
  {
    if i != j {
      var t := s[i := s[j]];
      assert multiset(t) == multiset(s) - multiset{s[i]} + multiset{s[j]};
      assert t[j] == s[j];
      assert multiset(t[j := s[i]]) == multiset(t) - multiset{s[j]} + multiset{s[i]};
    }
  }

  /** `move_chapter(delta)`: with nothing selected nothing happens; when
      the target position `i + delta` lies inside the list the two rows are
      exchanged and the selection follows the moved chapter; otherwise
      nothing changes. The list is always a permutation of the old one. */
  function MoveChapter(st: ListState, delta: int): (r: ListState)
    requires Valid(st)
    ensures Valid(r)
    ensures |r.chapters| == |st.chapters|
    ensures multiset(r.chapters) == multiset(st.chapters)
    ensures st.selected.None? ==> r == st
    ensures st.selected.Some? && 0 <= st.selected.value + delta < |st.chapters| ==>
      && r.selected == Some(st.selected.value + delta)
      && r.chapters[st.selected.value + delta] == st.chapters[st.selected.value]
      && r.chapters[st.selected.value] == st.chapters[st.selected.value + delta]
      && (forall k :: 0 <= k < |st.chapters| && k != st.selected.value && k != st.selected.value + delta ==>
            r.chapters[k] == st.chapters[k])
    ensures st.selected.Some? && !(0 <= st.selected.value + delta < |st.chapters|) ==> r == st
  {
    match st.selected
    case None => st
    case Some(i) =>
      var j := i + delta;
      if 0 <= j < |st.chapters| then
        SwapPermutes(st.chapters, i, j);
        ListState(Swap(st.chapters, i, j), Some(j))
      else st
  }

  /** Moving a chapter and then moving it back by the opposite amount
      restores the list and the selection. */
  lemma MoveBackRestores(st: ListState, delta: int)
    requires Valid(st) && st.selected.Some?
    requires 0 <= st.selected.value + delta < |st.chapters|
    ensures MoveChapter(MoveChapter(st, delta), -delta) == st
  {
    var r := MoveChapter(st, delta);
    var back := MoveChapter(r, -delta);
    assert back.chapters == st.chapters;
  }

  /** `toggle_chapter`: flips `enabled` of the selected chapter and keeps
      its name, folder and images; every other chapter, the order and the
      selection stay as they were. Nothing happens without a selection. */
  function ToggleChapter(st: ListState): (r: ListState)
    requires Valid(st)
    ensures Valid(r)
    ensures r.selected == st.selected
    ensures |r.chapters| == |st.chapters|
    ensures st.selected.None? ==> r == st
    ensures st.selected.Some? ==>
      var i := st.selected.value;
      && r.chapters[i].enabled == !st.chapters[i].enabled
      && r.chapters[i].name == st.chapters[i].name
      && r.chapters[i].dir == st.chapters[i].dir
      && r.chapters[i].images == st.chapters[i].images
      && (forall k :: 0 <= k < |st.chapters| && k != i ==> r.chapters[k] == st.chapters[k])
  {
    match st.selected
    case None => st
    case Some(i) =>
      var c := st.chapters[i];
      ListState(st.chapters[i := c.(enabled := !c.enabled)], Some(i))
  }

  /** Toggling twice is no change. */
  lemma ToggleTwice(st: ListState)
    requires Valid(st)
    ensures ToggleChapter(ToggleChapter(st)) == st
  {
    if st.selected.Some? {
      var i := st.selected.value;
      assert ToggleChapter(ToggleChapter(st)).chapters[i] == st.chapters[i];
      assert ToggleChapter(ToggleChapter(st)).chapters == st.chapters;
    }
  }

  /** Moving a chapter does not change how many are enabled; toggling
      changes that count by exactly one in the direction of the flip. */
  lemma {:induction false} EnabledCountAfterEdits(st: ListState, delta: int)
    requires Valid(st)
    ensures |Planner.Enabled(MoveChapter(st, delta).chapters)| == |Planner.Enabled(st.chapters)|
    ensures st.selected.Some? ==>
      |Planner.Enabled(ToggleChapter(st).chapters)|
        == if st.chapters[st.selected.value].enabled then |Planner.Enabled(st.chapters)| - 1
           else |Planner.Enabled(st.chapters)| + 1
  {
    if st.selected.Some? && 0 <= st.selected.value + delta < |st.chapters| {
      var s := st.chapters;
      var i := st.selected.value;
      var j := i + delta;
      EnabledCountUpdate(s, i, s[j]);
      assert MoveChapter(st, delta).chapters == s[i := s[j]][j := s[i]];
      if i != j {
        EnabledCountUpdate(s[i := s[j]], j, s[i]);
        assert s[i := s[j]][j] == s[j];
      } else {
        assert s[i := s[j]][j := s[i]] == s;
      }
    }
    if st.selected.Some? {
      var i := st.selected.value;
      var c := st.chapters[i];
      EnabledCountUpdate(st.chapters, i, c.(enabled := !c.enabled));
    }
  }

  /** Replacing position k changes the count by the difference of the two
      chapters' contributions. */
  lemma {:induction false} EnabledCountUpdate(s: seq<Chapter>, k: nat, c: Chapter)
    requires k < |s|
    ensures |Planner.Enabled(s[k := c])| + (if s[k].enabled then 1 else 0)
         == |Planner.Enabled(s)| + (if c.enabled then 1 else 0)
    decreases |s|
  {
    if k > 0 {
      assert s[k := c][1..] == s[1..][k - 1 := c];
      EnabledCountUpdate(s[1..], k - 1, c);
    } else {
      assert s[k := c][1..] == s[1..];
    }
  }
}
