/** The tag chips of TagFilter.jsx: what a click does to the selection, and which chip is lit. */
module TagFilter {
  import opened Wrappers

  /** The `selected` prop: a list of tags in multiple mode, one tag or null in single mode. */
  datatype Selection = Many(tags: seq<string>) | One(tag: Option<string>)

  /** `selected.filter(t => t !== tag)`. */
  function Without(s: seq<string>, tag: string): (r: seq<string>)
    ensures tag !in r
    ensures forall u :: u != tag ==> (u in r <==> u in s)
  {
    if s == [] then []
    else if s[0] == tag then Without(s[1..], tag)
    else [s[0]] + Without(s[1..], tag)
  }

  /** `handleClick(tag)`: the new selection passed to `onChange`. */
  function Click(sel: Selection, tag: string): (r: Selection)
    ensures r.Many? <==> sel.Many?
    ensures IsSelected(r, tag) <==> !IsSelected(sel, tag)
  {
    match sel
    case Many(tags) => if tag in tags then Many(Without(tags, tag)) else Many(tags + [tag])
    case One(current) => if current == Some(tag) then One(None) else One(Some(tag))
  }

  /** `isSelected` for the chip of `tag`. */
  predicate IsSelected(sel: Selection, tag: string): (b: bool)
    ensures sel == Many([]) || sel == One(None) ==> !b
  {
    match sel
    case Many(tags) => tag in tags
    case One(current) => current == Some(tag)
  }

  /** Multiple mode: every other chip keeps its state. */
  lemma ClickLeavesOthers(tags: seq<string>, tag: string, other: string)
    requires other != tag
    ensures IsSelected(Click(Many(tags), tag), other) == IsSelected(Many(tags), other)
  {
  }

  lemma {:induction false} WithoutAbsent(s: seq<string>, tag: string)
    requires tag !in s
    ensures Without(s, tag) == s
    decreases |s|
  {
    if s != [] {
      WithoutAbsent(s[1..], tag);
    }
  }

  lemma {:induction false} WithoutConcat(a: seq<string>, b: seq<string>, tag: string)
    ensures Without(a + b, tag) == Without(a, tag) + Without(b, tag)
    decreases |a|
  {
    if a == [] {
      assert a + b == b;
    } else {
      assert (a + b)[1..] == a[1..] + b;
      WithoutConcat(a[1..], b, tag);
    }
  }

  /**
   * Multiple mode: the other tags keep their relative order, whether the
   * clicked tag was added or removed.
   */
  lemma ClickKeepsOrderOfOthers(tags: seq<string>, tag: string)
    ensures Without(Click(Many(tags), tag).tags, tag) == Without(tags, tag)
  {
    if tag !in tags {
      WithoutConcat(tags, [tag], tag);
      assert Without([tag], tag) == [];
    } else {
      WithoutAbsent(Without(tags, tag), tag);
    }
  }

  /** Multiple mode: clicking a tag twice, starting without it, restores the selection. */
  lemma ClickTwiceRestores(tags: seq<string>, tag: string)
    requires tag !in tags
    ensures Click(Click(Many(tags), tag), tag) == Many(tags)
  {
    WithoutConcat(tags, [tag], tag);
    WithoutAbsent(tags, tag);
    assert Without([tag], tag) == [];
  }

  /** Multiple mode: an added tag goes to the end; a removed one goes with all its copies. */
  lemma ClickMultipleShape(tags: seq<string>, tag: string)
    ensures tag !in tags ==> Click(Many(tags), tag).tags == tags + [tag]
    ensures tag in tags ==> |Click(Many(tags), tag).tags| < |tags| && tag !in Click(Many(tags), tag).tags
  {
    if tag in tags {
      WithoutShrinks(tags, tag);
    }
  }

  lemma {:induction false} WithoutShrinks(s: seq<string>, tag: string)
    requires tag in s
    ensures |Without(s, tag)| < |s|
    decreases |s|
  {
    WithoutNoLonger(s[1..], tag);
    if s[0] != tag {
      WithoutShrinks(s[1..], tag);
    }
  }

  lemma {:induction false} WithoutNoLonger(s: seq<string>, tag: string)
    ensures |Without(s, tag)| <= |s|
    decreases |s|
  {
    if s != [] {
      WithoutNoLonger(s[1..], tag);
    }
  }

  /** Single mode: the selected tag clears the selection, any other tag becomes the selection. */
  lemma ClickSingle(current: Option<string>, tag: string)
    ensures current == Some(tag) ==> Click(One(current), tag) == One(None)
    ensures current != Some(tag) ==> Click(One(current), tag) == One(Some(tag))
  {
  }
}
