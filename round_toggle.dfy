/**
 * `toggleRound(round)` in static/tablesort.js: collapses or expands the hole
 * columns of one round of the score table.
 */
module RoundToggle {

  const Expand: string := "tap to expand"
  const Shrink: string := "tap to shrink"

  /** A `style.display` value after a toggle: "none" shows the element, anything else hides it. */
  function Toggle(display: string): (r: string)
    ensures r == "" <==> display == "none"
    ensures r == "none" <==> display != "none"
  {
    if display == "none" then "" else "none"
  }

  function ToggleAll(ds: seq<string>): (r: seq<string>)
    ensures |r| == |ds| && forall i :: 0 <= i < |ds| ==> r[i] == Toggle(ds[i])
  {
    seq(|ds|, i requires 0 <= i < |ds| => Toggle(ds[i]))
  }

  /** The toggle hides at least one of these elements. */
  predicate HidesSome(ds: seq<string>) {
    exists i :: 0 <= i < |ds| && ds[i] != "none"
  }

  /** The `colspan` the round's top header gets: "1" when a cell was hidden, else "3". */
  function Colspan(cells: seq<string>): (r: string)
    ensures r == "1" <==> HidesSome(cells)
    ensures r == "3" <==> !HidesSome(cells)
  {
    if HidesSome(cells) then "1" else "3"
  }

  /** The caption after a toggle: only "tap to expand" turns into "tap to shrink". */
  function NextCaption(caption: string): (r: string)
    ensures r == Shrink <==> caption == Expand
    ensures r == Expand <==> caption != Expand
  {
    if caption == Expand then Shrink else Expand
  }

  predicate ShownOrHidden(ds: seq<string>) {
    forall i :: 0 <= i < |ds| ==> ds[i] == "" || ds[i] == "none"
  }

  /** Toggling twice restores displays that were "" or "none". */
  lemma ToggleAllTwice(ds: seq<string>)
    requires ShownOrHidden(ds)
    ensures ToggleAll(ToggleAll(ds)) == ds
  {
  }

  /**
   * Starting from a round whose cells are all shown, the first toggle sets the
   * colspan to "1" and the second sets it back to "3".
   */
  lemma CollapseThenExpand(cells: seq<string>)
    requires |cells| > 0 && forall i :: 0 <= i < |cells| ==> cells[i] == ""
    ensures Colspan(cells) == "1"
    ensures Colspan(ToggleAll(cells)) == "3"
    ensures ToggleAll(ToggleAll(cells)) == cells
  {
    assert cells[0] != "none";
  }

  /** The caption alternates between the two texts once it holds one of them. */
  lemma NextCaptionTwice(caption: string)
    ensures NextCaption(NextCaption(caption)) == caption <==> caption == Expand || caption == Shrink
  {
  }

  /** The elements of one round (`data-round` = the round number) that a toggle touches. */
  class RoundView {
    /** `style.display` of each `.cells.hideable` cell. */
    var cellDisplay: seq<string>
    /** `colspan` of each `.topheader.shrinkable` header cell. */
    var topColspan: seq<string>
    /** `style.display` of each `.sortable.hideable` header cell. */
    var subHeaderDisplay: seq<string>
    /** Text of the `.kindatiny` caption. */
    var caption: string

    constructor (cellDisplay: seq<string>, topColspan: seq<string>, subHeaderDisplay: seq<string>, caption: string)
      ensures this.cellDisplay == cellDisplay && this.topColspan == topColspan
      ensures this.subHeaderDisplay == subHeaderDisplay && this.caption == caption
    {
      this.cellDisplay := cellDisplay;
      this.topColspan := topColspan;
      this.subHeaderDisplay := subHeaderDisplay;
      this.caption := caption;
    }

    method ToggleRound()
      modifies this
      ensures cellDisplay == ToggleAll(old(cellDisplay))
      ensures |topColspan| == |old(topColspan)|
      ensures forall i :: 0 <= i < |topColspan| ==> topColspan[i] == Colspan(old(cellDisplay))
      ensures subHeaderDisplay == ToggleAll(old(subHeaderDisplay))
      ensures caption == NextCaption(old(caption))
    {
      var isCollapsed := false;
      var i := 0;
      while i < |cellDisplay|
        invariant 0 <= i <= |cellDisplay| == |old(cellDisplay)|
        invariant cellDisplay[i..] == old(cellDisplay)[i..]
        invariant cellDisplay[..i] == ToggleAll(old(cellDisplay)[..i])
        invariant isCollapsed <==> HidesSome(old(cellDisplay)[..i])
        invariant topColspan == old(topColspan) && subHeaderDisplay == old(subHeaderDisplay)
        invariant caption == old(caption)
      {
        if cellDisplay[i] == "none" {
          cellDisplay := cellDisplay[i := ""];
        } else {
          cellDisplay := cellDisplay[i := "none"];
          isCollapsed := true;
          assert old(cellDisplay)[..i + 1][i] != "none";
        }
        assert old(cellDisplay)[..i + 1] == old(cellDisplay)[..i] + [old(cellDisplay)[i]];
        i := i + 1;
      }
      assert old(cellDisplay)[..i] == old(cellDisplay);

      i := 0;
      while i < |topColspan|
        invariant 0 <= i <= |topColspan| == |old(topColspan)|
        invariant forall k :: 0 <= k < i ==> topColspan[k] == Colspan(old(cellDisplay))
        invariant cellDisplay == ToggleAll(old(cellDisplay)) && isCollapsed == HidesSome(old(cellDisplay))
        invariant subHeaderDisplay == old(subHeaderDisplay) && caption == old(caption)
      {
        topColspan := topColspan[i := if isCollapsed then "1" else "3"];
        i := i + 1;
      }

      i := 0;
      while i < |subHeaderDisplay|
        invariant 0 <= i <= |subHeaderDisplay| == |old(subHeaderDisplay)|
        invariant subHeaderDisplay[i..] == old(subHeaderDisplay)[i..]
        invariant subHeaderDisplay[..i] == ToggleAll(old(subHeaderDisplay)[..i])
        invariant cellDisplay == ToggleAll(old(cellDisplay)) && caption == old(caption)
        invariant |topColspan| == |old(topColspan)|
        invariant forall k :: 0 <= k < |topColspan| ==> topColspan[k] == Colspan(old(cellDisplay))
      {
        subHeaderDisplay := subHeaderDisplay[i := Toggle(subHeaderDisplay[i])];
        i := i + 1;
      }
      assert old(subHeaderDisplay)[..i] == old(subHeaderDisplay);

      caption := NextCaption(caption);
    }
  }
}
