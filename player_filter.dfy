/**
 * The page-wide click handler of static/scores.js: clicking a player button
 * marks it selected and shows only the charts of that player.
 */
module PlayerFilter {
  import opened Wrappers

  const PlayerButton: string := "player-button"
  const Chart: string := "chart"
  const Selected: string := "selected"
  const Visible: string := "visible"
  const Hidden: string := "hidden"

  /** An element of the page: its class list and its `data-player` attribute (None when absent). */
  datatype Element = Element(classes: set<string>, player: Option<string>)

  predicate IsButton(e: Element) { PlayerButton in e.classes }
  predicate IsChart(e: Element) { Chart in e.classes }

  /** The button pass: every player button loses "selected", the clicked one gets it back. */
  function MarkButton(e: Element, clicked: bool): (r: Element)
    ensures r.player == e.player
  {
    if !IsButton(e) then e
    else e.(classes := if clicked then e.classes + {Selected} else e.classes - {Selected})
  }

  /** The chart pass: a chart of the selected player is shown, every other chart hidden. */
  function ShowChart(e: Element, selected: Option<string>): (r: Element)
    ensures r.player == e.player
  {
    if !IsChart(e) then e
    else if e.player == selected then e.(classes := e.classes + {Visible} - {Hidden})
    else e.(classes := e.classes - {Visible} + {Hidden})
  }

  /** The page after a click on element t. */
  function Clicked(page: seq<Element>, t: nat): (r: seq<Element>)
    requires t < |page|
    ensures |r| == |page|
  {
    if !IsButton(page[t]) then page
    else seq(|page|, k requires 0 <= k < |page| => ShowChart(MarkButton(page[k], k == t), page[t].player))
  }

  /** A click on anything but a player button changes nothing. */
  lemma ClickElsewhereChangesNothing(page: seq<Element>, t: nat)
    requires t < |page| && !IsButton(page[t])
    ensures Clicked(page, t) == page
  {
  }

  /**
   * After a click on a player button, exactly that button is selected, exactly
   * the charts with the same `data-player` are visible and all others hidden,
   * and elements that are neither buttons nor charts are untouched.
   */
  lemma ClickSelectsOnePlayer(page: seq<Element>, t: nat)
    requires t < |page| && IsButton(page[t])
    ensures forall k :: 0 <= k < |page| && IsButton(page[k]) ==>
      (Selected in Clicked(page, t)[k].classes <==> k == t)
    ensures forall k :: 0 <= k < |page| && IsChart(page[k]) ==>
      (Visible in Clicked(page, t)[k].classes <==> page[k].player == page[t].player) &&
      (Hidden in Clicked(page, t)[k].classes <==> page[k].player != page[t].player)
    ensures forall k :: 0 <= k < |page| && !IsButton(page[k]) && !IsChart(page[k]) ==>
      Clicked(page, t)[k] == page[k]
  {
    forall k | 0 <= k < |page| && IsButton(page[k])
      ensures Selected in Clicked(page, t)[k].classes <==> k == t
    {
      var m := MarkButton(page[k], k == t);
      assert Selected in m.classes <==> k == t;
    }
  }

  /** Clicking the same button twice leaves the page as one click did. */
  lemma ClickTwiceIsClickOnce(page: seq<Element>, t: nat)
    requires t < |page|
    ensures Clicked(Clicked(page, t), t) == Clicked(page, t)
  {
    var once := Clicked(page, t);
    if IsButton(page[t]) {
      assert IsButton(once[t]) && once[t].player == page[t].player;
      forall k | 0 <= k < |page| ensures Clicked(once, t)[k] == once[k] {
        var e := page[k];
        var m := MarkButton(e, k == t);
        assert once[k] == ShowChart(m, page[t].player);
        assert IsButton(once[k]) == IsButton(e) && IsChart(once[k]) == IsChart(e) by {
          assert PlayerButton != Selected && PlayerButton != Visible && PlayerButton != Hidden;
          assert Chart != Selected && Chart != Visible && Chart != Hidden;
        }
      }
    }
  }

  class Page {
    /** Every element of the document, in document order. */
    var elements: seq<Element>

    constructor (elements: seq<Element>)
      ensures this.elements == elements
    {
      this.elements := elements;
    }

    /** The `click` listener, for a click whose target is element t. */
    method Click(t: nat)
      requires t < |elements|
      modifies this
      ensures elements == Clicked(old(elements), t)
    {
      if !IsButton(elements[t]) {
        return;
      }
      var selectedPlayer := elements[t].player;
      var i := 0;
      while i < |elements|
        invariant 0 <= i <= |elements| == |old(elements)|
        invariant forall k :: 0 <= k < i ==> elements[k] == MarkButton(old(elements)[k], false)
        invariant forall k :: i <= k < |elements| ==> elements[k] == old(elements)[k]
      {
        if IsButton(elements[i]) {
          elements := elements[i := elements[i].(classes := elements[i].classes - {Selected})];
        }
        i := i + 1;
      }
      elements := elements[t := elements[t].(classes := elements[t].classes + {Selected})];
      assert elements[t] == MarkButton(old(elements)[t], true) by {
        assert old(elements)[t].classes - {Selected} + {Selected} == old(elements)[t].classes + {Selected};
      }
      i := 0;
      while i < |elements|
        invariant 0 <= i <= |elements| == |old(elements)|
        invariant forall k :: 0 <= k < i ==>
          elements[k] == ShowChart(MarkButton(old(elements)[k], k == t), selectedPlayer)
        invariant forall k :: i <= k < |elements| ==> elements[k] == MarkButton(old(elements)[k], k == t)
      {
        var chart := elements[i];
        if IsChart(chart) {
          if chart.player == selectedPlayer {
            elements := elements[i := chart.(classes := chart.classes + {Visible} - {Hidden})];
          } else {
            elements := elements[i := chart.(classes := chart.classes - {Visible} + {Hidden})];
          }
        }
        i := i + 1;
      }
    }
  }
}
