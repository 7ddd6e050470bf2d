/**
 * Page anchor navigation: which section of a page is "active" while the user
 * scrolls, and the lock that stops scroll events from overriding a section the
 * user clicked until the smooth scroll has settled.
 *
 * The page is given as `dom`, which maps the id of every element that exists to
 * the rounded distance of its top from the top of the viewport. The lock's
 * timer is the explicit event `LockTimerFires`.
 */
module PageAnchors {
  import opened Wrappers

  /** A configured section: its element id and the text shown for it (the
      source's `label`, a word Dafny reserves). */
  datatype AnchorItem = AnchorItem(id: string, caption: string)

  /** The position recorded for an anchor whose element exists. */
  datatype Position = Position(id: string, top: int)

  const DefaultThreshold: int := 300
  const DefaultScrollLockDuration: int := 800

  function Max(a: int, b: int): int {
    if a < b then b else a
  }

  /** The initial `activeAnchor`: the first anchor's id, or `''`. */
  function InitialAnchor(anchors: seq<AnchorItem>): string {
    if |anchors| == 0 then "" else anchors[0].id
  }

  // -------------------------------------------------------------- positions

  /** The positions of the anchors whose element exists, in anchor order. */
  function PositionsOf(anchors: seq<AnchorItem>, dom: map<string, int>): seq<Position> {
    if anchors == [] then []
    else
      var a := anchors[|anchors| - 1];
      PositionsOf(anchors[..|anchors| - 1], dom) + (if a.id in dom then [Position(a.id, dom[a.id])] else [])
  }

  /** Every recorded position belongs to an existing element and carries its
      top; when every anchor's element exists, the positions follow the
      anchors one for one. */
  lemma {:induction false} PositionsOfShape(anchors: seq<AnchorItem>, dom: map<string, int>)
    ensures |PositionsOf(anchors, dom)| <= |anchors|
    ensures forall p :: p in PositionsOf(anchors, dom) ==> p.id in dom && p.top == dom[p.id]
    ensures (forall k :: 0 <= k < |anchors| ==> anchors[k].id in dom) ==>
      |PositionsOf(anchors, dom)| == |anchors| &&
      forall k :: 0 <= k < |anchors| ==> PositionsOf(anchors, dom)[k].id == anchors[k].id
  {
    if anchors != [] {
      PositionsOfShape(anchors[..|anchors| - 1], dom);
    }
  }

  /** Every anchor whose element exists has its position recorded, whichever
      other elements are missing. */
  lemma {:induction false} PositionsComplete(anchors: seq<AnchorItem>, dom: map<string, int>)
    ensures forall k :: 0 <= k < |anchors| && anchors[k].id in dom ==>
      Position(anchors[k].id, dom[anchors[k].id]) in PositionsOf(anchors, dom)
  {
    if anchors != [] {
      var init := anchors[..|anchors| - 1];
      PositionsComplete(init, dom);
      forall k | 0 <= k < |anchors| - 1 && anchors[k].id in dom
        ensures Position(anchors[k].id, dom[anchors[k].id]) in PositionsOf(anchors, dom)
      {
        assert anchors[k] == init[k];
      }
    }
  }

  /** The `forEach` that pushes a position for every anchor found in the page. */
  method CollectPositions(anchors: seq<AnchorItem>, dom: map<string, int>)
    returns (positions: seq<Position>)
    ensures positions == PositionsOf(anchors, dom)
  {
    positions := [];
    var i := 0;
    while i < |anchors|
      invariant 0 <= i <= |anchors|
      invariant positions == PositionsOf(anchors[..i], dom)
    {
      var anchor := anchors[i];
      assert anchors[..i + 1][..i] == anchors[..i];
      if anchor.id in dom {
        positions := positions + [Position(anchor.id, dom[anchor.id])];
      }
      i := i + 1;
    }
    assert anchors[..i] == anchors;
  }

  // ------------------------------------------------------- selection rule

  /** The index of the first position at or after `from` lying below the
      threshold line, or `|positions|` when there is none. */
  function FirstBelowLine(positions: seq<Position>, threshold: int, from: nat): (k: nat)
    requires from <= |positions|
    ensures from <= k <= |positions|
    ensures forall j :: from <= j < k ==> positions[j].top <= threshold
    ensures k < |positions| ==> positions[k].top > threshold
    decreases |positions| - from
  {
    if from == |positions| then from
    else if positions[from].top > threshold then from
    else FirstBelowLine(positions, threshold, from + 1)
  }

  /** The index the scroll handler activates: the position just before the
      first one below the threshold line, or the last position when none is. */
  function ActiveIndex(positions: seq<Position>, threshold: int): nat {
    var k := FirstBelowLine(positions, threshold, 0);
    if k == |positions| then Max(0, |positions| - 1) else Max(0, k - 1)
  }

  /** The selection rule, case by case. */
  lemma ActiveIndexRule(positions: seq<Position>, threshold: int)
    ensures |positions| == 0 ==> ActiveIndex(positions, threshold) == 0
    ensures |positions| > 0 && (forall j :: 0 <= j < |positions| ==> positions[j].top <= threshold) ==>
      ActiveIndex(positions, threshold) == |positions| - 1
    ensures forall i :: (0 <= i < |positions| && positions[i].top > threshold &&
                         (forall j :: 0 <= j < i ==> positions[j].top <= threshold)) ==>
      ActiveIndex(positions, threshold) == Max(0, i - 1)
    ensures ActiveIndex(positions, threshold) <= Max(0, |positions| - 1)
  {
  }

  /** The `for` loop of `updateActiveAnchor` that picks the index. */
  method SelectActiveIndex(positions: seq<Position>, threshold: int) returns (activeIndex: nat)
    ensures activeIndex == ActiveIndex(positions, threshold)
  {
    activeIndex := 0;
    var i := 0;
    while i < |positions|
      invariant 0 <= i <= |positions|
      invariant FirstBelowLine(positions, threshold, i) == FirstBelowLine(positions, threshold, 0)
      invariant activeIndex == Max(0, i - 1)
    {
      if positions[i].top > threshold {
        activeIndex := Max(0, i - 1);
        break;
      }
      activeIndex := i;
      i := i + 1;
    }
  }

  /** `anchors[activeIndex]?.id || ''`: the index is applied to the anchor list. */
  function AnchorIdAt(anchors: seq<AnchorItem>, index: nat): string {
    if index < |anchors| then anchors[index].id else ""
  }

  /** The anchor `updateActiveAnchor` activates for this page. */
  function ChosenAnchor(anchors: seq<AnchorItem>, dom: map<string, int>, threshold: int): string {
    AnchorIdAt(anchors, ActiveIndex(PositionsOf(anchors, dom), threshold))
  }

  /** The activated anchor is one of the configured anchors, or `''` when there
      are none. */
  lemma ChosenAnchorIsConfigured(anchors: seq<AnchorItem>, dom: map<string, int>, threshold: int)
    ensures |anchors| == 0 ==> ChosenAnchor(anchors, dom, threshold) == ""
    ensures |anchors| > 0 ==> exists k :: 0 <= k < |anchors| && ChosenAnchor(anchors, dom, threshold) == anchors[k].id
  {
    var positions := PositionsOf(anchors, dom);
    PositionsOfShape(anchors, dom);
    ActiveIndexRule(positions, threshold);
    if |anchors| > 0 {
      var idx := ActiveIndex(positions, threshold);
      assert idx < |anchors|;
      assert ChosenAnchor(anchors, dom, threshold) == anchors[idx].id;
    }
  }

  /** When every anchor's element exists, indexing the anchors and indexing the
      positions name the same section. */
  lemma ChosenAnchorWhenAllPresent(anchors: seq<AnchorItem>, dom: map<string, int>, threshold: int)
    requires |anchors| > 0
    requires forall k :: 0 <= k < |anchors| ==> anchors[k].id in dom
    ensures ChosenAnchor(anchors, dom, threshold) ==
      PositionsOf(anchors, dom)[ActiveIndex(PositionsOf(anchors, dom), threshold)].id
  {
    PositionsOfShape(anchors, dom);
    ActiveIndexRule(PositionsOf(anchors, dom), threshold);
  }

  /** When an anchor's element is missing, the index into the positions is
      still applied to the anchors, so the activated id can be that of an
      element which is not on the page. */
  lemma MissingElementShiftsChoice()
    ensures var anchors := [AnchorItem("a", "A"), AnchorItem("b", "B"), AnchorItem("c", "C")];
      var dom := map["b" := 100, "c" := 500];
      && ActiveIndex(PositionsOf(anchors, dom), 300) == 0
      && PositionsOf(anchors, dom)[0].id == "b"
      && ChosenAnchor(anchors, dom, 300) == "a"
      && "a" !in dom
  {
    var anchors := [AnchorItem("a", "A"), AnchorItem("b", "B"), AnchorItem("c", "C")];
    var dom := map["b" := 100, "c" := 500];
    assert anchors[..1] == [AnchorItem("a", "A")];
    assert anchors[..2] == [AnchorItem("a", "A"), AnchorItem("b", "B")];
    assert PositionsOf(anchors[..1], dom) == [];
    var positions := [Position("b", 100), Position("c", 500)];
    assert PositionsOf(anchors, dom) == positions;
    assert FirstBelowLine(positions, 300, 1) == 1;
  }

  // --------------------------------------------------------- the navigator

  /** The state `usePageAnchors` keeps: the active anchor, the scroll lock, and
      how many lock timers are scheduled and have not fired yet. */
  class AnchorNavigator {
    const anchors: seq<AnchorItem>
    const threshold: int
    const scrollLockDuration: int
    var activeAnchor: string
    var isScrolling: bool
    var pendingTimers: nat

    /** The lock is only ever held while a timer that releases it is pending. */
    ghost predicate Valid()
      reads this
    {
      isScrolling ==> pendingTimers > 0
    }

    /** `usePageAnchors(anchors, options)`, with `None` for an option left out. */
    constructor (anchors: seq<AnchorItem>, threshold: Option<int>, scrollLockDuration: Option<int>)
      ensures Valid()
      ensures this.anchors == anchors
      ensures this.threshold == (if threshold.Some? then threshold.value else DefaultThreshold)
      ensures this.scrollLockDuration ==
        (if scrollLockDuration.Some? then scrollLockDuration.value else DefaultScrollLockDuration)
      ensures activeAnchor == InitialAnchor(anchors)
      ensures !isScrolling && pendingTimers == 0
    {
      this.anchors := anchors;
      this.threshold := if threshold.Some? then threshold.value else DefaultThreshold;
      this.scrollLockDuration :=
        if scrollLockDuration.Some? then scrollLockDuration.value else DefaultScrollLockDuration;
      activeAnchor := if |anchors| == 0 then "" else anchors[0].id;
      isScrolling := false;
      pendingTimers := 0;
    }

    /** `updateActiveAnchor`: does nothing while the lock is held, otherwise
        activates the anchor the selection rule picks for the page. */
    method UpdateActiveAnchor(dom: map<string, int>)
      requires Valid()
      modifies this
      ensures Valid()
      ensures isScrolling == old(isScrolling) && pendingTimers == old(pendingTimers)
      ensures old(isScrolling) ==> activeAnchor == old(activeAnchor)
      ensures !old(isScrolling) ==> activeAnchor == ChosenAnchor(anchors, dom, threshold)
    {
      if isScrolling {
        return;
      }
      var positions := CollectPositions(anchors, dom);
      var activeIndex := SelectActiveIndex(positions, threshold);
      activeAnchor := if activeIndex < |anchors| then anchors[activeIndex].id else "";
    }

    /** `scrollToAnchor(id)`: when the element exists, activate it at once,
        take the lock and schedule the timer that releases it; otherwise do
        nothing. */
    method ScrollToAnchor(id: string, dom: map<string, int>)
      requires Valid()
      modifies this
      ensures Valid()
      ensures id in dom ==> activeAnchor == id && isScrolling && pendingTimers == old(pendingTimers) + 1
      ensures id !in dom ==>
        activeAnchor == old(activeAnchor) && isScrolling == old(isScrolling) &&
        pendingTimers == old(pendingTimers)
    {
      if id in dom {
        activeAnchor := id;
        isScrolling := true;
        pendingTimers := pendingTimers + 1;
      }
    }

    /** One scheduled timer fires: release the lock and re-apply the selection
        rule to the page as it is now. */
    method LockTimerFires(dom: map<string, int>)
      requires Valid() && pendingTimers > 0
      modifies this
      ensures Valid()
      ensures !isScrolling && pendingTimers == old(pendingTimers) - 1
      ensures activeAnchor == ChosenAnchor(anchors, dom, threshold)
    {
      isScrolling := false;
      pendingTimers := pendingTimers - 1;
      UpdateActiveAnchor(dom);
    }
  }

  /** A click holds off the scroll handler: a scroll event before the lock's
      timer fires leaves the clicked anchor active. */
  method ClickThenScroll(nav: AnchorNavigator, id: string, dom: map<string, int>, later: map<string, int>)
    requires nav.Valid() && id in dom
    modifies nav
    ensures nav.Valid() && nav.isScrolling && nav.activeAnchor == id
  {
    nav.ScrollToAnchor(id, dom);
    nav.UpdateActiveAnchor(later);
  }
}
