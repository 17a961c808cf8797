/** The swipeable card: the drag gesture with its threshold, the status
    text, the model icon, and the conditions under which the badge row and
    the detailed-variant navigation are shown.

    Offsets are whole pixels. Rotations are in hundredths of a degree, so
    a tilt of `x * 0.05` degrees is exactly `5 * x` here. */
module Swipe {
  import opened Wrappers
  import opened Text
  import opened Cards

  const THRESHOLD: int := 80
  /** The rotation of a card flung off screen: 15 degrees. */
  const FLING_ROTATION: int := 1500

  /** The drag state of one card: its offset, its rotation, whether a drag
      is in progress, and the pointer position that maps to offset zero. */
  datatype Drag = Drag(x: int, rotation: int, dragging: bool, originX: int)

  const AT_REST: Drag := Drag(0, 0, false, 0)

  /** Gestures are ignored while the session is loading, while the card
      streams, and on a detailed-section card. */
  predicate Frozen(loading: bool, card: Card, detailedSection: bool) {
    loading || card.streaming || detailedSection
  }

  /** `handleStart`: a drag begins where the card already is, so the card
      does not jump under the pointer. */
  function Start(d: Drag, pointerX: int, frozen: bool): (r: Drag)
    ensures frozen ==> r == d
    ensures !frozen ==> r.dragging && r.x == d.x && r.rotation == d.rotation
    ensures !frozen ==> pointerX - r.originX == d.x
  {
    if frozen then d else d.(dragging := true, originX := pointerX - d.x)
  }

  /** `handleMove`: during a drag the card follows the pointer and tilts in
      proportion to its offset. */
  function Move(d: Drag, pointerX: int, frozen: bool): (r: Drag)
    ensures (!d.dragging || frozen) ==> r == d
    ensures d.dragging && !frozen ==>
              && r.x == pointerX - d.originX && r.rotation == 5 * r.x
              && r.dragging && r.originX == d.originX
  {
    if !d.dragging || frozen then d
    else
      var x := pointerX - d.originX;
      d.(x := x, rotation := 5 * x)
  }

  /** What a released drag asks of the session. */
  datatype Intent = Accept | Decline | SnapBack | Ignored

  datatype Outcome = Outcome(drag: Drag, intent: Intent)

  /** `handleEnd`: past the threshold to the right on a `fast_complete`
      card the card is flung right and accepted; past it to the left the
      card is flung left and declined, whatever its state; otherwise it
      springs back. `width` is the window width. */
  function End(d: Drag, frozen: bool, state: CardState, width: int): (r: Outcome)
    ensures r.intent.Ignored? <==> !d.dragging || frozen
    ensures r.intent.Ignored? ==> r.drag == d
    ensures r.intent.Accept? <==> d.dragging && !frozen && d.x > THRESHOLD && state.FastComplete?
    ensures r.intent.Decline? <==> d.dragging && !frozen && d.x < -THRESHOLD
    ensures r.intent.Accept? ==> r.drag == Drag(width, FLING_ROTATION, false, d.originX)
    ensures r.intent.Decline? ==> r.drag == Drag(-width, -FLING_ROTATION, false, d.originX)
    ensures r.intent.SnapBack? ==> r.drag == Drag(0, 0, false, d.originX)
  {
    if !d.dragging || frozen then Outcome(d, Ignored)
    else
      var released := d.(dragging := false);
      if d.x > THRESHOLD && state.FastComplete? then
        Outcome(released.(x := width, rotation := FLING_ROTATION), Accept)
      else if d.x < -THRESHOLD then
        Outcome(released.(x := -width, rotation := -FLING_ROTATION), Decline)
      else
        Outcome(Reset(released), SnapBack)
  }

  /** `resetPosition`: back to the centre, upright. */
  function Reset(d: Drag): (r: Drag)
    ensures r.x == 0 && r.rotation == 0
    ensures r.dragging == d.dragging && r.originX == d.originX
  {
    d.(x := 0, rotation := 0)
  }

  /** A whole gesture, pressed at `from` and released at `to`: the card
      moves by the pointer's displacement, and only that displacement
      decides the outcome. */
  lemma GestureFollowsPointer(d: Drag, from: int, to: int, state: CardState, width: int)
    requires !d.dragging
    ensures var moved := Move(Start(d, from, false), to, false);
            && moved.x == d.x + (to - from)
            && moved.rotation == 5 * moved.x
            && (End(moved, false, state, width).intent.Accept? <==> d.x + (to - from) > THRESHOLD && state.FastComplete?)
            && (End(moved, false, state, width).intent.Decline? <==> d.x + (to - from) < -THRESHOLD)
  {
  }

  /** The threshold is strict, and a right swipe only accepts a ready card:
      a release at exactly 80 either way, or beyond 80 to the right on any
      other card, springs back to the centre and asks nothing. */
  lemma BoundaryReleaseSpringsBack(d: Drag, state: CardState, width: int)
    requires d.dragging
    requires d.x == THRESHOLD || d.x == -THRESHOLD || (d.x > THRESHOLD && !state.FastComplete?)
    ensures End(d, false, state, width).intent.SnapBack?
    ensures End(d, false, state, width).drag.x == 0 && End(d, false, state, width).drag.rotation == 0
  {
  }

  /** No gesture on a frozen card does anything. */
  lemma FrozenCardIgnoresGesture(d: Drag, from: int, to: int, state: CardState, width: int)
    ensures var moved := Move(Start(d, from, true), to, true);
            moved == d && End(moved, true, state, width) == Outcome(d, Ignored)
  {
  }

  function StatusText(state: CardState): (text: string)
    ensures text in {"PROCESSING", "READY", "ENHANCING", "COMPLETE"}
  {
    match state
    case FastResponding => "PROCESSING"
    case FastComplete => "READY"
    case DetailedResponding => "ENHANCING"
    case DetailedComplete => "COMPLETE"
  }

  /** The state a status text shows, if it is one. */
  function StatusState(text: string): (state: Option<CardState>)
    ensures state.Some? <==> text in {"PROCESSING", "READY", "ENHANCING", "COMPLETE"}
  {
    if text == "PROCESSING" then Some(FastResponding)
    else if text == "READY" then Some(FastComplete)
    else if text == "ENHANCING" then Some(DetailedResponding)
    else if text == "COMPLETE" then Some(DetailedComplete)
    else None
  }

  /** The status text tells the four states apart: reading it back gives
      the state, and every status text is read back to the state it came
      from. */
  lemma StatusTextRoundTrip(state: CardState, text: string)
    ensures StatusState(StatusText(state)) == Some(state)
    ensures StatusState(text) == Some(state) ==> StatusText(state) == text
  {
  }

  datatype Icon = CpuIcon | TerminalIcon

  /** `getModelIcon`: the processor icon for any label mentioning
      "mistral", the terminal icon otherwise. */
  function ModelIcon(model: string): (icon: Icon)
    ensures icon.CpuIcon? <==> exists i :: OccursAt(model, "mistral", i)
  {
    ContainsIffOccurs(model, "mistral");
    if Contains(model, "mistral") then CpuIcon else TerminalIcon
  }

  /** The fast card's label shows the processor icon, the detailed card's
      the terminal icon. */
  lemma LabelIcons()
    ensures ModelIcon(FAST_LABEL) == CpuIcon
    ensures ModelIcon(DETAILED_LABEL) == TerminalIcon
  {
    assert OccursAt(FAST_LABEL, "mistral", 0);
    MissingCharRulesOut(DETAILED_LABEL, "mistral", 's');
  }

  /** The badge row appears only on a `fast_complete` card outside a
      detailed section that has at least one badge. */
  predicate ShowBadges(card: Card, detailedSection: bool) {
    && card.state.FastComplete?
    && !detailedSection
    && card.badges.Some?
    && |card.badges.value| > 0
  }

  /** The variant navigation: its one-based position and the number of
      variants. */
  datatype VariantNav = VariantNav(position: int, count: nat)

  /** The variant navigation appears on a `detailed_complete` card with at
      least two variants; a missing index counts as the first. */
  function VariantNavOf(card: Card): (nav: Option<VariantNav>)
    ensures nav.Some? <==> card.state.DetailedComplete? && card.variants.Some? && |card.variants.value| > 1
    ensures nav.Some? ==> nav.value.count == |card.variants.value| > 1
    ensures nav.Some? && card.variantIndex.None? ==> nav.value.position == 1
    ensures nav.Some? && card.variantIndex.Some? ==> nav.value.position == card.variantIndex.value + 1
  {
    if card.state.DetailedComplete? && card.variants.Some? && |card.variants.value| > 1 then
      Some(VariantNav(card.variantIndex.GetOr(0) + 1, |card.variants.value|))
    else None
  }
}
