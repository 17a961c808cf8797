/** The card session: the newest-first card list, the selected index, the
    loading flag and the single abort handle, with the user actions that
    start a stream (ask, reject, expand, steer by badge), the selection of
    another card, and the three callbacks every stream drives (chunk,
    completion, error).

    Each started stream is a `Generation`. It records what its callbacks
    captured when it started: the card they address, the question used for
    badges, whether it is a fast or a detailed answer, and the per-stream
    first-chunk flag. It also records whether its abort controller fired
    and whether its read loop has stopped. The handle is the index of the
    stream whose controller the session would abort next. */
module Session {
  import opened Wrappers
  import opened Text
  import opened Gateway
  import opened Cards

  /** The card a stream's callbacks write into: the card at index 0 when it
      still carries the id captured at start (ask, reject), or whatever card
      sits at the index captured at start (expand, steer). */
  datatype Target = ById(id: string) | AtIndex(index: nat)

  datatype Phase = FastPhase | DetailedPhase

  datatype Generation = Generation(
    target: Target,
    question: string,
    phase: Phase,
    firstChunk: bool,
    aborted: bool,
    finished: bool)

  datatype Session = Session(
    cards: seq<Card>,
    index: nat,
    loading: bool,
    handle: Option<nat>,
    gens: seq<Generation>)
  {
    /** The selected index names a card whenever there is one, and the
        handle names a started stream. */
    predicate Valid() {
      && (|cards| == 0 ==> index == 0)
      && (|cards| > 0 ==> index < |cards|)
      && (handle.Some? ==> handle.value < |gens|)
    }
  }

  const INITIAL: Session := Session([], 0, false, None, [])

  /** The streaming call a transition makes: conversation and tier. */
  datatype Call = Call(messages: seq<Message>, tier: Tier)

  /** A user action's result: the new session and the call it starts. */
  datatype Step = Step(session: Session, call: Option<Call>)

  const REJECT_INSTRUCTION: string :=
    "I don't like this reasoning, approach the problem in another way"
  const EXPAND_INSTRUCTION: string :=
    "I like this approach. Please provide a more comprehensive, detailed, and improved answer. Keep it concise and screen-friendly (under 10 lines)."
  const FOCUS_PREFIX: string := "\n\nPlease focus specifically on: "

  /** Fires the controller the handle names, if any, and clears the handle. */
  function AbortActive(s: Session): (r: Session)
    ensures r.handle.None?
    ensures r.cards == s.cards && r.index == s.index && r.loading == s.loading
    ensures |r.gens| == |s.gens|
    ensures forall k :: 0 <= k < |s.gens| ==>
              r.gens[k] == if s.handle == Some(k) then s.gens[k].(aborted := true) else s.gens[k]
  {
    match s.handle
    case None => s
    case Some(k) =>
      if k < |s.gens| then s.(gens := s.gens[k := s.gens[k].(aborted := true)], handle := None)
      else s.(handle := None)
  }

  /** `streamResponse`: the new stream's controller replaces the handle,
      without aborting the one it replaces. */
  function Launch(s: Session, target: Target, question: string, phase: Phase): (r: Session)
    ensures r.gens == s.gens + [Generation(target, question, phase, true, false, false)]
    ensures r.handle == Some(|s.gens|)
    ensures r.cards == s.cards && r.index == s.index && r.loading == s.loading
  {
    s.(gens := s.gens + [Generation(target, question, phase, true, false, false)],
       handle := Some(|s.gens|))
  }

  /** `r` aborted the stream `s`'s handle named, if any, and started one
      new stream, which the handle now names; no other stream changed. */
  predicate Preempts(s: Session, r: Session) {
    && |r.gens| == |s.gens| + 1
    && r.handle == Some(|s.gens|)
    && forall k :: 0 <= k < |s.gens| ==>
         r.gens[k] == if s.handle == Some(k) then s.gens[k].(aborted := true) else s.gens[k]
  }

  /** `handleQuestionSubmit`: a new card is put in front and selected, and
      a fast stream starts with the history of the cards as they were
      before. A stream already running is left running. */
  function Submit(s: Session, question: string, id: string): (r: Step)
    ensures |r.session.cards| == |s.cards| + 1 && r.session.cards[1..] == s.cards
    ensures r.session.cards[0].id == id && r.session.cards[0].question == question
    ensures r.session.cards[0].response == "" && r.session.cards[0].state.FastResponding?
    ensures r.session.cards[0].model == FAST_LABEL && r.session.cards[0].streaming
    ensures r.session.index == 0 && r.session.loading
    ensures r.call == Some(Call(BuildHistory(s.cards, -1) + [Message(User, question)], Fast))
    ensures |r.session.gens| == |s.gens| + 1 && r.session.gens[..|s.gens|] == s.gens
    ensures r.session.handle == Some(|s.gens|)
    ensures r.session.gens[|s.gens|] == Generation(ById(id), question, FastPhase, true, false, false)
  {
    var messages := BuildHistory(s.cards, -1) + [Message(User, question)];
    var s1 := s.(loading := true, cards := [NewCard(id, question)] + s.cards, index := 0);
    var r := Launch(s1, ById(id), question, FastPhase);
    assert r.gens[..|s.gens|] == s.gens;
    Step(r, Some(Call(messages, Fast)))
  }

  /** `handleSwipeLeft`: nothing on an empty list; otherwise the active
      stream is aborted, a new card with the rejected card's question is put
      in front and selected, and a fast stream starts with the history of
      the other cards, the rejected exchange and the rejection. */
  function Reject(s: Session, id: string): (r: Step)
    requires s.Valid()
    ensures |s.cards| == 0 ==> r == Step(s, None)
    ensures |s.cards| > 0 ==>
              && |r.session.cards| == |s.cards| + 1 && r.session.cards[1..] == s.cards
              && r.session.cards[0] == NewCard(id, s.cards[s.index].question)
              && r.session.index == 0 && r.session.loading
              && r.call == Some(Call(BuildHistory(s.cards, s.index)
                                     + [Message(User, s.cards[s.index].question),
                                        Message(Assistant, s.cards[s.index].response),
                                        Message(User, REJECT_INSTRUCTION)], Fast))
              && |r.session.gens| == |s.gens| + 1
              && r.session.gens[|s.gens|] == Generation(ById(id), s.cards[s.index].question, FastPhase, true, false, false)
    ensures |s.cards| > 0 && s.handle.Some? ==> |r.session.gens| > s.handle.value && r.session.gens[s.handle.value].aborted
    ensures |s.cards| > 0 ==> Preempts(s, r.session)
  {
    if |s.cards| == 0 then Step(s, None)
    else
      var current := s.cards[s.index];
      var messages := BuildHistory(s.cards, s.index)
        + [Message(User, current.question), Message(Assistant, current.response),
           Message(User, REJECT_INSTRUCTION)];
      var s0 := AbortActive(s);
      var s1 := s0.(loading := true, cards := [NewCard(id, current.question)] + s.cards, index := 0);
      Step(Launch(s1, ById(id), current.question, FastPhase), Some(Call(messages, Fast)))
  }

  /** `handleSwipeRight`: only a selected `fast_complete` card expands. The
      active stream is aborted and that card, at the same index, becomes a
      detailed answer in progress; a slow stream starts with the history of
      the other cards, the accepted exchange and the expansion request. */
  function Expand(s: Session): (r: Step)
    requires s.Valid()
    ensures (|s.cards| == 0 || !s.cards[s.index].state.FastComplete?) ==> r == Step(s, None)
    ensures |s.cards| > 0 && s.cards[s.index].state.FastComplete? ==>
              && |r.session.cards| == |s.cards|
              && r.session.index == s.index && r.session.loading
              && (forall j :: 0 <= j < |s.cards| && j != s.index ==> r.session.cards[j] == s.cards[j])
              && r.session.cards[s.index] == s.cards[s.index].(
                   model := DETAILED_LABEL, streaming := true, state := DetailedResponding,
                   badges := None, response := "")
              && r.call == Some(Call(BuildHistory(s.cards, s.index)
                                     + [Message(User, s.cards[s.index].question),
                                        Message(Assistant, s.cards[s.index].response),
                                        Message(User, EXPAND_INSTRUCTION)], Slow))
              && |r.session.gens| == |s.gens| + 1
              && r.session.gens[|s.gens|] == Generation(AtIndex(s.index), s.cards[s.index].question, DetailedPhase, true, false, false)
    ensures |s.cards| > 0 && s.cards[s.index].state.FastComplete? ==> Preempts(s, r.session)
  {
    if |s.cards| == 0 || !s.cards[s.index].state.FastComplete? then Step(s, None)
    else
      var current := s.cards[s.index];
      var messages := BuildHistory(s.cards, s.index)
        + [Message(User, current.question), Message(Assistant, current.response),
           Message(User, EXPAND_INSTRUCTION)];
      var expanded := current.(model := DETAILED_LABEL, streaming := true,
                               state := DetailedResponding, badges := None, response := "");
      var s0 := AbortActive(s);
      var s1 := s0.(loading := true, cards := s.cards[s.index := expanded]);
      Step(Launch(s1, AtIndex(s.index), current.question, DetailedPhase), Some(Call(messages, Slow)))
  }

  /** `handleBadgeClick`: only a selected `fast_complete` card is steered.
      The active stream is aborted and that card, in place, goes back to a
      fast answer in progress; a fast stream starts with the history of the
      other cards and the question narrowed to the badge. */
  function Steer(s: Session, badge: string): (r: Step)
    requires s.Valid()
    ensures (|s.cards| == 0 || !s.cards[s.index].state.FastComplete?) ==> r == Step(s, None)
    ensures |s.cards| > 0 && s.cards[s.index].state.FastComplete? ==>
              && |r.session.cards| == |s.cards|
              && r.session.index == s.index && r.session.loading
              && (forall j :: 0 <= j < |s.cards| && j != s.index ==> r.session.cards[j] == s.cards[j])
              && r.session.cards[s.index] == s.cards[s.index].(
                   response := "", streaming := true, state := FastResponding,
                   badges := None, sections := None)
              && r.call == Some(Call(BuildHistory(s.cards, s.index)
                                     + [Message(User, s.cards[s.index].question + FOCUS_PREFIX + badge)], Fast))
              && |r.session.gens| == |s.gens| + 1
              && r.session.gens[|s.gens|] == Generation(AtIndex(s.index), s.cards[s.index].question, FastPhase, true, false, false)
    ensures |s.cards| > 0 && s.cards[s.index].state.FastComplete? ==> Preempts(s, r.session)
  {
    if |s.cards| == 0 || !s.cards[s.index].state.FastComplete? then Step(s, None)
    else
      var current := s.cards[s.index];
      var messages := BuildHistory(s.cards, s.index)
        + [Message(User, current.question + FOCUS_PREFIX + badge)];
      var steered := current.(response := "", streaming := true, state := FastResponding,
                              badges := None, sections := None);
      var s0 := AbortActive(s);
      var s1 := s0.(loading := true, cards := s.cards[s.index := steered]);
      Step(Launch(s1, AtIndex(s.index), current.question, FastPhase), Some(Call(messages, Fast)))
  }

  /** The navigation dots: select another card. */
  function Select(s: Session, i: nat): (r: Session)
    requires i < |s.cards|
    ensures r.index == i && r.cards == s.cards && r.loading == s.loading
    ensures r.handle == s.handle && r.gens == s.gens
  {
    s.(index := i)
  }

  /** The index of the card a callback writes into, if any. */
  function Resolve(cards: seq<Card>, target: Target): (j: Option<nat>)
    ensures j.Some? ==> j.value < |cards|
    ensures target.ById? ==> (j.Some? <==> |cards| > 0 && cards[0].id == target.id)
    ensures target.ById? && j.Some? ==> j.value == 0
    ensures target.AtIndex? ==> (j.Some? <==> target.index < |cards|)
    ensures target.AtIndex? && j.Some? ==> j.value == target.index
  {
    match target
    case ById(id) => if |cards| > 0 && cards[0].id == id then Some(0) else None
    case AtIndex(i) => if i < |cards| then Some(i) else None
  }

  /** The stream's read loop is still running. */
  predicate Live(s: Session, k: nat) {
    k < |s.gens| && !s.gens[k].finished
  }

  /** A chunk read now reaches the callback: the loop runs and its
      controller has not fired. */
  predicate Deliverable(s: Session, k: nat) {
    Live(s, k) && !s.gens[k].aborted
  }

  /** Stream `k` reads a chunk. On an aborted stream the loop cancels the
      reader and stops. Otherwise the first chunk clears the loading flag
      and the chunk is appended to the addressed card, if any. */
  function Chunk(s: Session, k: nat, text: string): (r: Session)
    ensures |r.cards| == |s.cards| && r.index == s.index && r.handle == s.handle
    ensures |r.gens| == |s.gens|
    ensures !Deliverable(s, k) ==> r.cards == s.cards && r.loading == s.loading
    ensures Live(s, k) && s.gens[k].aborted ==> !Live(r, k)
    ensures Deliverable(s, k) ==>
              && Deliverable(r, k) && !r.gens[k].firstChunk
              && r.gens[k].target == s.gens[k].target
              && r.loading == (s.loading && !s.gens[k].firstChunk)
              && forall j :: 0 <= j < |s.cards| ==>
                   r.cards[j] == if Resolve(s.cards, s.gens[k].target) == Some(j)
                                 then s.cards[j].(response := s.cards[j].response + text)
                                 else s.cards[j]
    ensures forall m :: 0 <= m < |s.gens| && m != k ==> r.gens[m] == s.gens[m]
  {
    if !Live(s, k) then s
    else
      var g := s.gens[k];
      if g.aborted then s.(gens := s.gens[k := g.(finished := true)])
      else
        var cards := match Resolve(s.cards, g.target)
          case None => s.cards
          case Some(j) => s.cards[j := s.cards[j].(response := s.cards[j].response + text)];
        s.(loading := if g.firstChunk then false else s.loading,
           cards := cards,
           gens := s.gens[k := g.(firstChunk := false)])
  }

  /** The card a completion leaves behind: a fast answer becomes
      `fast_complete` with badges computed from its final response and the
      captured question; a detailed answer becomes `detailed_complete`. */
  function Completed(c: Card, g: Generation): (d: Card)
    ensures d.id == c.id && d.question == c.question && d.response == c.response
    ensures d.model == c.model && d.sections == c.sections
    ensures d.variants == c.variants && d.variantIndex == c.variantIndex
    ensures !d.streaming
    ensures g.phase.FastPhase? ==>
              d.state.FastComplete? && d.badges == Some(KeywordBadges(g.question, c.response))
    ensures g.phase.DetailedPhase? ==> d.state.DetailedComplete? && d.badges == c.badges
  {
    match g.phase
    case FastPhase =>
      c.(streaming := false, state := FastComplete, badges := Some(KeywordBadges(g.question, c.response)))
    case DetailedPhase =>
      c.(streaming := false, state := DetailedComplete)
  }

  /** Stream `k` reports done. The read loop tests for the end before it
      tests its abort flag, so an aborted stream that has not read since
      still completes. Completion clears the handle, whichever stream it
      names, and leaves the loading flag alone. */
  function Done(s: Session, k: nat): (r: Session)
    ensures !Live(s, k) ==> r == s
    ensures Live(s, k) ==>
              && !Live(r, k) && r.handle.None? && r.loading == s.loading
              && r.index == s.index && |r.cards| == |s.cards|
              && forall j :: 0 <= j < |s.cards| ==>
                   r.cards[j] == if Resolve(s.cards, s.gens[k].target) == Some(j)
                                 then Completed(s.cards[j], s.gens[k])
                                 else s.cards[j]
    ensures |r.gens| == |s.gens|
    ensures forall m :: 0 <= m < |s.gens| && m != k ==> r.gens[m] == s.gens[m]
  {
    if !Live(s, k) then s
    else
      var g := s.gens[k];
      var cards := match Resolve(s.cards, g.target)
        case None => s.cards
        case Some(j) => s.cards[j := Completed(s.cards[j], g)];
      s.(cards := cards, handle := None, gens := s.gens[k := g.(finished := true)])
  }

  /** Stream `k` fails: the error is logged, the loading flag and the
      handle are cleared, and every card keeps its text. */
  function Fail(s: Session, k: nat): (r: Session)
    ensures !Live(s, k) ==> r == s
    ensures Live(s, k) ==>
              && !Live(r, k) && r.cards == s.cards && r.index == s.index
              && !r.loading && r.handle.None?
    ensures |r.gens| == |s.gens|
    ensures forall m :: 0 <= m < |s.gens| && m != k ==> r.gens[m] == s.gens[m]
  {
    if !Live(s, k) then s
    else s.(loading := false, handle := None, gens := s.gens[k := s.gens[k].(finished := true)])
  }

  // ---------------------------------------------------------------------
  // Everything that can happen to a session
  // ---------------------------------------------------------------------

  datatype Event =
    | Ask(question: string, id: string)
    | SwipeLeft(id: string)
    | SwipeRight
    | ClickBadge(badge: string)
    | Pick(i: nat)
    | Deliver(k: nat, text: string)
    | Finish(k: nat)
    | Break(k: nat)

  /** The navigation dots only offer existing cards. */
  predicate Enabled(s: Session, e: Event) {
    e.Pick? ==> e.i < |s.cards|
  }

  function Apply(s: Session, e: Event): (r: Session)
    requires s.Valid() && Enabled(s, e)
    ensures e.Ask? || (e.SwipeLeft? && |s.cards| > 0) ==>
              |r.cards| == |s.cards| + 1 && r.cards[1..] == s.cards && r.index == 0 && r.loading
    ensures !e.Ask? && !e.SwipeLeft? ==> |r.cards| == |s.cards|
    ensures e.Deliver? || e.Finish? || e.Break? ==> r.index == s.index
    ensures e.Break? ==> r.cards == s.cards
    ensures e.Break? && Live(s, e.k) ==> !r.loading
  {
    match e
    case Ask(q, id) => Submit(s, q, id).session
    case SwipeLeft(id) => Reject(s, id).session
    case SwipeRight => Expand(s).session
    case ClickBadge(b) => Steer(s, b).session
    case Pick(i) => Select(s, i)
    case Deliver(k, text) => Chunk(s, k, text)
    case Finish(k) => Done(s, k)
    case Break(k) => Fail(s, k)
  }

  /** Every event keeps the session valid. */
  lemma ApplyPreservesValid(s: Session, e: Event)
    requires s.Valid() && Enabled(s, e)
    ensures Apply(s, e).Valid()
  {
  }

  /** No two cards share an id. */
  predicate UniqueIds(cards: seq<Card>) {
    forall i, j :: 0 <= i < j < |cards| ==> cards[i].id != cards[j].id
  }

  predicate FreshId(s: Session, id: string) {
    forall j :: 0 <= j < |s.cards| ==> s.cards[j].id != id
  }

  /** Every event other than a new front card keeps each card's id,
      question and variants. */
  lemma ApplyKeepsIds(s: Session, e: Event)
    requires s.Valid() && Enabled(s, e)
    requires !e.Ask? && !(e.SwipeLeft? && |s.cards| > 0)
    ensures |Apply(s, e).cards| == |s.cards|
    ensures forall j :: 0 <= j < |s.cards| ==> Apply(s, e).cards[j].id == s.cards[j].id
    ensures forall j :: 0 <= j < |s.cards| ==>
              Apply(s, e).cards[j].question == s.cards[j].question
              && Apply(s, e).cards[j].variants == s.cards[j].variants
  {
    match e
    case Deliver(k, text) =>
    case Finish(k) =>
    case _ =>
  }

  /** The ids the session stamps on new cards come from the clock, which the
      code trusts to be fresh; given fresh ids, no two cards ever share one. */
  lemma ApplyPreservesUniqueIds(s: Session, e: Event)
    requires s.Valid() && Enabled(s, e) && UniqueIds(s.cards)
    requires e.Ask? ==> FreshId(s, e.id)
    requires e.SwipeLeft? ==> FreshId(s, e.id)
    ensures UniqueIds(Apply(s, e).cards)
  {
    var r := Apply(s, e);
    if e.Ask? || (e.SwipeLeft? && |s.cards| > 0) {
      forall i, j | 0 <= i < j < |r.cards| ensures r.cards[i].id != r.cards[j].id {
        assert r.cards[j] == s.cards[j - 1];
        if i > 0 {
          assert r.cards[i] == s.cards[i - 1];
        }
      }
    } else {
      ApplyKeepsIds(s, e);
    }
  }

  /** The chunks a stream reads, one after the other, with nothing else
      happening in between. */
  function Feed(s: Session, k: nat, chunks: seq<string>): (r: Session)
    ensures |r.cards| == |s.cards| && |r.gens| == |s.gens|
    decreases |chunks|
  {
    if chunks == [] then s else Feed(Chunk(s, k, chunks[0]), k, chunks[1..])
  }

  /** The addressed card's response grows by exactly the concatenation of
      the chunks, in order; every other card is untouched; the first chunk
      clears the loading flag. */
  lemma {:induction false} FeedAppends(s: Session, k: nat, chunks: seq<string>, j: nat)
    requires Deliverable(s, k) && Resolve(s.cards, s.gens[k].target) == Some(j)
    ensures Deliverable(Feed(s, k, chunks), k)
    ensures |Feed(s, k, chunks).cards| == |s.cards|
    ensures Feed(s, k, chunks).cards[j].response == s.cards[j].response + Concat(chunks)
    ensures Feed(s, k, chunks).cards[j].state == s.cards[j].state
    ensures Feed(s, k, chunks).cards[j].id == s.cards[j].id
    ensures forall m :: 0 <= m < |s.cards| && m != j ==> Feed(s, k, chunks).cards[m] == s.cards[m]
    ensures Feed(s, k, chunks).loading == (s.loading && (chunks == [] || !s.gens[k].firstChunk))
    ensures Feed(s, k, chunks).handle == s.handle && Feed(s, k, chunks).index == s.index
    ensures Feed(s, k, chunks).gens[k].target == s.gens[k].target
    ensures Feed(s, k, chunks).gens[k].question == s.gens[k].question
    ensures Feed(s, k, chunks).gens[k].phase == s.gens[k].phase
    decreases |chunks|
  {
    if chunks != [] {
      var s1 := Chunk(s, k, chunks[0]);
      assert s1.gens[k] == s.gens[k].(firstChunk := false);
      if s.gens[k].target.ById? {
        assert s1.cards[0].id == s.cards[0].id;
      }
      assert Resolve(s1.cards, s1.gens[k].target) == Some(j);
      FeedAppends(s1, k, chunks[1..], j);
      assert s.cards[j].response + chunks[0] + Concat(chunks[1..])
          == s.cards[j].response + Concat(chunks);
    }
  }

  /** Once its controller has fired, a stream writes no further chunk into
      any card. */
  lemma {:induction false} CancelledStreamAppendsNothing(s: Session, k: nat, chunks: seq<string>)
    requires k < |s.gens| && s.gens[k].aborted
    ensures Feed(s, k, chunks).cards == s.cards
    ensures Feed(s, k, chunks).loading == s.loading
    decreases |chunks|
  {
    if chunks != [] {
      var s1 := Chunk(s, k, chunks[0]);
      assert s1.gens[k].aborted;
      CancelledStreamAppendsNothing(s1, k, chunks[1..]);
    }
  }

  /** Expanding or steering aborts the stream the handle names: whatever it
      still reads afterwards reaches no card and leaves loading alone. */
  lemma PreemptedStreamIsSilenced(s: Session, badge: string, chunks: seq<string>)
    requires s.Valid() && s.handle.Some?
    requires |s.cards| > 0 && s.cards[s.index].state.FastComplete?
    ensures var k := s.handle.value;
            var expanded := Expand(s).session;
            var steered := Steer(s, badge).session;
            && Feed(expanded, k, chunks).cards == expanded.cards
            && Feed(expanded, k, chunks).loading
            && Feed(steered, k, chunks).cards == steered.cards
            && Feed(steered, k, chunks).loading
  {
    var k := s.handle.value;
    CancelledStreamAppendsNothing(Expand(s).session, k, chunks);
    CancelledStreamAppendsNothing(Steer(s, badge).session, k, chunks);
  }

  /** The abort silences chunks only: the read loop tests for the end
      before the abort flag, so if the preempted stream's next read is its
      end, it still completes the card it addresses and clears the handle,
      leaving the expansion that replaced it without one. */
  lemma PreemptedStreamStillCompletes(s: Session)
    requires s.Valid() && s.handle.Some? && Live(s, s.handle.value)
    requires |s.cards| > 0 && s.cards[s.index].state.FastComplete?
    ensures var k := s.handle.value;
            var expanded := Expand(s).session;
            var done := Done(expanded, k);
            && expanded.gens[k].aborted
            && done.handle.None? && !Live(done, k)
            && forall j :: 0 <= j < |expanded.cards| ==>
                 done.cards[j] == if Resolve(expanded.cards, s.gens[k].target) == Some(j)
                                  then Completed(expanded.cards[j], expanded.gens[k])
                                  else expanded.cards[j]
  {
    var k := s.handle.value;
    assert Expand(s).session.gens[k] == s.gens[k].(aborted := true);
  }

  /** A question asked and then answered by its stream, chunk by chunk and
      then done: the new card holds the concatenated chunks and is
      `fast_complete` with the badges of that text; the loading flag is
      cleared only if at least one chunk arrived. */
  lemma AskThenStream(s: Session, question: string, id: string, chunks: seq<string>)
    ensures var k := |s.gens|;
            var fed := Feed(Submit(s, question, id).session, k, chunks);
            var done := Done(fed, k);
            && fed.cards[0].response == Concat(chunks)
            && fed.loading == (chunks == [])
            && done.loading == fed.loading
            && done.cards[0].state.FastComplete?
            && done.cards[0].response == Concat(chunks)
            && done.cards[0].badges == Some(KeywordBadges(question, Concat(chunks)))
            && done.cards[1..] == s.cards
  {
    var k := |s.gens|;
    AskThenFeed(s, question, id, chunks);
    var fed := Feed(Submit(s, question, id).session, k, chunks);
    var done := Done(fed, k);
    assert Resolve(fed.cards, fed.gens[k].target) == Some(0);
    assert done.cards[0] == Completed(fed.cards[0], fed.gens[k]);
    assert done.cards[1..] == s.cards by {
      forall m | 1 <= m < |done.cards| ensures done.cards[m] == s.cards[m - 1] {
        assert done.cards[m] == fed.cards[m];
      }
    }
  }

  /** The chunks of a new question's stream, before it is done. */
  lemma AskThenFeed(s: Session, question: string, id: string, chunks: seq<string>)
    ensures var k := |s.gens|;
            var fed := Feed(Submit(s, question, id).session, k, chunks);
            && Live(fed, k)
            && fed.gens[k].target == ById(id) && fed.gens[k].question == question
            && fed.gens[k].phase.FastPhase?
            && |fed.cards| == |s.cards| + 1
            && fed.cards[0].id == id && fed.cards[0].state.FastResponding?
            && fed.cards[0].response == Concat(chunks)
            && fed.cards[1..] == s.cards
            && fed.loading == (chunks == [])
  {
    var k := |s.gens|;
    var s1 := Submit(s, question, id).session;
    assert s1.gens[k] == Generation(ById(id), question, FastPhase, true, false, false);
    assert Resolve(s1.cards, s1.gens[k].target) == Some(0);
    FeedAppends(s1, k, chunks, 0);
    var fed := Feed(s1, k, chunks);
    assert "" + Concat(chunks) == Concat(chunks);
    assert fed.cards[1..] == s.cards by {
      forall m | 1 <= m < |fed.cards| ensures fed.cards[m] == s.cards[m - 1] {
        assert fed.cards[m] == s1.cards[m];
      }
    }
  }

  /** The history sent on a submit is built before the new card is added;
      it is also the history of the list after the update, since the new
      card has no answer yet. */
  lemma AskHistoryIsPostUpdate(s: Session, question: string, id: string)
    ensures Submit(s, question, id).call.value.messages
         == BuildHistory(Submit(s, question, id).session.cards, -1) + [Message(User, question)]
  {
    UnansweredAddsNothing(NewCard(id, question), s.cards);
  }

  /** The history sent on a rejection leaves out the rejected card: it is
      the history of the other cards, and also that of the updated list
      with the rejected card excluded at its new position. */
  lemma RejectHistoryExcludesRejected(s: Session, id: string)
    requires s.Valid() && |s.cards| > 0
    ensures var h := BuildHistory(s.cards, s.index);
            && h == BuildHistory(s.cards[..s.index] + s.cards[s.index + 1..], -1)
            && h == BuildHistory(Reject(s, id).session.cards, s.index + 1)
  {
    HistoryExcludesCard(s.cards, s.index);
    var retry := NewCard(id, s.cards[s.index].question);
    assert Reject(s, id).session.cards == [retry] + s.cards;
    RetryHistory(retry, s.cards, s.index);
  }

  /** A card becomes `detailed_responding` only by an expansion of the
      selected `fast_complete` card, and `fast_complete` only when a stream
      reports done. */
  lemma StateEntry(s: Session, e: Event)
    requires s.Valid() && Enabled(s, e)
    ensures var r := Apply(s, e);
            forall j :: 0 <= j < |r.cards| && r.cards[j].state.DetailedResponding? ==>
              || (exists i :: 0 <= i < |s.cards| && s.cards[i].id == r.cards[j].id
                              && s.cards[i].state.DetailedResponding?)
              || (e.SwipeRight? && j == s.index && s.cards[j].state.FastComplete?)
    ensures var r := Apply(s, e);
            forall j :: 0 <= j < |r.cards| && r.cards[j].state.FastComplete? ==>
              || (exists i :: 0 <= i < |s.cards| && s.cards[i].id == r.cards[j].id
                              && s.cards[i].state.FastComplete?)
              || e.Finish?
  {
    var r := Apply(s, e);
    forall j | 0 <= j < |r.cards|
      ensures r.cards[j].state.DetailedResponding? ==>
              || (exists i :: 0 <= i < |s.cards| && s.cards[i].id == r.cards[j].id
                              && s.cards[i].state.DetailedResponding?)
              || (e.SwipeRight? && j == s.index && s.cards[j].state.FastComplete?)
      ensures r.cards[j].state.FastComplete? ==>
              || (exists i :: 0 <= i < |s.cards| && s.cards[i].id == r.cards[j].id
                              && s.cards[i].state.FastComplete?)
              || e.Finish?
    {
      match e
      case Ask(q, id) =>
        if j > 0 {
          assert r.cards[j] == s.cards[j - 1];
        }
      case SwipeLeft(id) =>
        if |s.cards| > 0 && j > 0 {
          assert r.cards[j] == s.cards[j - 1];
        }
      case Finish(k) =>
        if r.cards[j].state.DetailedResponding? {
          assert r.cards[j] == s.cards[j];
        }
      case SwipeRight =>
        if j != s.index || |s.cards| == 0 || !s.cards[s.index].state.FastComplete? {
          assert r.cards[j] == s.cards[j];
        }
      case ClickBadge(b) =>
        if j != s.index || |s.cards| == 0 || !s.cards[s.index].state.FastComplete? {
          assert r.cards[j] == s.cards[j];
        }
      case _ =>
        assert r.cards[j].id == s.cards[j].id && r.cards[j].state == s.cards[j].state;
    }
  }

  /** Expansion and badge streams address a slot, not a card: if a new
      question is asked while an expansion of the front card is streaming,
      the expansion's next chunk goes into the new question's card, and
      the expanded card, now one place back, receives nothing. */
  lemma ExpansionFollowsTheSlot(s: Session, first: string, question: string, id: string, text: string)
    requires s.Valid() && |s.cards| > 0 && s.index == 0 && s.cards[0].state.FastComplete?
    ensures var k := |s.gens|;
            var streamed := Chunk(Expand(s).session, k, first);
            var asked := Submit(streamed, question, id).session;
            var after := Chunk(asked, k, text);
            && !streamed.loading
            && after.cards[0].id == id && after.cards[0].question == question
            && after.cards[0].response == text
            && after.cards[1].id == s.cards[0].id
            && after.cards[1].state.DetailedResponding?
            && after.cards[1].response == first
  {
    var k := |s.gens|;
    var expanded := Expand(s).session;
    var streamed := Chunk(expanded, k, first);
    assert Resolve(expanded.cards, expanded.gens[k].target) == Some(0);
    assert "" + first == first;
    var asked := Submit(streamed, question, id).session;
    assert asked.gens[k] == streamed.gens[k];
    assert Resolve(asked.cards, asked.gens[k].target) == Some(0);
    assert "" + text == text;
  }

  /** Asking and rejecting address the front card by id: once another
      card has been put in front, the stream's chunks are written nowhere,
      although it was never aborted. */
  lemma ShiftedStreamIsDropped(s: Session, id: string, first: string, question: string, newId: string, chunks: seq<string>)
    requires s.Valid() && |s.cards| > 0 && newId != id
    ensures var k := |s.gens|;
            var streamed := Chunk(Reject(s, id).session, k, first);
            var asked := Submit(streamed, question, newId).session;
            && !streamed.loading
            && !asked.gens[k].aborted
            && Feed(asked, k, chunks).cards == asked.cards
  {
    var k := |s.gens|;
    var rejected := Reject(s, id).session;
    var streamed := Chunk(rejected, k, first);
    var asked := Submit(streamed, question, newId).session;
    assert asked.gens[k] == streamed.gens[k];
    DroppedStreamWritesNothing(asked, k, chunks);
  }

  lemma {:induction false} DroppedStreamWritesNothing(s: Session, k: nat, chunks: seq<string>)
    requires k < |s.gens| && Resolve(s.cards, s.gens[k].target).None?
    ensures Feed(s, k, chunks).cards == s.cards
    decreases |chunks|
  {
    if chunks != [] {
      var s1 := Chunk(s, k, chunks[0]);
      assert s1.cards == s.cards;
      assert s1.gens[k].target == s.gens[k].target;
      DroppedStreamWritesNothing(s1, k, chunks[1..]);
    }
  }

  /** The completion of a stream that has been replaced still clears the
      handle, so the next action aborts nothing and the newer stream keeps
      running beside the one that action starts. */
  lemma StaleCompletionOrphansActive(s: Session, k: nat, badge: string)
    requires s.Valid() && Live(s, k) && s.handle.Some? && s.handle.value != k
    requires |s.cards| > 0 && s.cards[s.index].state.FastComplete?
    requires Resolve(s.cards, s.gens[k].target) != Some(s.index)
    ensures var active := s.handle.value;
            var steered := Steer(Done(s, k), badge);
            && steered.call.Some?
            && |steered.session.gens| > active
            && steered.session.gens[active] == s.gens[active]
  {
  }
}
