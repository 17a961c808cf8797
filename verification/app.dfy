/** The page as a whole: the question input wired to the card session, and
    the swipeable view of the selected card. Properties that need more than
    one component are stated here. */
module App {
  import opened Wrappers
  import opened Text
  import opened Gateway
  import opened Cards
  import opened Session
  import opened Swipe
  import opened Input

  datatype Page = Page(field: string, session: Session)

  const START: Page := Page("", INITIAL)

  /** What the user or a stream does to the page. Questions reach the
      session only through the input form. */
  datatype Action =
    | Type(text: string)
    | Press(id: string)
    | Forward(e: Event)

  /** The input field is disabled while loading, so no typing reaches it
      then; a forwarded event is never a question. Forwarded gestures are
      deliberately allowed in more states than the card view lets a
      release through (a frozen card ignores it): every property proved
      here holds for all of them, and a gesture's action can in fact run
      after the view has frozen, once the fling delay is over. */
  predicate Allowed(p: Page, act: Action) {
    && (act.Type? ==> !InputDisabled(p.session.loading))
    && (act.Forward? ==> !act.e.Ask? && Enabled(p.session, act.e))
  }

  function Perform(p: Page, act: Action): (r: Page)
    requires p.session.Valid() && Allowed(p, act)
    ensures r.session.Valid()
  {
    match act
    case Type(text) => p.(field := text)
    case Press(id) =>
      var sub := HandleSubmit(p.field, p.session.loading);
      (match sub.sent
       case None => p.(field := sub.field)
       case Some(q) => Page(sub.field, Submit(p.session, q, id).session))
    case Forward(e) =>
      ApplyPreservesValid(p.session, e);
      p.(session := Apply(p.session, e))
  }

  /** Every card's question is non-empty with no surrounding white space,
      and no card carries detailed variants. */
  predicate WellFormed(p: Page) {
    && p.session.Valid()
    && (forall j :: 0 <= j < |p.session.cards| ==> p.session.cards[j].question != "" && Tight(p.session.cards[j].question))
    && (forall j :: 0 <= j < |p.session.cards| ==> p.session.cards[j].variants.None?)
  }

  lemma StartIsWellFormed()
    ensures WellFormed(START)
  {
  }

  /** Every action keeps the page well formed: questions enter only
      through the trimming form or as copies of existing questions, and no
      transition ever sets the variants. */
  lemma PerformPreservesWellFormed(p: Page, act: Action)
    requires WellFormed(p) && Allowed(p, act)
    ensures WellFormed(Perform(p, act))
  {
    match act
    case Type(_) =>
    case Press(id) => PressPreservesWellFormed(p, id);
    case Forward(e) => ApplyKeepsQuestions(p.session, e);
  }

  lemma PressPreservesWellFormed(p: Page, id: string)
    requires WellFormed(p)
    ensures WellFormed(Perform(p, Press(id)))
  {
    var sub := HandleSubmit(p.field, p.session.loading);
    if sub.sent.Some? {
      SentQuestionIsTight(p.field, p.session.loading);
      SubmitKeepsQuestions(p.session, sub.sent.value, id);
    }
  }

  lemma SubmitKeepsQuestions(s: Session, q: string, id: string)
    requires q != "" && Tight(q)
    requires forall j :: 0 <= j < |s.cards| ==> s.cards[j].question != "" && Tight(s.cards[j].question)
    requires forall j :: 0 <= j < |s.cards| ==> s.cards[j].variants.None?
    ensures forall j :: 0 <= j < |Submit(s, q, id).session.cards| ==>
              Submit(s, q, id).session.cards[j].question != "" && Tight(Submit(s, q, id).session.cards[j].question)
    ensures forall j :: 0 <= j < |Submit(s, q, id).session.cards| ==> Submit(s, q, id).session.cards[j].variants.None?
  {
    var cards := Submit(s, q, id).session.cards;
    forall j | 1 <= j < |cards|
      ensures cards[j] == s.cards[j - 1]
    {
    }
  }

  /** Any event other than a new question keeps each card's question, or
      copies one, and never sets the variants. */
  lemma ApplyKeepsQuestions(s: Session, e: Event)
    requires s.Valid() && Enabled(s, e) && !e.Ask?
    requires forall j :: 0 <= j < |s.cards| ==> s.cards[j].question != "" && Tight(s.cards[j].question)
    requires forall j :: 0 <= j < |s.cards| ==> s.cards[j].variants.None?
    ensures forall j :: 0 <= j < |Apply(s, e).cards| ==>
              Apply(s, e).cards[j].question != "" && Tight(Apply(s, e).cards[j].question)
    ensures forall j :: 0 <= j < |Apply(s, e).cards| ==> Apply(s, e).cards[j].variants.None?
  {
    var r := Apply(s, e);
    if e.SwipeLeft? && |s.cards| > 0 {
      forall j | 1 <= j < |r.cards|
        ensures r.cards[j] == s.cards[j - 1]
      {
      }
    } else {
      ApplyKeepsIds(s, e);
    }
  }

  /** The detailed-variant navigation is never shown: nothing in the
      session fills in the variants it needs. */
  lemma NoVariantNavigation(p: Page)
    requires WellFormed(p)
    ensures forall j :: 0 <= j < |p.session.cards| ==> VariantNavOf(p.session.cards[j]).None?
  {
  }

  /** A right swipe past the threshold on the selected card starts a slow
      expansion of it; a left swipe past the threshold starts a fast
      retry in front of it. */
  lemma GestureStartsStream(s: Session, d: Drag, width: int, id: string)
    requires s.Valid() && |s.cards| > 0
    ensures var card := s.cards[s.index];
            var o := End(d, Frozen(s.loading, card, false), card.state, width);
            && (o.intent.Accept? ==> Expand(s).call.Some? && Expand(s).call.value.tier.Slow?)
            && (o.intent.Decline? ==> Reject(s, id).call.Some? && Reject(s, id).call.value.tier.Fast?)
  {
  }

  /** A fast answer that completes shows its badge row: the keyword rules
      always give at least one badge. */
  lemma CompletedFastCardShowsBadges(c: Card, g: Generation)
    requires g.phase.FastPhase?
    ensures ShowBadges(Completed(c, g), false)
  {
  }

  /** The model label a card shows is not the model its stream runs on,
      for a new question as for an expansion. */
  lemma CardLabelIsNotModelCalled(s: Session, question: string, id: string, prompt: string)
    requires s.Valid()
    ensures var st := Submit(s, question, id);
            StreamRequest(st.call.value.messages, st.call.value.tier, prompt).model != st.session.cards[0].model
    ensures |s.cards| > 0 && s.cards[s.index].state.FastComplete? ==>
              var st := Expand(s);
              StreamRequest(st.call.value.messages, st.call.value.tier, prompt).model != st.session.cards[s.index].model
  {
    assert FAST_MODEL != FAST_LABEL by { assert |FAST_MODEL| != |FAST_LABEL|; }
    assert SLOW_MODEL != DETAILED_LABEL by { assert |SLOW_MODEL| != |DETAILED_LABEL|; }
  }
}
