/** The card data of the session and the two pure helpers the session
    builds on: the conversation history sent with every request, and the
    keyword heuristic that proposes follow-up badges once a fast answer is
    complete. */
module Cards {
  import opened Wrappers
  import opened Text
  import opened Gateway

  /** The lifecycle of one card. */
  datatype CardState = FastResponding | FastComplete | DetailedResponding | DetailedComplete

  datatype Section = Section(title: string, content: string)

  /** One question/answer exchange. `streaming` reads the optional
      `isStreaming` flag with `undefined` as false; `variants` and
      `variantIndex` are the detailed-response navigation fields the card
      view reads. */
  datatype Card = Card(
    id: string,
    question: string,
    response: string,
    model: string,
    streaming: bool,
    state: CardState,
    badges: Option<seq<string>>,
    sections: Option<seq<Section>>,
    variants: Option<seq<string>>,
    variantIndex: Option<int>)

  /** The model names the session writes on its cards. */
  const FAST_LABEL: string := "mistralai/ministral-3b"
  const DETAILED_LABEL: string := "google/gemini-2.5-pro"

  /** A card just created for `question`, waiting for its first chunk. */
  function NewCard(id: string, question: string): Card {
    Card(id, question, "", FAST_LABEL, true, FastResponding, None, None, None, None)
  }

  // ---------------------------------------------------------------------
  // Conversation history
  // ---------------------------------------------------------------------

  /** A card takes part in the history only once its response holds more
      than white space, that is, once the trimmed response is non-empty
      (`AnsweredIffTrimmed`). */
  predicate Answered(c: Card) {
    !AllSpace(c.response)
  }

  lemma AnsweredIffTrimmed(c: Card)
    ensures Answered(c) <==> Trim(c.response) != ""
  {
    TrimEmptyIffAllSpace(c.response);
  }

  /** The user/assistant pair one card contributes. */
  function Turn(c: Card): seq<Message> {
    if Answered(c) then [Message(User, c.question), Message(Assistant, c.response)] else []
  }

  function Reverse<T>(s: seq<T>): (r: seq<T>)
    ensures |r| == |s|
    ensures forall i :: 0 <= i < |s| ==> r[i] == s[|s| - 1 - i]
  {
    if s == [] then [] else Reverse(s[1..]) + [s[0]]
  }

  /** The index filter over the reversed list: the element at position
      `pos` of the reversed list is card `n - 1 - pos` of the original, and
      it is kept unless that is the excluded index (`-1` excludes none). */
  function KeepFrom(rev: seq<Card>, n: int, exclude: int, pos: int): seq<Card>
    decreases |rev|
  {
    if rev == [] then []
    else
      (if exclude == -1 || n - 1 - pos != exclude then [rev[0]] else [])
      + KeepFrom(rev[1..], n, exclude, pos + 1)
  }

  /** The cards of the history, oldest first, without the excluded one. */
  function Relevant(cards: seq<Card>, exclude: int): seq<Card> {
    KeepFrom(Reverse(cards), |cards|, exclude, 0)
  }

  /** `h` is a run of user/assistant pairs. */
  predicate Paired(h: seq<Message>)
    decreases |h|
  {
    h == [] || (|h| >= 2 && h[0].role.User? && h[1].role.Assistant? && Paired(h[2..]))
  }

  /** The pairs of a list of cards, in list order. */
  function Turns(cs: seq<Card>): (h: seq<Message>)
    ensures Paired(h) && |h| % 2 == 0
    ensures |h| <= 2 * |cs|
  {
    if cs == [] then []
    else
      var rest := Turns(cs[1..]);
      if Answered(cs[0]) then
        assert (Turn(cs[0]) + rest)[2..] == rest;
        Turn(cs[0]) + rest
      else
        assert Turn(cs[0]) + rest == rest;
        Turn(cs[0]) + rest
  }

  /** `buildConversationHistory(exclude)` over the newest-first card list. */
  function BuildHistory(cards: seq<Card>, exclude: int): (h: seq<Message>)
    ensures Paired(h) && |h| % 2 == 0
  {
    Turns(Relevant(cards, exclude))
  }

  /** Reference definition of the history, recursing from the newest card:
      the newest card is the last turn, the excluded one contributes
      nothing. */
  function HistoryRef(cards: seq<Card>, exclude: int): seq<Message>
    decreases |cards|
  {
    if cards == [] then []
    else HistoryRef(cards[1..], exclude - 1) + (if exclude == 0 then [] else Turn(cards[0]))
  }

  lemma {:induction false} KeepFromAppend(a: seq<Card>, b: seq<Card>, n: int, exclude: int, pos: int)
    ensures KeepFrom(a + b, n, exclude, pos)
         == KeepFrom(a, n, exclude, pos) + KeepFrom(b, n, exclude, pos + |a|)
    decreases |a|
  {
    if a == [] {
      assert a + b == b;
    } else {
      assert (a + b)[1..] == a[1..] + b;
      KeepFromAppend(a[1..], b, n, exclude, pos + 1);
    }
  }

  /** Dropping the newest card shifts every remaining index down by one. */
  lemma {:induction false} KeepFromShift(rev: seq<Card>, n: int, exclude: int, pos: int)
    requires 0 <= pos && pos + |rev| <= n - 1
    ensures KeepFrom(rev, n, exclude, pos) == KeepFrom(rev, n - 1, exclude - 1, pos)
    decreases |rev|
  {
    if rev != [] {
      KeepFromShift(rev[1..], n, exclude, pos + 1);
    }
  }

  lemma RelevantStep(cards: seq<Card>, exclude: int)
    requires |cards| > 0
    ensures Relevant(cards, exclude)
         == Relevant(cards[1..], exclude - 1) + (if exclude == 0 then [] else [cards[0]])
  {
    var n := |cards|;
    var older := Reverse(cards[1..]);
    assert Reverse(cards) == older + [cards[0]];
    KeepFromAppend(older, [cards[0]], n, exclude, 0);
    KeepFromShift(older, n, exclude, 0);
    assert KeepFrom([cards[0]], n, exclude, n - 1)
        == (if exclude == 0 then [] else [cards[0]]);
  }

  lemma {:induction false} TurnsAppend(a: seq<Card>, b: seq<Card>)
    ensures Turns(a + b) == Turns(a) + Turns(b)
    decreases |a|
  {
    if a == [] {
      assert a + b == b;
    } else {
      assert (a + b)[1..] == a[1..] + b;
      TurnsAppend(a[1..], b);
    }
  }

  /** The history the session builds (reverse, filter by index, flatten)
      agrees with the reference definition on every list and every
      excluded index. */
  lemma {:induction false} BuildHistoryIsRef(cards: seq<Card>, exclude: int)
    ensures BuildHistory(cards, exclude) == HistoryRef(cards, exclude)
    decreases |cards|
  {
    if cards != [] {
      RelevantStep(cards, exclude);
      var tail := if exclude == 0 then [] else [cards[0]];
      TurnsAppend(Relevant(cards[1..], exclude - 1), tail);
      BuildHistoryIsRef(cards[1..], exclude - 1);
      assert Turns(tail) == (if exclude == 0 then [] else Turn(cards[0])) by {
        if exclude != 0 {
          assert Turns(tail) == Turn(cards[0]) + Turns([]);
        }
      }
    }
  }

  /** Any negative index excludes nothing, exactly like `-1`. */
  lemma {:induction false} NegativeExcludesNothing(cards: seq<Card>, exclude: int)
    requires exclude < 0
    ensures HistoryRef(cards, exclude) == HistoryRef(cards, -1)
    decreases |cards|
  {
    if cards != [] {
      NegativeExcludesNothing(cards[1..], exclude - 1);
      NegativeExcludesNothing(cards[1..], -2);
    }
  }

  /** History is chronological: a newer card's pair comes after every pair
      of the older cards. */
  lemma HistoryOfNewer(c: Card, cards: seq<Card>)
    ensures BuildHistory([c] + cards, -1) == BuildHistory(cards, -1) + Turn(c)
  {
    BuildHistoryIsRef([c] + cards, -1);
    BuildHistoryIsRef(cards, -1);
    assert ([c] + cards)[1..] == cards;
    NegativeExcludesNothing(cards, -2);
  }

  /** Excluding index `i` is building the history of the list without card
      `i`. */
  lemma {:induction false} HistoryExcludesCard(cards: seq<Card>, i: int)
    requires 0 <= i < |cards|
    ensures BuildHistory(cards, i) == BuildHistory(cards[..i] + cards[i + 1..], -1)
    decreases i
  {
    BuildHistoryIsRef(cards, i);
    BuildHistoryIsRef(cards[..i] + cards[i + 1..], -1);
    RefExcludesCard(cards, i);
  }

  lemma {:induction false} RefExcludesCard(cards: seq<Card>, i: int)
    requires 0 <= i < |cards|
    ensures HistoryRef(cards, i) == HistoryRef(cards[..i] + cards[i + 1..], -1)
    decreases i
  {
    var rest := cards[..i] + cards[i + 1..];
    if i == 0 {
      assert rest == cards[1..];
      NegativeExcludesNothing(cards[1..], -1);
    } else {
      var shorter := cards[1..][..i - 1] + cards[1..][i..];
      RefExcludesCard(cards[1..], i - 1);
      assert HistoryRef(cards, i) == HistoryRef(shorter, -1) + Turn(cards[0]);
      assert rest[0] == cards[0];
      assert rest[1..] == shorter;
      assert HistoryRef(rest, -1) == HistoryRef(shorter, -2) + Turn(cards[0]);
      NegativeExcludesNothing(shorter, -2);
    }
  }

  /** A card without an answer leaves the history unchanged. */
  lemma UnansweredAddsNothing(c: Card, cards: seq<Card>)
    requires !Answered(c)
    ensures BuildHistory([c] + cards, -1) == BuildHistory(cards, -1)
  {
    HistoryOfNewer(c, cards);
  }

  /** With an unanswered card put in front, excluding card `i + 1` gives
      the history of the old list without card `i`. */
  lemma RetryHistory(c: Card, cards: seq<Card>, i: int)
    requires !Answered(c) && 0 <= i < |cards|
    ensures BuildHistory([c] + cards, i + 1) == BuildHistory(cards[..i] + cards[i + 1..], -1)
  {
    var after := [c] + cards;
    var others := cards[..i] + cards[i + 1..];
    HistoryExcludesCard(after, i + 1);
    assert after[..i + 1] == [c] + cards[..i];
    assert after[i + 2..] == cards[i + 1..];
    assert after[..i + 1] + after[i + 2..] == [c] + others;
    UnansweredAddsNothing(c, others);
  }

  // ---------------------------------------------------------------------
  // Keyword badges
  // ---------------------------------------------------------------------

  /** The keyword tests lower-case the text before searching it. */
  predicate Mentions(text: string, keyword: string) {
    Contains(Lower(text), keyword)
  }

  function VirusRule(question: string, response: string): (r: seq<string>)
    ensures |r| == 0 || |r| == 2
    ensures r != [] ==> Mentions(question, "virus")
  {
    if !Mentions(question, "virus") then []
    else if Mentions(response, "biological") || Mentions(response, "disease") then
      ["computer viruses", "antivirus software"]
    else if Mentions(response, "computer") || Mentions(response, "software") then
      ["biological viruses", "immune system"]
    else []
  }

  function MemoryRule(question: string, response: string): (r: seq<string>)
    ensures |r| == 0 || |r| == 2
    ensures r != [] ==> Mentions(question, "memory")
  {
    if !Mentions(question, "memory") then []
    else if Mentions(response, "computer") || Mentions(response, "ram") then
      ["human memory", "psychology"]
    else if Mentions(response, "brain") || Mentions(response, "remember") then
      ["computer memory", "storage"]
    else []
  }

  function NetworkRule(question: string, response: string): (r: seq<string>)
    ensures |r| == 0 || |r| == 2
    ensures r != [] ==> Mentions(question, "network")
  {
    if !Mentions(question, "network") then []
    else if Mentions(response, "computer") || Mentions(response, "internet") then
      ["social networks", "professional networking"]
    else if Mentions(response, "social") || Mentions(response, "people") then
      ["computer networks", "technical networking"]
    else []
  }

  const SECURITY_BADGES: seq<string> := ["cyber security", "physical security", "financial security"]

  const GENERIC_BADGES: seq<string> := ["technical approach", "practical approach", "theoretical approach"]

  /** A question about security always contributes the three security
      badges, whatever the response says. */
  function SecurityRule(question: string): (r: seq<string>)
    ensures Mentions(question, "security") ==> r == SECURITY_BADGES
    ensures !Mentions(question, "security") ==> r == []
  {
    if Mentions(question, "security") then SECURITY_BADGES else []
  }

  /** A question about clouds always contributes exactly two badges. */
  function CloudRule(question: string, response: string): (r: seq<string>)
    ensures |r| == 2 <==> Mentions(question, "cloud")
    ensures |r| == 0 <==> !Mentions(question, "cloud")
  {
    if !Mentions(question, "cloud") then []
    else if Mentions(response, "computing") || Mentions(response, "server") then
      ["weather clouds", "meteorology"]
    else ["cloud computing", "technology"]
  }

  /** The badges the rules push, in rule order, before the limit of three. */
  function Candidates(question: string, response: string): seq<string> {
    VirusRule(question, response) + MemoryRule(question, response)
    + NetworkRule(question, response) + SecurityRule(question)
    + CloudRule(question, response)
  }

  /** `generateReasoningBadges` of the card session. */
  function KeywordBadges(question: string, response: string): (badges: seq<string>)
    ensures 1 <= |badges| <= 3
    ensures Candidates(question, response) == [] ==> badges == GENERIC_BADGES
    ensures Candidates(question, response) != [] ==>
              |badges| <= |Candidates(question, response)|
              && badges == Candidates(question, response)[..|badges|]
    ensures Candidates(question, response) != [] ==>
              |badges| == if |Candidates(question, response)| < 3 then |Candidates(question, response)| else 3
  {
    var pushed := Candidates(question, response);
    Take(if pushed == [] then GENERIC_BADGES else pushed, 3)
  }

  /** The generic badges appear exactly when no keyword rule fires. */
  lemma GenericIffNoRuleFires(question: string, response: string)
    ensures KeywordBadges(question, response) == GENERIC_BADGES
        <==> Candidates(question, response) == []
  {
    var pushed := Candidates(question, response);
    if pushed != [] {
      var first := pushed[0];
      assert first in {"computer viruses", "biological viruses", "human memory",
                       "computer memory", "social networks", "computer networks",
                       "cyber security", "weather clouds", "cloud computing"};
      assert KeywordBadges(question, response)[0] == first;
      assert first != GENERIC_BADGES[0];
    }
  }

  /** A security question on which none of the virus, memory and network
      rules fires gets exactly the security badges: a cloud badge pushed
      after them is cut off by the limit of three. */
  lemma SecurityBadgesFirst(question: string, response: string)
    requires Mentions(question, "security")
    requires VirusRule(question, response) == []
    requires MemoryRule(question, response) == []
    requires NetworkRule(question, response) == []
    ensures KeywordBadges(question, response) == SECURITY_BADGES
  {
    assert Candidates(question, response) == SECURITY_BADGES + CloudRule(question, response);
  }

  /** A cloud question that mentions none of the other topics gets exactly
      two badges. */
  lemma CloudOnlyGivesTwo(question: string, response: string)
    requires Mentions(question, "cloud")
    requires !Mentions(question, "virus") && !Mentions(question, "memory")
    requires !Mentions(question, "network") && !Mentions(question, "security")
    ensures |KeywordBadges(question, response)| == 2
    ensures KeywordBadges(question, response) == CloudRule(question, response)
  {
    assert Candidates(question, response) == CloudRule(question, response);
  }

  lemma MentionsLower(text: string, keyword: string)
    ensures Mentions(Lower(text), keyword) == Mentions(text, keyword)
  {
    LowerIdempotent(text);
  }

  lemma VirusRuleLower(question: string, response: string)
    ensures VirusRule(Lower(question), Lower(response)) == VirusRule(question, response)
  {
    MentionsLower(question, "virus");
    MentionsLower(response, "biological");
    MentionsLower(response, "disease");
    MentionsLower(response, "computer");
    MentionsLower(response, "software");
  }

  lemma MemoryRuleLower(question: string, response: string)
    ensures MemoryRule(Lower(question), Lower(response)) == MemoryRule(question, response)
  {
    MentionsLower(question, "memory");
    MentionsLower(response, "computer");
    MentionsLower(response, "ram");
    MentionsLower(response, "brain");
    MentionsLower(response, "remember");
  }

  lemma NetworkRuleLower(question: string, response: string)
    ensures NetworkRule(Lower(question), Lower(response)) == NetworkRule(question, response)
  {
    MentionsLower(question, "network");
    MentionsLower(response, "computer");
    MentionsLower(response, "internet");
    MentionsLower(response, "social");
    MentionsLower(response, "people");
  }

  lemma CloudRuleLower(question: string, response: string)
    ensures CloudRule(Lower(question), Lower(response)) == CloudRule(question, response)
  {
    MentionsLower(question, "cloud");
    MentionsLower(response, "computing");
    MentionsLower(response, "server");
  }

  /** The heuristic ignores letter case in both the question and the
      response. */
  lemma KeywordBadgesIgnoreCase(question: string, response: string)
    ensures KeywordBadges(Lower(question), Lower(response)) == KeywordBadges(question, response)
  {
    var q, r := Lower(question), Lower(response);
    VirusRuleLower(question, response);
    MemoryRuleLower(question, response);
    NetworkRuleLower(question, response);
    CloudRuleLower(question, response);
    MentionsLower(question, "security");
    assert Candidates(q, r) == Candidates(question, response);
  }
}
