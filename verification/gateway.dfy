/** The server action of the LLM gateway: the tier-to-model choice, the
    request sent to the hosted chat-completion API, the relay that turns the
    provider's delta stream into a plain text stream, and the parser of the
    comma-separated follow-up badges with its fixed fallback. The provider
    itself is an input: the deltas it streams, or the reply it completes. */
module Gateway {
  import opened Wrappers
  import opened Text

  /** The two quality tiers a caller may ask for. */
  datatype Tier = Fast | Slow

  datatype Role = System | User | Assistant

  /** One chat message: a role and its text. */
  datatype Message = Message(role: Role, content: string)

  const FAST_MODEL: string := "microsoft/phi-3-mini-128k-instruct"
  const SLOW_MODEL: string := "x-ai/grok-4"

  /** The model the gateway asks for: the fast model for the fast tier,
      the slow model for every other tier. */
  function ModelFor(tier: Tier): (model: string)
    ensures model == FAST_MODEL <==> tier.Fast?
    ensures model == SLOW_MODEL <==> tier.Slow?
  {
    assert |FAST_MODEL| != |SLOW_MODEL|;
    match tier
    case Fast => FAST_MODEL
    case Slow => SLOW_MODEL
  }

  /** A chat-completion request as sent upstream. */
  datatype ChatRequest = ChatRequest(model: string, messages: seq<Message>, stream: bool)

  /** The streaming request: the fixed system prompt, then the caller's
      conversation untouched. */
  function StreamRequest(messages: seq<Message>, tier: Tier, systemPrompt: string): (r: ChatRequest)
    ensures r.model == ModelFor(tier) && r.stream
    ensures |r.messages| == |messages| + 1
    ensures r.messages[0] == Message(System, systemPrompt)
    ensures r.messages[1..] == messages
  {
    ChatRequest(ModelFor(tier), [Message(System, systemPrompt)] + messages, true)
  }

  /** How a stream ends: closed normally, or with an error. */
  datatype StreamEnd = Closed | Errored

  /** What the provider does with a streaming request: it rejects the call
      outright, or it delivers a sequence of deltas and then ends. A delta
      is `None` when any link of `choices[0]?.delta?.content` is missing. */
  datatype Upstream =
    | Rejected
    | Delivered(deltas: seq<Option<string>>, end: StreamEnd)

  /** The text stream handed back to the browser. */
  datatype Stream = Stream(chunks: seq<string>, end: StreamEnd)

  /** The text of one delta, with a missing or empty content read as "". */
  function DeltaText(delta: Option<string>): string {
    delta.GetOr("")
  }

  function DeltaTexts(deltas: seq<Option<string>>): (texts: seq<string>)
    ensures |texts| == |deltas|
  {
    if deltas == [] then [] else [DeltaText(deltas[0])] + DeltaTexts(deltas[1..])
  }

  /** The relay loop: every non-empty delta text is enqueued, in order;
      empty ones are dropped. */
  function Relay(deltas: seq<Option<string>>): (chunks: seq<string>)
    ensures forall k :: 0 <= k < |chunks| ==> chunks[k] != ""
    ensures Concat(chunks) == Concat(DeltaTexts(deltas))
    ensures |chunks| <= |deltas|
    ensures chunks == NonEmpty(DeltaTexts(deltas))
  {
    if deltas == [] then []
    else
      var t := DeltaText(deltas[0]);
      var rest := Relay(deltas[1..]);
      assert DeltaTexts(deltas)[1..] == DeltaTexts(deltas[1..]);
      if t == "" then rest
      else
        assert ([t] + rest)[1..] == rest;
        [t] + rest
  }

  /** `streamLLM`: a rejected call surfaces to the browser as an error with
      no text; otherwise the relayed chunks followed by the upstream end. */
  function StreamLLM(upstream: Upstream): (s: Stream)
    ensures upstream.Rejected? ==> s == Stream([], Errored)
    ensures upstream.Delivered? ==> s.end == upstream.end
    ensures upstream.Delivered? ==> Concat(s.chunks) == Concat(DeltaTexts(upstream.deltas))
    ensures upstream.Delivered? ==> s.chunks == NonEmpty(DeltaTexts(upstream.deltas))
    ensures forall k :: 0 <= k < |s.chunks| ==> s.chunks[k] != ""
  {
    match upstream
    case Rejected => Stream([], Errored)
    case Delivered(deltas, end) => Stream(Relay(deltas), end)
  }

  /** The outcome of the non-streamed badge completion call. */
  datatype Completion =
    | Replied(content: Option<string>)
    | CallFailed

  const FALLBACK_BADGES: seq<string> := ["More Info", "Related Topics", "Deep Dive"]

  /** One comma-separated field of the reply, cleaned: trimmed, then one
      leading and one trailing quote character removed. */
  function CleanField(field: string): string {
    StripQuotes(Trim(field))
  }

  function CleanFields(fields: seq<string>): (r: seq<string>)
    ensures |r| == |fields|
    ensures forall k :: 0 <= k < |fields| ==> r[k] == CleanField(fields[k])
  {
    if fields == [] then [] else [CleanField(fields[0])] + CleanFields(fields[1..])
  }

  /** `.filter(Boolean)` on strings: drop the empty ones, keep the order. */
  function NonEmpty(items: seq<string>): (r: seq<string>)
    ensures |r| <= |items|
    ensures forall k :: 0 <= k < |r| ==> r[k] != "" && r[k] in items
    ensures (forall k :: 0 <= k < |items| ==> items[k] != "") ==> r == items
    ensures forall k :: 0 <= k < |items| && items[k] != "" ==> items[k] in r
  {
    if items == [] then []
    else if items[0] == "" then NonEmpty(items[1..])
    else [items[0]] + NonEmpty(items[1..])
  }

  /** The filter works item by item: the survivors of a concatenation are
      the survivors of each part, in order, and a single item survives
      exactly when it is non-empty. */
  lemma {:induction false} NonEmptyAppend(a: seq<string>, b: seq<string>)
    ensures NonEmpty(a + b) == NonEmpty(a) + NonEmpty(b)
    ensures forall x :: NonEmpty([x]) == if x == "" then [] else [x]
    decreases |a|
  {
    forall x ensures NonEmpty([x]) == if x == "" then [] else [x] {
      assert [x][1..] == [];
    }
    if a != [] {
      assert (a + b)[0] == a[0];
      assert (a + b)[1..] == a[1..] + b;
      NonEmptyAppend(a[1..], b);
    } else {
      assert a + b == b;
    }
  }

  /** A badge that cleaning leaves alone: non-empty, tight, unquoted at
      both ends and free of commas. */
  predicate PlainBadge(b: string) {
    && b != "" && Tight(b) && ',' !in b
    && !IsQuote(b[0]) && !IsQuote(b[|b| - 1])
  }

  /** A reply with a trailing comma, as in `A, B,`: the empty last field is
      dropped and the two badges come back in order. */
  lemma TrailingCommaIsDropped(a: string, b: string)
    requires PlainBadge(a) && PlainBadge(b)
    ensures ParseBadges(a + ", " + b + ",") == [a, b]
  {
    var fields := [a, " " + b, ""];
    assert Join(fields, ',') == a + ", " + b + "," by {
      assert fields[1..] == [" " + b, ""] && fields[1..][1..] == [""];
      assert Join(fields[1..], ',') == " " + b + [','] + "";
    }
    assert ',' !in " " + b;
    ParseBadgesOfAnyFields(fields);
    TrailingFieldsClean(a, b);
    LastEmptyDropped(a, b);
  }

  lemma LastEmptyDropped(a: string, b: string)
    requires a != "" && b != ""
    ensures NonEmpty([a, b, ""]) == [a, b]
  {
    NonEmptyAppend([a, b], [""]);
    NonEmptyAppend([a], [b]);
    assert [a, b] + [""] == [a, b, ""] && [a] + [b] == [a, b];
  }

  lemma TrailingFieldsClean(a: string, b: string)
    requires PlainBadge(a) && PlainBadge(b)
    ensures CleanFields([a, " " + b, ""]) == [a, b, ""]
  {
    CleanFieldsOfThree(a, " " + b, "");
    PlainFieldsClean(a, b);
  }

  lemma CleanFieldsOfThree(x: string, y: string, z: string)
    ensures CleanFields([x, y, z]) == [CleanField(x), CleanField(y), CleanField(z)]
  {
  }

  lemma PlainFieldsClean(a: string, b: string)
    requires PlainBadge(a) && PlainBadge(b)
    ensures CleanField(a) == a && CleanField(" " + b) == b && CleanField("") == ""
  {
    BareFieldClean(a);
    SpacedFieldClean(b);
    EmptyFieldClean();
  }

  lemma BareFieldClean(a: string)
    requires PlainBadge(a)
    ensures CleanField(a) == a
  {
    PlainFieldClean("", a);
    assert "" + a == a;
  }

  lemma SpacedFieldClean(b: string)
    requires PlainBadge(b)
    ensures CleanField(" " + b) == b
  {
    PlainFieldClean(" ", b);
  }

  lemma PlainFieldClean(pre: string, b: string)
    requires AllSpace(pre) && PlainBadge(b)
    ensures CleanField(pre + b) == b
  {
    CleanTight(pre, b);
  }

  lemma EmptyFieldClean()
    ensures CleanField("") == ""
  {
    TrimEmptyIffAllSpace("");
  }

  /** A field of white space then unquoted tight text cleans to that text. */
  lemma CleanTight(pre: string, text: string)
    requires AllSpace(pre) && Tight(text)
    requires text == "" || (!IsQuote(text[0]) && !IsQuote(text[|text| - 1]))
    ensures CleanField(pre + text) == text
  {
    assert Trim(pre + text) == text by {
      TrimPadded(pre, text, "");
      assert pre + text + "" == pre + text;
    }
    StripQuotesOfUnquoted(text);
  }

  /** The badge parser applied to a successful reply. */
  function ParseBadges(reply: string): (badges: seq<string>)
    ensures |badges| <= 3
    ensures forall k :: 0 <= k < |badges| ==> badges[k] != "" && ',' !in badges[k]
    ensures Count(reply, ',') == 0 ==> |badges| <= 1
  {
    var fields := Split(reply, ',');
    var cleaned := CleanFields(fields);
    assert forall k :: 0 <= k < |cleaned| ==> ',' !in cleaned[k] by {
      forall k | 0 <= k < |cleaned| ensures ',' !in cleaned[k] {
        TrimKeepsChars(fields[k]);
        StripQuotesKeepsChars(Trim(fields[k]));
      }
    }
    Take(NonEmpty(cleaned), 3)
  }

  /** `generateReasoningBadges` of the gateway: a failed call yields the
      fixed fallback; a reply, possibly without content, is parsed. */
  function BadgesFor(completion: Completion): (badges: seq<string>)
    ensures completion.CallFailed? ==> badges == FALLBACK_BADGES
    ensures completion.Replied? ==> badges == ParseBadges(completion.content.GetOr(""))
    ensures |badges| <= 3 && forall k :: 0 <= k < |badges| ==> badges[k] != ""
  {
    match completion
    case CallFailed => FALLBACK_BADGES
    case Replied(content) => ParseBadges(content.GetOr(""))
  }

  /** Parsing undoes any rendering of the badges as comma-separated fields
      whose cleaning gives back the badge: the first three come back, in
      order. */
  lemma {:induction false} ParseBadgesOfFields(fields: seq<string>, badges: seq<string>)
    requires |fields| == |badges| > 0
    requires forall k :: 0 <= k < |fields| ==> ',' !in fields[k]
    requires forall k :: 0 <= k < |fields| ==> CleanField(fields[k]) == badges[k] != ""
    ensures ParseBadges(Join(fields, ',')) == Take(badges, 3)
  {
    SplitJoin(fields, ',');
    var reply := Join(fields, ',');
    assert Split(reply, ',') == fields;
    var cleaned := CleanFields(fields);
    assert ParseBadges(reply) == Take(NonEmpty(cleaned), 3);
    assert cleaned == badges by {
      assert |cleaned| == |badges|;
      forall k | 0 <= k < |badges| ensures cleaned[k] == badges[k] { }
    }
    assert NonEmpty(badges) == badges;
  }

  /** For any comma-free fields, the badges are the cleaned fields that
      are not empty, in order, cut to three: an empty field, such as the
      one after a trailing comma, is simply skipped. */
  lemma ParseBadgesOfAnyFields(fields: seq<string>)
    requires |fields| > 0
    requires forall k :: 0 <= k < |fields| ==> ',' !in fields[k]
    ensures ParseBadges(Join(fields, ',')) == Take(NonEmpty(CleanFields(fields)), 3)
  {
    SplitJoin(fields, ',');
  }

  /** A quoted, space-padded rendering of one badge is cleaned back to it. */
  lemma CleanQuotedField(pre: string, open: char, badge: string, close: char, post: string)
    requires AllSpace(pre) && AllSpace(post) && IsQuote(open) && IsQuote(close)
    ensures CleanField(pre + ([open] + badge + [close]) + post) == badge
  {
    var quoted := [open] + badge + [close];
    assert Tight(quoted);
    TrimPadded(pre, quoted, post);
    StripQuotesOfQuoted(open, badge, close);
  }

  /** A successful reply with no usable field yields no badges at all: the
      fixed fallback is reserved for a failed call. */
  lemma BlankReplyGivesNoBadges(reply: string)
    requires AllSpace(reply)
    ensures BadgesFor(Replied(Some(reply))) == []
    ensures BadgesFor(Replied(None)) == []
  {
    assert Count("", ',') == 0;
    if Count(reply, ',') == 0 {
      JoinSplit(reply, ',');
    }
    var fields := Split(reply, ',');
    forall k | 0 <= k < |fields| ensures CleanField(fields[k]) == "" {
      BlankFieldOfBlank(reply, k);
      TrimEmptyIffAllSpace(fields[k]);
    }
    AllEmptyIsDropped(CleanFields(fields));
  }

  lemma {:induction false} BlankFieldOfBlank(s: string, k: int)
    requires AllSpace(s) && 0 <= k < |Split(s, ',')|
    ensures AllSpace(Split(s, ',')[k])
    decreases |s|
  {
    if s != [] {
      var rest := Split(s[1..], ',');
      assert AllSpace(s[1..]) by {
        forall i | 0 <= i < |s[1..]| ensures IsSpace(s[1..][i]) {
          assert s[1..][i] == s[i + 1];
        }
      }
      assert IsSpace(s[0]) && s[0] != ',';
      if k == 0 {
        BlankFieldOfBlank(s[1..], 0);
        var f := [s[0]] + rest[0];
        forall i | 0 <= i < |f| ensures IsSpace(f[i]) {
          if i > 0 {
            assert f[i] == rest[0][i - 1];
          }
        }
      } else {
        BlankFieldOfBlank(s[1..], k);
      }
    }
  }

  lemma {:induction false} AllEmptyIsDropped(items: seq<string>)
    requires forall k :: 0 <= k < |items| ==> items[k] == ""
    ensures NonEmpty(items) == []
    decreases |items|
  {
    if items != [] {
      AllEmptyIsDropped(items[1..]);
    }
  }
}
