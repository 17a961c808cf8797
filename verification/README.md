# llm-cards: a verified model of the card session

llm-cards is a question-answering page styled like a terminal. Each
question becomes a card. A fast model streams an answer into the card, and
the card then offers keyword badges. The user acts on the selected card:

- a swipe right expands it with a slow model;
- a swipe left asks again in a new card in front;
- a badge click steers the answer in place.

A server action relays the hosted model's stream and parses
comma-separated follow-up badges.

This project models the logic behind that, as pure Dafny functions over
immutable datatypes, and proves properties of it:

- `Text` (`text.dfy`): the JavaScript string operations the code relies on, written out over `seq<char>`:
  - `trim` with the ECMAScript white-space set;
  - `toLowerCase` for the letters the keyword rules test;
  - `includes`, `split(",")` with its inverse `join`;
  - the quote-stripping regular expression, `slice(0, n)`, and concatenation.
- `Gateway` (`gateway.dfy`): the server action in `app/actions/streamLLM.ts`:
  - the tier-to-model choice;
  - the system message put in front of the conversation;
  - the relay that drops empty deltas;
  - the badge parser with its fallback.
- `Cards` (`cards.dfy`): the card record, `buildConversationHistory` and the keyword `generateReasoningBadges` of `components/CardInterface.tsx`.
- `Session` (`session.dfy`): the session of `components/CardInterface.tsx`:
  - the newest-first card list, the selected index, the loading flag and the abort handle;
  - the four user actions and card selection;
  - the chunk, completion and error callbacks of every started stream.

  Each stream is a `Generation` that records what its callbacks captured: the card they address (by id for ask and reject, by index for expand and steer), the question, the phase and the first-chunk flag.
- `Swipe` (`swipe.dfy`): the gesture logic of `components/CardSwipeable.tsx` (start, move, the threshold decision on release, reset) and the status text, model icon, badge row and variant navigation conditions.
- `Input` (`input.dfy`): the submit gate and the disabled states of `components/QuestionInput.tsx`.
- `App` (`app.dfy`): the page. The form feeds the session and the selected card is shown swipeable. Properties that span components are proved here.

The code is modelled as written, including its quirks:

- Asking a question does not abort the stream already running. It only replaces the handle.
- The read loop tests for the end of the stream before it tests its abort flag. An aborted stream whose next read is the end still completes its card.
- Every completion or error clears the handle, including that of a stream already replaced. The next action then aborts nothing (`Session.StaleCompletionOrphansActive`).
- A stream that ends without a single chunk never clears the loading flag (`Session.AskThenStream`).
- Expand and steer streams write into the slot they captured, not the card. After a new question shifts the list, they write into the new card (`Session.ExpansionFollowsTheSlot`). Ask and reject streams match the front card by id, and once another card is in front their chunks go nowhere (`Session.ShiftedStreamIsDropped`).
- A successful badge reply that is empty or blank yields no badges at all; only a failed call yields the fixed fallback (`Gateway.BlankReplyGivesNoBadges`).
- The model label written on a card (`mistralai/ministral-3b`, `google/gemini-2.5-pro`) is not the model the gateway calls (`microsoft/phi-3-mini-128k-instruct`, `x-ai/grok-4`) (`App.CardLabelIsNotModelCalled`).
- The card view is never given a detailed-section flag, and nothing fills in detailed variants. Gestures are therefore gated only on loading and streaming, and the variant navigation never shows (`App.NoVariantNavigation`).

## Model

| member | source | states |
|---|---|---|
| Text.Trim | components/QuestionInput.tsx:18-19 | the result has no space at either end and sits inside the input with only ECMAScript white space before and after it |
| Text.TrimEmptyIffAllSpace | components/CardInterface.tsx:47 | trimming gives the empty string exactly when the text is all white space, so `trim()` is falsy exactly on blank text |
| Text.TrimPadded | components/QuestionInput.tsx:19 | trimming any space padding around a tight string gives that string back |
| Text.TrimIdempotent | components/QuestionInput.tsx:19 | trimming a trimmed string changes nothing |
| Text.Lower | components/CardInterface.tsx:61 | lower-casing keeps the length, maps each character on its own, and leaves no ASCII capital or Kelvin sign |
| Text.LowerIdempotent | components/CardInterface.tsx:61-90 | lower-casing twice is lower-casing once |
| Text.ContainsIffOccurs | components/CardInterface.tsx:61 | `includes` holds exactly when the keyword occurs at some position of the text |
| Text.Split | app/actions/streamLLM.ts:84 | splitting on a comma gives one more field than there are commas, and no field holds a comma |
| Text.JoinSplit | app/actions/streamLLM.ts:84 | joining the fields of a split with the separator gives back the original text |
| Text.SplitJoin | app/actions/streamLLM.ts:84 | splitting a join of comma-free fields gives back the fields |
| Text.StripQuotes | app/actions/streamLLM.ts:85 | the result is the input without its first character exactly when that is a quote, and without its last character exactly when the input has two or more characters and the last is a quote; nothing else is removed |
| Text.StripQuotesOfQuoted | app/actions/streamLLM.ts:85 | any text wrapped in one quote character on each side is unwrapped exactly |
| Text.ConcatAppend | app/actions/streamLLM.ts:33-37 | concatenating two chunk lists back to back concatenates their texts |
| Text.Take | components/CardInterface.tsx:102 | `slice(0, n)` is the prefix of length at most `n` |
| Gateway.ModelFor | app/actions/streamLLM.ts:16-23 | the fast model is chosen exactly for the fast tier and the slow model exactly for the slow tier |
| Gateway.StreamRequest | app/actions/streamLLM.ts:22-26 | the request streams, names the tier's model, and is the system message followed by the caller's messages unchanged, one longer |
| Gateway.Relay | app/actions/streamLLM.ts:33-38 | the chunks are exactly the delta contents that are non-empty, in order, with a missing content read as ""; so none is empty, there are no more chunks than deltas, and they concatenate to the delta contents |
| Gateway.StreamLLM | app/actions/streamLLM.ts:19-47 | a rejected call gives an error with no text; otherwise the relayed text followed by the upstream's own end, normal or error |
| Gateway.NonEmpty | app/actions/streamLLM.ts:86 | the filter keeps exactly the non-empty fields of the input: every kept field is non-empty and from the input, and every non-empty field is kept |
| Gateway.NonEmptyAppend | app/actions/streamLLM.ts:86 | the filter works item by item: filtering a concatenation concatenates the filtered parts in order, and one item survives exactly when it is non-empty |
| Gateway.ParseBadges | app/actions/streamLLM.ts:82-87 | at most three badges, none empty or containing a comma; a reply without a comma gives at most one |
| Gateway.BadgesFor | app/actions/streamLLM.ts:74-91 | a failed call gives exactly the three fallback labels; a reply, possibly without content, is parsed |
| Gateway.ParseBadgesOfFields | app/actions/streamLLM.ts:83-87 | comma-joined fields that clean to non-empty badges parse back to the first three badges, in order |
| Gateway.ParseBadgesOfAnyFields | app/actions/streamLLM.ts:83-87 | for any comma-free fields, the badges are the first three cleaned fields that are not empty, in order; a field that cleans to empty is skipped |
| Gateway.TrailingCommaIsDropped | app/actions/streamLLM.ts:84-86 | a reply such as `A, B,` gives exactly the two badges, in order: the empty field after the trailing comma is dropped |
| Gateway.CleanQuotedField | app/actions/streamLLM.ts:85 | a quoted badge padded with white space is cleaned back to the badge |
| Gateway.BlankReplyGivesNoBadges | app/actions/streamLLM.ts:82-87 | an empty, blank or missing successful reply gives no badges, not the fallback |
| Cards.AnsweredIffTrimmed | components/CardInterface.tsx:47 | a card takes part in the history exactly when its trimmed response is non-empty |
| Cards.Turns | components/CardInterface.tsx:46-51 | the flattened history is a run of user/assistant pairs, at most two messages per card |
| Cards.BuildHistory | components/CardInterface.tsx:33-54 | the history is always user/assistant pairs, so its length is even |
| Cards.BuildHistoryIsRef | components/CardInterface.tsx:33-54 | reversing, filtering by original index and flattening agrees with the newest-last recursive definition on every list and index |
| Cards.NegativeExcludesNothing | components/CardInterface.tsx:42 | any negative index excludes no card, like -1 |
| Cards.HistoryOfNewer | components/CardInterface.tsx:36-43 | the history is oldest first: a newer card's pair comes after all pairs of the older cards |
| Cards.HistoryExcludesCard | components/CardInterface.tsx:40-43 | excluding index `i` gives the history of the list with card `i` removed |
| Cards.UnansweredAddsNothing | components/CardInterface.tsx:47-50 | a card with a blank response adds nothing to the history |
| Cards.VirusRule | components/CardInterface.tsx:61-67 | the virus rule pushes zero or two badges, and only for a question mentioning "virus" |
| Cards.MemoryRule | components/CardInterface.tsx:69-75 | the memory rule pushes zero or two badges, and only for a question mentioning "memory" |
| Cards.NetworkRule | components/CardInterface.tsx:77-83 | the network rule pushes zero or two badges, and only for a question mentioning "network" |
| Cards.SecurityRule | components/CardInterface.tsx:85-87 | a question mentioning "security" pushes the three security badges, any other pushes none |
| Cards.CloudRule | components/CardInterface.tsx:89-95 | a question mentioning "cloud" pushes exactly two badges, any other none |
| Cards.Reverse | components/CardInterface.tsx:37-39 | the reversed list has the same length and holds element `n - 1 - i` at position `i` |
| Cards.KeywordBadges | components/CardInterface.tsx:56-103 | one to three badges: the generic three when no rule pushed any, otherwise the first three pushed badges in rule order, or all of them when fewer were pushed |
| Cards.GenericIffNoRuleFires | components/CardInterface.tsx:97-100 | the result is the generic three exactly when no rule fires |
| Cards.SecurityBadgesFirst | components/CardInterface.tsx:85-102 | a security question on which the earlier rules stay silent gets exactly the security badges, a cloud badge being cut off |
| Cards.CloudOnlyGivesTwo | components/CardInterface.tsx:89-102 | a cloud question mentioning no other topic gets exactly the two cloud badges |
| Cards.MentionsLower | components/CardInterface.tsx:61 | a keyword test gives the same answer on the lower-cased text |
| Cards.KeywordBadgesIgnoreCase | components/CardInterface.tsx:56-103 | the badges do not depend on letter case in either the question or the response |
| Session.AbortActive | components/CardInterface.tsx:244-247 | the stream the handle names is marked aborted, no other stream changes, and the handle is cleared |
| Session.Launch | components/CardInterface.tsx:113-114 | the new stream becomes the handle without the previous one being aborted |
| Session.Submit | components/CardInterface.tsx:165-199 | a new `fast_responding` card with the question, an empty response and the fast label goes in front; older cards are untouched; the index is 0 and loading is set; the call is the history of the previous cards plus the question on the fast tier; no running stream is aborted |
| Session.Reject | components/CardInterface.tsx:325-375 | an empty list is unchanged; otherwise the active stream alone is aborted, the new stream becomes the handle, and a new card with the selected card's question goes in front and is selected; the call is the history without the rejected card, its question and answer, and the rejection |
| Session.Expand | components/CardInterface.tsx:411-464 | unless the selected card is `fast_complete` nothing happens; otherwise the active stream alone is aborted, the new stream becomes the handle, and that card alone becomes `detailed_responding` with an empty response, the detailed label and no badges; the list length and index stay; the call uses the slow tier |
| Session.Steer | components/CardInterface.tsx:237-277 | unless the selected card is `fast_complete` nothing happens; otherwise the active stream alone is aborted, the new stream becomes the handle, and that card alone goes back to `fast_responding` with an empty response and no badges or sections; the call ends with the question narrowed to the badge |
| Session.PreemptedStreamIsSilenced | components/CardInterface.tsx:244-247 | after an expand or a steer, every chunk the previously active stream still reads reaches no card and leaves loading set |
| Session.PreemptedStreamStillCompletes | components/CardInterface.tsx:131-135 | the end of a preempted stream is read before its abort flag, so it still runs the completion: the card its target resolves to is marked complete, the handle is cleared, and every other card is unchanged |
| Session.Select | components/CardInterface.tsx:528 | the dots change the selected index and nothing else |
| Session.Resolve | components/CardInterface.tsx:202 | an id-addressed callback reaches index 0 exactly when that card has the captured id; an index-addressed one reaches the captured index exactly when it is in range |
| Session.Chunk | components/CardInterface.tsx:128-143 | an aborted stream stops without writing; otherwise the first chunk clears loading and the chunk is appended to the addressed card alone |
| Session.Completed | components/CardInterface.tsx:211-226 | a completed fast card is `fast_complete` with the keyword badges of its final response; a detailed one is `detailed_complete` and keeps its badges; the card stops streaming, and its id, question, response, model label, sections, variants and variant index are all kept |
| Session.Done | components/CardInterface.tsx:131-135 | completion, even of an aborted stream, completes the addressed card only, clears the handle and leaves loading alone |
| Session.Fail | components/CardInterface.tsx:229-233 | an error clears loading and the handle and leaves every card as it is |
| Session.Apply | components/CardInterface.tsx:509-528 | only a new question or a rejection of an existing card adds a card, in front, selected, with loading set; every other event keeps the number of cards; stream callbacks keep the selection; an error of a running stream clears loading and keeps every card |
| Session.ApplyPreservesValid | components/CardInterface.tsx:179-180 | every event keeps the selected index on a card whenever there is one |
| Session.ApplyPreservesUniqueIds | components/CardInterface.tsx:170 | given fresh ids for new cards, no two cards ever share an id |
| Session.Feed | components/CardInterface.tsx:128-143 | feeding chunks leaves the number of cards and streams alone |
| Session.FeedAppends | components/CardInterface.tsx:192-210 | the addressed card's response grows by exactly the concatenated chunks, in order; no other card changes; loading is cleared once a chunk arrives |
| Session.CancelledStreamAppendsNothing | components/CardInterface.tsx:137-141 | an aborted stream writes no chunk into any card |
| Session.AskThenFeed | components/CardInterface.tsx:165-210 | before it is done, a new question's stream has filled the new card with the concatenated chunks, left the older cards alone, and cleared loading only if a chunk arrived |
| Session.AskThenStream | components/CardInterface.tsx:165-228 | a question streamed to the end leaves its card `fast_complete` holding the concatenated chunks and their badges; loading is cleared only if a chunk arrived, both after the last chunk and after the end |
| Session.AskHistoryIsPostUpdate | components/CardInterface.tsx:183 | the history built before the new card is added equals the history of the updated list |
| Session.RejectHistoryExcludesRejected | components/CardInterface.tsx:352 | the rejection's history equals the history of the other cards and that of the updated list without the rejected card |
| Session.StateEntry | components/CardInterface.tsx:428-441 | a card becomes `detailed_responding` only by expanding the selected `fast_complete` card, and `fast_complete` only on completion |
| Session.ExpansionFollowsTheSlot | components/CardInterface.tsx:472 | once a front-card expansion's first chunk has cleared loading, a question can be asked, and the expansion's next chunk lands in the new card while the expanded card keeps only its first chunk |
| Session.ShiftedStreamIsDropped | components/CardInterface.tsx:376 | once a rejection's first chunk has cleared loading, a question can be asked, and from then on the rejection's stream, never aborted, writes nothing |
| Session.DroppedStreamWritesNothing | components/CardInterface.tsx:202 | a stream whose card cannot be found writes no chunk |
| Session.StaleCompletionOrphansActive | components/CardInterface.tsx:227 | a replaced stream's completion clears the handle, so the next action leaves the active stream running |
| Swipe.Frozen | components/CardSwipeable.tsx:49 | gestures are refused while the session loads, while the card streams, or on a detailed-section card; `Swipe.FrozenCardIgnoresGesture` shows a refused card ignores start, move and release |
| Swipe.Start | components/CardSwipeable.tsx:48-52 | on a frozen card nothing changes; otherwise a drag starts from where the card already is |
| Swipe.Move | components/CardSwipeable.tsx:54-59 | while dragging an unfrozen card its offset is the pointer minus the origin and its tilt is 0.05 degree per pixel |
| Swipe.End | components/CardSwipeable.tsx:61-83 | right beyond 80 on a `fast_complete` card accepts and flings right; left beyond -80 declines and flings left in any state; every other release springs back to 0; no drag or a frozen card ignores the release |
| Swipe.Reset | components/CardSwipeable.tsx:85-88 | the offset and tilt return to zero |
| Swipe.GestureFollowsPointer | components/CardSwipeable.tsx:51-57 | a whole gesture moves the card by the pointer's displacement, and that displacement alone decides the intent |
| Swipe.FrozenCardIgnoresGesture | components/CardSwipeable.tsx:49-62 | start, move and release on a frozen card change nothing |
| Swipe.BoundaryReleaseSpringsBack | components/CardSwipeable.tsx:65-82 | a release at exactly 80 or -80, or beyond 80 on a card that is not `fast_complete`, springs back to zero and asks nothing |
| Swipe.StatusText | components/CardSwipeable.tsx:103-114 | every state has one of the four status texts |
| Swipe.StatusState | components/CardSwipeable.tsx:103-114 | exactly the four status texts read back as a state |
| Swipe.StatusTextRoundTrip | components/CardSwipeable.tsx:103-114 | reading the status text back gives the state, so the texts tell the four states apart |
| Swipe.ModelIcon | components/CardSwipeable.tsx:116-118 | the processor icon is shown exactly for labels containing "mistral" |
| Swipe.LabelIcons | components/CardSwipeable.tsx:117 | the fast label shows the processor icon, the detailed label the terminal icon |
| Swipe.ShowBadges | components/CardSwipeable.tsx:285-288 | the badge row shows on a `fast_complete` card outside a detailed section with at least one badge; `App.CompletedFastCardShowsBadges` shows a completed fast card always meets it |
| Swipe.VariantNavOf | components/CardSwipeable.tsx:258-266 | the navigation shows exactly on a `detailed_complete` card with two or more variants, as position index+1 (1 when unset) of the count |
| Input.HandleSubmit | components/QuestionInput.tsx:16-22 | a question is sent exactly when the field is not blank and nothing is loading; it is the trimmed field and the field is cleared; otherwise the field is kept |
| Input.InputDisabled | components/QuestionInput.tsx:57 | while the field is disabled, a submission of any text sends nothing and keeps the field |
| Input.SubmitDisabled | components/QuestionInput.tsx:64 | the button is disabled exactly when a submission would send nothing, so a submission goes through exactly when the button is enabled |
| Input.SentQuestionIsTight | components/QuestionInput.tsx:19 | a sent question is non-empty and has no space at either end |
| App.Perform | components/CardInterface.tsx:509-531 | every allowed action on the page keeps the session valid; typing is allowed only while the field is enabled |
| App.StartIsWellFormed | components/CardInterface.tsx:27-30 | the empty page is well formed |
| App.PerformPreservesWellFormed | components/QuestionInput.tsx:18-19 | every card's question stays non-empty and trimmed, and no card gains variants |
| App.SubmitKeepsQuestions | components/CardInterface.tsx:169-180 | a trimmed question put in front keeps every question trimmed |
| App.ApplyKeepsQuestions | components/CardInterface.tsx:338-349 | events other than a new question keep or copy questions and never set variants |
| App.NoVariantNavigation | components/CardSwipeable.tsx:258 | on a well formed page no card shows the variant navigation |
| App.GestureStartsStream | components/CardSwipeable.tsx:66-79 | an accepted release on the selected card starts a slow expansion, a declined one a fast retry |
| App.CompletedFastCardShowsBadges | components/CardSwipeable.tsx:285-288 | a completed fast card always shows its badge row |
| App.CardLabelIsNotModelCalled | app/actions/streamLLM.ts:16-17 | the label on a new or expanded card is not the model its request names |

## Left out

- The hosted chat client, HTTP and environment configuration are not modelled. The provider is an input: the deltas it streams, or the reply of the badge call.
- The text of the system prompt is not modelled. It is a parameter of `Gateway.StreamRequest`.
- The badge call's prompt, `max_tokens` and `temperature` are not modelled. They do not affect the parsed result.
- `AbortController`, `ReadableStream`, UTF-8 encoding and decoding, and React's batching of state updates are not modelled. Every callback runs as one atomic event, in any order the caller chooses. An upstream call that rejects reaches the browser as an error with no text, which is what the client sees.
- `Date.now()` ids and `new Date()` timestamps are left to the caller. The id is a parameter, and its freshness is a precondition of `Session.ApplyPreservesUniqueIds` only.
- Opacity, the 200 ms timer before a flung card's action runs, and `window.innerWidth` are not modelled. The width is a parameter, and the intent is reported with the release.
- Pixel offsets are whole numbers, and rotations are kept in hundredths of a degree.
- `Text.Lower`: only A to Z and the Kelvin sign are mapped. Other characters are kept as they are. Of the rest, only U+0130 lower-cases to something containing an ASCII letter: `i` followed by U+0307, which also makes the JavaScript string one longer. No keyword ends in `i`, and in every keyword an `i` is followed by an ASCII letter, never U+0307, so leaving U+0130 alone changes no keyword test.
- The generic component props `onCycleDetailed` and `isDetailedSection` are not modelled. The session never passes them, so the model fixes the detailed-section flag to false when it wires the view.
- The `getStatusColor` styling, markdown rendering, the simplified detailed-section view and the loading overlay are not modelled. They are presentation only.
- The page has no reset of the session.
- The gateway's own `generateReasoningBadges` is modelled as `Gateway.BadgesFor`, although the card session never calls it.
- app/page.tsx, app/layout.tsx and app/app/page.tsx are not part of this model. They hold a landing page, metadata and a wrapper.
