/**
 * The question-answering handler `ask_ai` of backend/app/api/ai_teacher.py.
 *
 * One request strips and validates the question, derives a cache key, returns
 * a cached answer when there is one, otherwise resolves the text of the
 * requested slide deck (every failure there degrades to "no slide content"),
 * builds one of two prompts, asks OpenAI and then, only if that fails,
 * Gemini, and caches the answer it returns.
 *
 * The ownership query and the two providers are inputs: `lookup` is what the
 * database (and the file behind the row) give for a deck id of the current
 * user, and `openai` / `gemini` are what each provider replies to a prompt.
 * The handler records the calls it makes to the outside world in order, so
 * that "no provider call on a cache hit" and "Gemini only after OpenAI failed"
 * are statements about that record.
 */
module Teacher {
  import opened Text
  import opened Cache
  import opened Slides

  /** The request body `{question, slide_deck_id}`. */
  datatype AskRequest = AskRequest(question: string, slideDeckId: Option<int>)

  /** What the ownership query gives for a deck id: the converted deck the
      current user owns, no such row, or an exception. */
  datatype DeckQuery = Found(file: PptxFile) | NotFound | QueryFailed

  /** What a provider gives for a prompt: the reply text, not yet stripped, or
      an exception (network, authentication, quota, a reply without text). */
  datatype Reply = Replied(text: string) | ProviderFailed

  datatype Provider = OpenAi | Gemini

  /** One call from the handler to the outside world. */
  datatype Call =
    | CacheRead(key: string)
    | DeckLookup(deckId: int)
    | ProviderCall(provider: Provider, prompt: string)
    | CacheWrite(key: string, answer: string)

  /** The JSON body returned, or the `HTTPException` raised. */
  datatype AskResponse =
    | Answered(answer: string, cached: bool, provider: string)
    | HttpError(status: int, detail: string)

  /** The response, the calls made in order, and the cache contents afterwards. */
  datatype Outcome = Outcome(response: AskResponse, calls: seq<Call>, store: Store)

  const EmptyQuestionDetail: string := "Question cannot be empty."
  const UnavailableDetail: string := "AI models are currently unavailable."

  /** Python truthiness of `slide_deck_id`: given and not 0. */
  predicate HasDeck(deckId: Option<int>) {
    deckId.Some? && deckId.value != 0
  }

  /** `f"{question}_{slide_deck_id}" if slide_deck_id else question` */
  function CacheKey(question: string, deckId: Option<int>): (k: string)
    ensures question <= k
    ensures !HasDeck(deckId) ==> k == question
  {
    if HasDeck(deckId) then question + "_" + IntToString(deckId.value) else question
  }

  /** The key a request is looked up and stored under. */
  function RequestKey(req: AskRequest): string {
    CacheKey(Strip(req.question), req.slideDeckId)
  }

  /** `slide_content` after the `try` block for a deck that was asked for:
      the formatted deck, or `None` when the query fails, finds no deck, or the
      file cannot be read. */
  function ResolveSlides(query: DeckQuery): Option<string>
  {
    match query
    case Found(file) =>
      (match Extract(file)
       case Ok(slides) => Some(FormatSlides(slides))
       case Err(_) => None)
    case _ => None
  }

  const SlidePromptHead: string :=
    "You are an AI tutor helping a student understand their course material. \n" +
    "Use the following slide deck content as your primary reference to answer the question.\n" +
    "If the answer cannot be fully derived from the slides, you may supplement with your knowledge,\n" +
    "but clearly indicate which parts come from the slides vs. your general knowledge.\n\n"

  const QuestionLabel: string := "Student's question: "

  const SlidePromptTail: string :=
    "\n\nPlease provide a clear, educational response that:\n" +
    "1. Primarily uses information from the slides\n" +
    "2. Clearly indicates which parts come from the slides\n" +
    "3. Only supplements with your knowledge if necessary\n" +
    "4. Maintains a helpful, tutoring tone"

  const PlainPromptHead: string :=
    "You are an AI tutor helping a student. Please answer their question in a clear, educational manner.\n\n"

  /** The slide-aware template. */
  function SlidePrompt(content: string, question: string): (p: string)
    ensures |p| == |SlidePromptHead| + |content| + 2 + |QuestionLabel| + |question| + |SlidePromptTail|
    ensures SlidePromptHead <= p
    ensures p[|SlidePromptHead|..|SlidePromptHead| + |content|] == content
    ensures var at := |SlidePromptHead| + |content| + 2 + |QuestionLabel|;
            at + |question| <= |p| && p[at..at + |question|] == question
  {
    SlidePromptHead + content + "\n\n" + QuestionLabel + question + SlidePromptTail
  }

  /** The plain tutoring template; the question is all it embeds. */
  function PlainPrompt(question: string): (p: string)
    ensures |p| == |PlainPromptHead| + |QuestionLabel| + |question|
    ensures p[|p| - |question|..] == question
  {
    PlainPromptHead + QuestionLabel + question
  }

  /** `if slide_content:` chooses the template. */
  function ChoosePrompt(content: Option<string>, question: string): string
  {
    if content.Some? && content.value != "" then SlidePrompt(content.value, question)
    else PlainPrompt(question)
  }

  /** `slide_content` once the deck part of the handler is done. */
  function SlideContentFor(deckId: Option<int>, lookup: int -> DeckQuery): Option<string>
  {
    if HasDeck(deckId) then ResolveSlides(lookup(deckId.value)) else None
  }

  /** The calls made to the database: one lookup when a deck is named. */
  function DeckLookups(deckId: Option<int>): seq<Call>
  {
    if HasDeck(deckId) then [DeckLookup(deckId.value)] else []
  }

  /** Lines 96-147: OpenAI, then Gemini, with one prompt; `key` is where an
      answer is cached.  The calls start with the OpenAI call. */
  function Route(store: Store, now: int, key: string, prompt: string,
                 openai: string -> Reply, gemini: string -> Reply): Outcome
  {
    match openai(prompt)
    case Replied(text) =>
      Outcome(Answered(Strip(text), false, "openai"),
              [ProviderCall(OpenAi, prompt), CacheWrite(key, Strip(text))],
              Write(store, now, key, Strip(text)))
    case ProviderFailed =>
      match gemini(prompt)
      case Replied(text) =>
        Outcome(Answered(Strip(text), false, "gemini"),
                [ProviderCall(OpenAi, prompt), ProviderCall(Gemini, prompt), CacheWrite(key, Strip(text))],
                Write(store, now, key, Strip(text)))
      case ProviderFailed =>
        Outcome(HttpError(500, UnavailableDetail),
                [ProviderCall(OpenAi, prompt), ProviderCall(Gemini, prompt)], store)
  }

  /** The handler for a question that has already been stripped. */
  function Answer(store: Store, now: int, question: string, deckId: Option<int>,
                  lookup: int -> DeckQuery, openai: string -> Reply, gemini: string -> Reply): Outcome
  {
    if question == "" then Outcome(HttpError(400, EmptyQuestionDetail), [], store)
    else
      var key := CacheKey(question, deckId);
      var cached := Read(store, now, key);
      if cached.Some? && cached.value != "" then
        Outcome(Answered(cached.value, true, "cache"), [CacheRead(key)], store)
      else
        var o := Route(store, now, key, ChoosePrompt(SlideContentFor(deckId, lookup), question), openai, gemini);
        Outcome(o.response, [CacheRead(key)] + DeckLookups(deckId) + o.calls, o.store)
  }

  /** Everything `ask_ai` does for one request, at cache time `now`. */
  function AskSpec(store: Store, now: int, req: AskRequest, lookup: int -> DeckQuery,
                   openai: string -> Reply, gemini: string -> Reply): Outcome
  {
    Answer(store, now, Strip(req.question), req.slideDeckId, lookup, openai, gemini)
  }

  /** The prompt a request that misses the cache is sent with. */
  function RequestPrompt(req: AskRequest, lookup: int -> DeckQuery): string
  {
    ChoosePrompt(SlideContentFor(req.slideDeckId, lookup), Strip(req.question))
  }

  /** Lines 49-73: the slide content for the named deck, if any. */
  method ResolveSlideContent(deckId: Option<int>, lookup: int -> DeckQuery) returns (content: Option<string>)
    ensures content == SlideContentFor(deckId, lookup)
  {
    content := None;
    if deckId.Some? && deckId.value != 0 {
      var query := lookup(deckId.value);
      if query.Found? {
        var extracted := ExtractTextFromPptx(query.file);
        if extracted.Ok? {
          var formatted := FormatSlidesForPrompt(extracted.value);
          content := Some(formatted);
        }
      }
    }
  }

  /** Lines 96-147 against the shared cache. */
  method AskProviders(cache: AnswerCache, key: string, prompt: string,
                      openai: string -> Reply, gemini: string -> Reply)
    returns (r: AskResponse, calls: seq<Call>)
    modifies cache
    ensures var o := Route(old(cache.store), old(cache.now), key, prompt, openai, gemini);
            r == o.response && calls == o.calls && cache.store == o.store
    ensures cache.now == old(cache.now)
  {
    var primary := openai(prompt);
    if primary.Replied? {
      var answer := Strip(primary.text);
      cache.Set(key, answer);
      return Answered(answer, false, "openai"), [ProviderCall(OpenAi, prompt), CacheWrite(key, answer)];
    }
    var fallback := gemini(prompt);
    if fallback.Replied? {
      var answer := Strip(fallback.text);
      cache.Set(key, answer);
      return Answered(answer, false, "gemini"),
             [ProviderCall(OpenAi, prompt), ProviderCall(Gemini, prompt), CacheWrite(key, answer)];
    }
    return HttpError(500, UnavailableDetail), [ProviderCall(OpenAi, prompt), ProviderCall(Gemini, prompt)];
  }

  /** `ask_ai` against the shared answer cache. */
  method AskAi(cache: AnswerCache, req: AskRequest, lookup: int -> DeckQuery,
               openai: string -> Reply, gemini: string -> Reply)
    returns (r: AskResponse, calls: seq<Call>)
    modifies cache
    ensures var o := AskSpec(old(cache.store), old(cache.now), req, lookup, openai, gemini);
            r == o.response && calls == o.calls && cache.store == o.store
    ensures cache.now == old(cache.now)
  {
    AskSpecCases(cache.store, cache.now, req, lookup, openai, gemini);
    StripEmptyIffBlank(req.question);
    var question := Strip(req.question);
    var deckId := req.slideDeckId;
    if question == "" {
      return HttpError(400, EmptyQuestionDetail), [];
    }
    var key := CacheKey(question, deckId);
    var cached := cache.Get(key);
    if cached.Some? && cached.value != "" {
      return Answered(cached.value, true, "cache"), [CacheRead(key)];
    }
    var slideContent := ResolveSlideContent(deckId, lookup);
    var prompt := ChoosePrompt(slideContent, question);
    var more;
    r, more := AskProviders(cache, key, prompt, openai, gemini);
    calls := [CacheRead(key)] + DeckLookups(deckId) + more;
  }

  // ---- the provider fallback ----

  /** The provider calls among the calls, in order. */
  function ProviderCalls(calls: seq<Call>): seq<Call>
  {
    if calls == [] then []
    else ProviderCalls(calls[..|calls| - 1]) + (if calls[|calls| - 1].ProviderCall? then [calls[|calls| - 1]] else [])
  }

  lemma {:induction false} ProviderCallsAppend(a: seq<Call>, b: seq<Call>)
    ensures ProviderCalls(a + b) == ProviderCalls(a) + ProviderCalls(b)
    decreases |b|
  {
    if b == [] {
      assert a + b == a;
    } else {
      assert (a + b)[..|a + b| - 1] == a + b[..|b| - 1];
      ProviderCallsAppend(a, b[..|b| - 1]);
    }
  }

  lemma ProviderCallsSingle(c: Call)
    ensures ProviderCalls([c]) == if c.ProviderCall? then [c] else []
  {
    assert [c][..0] == [];
  }

  /** Reads, lookups and writes are not provider calls. */
  lemma {:induction false} NoProviderCalls(calls: seq<Call>)
    requires forall k :: 0 <= k < |calls| ==> !calls[k].ProviderCall?
    ensures ProviderCalls(calls) == []
  {
    if calls != [] {
      NoProviderCalls(calls[..|calls| - 1]);
    }
  }

  lemma ProviderCallsPair(a: Call, b: Call)
    ensures ProviderCalls([a, b]) == ProviderCalls([a]) + ProviderCalls([b])
  {
    assert [a, b] == [a] + [b];
    ProviderCallsAppend([a], [b]);
  }

  lemma ProviderCallsTriple(a: Call, b: Call, c: Call)
    ensures ProviderCalls([a, b, c]) == ProviderCalls([a, b]) + ProviderCalls([c])
  {
    assert [a, b, c] == [a, b] + [c];
    ProviderCallsAppend([a, b], [c]);
  }

  /** OpenAI is always asked; when it answers, its stripped answer is returned
      and cached under the key, and Gemini is not asked. */
  lemma RoutePrimary(store: Store, now: int, key: string, prompt: string,
                     openai: string -> Reply, gemini: string -> Reply)
    ensures var o := Route(store, now, key, prompt, openai, gemini);
            && |o.calls| >= 2 && o.calls[0] == ProviderCall(OpenAi, prompt)
            && (openai(prompt).Replied? ==>
                  && o.response == Answered(Strip(openai(prompt).text), false, "openai")
                  && o.store == Write(store, now, key, Strip(openai(prompt).text))
                  && ProviderCalls(o.calls) == [ProviderCall(OpenAi, prompt)])
  {
    if openai(prompt).Replied? {
      var p := ProviderCall(OpenAi, prompt);
      var w := CacheWrite(key, Strip(openai(prompt).text));
      assert Route(store, now, key, prompt, openai, gemini).calls == [p, w];
      ProviderCallsPair(p, w);
      ProviderCallsSingle(p);
      ProviderCallsSingle(w);
    }
  }

  /** When OpenAI fails, Gemini is asked once with the same prompt; its
      stripped answer is returned and cached, or, when it fails too, the
      request fails with 500 and the cache is left as it was. */
  lemma RouteFallback(store: Store, now: int, key: string, prompt: string,
                      openai: string -> Reply, gemini: string -> Reply)
    requires openai(prompt) == ProviderFailed
    ensures var o := Route(store, now, key, prompt, openai, gemini);
            && ProviderCalls(o.calls) == [ProviderCall(OpenAi, prompt), ProviderCall(Gemini, prompt)]
            && (gemini(prompt).Replied? ==>
                  && o.response == Answered(Strip(gemini(prompt).text), false, "gemini")
                  && o.store == Write(store, now, key, Strip(gemini(prompt).text)))
            && (gemini(prompt) == ProviderFailed ==>
                  o.response == HttpError(500, UnavailableDetail) && o.store == store)
  {
    var p, q := ProviderCall(OpenAi, prompt), ProviderCall(Gemini, prompt);
    ProviderCallsPair(p, q);
    ProviderCallsSingle(p);
    ProviderCallsSingle(q);
    match gemini(prompt)
    case Replied(text) =>
      var w := CacheWrite(key, Strip(text));
      assert Route(store, now, key, prompt, openai, gemini).calls == [p, q, w];
      ProviderCallsTriple(p, q, w);
      ProviderCallsSingle(w);
    case ProviderFailed =>
      assert Route(store, now, key, prompt, openai, gemini).calls == [p, q];
  }

  /** The providers asked are OpenAI alone when it answers, and OpenAI then
      Gemini, with the same prompt, when it fails: Gemini is asked only after
      OpenAI failed.  The error is 500 exactly when both failed. */
  lemma RouteProviderCalls(store: Store, now: int, key: string, prompt: string,
                           openai: string -> Reply, gemini: string -> Reply)
    ensures var o := Route(store, now, key, prompt, openai, gemini);
            && ProviderCalls(o.calls) ==
                 (if openai(prompt).Replied? then [ProviderCall(OpenAi, prompt)]
                  else [ProviderCall(OpenAi, prompt), ProviderCall(Gemini, prompt)])
            && (o.response.HttpError? <==> openai(prompt) == ProviderFailed && gemini(prompt) == ProviderFailed)
  {
    if openai(prompt).Replied? {
      RoutePrimary(store, now, key, prompt, openai, gemini);
    } else {
      RouteFallback(store, now, key, prompt, openai, gemini);
    }
  }

  /** The cache changes only when a provider answered, and then by writing
      the returned answer under the key. */
  lemma RouteStoreEffect(store: Store, now: int, key: string, prompt: string,
                         openai: string -> Reply, gemini: string -> Reply)
    ensures var o := Route(store, now, key, prompt, openai, gemini);
            if o.response.Answered?
            then !o.response.cached && o.store == Write(store, now, key, o.response.answer)
            else o.response == HttpError(500, UnavailableDetail) && o.store == store
  {
  }

  // ---- properties of the handler ----

  /** A question that is blank once stripped is rejected with 400, before any
      cache read, deck lookup or provider call; no other question is. */
  lemma BlankQuestionRejected(store: Store, now: int, req: AskRequest, lookup: int -> DeckQuery,
                              openai: string -> Reply, gemini: string -> Reply)
    ensures var o := AskSpec(store, now, req, lookup, openai, gemini);
            && (o.response == HttpError(400, EmptyQuestionDetail) <==> IsBlank(req.question))
            && (IsBlank(req.question) ==> o.calls == [] && o.store == store)
  {
    StripEmptyIffBlank(req.question);
    var q := Strip(req.question);
    if q != "" {
      var key := CacheKey(q, req.slideDeckId);
      RouteStoreEffect(store, now, key, ChoosePrompt(SlideContentFor(req.slideDeckId, lookup), q), openai, gemini);
    }
  }

  /** A cached, non-empty answer is returned as it is: the cache read is the
      only call, so no deck is looked up and no provider is asked. */
  lemma CacheHitShortCircuits(store: Store, now: int, req: AskRequest, lookup: int -> DeckQuery,
                              openai: string -> Reply, gemini: string -> Reply, answer: string)
    requires !IsBlank(req.question)
    requires Read(store, now, RequestKey(req)) == Some(answer) && answer != ""
    ensures var o := AskSpec(store, now, req, lookup, openai, gemini);
            && o.response == Answered(answer, true, "cache")
            && o.calls == [CacheRead(RequestKey(req))]
            && ProviderCalls(o.calls) == []
            && o.store == store
  {
    StripEmptyIffBlank(req.question);
    NoProviderCalls([CacheRead(RequestKey(req))]);
  }

  /** An answer marked as cached is exactly the non-empty entry under the
      request's key. */
  lemma CachedOnlyOnHit(store: Store, now: int, req: AskRequest, lookup: int -> DeckQuery,
                        openai: string -> Reply, gemini: string -> Reply)
    ensures var o := AskSpec(store, now, req, lookup, openai, gemini);
            o.response.Answered? && o.response.cached ==>
              Read(store, now, RequestKey(req)) == Some(o.response.answer) && o.response.answer != ""
  {
    var q := Strip(req.question);
    if q != "" {
      var key := CacheKey(q, req.slideDeckId);
      RouteStoreEffect(store, now, key, ChoosePrompt(SlideContentFor(req.slideDeckId, lookup), q), openai, gemini);
    }
  }

  /** The three ways a request goes: rejected as blank, answered from the
      cache, or handed to the providers after the cache read and the deck
      lookup, with the prompt built from the question and the deck. */
  lemma AskSpecCases(store: Store, now: int, req: AskRequest, lookup: int -> DeckQuery,
                     openai: string -> Reply, gemini: string -> Reply)
    ensures var o := AskSpec(store, now, req, lookup, openai, gemini);
            var key := RequestKey(req);
            var c := Read(store, now, key);
            var r := Route(store, now, key, RequestPrompt(req, lookup), openai, gemini);
            if IsBlank(req.question) then o == Outcome(HttpError(400, EmptyQuestionDetail), [], store)
            else if c.Some? && c.value != "" then o == Outcome(Answered(c.value, true, "cache"), [CacheRead(key)], store)
            else o == Outcome(r.response, [CacheRead(key)] + DeckLookups(req.slideDeckId) + r.calls, r.store)
  {
    StripEmptyIffBlank(req.question);
  }

  /** On a cache miss the providers' calls are the only provider calls. */
  lemma MissGoesToProviders(store: Store, now: int, req: AskRequest, lookup: int -> DeckQuery,
                            openai: string -> Reply, gemini: string -> Reply)
    requires !IsBlank(req.question)
    requires var c := Read(store, now, RequestKey(req)); c == None || c == Some("")
    ensures var o := AskSpec(store, now, req, lookup, openai, gemini);
            var r := Route(store, now, RequestKey(req), RequestPrompt(req, lookup), openai, gemini);
            && o.calls == [CacheRead(RequestKey(req))] + DeckLookups(req.slideDeckId) + r.calls
            && o.response == r.response && o.store == r.store
            && ProviderCalls(o.calls) == ProviderCalls(r.calls)
  {
    AskSpecCases(store, now, req, lookup, openai, gemini);
    var r := Route(store, now, RequestKey(req), RequestPrompt(req, lookup), openai, gemini);
    LookupsAreNotProviderCalls(RequestKey(req), req.slideDeckId);
    ProviderCallsAppend([CacheRead(RequestKey(req))] + DeckLookups(req.slideDeckId), r.calls);
  }

  lemma LookupsAreNotProviderCalls(key: string, deckId: Option<int>)
    ensures ProviderCalls([CacheRead(key)] + DeckLookups(deckId)) == []
  {
    NoProviderCalls([CacheRead(key)] + DeckLookups(deckId));
  }

  /** When OpenAI answers a request that missed the cache, its stripped answer
      is returned and cached under the lookup key, and Gemini is never asked. */
  lemma PrimarySuccess(store: Store, now: int, req: AskRequest, lookup: int -> DeckQuery,
                       openai: string -> Reply, gemini: string -> Reply)
    requires !IsBlank(req.question)
    requires var c := Read(store, now, RequestKey(req)); c == None || c == Some("")
    requires openai(RequestPrompt(req, lookup)).Replied?
    ensures var o := AskSpec(store, now, req, lookup, openai, gemini);
            var answer := Strip(openai(RequestPrompt(req, lookup)).text);
            && o.response == Answered(answer, false, "openai")
            && o.store == Write(store, now, RequestKey(req), answer)
            && ProviderCalls(o.calls) == [ProviderCall(OpenAi, RequestPrompt(req, lookup))]
  {
    MissGoesToProviders(store, now, req, lookup, openai, gemini);
    RoutePrimary(store, now, RequestKey(req), RequestPrompt(req, lookup), openai, gemini);
  }

  /** When OpenAI fails, Gemini is asked once, with the same prompt; when it
      fails too the request fails with 500 and nothing is cached. */
  lemma FallbackAfterPrimaryFailure(store: Store, now: int, req: AskRequest, lookup: int -> DeckQuery,
                                    openai: string -> Reply, gemini: string -> Reply)
    requires !IsBlank(req.question)
    requires var c := Read(store, now, RequestKey(req)); c == None || c == Some("")
    requires openai(RequestPrompt(req, lookup)) == ProviderFailed
    ensures var o := AskSpec(store, now, req, lookup, openai, gemini);
            var prompt := RequestPrompt(req, lookup);
            && ProviderCalls(o.calls) == [ProviderCall(OpenAi, prompt), ProviderCall(Gemini, prompt)]
            && (gemini(prompt).Replied? ==>
                  && o.response == Answered(Strip(gemini(prompt).text), false, "gemini")
                  && o.store == Write(store, now, RequestKey(req), Strip(gemini(prompt).text)))
            && (gemini(prompt) == ProviderFailed ==>
                  o.response == HttpError(500, UnavailableDetail) && o.store == store)
  {
    MissGoesToProviders(store, now, req, lookup, openai, gemini);
    RouteFallback(store, now, RequestKey(req), RequestPrompt(req, lookup), openai, gemini);
  }

  /** At most two provider calls happen per request. */
  lemma AtMostTwoProviderCalls(store: Store, now: int, req: AskRequest, lookup: int -> DeckQuery,
                               openai: string -> Reply, gemini: string -> Reply)
    ensures |ProviderCalls(AskSpec(store, now, req, lookup, openai, gemini).calls)| <= 2
  {
    if IsBlank(req.question) {
      BlankQuestionRejected(store, now, req, lookup, openai, gemini);
    } else {
      var c := Read(store, now, RequestKey(req));
      if c.Some? && c.value != "" {
        CacheHitShortCircuits(store, now, req, lookup, openai, gemini, c.value);
      } else if openai(RequestPrompt(req, lookup)).Replied? {
        PrimarySuccess(store, now, req, lookup, openai, gemini);
      } else {
        FallbackAfterPrimaryFailure(store, now, req, lookup, openai, gemini);
      }
    }
  }

  /** The cache changes only when a provider answered, and then exactly by
      writing the returned answer under the lookup key. */
  lemma StoreEffect(store: Store, now: int, req: AskRequest, lookup: int -> DeckQuery,
                    openai: string -> Reply, gemini: string -> Reply)
    ensures var o := AskSpec(store, now, req, lookup, openai, gemini);
            if o.response.Answered? && !o.response.cached
            then o.store == Write(store, now, RequestKey(req), o.response.answer)
            else o.store == store
  {
    AskSpecCases(store, now, req, lookup, openai, gemini);
    RouteStoreEffect(store, now, RequestKey(req), RequestPrompt(req, lookup), openai, gemini);
  }

  /** Deck resolution never fails the request: once the question is not
      blank, the response is an answer or the providers' 500. */
  lemma DeckFailuresDoNotSurface(store: Store, now: int, req: AskRequest, lookup: int -> DeckQuery,
                                 openai: string -> Reply, gemini: string -> Reply)
    requires !IsBlank(req.question)
    ensures var o := AskSpec(store, now, req, lookup, openai, gemini);
            o.response.Answered? || o.response == HttpError(500, UnavailableDetail)
  {
    AskSpecCases(store, now, req, lookup, openai, gemini);
    RouteStoreEffect(store, now, RequestKey(req), RequestPrompt(req, lookup), openai, gemini);
  }

  // ---- slide content ----

  /** A missing deck, a failing query and an unreadable file all degrade to
      "no slide content"; a readable deck always gives non-empty content. */
  lemma ResolveSlidesCases(query: DeckQuery)
    ensures ResolveSlides(query) == None <==> !(query.Found? && query.file.Pptx?)
    ensures query.Found? && query.file.Pptx? ==>
              ResolveSlides(query) == Some(FormatSlides(SlideEntries(query.file.slides)))
    ensures ResolveSlides(query).Some? ==> ResolveSlides(query).value != ""
  {
    if query.Found? && query.file.Pptx? {
      FormatStartsWithTitle(SlideEntries(query.file.slides));
    }
  }

  /** The slide-aware template is used exactly when the request names a deck
      the user owns and whose file can be read, even when no slide has text;
      otherwise the request is answered as if no deck had been named. */
  lemma PromptSelection(req: AskRequest, lookup: int -> DeckQuery)
    ensures HasDeck(req.slideDeckId) && lookup(req.slideDeckId.value).Found? &&
            lookup(req.slideDeckId.value).file.Pptx? ==>
              RequestPrompt(req, lookup) ==
                SlidePrompt(FormatSlides(SlideEntries(lookup(req.slideDeckId.value).file.slides)), Strip(req.question))
    ensures !(HasDeck(req.slideDeckId) && lookup(req.slideDeckId.value).Found? &&
              lookup(req.slideDeckId.value).file.Pptx?) ==>
              RequestPrompt(req, lookup) == PlainPrompt(Strip(req.question))
  {
    if HasDeck(req.slideDeckId) {
      ResolveSlidesCases(lookup(req.slideDeckId.value));
    }
  }

  // ---- the cache key ----

  /** Deck 0 is falsy, so it shares the key of the request without a deck. */
  lemma DeckZeroSharesKey(question: string)
    ensures CacheKey(question, Some(0)) == CacheKey(question, None)
  {
  }

  /** The key is not injective: question q with deck d and question
      q + "_" + str(d) with no deck read and write the same entry. */
  lemma DeckSuffixCollision(q: string, d: int)
    requires q != "" && IsTrimmed(q) && d != 0
    ensures RequestKey(AskRequest(q, Some(d))) == RequestKey(AskRequest(q + "_" + IntToString(d), None))
  {
    StripTrimmed(q);
    var s := IntToString(d);
    var long := q + "_" + s;
    assert IsDigit(s[|s| - 1]);
    assert long[0] == q[0];
    assert long[|long| - 1] == s[|s| - 1];
    StripTrimmed(long);
  }

  /** For one deck id, distinct questions use distinct keys. */
  lemma KeyInjectiveForDeck(q1: string, q2: string, deckId: Option<int>)
    ensures CacheKey(q1, deckId) == CacheKey(q2, deckId) ==> q1 == q2
  {
    if HasDeck(deckId) && CacheKey(q1, deckId) == CacheKey(q2, deckId) {
      var tail := "_" + IntToString(deckId.value);
      assert CacheKey(q1, deckId) == q1 + tail;
      assert q1 == CacheKey(q1, deckId)[..|q1|];
      assert q2 == CacheKey(q2, deckId)[..|q2|];
    }
  }

  /** For one question, distinct truthy deck ids use distinct keys. */
  lemma KeyInjectiveForQuestion(q: string, d1: int, d2: int)
    requires d1 != 0 && d2 != 0
    ensures CacheKey(q, Some(d1)) == CacheKey(q, Some(d2)) ==> d1 == d2
  {
    var k1, k2 := CacheKey(q, Some(d1)), CacheKey(q, Some(d2));
    if k1 == k2 {
      assert k1[|q| + 1..] == IntToString(d1);
      assert k2[|q| + 1..] == IntToString(d2);
      IntToStringInjective(d1, d2);
    }
  }

  // ---- across requests ----

  /** Asking again within the hour after a provider gave a non-empty answer is
      served from the cache, with no deck lookup and no provider call. */
  lemma RepeatServedFromCache(store: Store, now: int, later: int, req: AskRequest,
                              lookup: int -> DeckQuery, openai: string -> Reply, gemini: string -> Reply,
                              lookup2: int -> DeckQuery, openai2: string -> Reply, gemini2: string -> Reply)
    requires now <= later <= now + CacheExpireSeconds
    requires var o := AskSpec(store, now, req, lookup, openai, gemini);
             o.response.Answered? && !o.response.cached && o.response.answer != ""
    ensures var o := AskSpec(store, now, req, lookup, openai, gemini);
            var o2 := AskSpec(o.store, later, req, lookup2, openai2, gemini2);
            o2.response == Answered(o.response.answer, true, "cache")
            && o2.calls == [CacheRead(RequestKey(req))]
  {
    var o := AskSpec(store, now, req, lookup, openai, gemini);
    BlankQuestionRejected(store, now, req, lookup, openai, gemini);
    StoreEffect(store, now, req, lookup, openai, gemini);
    ReadAfterWrite(store, now, RequestKey(req), o.response.answer, later);
    CacheHitShortCircuits(o.store, later, req, lookup2, openai2, gemini2, o.response.answer);
  }

  /** An empty answer from either provider is cached but reads as falsy, so the next request asks
      the providers again. */
  lemma EmptyAnswerNotServed(store: Store, now: int, later: int, req: AskRequest,
                             lookup: int -> DeckQuery, openai: string -> Reply, gemini: string -> Reply)
    requires now <= later <= now + CacheExpireSeconds
    requires var o := AskSpec(store, now, req, lookup, openai, gemini);
             o.response.Answered? && !o.response.cached && o.response.answer == ""
    ensures var o := AskSpec(store, now, req, lookup, openai, gemini);
            Read(o.store, later, RequestKey(req)) == Some("")
            && ProviderCalls(AskSpec(o.store, later, req, lookup, openai, gemini).calls) != []
  {
    var o := AskSpec(store, now, req, lookup, openai, gemini);
    BlankQuestionRejected(store, now, req, lookup, openai, gemini);
    StoreEffect(store, now, req, lookup, openai, gemini);
    ReadAfterWrite(store, now, RequestKey(req), "", later);
    MissGoesToProviders(o.store, later, req, lookup, openai, gemini);
    RouteProviderCalls(o.store, later, RequestKey(req), RequestPrompt(req, lookup), openai, gemini);
  }
}
