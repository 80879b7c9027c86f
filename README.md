# ai-tutor answer pipeline in Dafny

This project models the backend core of ai-tutor, a FastAPI service that answers a student's questions about their course slides.

- **`ask_ai`** (teacher.dfy, module `Teacher`). This is the `POST /ask` handler. It:
  - strips and validates the question;
  - looks up a cached answer under a key made from the question and the optional slide-deck id;
  - otherwise resolves the deck's text, where every failure degrades to "no slide content";
  - builds one of two prompts;
  - asks OpenAI and, only when that fails, Gemini;
  - caches the stripped answer.

  The handler is an imperative method (`AskAi`) working against a mutable cache object. It is proved equal to a pure specification, `AskSpec`, that returns three things: the response, the calls made to the outside world in order, and the new cache contents. The properties are lemmas about `AskSpec`.
- **The answer cache** (cache.dfy, `Cache`). Redis keys are `"ai_answer:" + key`, and entries expire 3600 seconds after they are written. The class `AnswerCache` holds the store and the store's clock.
- **`PPTXService`** (slides.dfy, `Slides`). It takes the text of each slide from its text-bearing shapes and renders the deck for the prompt.
- **`FileConversionService`** (conversion.dfy, `Conversion`). It converts a text, PDF, Word or image upload into a slide deck, with ten lines or ten paragraphs per slide, and dispatches on the lower-cased extension.
- **`file_utils`** (filenames.dfy, `Filenames`). It builds the stored file name `safe_name_YYYYmmddHHMM_shortid.ext`.
- **`Settings`** (config.dfy, `Config`). It covers the defaults, the four fields without a default, and the validator that assembles the database URI.
- **Python `str` behaviour** that the above relies on (text.dfy, `Text`):
  - `strip()`, with the `str.isspace` character set written out, modelled as the two index scans CPython performs;
  - `"sep".join`;
  - `str(int)`;
  - `rfind`;
  - ASCII `lower()`.

Inputs that come from outside the code are parameters:
- what each provider replies to a prompt (`openai`, `gemini`);
- what the ownership query gives for a deck id (`lookup`);
- the cache clock;
- `datetime.now()`;
- the draws of `random.choices`;
- what the file readers yield (the lines of a text file, the pages of a PDF, the paragraphs of a Word file, python-pptx's shapes).

### Behaviour worth noting

- **The cache key is not injective.** The key is `f"{q}_{id}" if id else q`. Deck id 0 is falsy, so it shares the key of a request without a deck (`Teacher.DeckZeroSharesKey`). The question `"x_5"` without a deck shares the key of `"x"` with deck 5 (`Teacher.DeckSuffixCollision`).
- **A missing deck is not a 404.** The 404 raised for a missing or foreign deck (ai_teacher.py:59-63) is caught by the `except` at lines 70-73. The request therefore goes on without slide content.
- **Empty decks still get the slide prompt.** `format_slides_for_prompt` always returns at least the title. So a readable deck with no text still selects the slide-aware prompt (`Teacher.PromptSelection`, `Slides.FormatStartsWithTitle`).
- **Empty answers are asked again.** An empty answer is cached, but it reads as falsy, so the next request asks the providers again (`Teacher.EmptyAnswerNotServed`).
- **A fixed 500 detail.** When both providers fail, the 500 carries the fixed detail "AI models are currently unavailable."; neither provider's failure reason reaches the caller.
- **No password and no URI is not a validation error.** `BaseSettings` validates defaults, so the URI validator also runs when SQLALCHEMY_DATABASE_URI is absent. If POSTGRES_PASSWORD is absent too, the validator calls `.get_secret_value()` on `None`, and `Settings()` raises that `AttributeError` instead of the missing-field error (`Config.MissingPasswordWithoutUriCrashes`).

## Model

| member | source | states |
|---|---|---|
| Teacher.AskSpec | backend/app/api/ai_teacher.py:25-147 | definition: the whole handler on the stripped question, giving response, calls in order, and the new cache store |
| Teacher.Answer | backend/app/api/ai_teacher.py:38-147 | definition: 400 for an empty question; a truthy live cache entry served as cached; otherwise the cache read, the deck lookup and `Route` with the chosen prompt |
| Teacher.Route | backend/app/api/ai_teacher.py:96-147 | definition: OpenAI's stripped reply, cached; else Gemini's stripped reply, cached; else the 500 with the store unchanged |
| Teacher.ChoosePrompt | backend/app/api/ai_teacher.py:75-94 | definition: `if slide_content:` picks the slide template for non-empty content, the plain one otherwise |
| Teacher.ResolveSlides | backend/app/api/ai_teacher.py:59-73 | definition: a found, readable deck gives its formatted text; not found, a failed query or an unreadable file give `None` |
| Teacher.SlideContentFor | backend/app/api/ai_teacher.py:49-73 | definition: a deck is resolved only for a truthy deck id |
| Cache.Read | backend/app/services/ai_cache.py:7-8 | definition: `GET` of the prefixed key, live up to and including its expiry instant |
| Cache.Write | backend/app/services/ai_cache.py:10-11 | definition: `SET` of the prefixed key with expiry now + 3600 s |
| Slides.Extract | backend/app/services/pptx_service.py:9-38 | definition: an unopenable file is the re-raised error; otherwise the slide entries |
| Slides.SlideEntries | backend/app/services/pptx_service.py:18-31 | definition: one entry per slide with text, numbered from 1, holding its shape texts joined with "\n" |
| Slides.RawFormat | backend/app/services/pptx_service.py:45-47 | definition: the title and a blank line, then "Slide n:\n" + content + "\n\n" per slide |
| Slides.FormatSlides | backend/app/services/pptx_service.py:41-48 | definition: the raw text, stripped |
| Conversion.ReadLines | backend/app/services/conversion_service.py:14 | definition: `readlines()` on decoded text, each line keeping its '\n' |
| Conversion.Chunks | backend/app/services/conversion_service.py:16-17 | definition: consecutive pieces of ten, the last possibly shorter |
| Conversion.TextDeck | backend/app/services/conversion_service.py:11-23 | definition: one slide per ten lines, the lines joined with "" |
| Conversion.KeptParagraphs | backend/app/services/conversion_service.py:43-45 | definition: the non-blank paragraphs, stripped, in document order |
| Conversion.DocxDeck | backend/app/services/conversion_service.py:38-56 | definition: one slide per ten kept paragraphs, joined with "\n" |
| Conversion.PageText | backend/app/services/conversion_service.py:31 | definition: `extract_text() or ''` |
| Conversion.PathJoin | backend/app/services/conversion_service.py:86 | definition: `os.path.join` of two components, an absolute second one replacing the first |
| Conversion.OutputPath | backend/app/services/conversion_service.py:85-86 | definition: the destination directory joined with stem + ".pptx" |
| Conversion.HandlerFor | backend/app/services/conversion_service.py:87-100 | definition: .txt, .pdf, .doc/.docx and the five image extensions, after lower-casing; anything else has no handler |
| Conversion.ImagesFor | backend/app/services/conversion_service.py:92-97 | definition: the batch's image paths when non-empty, otherwise the source file alone |
| Filenames.ShortId | backend/app/utils/file_utils.py:6-9 | definition: `length` draws from the alphabet, none for a length that is not positive |
| Filenames.SplitExt | backend/app/utils/file_utils.py:16 | definition: POSIX `splitext`, from the last dot of the last component when a non-dot precedes it |
| Filenames.SafeName | backend/app/utils/file_utils.py:18-20 | definition: filter, replace spaces with '_', then cut to 30 characters |
| Filenames.Timestamp | backend/app/utils/file_utils.py:22 | definition: `strftime('%Y%m%d%H%M')` |
| Filenames.UniqueFilename | backend/app/utils/file_utils.py:11-24 | definition: safe name, '_', timestamp, '_', short id, then the original extension |
| Config.LoadSettings | backend/app/core/config.py:7-52 | definition: the validator's `AttributeError` without password and URI; a missing-field error; or the settings with defaults and the validated URI |
| Text.Strip | backend/app/api/ai_teacher.py:31 | definition: the piece between the two scans of `strip()` |
| Text.Join | backend/app/services/pptx_service.py:30 | definition: `sep.join(parts)` |
| Text.IntToString | backend/app/api/ai_teacher.py:42 | definition: `str(i)`, with '-' before negative numbers |
| Teacher.AskAi | backend/app/api/ai_teacher.py:25-147 | the handler's response, its calls in order and the new cache store are those of `AskSpec` on the old store and clock; the clock is unchanged |
| Teacher.AskProviders | backend/app/api/ai_teacher.py:96-147 | OpenAI-then-Gemini against the cache object: response, calls and new store are those of `Route` on the old state |
| Teacher.ResolveSlideContent | backend/app/api/ai_teacher.py:49-73 | the slide content the handler computes is the formatted deck for a named, found, readable deck, and `None` otherwise |
| Teacher.CacheKey | backend/app/api/ai_teacher.py:42 | the key starts with the question and is the question itself when no truthy deck id is given |
| Teacher.SlidePrompt | backend/app/api/ai_teacher.py:76-90 | the slide-aware prompt starts with the fixed instructions and embeds the slide content and the question at fixed offsets |
| Teacher.PlainPrompt | backend/app/api/ai_teacher.py:91-94 | the plain prompt ends with the question after the fixed instructions and label |
| Teacher.BlankQuestionRejected | backend/app/api/ai_teacher.py:31-39 | the response is 400 "Question cannot be empty." exactly when the question is blank, and then nothing is read, looked up, asked or written |
| Teacher.CacheHitShortCircuits | backend/app/api/ai_teacher.py:42-46 | a non-empty cached answer is returned with `cached` true and provider "cache"; the cache read is the only call and the store is unchanged |
| Teacher.CachedOnlyOnHit | backend/app/api/ai_teacher.py:43-46 | a response marked cached is exactly the non-empty live entry under the request's key |
| Teacher.AskSpecCases | backend/app/api/ai_teacher.py:31-147 | every request is rejected as blank, served from the cache, or handed to the providers after the cache read and deck lookup |
| Teacher.MissGoesToProviders | backend/app/api/ai_teacher.py:43-98 | on a miss the calls are the cache read, the deck lookup if a deck is named, then the providers' calls; those are the only provider calls |
| Teacher.LookupsAreNotProviderCalls | backend/app/api/ai_teacher.py:43-57 | the cache read and the deck lookup are not provider calls |
| Teacher.PrimarySuccess | backend/app/api/ai_teacher.py:115-123 | when OpenAI answers, its stripped answer is returned with provider "openai" and written under the key; Gemini is never asked |
| Teacher.FallbackAfterPrimaryFailure | backend/app/api/ai_teacher.py:124-147 | when OpenAI fails, Gemini is asked once with the same prompt; its stripped answer is returned and cached, or both failing gives 500 and no write |
| Teacher.AtMostTwoProviderCalls | backend/app/api/ai_teacher.py:96-147 | no request makes more than two provider calls |
| Teacher.StoreEffect | backend/app/api/ai_teacher.py:120-142 | the cache changes only when a provider answered, and then by exactly one write of the returned answer under the request's key |
| Teacher.DeckFailuresDoNotSurface | backend/app/api/ai_teacher.py:59-73 | for a non-blank question the response is an answer or the providers' 500: no deck failure reaches the caller |
| Teacher.RoutePrimary | backend/app/api/ai_teacher.py:98-123 | OpenAI is asked first; when it answers, its stripped answer is returned, cached, and it is the only provider call |
| Teacher.RouteFallback | backend/app/api/ai_teacher.py:124-147 | after an OpenAI failure the provider calls are OpenAI then Gemini; Gemini's stripped answer is returned and cached, or the 500 leaves the store unchanged |
| Teacher.RouteProviderCalls | backend/app/api/ai_teacher.py:98-147 | Gemini is asked only after OpenAI failed, with the same prompt; the result is an error exactly when both failed |
| Teacher.RouteStoreEffect | backend/app/api/ai_teacher.py:120-147 | a provider answer is uncached and written under the key; otherwise the result is the fixed 500 and the store is unchanged |
| Teacher.ResolveSlidesCases | backend/app/api/ai_teacher.py:59-73 | missing rows, failing queries and unreadable files all give no content; a readable deck gives its non-empty formatted text |
| Teacher.PromptSelection | backend/app/api/ai_teacher.py:75-94 | the slide prompt is used exactly when a truthy deck id names a found, readable deck; otherwise the plain prompt |
| Teacher.DeckZeroSharesKey | backend/app/api/ai_teacher.py:42 | deck id 0 gives the same key as no deck id |
| Teacher.DeckSuffixCollision | backend/app/api/ai_teacher.py:42 | question q with deck d and question q + "_" + str(d) without a deck share one cache key |
| Teacher.KeyInjectiveForDeck | backend/app/api/ai_teacher.py:42 | for one deck id, different questions get different keys |
| Teacher.KeyInjectiveForQuestion | backend/app/api/ai_teacher.py:42 | for one question, different truthy deck ids get different keys |
| Teacher.RepeatServedFromCache | backend/app/api/ai_teacher.py:42-46 | up to an hour after a provider's non-empty answer, the same request is answered from the cache with the cache read as its only call |
| Teacher.EmptyAnswerNotServed | backend/app/api/ai_teacher.py:44 | an empty answer from either provider is stored but reads as falsy, so the next request calls a provider again |
| Cache.StoredKey | backend/app/services/ai_cache.py:7-11 | the Redis key is "ai_answer:" followed by the question |
| Cache.StoredKeyInjective | backend/app/services/ai_cache.py:8 | different questions use different Redis keys |
| Cache.ReadAfterWrite | backend/app/services/ai_cache.py:3-11 | a read up to 3600 s after a write, the expiry instant included as in Redis, returns the written answer |
| Cache.ReadAfterExpiry | backend/app/services/ai_cache.py:3 | once more than 3600 s have passed since the write, the entry reads as absent |
| Cache.WriteIsolation | backend/app/services/ai_cache.py:10-11 | a write leaves every other question's entry as it was |
| Cache.LastWriterWins | backend/app/services/ai_cache.py:10-11 | a second write to the same question replaces the first, value and expiry |
| Cache.NeverWrittenIsAbsent | backend/app/services/ai_cache.py:7-8 | a key never written reads as absent |
| Cache.AbsentStaysAbsent | backend/app/services/ai_cache.py:3 | an absent entry stays absent as time passes, until written again |
| Cache.AnswerCache.constructor | backend/app/services/ai_cache.py:5 | the cache starts empty at the given clock |
| Cache.AnswerCache.Get | backend/app/services/ai_cache.py:7-8 | the reply is the live entry under "ai_answer:" + question, if any |
| Cache.AnswerCache.Set | backend/app/services/ai_cache.py:10-11 | the store gains the answer under the key with expiry now + 3600 s; nothing else changes |
| Cache.AnswerCache.Advance | backend/app/services/ai_cache.py:3 | time passes; the store is unchanged |
| Slides.ExtractTextFromPptx | backend/app/services/pptx_service.py:9-38 | the extraction loop returns `Extract(file)`: the entries of `SlideEntries`, or the re-raised error for a file that cannot be opened |
| Slides.ShapeTexts | backend/app/services/pptx_service.py:22-24 | a slide's collected texts are non-empty and trimmed, and there are no more of them than shapes |
| Slides.ShapeTextsAppend | backend/app/services/pptx_service.py:22-24 | shapes are visited in order: the texts of a + b are those of a then those of b |
| Slides.ShapeTextsSingle | backend/app/services/pptx_service.py:23-24 | a shape contributes its stripped text exactly when it has text that is not blank |
| Slides.EntriesNumbering | backend/app/services/pptx_service.py:18-31 | slide numbers start at 1, name real slides and strictly increase |
| Slides.EntriesContent | backend/app/services/pptx_service.py:27-31 | the entry for slide n holds slide n's texts joined with "\n", and that slide has text |
| Slides.EntriesPrefix | backend/app/services/pptx_service.py:18 | the entries of the first m slides come first |
| Slides.EntriesComplete | backend/app/services/pptx_service.py:18-31 | every slide with text has its entry, right after the entries of the slides before it |
| Slides.SlidesWithoutTextOmitted | backend/app/services/pptx_service.py:27 | a slide without text has no entry |
| Slides.EntriesTrimmed | backend/app/services/pptx_service.py:23-30 | every extracted content is non-empty, with no white space at either end |
| Slides.FormatSlidesForPrompt | backend/app/services/pptx_service.py:41-48 | the formatting loop returns `FormatSlides`, the stripped concatenation of title and slide blocks |
| Slides.RawFormatStartsWithTitle | backend/app/services/pptx_service.py:45-47 | the text before stripping starts with "Slide Deck Content:\n\n" |
| Slides.FormatStartsWithTitle | backend/app/services/pptx_service.py:45-48 | the rendering starts with the title, so it is never empty |
| Slides.FormatNoSlides | backend/app/services/pptx_service.py:45-48 | no slides render as the bare title |
| Slides.RawFormatEnds | backend/app/services/pptx_service.py:47 | the text before stripping is a trimmed text followed by one blank line when the last content is trimmed |
| Slides.FormatDropsFinalBlankLine | backend/app/services/pptx_service.py:47-48 | when the last content is trimmed, strip() removes only the final "\n\n" |
| Conversion.TxtToPptx | backend/app/services/conversion_service.py:11-23 | the loop builds `TextDeck(text)`; the path returned is the one given |
| Conversion.TextDeckSpec | backend/app/services/conversion_service.py:11-23 | a text file gives ceil(lines/10) slides; slide k joins lines 10k..10k+9; the slide texts together give the file back |
| Conversion.EmptyTextDeck | backend/app/services/conversion_service.py:17 | an empty file gives no slides |
| Conversion.ReadLinesRoundTrip | backend/app/services/conversion_service.py:14 | joining the lines gives the text back |
| Conversion.ReadLinesShape | backend/app/services/conversion_service.py:14 | lines are non-empty, hold '\n' only at the end, and all but the last end with '\n' |
| Conversion.ChunksFlatten | backend/app/services/conversion_service.py:17-19 | the pieces put together are the original sequence |
| Conversion.ChunksShape | backend/app/services/conversion_service.py:16-17 | there are ceil(n/10) pieces, each of 1 to 10 elements, all but the last exactly 10 |
| Conversion.ChunkAt | backend/app/services/conversion_service.py:17-19 | piece k is the slice from 10k to min(10k + 10, n) |
| Conversion.ChunksOfFullPieces | backend/app/services/conversion_service.py:43-54 | full pieces then a short remainder are chunked as they are |
| Conversion.TextSlides | backend/app/services/conversion_service.py:18-21 | one text slide per piece, holding the piece joined with the separator |
| Conversion.JoinTextSlides | backend/app/services/conversion_service.py:19 | the slide texts joined are the pieces' elements joined |
| Conversion.PdfToPptx | backend/app/services/conversion_service.py:26-35 | one slide per page in page order, holding the page's text or "" when it has none |
| Conversion.DocxToPptx | backend/app/services/conversion_service.py:38-56 | the loop builds `DocxDeck(paragraphs)`; the path returned is the one given |
| Conversion.DocxDeckSpec | backend/app/services/conversion_service.py:41-54 | Word slides hold the kept paragraphs in order, ten per slide and 1 to 10 on the last; no slide is empty |
| Conversion.EmptyDocxDeck | backend/app/services/conversion_service.py:51 | a document with only blank paragraphs gives no slides |
| Conversion.BlankParagraphsDropped | backend/app/services/conversion_service.py:44 | blank paragraphs are never kept |
| Conversion.KeptParagraphsTrimmed | backend/app/services/conversion_service.py:44-45 | kept paragraphs are non-empty and trimmed, and there are no more of them than paragraphs |
| Conversion.KeptParagraphsAppend | backend/app/services/conversion_service.py:43-45 | paragraphs are filtered in document order |
| Conversion.KeptParagraphsSingle | backend/app/services/conversion_service.py:44-45 | a paragraph is kept, stripped, exactly when it is not blank |
| Conversion.ImagesToPptx | backend/app/services/conversion_service.py:59-81 | exactly one picture slide per image path, in order |
| Conversion.ConvertToPptx | backend/app/services/conversion_service.py:84-100 | dispatches on the lower-cased extension to the converter of that kind; any other extension gives the "Unsupported file type" error; the output path is `OutputPath` |
| Conversion.BaseName | backend/app/services/conversion_service.py:85 | the name has no '/' |
| Conversion.Stem | backend/app/services/conversion_service.py:85 | the stem has no '/' |
| Conversion.OutputPathSpec | backend/app/services/conversion_service.py:85-86 | the deck path ends with stem + ".pptx" and is dest_dir + "/" + that name when dest_dir does not end in '/' |
| Conversion.DispatchIgnoresCase | backend/app/services/conversion_service.py:87-93 | upper-case extensions are dispatched like lower-case ones |
| Filenames.AlphabetChars | backend/app/utils/file_utils.py:8 | the alphabet has 36 characters, each a lower-case ASCII letter or a digit |
| Filenames.ShortIdPrefix | backend/app/utils/file_utils.py:9 | character i of the id is the alphabet character of the i-th draw |
| Filenames.ShortIdShape | backend/app/utils/file_utils.py:6-9 | the id has exactly `length` characters (none when not positive), each a lower-case letter or a digit |
| Filenames.SplitExtRoundTrip | backend/app/utils/file_utils.py:16 | name and extension put back together give the original name; the extension is empty or a dot with no further dot or slash |
| Filenames.SplitExtOfPlainName | backend/app/utils/file_utils.py:16 | splitext undoes appending an extension to a name without dots or slashes |
| Filenames.KeepSafe | backend/app/utils/file_utils.py:18 | only alphanumerics, space, '-' and '_' are kept, and the result is no longer than the name |
| Filenames.KeepSafeAppend | backend/app/utils/file_utils.py:18 | filtering is character by character, in the original order |
| Filenames.KeepSafeOfSafe | backend/app/utils/file_utils.py:18 | a name of kept characters is kept whole |
| Filenames.ReplaceSpaces | backend/app/utils/file_utils.py:20 | each space becomes '_' and every other character stays |
| Filenames.Take | backend/app/utils/file_utils.py:20 | `s[:n]` is a prefix of length min(n, \|s\|) |
| Filenames.SafeNameShape | backend/app/utils/file_utils.py:18-20 | the safe name has at most 30 characters, each alphanumeric, '-' or '_'; it has no space, dot or slash and is cut after the replacement |
| Filenames.SafeNameOfSafe | backend/app/utils/file_utils.py:18-20 | a short name of letters, digits, '-' and '_' is kept as it is |
| Filenames.Pad2 | backend/app/utils/file_utils.py:22 | a two-digit field reads back as its number |
| Filenames.YearDigits | backend/app/utils/file_utils.py:22 | a four-digit year prints as four digits |
| Filenames.TimestampRoundTrip | backend/app/utils/file_utils.py:22 | the timestamp is twelve digits, and year, month, day, hour and minute read back from their places |
| Filenames.UniqueStemPlain | backend/app/utils/file_utils.py:24 | the part before the extension is non-empty, with no dot or slash |
| Filenames.UniqueFilenameKeepsExtension | backend/app/utils/file_utils.py:16-24 | splitext of the new name gives back exactly the original extension |
| Filenames.UniqueFilenameLayout | backend/app/utils/file_utils.py:24 | the name is safe_name, '_', the timestamp, '_', the id and the extension, in that order |
| Config.AssembleDbConnection | backend/app/core/config.py:37-41 | a given string URI is returned unchanged; otherwise the URI starts with "postgresql://" |
| Config.Missing | backend/app/core/config.py:13-33 | the error lists exactly the required names the environment lacks |
| Config.LoadFailsIffRequiredMissing | backend/app/core/config.py:13-33 | loading fails exactly when a field without a default is absent; a validation error names every absent one |
| Config.MissingPasswordWithoutUriCrashes | backend/app/core/config.py:37-41 | the validator's `AttributeError` is the outcome exactly when both the password and the URI are absent; with a URI, a missing password is an ordinary missing-field error |
| Config.GivenUriKept | backend/app/core/config.py:39-40 | a URI set in the environment is used as it is |
| Config.DefaultSettings | backend/app/core/config.py:9-41 | with none of the defaulted fields set: user postgres, server localhost, db ai_tutor, URI postgresql://postgres:pw@localhost/ai_tutor, 11520 minutes, providers openai and gemini, API prefix /api/v1, project name AI Tutor, Redis localhost:6379 without password, CORS origins ["http://localhost:3000"] |
| Config.DefaultUri | backend/app/core/config.py:41 | the default fields assemble into postgresql://postgres:pw@localhost/ai_tutor |
| Config.AssembledUriShape | backend/app/core/config.py:41 | the assembled URI is the scheme, then user ':' password '@' server '/' db |
| Config.AssembledUriRoundTrip | backend/app/core/config.py:41 | the assembled URI parses back into its four fields when the user has no ':', the password no '@' and the server no '/' |
| Text.SkipSpaces | backend/app/api/ai_teacher.py:31 | strip()'s left scan stops at the first non-white-space character, and everything it skipped is white space |
| Text.SkipSpacesBack | backend/app/api/ai_teacher.py:31 | strip()'s right scan stops after the last non-white-space character, and everything it skipped is white space |
| Text.StripSpec | backend/app/api/ai_teacher.py:31 | strip() removes a blank prefix and a blank suffix, and the rest is a contiguous, trimmed piece of the input |
| Text.StripEmptyIffBlank | backend/app/api/ai_teacher.py:38 | a string strips to "" exactly when it is all white space |
| Text.StripTrimmed | backend/app/api/ai_teacher.py:31 | a string without white space at either end is left as it is |
| Text.StripIdempotent | backend/app/api/ai_teacher.py:31 | stripping twice is stripping once |
| Text.StripSurrounded | backend/app/services/pptx_service.py:48 | blanks around a trimmed non-empty string are removed and nothing else |
| Text.StripBlankSuffix | backend/app/services/pptx_service.py:48 | blanks after a trimmed non-empty string are removed and nothing else |
| Text.TrimmedPrefixSurvivesStrip | backend/app/services/pptx_service.py:48 | a trimmed prefix survives strip() |
| Text.JoinConcatAppend | backend/app/services/conversion_service.py:19 | joining with "" distributes over concatenation |
| Text.JoinEnds | backend/app/services/pptx_service.py:30 | a join starts with the first piece and ends with the last |
| Text.JoinTrimmedPieces | backend/app/services/pptx_service.py:30 | joining non-empty trimmed pieces gives a non-blank, trimmed string |
| Text.DigitChar | backend/app/api/ai_teacher.py:42 | the digit character has the digit's value |
| Text.NatToString | backend/app/api/ai_teacher.py:42 | str(n) is one or more decimal digits |
| Text.NatToStringRoundTrip | backend/app/api/ai_teacher.py:42 | reading str(n) back gives n |
| Text.NatToStringInjective | backend/app/api/ai_teacher.py:42 | str on naturals is injective |
| Text.IntToStringInjective | backend/app/api/ai_teacher.py:42 | str on integers is injective |
| Text.RFind | backend/app/utils/file_utils.py:16 | rfind returns the last index of the character, or -1 exactly when it is absent |
| Text.Lower | backend/app/services/conversion_service.py:87 | lower() keeps the length and lower-cases each ASCII letter in place |
| Text.LowerHasNoUpperCase | backend/app/services/conversion_service.py:87 | the lower-cased extension has no ASCII capital |

## Left out

- Provider calls: the OpenAI client and `genai` (ai_teacher.py:99-115, 133-138) are foreign network calls. Each is an input that gives a reply text or a failure; the model names and parameters are not modelled.
- Logging (ai_teacher.py:34-146), including the API-key prefixes at lines 100 and 134: it has no effect on behaviour.
- The ownership query (ai_teacher.py:53-57) is an ORM call. It is the input `lookup`, which gives found / not found / failed for a deck id. So the user and the ownership filter are not modelled.
- Authentication (`get_current_user`), security.py, user_service.py, file_upload.py, main.py, database.py and the frontend are not part of this model.
- Redis transport, connection failures and concurrent requests are not modelled: the model is one request at a time over a map with an explicit clock.
- Teacher.AskProviders: the cache write never fails in the model. In the code, a failing `set_cached_answer` inside the OpenAI `try` (ai_teacher.py:122) would be caught and lead to Gemini.
- Teacher.AskSpec: the sequence of calls is part of the specification so that "no provider call on a hit" can be stated. It is not a value the handler returns.
- Slides.Extract: every exception inside the extraction's `try` (ai_teacher.py:70, pptx_service.py:36-38) is one `Unreadable` file. python-pptx's parsing and its notion of which shapes carry `text` are inputs.
- The readers that produce the inputs are not modelled:
  - decoding a text file as UTF-8 with universal newlines (conversion_service.py:13); the text is already decoded with `'\n'` line ends;
  - pdfplumber's page extraction;
  - python-docx's paragraph splitting.
- Conversion.ImagesToPptx: the picture geometry (conversion_service.py:64-79) is float arithmetic with library units. A slide records only its image path.
- The saving of the presentation (`prs.save`) and the slide layouts are not modelled. A deck is its sequence of slide bodies.
- Conversion.Stem: `PurePath` handling is modelled for '/'-separated paths only. Normalisation is not modelled: repeated or trailing slashes are kept, and "." components are not dropped (`Path("a/.").stem` is "a", the model gives ".").
- Filenames.KeepSafe: `str.isalnum()` is modelled for ASCII only. Unicode letters and digits, which Python also keeps, are dropped by the model.
- Text.Lower: `str.lower()` is modelled for ASCII only. Non-ASCII capitals in an extension would not reach a handler in either version.
- Filenames.Timestamp, UniqueFilename, TimestampRoundTrip: years before 1000 are excluded (the only caller passes `datetime.now()`). `strftime('%Y')` pads or does not pad them depending on the platform.
- Config.LoadSettings:
  - reading `.env`, case-sensitive lookup and `extra = "allow"` are reduced to one map from names to values;
  - `ACCESS_TOKEN_EXPIRE_MINUTES`, `REDIS_PORT` and `BACKEND_CORS_ORIGINS` stay at their defaults, because parsing an int or a list from the environment is pydantic's;
  - `SecretStr` wrapping is not modelled.
- `get_settings`' `lru_cache` (config.py:49-52) only shares one instance and is not modelled.

