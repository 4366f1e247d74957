# Prompt assembly and response shaping of the yenism lyrics service

The service in `server.js` answers three POST routes. `/title` invents a song
title, `/generate` writes lyrics, and `/other` answers a free-form request.
Each handler reads a few optional string fields from the JSON body and
normalises them. It then builds one instruction for the text-generation
backend: fixed instruction text, optional clauses, a blank line, and the
whole reference corpus (the lyrics text read once at start-up). It sends that
prompt to the backend once and replies with the backend's text. `/title`
trims and lowercases that text first.

This project models that logic as pure Dafny functions, in two modules:

- `Text` (`text.dfy`) models the JavaScript string operations the handlers
  use. `Take` is `slice(0, n)`, `Trim` is `trim()` and `Lower` is
  `toLowerCase()`. Each one has a property that pins it down. For example,
  `IsTrimOf` characterises trimming, and `TrimUnique` proves that `Trim` is
  the only function meeting that characterisation.
- `Server` (`server.dfy`) models field normalisation, the style dispatch,
  the three prompt templates with their exact text, the `/other` validation
  gate, the response shaping and the three handlers.

Modelling choices:

- The corpus and the backend are parameters. A handler takes `corpus: string`
  and `generate: string -> string`.
- A request body is a `map<string, string>`. A missing body is the empty map.
- A handler returns an `Outcome`: the list of prompts it sent to the backend,
  plus the reply. The reply is `Ok(key, value)` for status 200 or
  `BadRequest(error)` for status 400. Recording the sent prompts makes
  "no backend call" something a contract can state.

Two behaviours of `server.js` are worth stating outright:

- It defines no routes beyond `/`, `/title`, `/generate` and `/other`. In
  particular, there is no `/hook` route.
- `/generate` and `/other` return the backend text exactly as produced,
  without trimming it (lines 68 and 87). Only `/title` shapes its reply.

## Model

| member | source | states |
|---|---|---|
| `Text.Take` | server.js:53 | `slice(0, n)` keeps exactly `min(n, length)` characters, and they are a prefix of the input |
| `Text.TrimStart` | server.js:53 | what remains is a suffix, everything dropped is whitespace, and the result does not start with whitespace |
| `Text.TrimEnd` | server.js:53 | what remains is a prefix, everything dropped is whitespace, and the result does not end with whitespace |
| `Text.Trim` | server.js:53 | `trim()` yields a string with no whitespace at either end that sits in the input with only whitespace around it |
| `Text.TrimUnique` | server.js:53 | any string with that characterisation equals `Trim` of the input, so the characterisation determines the trim |
| `Text.TrimEmptyIff` | server.js:72-73 | trimming leaves the empty string exactly when the input is all whitespace |
| `Text.TrimNoOuterSpace` | server.js:49 | trimming a string that has no outer whitespace changes nothing, so `trim` is idempotent |
| `Text.LowerChar` | server.js:29 | a character never comes out upper-case; A to Z move to a to z, and every other character is unchanged |
| `Text.Lower` | server.js:29 | `toLowerCase()` keeps the length, lowercases position by position, and leaves no upper-case letter |
| `Text.LowerIdentity` | server.js:49 | lowercasing a string that has no upper-case letters changes nothing |
| `Text.LowerCharKeepsSpace` | server.js:49 | lowercasing never turns whitespace into non-whitespace, or the reverse |
| `Text.LowerKeepsSpace` | server.js:49 | lowercasing keeps all-whitespace strings all-whitespace, and strings without outer whitespace without it |
| `Text.LowerTrimmedAt` | server.js:49 | lowercasing keeps a trimmed piece at the same offset with whitespace around it |
| `Text.LowerTrimCommute` | server.js:49 | lowercasing then trimming gives the same result as trimming then lowercasing |
| `Server.Field` | server.js:29 | `req.body?.name` is present exactly when the body has the field, and then it is the field's value |
| `Server.OrElse` | server.js:29 | `v \|\| d` returns a present, non-empty value itself, and the default when the value is absent or empty |
| `Server.Normalize` | server.js:53-54 | the normalised field has at most `cap` characters and is the trim of the first `cap` characters of the raw value |
| `Server.NormalizeIsCappedPiece` | server.js:53-54 | the normalised field is a piece of the raw value that ends within the first `cap` characters, and only whitespace comes before it; truncation happens before trimming |
| `Server.NormalizeShort` | server.js:72 | a value no longer than the cap is only trimmed |
| `Server.NormalizeFixed` | server.js:53-54 | a value without surrounding whitespace that fits under the cap comes out of normalisation unchanged |
| `Server.NormalizeEmptyIff` | server.js:72-73 | the normalised field is empty exactly when the first `cap` characters of the raw value are all whitespace |
| `Server.Style` | server.js:29 | the style has no upper-case letters; it is "auto" when the field is absent or empty, and otherwise the field lowercased (not trimmed) |
| `Server.LengthClause` | server.js:31-36 | the one-word clause if and only if the style is "word", the phrase clause if and only if it is "phrase", the auto clause if and only if it is neither |
| `Server.StyleSelectsClause` | server.js:29-36 | in terms of the body: the one-word clause exactly when `style` lowercases to "word", the phrase clause exactly when it lowercases to "phrase", the auto clause otherwise, absent style included |
| `Server.StyleExamples` | server.js:29-36 | "WORD" gives one word, "Phrase" gives a phrase, " word" (untrimmed), "" and a missing style give the auto clause |
| `Server.TitlePrompt` | server.js:38-42 | the title prompt starts with the fixed instruction and ends with the blank line followed by the whole corpus |
| `Server.OneClauseAfter` | server.js:38-42 | behind any common prefix, each of the three length clauses is in the prompt exactly when its style is chosen |
| `Server.TitlePromptOneClause` | server.js:38-42 | the title prompt holds exactly one of the three length clauses, and which one is decided by the style |
| `Server.ShapeTitle` | server.js:49 | the title reply has no whitespace at either end and no upper-case letters, and is no longer than the backend text |
| `Server.ShapeTitleIdempotent` | server.js:49 | shaping an already-shaped title changes nothing |
| `Server.ShapeTitleOrderIrrelevant` | server.js:49 | trim-then-lowercase equals lowercase-then-trim |
| `Server.ShapeTitlePadded` | server.js:49 | a title padded with whitespace comes back unpadded and lowercased |
| `Server.ShapeTitleExample` | server.js:49 | the backend text " My Song " becomes the title "my song" |
| `Server.OptionalClause` | server.js:58-59 | a clause is empty exactly when its field is empty; otherwise its length is the label plus the field plus the final period |
| `Server.LyricsPrompt` | server.js:56-61 | the lyrics prompt starts with the fixed instruction, ends with the blank line and the corpus, and its length adds up the present clauses |
| `Server.ClauseSlots` | server.js:56-61 | behind any prefix, the title clause comes first and is present exactly when the title is non-empty; the extra clause comes next and is present exactly when the extra info is non-empty; the separator and corpus follow |
| `Server.LyricsTitleClause` | server.js:58 | right after the instruction, `" the song is titled: " + title + "."` appears exactly when the normalised title is non-empty |
| `Server.LyricsExtraClause` | server.js:59-61 | after the title slot, `" extra info: " + extra + "."` appears exactly when the normalised extra is non-empty; then come the blank line and the corpus |
| `Server.LyricsNoClauses` | server.js:56-61 | with neither field set, the prompt is just the instruction, the blank line and the corpus |
| `Server.JoinedClauses` | server.js:58-59 | behind any prefix, a title ending in a complete extra clause renders like that title and extra given separately |
| `Server.LyricsClausesAmbiguous` | server.js:58-59 | the clauses are not delimited: a title of the form "t. extra info: e" gives the same prompt as title "t" with extra "e", and it has no outer whitespace when t and e have none |
| `Server.GenerateAmbiguous` | server.js:52-69 | a /generate request whose title alone is "t. extra info: e" (at most 200 characters) gets the same backend call and reply as one with title "t" and extra "e" |
| `Server.OtherPrompt` | server.js:75-80 | the free-form prompt starts with the instruction and the "user request:" label, and ends with the blank line and the corpus |
| `Server.RequestOf` | server.js:75-80 | a request read back from a prompt has exactly the prompt's length minus the fixed head and the corpus tail |
| `Server.RequestRoundTrip` | server.js:75-80 | reading the request back from a free-form prompt gives exactly the embedded query, and only prompts of that shape are read |
| `Server.Response.Status` | server.js:73 | a reply has status 200 exactly when it is a success and 400 exactly when it is the error reply |
| `Server.HandleTitle` | server.js:28-50 | /title makes exactly one backend call, with the title prompt for the body's style, ending in the corpus; the reply is `{title}` holding the shaped backend text, without outer whitespace or upper-case letters |
| `Server.HandleGenerate` | server.js:52-69 | /generate makes exactly one backend call, with the lyrics prompt for the title capped at 200 and the extra at 400, ending in the corpus; the reply is `{text}` holding the backend text unchanged |
| `Server.HandleOther` | server.js:71-88 | /other replies 400 "missing prompt" with no backend call exactly when the normalised query is empty; otherwise it makes one call with the free-form prompt, which ends in the corpus, and relays the text unchanged |
| `Server.OtherBlankHeadRefused` | server.js:72-73 | a query whose first 1200 characters are whitespace is refused without a call, even if text follows them |
| `Server.OtherMissingRefused` | server.js:72-73 | a missing or empty `q` gets status 400 "missing prompt" and no backend call |
| `Server.OtherTruncates` | server.js:72 | a 1500-character query with text among its first 1200 characters is cut to those 1200 before trimming, and the prompt embeds exactly that trimmed text |

## Left out

- Express wiring: body parsing, route registration, the static page at `/`, `app.listen` and console logging (server.js:11-16, 90-92). These are I/O plumbing.
- Start-up: the dotenv import, the check that throws when `GEMINI_API_KEY` is missing, and reading `lyrics.txt` (server.js:1, 18-23, 26). The corpus is a parameter of every handler.
- The Gemini client and `generateContent` (server.js:25, 44-47, 63-66, 82-85). The backend is a total function parameter. The model does not cover the model identifier, asynchrony, backend failures, or a response whose `text` is missing (which makes line 49 throw).
- JavaScript coercions: `.toString()` on non-string fields, non-string falsy values such as `0` or `false` becoming `""`, and `toLowerCase` throwing on a non-string `style`. Fields are modelled as strings.
- Text.Lower: only maps A to Z. Other letters that JavaScript's `toLowerCase` changes (accented and non-Latin letters) are left as they are.
- Text.Take: counts Unicode scalar values. JavaScript's `slice` counts UTF-16 code units, so the two disagree for characters outside the Basic Multilingual Plane.
- Concurrency between requests: the handlers share no mutable state.
