/** The request handlers of the lyrics service: each turns a few optional
    fields of a JSON body into one instruction for the text-generation
    backend, ending in the reference corpus, and shapes the backend's answer.
    The corpus (read once at start-up) and the backend are parameters. */
module Server {
  import opened Text

  datatype Option<T> = None | Some(value: T)

  /** A parsed JSON request body: field name to string value. A request
      without a body is the empty map. */
  type Body = map<string, string>

  /** The backend call: prompt in, generated text out. */
  type Backend = string -> string

  /** `req.body?.name`: present exactly when the body has the field. */
  function Field(body: Body, name: string): (v: Option<string>)
    ensures v.Some? <==> name in body
    ensures v.Some? ==> v.value == body[name]
  {
    if name in body then Some(body[name]) else None
  }

  /** `v || d`: an absent or empty value gives way to the default. */
  function OrElse(v: Option<string>, d: string): (r: string)
    ensures v.Some? && v.value != "" ==> r == v.value
    ensures v.None? || v.value == "" ==> r == d
    ensures r == "" ==> d == ""
  {
    if v.Some? && v.value != "" then v.value else d
  }

  // Field caps, in characters.
  const TitleCap: nat := 200
  const ExtraCap: nat := 400
  const QueryCap: nat := 1200

  /** `(v || "").toString().slice(0, cap).trim()`: cut to `cap` characters
      first, then trimmed. */
  function Normalize(v: Option<string>, cap: nat): (r: string)
    ensures |r| <= cap
    ensures IsTrimOf(Take(OrElse(v, ""), cap), r)
  {
    Trim(Take(OrElse(v, ""), cap))
  }

  /** The normalised value is a piece of the first `cap` characters of the
      raw value, preceded only by whitespace: truncation keeps a prefix and
      happens before trimming. */
  lemma {:induction false} NormalizeIsCappedPiece(v: Option<string>, cap: nat)
    ensures var raw, r := OrElse(v, ""), Normalize(v, cap);
      exists i: nat | i <= cap :: i + |r| <= |raw| && i + |r| <= cap && r == raw[i..i + |r|] && AllSpace(raw[..i])
  {
    var raw, r := OrElse(v, ""), Normalize(v, cap);
    var p := Take(raw, cap);
    assert IsTrimOf(p, r);
    var i: nat :| i <= |p| && TrimmedAt(p, i, r);
    assert i + |r| <= cap && r == raw[i..i + |r|] && AllSpace(raw[..i]) by {
      assert p == raw[..|p|];
      TrimmedAtPrefix(raw, |p|, i, r);
    }
  }

  /** A value that fits under the cap is only trimmed. */
  lemma {:induction false} NormalizeShort(v: Option<string>, cap: nat)
    requires |OrElse(v, "")| <= cap
    ensures Normalize(v, cap) == Trim(OrElse(v, ""))
  {
  }

  /** A value that already fits under the cap and has no surrounding
      whitespace comes out of normalisation unchanged. */
  lemma {:induction false} NormalizeFixed(s: string, cap: nat)
    requires NoOuterSpace(s) && |s| <= cap
    ensures Normalize(Some(s), cap) == s
  {
    TrimNoOuterSpace(s);
  }

  /** The normalised value is empty exactly when the first `cap`
      characters of the raw value are all whitespace (or there are none). */
  lemma {:induction false} NormalizeEmptyIff(v: Option<string>, cap: nat)
    ensures Normalize(v, cap) == "" <==> AllSpace(Take(OrElse(v, ""), cap))
  {
    TrimEmptyIff(Take(OrElse(v, ""), cap));
  }

  // ---------------------------------------------------------------------
  // POST /title

  /** The lowercased `style` field, "auto" when it is absent or empty. It is
      not trimmed. */
  function Style(body: Body): (s: string)
    ensures NoUpper(s)
    ensures "style" !in body || body["style"] == "" ==> s == "auto"
    ensures "style" in body && body["style"] != "" ==> s == Lower(body["style"])
  {
    Lower(OrElse(Field(body, "style"), "auto"))
  }

  const WordClause := "output exactly one word."
  const PhraseClause := "output a short phrase of 2 to 6 words."
  const AutoClause := "output either one word or a short phrase, whichever matches the artist's usual style."

  /** The length clause picked by a lowercased style. */
  function LengthClause(style: string): (c: string)
    ensures c == WordClause <==> style == "word"
    ensures c == PhraseClause <==> style == "phrase"
    ensures c == AutoClause <==> style != "word" && style != "phrase"
  {
    if style == "word" then WordClause
    else if style == "phrase" then PhraseClause
    else AutoClause
  }

  /** The style dispatch in terms of the request body: the one-word clause
      exactly when `style` lowercases to "word", the phrase clause exactly
      when it lowercases to "phrase", the auto clause otherwise (absent and
      empty included). */
  lemma {:induction false} StyleSelectsClause(body: Body)
    ensures LengthClause(Style(body)) == WordClause <==> "style" in body && Lower(body["style"]) == "word"
    ensures LengthClause(Style(body)) == PhraseClause <==> "style" in body && Lower(body["style"]) == "phrase"
    ensures LengthClause(Style(body)) == AutoClause <==>
      "style" !in body || (Lower(body["style"]) != "word" && Lower(body["style"]) != "phrase")
  {
    assert Lower("auto") == "auto";
    assert Lower("") == "";
  }

  /** Worked cases of the dispatch: case is ignored, surrounding spaces are
      not, and a missing or empty style means "auto". */
  lemma {:induction false} StyleExamples()
    ensures LengthClause(Style(map["style" := "WORD"])) == WordClause
    ensures LengthClause(Style(map["style" := "Phrase"])) == PhraseClause
    ensures LengthClause(Style(map["style" := " word"])) == AutoClause
    ensures LengthClause(Style(map["style" := ""])) == AutoClause
    ensures LengthClause(Style(map[])) == AutoClause
  {
    assert Lower("WORD") == "word";
    assert Lower("Phrase") == "phrase";
    assert Lower("auto") == "auto";
    assert |Lower(" word")| == 5;
  }

  const TitleBase := "based on the song titles and lyrics in the text below, invent a new song title that the artist would realistically use next. follow the same naming style, length, and tone the artist usually uses. do not copy or reuse any existing title that already appears in the text below. do not explain. do not add punctuation. output only the title in lowercase. "

  /** Separates the instruction from the corpus in every prompt. */
  const Sep := "\n\n"

  function TitlePrompt(style: string, corpus: string): (p: string)
    ensures StartsWith(p, TitleBase)
    ensures EndsWith(p, Sep + corpus)
  {
    Affixes(TitleBase, LengthClause(style), Sep, corpus);
    TitleBase + LengthClause(style) + Sep + corpus
  }

  /** Behind any common prefix, the three length clauses are told apart by
      their lengths alone. */
  lemma {:induction false} OneClauseAfter(base: string, style: string, corpus: string)
    ensures var p := base + LengthClause(style) + Sep + corpus;
      && (p == base + WordClause + Sep + corpus <==> style == "word")
      && (p == base + PhraseClause + Sep + corpus <==> style == "phrase")
      && (p == base + AutoClause + Sep + corpus <==> style != "word" && style != "phrase")
  {
    assert |WordClause| == 24 && |PhraseClause| == 38 && |AutoClause| == 85;
  }

  /** The title prompt holds exactly one of the three length clauses, in the
      slot between the base instruction and the corpus. */
  lemma {:induction false} TitlePromptOneClause(style: string, corpus: string)
    ensures var p := TitlePrompt(style, corpus);
      && (p == TitleBase + WordClause + Sep + corpus <==> style == "word")
      && (p == TitleBase + PhraseClause + Sep + corpus <==> style == "phrase")
      && (p == TitleBase + AutoClause + Sep + corpus <==> style != "word" && style != "phrase")
  {
    OneClauseAfter(TitleBase, style, corpus);
  }

  /** `response.text.trim().toLowerCase()`. */
  function ShapeTitle(text: string): (t: string)
    ensures NoOuterSpace(t) && NoUpper(t)
    ensures |t| <= |text|
  {
    LowerKeepsSpace(Trim(text));
    Lower(Trim(text))
  }

  /** Shaping a title twice is shaping it once. */
  lemma {:induction false} ShapeTitleIdempotent(text: string)
    ensures ShapeTitle(ShapeTitle(text)) == ShapeTitle(text)
  {
    var t := ShapeTitle(text);
    TrimNoOuterSpace(t);
    LowerIdentity(t);
  }

  /** Lowercasing before trimming would give the same title. */
  lemma {:induction false} ShapeTitleOrderIrrelevant(text: string)
    ensures ShapeTitle(text) == Trim(Lower(text))
  {
    LowerTrimCommute(text);
  }

  /** A title padded with whitespace comes back without it, lowercased. */
  lemma {:induction false} ShapeTitlePadded(pre: string, t: string, post: string)
    requires AllSpace(pre) && AllSpace(post) && NoOuterSpace(t)
    ensures ShapeTitle(pre + t + post) == Lower(t)
  {
    var s := pre + t + post;
    assert s[..|pre|] == pre && s[|pre|..|pre| + |t|] == t && s[|pre| + |t|..] == post;
    assert TrimmedAt(s, |pre|, t);
    TrimUnique(s, t);
  }

  /** The backend's " My Song " becomes "my song". */
  lemma {:induction false} ShapeTitleExample()
    ensures ShapeTitle(" My Song ") == "my song"
  {
    var t := "My Song";
    assert " My Song " == " " + t + " ";
    ShapeTitlePadded(" ", t, " ");
    LowerMySong(t);
  }

  /** The lowercase half of the example above. */
  lemma {:induction false} LowerMySong(t: string)
    requires t == "My Song"
    ensures Lower(t) == "my song"
  {
    var m := Lower(t);
    assert m[0] == LowerChar('M') == 'm';
    assert m[3] == LowerChar('S') == 's';
    assert m[1] == 'y' && m[2] == ' ' && m[4] == 'o' && m[5] == 'n' && m[6] == 'g';
  }

  // ---------------------------------------------------------------------
  // POST /generate

  const LyricsBase := "write original song lyrics inspired by the text below, copying the general flow, tone, and style but not the exact lines. try to use only words that already appear in the text and avoid introducing new vocabulary unless absolutely necessary. the lyrics should feel cohesive and natural, not explanatory. output only the lyrics."
  const TitleLabel := " the song is titled: "
  const ExtraLabel := " extra info: "

  /** `(v ? tag + v + "." : "")`. */
  function OptionalClause(tag: string, v: string): (c: string)
    ensures c == "" <==> v == ""
    ensures |c| == if v == "" then 0 else |tag| + |v| + 1
  {
    if v == "" then "" else tag + v + "."
  }

  function LyricsPrompt(title: string, extra: string, corpus: string): (p: string)
    ensures StartsWith(p, LyricsBase)
    ensures EndsWith(p, Sep + corpus)
    ensures |p| == |LyricsBase| + |OptionalClause(TitleLabel, title)| + |OptionalClause(ExtraLabel, extra)| + |Sep| + |corpus|
  {
    Affixes5(LyricsBase, OptionalClause(TitleLabel, title), OptionalClause(ExtraLabel, extra), Sep, corpus);
    LyricsBase + OptionalClause(TitleLabel, title) + OptionalClause(ExtraLabel, extra) + Sep + corpus
  }

  /** Behind any prefix, the optional clauses sit in order: the title
      clause first, present exactly when the title is non-empty, then the
      extra clause, present exactly when the extra info is non-empty, then
      the separator and the corpus. */
  lemma {:induction false} ClauseSlots(base: string, title: string, extra: string, corpus: string)
    ensures var t, e := OptionalClause(TitleLabel, title), OptionalClause(ExtraLabel, extra);
      var p := base + t + e + Sep + corpus;
      && (title != "" <==> StartsWith(p[|base|..], TitleLabel))
      && (title != "" ==> StartsWith(p[|base|..], TitleLabel + title + "."))
      && (extra != "" <==> StartsWith(p[|base| + |t|..], ExtraLabel))
      && (extra != "" ==> p[|base| + |t|..] == ExtraLabel + extra + "." + Sep + corpus)
      && (extra == "" ==> p[|base| + |t|..] == Sep + corpus)
  {
    var t, e := OptionalClause(TitleLabel, title), OptionalClause(ExtraLabel, extra);
    DropParts(base, t, e, Sep, corpus);
    var rest := t + e + Sep + corpus;
    if title == "" {
      assert rest == e + Sep + corpus;
      if extra == "" {
        assert rest[1] == '\n';
      } else {
        assert rest[1] == 'e';
      }
      assert TitleLabel[1] == 't';
    } else {
      assert rest[..|t|] == t;
    }
    var tail := e + Sep + corpus;
    if extra == "" {
      assert tail == Sep + corpus;
      assert tail[0] == '\n';
    } else {
      assert tail[..|ExtraLabel|] == ExtraLabel;
    }
  }

  /** Right after the base instruction comes the title clause, and it is
      there exactly when the title is non-empty. */
  lemma {:induction false} LyricsTitleClause(title: string, extra: string, corpus: string)
    ensures var rest := LyricsPrompt(title, extra, corpus)[|LyricsBase|..];
      && (title != "" <==> StartsWith(rest, TitleLabel))
      && (title != "" ==> StartsWith(rest, TitleLabel + title + "."))
  {
    ClauseSlots(LyricsBase, title, extra, corpus);
  }

  /** After the title slot comes the extra clause, and it is there exactly
      when the extra info is non-empty; the separator and the corpus follow. */
  lemma {:induction false} LyricsExtraClause(title: string, extra: string, corpus: string)
    ensures var rest := LyricsPrompt(title, extra, corpus)[|LyricsBase| + |OptionalClause(TitleLabel, title)|..];
      && (extra != "" <==> StartsWith(rest, ExtraLabel))
      && (extra != "" ==> rest == ExtraLabel + extra + "." + Sep + corpus)
      && (extra == "" ==> rest == Sep + corpus)
  {
    ClauseSlots(LyricsBase, title, extra, corpus);
  }

  /** With neither field, the prompt is the base instruction and the corpus. */
  lemma {:induction false} LyricsNoClauses(corpus: string)
    ensures LyricsPrompt("", "", corpus) == LyricsBase + Sep + corpus
  {
    assert LyricsBase + "" + "" == LyricsBase;
  }

  /** Behind any prefix, a title that ends in a full extra clause renders
      like that title and extra given separately. */
  lemma {:induction false} JoinedClauses(base: string, title: string, extra: string, corpus: string)
    requires title != "" && extra != ""
    ensures var joined := title + "." + ExtraLabel + extra;
      base + OptionalClause(TitleLabel, joined) + OptionalClause(ExtraLabel, "") + Sep + corpus
      == base + OptionalClause(TitleLabel, title) + OptionalClause(ExtraLabel, extra) + Sep + corpus
  {
    var joined := title + "." + ExtraLabel + extra;
    var t, e := OptionalClause(TitleLabel, title), OptionalClause(ExtraLabel, extra);
    assert OptionalClause(TitleLabel, joined) == t + e;
    assert base + (t + e) + "" == base + t + e;
  }

  /** The clauses are not delimited: a title that itself reads like an
      extra clause renders the same prompt as a separate title and extra. */
  lemma {:induction false} LyricsClausesAmbiguous(title: string, extra: string, corpus: string)
    requires title != "" && extra != ""
    ensures NoOuterSpace(title) && NoOuterSpace(extra) ==> NoOuterSpace(title + "." + ExtraLabel + extra)
    ensures LyricsPrompt(title + "." + ExtraLabel + extra, "", corpus) == LyricsPrompt(title, extra, corpus)
  {
    JoinedClauses(LyricsBase, title, extra, corpus);
  }

  /** The ambiguity reaches /generate: when the joined title fits under the
      title cap, a request carrying it alone sends the backend the same
      prompt, and gets the same reply, as a request with the title and the
      extra info given separately. */
  lemma {:induction false} GenerateAmbiguous(together: Body, apart: Body, title: string, extra: string, corpus: string, generate: Backend)
    requires title != "" && extra != "" && NoOuterSpace(title) && NoOuterSpace(extra)
    requires |title| + |ExtraLabel| + |extra| < TitleCap
    requires "extra" !in together && "title" in together && together["title"] == title + "." + ExtraLabel + extra
    requires "title" in apart && apart["title"] == title && "extra" in apart && apart["extra"] == extra
    ensures HandleGenerate(together, corpus, generate) == HandleGenerate(apart, corpus, generate)
  {
    var joined := title + "." + ExtraLabel + extra;
    assert Normalize(Field(together, "title"), TitleCap) == joined by {
      NormalizeFixed(joined, TitleCap);
    }
    assert Normalize(Field(together, "extra"), ExtraCap) == "" by {
      NormalizeEmptyIff(None, ExtraCap);
    }
    assert Normalize(Field(apart, "title"), TitleCap) == title by {
      NormalizeFixed(title, TitleCap);
    }
    assert Normalize(Field(apart, "extra"), ExtraCap) == extra by {
      NormalizeFixed(extra, ExtraCap);
    }
    GenerateFromFields(together, joined, "", corpus, generate);
    GenerateFromFields(apart, title, extra, corpus, generate);
    LyricsClausesAmbiguous(title, extra, corpus);
  }

  /** /generate is determined by the two normalised fields. */
  lemma {:induction false} GenerateFromFields(body: Body, title: string, extra: string, corpus: string, generate: Backend)
    requires Normalize(Field(body, "title"), TitleCap) == title
    requires Normalize(Field(body, "extra"), ExtraCap) == extra
    ensures HandleGenerate(body, corpus, generate)
      == Outcome([LyricsPrompt(title, extra, corpus)], Ok("text", generate(LyricsPrompt(title, extra, corpus))))
  {
  }

  // ---------------------------------------------------------------------
  // POST /other

  const OtherBase := "answer the user's request using the text below as your reference. be concise and direct. if the request is creative, keep it in the artist's style. output only the answer.\n\n"
  const RequestLabel := "user request:\n"
  const MissingPrompt := "missing prompt"

  function OtherPrompt(q: string, corpus: string): (p: string)
    ensures StartsWith(p, OtherBase + RequestLabel)
    ensures EndsWith(p, Sep + corpus)
  {
    Affixes(OtherBase + RequestLabel, q, Sep, corpus);
    OtherBase + RequestLabel + q + Sep + corpus
  }

  /** Reads the user's request back out of a free-form prompt. */
  function RequestOf(p: string, corpus: string): (q: Option<string>)
    ensures q.Some? ==> |q.value| + |OtherBase + RequestLabel| + |Sep + corpus| == |p|
  {
    var head, tail := OtherBase + RequestLabel, Sep + corpus;
    if |head| + |tail| <= |p| && StartsWith(p, head) && EndsWith(p, tail) then
      Some(p[|head|..|p| - |tail|])
    else
      None
  }

  /** The request sits verbatim between its label and the corpus: reading
      it back gives exactly what was embedded, and only prompts of this
      shape are read. */
  lemma {:induction false} RequestRoundTrip(q: string, p: string, corpus: string)
    ensures RequestOf(OtherPrompt(q, corpus), corpus) == Some(q)
    ensures RequestOf(p, corpus) == Some(q) ==> p == OtherPrompt(q, corpus)
  {
    var head, tail := OtherBase + RequestLabel, Sep + corpus;
    var o := OtherPrompt(q, corpus);
    assert o == head + q + tail;
    assert o[|head|..|o| - |tail|] == q;
    if RequestOf(p, corpus) == Some(q) {
      assert p == p[..|head|] + p[|head|..|p| - |tail|] + p[|p| - |tail|..];
    }
  }

  // ---------------------------------------------------------------------
  // The three handlers

  /** The JSON reply: a one-field object with status 200, or status 400
      with an `error` field. */
  datatype Response = Ok(key: string, value: string) | BadRequest(error: string) {
    function Status(): (s: int)
      ensures s == 200 <==> Ok?
      ensures s == 400 <==> BadRequest?
    {
      if Ok? then 200 else 400
    }
  }

  /** What a request did: the prompts it sent to the backend, in order, and
      the reply. */
  datatype Outcome = Outcome(calls: seq<string>, response: Response)

  /** POST /title. */
  function HandleTitle(body: Body, corpus: string, generate: Backend): (o: Outcome)
    ensures |o.calls| == 1 && o.calls[0] == TitlePrompt(Style(body), corpus)
    ensures EndsWith(o.calls[0], Sep + corpus)
    ensures o.response.Ok? && o.response.key == "title"
    ensures o.response.value == ShapeTitle(generate(o.calls[0]))
    ensures NoOuterSpace(o.response.value) && NoUpper(o.response.value)
  {
    var prompt := TitlePrompt(Style(body), corpus);
    Outcome([prompt], Ok("title", ShapeTitle(generate(prompt))))
  }

  /** POST /generate. */
  function HandleGenerate(body: Body, corpus: string, generate: Backend): (o: Outcome)
    ensures |o.calls| == 1
    ensures var title, extra := Normalize(Field(body, "title"), TitleCap), Normalize(Field(body, "extra"), ExtraCap);
      && |title| <= TitleCap && |extra| <= ExtraCap
      && o.calls[0] == LyricsPrompt(title, extra, corpus)
    ensures EndsWith(o.calls[0], Sep + corpus)
    ensures o.response == Ok("text", generate(o.calls[0]))
  {
    var title := Normalize(Field(body, "title"), TitleCap);
    var extra := Normalize(Field(body, "extra"), ExtraCap);
    var prompt := LyricsPrompt(title, extra, corpus);
    Outcome([prompt], Ok("text", generate(prompt)))
  }

  /** POST /other: an empty request is refused before any backend call. */
  function HandleOther(body: Body, corpus: string, generate: Backend): (o: Outcome)
    ensures var q := Normalize(Field(body, "q"), QueryCap);
      && (q == "" <==> o.response == BadRequest(MissingPrompt))
      && (q == "" <==> o.calls == [])
      && (q != "" ==> o.calls == [OtherPrompt(q, corpus)] && o.response == Ok("text", generate(o.calls[0])))
    ensures o.calls != [] ==> EndsWith(o.calls[0], Sep + corpus)
  {
    var q := Normalize(Field(body, "q"), QueryCap);
    if q == "" then
      Outcome([], BadRequest(MissingPrompt))
    else
      var prompt := OtherPrompt(q, corpus);
      Outcome([prompt], Ok("text", generate(prompt)))
  }

  /** A request whose first 1200 characters are whitespace is refused, even
      when text follows them: the cap applies before the trim. */
  lemma {:induction false} OtherBlankHeadRefused(body: Body, corpus: string, generate: Backend)
    requires "q" in body && |body["q"]| >= QueryCap && AllSpace(body["q"][..QueryCap])
    ensures HandleOther(body, corpus, generate) == Outcome([], BadRequest(MissingPrompt))
  {
    var q := body["q"];
    assert OrElse(Field(body, "q"), "") == q;
    assert Take(q, QueryCap) == q[..QueryCap];
    NormalizeEmptyIff(Field(body, "q"), QueryCap);
    assert Normalize(Field(body, "q"), QueryCap) == "";
  }

  /** A request with no `q`, or an empty one, is refused without a call. */
  lemma {:induction false} OtherMissingRefused(body: Body, corpus: string, generate: Backend)
    requires "q" !in body || body["q"] == ""
    ensures HandleOther(body, corpus, generate) == Outcome([], BadRequest(MissingPrompt))
    ensures HandleOther(body, corpus, generate).response.Status() == 400
  {
    NormalizeEmptyIff(Field(body, "q"), QueryCap);
  }

  /** A 1500-character request with text among its first 1200 characters
      keeps only those 1200, trimmed. */
  lemma {:induction false} OtherTruncates(body: Body, corpus: string, generate: Backend)
    requires "q" in body && |body["q"]| == 1500 && !AllSpace(body["q"][..QueryCap])
    ensures var o := HandleOther(body, corpus, generate);
      && o.calls == [OtherPrompt(Trim(body["q"][..1200]), corpus)]
      && RequestOf(o.calls[0], corpus) == Some(Trim(body["q"][..1200]))
  {
    var q := body["q"];
    assert OrElse(Field(body, "q"), "") == q;
    var head := Take(q, QueryCap);
    assert head == q[..1200];
    var n := Normalize(Field(body, "q"), QueryCap);
    assert n == Trim(q[..1200]);
    NormalizeEmptyIff(Field(body, "q"), QueryCap);
    assert n != "";
    RequestRoundTrip(n, OtherPrompt(n, corpus), corpus);
  }
}
