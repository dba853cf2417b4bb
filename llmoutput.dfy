/**
 * The pure helpers around the two LLM clients: `extractJsonText`, which
 * strips a Markdown code fence from a model's answer, and the classifiers
 * that turn a client library's error into an HTTP error.
 */
module LlmOutput {
  import opened Wrappers
  import opened Http
  import opened Text

  const Fence := "```"

  /** `/^```json\s*` + `/i`: the tag matches case-insensitively (ASCII only, as in a non-Unicode regex). */
  function StripJsonOpening(s: string): (r: string)
    ensures |r| <= |s|
  {
    if |s| >= 7 && s[..3] == Fence && Lower(s[3..7]) == "json" then TrimStart(s[7..]) else s
  }

  /** `/^```\s*` + `/`: a bare opening fence and the whitespace after it. */
  function StripOpening(s: string): (r: string)
    ensures |r| <= |s|
  {
    if StartsWith(s, Fence) then TrimStart(s[3..]) else s
  }

  /**
   * `/\s*```$/`: a closing fence at the very end. The leftmost match starts at
   * the first of the whitespace run before the fence, so the whole run goes.
   */
  function StripClosing(s: string): (r: string)
    ensures |r| <= |s|
  {
    if EndsWith(s, Fence) then TrimEnd(s[..|s| - 3]) else s
  }

  /**
   * `extractJsonText` (identical in both clients): nothing for a missing or
   * empty answer; otherwise the three replacements in order, then `trim`.
   */
  function ExtractJsonText(raw: Option<string>): (r: string)
    ensures (raw.None? || raw == Some("")) ==> r == ""
    ensures raw.Some? ==> |r| <= |raw.value|
    ensures r == [] || (!IsSpace(r[0]) && !IsSpace(r[|r| - 1]))
  {
    if raw.None? || raw.value == "" then ""
    else Trim(StripClosing(StripOpening(StripJsonOpening(raw.value))))
  }

  /** Text with no fence at either end comes back just trimmed. */
  lemma FenceFreeIsTrimmed(s: string)
    requires !StartsWith(s, Fence) && !EndsWith(s, Fence)
    ensures ExtractJsonText(Some(s)) == Trim(s)
  {
  }

  /** Whitespace in front of a string that does not trim away entirely is all `trimStart` removes. */
  lemma {:induction false} TrimStartAppend(x: string, y: string)
    requires TrimStart(x) != []
    ensures TrimStart(x + y) == TrimStart(x) + y
    decreases |x|
  {
    if IsSpace(x[0]) {
      assert (x + y)[1..] == x[1..] + y;
      TrimStartAppend(x[1..], y);
    } else {
      assert (x + y)[0] == x[0];
    }
  }

  /**
   * A fenced answer "```json" (any letter case) + content + "```" yields the
   * trimmed content, provided the content is not blank and does not itself
   * open with a backtick.
   */
  lemma JsonFenceYieldsContent(tag: string, inner: string)
    requires |tag| == 4 && Lower(tag) == "json"
    requires TrimStart(inner) != [] && TrimStart(inner)[0] != '`'
    ensures ExtractJsonText(Some(Fence + tag + inner + Fence)) == Trim(inner)
  {
    var t := TrimStart(inner);
    JsonOpeningOf(tag, inner);
    TrimStartAppend(inner, Fence);
    NoBacktickNoFence(t + Fence);
    ClosingFenceOf(t);
    TrimIdempotent(inner);
  }

  lemma NoBacktickNoFence(r: string)
    requires r != [] && r[0] != '`'
    ensures StripOpening(r) == r
  {
    assert |r| >= 3 ==> r[..3][0] == r[0];
  }

  lemma ClosingFenceOf(t: string)
    ensures StripClosing(t + Fence) == TrimEnd(t)
  {
    assert (t + Fence)[..|t|] == t;
    assert (t + Fence)[|t|..] == Fence;
  }

  lemma JsonOpeningOf(tag: string, inner: string)
    requires |tag| == 4 && Lower(tag) == "json"
    ensures StripJsonOpening(Fence + tag + inner + Fence) == TrimStart(inner + Fence)
  {
    var s := Fence + tag + inner + Fence;
    assert s[..3] == Fence && s[3..7] == tag && s[7..] == inner + Fence;
  }

  /** `error?.status || fallback`: a missing or zero status takes the fallback. */
  function StatusOr(status: Option<int>, fallback: int): (code: int)
    ensures status.Some? && status.value != 0 ==> code == status.value
    ensures (status.None? || status.value == 0) ==> code == fallback
  {
    if status.Some? && status.value != 0 then status.value else fallback
  }

  /** `error?.message || fallback`. */
  function MessageOr(message: Option<string>, fallback: string): (m: string)
    ensures message.Some? && message.value != "" ==> m == message.value
    ensures (message.None? || message.value == "") ==> m == fallback
  {
    if message.Some? && message.value != "" then message.value else fallback
  }

  const GroqKeyInvalid := ApiError(401, "Groq API key is invalid for this environment.")
  const GroqRateLimited := ApiError(429, "Groq rate limit or quota exceeded. Please retry shortly.")
  const GroqModelUnavailable :=
    ApiError(500, "Configured Groq model is unavailable. Set GROQ_MODEL=llama-3.1-70b-versatile.")

  predicate GroqKeyProblem(code: int, lower: string) {
    code == 401 || Contains(lower, "api key") || Contains(lower, "unauthorized")
  }

  predicate GroqRateProblem(code: int, lower: string) {
    code == 429 || Contains(lower, "quota") || Contains(lower, "rate limit")
  }

  predicate GroqModelProblem(code: int, lower: string) {
    code == 404 || (Contains(lower, "model") && Contains(lower, "not found"))
  }

  /**
   * `mapGroqError`: the key rule first, then the rate rule, then the model
   * rule; anything else is a 500 with the library's message.
   */
  function MapGroqError(status: Option<int>, message: Option<string>): (e: ApiError)
    ensures e.statusCode in {401, 429, 500}
    ensures var code := StatusOr(status, 500);
            var lower := Lower(MessageOr(message, "Groq request failed"));
            && (GroqKeyProblem(code, lower) ==> e == GroqKeyInvalid)
            && (!GroqKeyProblem(code, lower) && GroqRateProblem(code, lower) ==> e == GroqRateLimited)
            && ((!GroqKeyProblem(code, lower) && !GroqRateProblem(code, lower) && GroqModelProblem(code, lower))
                  ==> e == GroqModelUnavailable)
            && ((!GroqKeyProblem(code, lower) && !GroqRateProblem(code, lower) && !GroqModelProblem(code, lower))
                  ==> e == ApiError(500, MessageOr(message, "Groq request failed")))
  {
    var code := StatusOr(status, 500);
    var text := MessageOr(message, "Groq request failed");
    var lower := Lower(text);
    if GroqKeyProblem(code, lower) then GroqKeyInvalid
    else if GroqRateProblem(code, lower) then GroqRateLimited
    else if GroqModelProblem(code, lower) then GroqModelUnavailable
    else ApiError(500, text)
  }

  /** The answer is 401 exactly when the status is 401 or the message speaks of the key. */
  lemma GroqUnauthorizedIff(status: Option<int>, message: Option<string>)
    ensures MapGroqError(status, message).statusCode == 401 <==>
              GroqKeyProblem(StatusOr(status, 500), Lower(MessageOr(message, "Groq request failed")))
  {
  }

  const GeminiKeyInvalid := ApiError(401, "Gemini API key is invalid for this environment.")
  const GeminiQuota := ApiError(402, "Gemini quota exceeded or billing is unavailable for this project.")
  const GeminiUnavailable := ApiError(503, "Gemini service is temporarily unavailable. Please retry.")

  predicate GeminiKeyProblem(code: int, lower: string) {
    code == 401 || code == 403 || Contains(lower, "api key") || Contains(lower, "permission")
  }

  predicate GeminiQuotaProblem(code: int, lower: string) {
    code == 429 || Contains(lower, "quota") || Contains(lower, "resource exhausted")
  }

  /**
   * `mapGeminiError`: the status is `status`, else `code`, else 500; then the
   * key rule, the quota rule (answered with 402), the 503 rule, and a 500
   * carrying the library's message.
   */
  function MapGeminiError(status: Option<int>, code: Option<int>, message: Option<string>): (e: ApiError)
    ensures e.statusCode in {401, 402, 503, 500}
    ensures var sc := StatusOr(status, StatusOr(code, 500));
            var lower := Lower(MessageOr(message, "Gemini request failed"));
            && (GeminiKeyProblem(sc, lower) ==> e == GeminiKeyInvalid)
            && (!GeminiKeyProblem(sc, lower) && GeminiQuotaProblem(sc, lower) ==> e == GeminiQuota)
            && (!GeminiKeyProblem(sc, lower) && !GeminiQuotaProblem(sc, lower) && sc == 503 ==> e == GeminiUnavailable)
            && ((!GeminiKeyProblem(sc, lower) && !GeminiQuotaProblem(sc, lower) && sc != 503)
                  ==> e == ApiError(500, MessageOr(message, "Gemini request failed")))
  {
    var sc := StatusOr(status, StatusOr(code, 500));
    var text := MessageOr(message, "Gemini request failed");
    var lower := Lower(text);
    if GeminiKeyProblem(sc, lower) then GeminiKeyInvalid
    else if GeminiQuotaProblem(sc, lower) then GeminiQuota
    else if sc == 503 then GeminiUnavailable
    else ApiError(500, text)
  }

  /** A rate-limited Gemini call (429 without a key problem) is answered with 402, never 429. */
  lemma GeminiRateLimitIs402(code: Option<int>, message: Option<string>)
    requires !GeminiKeyProblem(429, Lower(MessageOr(message, "Gemini request failed")))
    ensures MapGeminiError(Some(429), code, message) == GeminiQuota
  {
  }

  /** The `code` field is consulted only when `status` is missing or zero. */
  lemma GeminiStatusBeforeCode(status: int, code1: Option<int>, code2: Option<int>, message: Option<string>)
    requires status != 0
    ensures MapGeminiError(Some(status), code1, message) == MapGeminiError(Some(status), code2, message)
  {
  }
}
