/**
 * The two string helpers of the mining web page (public/app.js): turning
 * whatever the page was given as the API address (a bare host, a full URL, or
 * the bot's webhook URL) into the base URL of the API, and turning an error
 * code from the API into the message shown to the user.
 */
module WebApp {
  import opened Wrappers
  import opened JsText

  /** `base.replace(/\/+$/, "")`: every trailing slash removed. */
  function StripTrailingSlashes(s: string): (r: string)
    ensures r <= s
    ensures forall i :: |r| <= i < |s| ==> s[i] == '/'
    ensures r == [] || r[|r| - 1] != '/'
  {
    if s != [] && s[|s| - 1] == '/' then StripTrailingSlashes(s[..|s| - 1]) else s
  }

  /** At most one webhook path removed from the end; `/telegram/webhook` is tried first. */
  function StripWebhookPath(s: string): (r: string)
    ensures r <= s
    ensures EndsWith(s, "/telegram/webhook") ==> |r| == |s| - 17
    ensures !EndsWith(s, "/telegram/webhook") && EndsWith(s, "/webhook") ==> |r| == |s| - 8
    ensures !EndsWith(s, "/webhook") ==> r == s
  {
    if EndsWith(s, "/telegram/webhook") then s[..|s| - 17]
    else if EndsWith(s, "/webhook") then s[..|s| - 8]
    else s
  }

  /** `c` is the ASCII letter `lower` in either case, as the regular-expression flag `i` compares. */
  predicate SameLetter(c: char, lower: char) {
    c == lower || ('a' <= lower <= 'z' && c as int == lower as int - 32)
  }

  /** The test `/^https?:\/\//i`: an `http://` or `https://` scheme in any letter case. */
  predicate HasScheme(s: string) {
    && |s| >= 7
    && SameLetter(s[0], 'h') && SameLetter(s[1], 't') && SameLetter(s[2], 't') && SameLetter(s[3], 'p')
    && (|| (s[4] == ':' && s[5] == '/' && s[6] == '/')
        || (|s| >= 8 && SameLetter(s[4], 's') && s[5] == ':' && s[6] == '/' && s[7] == '/'))
  }

  /**
   * `normalizeApiBase(value)`: empty for a missing or empty value; otherwise
   * trimmed, stripped of trailing slashes and of one webhook path, and given
   * an `https://` scheme when it has none but looks like a host name.
   */
  function NormalizeApiBase(value: Option<string>): (r: string)
    ensures value.None? || value.value == [] ==> r == []
    ensures '.' in r ==> HasScheme(r)
  {
    if value.None? || value.value == [] then []
    else
      var base := StripWebhookPath(StripTrailingSlashes(Trim(value.value)));
      if !HasScheme(base) && '.' in base then
        SchemeAdded(base);
        "https://" + base
      else base
  }

  /** Putting `https://` in front gives an address with a scheme. */
  lemma SchemeAdded(base: string)
    ensures HasScheme("https://" + base)
  {
    var r := "https://" + base;
    assert r[0] == 'h' && r[1] == 't' && r[2] == 't' && r[3] == 'p';
    assert r[4] == 's' && r[5] == ':' && r[6] == '/' && r[7] == '/';
  }

  /** A base address as one would type it: no padding, no trailing slash, no webhook path. */
  predicate PlainBase(b: string) {
    && b != [] && !IsSpace(b[0]) && !IsSpace(b[|b| - 1]) && b[|b| - 1] != '/'
    && !EndsWith(b, "/webhook") && !EndsWith(b, "/telegram")
  }

  /** A trailing character other than `/` ends the slash stripping at once. */
  lemma NoTrailingSlash(s: string)
    requires s != [] && s[|s| - 1] != '/'
    ensures StripTrailingSlashes(s) == s
  {
  }

  /** `b + suffix` trims to itself when `b` starts and `suffix` ends with a non-space. */
  lemma AppendedIsTrimmed(b: string, suffix: string)
    requires b != [] && !IsSpace(b[0])
    requires suffix != [] && !IsSpace(suffix[|suffix| - 1])
    ensures Trim(b + suffix) == b + suffix
  {
    var s := b + suffix;
    assert s[0] == b[0] && s[|s| - 1] == suffix[|suffix| - 1];
    TrimOfTrimmed(s);
  }

  /** Every value whose first three steps give `b` normalises as `b` itself does. */
  lemma SameBaseSameResult(v: string, b: string)
    requires v != [] && PlainBase(b) && StripWebhookPath(StripTrailingSlashes(Trim(v))) == b
    ensures NormalizeApiBase(Some(v)) == NormalizeApiBase(Some(b))
  {
    TrimOfTrimmed(b);
    NoTrailingSlash(b);
  }

  /**
   * A plain base is kept as it is when it has a scheme or no dot, and is
   * given `https://` otherwise.
   */
  lemma PlainBaseResult(b: string)
    requires PlainBase(b)
    ensures NormalizeApiBase(Some(b)) == if !HasScheme(b) && '.' in b then "https://" + b else b
  {
    TrimOfTrimmed(b);
    NoTrailingSlash(b);
  }

  /** The bot's webhook URL normalises like the base it was built on. */
  lemma WebhookUrlGivesBase(b: string)
    requires PlainBase(b)
    ensures NormalizeApiBase(Some(b + "/telegram/webhook")) == NormalizeApiBase(Some(b))
  {
    var t := b + "/telegram/webhook";
    AppendedIsTrimmed(b, "/telegram/webhook");
    NoTrailingSlash(t);
    assert t[|t| - 17..] == "/telegram/webhook";
    assert t[..|t| - 17] == b;
    SameBaseSameResult(t, b);
  }

  /**
   * The base with `/webhook` appended normalises like the base: the longer
   * path `/telegram/webhook` cannot match, since a plain base does not end
   * in `/telegram`.
   */
  lemma WebhookPathGivesBase(b: string)
    requires PlainBase(b)
    ensures NormalizeApiBase(Some(b + "/webhook")) == NormalizeApiBase(Some(b))
  {
    var w := b + "/webhook";
    AppendedIsTrimmed(b, "/webhook");
    NoTrailingSlash(w);
    assert w[|w| - 8..] == "/webhook";
    assert w[..|w| - 8] == b;
    if |w| >= 17 {
      assert w[|w| - 17..][..9] == b[|b| - 9..];
    }
    SameBaseSameResult(w, b);
  }

  /** The base with trailing slashes normalises like the base. */
  lemma SlashedBaseGivesBase(b: string)
    requires PlainBase(b)
    ensures NormalizeApiBase(Some(b + "/")) == NormalizeApiBase(Some(b))
  {
    var s := b + "/";
    AppendedIsTrimmed(b, "/");
    assert s[..|s| - 1] == b;
    NoTrailingSlash(b);
    SameBaseSameResult(s, b);
  }

  /** The error codes the page has its own message for. */
  const KnownErrors: set<string> := {"network", "bad_response", "empty_response", "server_error", "unauthorized", "api_missing"}

  /** `getErrorMessage(error, fallback)` */
  function GetErrorMessage(error: string, fallback: string): (r: string)
    ensures error !in KnownErrors ==> r == fallback
    ensures error == "network" ==> r == "Network error. Try again."
    ensures error == "bad_response" || error == "empty_response" ==> r == "API error. Check backend URL."
    ensures error == "server_error" ==> r == "Server error. Try again."
    ensures error == "unauthorized" ==> r == "Auth failed. Re-open from Telegram."
    ensures error == "api_missing" ==> r == "API URL missing. Open from bot link."
  {
    match error
    case "network" => "Network error. Try again."
    case "bad_response" => "API error. Check backend URL."
    case "empty_response" => "API error. Check backend URL."
    case "server_error" => "Server error. Try again."
    case "unauthorized" => "Auth failed. Re-open from Telegram."
    case "api_missing" => "API URL missing. Open from bot link."
    case _ => fallback
  }

  /** An unparsable body and an empty body are reported alike. */
  lemma BadAndEmptyResponsesAlike(f: string, g: string)
    ensures GetErrorMessage("bad_response", f) == GetErrorMessage("empty_response", g)
  {
  }

  /** The fallback is shown exactly for the codes the page does not know. */
  lemma FallbackOnlyForUnknownCodes(error: string, f: string, g: string)
    requires f != g
    ensures (GetErrorMessage(error, f) == f && GetErrorMessage(error, g) == g) <==> error !in KnownErrors
  {
  }
}
