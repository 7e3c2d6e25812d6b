/**
 * The pure rules of the FX bot (index.js): premium status and its expiry,
 * the mining cooldown and reward, the display helpers, the freshness gates of
 * web-app sign-in and the choice of a movie's content and code.
 */
module Rules {
  import opened Wrappers
  import opened JsText
  import opened Db

  /** One day in milliseconds, the unit of every premium extension. */
  const MsPerDay: int := 24 * 60 * 60 * 1000

  /** `WEBAPP_AUTH_MAX_AGE_SECONDS`: how old a web-app sign-in may be. */
  const MaxAuthAgeSeconds: int := 24 * 60 * 60

  /** Where a mining request comes from: the chat bot or the web page. */
  datatype Source = Bot | Web

  /** `x || d` on a number read from the settings: absent or zero falls back to `d`. */
  function OrDefault(x: Option<int>, d: int): (r: int)
    ensures x.Some? && x.value != 0 ==> r == x.value
    ensures x.None? || x.value == 0 ==> r == d
    ensures d != 0 ==> r != 0
  {
    if x.Some? && x.value != 0 then x.value else d
  }

  /** `isPremium`: the expiry is set and still ahead of `now`. */
  predicate IsPremium(premiumUntil: Option<int>, now: int): (r: bool)
    ensures r ==> premiumUntil.Some? && now < premiumUntil.value
  {
    premiumUntil.Some? && premiumUntil.value > now
  }

  /** Premium, once active, stays active at every earlier time and lapses for good at its expiry. */
  lemma PremiumUntilExpiry(premiumUntil: Option<int>, earlier: int, now: int)
    requires earlier <= now
    ensures IsPremium(premiumUntil, now) ==> IsPremium(premiumUntil, earlier)
    ensures premiumUntil.Some? ==> !IsPremium(premiumUntil, premiumUntil.value)
    ensures premiumUntil.None? ==> !IsPremium(premiumUntil, now)
  {
  }

  /** Premium time still left at `now`, in milliseconds. */
  function RemainingPremium(premiumUntil: Option<int>, now: int): int {
    if IsPremium(premiumUntil, now) then premiumUntil.value - now else 0
  }

  /**
   * The new expiry after granting `days` of premium: the days are added to
   * the current expiry while it is still running and to `now` otherwise, so
   * no paid time is lost and none is granted twice.
   */
  function ExtendPremium(premiumUntil: Option<int>, now: int, days: int): (r: int)
    ensures r - now == RemainingPremium(premiumUntil, now) + days * MsPerDay
    ensures days >= 0 ==> r >= now
    ensures days >= 0 && premiumUntil.Some? ==> r >= premiumUntil.value
  {
    var base := if IsPremium(premiumUntil, now) then premiumUntil.value else now;
    base + days * MsPerDay
  }

  /** A grant of at least one day leaves the user premium at `now`. */
  lemma ExtendPremiumActivates(premiumUntil: Option<int>, now: int, days: int)
    requires days >= 1
    ensures IsPremium(Some(ExtendPremium(premiumUntil, now, days)), now)
  {
  }

  /** Two grants in a row add up: extending by `a` then by `b` days is extending by `a + b`. */
  lemma ExtendPremiumAdds(premiumUntil: Option<int>, now: int, a: int, b: int)
    requires a >= 1 && b >= 0
    ensures ExtendPremium(Some(ExtendPremium(premiumUntil, now, a)), now, b) == ExtendPremium(premiumUntil, now, a + b)
  {
  }

  /**
   * The expiry as index.js computes it. node-postgres hands `BIGINT` columns
   * over as strings, so while premium is running `base` is the text of the old
   * expiry and `+` concatenates the numeral of the extension onto it.
   */
  function ExtendPremiumAsWritten(premiumUntil: Option<int>, now: int, days: int): (r: JsValue)
    ensures !IsPremium(premiumUntil, now) ==> r == JsNum(ExtendPremium(premiumUntil, now, days))
    ensures IsPremium(premiumUntil, now) ==> r.JsStr?
  {
    if IsPremium(premiumUntil, now) then JsStr(IntToString(premiumUntil.value) + IntToString(days * MsPerDay))
    else JsNum(now + days * MsPerDay)
  }

  lemma Pow10Monotone(i: nat, j: nat)
    requires i <= j
    ensures Pow10(i) <= Pow10(j)
    decreases j
  {
    if i < j {
      Pow10Monotone(i, j - 1);
    }
  }

  lemma MulMonotone(a: int, b: int, c: int, d: int)
    requires a >= c >= 0 && b >= d >= 0
    ensures a * b >= c * d
  {
    assert a * b >= c * b;
    assert c * b >= c * d;
  }

  /**
   * With premium still running, an expiry of 13 digits or more (any time
   * after 2001) and a grant of at least a day, the concatenated text is a
   * numeral of at least 21 digits, beyond the `BIGINT` range: the UPDATE of
   * `premium_until` fails.
   */
  lemma ConcatenatedExpiryRejected(p: int, now: int, days: int)
    requires p >= Pow10(12) && p > now && days >= 1
    ensures BigIntInput(ExtendPremiumAsWritten(Some(p), now, days)) == None
  {
    var ext := days * MsPerDay;
    assert ext >= Pow10(7);
    NumeralLength(ext, 7);
    var a, b := NatToString(p), NatToString(ext);
    assert ExtendPremiumAsWritten(Some(p), now, days) == JsStr(a + b);
    LongConcatenationRejected(a, b);
  }

  /** Digits worth at least 10^12 followed by eight or more digits make a numeral beyond `BIGINT`. */
  lemma LongConcatenationRejected(a: string, b: string)
    requires a != [] && AllDigits(a) && AllDigits(b) && DigitsValue(a) >= Pow10(12) && |b| >= 8
    ensures BigIntInput(JsStr(a + b)) == None
  {
    DigitsValueAppend(a, b);
    var s := a + b;
    assert Unsigned(s) == s by { assert IsDigit(s[0]); }
    Pow10Monotone(8, |b|);
    MulMonotone(DigitsValue(a), Pow10(|b|), Pow10(12), Pow10(8));
    BeyondBigInt();
    assert DigitsValue(s) > MaxBigInt;
  }

  /** 10^20 is past the largest `BIGINT`. */
  lemma BeyondBigInt()
    ensures Pow10(12) * Pow10(8) > MaxBigInt
  {
    assert Pow10(4) == 10_000;
    assert Pow10(8) == 100_000_000;
    assert Pow10(12) == 1_000_000_000_000;
  }

  /** The corrected expiry is a plain number and is stored as it is for any realistic clock and grant. */
  lemma CorrectedExpiryStored(premiumUntil: Option<int>, now: int, days: int)
    requires 0 <= now <= 1_000_000_000_000_000
    requires premiumUntil.Some? ==> 0 <= premiumUntil.value <= 1_000_000_000_000_000
    requires 0 <= days <= 1_000_000
    ensures BigIntInput(JsNum(ExtendPremium(premiumUntil, now, days))) == Some(ExtendPremium(premiumUntil, now, days))
  {
  }

  /** `getCooldownSeconds`: the configured cooldown, else 60 s for the bot and none for the web page. */
  function CooldownSeconds(settings: map<string, string>, source: Source): (r: int)
    ensures source == Bot ==> r == SettingNumberOf(settings, "mine_cooldown_seconds").GetOr(60)
    ensures source == Web ==> r == SettingNumberOf(settings, "web_mine_cooldown_seconds").GetOr(0)
  {
    match source
    case Web => SettingNumberOf(settings, "web_mine_cooldown_seconds").GetOr(0)
    case Bot => SettingNumberOf(settings, "mine_cooldown_seconds").GetOr(60)
  }

  /**
   * `getMineAmount`: the web page earns `web_mine_amount` (else 1) whatever the
   * tier; the bot earns the premium or the standard amount, and never 0.
   */
  function MineAmount(settings: map<string, string>, source: Source, premiumUntil: Option<int>, now: int): (r: int)
    ensures source == Web ==> r == SettingNumberOf(settings, "web_mine_amount").GetOr(1)
    ensures source == Bot ==> r != 0
    ensures source == Bot && IsPremium(premiumUntil, now) ==> r == OrDefault(SettingNumberOf(settings, "premium_mine_amount"), 1)
    ensures source == Bot && !IsPremium(premiumUntil, now) ==> r == OrDefault(SettingNumberOf(settings, "mine_amount"), 1)
  {
    match source
    case Web => SettingNumberOf(settings, "web_mine_amount").GetOr(1)
    case Bot =>
      if IsPremium(premiumUntil, now) then OrDefault(SettingNumberOf(settings, "premium_mine_amount"), 1)
      else OrDefault(SettingNumberOf(settings, "mine_amount"), 1)
  }

  /** A cooldown written with `setSetting` is the cooldown used, for either source. */
  lemma ConfiguredCooldownApplies(settings: map<string, string>, n: int)
    ensures CooldownSeconds(settings["mine_cooldown_seconds" := IntToString(n)], Bot) == n
    ensures CooldownSeconds(settings["web_mine_cooldown_seconds" := IntToString(n)], Web) == n
  {
    SettingRoundTrip(settings, "mine_cooldown_seconds", n);
    SettingRoundTrip(settings, "web_mine_cooldown_seconds", n);
  }

  /** Without a readable cooldown the bot waits 60 s and the web page not at all. */
  lemma MissingCooldownDefaults(settings: map<string, string>)
    requires SettingNumberOf(settings, "mine_cooldown_seconds").None?
    requires SettingNumberOf(settings, "web_mine_cooldown_seconds").None?
    ensures CooldownSeconds(settings, Bot) == 60
    ensures CooldownSeconds(settings, Web) == 0
  {
  }

  /**
   * A configured amount is paid as written, except that the bot turns 0 into 1
   * (`|| 1`) while the web page pays 0 (`!== null`).
   */
  lemma ConfiguredAmountApplies(settings: map<string, string>, premiumUntil: Option<int>, now: int, n: int)
    ensures MineAmount(settings["web_mine_amount" := IntToString(n)], Web, premiumUntil, now) == n
    ensures !IsPremium(premiumUntil, now) ==>
      MineAmount(settings["mine_amount" := IntToString(n)], Bot, premiumUntil, now) == if n == 0 then 1 else n
    ensures IsPremium(premiumUntil, now) ==>
      MineAmount(settings["premium_mine_amount" := IntToString(n)], Bot, premiumUntil, now) == if n == 0 then 1 else n
  {
    SettingRoundTrip(settings, "web_mine_amount", n);
    SettingRoundTrip(settings, "mine_amount", n);
    SettingRoundTrip(settings, "premium_mine_amount", n);
  }

  /** Without a readable amount one FX is paid, by the web page and by the bot alike. */
  lemma MissingAmountDefaults(settings: map<string, string>, source: Source, premiumUntil: Option<int>, now: int)
    requires SettingNumberOf(settings, "web_mine_amount").None?
    requires SettingNumberOf(settings, "mine_amount").None? && SettingNumberOf(settings, "premium_mine_amount").None?
    ensures MineAmount(settings, source, premiumUntil, now) == 1
  {
  }

  /** The settings table right after `initDb` on an empty database. */
  function Seeded(): map<string, string> {
    SeedInto(map[], DefaultSettings)
  }

  /** A seeded numeric default reads back as its number. */
  lemma SeededNumber(i: nat, n: int)
    requires i < |DefaultSettings| && DefaultSettings[i].1 == IntToString(n)
    ensures SettingNumberOf(Seeded(), DefaultSettings[i].0) == Some(n)
  {
    SeededValue(i);
    NumeralReadsBack(n);
  }

  /** With the seeded settings the bot waits 60 s and the web page not at all. */
  lemma SeededCooldowns()
    ensures CooldownSeconds(Seeded(), Bot) == 60
    ensures CooldownSeconds(Seeded(), Web) == 0
  {
    assert CooldownSeconds(Seeded(), Bot) == 60 by {
      SeededNumber(3, 60);
    }
    assert CooldownSeconds(Seeded(), Web) == 0 by {
      SeededNumber(10, 0);
    }
  }

  /** With the seeded settings the bot pays 1 FX, or 2 FX to premium users. */
  lemma SeededBotAmounts(premiumUntil: Option<int>, now: int)
    ensures MineAmount(Seeded(), Bot, premiumUntil, now) == if IsPremium(premiumUntil, now) then 2 else 1
  {
    SeededNumber(1, 1);
    SeededNumber(2, 2);
  }

  /** The `i`-th default is what seeding an empty table stores under its key. */
  lemma SeededValue(i: nat)
    requires i < |DefaultSettings|
    ensures DefaultSettings[i].0 in Seeded()
    ensures Seeded()[DefaultSettings[i].0] == DefaultSettings[i].1
  {
    DefaultKeysDistinct();
    SeedFillsAbsent(map[], DefaultSettings, i);
  }

  /** No key is seeded twice. */
  lemma DefaultKeysDistinct()
    ensures forall i, j :: 0 <= i < j < |DefaultSettings| ==> DefaultSettings[i].0 != DefaultSettings[j].0
  {
    forall i, j | 0 <= i < j < |DefaultSettings|
      ensures DefaultSettings[i].0 != DefaultSettings[j].0
    {
      var a, b := DefaultSettings[i].0, DefaultSettings[j].0;
      assert |a| != |b| || a[|a| - 1] != b[|b| - 1];
    }
  }

  /** Whole seconds since the last mining, `max(0, floor((now - last) / 1000))`. */
  function ElapsedSeconds(now: int, lastMineAt: int): (r: nat)
    ensures now >= lastMineAt ==> r * 1000 <= now - lastMineAt < (r + 1) * 1000
    ensures now < lastMineAt ==> r == 0
  {
    var d := (now - lastMineAt) / 1000;
    if d > 0 then d else 0
  }

  datatype MineOutcome =
    | UserNotFound
    | NotReady(remainingSeconds: int, cooldownSeconds: int)
    | Mined(amount: int, cooldownSeconds: int)

  /**
   * The decision `mineForUser` takes for a user row (or its absence): wait
   * for the rest of the cooldown, or mine the configured amount.
   */
  function MineDecision(user: Option<User>, settings: map<string, string>, source: Source, now: int): (r: MineOutcome)
    ensures r.UserNotFound? <==> user.None?
    ensures r.NotReady? ==> (r.remainingSeconds > 0
      && r.remainingSeconds + ElapsedSeconds(now, user.value.lastMineAt) == CooldownSeconds(settings, source))
    ensures r.Mined? ==> (ElapsedSeconds(now, user.value.lastMineAt) >= CooldownSeconds(settings, source)
      && r.amount == MineAmount(settings, source, user.value.premiumUntil, now))
  {
    if user.None? then UserNotFound
    else
      var cooldown := CooldownSeconds(settings, source);
      var elapsed := ElapsedSeconds(now, user.value.lastMineAt);
      if elapsed < cooldown then NotReady(cooldown - elapsed, cooldown)
      else Mined(MineAmount(settings, source, user.value.premiumUntil, now), cooldown)
  }

  /** Once the whole cooldown has passed since the last mining, mining succeeds. */
  lemma ReadyAfterCooldown(user: User, settings: map<string, string>, source: Source, now: int)
    requires now - user.lastMineAt >= 1000 * CooldownSeconds(settings, source)
    ensures MineDecision(Some(user), settings, source, now).Mined?
  {
    var e := ElapsedSeconds(now, user.lastMineAt);
    assert e >= CooldownSeconds(settings, source);
  }

  /** Right after a mining at `minedAt`, a second request within the cooldown is refused. */
  lemma BlockedWithinCooldown(user: User, settings: map<string, string>, source: Source, minedAt: int, now: int)
    requires minedAt <= now < minedAt + 1000 * CooldownSeconds(settings, source)
    ensures MineDecision(Some(user.(lastMineAt := minedAt)), settings, source, now).NotReady?
  {
    var e := ElapsedSeconds(now, minedAt);
    assert e * 1000 < 1000 * CooldownSeconds(settings, source);
  }

  /**
   * `secondsToHuman`: minutes and the remaining seconds, the minutes shown
   * only when there is at least one.
   */
  function SecondsToHuman(seconds: int): (r: string)
    ensures seconds <= 0 ==> r == "0s"
    ensures seconds > 0 ==> exists m: nat, s: nat :: HumanReading(r, m, s) && m * 60 + s == seconds
  {
    if seconds <= 0 then "0s"
    else
      var minutes: nat := seconds / 60;
      var rest: nat := seconds % 60;
      var r := if minutes > 0 then NatToString(minutes) + "m " + NatToString(rest) + "s" else NatToString(rest) + "s";
      assert HumanReading(r, minutes, rest);
      r
  }

  /** `text` shows `m` minutes and `s` seconds, with `s` under a minute and no `0m` part. */
  predicate HumanReading(text: string, m: nat, s: nat) {
    s < 60 && text == (if m > 0 then NatToString(m) + "m " else "") + NatToString(s) + "s"
  }

  /** `[first_name, last_name].filter(Boolean).join(" ")` */
  function FullName(firstName: Option<string>, lastName: Option<string>): (r: string)
    ensures r == [] <==> (firstName.None? || firstName.value == []) && (lastName.None? || lastName.value == [])
    ensures firstName.GetOr("") != [] && lastName.GetOr("") != [] ==>
      r == firstName.GetOr("") + " " + lastName.GetOr("")
    ensures firstName.GetOr("") == [] ==> r == lastName.GetOr("")
    ensures lastName.GetOr("") == [] ==> r == firstName.GetOr("")
  {
    var first := firstName.GetOr("");
    var last := lastName.GetOr("");
    if first != [] && last != [] then first + " " + last else first + last
  }

  /** A first name without spaces is recovered from the full name by splitting at the first space. */
  lemma FullNameSplits(first: string, last: string)
    requires first != [] && last != [] && ' ' !in first
    ensures var r := FullName(Some(first), Some(last));
      |r| > |first| && r[..|first|] == first && r[|first|] == ' ' && r[|first| + 1..] == last
      && forall i :: 0 <= i < |first| ==> r[i] != ' '
  {
    var r := FullName(Some(first), Some(last));
    assert r == first + " " + last;
    assert r[..|first|] == first;
    assert r[|first| + 1..] == last;
  }

  /** `displayName`: `@username`, else the full name, else `ID:<id>`; never empty. */
  function DisplayName(user: Option<User>): (r: string)
    ensures r != []
    ensures user.None? ==> r == "Noma'lum"
    ensures user.Some? && user.value.username.Some? && user.value.username.value != [] ==> r == "@" + user.value.username.value
    ensures (user.Some? && (user.value.username.None? || user.value.username.value == [])
      && FullName(user.value.firstName, user.value.lastName) == []) ==> r == "ID:" + IntToString(user.value.id)
    ensures (user.Some? && (user.value.username.None? || user.value.username.value == [])
      && FullName(user.value.firstName, user.value.lastName) != []) ==> r == FullName(user.value.firstName, user.value.lastName)
  {
    if user.None? then "Noma'lum"
    else
      var u := user.value;
      if u.username.Some? && u.username.value != [] then "@" + u.username.value
      else
        var name := FullName(u.firstName, u.lastName);
        if name != [] then name else "ID:" + IntToString(u.id)
  }

  /**
   * The freshness gates of `verifyInitData`. The HMAC comparison is the
   * parameter `signatureValid`; `hash` and `authDate` are the query
   * parameters as `URLSearchParams.get` returns them.
   */
  function VerifyInitData(initData: string, hash: Option<string>, authDate: Option<string>, nowMs: int,
                          signatureValid: bool): (r: bool)
    ensures r <==> && initData != [] && hash.Some? && hash.value != [] && signatureValid
                   && NumberOf(authDate.GetOr("")).Some? && NumberOf(authDate.GetOr("")).value != 0
                   && nowMs / 1000 - NumberOf(authDate.GetOr("")).value <= MaxAuthAgeSeconds
  {
    if initData == [] || hash.None? || hash.value == [] then false
    else
      match NumberOf(authDate.GetOr(""))
      case None => false
      case Some(a) =>
        if a == 0 then false
        else if nowMs / 1000 - a > MaxAuthAgeSeconds then false
        else signatureValid
  }

  /** A sign-in whose `auth_date` is more than a day old is refused, whatever its signature. */
  lemma StaleInitDataRejected(initData: string, hash: Option<string>, a: nat, nowMs: int, signatureValid: bool)
    requires a != 0 && nowMs / 1000 - a > MaxAuthAgeSeconds
    ensures !VerifyInitData(initData, hash, Some(NatToString(a)), nowMs, signatureValid)
  {
    NumeralReadsBack(a);
  }

  /**
   * There is no lower bound: a correctly signed `auth_date` from the future is
   * accepted. The data carries both parameters, which are also passed as
   * already parsed out of it.
   */
  lemma FutureInitDataAccepted(hash: string, a: nat, nowMs: int)
    requires hash != [] && a != 0 && a > nowMs / 1000
    ensures VerifyInitData("auth_date=" + NatToString(a) + "&hash=" + hash, Some(hash), Some(NatToString(a)), nowMs, true)
  {
    NumeralReadsBack(a);
  }

  /** The chat a message was forwarded from. */
  datatype Chat = Chat(kind: string, id: int)

  /**
   * The parts of a replied-to message that `extractMovieContentFromReply`
   * looks at; a missing message id is 0, a missing text is empty, and a
   * media part is the `file_id` it carries.
   */
  datatype Reply = Reply(
    forwardFromChat: Option<Chat>,
    forwardFromMessageId: int,
    video: Option<string>,
    photo: seq<string>,
    document: Option<string>,
    audio: Option<string>,
    text: string)

  datatype Content = Content(kind: string, value: string, channelId: Option<int>, channelMessageId: Option<int>)

  predicate IsChannelForward(r: Reply) {
    r.forwardFromChat.Some? && r.forwardFromChat.value.kind == "channel" && r.forwardFromMessageId != 0
  }

  /**
   * `extractMovieContentFromReply`: a channel post it was forwarded from, else
   * the video, the largest (last) photo, the document, the audio or the text,
   * in that order of preference.
   */
  function ExtractMovieContent(reply: Option<Reply>): (r: Option<Content>)
    ensures r.None? <==> (reply.None? || (!IsChannelForward(reply.value) && reply.value.video.None?
      && reply.value.photo == [] && reply.value.document.None? && reply.value.audio.None? && reply.value.text == []))
    ensures r.Some? && IsChannelForward(reply.value) ==>
      r.value == Content("channel", "channel", Some(reply.value.forwardFromChat.value.id), Some(reply.value.forwardFromMessageId))
    ensures r.Some? && !IsChannelForward(reply.value) ==> r.value.channelId.None? && r.value.channelMessageId.None?
    ensures (reply.Some? && !IsChannelForward(reply.value) && reply.value.video.Some?)
      ==> r == Some(Content("video", reply.value.video.value, None, None))
    ensures (reply.Some? && !IsChannelForward(reply.value) && reply.value.video.None? && reply.value.photo != [])
      ==> r == Some(Content("photo", reply.value.photo[|reply.value.photo| - 1], None, None))
    ensures (reply.Some? && !IsChannelForward(reply.value) && reply.value.video.None? && reply.value.photo == []
      && reply.value.document.Some?)
      ==> r == Some(Content("document", reply.value.document.value, None, None))
    ensures (reply.Some? && !IsChannelForward(reply.value) && reply.value.video.None? && reply.value.photo == []
      && reply.value.document.None? && reply.value.audio.Some?)
      ==> r == Some(Content("audio", reply.value.audio.value, None, None))
    ensures (reply.Some? && !IsChannelForward(reply.value) && reply.value.video.None? && reply.value.photo == []
      && reply.value.document.None? && reply.value.audio.None? && reply.value.text != [])
      ==> r == Some(Content("text", reply.value.text, None, None))
  {
    if reply.None? then None
    else
      var m := reply.value;
      if IsChannelForward(m) then
        Some(Content("channel", "channel", Some(m.forwardFromChat.value.id), Some(m.forwardFromMessageId)))
      else if m.video.Some? then Some(Content("video", m.video.value, None, None))
      else if m.photo != [] then Some(Content("photo", m.photo[|m.photo| - 1], None, None))
      else if m.document.Some? then Some(Content("document", m.document.value, None, None))
      else if m.audio.Some? then Some(Content("audio", m.audio.value, None, None))
      else if m.text != [] then Some(Content("text", m.text, None, None))
      else None
  }

  /** A forward from a channel wins over any media or text the message also carries. */
  lemma ChannelForwardWins(m: Reply)
    requires IsChannelForward(m)
    ensures ExtractMovieContent(Some(m)).Some? && ExtractMovieContent(Some(m)).value.kind == "channel"
  {
  }

  /**
   * The code argument of `/addmovie`: `None` asks for the next free numeric
   * code, which happens when the argument is missing or is `auto`/`next` in
   * any letter case.
   */
  function ExplicitMovieCode(rawCode: string): (r: Option<string>)
    ensures r.Some? ==> r.value == rawCode && rawCode != []
    ensures r.None? <==> rawCode == [] || Lower(rawCode) == "auto" || Lower(rawCode) == "next"
  {
    if rawCode == [] || Lower(rawCode) == "auto" || Lower(rawCode) == "next" then None else Some(rawCode)
  }

  /** `AUTO` and `Next` both ask for an automatic code. */
  lemma AutoCodeIgnoresCase()
    ensures ExplicitMovieCode("AUTO") == None
    ensures ExplicitMovieCode("Next") == None
  {
    assert Lower("AUTO") == "auto";
    assert Lower("Next") == "next";
  }

  /** `startWithdrawFlow`: withdrawals open only on the payout day (default 15) unless the user is an admin. */
  function WithdrawOpen(settings: map<string, string>, today: int, isAdmin: bool): (r: bool)
    ensures isAdmin ==> r
    ensures !isAdmin ==> (r <==> today == OrDefault(SettingNumberOf(settings, "payout_day"), 15))
  {
    today == OrDefault(SettingNumberOf(settings, "payout_day"), 15) || isAdmin
  }
}
