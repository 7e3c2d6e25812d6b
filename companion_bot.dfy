/**
 * The companion movie-index bot (src/bot.js): channel posts tagged with a
 * code are indexed, admins manage the index with `/stats`, `/del` and `/set`,
 * and a private message holding a code gets the indexed film copied back,
 * subject to a per-user rate limit of 5 lookups in a 30-second window.
 * Chat replies are the result values; the clock is the parameter `now`.
 */
module CompanionBot {
  import opened Wrappers
  import opened JsText
  import opened CodeParser
  import opened AdminCheck
  import opened MovieTable

  const RateLimitCount: int := 5
  const RateLimitWindowMs: int := 30 * 1000

  /** A user's entry in the `rateLimits` map: calls counted since the window opened, and its end. */
  datatype Window = Window(count: int, resetAt: int)

  /** Whether a call at `now` is refused, given the caller's entry before the call. */
  predicate Limited(entry: Option<Window>, now: int) {
    entry.Some? && now <= entry.value.resetAt && entry.value.count + 1 > RateLimitCount
  }

  /** The caller's entry after a call at `now`: a fresh window, or one more call in the open one. */
  function Admit(entry: Option<Window>, now: int): Window {
    if entry.None? || now > entry.value.resetAt then Window(1, now + RateLimitWindowMs)
    else entry.value.(count := entry.value.count + 1)
  }

  function Lookup(windows: map<Option<int>, Window>, userId: Option<int>): Option<Window> {
    if userId in windows then Some(windows[userId]) else None
  }

  /** Calls already counted in the caller's entry (none without one; a negative count counts as none). */
  function Counted(entry: Option<Window>): nat {
    if entry.Some? && entry.value.count > 0 then entry.value.count else 0
  }

  /**
   * The answers of `isRateLimited` to successive calls of one user at
   * `times`. Whatever the times, a call is let through while fewer than five
   * calls have been counted before it.
   */
  function Outcomes(entry: Option<Window>, times: seq<int>): (r: seq<bool>)
    ensures |r| == |times|
    ensures forall i :: 0 <= i < |r| && i + Counted(entry) < RateLimitCount ==> !r[i]
    decreases |times|
  {
    if times == [] then []
    else [Limited(entry, times[0])] + Outcomes(Some(Admit(entry, times[0])), times[1..])
  }

  /** How many of the answers let the call through. */
  function Accepted(outcomes: seq<bool>): (n: nat)
    ensures n <= |outcomes|
    ensures n == |outcomes| <==> forall i :: 0 <= i < |outcomes| ==> !outcomes[i]
  {
    if outcomes == [] then 0
    else (if outcomes[0] then 0 else 1) + Accepted(outcomes[1..])
  }

  /** A user without an entry gets the first five calls through, however close together. */
  lemma FirstFiveAccepted(times: seq<int>)
    requires |times| <= RateLimitCount
    ensures Accepted(Outcomes(None, times)) == |times|
  {
  }

  function Min(a: int, b: int): int {
    if a <= b then a else b
  }

  /**
   * Inside an open window that has already counted `w.count >= 1` calls, the
   * calls up to and including its end let through exactly as many as are left
   * of the five.
   */
  lemma {:induction false} OpenWindowAccepts(w: Window, times: seq<int>)
    requires w.count >= 1
    requires forall i :: 0 <= i < |times| ==> times[i] <= w.resetAt
    ensures Accepted(Outcomes(Some(w), times)) == if w.count >= RateLimitCount then 0 else Min(|times|, RateLimitCount - w.count)
    decreases |times|
  {
    if times != [] {
      var next := Admit(Some(w), times[0]);
      assert next == Window(w.count + 1, w.resetAt);
      OpenWindowAccepts(next, times[1..]);
    }
  }

  /**
   * Within one window, counted from the call that opens it and up to its end
   * (`now == resetAt` is still inside), at most five calls get through: of
   * `n` calls, exactly `min(n, 5)`.
   */
  lemma WindowAcceptsAtMostFive(entry: Option<Window>, times: seq<int>)
    requires times != [] && (entry.None? || times[0] > entry.value.resetAt)
    requires forall i :: 1 <= i < |times| ==> times[i] <= times[0] + RateLimitWindowMs
    ensures Accepted(Outcomes(entry, times)) == Min(|times|, RateLimitCount)
  {
    var w := Admit(entry, times[0]);
    assert w == Window(1, times[0] + RateLimitWindowMs);
    OpenWindowAccepts(w, times[1..]);
  }

  /** The per-user call counters of the bot (`rateLimits`). */
  class RateLimiter {
    var windows: map<Option<int>, Window>

    constructor ()
      ensures windows == map[]
    {
      windows := map[];
    }

    /**
     * `isRateLimited(userId)`: refuses the call when it is the sixth or later
     * in the caller's open window; only the caller's entry changes.
     */
    method IsRateLimited(userId: Option<int>, now: int) returns (limited: bool)
      modifies this
      ensures limited == Limited(Lookup(old(windows), userId), now)
      ensures windows == old(windows)[userId := Admit(Lookup(old(windows), userId), now)]
      ensures forall u :: u != userId ==> Lookup(windows, u) == Lookup(old(windows), u)
    {
      var entry := Lookup(windows, userId);
      if entry.None? || now > entry.value.resetAt {
        windows := windows[userId := Window(1, now + RateLimitWindowMs)];
        return false;
      }
      var w := entry.value.(count := entry.value.count + 1);
      windows := windows[userId := w];
      limited := w.count > RateLimitCount;
    }
  }

  /** `normalizeChannelId(CHANNEL_ID)`: empty when unset, otherwise the trimmed text. */
  function NormalizeChannelId(value: Option<string>): (r: string)
    ensures r == [] || (!IsSpace(r[0]) && !IsSpace(r[|r| - 1]))
    ensures value.None? ==> r == []
    ensures value.Some? ==> r == Trim(value.value)
  {
    match value
    case None => []
    case Some(s) => if s == [] then [] else Trim(s)
  }

  /** Normalising a normalised channel id changes nothing. */
  lemma NormalizeIsIdempotent(value: Option<string>)
    ensures NormalizeChannelId(Some(NormalizeChannelId(value))) == NormalizeChannelId(value)
  {
    TrimOfTrimmed(NormalizeChannelId(value));
  }

  /** A channel post: the chat's id (absent for a malformed update), caption, text and message id. */
  datatype ChannelPost = ChannelPost(chat: Option<int>, caption: Option<string>, text: Option<string>, messageId: int)

  predicate Truthy(s: Option<string>) {
    s.Some? && s.value != []
  }

  /** `msg.caption || msg.text || ""` */
  function PostText(post: ChannelPost): (r: string)
    ensures Truthy(post.caption) ==> r == post.caption.value
    ensures !Truthy(post.caption) && Truthy(post.text) ==> r == post.text.value
    ensures !Truthy(post.caption) && !Truthy(post.text) ==> r == []
  {
    if Truthy(post.caption) then post.caption.value
    else if Truthy(post.text) then post.text.value
    else []
  }

  /** The code a channel post gets indexed under, if any. */
  function PostCode(allowed: string, post: Option<ChannelPost>): (r: Option<nat>)
    ensures r.Some? ==> r.value > 0 && post.Some? && post.value.chat.Some?
    ensures r.Some? ==> allowed == [] || IntToString(post.value.chat.value) == allowed
    ensures r.Some? ==> ParseCode(PostText(post.value)) == r
    ensures (&& post.Some? && post.value.chat.Some?
             && (allowed == [] || IntToString(post.value.chat.value) == allowed)
             && ParseCode(PostText(post.value)).Some? && ParseCode(PostText(post.value)).value > 0) ==> r.Some?
  {
    if post.None? || post.value.chat.None? then None
    else if allowed != [] && IntToString(post.value.chat.value) != allowed then None
    else
      match ParseCode(PostText(post.value))
      case None => None
      case Some(n) => if n == 0 then None else Some(n)
  }

  /** A post captioned `KOD: n` in the allowed channel is indexed under `n`, for every `n > 0`. */
  lemma TaggedCaptionIsIndexed(allowed: string, id: int, n: nat, text: Option<string>, messageId: int)
    requires n > 0 && (allowed == [] || IntToString(id) == allowed)
    ensures PostCode(allowed, Some(ChannelPost(Some(id), Some("KOD: " + NatToString(n)), text, messageId))) == Some(n)
  {
    TaggedRoundTrip(n);
  }

  /** `handleChannelPost`: upserts `(code, chat id, message id)` when the post carries a code. */
  method HandleChannelPost(index: MovieIndex, allowed: string, post: Option<ChannelPost>, now: int)
    returns (indexed: Option<nat>)
    requires index.Valid()
    modifies index
    ensures index.Valid()
    ensures indexed == PostCode(allowed, post)
    ensures indexed.Some? ==>
      index.rows == old(index.rows)[indexed.value := MovieRow(indexed.value, post.value.chat.value, post.value.messageId, now)]
    ensures indexed.None? ==> index.rows == old(index.rows)
  {
    indexed := PostCode(allowed, post);
    if indexed.Some? {
      var _ := index.Upsert(indexed.value, post.value.chat.value, post.value.messageId, now);
    }
  }

  /** `/stats`: the number of indexed codes, for admins only. */
  method Stats(index: MovieIndex, senderId: Option<int>, adminIds: seq<string>) returns (count: Option<nat>)
    ensures count.None? <==> !IsAdmin(senderId, adminIds)
    ensures count.Some? ==> count.value == |index.rows|
  {
    if !IsAdmin(senderId, adminIds) {
      return None;
    }
    count := Some(index.CountAll());
  }

  datatype DelReply = DelDenied | Removed(code: nat) | NoSuchCode

  /** `/del <code>`: an admin removes a code; the reply says whether it was indexed. */
  method Del(index: MovieIndex, senderId: Option<int>, adminIds: seq<string>, code: nat) returns (reply: DelReply)
    requires index.Valid()
    modifies index
    ensures index.Valid()
    ensures reply == DelDenied <==> !IsAdmin(senderId, adminIds)
    ensures reply == DelDenied ==> index.rows == old(index.rows)
    ensures reply != DelDenied ==> index.rows == old(index.rows) - {code}
    ensures reply == Removed(code) <==> IsAdmin(senderId, adminIds) && code in old(index.rows)
  {
    if !IsAdmin(senderId, adminIds) {
      return DelDenied;
    }
    var removed := index.RemoveByCode(code);
    reply := if removed != 0 then Removed(code) else NoSuchCode;
  }

  datatype SetReply = SetDenied | NoChannel | Bound(code: nat, messageId: nat) | SetFailed

  /**
   * `/set <code> <message id>`: an admin points a code at a message of the
   * configured channel. The channel id text is cast to the BIGINT column; a
   * text that is not an integer makes the insert fail and nothing is written.
   */
  method Set(index: MovieIndex, senderId: Option<int>, adminIds: seq<string>, allowed: string,
             code: nat, messageId: nat, now: int) returns (reply: SetReply)
    requires index.Valid()
    modifies index
    ensures index.Valid()
    ensures reply == SetDenied <==> !IsAdmin(senderId, adminIds)
    ensures reply == NoChannel <==> IsAdmin(senderId, adminIds) && allowed == []
    ensures reply.Bound? <==> IsAdmin(senderId, adminIds) && allowed != [] && NumberOf(allowed).Some?
    ensures reply.Bound? ==> (reply == Bound(code, messageId)
      && index.rows == old(index.rows)[code := MovieRow(code, NumberOf(allowed).value, messageId, now)])
    ensures !reply.Bound? ==> index.rows == old(index.rows)
  {
    if !IsAdmin(senderId, adminIds) {
      return SetDenied;
    }
    if allowed == [] {
      return NoChannel;
    }
    var channel := NumberOf(allowed);
    if channel.None? {
      return SetFailed;
    }
    var _ := index.Upsert(code, channel.value, messageId, now);
    reply := Bound(code, messageId);
  }

  /** A chat message: its text, the type of its chat (when the update has a chat) and its sender. */
  datatype ChatMessage = ChatMessage(text: Option<string>, chatType: Option<string>, senderId: Option<int>)

  /**
   * The code a message asks for, after the guards that come before the rate
   * limiter: a text is present, is not a command, comes from a private chat
   * (or an update without a chat) and holds a non-zero code.
   */
  function MessageCode(msg: ChatMessage): (r: Option<nat>)
    ensures r.Some? ==> r.value > 0 && Truthy(msg.text) && ParseCode(msg.text.value) == r
    ensures r.Some? ==> msg.text.value[0] != '/'
    ensures r.Some? ==> msg.chatType.None? || msg.chatType.value == "private"
  {
    if !Truthy(msg.text) || msg.text.value[0] == '/' then None
    else if msg.chatType.Some? && msg.chatType.value != "private" then None
    else
      match ParseCode(msg.text.value)
      case None => None
      case Some(n) => if n == 0 then None else Some(n)
  }

  /** A bare numeral sent in a private chat asks for that code, for every `n > 0`. */
  lemma PrivateNumeralAsksForCode(n: nat, senderId: Option<int>)
    requires n > 0
    ensures MessageCode(ChatMessage(Some(NatToString(n)), Some("private"), senderId)) == Some(n)
  {
    var s := NatToString(n);
    assert IsDigit(s[0]);
    NumeralRoundTrip(n);
  }

  datatype MessageReply = Ignored | RateLimited | NotFound | CopyOf(row: MovieRow)

  /**
   * The message handler: the guards of `MessageCode` come first, so commands,
   * group chats and texts without a code never touch the rate limiter; admins
   * skip it; everyone else is counted and may be refused; then the code is
   * looked up and the indexed message is copied back.
   */
  method HandleMessage(index: MovieIndex, limiter: RateLimiter, adminIds: seq<string>, msg: ChatMessage, now: int)
    returns (reply: MessageReply)
    requires index.Valid()
    modifies limiter
    ensures reply == Ignored <==> MessageCode(msg).None?
    ensures limiter.windows ==
      if MessageCode(msg).Some? && !IsAdmin(msg.senderId, adminIds)
      then old(limiter.windows)[msg.senderId := Admit(Lookup(old(limiter.windows), msg.senderId), now)]
      else old(limiter.windows)
    ensures reply == RateLimited <==>
      MessageCode(msg).Some? && !IsAdmin(msg.senderId, adminIds) && Limited(Lookup(old(limiter.windows), msg.senderId), now)
    ensures reply == NotFound ==> index.FindByCode(MessageCode(msg).value) == None
    ensures reply.CopyOf? ==> index.FindByCode(MessageCode(msg).value) == Some(reply.row)
    ensures MessageCode(msg).Some? && !(reply == RateLimited) ==> reply == NotFound || reply.CopyOf?
  {
    var code := MessageCode(msg);
    if code.None? {
      return Ignored;
    }
    if !IsAdmin(msg.senderId, adminIds) {
      var limited := limiter.IsRateLimited(msg.senderId, now);
      if limited {
        return RateLimited;
      }
    }
    var movie := index.FindByCode(code.value);
    if movie.None? {
      return NotFound;
    }
    reply := CopyOf(movie.value);
  }
}
