/**
 * Who counts as an administrator. `ADMIN_IDS` is a list of strings, and a
 * Telegram user id is a number: both bots compare `String(userId)` with the
 * entries exactly, without trimming or any other normalisation. The companion
 * bot first rejects a falsy id (no sender, or the id 0); the FX bot does not.
 */
module AdminCheck {
  import opened Wrappers
  import opened JsText

  /**
   * `isAdmin(userId, adminIds)` of the companion bot. `None` stands for a
   * message without a sender (`msg.from && msg.from.id` is `undefined`).
   */
  function IsAdmin(userId: Option<int>, adminIds: seq<string>): (r: bool)
    ensures r ==> userId.Some? && userId.value != 0
    ensures r ==> IntToString(userId.value) in adminIds
  {
    match userId
    case None => false
    case Some(id) => id != 0 && IntToString(id) in adminIds
  }

  /**
   * `isAdmin(userId)` of the FX bot: the same membership test with no falsy
   * guard, so it differs from the companion bot's check on the id 0 alone.
   */
  predicate IndexIsAdmin(userId: int, adminIds: seq<string>): (r: bool)
    ensures r <==> IsAdmin(Some(userId), adminIds) || (userId == 0 && "0" in adminIds)
  {
    assert IntToString(0) == "0" by { assert IntToString(0) == NatToString(0) == ['0']; }
    IntToString(userId) in adminIds
  }

  /** A listed id is recognised. */
  lemma ListedIdIsAdmin(id: int, adminIds: seq<string>)
    requires id != 0 && IntToString(id) in adminIds
    ensures IsAdmin(Some(id), adminIds)
  {
  }

  /** The two checks agree on every id except 0, which only the FX bot can accept. */
  lemma ChecksAgreeOnNonZeroIds(id: int, adminIds: seq<string>)
    ensures id != 0 ==> (IsAdmin(Some(id), adminIds) <==> IndexIsAdmin(id, adminIds))
    ensures !IsAdmin(Some(0), adminIds)
    ensures IndexIsAdmin(0, adminIds) <==> "0" in adminIds
  {
    assert IntToString(0) == NatToString(0) == ['0'];
  }

  /** The comparison is exact: an entry names exactly one id, the number it spells. */
  lemma EntryNamesOneId(id: int, other: int)
    ensures IsAdmin(Some(id), [IntToString(other)]) <==> id != 0 && id == other
  {
    if IntToString(id) == IntToString(other) {
      NumeralReadsBack(id);
      NumeralReadsBack(other);
    }
  }

  /** An entry with white space at its start never matches, since no numeral starts with white space. */
  lemma PaddedEntryNeverMatches(userId: Option<int>, entry: string)
    requires entry != [] && IsSpace(entry[0])
    ensures !IsAdmin(userId, [entry])
  {
    if userId.Some? {
      var s := IntToString(userId.value);
      if userId.value >= 0 {
        assert IsDigit(s[0]);
      } else {
        assert s[0] == '-';
      }
    }
  }

  /** Adding entries to the list never takes the status away. */
  lemma MoreEntriesKeepAdmin(userId: Option<int>, adminIds: seq<string>, more: seq<string>)
    requires forall e :: e in adminIds ==> e in more
    ensures IsAdmin(userId, adminIds) ==> IsAdmin(userId, more)
  {
  }
}
