/**
 * The PostgreSQL store of the FX bot (db.js) as in-memory tables. Every SQL
 * statement becomes an operation on a map keyed by the table's primary key or
 * on an append-only sequence whose position gives the BIGSERIAL id. The
 * clock (`Date.now()`) is the parameter `now`, in milliseconds.
 */
module Db {
  import opened Wrappers
  import opened JsText

  /** A row of `users`. Nullable columns are `Option`s. */
  datatype User = User(
    id: int,
    username: Option<string>,
    firstName: Option<string>,
    lastName: Option<string>,
    createdAt: int,
    fxBalance: int,
    premiumUntil: Option<int>,
    referralCode: string,
    referredBy: Option<int>,
    referralsCount: int,
    referralFx: int,
    lastMineAt: int,
    totalMined: int,
    isBanned: bool)

  /** A value inside the JSON payload of a conversation state. */
  datatype Field = Num(n: int) | Text(s: string)

  /** The object a handler stores with its state; `JSON.stringify`/`JSON.parse` give it back unchanged. */
  type Payload = map<string, Field>

  /** A row of `user_states`. */
  datatype StateRow = StateRow(name: string, data: Option<Payload>, updatedAt: int)

  /** What `getUserState` hands back: `{state, data}`. */
  datatype StoredState = StoredState(name: string, data: Option<Payload>)

  /** The request statuses the bot writes. */
  datatype Status = Pending | Approved | Denied

  datatype WithdrawRequest = WithdrawRequest(
    id: nat, userId: int, amount: int, cardType: string, cardNumber: string,
    status: Status, createdAt: int, updatedAt: int)

  datatype UcRequest = UcRequest(
    id: nat, userId: int, ucAmount: int, fxCost: int,
    status: Status, createdAt: int, updatedAt: int)

  /** A row of `movie_codes` without its key. */
  datatype MovieCode = MovieCode(
    contentType: string, contentValue: string, channelId: Option<int>,
    channelMessageId: Option<int>, createdAt: int, addedBy: Option<int>)

  datatype DropRecord = DropRecord(id: nat, month: int, year: int, processedAt: int, notes: Option<string>)

  /** A JavaScript value as the handlers pass it to a query: a number or a string. */
  datatype JsValue = JsNum(n: int) | JsStr(s: string)

  /** `BIGINT` columns hold signed 64-bit integers. */
  const MaxBigInt: int := 0x7FFF_FFFF_FFFF_FFFF

  /** The settings `initDb` seeds, each value written as `String(value)`. */
  const DefaultSettings: seq<(string, string)> := [
    ("referral_bonus", "100"),
    ("mine_amount", "1"),
    ("premium_mine_amount", "2"),
    ("mine_cooldown_seconds", "60"),
    ("payout_day", "15"),
    ("premium_cost", "1000"),
    ("premium_days", "30"),
    ("drop_bonus_fx", "500"),
    ("drop_premium_days", "7"),
    ("uc_fx_rate", "1"),
    ("web_mine_cooldown_seconds", "0")
  ]

  /**
   * `getSettingNumber` over the table `settings`: `None` when the key is absent
   * or the text is not a number; the empty text reads as 0.
   */
  function SettingNumberOf(settings: map<string, string>, key: string): (r: Option<int>)
    ensures key !in settings ==> r == None
    ensures key in settings && Trim(settings[key]) == [] ==> r == Some(0)
  {
    if key in settings then NumberOf(settings[key]) else None
  }

  /** `setSetting` followed by `getSettingNumber` reads back the number written. */
  lemma SettingRoundTrip(settings: map<string, string>, key: string, n: int)
    ensures SettingNumberOf(settings[key := IntToString(n)], key) == Some(n)
  {
    NumeralReadsBack(n);
  }

  /**
   * What PostgreSQL makes of a value bound to a `BIGINT` parameter: a number in
   * range, or a text holding an optionally signed decimal numeral in range;
   * anything else makes the statement fail (`None`).
   */
  function BigIntInput(v: JsValue): (r: Option<int>)
    ensures r.Some? ==> -MaxBigInt - 1 <= r.value <= MaxBigInt
  {
    var n := match v
      case JsNum(x) => Some(x)
      case JsStr(s) =>
        var u := Unsigned(s);
        if u != [] && AllDigits(u) then Some(SignOf(s) * DigitsValue(u)) else None;
    if n.Some? && -MaxBigInt - 1 <= n.value <= MaxBigInt then n else None
  }

  /** `x || null` on an optional text: the empty string is stored as NULL. */
  function TextOrNull(s: Option<string>): (r: Option<string>)
    ensures r.Some? <==> s.Some? && s.value != []
    ensures r.Some? ==> r == s
  {
    if s.Some? && s.value != [] then s else None
  }

  /** `x || null` on an optional number: zero is stored as NULL. */
  function NumberOrNull(x: Option<int>): (r: Option<int>)
    ensures r.Some? <==> x.Some? && x.value != 0
    ensures r.Some? ==> r == x
  {
    if x.Some? && x.value != 0 then x else None
  }

  /** A row inserted by `createUser`: the given identity and the column defaults. */
  function NewUser(id: int, username: Option<string>, firstName: Option<string>, lastName: Option<string>,
                   referralCode: string, now: int): User
  {
    User(id, TextOrNull(username), TextOrNull(firstName), TextOrNull(lastName), now, 0, None,
         referralCode, None, 0, 0, 0, 0, false)
  }

  /** `setUserReferredBy` on the users table: that row's `referred_by` is set; a missing row is left alone. */
  function LinkReferral(users: map<int, User>, userId: int, referrerId: int): (r: map<int, User>)
    ensures r.Keys == users.Keys
    ensures userId in users ==> r[userId] == users[userId].(referredBy := Some(referrerId))
    ensures forall k :: k in users && k != userId ==> r[k] == users[k]
  {
    if userId in users then users[userId := users[userId].(referredBy := Some(referrerId))] else users
  }

  /**
   * `incrementReferralStats` on the users table: the referrer's balance and
   * referral earnings grow by `bonus` and its count by one; a missing row is left alone.
   */
  function AddReferralStats(users: map<int, User>, referrerId: int, bonus: int): (r: map<int, User>)
    ensures r.Keys == users.Keys
    ensures referrerId in users ==>
      && r[referrerId].fxBalance == users[referrerId].fxBalance + bonus
      && r[referrerId].referralFx == users[referrerId].referralFx + bonus
      && r[referrerId].referralsCount == users[referrerId].referralsCount + 1
      && r[referrerId] == users[referrerId].(fxBalance := r[referrerId].fxBalance,
                                             referralFx := r[referrerId].referralFx,
                                             referralsCount := r[referrerId].referralsCount)
    ensures forall k :: k in users && k != referrerId ==> r[k] == users[k]
  {
    if referrerId in users then
      var u := users[referrerId];
      users[referrerId := u.(fxBalance := u.fxBalance + bonus, referralsCount := u.referralsCount + 1,
                             referralFx := u.referralFx + bonus)]
    else users
  }

  /** `INSERT … ON CONFLICT (key) DO NOTHING` for each entry in turn. */
  function SeedInto(settings: map<string, string>, entries: seq<(string, string)>): map<string, string>
    decreases |entries|
  {
    if entries == [] then settings
    else
      var (k, v) := entries[0];
      SeedInto(if k in settings then settings else settings[k := v], entries[1..])
  }

  /** Seeding never overwrites a setting that is already present. */
  lemma {:induction false} SeedKeepsExisting(settings: map<string, string>, entries: seq<(string, string)>, k: string)
    requires k in settings
    ensures k in SeedInto(settings, entries) && SeedInto(settings, entries)[k] == settings[k]
    decreases |entries|
  {
    if entries != [] {
      var (k0, v0) := entries[0];
      SeedKeepsExisting(if k0 in settings then settings else settings[k0 := v0], entries[1..], k);
    }
  }

  /** After seeding, exactly the old keys and the seeded keys are present. */
  lemma {:induction false} SeedKeys(settings: map<string, string>, entries: seq<(string, string)>)
    ensures SeedInto(settings, entries).Keys == settings.Keys + set i | 0 <= i < |entries| :: entries[i].0
    decreases |entries|
  {
    if entries != [] {
      var (k0, v0) := entries[0];
      var next := if k0 in settings then settings else settings[k0 := v0];
      SeedKeys(next, entries[1..]);
      var rest := set i | 0 <= i < |entries[1..]| :: entries[1..][i].0;
      var all := set i | 0 <= i < |entries| :: entries[i].0;
      assert all == {k0} + rest by {
        forall x | x in all ensures x in {k0} + rest {
          var i :| 0 <= i < |entries| && entries[i].0 == x;
          if i > 0 { assert entries[1..][i - 1].0 == x; }
        }
        forall x | x in rest ensures x in all {
          var i :| 0 <= i < |entries[1..]| && entries[1..][i].0 == x;
          assert entries[i + 1].0 == x;
        }
      }
    }
  }

  /** A setting that was absent takes the value of the first entry for its key. */
  lemma {:induction false} SeedFillsAbsent(settings: map<string, string>, entries: seq<(string, string)>, i: nat)
    requires i < |entries| && entries[i].0 !in settings
    requires forall j :: 0 <= j < i ==> entries[j].0 != entries[i].0
    ensures entries[i].0 in SeedInto(settings, entries)
    ensures SeedInto(settings, entries)[entries[i].0] == entries[i].1
    decreases |entries|
  {
    var (k0, v0) := entries[0];
    var next := if k0 in settings then settings else settings[k0 := v0];
    if i == 0 {
      SeedKeepsExisting(next, entries[1..], k0);
    } else {
      assert entries[1..][i - 1] == entries[i];
      SeedFillsAbsent(next, entries[1..], i - 1);
    }
  }

  /** Users ordered as `ORDER BY fx_balance DESC, id ASC`: `u` comes strictly before `v`. */
  predicate Before(u: User, v: User) {
    u.fxBalance > v.fxBalance || (u.fxBalance == v.fxBalance && u.id < v.id)
  }

  function Ids(us: seq<User>): set<int> {
    set i | 0 <= i < |us| :: us[i].id
  }

  /**
   * `top` is what `SELECT … ORDER BY fx_balance DESC, id ASC LIMIT limit`
   * returns from the table `users`: rows of the table, in order, as many as the
   * limit allows, and every row left out comes after every row returned.
   */
  ghost predicate IsTopList(users: map<int, User>, limit: nat, top: seq<User>) {
    && |top| == (if limit < |users| then limit else |users|)
    && (forall i :: 0 <= i < |top| ==> top[i].id in users && users[top[i].id] == top[i])
    && (forall i, j :: 0 <= i < j < |top| ==> Before(top[i], top[j]))
    && (forall id, i :: id in users && id !in Ids(top) && 0 <= i < |top| ==> Before(top[i], users[id]))
  }

  /**
   * The state of the selection behind `getTopUsers`: `top` holds rows of the
   * table in order, `rest` holds the ids not yet selected, and each of them
   * comes after every selected row.
   */
  ghost predicate SelectedSoFar(users: map<int, User>, top: seq<User>, rest: set<int>) {
    && rest == users.Keys - Ids(top)
    && |top| + |rest| == |users|
    && (forall i :: 0 <= i < |top| ==> top[i].id in users && users[top[i].id] == top[i])
    && (forall i, j :: 0 <= i < j < |top| ==> Before(top[i], top[j]))
    && (forall id, i :: id in rest && 0 <= i < |top| ==> Before(top[i], users[id]))
  }

  /** Selecting the first remaining row in order keeps the selection state. */
  lemma SelectNext(users: map<int, User>, top: seq<User>, rest: set<int>, best: int)
    requires SelectedSoFar(users, top, rest)
    requires best in rest && users[best].id == best
    requires forall id :: id in rest && id != best ==> Before(users[best], users[id])
    ensures SelectedSoFar(users, top + [users[best]], rest - {best})
  {
    IdsAppend(top, users[best]);
    AppendInOrder(top, users[best]);
    AppendStaysAhead(users, top, rest, best);
  }

  /** A row that comes after every selected row can be appended without breaking the order. */
  lemma AppendInOrder(top: seq<User>, u: User)
    requires forall i, j :: 0 <= i < j < |top| ==> Before(top[i], top[j])
    requires forall i :: 0 <= i < |top| ==> Before(top[i], u)
    ensures forall i, j :: 0 <= i < j < |top + [u]| ==> Before((top + [u])[i], (top + [u])[j])
  {
    var top' := top + [u];
    forall i, j | 0 <= i < j < |top'| ensures Before(top'[i], top'[j]) {
      if j == |top| {
        assert top'[j] == u;
      } else {
        assert top'[i] == top[i] && top'[j] == top[j];
      }
    }
  }

  /** After taking the first remaining row, the rows still left come after every selected row. */
  lemma AppendStaysAhead(users: map<int, User>, top: seq<User>, rest: set<int>, best: int)
    requires rest <= users.Keys && best in rest
    requires forall id, i :: id in rest && 0 <= i < |top| ==> Before(top[i], users[id])
    requires forall id :: id in rest && id != best ==> Before(users[best], users[id])
    ensures forall id, i :: id in rest - {best} && 0 <= i < |top + [users[best]]| ==>
      Before((top + [users[best]])[i], users[id])
  {
    var top' := top + [users[best]];
    forall id, i | id in rest - {best} && 0 <= i < |top'| ensures Before(top'[i], users[id]) {
      if i == |top| {
        assert top'[i] == users[best];
      } else {
        assert top'[i] == top[i];
      }
    }
  }

  /** A selection that reached the limit or ran out of rows is the leaderboard. */
  lemma SelectionDone(users: map<int, User>, limit: nat, top: seq<User>, rest: set<int>)
    requires SelectedSoFar(users, top, rest)
    requires |top| <= limit && (|top| == limit || rest == {})
    ensures IsTopList(users, limit, top)
  {
  }

  /** The number of users whose balance is strictly greater than `balance`. */
  function RicherCount(users: map<int, User>, balance: int): nat {
    |set id | id in users && users[id].fxBalance > balance|
  }

  lemma IdsAppend(us: seq<User>, u: User)
    ensures Ids(us + [u]) == Ids(us) + {u.id}
  {
    forall x | x in Ids(us + [u]) ensures x in Ids(us) + {u.id} {
      var i :| 0 <= i < |us| + 1 && (us + [u])[i].id == x;
      if i < |us| { assert us[i].id == x; }
    }
    forall x | x in Ids(us) ensures x in Ids(us + [u]) {
      var i :| 0 <= i < |us| && us[i].id == x;
      assert (us + [u])[i].id == x;
    }
    assert (us + [u])[|us|].id == u.id;
  }

  /** Nobody is richer exactly when every balance is at most `balance`. */
  lemma NobodyRicher(users: map<int, User>, balance: int)
    ensures RicherCount(users, balance) == 0 <==> forall id :: id in users ==> users[id].fxBalance <= balance
  {
    var richer := set id | id in users && users[id].fxBalance > balance;
    if exists id :: id in users && users[id].fxBalance > balance {
      var id :| id in users && users[id].fxBalance > balance;
      assert id in richer;
    } else {
      assert richer == {};
    }
  }

  /** Some element of a non-empty set. */
  method Choose<T>(s: set<T>) returns (x: T)
    requires s != {}
    ensures x in s
  {
    x :| x in s;
  }

  /** A finite set of integers drawn from the ids of the first `n` rows has at most `n` elements. */
  lemma {:induction false} IdsOfPrefixBound(us: seq<User>, n: nat)
    requires n <= |us|
    ensures |Ids(us[..n])| <= n
  {
    if n > 0 {
      IdsOfPrefixBound(us, n - 1);
      assert Ids(us[..n]) == Ids(us[..n - 1]) + {us[n - 1].id} by {
        forall x | x in Ids(us[..n]) ensures x in Ids(us[..n - 1]) + {us[n - 1].id} {
          var i :| 0 <= i < n && us[..n][i].id == x;
          if i < n - 1 { assert us[..n - 1][i].id == x; }
        }
        forall x | x in Ids(us[..n - 1]) ensures x in Ids(us[..n]) {
          var i :| 0 <= i < n - 1 && us[..n - 1][i].id == x;
          assert us[..n][i].id == x;
        }
      }
    }
  }

  /**
   * The rank `getUserRankByBalance` reports for the balance of the `i`-th row of
   * the leaderboard is at most `i + 1`: only rows above it can be richer.
   */
  lemma TopListRank(users: map<int, User>, limit: nat, top: seq<User>, i: nat)
    requires IsTopList(users, limit, top) && i < |top|
    ensures 1 + RicherCount(users, top[i].fxBalance) <= i + 1
  {
    var richer := set id | id in users && users[id].fxBalance > top[i].fxBalance;
    assert richer <= Ids(top[..i]) by {
      forall id | id in richer ensures id in Ids(top[..i]) {
        if id in Ids(top) {
          var j :| 0 <= j < |top| && top[j].id == id;
          if j < i {
            assert top[..i][j].id == id;
          } else {
            assert false;
          }
        } else {
          assert false;
        }
      }
    }
    IdsOfPrefixBound(top, i);
    SubsetCard(richer, Ids(top[..i]));
  }

  lemma SubsetCard(a: set<int>, b: set<int>)
    requires a <= b
    ensures |a| <= |b|
  {
    assert b == a + (b - a);
  }

  /** The first row of a non-empty leaderboard holds rank 1. */
  lemma TopListHeadRankOne(users: map<int, User>, limit: nat, top: seq<User>)
    requires IsTopList(users, limit, top) && |top| > 0
    ensures RicherCount(users, top[0].fxBalance) == 0
  {
    TopListRank(users, limit, top, 0);
  }

  /** `getUserState` over the table `user_states`. */
  function StateOf(states: map<int, StateRow>, userId: int): (r: Option<StoredState>)
    ensures r.None? <==> userId !in states
    ensures r.Some? ==> r.value.name == states[userId].name && r.value.data == states[userId].data
  {
    if userId in states then Some(StoredState(states[userId].name, states[userId].data)) else None
  }

  /** Round trip: after `setUserState(u, s, d)` the state of `u` reads back as `{s, d}`, whatever it was. */
  lemma StateRoundTrip(states: map<int, StateRow>, userId: int, name: string, data: Option<Payload>, now: int)
    ensures StateOf(states[userId := StateRow(name, data, now)], userId) == Some(StoredState(name, data))
  {
  }

  /** After `clearUserState(u)`, `u` has no state and every other user's state is as before. */
  lemma ClearedStateIsGone(states: map<int, StateRow>, userId: int, other: int)
    ensures StateOf(states - {userId}, userId) == None
    ensures other != userId ==> StateOf(states - {userId}, other) == StateOf(states, other)
  {
  }

  /** A code the regular expression `^[0-9]+$` accepts. */
  predicate IsNumericCode(code: string) {
    code != [] && AllDigits(code)
  }

  /**
   * `m` is `COALESCE(MAX(CAST(code AS BIGINT)), 0)` over the numeric codes
   * among `codes`: no numeric code is worth more, and unless `m` is 0 one is
   * worth exactly `m`.
   */
  ghost predicate IsMaxCode(codes: set<string>, m: nat) {
    && (forall c :: c in codes && IsNumericCode(c) ==> DigitsValue(c) <= m)
    && (m == 0 || exists c :: c in codes && IsNumericCode(c) && DigitsValue(c) == m)
  }

  /** The code one past the largest numeric code is not in use. */
  lemma NextCodeIsFresh(codes: set<string>, m: nat)
    requires IsMaxCode(codes, m)
    ensures NatToString(m + 1) !in codes
  {
    assert IsNumericCode(NatToString(m + 1));
  }

  /** Every row of `users` sits under its own id. */
  predicate KeyedById(users: map<int, User>) {
    forall id :: id in users ==> users[id].id == id
  }

  /** The referral code of the row `id`. */
  function CodeOf(users: map<int, User>, id: int): string
    requires id in users
  {
    users[id].referralCode
  }

  /** The `UNIQUE` constraint on `users.referral_code`. */
  predicate CodesUnique(users: map<int, User>) {
    forall a, b :: a in users && b in users && CodeOf(users, a) == CodeOf(users, b) ==> a == b
  }

  /** Rewriting a row without touching its code keeps the codes unique. */
  lemma UpdateKeepsCodesUnique(users: map<int, User>, id: int, u: User)
    requires CodesUnique(users) && id in users && u.referralCode == users[id].referralCode
    ensures CodesUnique(users[id := u])
  {
    var m := users[id := u];
    forall a, b | a in m && b in m && CodeOf(m, a) == CodeOf(m, b)
      ensures a == b
    {
      assert CodeOf(m, a) == CodeOf(users, a) && CodeOf(m, b) == CodeOf(users, b);
    }
  }

  /** Inserting a row whose code no row holds keeps the codes unique. */
  lemma InsertKeepsCodesUnique(users: map<int, User>, u: User)
    requires CodesUnique(users) && u.id !in users
    requires forall k :: k in users ==> users[k].referralCode != u.referralCode
    ensures CodesUnique(users[u.id := u])
  {
    var m := users[u.id := u];
    forall a, b | a in m && b in m && CodeOf(m, a) == CodeOf(m, b)
      ensures a == b
    {
      if a != u.id && b != u.id {
        assert CodeOf(m, a) == CodeOf(users, a) && CodeOf(m, b) == CodeOf(users, b);
      }
    }
  }

  class Store {
    var settings: map<string, string>
    var users: map<int, User>
    var states: map<int, StateRow>
    var withdrawals: seq<WithdrawRequest>
    var ucRequests: seq<UcRequest>
    var movieCodes: map<string, MovieCode>
    var drops: seq<DropRecord>

    /**
     * The table constraints: `users` is keyed by id and `referral_code` is
     * UNIQUE; the BIGSERIAL ids of the append-only tables count from 1.
     */
    ghost predicate Valid()
      reads this
    {
      && KeyedById(users)
      && CodesUnique(users)
      && (forall i :: 0 <= i < |withdrawals| ==> withdrawals[i].id == i + 1)
      && (forall i :: 0 <= i < |ucRequests| ==> ucRequests[i].id == i + 1)
      && (forall i :: 0 <= i < |drops| ==> drops[i].id == i + 1)
    }

    /** The tables `CREATE TABLE` leaves behind: all empty. */
    constructor ()
      ensures Valid()
      ensures settings == map[] && users == map[] && states == map[] && movieCodes == map[]
      ensures withdrawals == [] && ucRequests == [] && drops == []
    {
      settings := map[];
      users := map[];
      states := map[];
      withdrawals := [];
      ucRequests := [];
      movieCodes := map[];
      drops := [];
    }

    /** The seeding loop of `initDb`: each default is inserted unless its key exists. */
    method Seed()
      modifies this`settings
      ensures settings == SeedInto(old(settings), DefaultSettings)
    {
      InsertMissing(DefaultSettings);
    }

    /** The loop of `initDb`: each entry is inserted unless its key is already present. */
    method InsertMissing(entries: seq<(string, string)>)
      modifies this`settings
      ensures settings == SeedInto(old(settings), entries)
    {
      for i := 0 to |entries|
        invariant SeedInto(settings, entries[i..]) == SeedInto(old(settings), entries)
      {
        var (k, v) := entries[i];
        assert entries[i..][1..] == entries[i + 1..];
        if k !in settings {
          settings := settings[k := v];
        }
      }
      assert entries[|entries|..] == [];
    }

    /** `getSetting`: the stored text, or `None` for NULL. */
    function Setting(key: string): (r: Option<string>)
      reads this
      ensures r.Some? <==> key in settings
      ensures r.Some? ==> r.value == settings[key]
    {
      if key in settings then Some(settings[key]) else None
    }

    /** `setSetting`: insert or overwrite one key. */
    method SetSetting(key: string, value: string)
      modifies this`settings
      ensures settings == old(settings)[key := value]
    {
      settings := settings[key := value];
    }

    function UserById(id: int): (r: Option<User>)
      reads this
      ensures r.Some? <==> id in users
      ensures r.Some? ==> r.value == users[id]
    {
      if id in users then Some(users[id]) else None
    }

    /** `getUserByReferralCode`: the user holding `code`, if any. */
    method UserByReferralCode(code: string) returns (r: Option<User>)
      requires Valid()
      ensures r.Some? ==> r.value.id in users && users[r.value.id] == r.value && r.value.referralCode == code
      ensures r.None? <==> forall id :: id in users ==> users[id].referralCode != code
    {
      r := None;
      var todo := users.Keys;
      while todo != {}
        invariant todo <= users.Keys
        invariant r.Some? ==> r.value.id in users && users[r.value.id] == r.value && r.value.referralCode == code
        invariant r.None? ==> forall id :: id in users && id !in todo ==> users[id].referralCode != code
        decreases |todo|
      {
        var id := Choose(todo);
        if r.None? && users[id].referralCode == code {
          r := Some(users[id]);
        }
        todo := todo - {id};
      }
    }

    /**
     * `createUser`: inserts the row with its defaults; the insert fails, and
     * nothing changes, when the id or the referral code is already taken.
     */
    method CreateUser(id: int, username: Option<string>, firstName: Option<string>, lastName: Option<string>,
                      referralCode: string, now: int) returns (ok: bool)
      requires Valid()
      modifies this`users
      ensures Valid()
      ensures ok <==> id !in old(users) && forall k :: k in old(users) ==> old(users)[k].referralCode != referralCode
      ensures users == if ok then old(users)[id := NewUser(id, username, firstName, lastName, referralCode, now)] else old(users)
    {
      var holder := UserByReferralCode(referralCode);
      ok := id !in users && holder.None?;
      if ok {
        InsertKeepsCodesUnique(users, NewUser(id, username, firstName, lastName, referralCode, now));
        users := users[id := NewUser(id, username, firstName, lastName, referralCode, now)];
      }
    }

    /** `updateUserIdentity`: only the three name columns of one row. */
    method UpdateUserIdentity(id: int, username: Option<string>, firstName: Option<string>, lastName: Option<string>)
      requires Valid()
      modifies this`users
      ensures Valid()
      ensures users == if id in old(users)
        then old(users)[id := old(users)[id].(username := TextOrNull(username), firstName := TextOrNull(firstName),
                                              lastName := TextOrNull(lastName))]
        else old(users)
    {
      if id in users {
        var row := users[id].(username := TextOrNull(username), firstName := TextOrNull(firstName), lastName := TextOrNull(lastName));
        UpdateKeepsCodesUnique(users, id, row);
        users := users[id := row];
      }
    }

    /** `addUserBalance`: a signed delta on one balance; the store puts no floor under it. */
    method AddUserBalance(userId: int, amount: int)
      requires Valid()
      modifies this`users
      ensures Valid()
      ensures users == if userId in old(users)
        then old(users)[userId := old(users)[userId].(fxBalance := old(users)[userId].fxBalance + amount)]
        else old(users)
    {
      if userId in users {
        var row := users[userId].(fxBalance := users[userId].fxBalance + amount);
        UpdateKeepsCodesUnique(users, userId, row);
        users := users[userId := row];
      }
    }

    method SetUserPremiumUntil(userId: int, premiumUntil: int)
      requires Valid()
      modifies this`users
      ensures Valid()
      ensures users == if userId in old(users)
        then old(users)[userId := old(users)[userId].(premiumUntil := Some(premiumUntil))]
        else old(users)
    {
      if userId in users {
        var row := users[userId].(premiumUntil := Some(premiumUntil));
        UpdateKeepsCodesUnique(users, userId, row);
        users := users[userId := row];
      }
    }

    /** The row after mining `amount` at `minedAt`: balance and total mined grow together. */
    static function MinedRow(u: User, amount: int, minedAt: int): (r: User)
      ensures r.fxBalance - u.fxBalance == r.totalMined - u.totalMined == amount
      ensures r.lastMineAt == minedAt
      ensures r == u.(fxBalance := r.fxBalance, lastMineAt := minedAt, totalMined := r.totalMined)
    {
      u.(fxBalance := u.fxBalance + amount, lastMineAt := minedAt, totalMined := u.totalMined + amount)
    }

    /** `updateUserMining`: balance and total mined grow by the same amount; the mining time is set. */
    method UpdateUserMining(userId: int, amount: int, minedAt: int)
      requires Valid()
      modifies this`users
      ensures Valid()
      ensures users == if userId in old(users) then old(users)[userId := MinedRow(old(users)[userId], amount, minedAt)]
        else old(users)
    {
      if userId in users {
        var row := MinedRow(users[userId], amount, minedAt);
        UpdateKeepsCodesUnique(users, userId, row);
        users := users[userId := row];
      }
    }

    method SetUserReferredBy(userId: int, referrerId: int)
      requires Valid()
      modifies this`users
      ensures Valid()
      ensures users == LinkReferral(old(users), userId, referrerId)
    {
      if userId in users {
        var row := users[userId].(referredBy := Some(referrerId));
        UpdateKeepsCodesUnique(users, userId, row);
        users := users[userId := row];
      }
    }

    /** `incrementReferralStats`: the referrer's balance and referral earnings grow by the bonus, its count by one. */
    method IncrementReferralStats(referrerId: int, bonus: int)
      requires Valid()
      modifies this`users
      ensures Valid()
      ensures users == AddReferralStats(old(users), referrerId, bonus)
    {
      if referrerId in users {
        var u := users[referrerId];
        var row := u.(fxBalance := u.fxBalance + bonus, referralsCount := u.referralsCount + 1, referralFx := u.referralFx + bonus);
        UpdateKeepsCodesUnique(users, referrerId, row);
        users := users[referrerId := row];
      }
    }

    /**
     * `getUserRankByBalance`: one more than the number of strictly richer
     * users, so rank 1 exactly when nobody is richer.
     */
    function RankByBalance(balance: int): (r: nat)
      reads this
      ensures r >= 1
      ensures r == 1 <==> forall id :: id in users ==> users[id].fxBalance <= balance
      ensures r == 1 + |set id | id in users && users[id].fxBalance > balance|
    {
      NobodyRicher(users, balance);
      1 + RicherCount(users, balance)
    }

    /** The user of `keys` that comes first in leaderboard order. */
    method FirstInOrder(keys: set<int>) returns (best: int)
      requires Valid() && keys != {} && keys <= users.Keys
      ensures best in keys
      ensures forall id :: id in keys && id != best ==> Before(users[best], users[id])
    {
      best := Choose(keys);
      var todo := keys - {best};
      while todo != {}
        invariant todo <= keys && best in keys && best !in todo
        invariant forall id :: id in keys && id !in todo && id != best ==> Before(users[best], users[id])
        decreases |todo|
      {
        var id := Choose(todo);
        if Before(users[id], users[best]) {
          best := id;
        }
        todo := todo - {id};
      }
    }

    /** `getTopUsers(limit)`: the leaderboard, selected row by row. */
    method TopUsers(limit: nat) returns (top: seq<User>)
      requires Valid()
      ensures IsTopList(users, limit, top)
    {
      top := [];
      var rest := users.Keys;
      while |top| < limit && rest != {}
        invariant |top| <= limit
        invariant SelectedSoFar(users, top, rest)
        decreases |rest|
      {
        var best := FirstInOrder(rest);
        SelectNext(users, top, rest, best);
        top := top + [users[best]];
        rest := rest - {best};
      }
      SelectionDone(users, limit, top, rest);
    }

    method SetUserState(userId: int, name: string, data: Option<Payload>, now: int)
      modifies this`states
      ensures states == old(states)[userId := StateRow(name, data, now)]
    {
      states := states[userId := StateRow(name, data, now)];
    }

    method ClearUserState(userId: int)
      modifies this`states
      ensures states == old(states) - {userId}
    {
      states := states - {userId};
    }

    /** `createWithdrawRequest`: a pending request with the next id. */
    method CreateWithdrawRequest(userId: int, amount: int, cardType: string, cardNumber: string, now: int)
      returns (id: nat)
      requires Valid()
      modifies this`withdrawals
      ensures Valid()
      ensures id == |old(withdrawals)| + 1
      ensures withdrawals == old(withdrawals) + [WithdrawRequest(id, userId, amount, cardType, cardNumber, Pending, now, now)]
    {
      id := |withdrawals| + 1;
      withdrawals := withdrawals + [WithdrawRequest(id, userId, amount, cardType, cardNumber, Pending, now, now)];
    }

    /** `getWithdrawRequestById` */
    function WithdrawById(id: int): (r: Option<WithdrawRequest>)
      reads this
      requires Valid()
      ensures r.Some? <==> 1 <= id <= |withdrawals|
      ensures r.Some? ==> r.value.id == id && r.value in withdrawals
    {
      if 1 <= id <= |withdrawals| then Some(withdrawals[id - 1]) else None
    }

    /** `updateWithdrawStatus`: only the status and the update time of that one request. */
    method UpdateWithdrawStatus(id: int, status: Status, now: int)
      requires Valid()
      modifies this`withdrawals
      ensures Valid()
      ensures withdrawals == if 1 <= id <= |old(withdrawals)|
        then old(withdrawals)[id - 1 := old(withdrawals)[id - 1].(status := status, updatedAt := now)]
        else old(withdrawals)
    {
      if 1 <= id <= |withdrawals| {
        withdrawals := withdrawals[id - 1 := withdrawals[id - 1].(status := status, updatedAt := now)];
      }
    }

    method CreateUcRequest(userId: int, ucAmount: int, fxCost: int, now: int) returns (id: nat)
      requires Valid()
      modifies this`ucRequests
      ensures Valid()
      ensures id == |old(ucRequests)| + 1
      ensures ucRequests == old(ucRequests) + [UcRequest(id, userId, ucAmount, fxCost, Pending, now, now)]
    {
      id := |ucRequests| + 1;
      ucRequests := ucRequests + [UcRequest(id, userId, ucAmount, fxCost, Pending, now, now)];
    }

    function UcById(id: int): (r: Option<UcRequest>)
      reads this
      requires Valid()
      ensures r.Some? <==> 1 <= id <= |ucRequests|
      ensures r.Some? ==> r.value.id == id && r.value in ucRequests
    {
      if 1 <= id <= |ucRequests| then Some(ucRequests[id - 1]) else None
    }

    method UpdateUcStatus(id: int, status: Status, now: int)
      requires Valid()
      modifies this`ucRequests
      ensures Valid()
      ensures ucRequests == if 1 <= id <= |old(ucRequests)|
        then old(ucRequests)[id - 1 := old(ucRequests)[id - 1].(status := status, updatedAt := now)]
        else old(ucRequests)
    {
      if 1 <= id <= |ucRequests| {
        ucRequests := ucRequests[id - 1 := ucRequests[id - 1].(status := status, updatedAt := now)];
      }
    }

    /** `addMovieCode`: insert, or overwrite every column of an existing code. */
    method AddMovieCode(code: string, contentType: string, contentValue: Option<string>, addedBy: Option<int>,
                        channelId: Option<int>, channelMessageId: Option<int>, now: int)
      modifies this`movieCodes
      ensures movieCodes == old(movieCodes)[code := MovieCode(contentType, contentValue.GetOr(""),
        NumberOrNull(channelId), NumberOrNull(channelMessageId), now, NumberOrNull(addedBy))]
    {
      movieCodes := movieCodes[code := MovieCode(contentType, contentValue.GetOr(""),
        NumberOrNull(channelId), NumberOrNull(channelMessageId), now, NumberOrNull(addedBy))];
    }

    method DeleteMovieCode(code: string)
      modifies this`movieCodes
      ensures movieCodes == old(movieCodes) - {code}
    {
      movieCodes := movieCodes - {code};
    }

    function MovieByCode(code: string): (r: Option<MovieCode>)
      reads this
      ensures r.Some? <==> code in movieCodes
      ensures r.Some? ==> r.value == movieCodes[code]
    {
      if code in movieCodes then Some(movieCodes[code]) else None
    }

    /** `getNextMovieCode`: the numeral one past the largest numeric code (`"1"` when there is none). */
    method NextMovieCode() returns (r: string)
      ensures exists m: nat :: IsMaxCode(movieCodes.Keys, m) && r == NatToString(m + 1)
      ensures r !in movieCodes
    {
      var m: nat := 0;
      var todo := movieCodes.Keys;
      while todo != {}
        invariant todo <= movieCodes.Keys
        invariant forall c :: c in movieCodes && c !in todo && IsNumericCode(c) ==> DigitsValue(c) <= m
        invariant m == 0 || exists c :: c in movieCodes && IsNumericCode(c) && DigitsValue(c) == m
        decreases |todo|
      {
        var c := Choose(todo);
        if IsNumericCode(c) && DigitsValue(c) > m {
          m := DigitsValue(c);
        }
        todo := todo - {c};
      }
      r := NatToString(m + 1);
      assert IsMaxCode(movieCodes.Keys, m);
      NextCodeIsFresh(movieCodes.Keys, m);
    }

    /** `addDropRecord`: drops have no uniqueness on (month, year), so every call appends. */
    method AddDropRecord(month: int, year: int, notes: Option<string>, now: int)
      requires Valid()
      modifies this`drops
      ensures Valid()
      ensures drops == old(drops) + [DropRecord(|old(drops)| + 1, month, year, now, TextOrNull(notes))]
    {
      drops := drops + [DropRecord(|drops| + 1, month, year, now, TextOrNull(notes))];
    }

    /** `getDropRecord`: a record for that month, if there is one. */
    function DropFor(month: int, year: int): (r: Option<DropRecord>)
      reads this
      ensures r.None? <==> forall i :: 0 <= i < |drops| ==> !(drops[i].month == month && drops[i].year == year)
      ensures r.Some? ==> r.value in drops && r.value.month == month && r.value.year == year
    {
      FirstDrop(drops, month, year)
    }
  }

  function FirstDrop(ds: seq<DropRecord>, month: int, year: int): (r: Option<DropRecord>)
    ensures r.None? <==> forall i :: 0 <= i < |ds| ==> !(ds[i].month == month && ds[i].year == year)
    ensures r.Some? ==> r.value in ds && r.value.month == month && r.value.year == year
  {
    if ds == [] then None
    else if ds[0].month == month && ds[0].year == year then Some(ds[0])
    else
      var r := FirstDrop(ds[1..], month, year);
      assert forall i :: 1 <= i < |ds| ==> ds[i] == ds[1..][i - 1];
      r
  }
}
