/**
 * The handlers of the FX bot (index.js) that change the store: mining,
 * sign-up with a referral, the premium purchase, the conversation flows,
 * the admin review of requests, `/addmovie` and the monthly drop. Each is one
 * sequential step on a `Db.Store`; chat messages are left out, and what a
 * failing statement or notification does is the parameter `fault`.
 */
module Engine {
  import opened Wrappers
  import opened JsText
  import opened Db
  import opened Rules
  import opened Flow

  /** The users table with one balance moved by `delta`. */
  function Credit(users: map<int, User>, id: int, delta: int): (r: map<int, User>)
    ensures r.Keys == users.Keys
    ensures id in users ==> r[id].fxBalance == users[id].fxBalance + delta && r[id].(fxBalance := users[id].fxBalance) == users[id]
    ensures forall k :: k in users && k != id ==> r[k] == users[k]
  {
    if id in users then users[id := users[id].(fxBalance := users[id].fxBalance + delta)] else users
  }

  /** A debit undone by a credit of the same amount leaves the table as it was. */
  lemma CreditCancels(users: map<int, User>, id: int, amount: int)
    ensures Credit(Credit(users, id, -amount), id, amount) == users
  {
    if id in users {
      assert Credit(Credit(users, id, -amount), id, amount)[id] == users[id];
    }
  }

  /**
   * `mineForUser`: the outcome is `MineDecision` on the row and the settings;
   * only a successful mining changes the row, in one update.
   */
  method MineForUser(store: Store, userId: int, source: Source, now: int) returns (outcome: MineOutcome)
    requires store.Valid()
    modifies store`users
    ensures store.Valid()
    ensures outcome == MineDecision(old(store.UserById(userId)), store.settings, source, now)
    ensures outcome.Mined? ==> store.users == old(store.users)[userId := Store.MinedRow(old(store.users)[userId], outcome.amount, now)]
    ensures !outcome.Mined? ==> store.users == old(store.users)
  {
    var user := store.UserById(userId);
    outcome := MineDecision(user, store.settings, source, now);
    if outcome.Mined? {
      store.UpdateUserMining(userId, outcome.amount, now);
    }
  }

  /** No user holds `code` as referral code. */
  predicate CodeFree(users: map<int, User>, code: string) {
    forall id :: id in users ==> users[id].referralCode != code
  }

  /**
   * `generateUniqueReferralCode`: draws codes until one is unused. The random
   * draws are the parameter `draws`, which must hold a free code somewhere.
   */
  method GenerateUniqueReferralCode(store: Store, draws: seq<string>) returns (code: string)
    requires store.Valid()
    requires exists i :: 0 <= i < |draws| && CodeFree(store.users, draws[i])
    ensures code in draws && CodeFree(store.users, code)
  {
    var i := 0;
    var holder := store.UserByReferralCode(draws[0]);
    while holder.Some?
      invariant 0 <= i < |draws|
      invariant exists j :: i <= j < |draws| && CodeFree(store.users, draws[j])
      invariant holder.None? <==> CodeFree(store.users, draws[i])
      decreases |draws| - i
    {
      i := i + 1;
      holder := store.UserByReferralCode(draws[i]);
    }
    code := draws[i];
  }

  /**
   * `ensureUser`: a new Telegram user is inserted with a fresh referral code;
   * a known one has the name columns refreshed, and the row read before the
   * refresh is returned.
   */
  method EnsureUser(store: Store, id: int, username: Option<string>, firstName: Option<string>,
                    lastName: Option<string>, draws: seq<string>, now: int) returns (user: User, isNew: bool)
    requires store.Valid()
    requires exists i :: 0 <= i < |draws| && CodeFree(store.users, draws[i])
    modifies store`users
    ensures store.Valid()
    ensures isNew <==> id !in old(store.users)
    ensures isNew ==>
      && CodeFree(old(store.users), user.referralCode) && user.referralCode in draws
      && user == NewUser(id, username, firstName, lastName, user.referralCode, now)
      && store.users == old(store.users)[id := user]
    ensures !isNew ==>
      && user == old(store.users)[id]
      && store.users == old(store.users)[id := user.(username := TextOrNull(username),
                                                     firstName := TextOrNull(firstName),
                                                     lastName := TextOrNull(lastName))]
    ensures id in store.users && store.users[id].id == id
  {
    var existing := store.UserById(id);
    if existing.None? {
      var code := GenerateUniqueReferralCode(store, draws);
      var ok := store.CreateUser(id, username, firstName, lastName, code, now);
      user := store.users[id];
      isNew := true;
    } else {
      store.UpdateUserIdentity(id, username, firstName, lastName);
      user := existing.value;
      isNew := false;
    }
  }

  /**
   * The users table after `userId` was referred by `referrerId` with `bonus`:
   * the link is written, then the owner's balance and referral stats grow.
   */
  function Referred(users: map<int, User>, userId: int, referrerId: int, bonus: int): (r: map<int, User>)
    ensures r.Keys == users.Keys
    ensures userId in users && referrerId != userId ==> r[userId] == users[userId].(referredBy := Some(referrerId))
    ensures referrerId in users && referrerId != userId ==>
      r[referrerId] == users[referrerId].(fxBalance := users[referrerId].fxBalance + bonus,
                                          referralsCount := users[referrerId].referralsCount + 1,
                                          referralFx := users[referrerId].referralFx + bonus)
    ensures forall k :: k in users && k != userId && k != referrerId ==> r[k] == users[k]
  {
    AddReferralStats(LinkReferral(users, userId, referrerId), referrerId, bonus)
  }

  /**
   * `applyReferralIfAny`: links a user to the owner of `refCode` and pays the
   * owner the referral bonus (`referral_bonus || 0`), only for a non-empty
   * code, a user not yet referred and an owner other than the user.
   */
  method ApplyReferralIfAny(store: Store, user: User, refCode: Option<string>) returns (referrer: Option<User>)
    requires store.Valid()
    modifies store`users
    ensures store.Valid()
    ensures referrer.None? ==> store.users == old(store.users)
    ensures referrer.Some? ==>
      && refCode.Some? && refCode.value != [] && user.referredBy.None?
      && referrer.value.id in old(store.users) && old(store.users)[referrer.value.id] == referrer.value
      && referrer.value.referralCode == refCode.value && referrer.value.id != user.id
    ensures refCode.Some? && refCode.value != [] && user.referredBy.None? && user.id in old(store.users)
      && (exists k :: k in old(store.users) && k != user.id && old(store.users)[k].referralCode == refCode.value)
      ==> referrer.Some?
    ensures referrer.Some? ==>
      store.users == Referred(old(store.users), user.id, referrer.value.id,
                              OrDefault(SettingNumberOf(old(store.settings), "referral_bonus"), 0))
  {
    if refCode.None? || refCode.value == [] || user.referredBy.Some? {
      return None;
    }
    var owner := store.UserByReferralCode(refCode.value);
    if owner.None? || owner.value.id == user.id {
      return None;
    }
    var bonus := OrDefault(SettingNumberOf(store.settings, "referral_bonus"), 0);
    store.SetUserReferredBy(user.id, owner.value.id);
    store.IncrementReferralStats(owner.value.id, bonus);
    referrer := owner;
  }

  /**
   * The referral half of `/start` for a sender `ensureUser` has just inserted:
   * `applyReferralIfAny` with the trimmed argument.
   */
  method ReferNewUser(store: Store, user: User, refArg: Option<string>) returns (referrer: Option<User>)
    requires store.Valid()
    requires user.id in store.users && store.users[user.id] == user && user.referredBy.None?
    modifies store`users
    ensures store.Valid()
    ensures referrer.None? ==> store.users == old(store.users)
    ensures referrer.Some? ==>
      && refArg.Some? && Trim(refArg.value) != [] && referrer.value.id != user.id
      && referrer.value.id in old(store.users) && old(store.users)[referrer.value.id] == referrer.value
      && referrer.value.referralCode == Trim(refArg.value)
    ensures referrer.Some? ==>
      store.users == Referred(old(store.users), user.id, referrer.value.id,
                              OrDefault(SettingNumberOf(store.settings, "referral_bonus"), 0))
    ensures refArg.Some? && Trim(refArg.value) != []
      && (exists k :: k in old(store.users) && k != user.id && old(store.users)[k].referralCode == Trim(refArg.value))
      ==> referrer.Some?
  {
    var refCode := if refArg.Some? then Some(Trim(refArg.value)) else None;
    referrer := ApplyReferralIfAny(store, user, refCode);
  }

  /**
   * `/start [code]`: registers the sender and applies the referral code only
   * when the sender is new, so a referral is applied at most once per user.
   * `user` is the row `ensureUser` returned.
   */
  method Start(store: Store, id: int, username: Option<string>, firstName: Option<string>, lastName: Option<string>,
               refArg: Option<string>, draws: seq<string>, now: int) returns (user: User, referrer: Option<User>)
    requires store.Valid()
    requires exists i :: 0 <= i < |draws| && CodeFree(store.users, draws[i])
    modifies store`users
    ensures store.Valid()
    // A known sender: only the name columns change, and no referral is applied.
    ensures id in old(store.users) ==>
      && referrer.None? && user == old(store.users)[id]
      && store.users == old(store.users)[id := user.(username := TextOrNull(username),
                                                     firstName := TextOrNull(firstName),
                                                     lastName := TextOrNull(lastName))]
    ensures id in old(store.users) ==>
      forall k :: k in old(store.users) ==> store.users[k].fxBalance == old(store.users)[k].fxBalance
    // A new sender: a fresh row, linked to the holder of the code when there is one.
    ensures id !in old(store.users) ==>
      && CodeFree(old(store.users), user.referralCode) && user.referralCode in draws
      && user == NewUser(id, username, firstName, lastName, user.referralCode, now)
    ensures id !in old(store.users) && referrer.None? ==> store.users == old(store.users)[id := user]
    ensures referrer.Some? ==>
      && id !in old(store.users) && refArg.Some? && Trim(refArg.value) != [] && referrer.value.id != id
      && referrer.value.id in old(store.users) && old(store.users)[referrer.value.id] == referrer.value
      && referrer.value.referralCode == Trim(refArg.value)
    ensures referrer.Some? ==>
      store.users == Referred(old(store.users)[id := user], id, referrer.value.id,
                              OrDefault(SettingNumberOf(store.settings, "referral_bonus"), 0))
    ensures id !in old(store.users) && refArg.Some? && Trim(refArg.value) != []
      && (exists k :: k in old(store.users) && old(store.users)[k].referralCode == Trim(refArg.value))
      ==> referrer.Some?
  {
    var isNew;
    user, isNew := EnsureUser(store, id, username, firstName, lastName, draws, now);
    if isNew {
      if refArg.Some? && exists k :: k in old(store.users) && old(store.users)[k].referralCode == Trim(refArg.value) {
        var k :| k in old(store.users) && old(store.users)[k].referralCode == Trim(refArg.value);
        assert k in store.users && k != user.id && store.users[k].referralCode == Trim(refArg.value);
      }
      referrer := ReferNewUser(store, user, refArg);
    } else {
      referrer := None;
    }
  }

  /**
   * `handlePremiumPurchase`: with at least `premium_cost || 0` on the balance,
   * the cost is debited and `premium_days || 30` days are added to the expiry
   * (to `now` once premium has lapsed); otherwise nothing changes.
   */
  method HandlePremiumPurchase(store: Store, userId: int, now: int) returns (purchased: bool)
    requires store.Valid() && userId in store.users
    modifies store`users
    ensures store.Valid()
    ensures
      var u := old(store.users)[userId];
      var cost := OrDefault(SettingNumberOf(old(store.settings), "premium_cost"), 0);
      var days := OrDefault(SettingNumberOf(old(store.settings), "premium_days"), 30);
      && (purchased <==> u.fxBalance >= cost)
      && (purchased ==> store.users == old(store.users)[userId := u.(
            fxBalance := u.fxBalance - cost,
            premiumUntil := Some(ExtendPremium(u.premiumUntil, now, days)))])
      && (!purchased ==> store.users == old(store.users))
  {
    var cost := OrDefault(SettingNumberOf(store.settings, "premium_cost"), 0);
    var days := OrDefault(SettingNumberOf(store.settings, "premium_days"), 30);
    var user := store.users[userId];
    if user.fxBalance < cost {
      return false;
    }
    var until := ExtendPremium(user.premiumUntil, now, days);
    ghost var target := user.(fxBalance := user.fxBalance - cost, premiumUntil := Some(until));
    store.AddUserBalance(userId, -cost);
    store.SetUserPremiumUntil(userId, until);
    assert store.users[userId] == target;
    assert store.users == old(store.users)[userId := target];
    purchased := true;
  }

  /** `startWithdrawFlow`: the amount prompt opens on the payout day, or any day for an admin. */
  method StartWithdrawFlow(store: Store, userId: int, today: int, isAdmin: bool, now: int) returns (started: bool)
    modifies store`states
    ensures started <==> WithdrawOpen(store.settings, today, isAdmin)
    ensures started ==> store.states == old(store.states)[userId := StateRow(Name(WithdrawAmount), Data(WithdrawAmount), now)]
    ensures !started ==> store.states == old(store.states)
  {
    started := WithdrawOpen(store.settings, today, isAdmin);
    if started {
      store.SetUserState(userId, Name(WithdrawAmount), Data(WithdrawAmount), now);
    }
  }

  /** `startUcFlow` and `startMovieFlow`: open the given prompt, replacing any state in progress. */
  method StartFlow(store: Store, userId: int, s: FlowState, now: int)
    requires s == UcAmount || s == MovieCodePrompt
    modifies store`states
    ensures store.states == old(store.states)[userId := StateRow(Name(s), Data(s), now)]
  {
    store.SetUserState(userId, Name(s), Data(s), now);
  }

  /**
   * The `try` block of the withdrawal step with the corrected compensation:
   * debit, create the pending request, notify. A failed debit needs no
   * credit, and a request that exists holds the debited amount.
   */
  method CommitWithdrawal(store: Store, userId: int, amount: int, cardType: string, cardNumber: string,
                          now: int, fault: Fault) returns (requestId: Option<nat>)
    requires store.Valid()
    modifies store`users, store`withdrawals
    ensures store.Valid()
    ensures store.users == Credit(old(store.users), userId, Commit(amount, fault).balanceDelta)
    ensures requestId.Some? <==> Commit(amount, fault).recordCreated
    ensures store.withdrawals == old(store.withdrawals) +
      (if Commit(amount, fault).recordCreated
       then [WithdrawRequest(|old(store.withdrawals)| + 1, userId, amount, cardType, cardNumber, Pending, now, now)]
       else [])
  {
    if fault == DebitFails {
      assert Credit(store.users, userId, 0) == store.users;
      return None;
    }
    store.AddUserBalance(userId, -amount);
    if fault == CreateFails {
      store.AddUserBalance(userId, amount);
      CreditCancels(old(store.users), userId, amount);
      return None;
    }
    var id := store.CreateWithdrawRequest(userId, amount, cardType, cardNumber, now);
    requestId := Some(id);
  }

  /** The same for a UC order, holding `fx_cost`. */
  method CommitUcOrder(store: Store, userId: int, ucAmount: int, fxCost: int, now: int, fault: Fault)
    returns (requestId: Option<nat>)
    requires store.Valid()
    modifies store`users, store`ucRequests
    ensures store.Valid()
    ensures store.users == Credit(old(store.users), userId, Commit(fxCost, fault).balanceDelta)
    ensures requestId.Some? <==> Commit(fxCost, fault).recordCreated
    ensures store.ucRequests == old(store.ucRequests) +
      (if Commit(fxCost, fault).recordCreated
       then [UcRequest(|old(store.ucRequests)| + 1, userId, ucAmount, fxCost, Pending, now, now)]
       else [])
  {
    if fault == DebitFails {
      assert Credit(store.users, userId, 0) == store.users;
      return None;
    }
    store.AddUserBalance(userId, -fxCost);
    if fault == CreateFails {
      store.AddUserBalance(userId, fxCost);
      CreditCancels(old(store.users), userId, fxCost);
      return None;
    }
    var id := store.CreateUcRequest(userId, ucAmount, fxCost, now);
    requestId := Some(id);
  }

  /** The conversation slot after an action: kept, replaced by the next state, or cleared. */
  function SlotAfter(states: map<int, StateRow>, userId: int, a: Action, now: int): map<int, StateRow> {
    match a
    case Reprompt => states
    case Advance(next) => states[userId := StateRow(Name(next), Data(next), now)]
    case _ => states - {userId}
  }

  /** The money and request tables after an action: only the two commits touch them. */
  predicate CommitEffects(users0: map<int, User>, withdrawals0: seq<WithdrawRequest>, ucRequests0: seq<UcRequest>,
                          users: map<int, User>, withdrawals: seq<WithdrawRequest>, ucRequests: seq<UcRequest>,
                          userId: int, a: Action, now: int, fault: Fault)
  {
    match a
    case CommitWithdraw(amount, cardType, cardNumber) =>
      && users == Credit(users0, userId, Commit(amount, fault).balanceDelta)
      && withdrawals == withdrawals0 +
        (if Commit(amount, fault).recordCreated
         then [WithdrawRequest(|withdrawals0| + 1, userId, amount, cardType, cardNumber, Pending, now, now)]
         else [])
      && ucRequests == ucRequests0
    case CommitUc(ucAmount, fxCost) =>
      && users == Credit(users0, userId, Commit(fxCost, fault).balanceDelta)
      && ucRequests == ucRequests0 +
        (if Commit(fxCost, fault).recordCreated
         then [UcRequest(|ucRequests0| + 1, userId, ucAmount, fxCost, Pending, now, now)]
         else [])
      && withdrawals == withdrawals0
    case _ =>
      users == users0 && withdrawals == withdrawals0 && ucRequests == ucRequests0
  }

  /**
   * What `handleStateMessage` does once the transition is known: the
   * terminal steps clear the state before they commit, a reprompt keeps it, an
   * advance stores the next one, and a code lookup reads the film first.
   */
  method ApplyAction(store: Store, userId: int, a: Action, now: int, fault: Fault) returns (movie: Option<MovieCode>)
    requires store.Valid()
    modifies store`users, store`states, store`withdrawals, store`ucRequests
    ensures store.Valid()
    ensures store.states == SlotAfter(old(store.states), userId, a, now)
    ensures CommitEffects(old(store.users), old(store.withdrawals), old(store.ucRequests),
                          store.users, store.withdrawals, store.ucRequests, userId, a, now, fault)
    ensures movie == if a.LookupMovie? then MovieByCodeIn(store.movieCodes, a.code) else None
  {
    movie := None;
    match a {
      case Reprompt =>
      case Advance(next) =>
        store.SetUserState(userId, Name(next), Data(next), now);
      case CommitWithdraw(amount, cardType, cardNumber) =>
        store.ClearUserState(userId);
        var _ := CommitWithdrawal(store, userId, amount, cardType, cardNumber, now, fault);
      case CommitUc(ucAmount, fxCost) =>
        store.ClearUserState(userId);
        var _ := CommitUcOrder(store, userId, ucAmount, fxCost, now, fault);
      case LookupMovie(code) =>
        movie := store.MovieByCode(code);
        store.ClearUserState(userId);
      case Cancel =>
        store.ClearUserState(userId);
      case Abandon =>
        store.ClearUserState(userId);
    }
  }

  /**
   * `handleStateMessage`: `false` when the user has no state or a state no
   * handler knows (which is cleared); otherwise the cancel keyword clears the
   * state, and any other text takes the transition `Step`, whose effects are
   * those of `ApplyAction`.
   */
  method HandleStateMessage(store: Store, userId: int, text: string, now: int, fault: Fault)
    returns (handled: bool, action: Option<Action>, movie: Option<MovieCode>)
    requires store.Valid() && userId in store.users
    modifies store`users, store`states, store`withdrawals, store`ucRequests
    ensures store.Valid()
    ensures handled <==> action.Some?
    ensures StateOf(old(store.states), userId).None? ==>
      action.None? && store.states == old(store.states)
    ensures StateOf(old(store.states), userId).Some? && IsCancel(text) ==>
      action == Some(Cancel)
    ensures (StateOf(old(store.states), userId).Some? && !IsCancel(text)
             && Decode(StateOf(old(store.states), userId).value).None?) ==>
      action.None? && store.states == old(store.states) - {userId}
    ensures (StateOf(old(store.states), userId).Some? && !IsCancel(text)
             && Decode(StateOf(old(store.states), userId).value).Some?) ==>
      action == Some(Step(Decode(StateOf(old(store.states), userId).value).value, text,
                          old(store.users)[userId].fxBalance,
                          OrDefault(SettingNumberOf(old(store.settings), "uc_fx_rate"), 1)))
    ensures action.Some? ==> store.states == SlotAfter(old(store.states), userId, action.value, now)
    ensures action.Some? ==>
      CommitEffects(old(store.users), old(store.withdrawals), old(store.ucRequests),
                    store.users, store.withdrawals, store.ucRequests, userId, action.value, now, fault)
    ensures action.None? ==>
      store.users == old(store.users) && store.withdrawals == old(store.withdrawals)
      && store.ucRequests == old(store.ucRequests)
    ensures movie.Some? ==>
      && action.Some? && action.value.LookupMovie?
      && movie == MovieByCodeIn(store.movieCodes, action.value.code)
    ensures action.Some? && action.value.LookupMovie? ==>
      movie == MovieByCodeIn(store.movieCodes, action.value.code)
  {
    var row := StateOf(store.states, userId);
    if row.None? {
      return false, None, None;
    }
    var a: Action;
    if IsCancel(text) {
      a := Cancel;
    } else {
      var s := Decode(row.value);
      if s.None? {
        store.ClearUserState(userId);
        return false, None, None;
      }
      var rate := OrDefault(SettingNumberOf(store.settings, "uc_fx_rate"), 1);
      a := Step(s.value, text, store.users[userId].fxBalance, rate);
    }
    movie := ApplyAction(store, userId, a, now, fault);
    handled, action := true, Some(a);
  }

  /** `getMovieCode` over the table `movie_codes`. */
  function MovieByCodeIn(movieCodes: map<string, MovieCode>, code: string): Option<MovieCode> {
    if code in movieCodes then Some(movieCodes[code]) else None
  }

  /**
   * `/approve_withdraw <id>`: an admin moves a pending request to approved;
   * the balance is left alone. Anything else changes nothing.
   */
  method ApproveWithdraw(store: Store, isAdmin: bool, id: int, now: int) returns (ok: bool)
    requires store.Valid()
    modifies store`withdrawals
    ensures store.Valid()
    ensures ok <==> isAdmin && 1 <= id <= |old(store.withdrawals)| && old(store.withdrawals)[id - 1].status == Pending
    ensures ok ==> store.withdrawals == old(store.withdrawals)[id - 1 := old(store.withdrawals)[id - 1].(status := Approved, updatedAt := now)]
    ensures !ok ==> store.withdrawals == old(store.withdrawals)
  {
    if !isAdmin {
      return false;
    }
    var request := store.WithdrawById(id);
    if request.None? || request.value.status != Pending {
      return false;
    }
    store.UpdateWithdrawStatus(id, Approved, now);
    ok := true;
  }

  /**
   * `/deny_withdraw <id>`: an admin moves a pending request to denied and
   * credits its amount back to its owner.
   */
  method DenyWithdraw(store: Store, isAdmin: bool, id: int, now: int) returns (ok: bool)
    requires store.Valid()
    modifies store`withdrawals, store`users
    ensures store.Valid()
    ensures ok <==> isAdmin && 1 <= id <= |old(store.withdrawals)| && old(store.withdrawals)[id - 1].status == Pending
    ensures ok ==>
      var r := old(store.withdrawals)[id - 1];
      && store.withdrawals == old(store.withdrawals)[id - 1 := r.(status := Denied, updatedAt := now)]
      && store.users == Credit(old(store.users), r.userId, r.amount)
    ensures !ok ==> store.withdrawals == old(store.withdrawals) && store.users == old(store.users)
  {
    if !isAdmin {
      return false;
    }
    var request := store.WithdrawById(id);
    if request.None? || request.value.status != Pending {
      return false;
    }
    store.UpdateWithdrawStatus(id, Denied, now);
    store.AddUserBalance(request.value.userId, request.value.amount);
    ok := true;
  }

  /** `/approve_uc <id>` */
  method ApproveUc(store: Store, isAdmin: bool, id: int, now: int) returns (ok: bool)
    requires store.Valid()
    modifies store`ucRequests
    ensures store.Valid()
    ensures ok <==> isAdmin && 1 <= id <= |old(store.ucRequests)| && old(store.ucRequests)[id - 1].status == Pending
    ensures ok ==> store.ucRequests == old(store.ucRequests)[id - 1 := old(store.ucRequests)[id - 1].(status := Approved, updatedAt := now)]
    ensures !ok ==> store.ucRequests == old(store.ucRequests)
  {
    if !isAdmin {
      return false;
    }
    var request := store.UcById(id);
    if request.None? || request.value.status != Pending {
      return false;
    }
    store.UpdateUcStatus(id, Approved, now);
    ok := true;
  }

  /** `/deny_uc <id>`: denies a pending order and credits its `fx_cost` back. */
  method DenyUc(store: Store, isAdmin: bool, id: int, now: int) returns (ok: bool)
    requires store.Valid()
    modifies store`ucRequests, store`users
    ensures store.Valid()
    ensures ok <==> isAdmin && 1 <= id <= |old(store.ucRequests)| && old(store.ucRequests)[id - 1].status == Pending
    ensures ok ==>
      var r := old(store.ucRequests)[id - 1];
      && store.ucRequests == old(store.ucRequests)[id - 1 := r.(status := Denied, updatedAt := now)]
      && store.users == Credit(old(store.users), r.userId, r.fxCost)
    ensures !ok ==> store.ucRequests == old(store.ucRequests) && store.users == old(store.users)
  {
    if !isAdmin {
      return false;
    }
    var request := store.UcById(id);
    if request.None? || request.value.status != Pending {
      return false;
    }
    store.UpdateUcStatus(id, Denied, now);
    store.AddUserBalance(request.value.userId, request.value.fxCost);
    ok := true;
  }

  /**
   * `/addmovie [code] [text]`: an admin stores the content of the replied-to
   * message (or the trimmed text argument) under the given code, or under the
   * next free numeric code when the code is missing, `auto` or `next`.
   */
  method AddMovie(store: Store, isAdmin: bool, rawCode: string, reply: Option<Reply>, textArg: string,
                  addedBy: int, now: int) returns (saved: Option<string>)
    modifies store`movieCodes
    ensures saved.None? ==> store.movieCodes == old(store.movieCodes)
    ensures saved.None? <==> !isAdmin || (ExtractMovieContent(reply).None? && textArg == [])
    ensures saved.Some? && ExplicitMovieCode(rawCode).Some? ==> saved.value == rawCode
    ensures saved.Some? && ExplicitMovieCode(rawCode).None? ==> saved.value !in old(store.movieCodes)
    ensures saved.Some? && ExplicitMovieCode(rawCode).None? ==>
      exists m: nat :: IsMaxCode(old(store.movieCodes).Keys, m) && saved.value == NatToString(m + 1)
    ensures saved.Some? ==>
      var c := MovieContent(reply, textArg);
      store.movieCodes == old(store.movieCodes)[saved.value := MovieCode(c.kind, c.value,
        NumberOrNull(c.channelId), NumberOrNull(c.channelMessageId), now, NumberOrNull(Some(addedBy)))]
  {
    if !isAdmin {
      return None;
    }
    var content := ExtractMovieContent(reply);
    if content.None? && textArg == [] {
      return None;
    }
    var c := MovieContent(reply, textArg);
    var code := ExplicitMovieCode(rawCode);
    var key: string;
    if code.Some? {
      key := code.value;
    } else {
      key := store.NextMovieCode();
    }
    store.AddMovieCode(key, c.kind, Some(c.value), Some(addedBy), c.channelId, c.channelMessageId, now);
    saved := Some(key);
  }

  /** The content `/addmovie` stores: the reply's, else the trimmed text argument. */
  function MovieContent(reply: Option<Reply>, textArg: string): (c: Content)
    ensures ExtractMovieContent(reply).Some? ==> c == ExtractMovieContent(reply).value
    ensures ExtractMovieContent(reply).None? ==> c == Content("text", Trim(textArg), None, None)
  {
    match ExtractMovieContent(reply)
    case Some(c) => c
    case None => Content("text", Trim(textArg), None, None)
  }

  /** One leaderboard user rewarded by the drop: the bonus, and the premium days when there are any. */
  function RewardOne(users: map<int, User>, u: User, bonus: int, days: int, now: int): map<int, User> {
    if u.id !in users then users
    else
      var credited := users[u.id].(fxBalance := users[u.id].fxBalance + bonus);
      users[u.id := if days > 0 then credited.(premiumUntil := Some(ExtendPremium(u.premiumUntil, now, days))) else credited]
  }

  /** The users table after rewarding the rows of `top`, in order. */
  function Rewarded(users: map<int, User>, top: seq<User>, bonus: int, days: int, now: int): map<int, User>
    decreases |top|
  {
    if top == [] then users
    else RewardOne(Rewarded(users, top[..|top| - 1], bonus, days, now), top[|top| - 1], bonus, days, now)
  }

  predicate DistinctIds(top: seq<User>) {
    forall i, j :: 0 <= i < j < |top| ==> top[i].id != top[j].id
  }

  /**
   * Every listed user gets the bonus exactly once (and the premium extension
   * from the listed expiry when `days > 0`); every other user is untouched.
   */
  lemma {:induction false} RewardedEachOnce(users: map<int, User>, top: seq<User>, bonus: int, days: int, now: int, id: int)
    requires DistinctIds(top)
    requires forall i :: 0 <= i < |top| ==> top[i].id in users
    ensures Rewarded(users, top, bonus, days, now).Keys == users.Keys
    ensures id in users && id !in Ids(top) ==> Rewarded(users, top, bonus, days, now)[id] == users[id]
    ensures forall j :: 0 <= j < |top| && top[j].id == id ==>
      && Rewarded(users, top, bonus, days, now)[id].fxBalance == users[id].fxBalance + bonus
      && Rewarded(users, top, bonus, days, now)[id].premiumUntil ==
         (if days > 0 then Some(ExtendPremium(top[j].premiumUntil, now, days)) else users[id].premiumUntil)
    decreases |top|
  {
    if top != [] {
      var init := top[..|top| - 1];
      var last := top[|top| - 1];
      assert forall i :: 0 <= i < |init| ==> init[i] == top[i];
      RewardedEachOnce(users, init, bonus, days, now, id);
      IdsAppend(init, last);
      assert init + [last] == top;
      if id != last.id {
        forall j | 0 <= j < |top| && top[j].id == id
          ensures j < |init| && init[j] == top[j]
        {
          assert j != |top| - 1;
        }
      } else {
        forall i | 0 <= i < |init|
          ensures init[i].id != id
        {
          assert top[i].id != top[|top| - 1].id;
        }
        assert forall j :: 0 <= j < |top| - 1 ==> top[j].id != id;
      }
    }
  }

  /** The rows of a leaderboard have distinct ids: the order is strict. */
  lemma TopListDistinct(users: map<int, User>, limit: nat, top: seq<User>)
    requires IsTopList(users, limit, top)
    ensures DistinctIds(top)
  {
    forall i, j | 0 <= i < j < |top| ensures top[i].id != top[j].id {
      assert Before(top[i], top[j]);
    }
  }

  datatype DropOutcome = NotAdmin | AlreadyDone | NoUsers | Aborted(rewarded: nat) | Done

  /** The `notes` column of a drop record. */
  function DropNotes(bonus: int, days: int): string {
    "drop_bonus_fx=" + IntToString(bonus) + ", drop_premium_days=" + IntToString(days)
  }

  /**
   * The loop of `/drop_run` over the leaderboard: the bonus, then the premium
   * days when there are any, then the notification. A notification that fails
   * at position `k` ends the loop with `k + 1` users rewarded.
   */
  method RewardLeaders(store: Store, top: seq<User>, bonus: int, days: int, now: int, notifyFailsAt: Option<nat>)
    returns (rewarded: nat, aborted: bool)
    requires store.Valid()
    modifies store`users
    ensures store.Valid()
    ensures aborted <==> notifyFailsAt.Some? && notifyFailsAt.value < |top|
    ensures rewarded == if aborted then notifyFailsAt.value + 1 else |top|
    ensures store.users == Rewarded(old(store.users), top[..rewarded], bonus, days, now)
  {
    for i := 0 to |top|
      invariant store.Valid()
      invariant notifyFailsAt.Some? ==> notifyFailsAt.value >= i
      invariant store.users == Rewarded(old(store.users), top[..i], bonus, days, now)
    {
      var u := top[i];
      ghost var before := store.users;
      store.AddUserBalance(u.id, bonus);
      if days > 0 {
        store.SetUserPremiumUntil(u.id, ExtendPremium(u.premiumUntil, now, days));
      }
      assert store.users == RewardOne(before, u, bonus, days, now);
      assert top[..i + 1][..i] == top[..i];
      if notifyFailsAt == Some(i) {
        return i + 1, true;
      }
    }
    assert top[..|top|] == top;
    rewarded, aborted := |top|, false;
  }

  /** `addDropRecord` with the notes `/drop_run` writes, which are never empty. */
  method RecordDrop(store: Store, month: int, year: int, bonus: int, days: int, now: int)
    requires store.Valid()
    modifies store`drops
    ensures store.Valid()
    ensures store.drops == old(store.drops) + [DropRecord(|old(store.drops)| + 1, month, year, now, Some(DropNotes(bonus, days)))]
  {
    var notes := DropNotes(bonus, days);
    assert notes[0] == 'd';
    store.AddDropRecord(month, year, Some(notes), now);
  }

  /**
   * `/drop_run [force]`: once per month unless forced. Each of the ten
   * leading users, in order, gets `drop_bonus_fx || 0` and, when
   * `drop_premium_days || 0` is positive, that many premium days; the record is
   * appended after the loop. A notification that fails for the `k`-th user
   * (`notifyFailsAt`) ends the run there: the first `k + 1` users keep their
   * reward and no record is written.
   */
  method DropRun(store: Store, isAdmin: bool, force: bool, month: int, year: int, now: int,
                 notifyFailsAt: Option<nat>) returns (outcome: DropOutcome, top: seq<User>, bonus: int, days: int)
    requires store.Valid()
    modifies store`users, store`drops
    ensures store.Valid()
    ensures outcome == NotAdmin <==> !isAdmin
    ensures outcome == AlreadyDone <==> isAdmin && !force && old(store.DropFor(month, year)).Some?
    ensures outcome.NotAdmin? || outcome.AlreadyDone? || outcome.NoUsers? ==>
      store.users == old(store.users) && store.drops == old(store.drops)
    ensures outcome == NoUsers ==> old(store.users) == map[]
    ensures outcome.Aborted? || outcome == Done ==>
      && IsTopList(old(store.users), 10, top) && |top| > 0
      && bonus == OrDefault(SettingNumberOf(old(store.settings), "drop_bonus_fx"), 0)
      && days == OrDefault(SettingNumberOf(old(store.settings), "drop_premium_days"), 0)
    ensures outcome.Aborted? ==>
      && notifyFailsAt == Some(outcome.rewarded - 1) && 1 <= outcome.rewarded <= |top|
      && store.users == Rewarded(old(store.users), top[..outcome.rewarded], bonus, days, now)
      && store.drops == old(store.drops)
    ensures outcome == Done ==> notifyFailsAt.None? || notifyFailsAt.value >= |top|
    ensures outcome == Done ==>
      && store.users == Rewarded(old(store.users), top, bonus, days, now)
      && store.drops == old(store.drops) + [DropRecord(|old(store.drops)| + 1, month, year, now, Some(DropNotes(bonus, days)))]
  {
    top, bonus, days := [], 0, 0;
    if !isAdmin {
      return NotAdmin, top, bonus, days;
    }
    var existing := store.DropFor(month, year);
    if existing.Some? && !force {
      return AlreadyDone, top, bonus, days;
    }
    outcome, top, bonus, days := RunDrop(store, month, year, now, notifyFailsAt);
  }

  /**
   * `/drop_run` past its guards: take the leaderboard, read the bonus and the
   * premium days, reward the leaders and, when every notification went out,
   * append the record.
   */
  method RunDrop(store: Store, month: int, year: int, now: int, notifyFailsAt: Option<nat>)
    returns (outcome: DropOutcome, top: seq<User>, bonus: int, days: int)
    requires store.Valid()
    modifies store`users, store`drops
    ensures store.Valid()
    ensures outcome.NoUsers? || outcome.Aborted? || outcome == Done
    ensures outcome == NoUsers ==> old(store.users) == map[]
    ensures outcome == NoUsers ==> store.users == old(store.users) && store.drops == old(store.drops)
    ensures outcome.Aborted? || outcome == Done ==>
      && IsTopList(old(store.users), 10, top) && |top| > 0
      && bonus == OrDefault(SettingNumberOf(old(store.settings), "drop_bonus_fx"), 0)
      && days == OrDefault(SettingNumberOf(old(store.settings), "drop_premium_days"), 0)
    ensures outcome.Aborted? ==>
      && notifyFailsAt == Some(outcome.rewarded - 1) && 1 <= outcome.rewarded <= |top|
      && store.users == Rewarded(old(store.users), top[..outcome.rewarded], bonus, days, now)
      && store.drops == old(store.drops)
    ensures outcome == Done ==> notifyFailsAt.None? || notifyFailsAt.value >= |top|
    ensures outcome == Done ==>
      && store.users == Rewarded(old(store.users), top, bonus, days, now)
      && store.drops == old(store.drops) + [DropRecord(|old(store.drops)| + 1, month, year, now, Some(DropNotes(bonus, days)))]
  {
    bonus, days := 0, 0;
    top := store.TopUsers(10);
    if |top| == 0 {
      return NoUsers, top, bonus, days;
    }
    outcome, bonus, days := RewardAndRecord(store, top, month, year, now, notifyFailsAt);
  }

  /**
   * The leaderboard `top` rewarded with `drop_bonus_fx || 0` FX and
   * `drop_premium_days || 0` premium days, and the drop recorded when every
   * notification went out.
   */
  method RewardAndRecord(store: Store, top: seq<User>, month: int, year: int, now: int, notifyFailsAt: Option<nat>)
    returns (outcome: DropOutcome, bonus: int, days: int)
    requires store.Valid()
    modifies store`users, store`drops
    ensures store.Valid()
    ensures outcome.Aborted? || outcome == Done
    ensures bonus == OrDefault(SettingNumberOf(old(store.settings), "drop_bonus_fx"), 0)
    ensures days == OrDefault(SettingNumberOf(old(store.settings), "drop_premium_days"), 0)
    ensures outcome.Aborted? ==>
      && notifyFailsAt == Some(outcome.rewarded - 1) && 1 <= outcome.rewarded <= |top|
      && store.users == Rewarded(old(store.users), top[..outcome.rewarded], bonus, days, now)
      && store.drops == old(store.drops)
    ensures outcome == Done ==> notifyFailsAt.None? || notifyFailsAt.value >= |top|
    ensures outcome == Done ==>
      && store.users == Rewarded(old(store.users), top, bonus, days, now)
      && store.drops == old(store.drops) + [DropRecord(|old(store.drops)| + 1, month, year, now, Some(DropNotes(bonus, days)))]
  {
    bonus := OrDefault(SettingNumberOf(store.settings, "drop_bonus_fx"), 0);
    days := OrDefault(SettingNumberOf(store.settings, "drop_premium_days"), 0);
    var rewarded, aborted := RewardLeaders(store, top, bonus, days, now, notifyFailsAt);
    if aborted {
      return Aborted(rewarded), bonus, days;
    }
    assert top[..rewarded] == top;
    RecordDrop(store, month, year, bonus, days, now);
    outcome := Done;
  }
}
