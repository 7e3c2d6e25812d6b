/**
 * The conversation state machine of `handleStateMessage` (index.js): the
 * per-user slot in `user_states`, what each state does with the next text
 * message, and what the terminal steps do to the balance when something in
 * them fails.
 */
module Flow {
  import opened Wrappers
  import opened JsText
  import opened Db

  /** The active states, each with the data collected so far. Idle is the absence of a row. */
  datatype FlowState =
    | WithdrawAmount
    | WithdrawCardType(amount: int)
    | WithdrawCardNumber(amount: int, cardType: string)
    | UcAmount
    | UcConfirm(ucAmount: int, fxCost: int)
    | MovieCodePrompt

  /** The `state` column written for each state. */
  function Name(s: FlowState): string {
    match s
    case WithdrawAmount => "withdraw_amount"
    case WithdrawCardType(_) => "withdraw_card_type"
    case WithdrawCardNumber(_, _) => "withdraw_card_number"
    case UcAmount => "uc_amount"
    case UcConfirm(_, _) => "uc_confirm"
    case MovieCodePrompt => "movie_code"
  }

  /** The `data` object written with each state; the starting states carry none. */
  function Data(s: FlowState): Option<Payload> {
    match s
    case WithdrawAmount => None
    case WithdrawCardType(a) => Some(map["amount" := Num(a)])
    case WithdrawCardNumber(a, t) => Some(map["amount" := Num(a), "card_type" := Text(t)])
    case UcAmount => None
    case UcConfirm(u, c) => Some(map["uc_amount" := Num(u), "fx_cost" := Num(c)])
    case MovieCodePrompt => None
  }

  function NumberField(data: Option<Payload>, key: string): Option<int> {
    if data.Some? && key in data.value && data.value[key].Num? then Some(data.value[key].n) else None
  }

  function TextField(data: Option<Payload>, key: string): Option<string> {
    if data.Some? && key in data.value && data.value[key].Text? then Some(data.value[key].s) else None
  }

  /**
   * The state a stored row stands for. `None` is the `default` branch of the
   * switch: a name no handler writes, or a row whose data lacks the fields its
   * state needs.
   */
  function Decode(row: StoredState): (r: Option<FlowState>)
    ensures r.Some? ==> Name(r.value) == row.name
  {
    var d := row.data;
    if row.name == "withdraw_amount" then Some(WithdrawAmount)
    else if row.name == "withdraw_card_type" then
      if NumberField(d, "amount").Some? then Some(WithdrawCardType(NumberField(d, "amount").value)) else None
    else if row.name == "withdraw_card_number" then
      if NumberField(d, "amount").Some? && TextField(d, "card_type").Some?
      then Some(WithdrawCardNumber(NumberField(d, "amount").value, TextField(d, "card_type").value))
      else None
    else if row.name == "uc_amount" then Some(UcAmount)
    else if row.name == "uc_confirm" then
      if NumberField(d, "uc_amount").Some? && NumberField(d, "fx_cost").Some?
      then Some(UcConfirm(NumberField(d, "uc_amount").value, NumberField(d, "fx_cost").value))
      else None
    else if row.name == "movie_code" then Some(MovieCodePrompt)
    else None
  }

  /** Round trip: every state the handlers write reads back as itself. */
  lemma DecodeEncode(s: FlowState)
    ensures Decode(StoredState(Name(s), Data(s))) == Some(s)
  {
    match s
    case WithdrawCardNumber(a, t) =>
      assert NumberField(Data(s), "amount") == Some(a);
    case UcConfirm(u, c) =>
      assert NumberField(Data(s), "uc_amount") == Some(u);
    case _ =>
  }

  /** What the handler does with one text message in a state. */
  datatype Action =
    | Cancel
    | Reprompt
    | Advance(next: FlowState)
    | Abandon
    | CommitWithdraw(amount: int, cardType: string, cardNumber: string)
    | CommitUc(ucAmount: int, fxCost: int)
    | LookupMovie(code: string)

  /** The cancel keyword, compared after trimming and lower-casing. */
  predicate IsCancel(text: string) {
    Lower(Trim(text)) == "bekor qilish"
  }

  predicate IsCardType(t: string) {
    t == "UZCARD" || t == "HUMO"
  }

  predicate IsCardNumber(n: string) {
    |n| == 16 && AllDigits(n)
  }

  /**
   * The transition of `handleStateMessage` for state `s`, the message text
   * (empty when the message has none), the user's balance when the message
   * arrived and the resolved UC rate (`uc_fx_rate || 1`).
   */
  function Step(s: FlowState, text: string, balance: int, rate: int): (r: Action)
    ensures r.Advance? && s == WithdrawAmount ==> r.next.WithdrawCardType? && 0 < r.next.amount <= balance
    ensures r.Advance? && s.WithdrawCardType? ==>
      r.next.WithdrawCardNumber? && r.next.amount == s.amount && IsCardType(r.next.cardType)
    ensures r.Advance? && s == UcAmount ==> r.next.UcConfirm? && r.next.ucAmount > 0 && r.next.fxCost <= balance
    ensures r.CommitWithdraw? ==> s == WithdrawCardNumber(r.amount, r.cardType) && IsCardNumber(r.cardNumber)
    ensures r.CommitUc? ==> s == UcConfirm(r.ucAmount, r.fxCost)
    ensures r.LookupMovie? ==> s == MovieCodePrompt
    ensures r.Abandon? ==> s == UcAmount || s.UcConfirm?
  {
    var t := Trim(text);
    if IsCancel(text) then Cancel
    else match s
      case WithdrawAmount => AmountStep(t, balance)
      case WithdrawCardType(amount) => CardTypeStep(amount, t)
      case WithdrawCardNumber(amount, cardType) => CardNumberStep(amount, cardType, t)
      case UcAmount => UcAmountStep(t, balance, rate)
      case UcConfirm(ucAmount, fxCost) => UcConfirmStep(ucAmount, fxCost, t)
      case MovieCodePrompt => LookupMovie(t)
  }

  /** `withdraw_amount`: a positive whole amount within the balance moves on to the card type. */
  function AmountStep(t: string, balance: int): (r: Action)
    ensures r == Reprompt || r.Advance?
    ensures r.Advance? <==> ParseInt(t).Some? && 0 < ParseInt(t).value <= balance
    ensures r.Advance? ==> r.next == WithdrawCardType(ParseInt(t).value)
  {
    var a := ParseInt(t);
    if a.None? || a.value <= 0 then Reprompt
    else if a.value > balance then Reprompt
    else Advance(WithdrawCardType(a.value))
  }

  /** `withdraw_card_type`: UZCARD or HUMO in any letter case moves on, carrying the amount. */
  function CardTypeStep(amount: int, t: string): (r: Action)
    ensures r == Reprompt || r.Advance?
    ensures r.Advance? <==> IsCardType(Upper(t))
    ensures r.Advance? ==> r.next == WithdrawCardNumber(amount, Upper(t))
  {
    var c := Upper(t);
    if IsCardType(c) then Advance(WithdrawCardNumber(amount, c)) else Reprompt
  }

  /** `withdraw_card_number`: sixteen digits, white space ignored, commit the withdrawal. */
  function CardNumberStep(amount: int, cardType: string, t: string): (r: Action)
    ensures r == Reprompt || r.CommitWithdraw?
    ensures r.CommitWithdraw? <==> IsCardNumber(RemoveSpaces(t))
    ensures r.CommitWithdraw? ==> r == CommitWithdraw(amount, cardType, RemoveSpaces(t))
  {
    var raw := RemoveSpaces(t);
    if IsCardNumber(raw) then CommitWithdraw(amount, cardType, raw) else Reprompt
  }

  /** `uc_amount`: a positive whole amount priced at `rate`; an unaffordable order ends the conversation. */
  function UcAmountStep(t: string, balance: int, rate: int): (r: Action)
    ensures r == Reprompt || r == Abandon || r.Advance?
    ensures r == Reprompt <==> ParseInt(t).None? || ParseInt(t).value <= 0
    ensures r == Abandon <==> ParseInt(t).Some? && ParseInt(t).value > 0 && balance < ParseInt(t).value * rate
    ensures r.Advance? ==> r.next == UcConfirm(ParseInt(t).value, ParseInt(t).value * rate)
  {
    var u := ParseInt(t);
    if u.None? || u.value <= 0 then Reprompt
    else if balance < u.value * rate then Abandon
    else Advance(UcConfirm(u.value, u.value * rate))
  }

  /** `uc_confirm`: `ha` commits the order, `yoq` drops it, anything else asks again. */
  function UcConfirmStep(ucAmount: int, fxCost: int, t: string): (r: Action)
    ensures r == CommitUc(ucAmount, fxCost) <==> Lower(t) == "ha"
    ensures r == Abandon <==> Lower(t) == "yoq"
    ensures r == Reprompt <==> Lower(t) != "ha" && Lower(t) != "yoq"
  {
    var answer := Lower(t);
    if answer == "ha" then CommitUc(ucAmount, fxCost)
    else if answer == "yoq" then Abandon
    else Reprompt
  }

  /** The cancel keyword ends every active state, whatever the data collected. */
  lemma CancelFromAnyState(s: FlowState, text: string, balance: int, rate: int)
    requires IsCancel(text)
    ensures Step(s, text, balance, rate) == Cancel
  {
  }

  /** The data a withdrawal commits are the data collected along the way. */
  predicate GoodState(s: FlowState, balance: int) {
    match s
    case WithdrawCardType(a) => 0 < a <= balance
    case WithdrawCardNumber(a, t) => 0 < a <= balance && IsCardType(t)
    case UcConfirm(u, c) => u > 0 && c <= balance
    case _ => true
  }

  /**
   * Every state reached from a good state by one message is good again, so a
   * withdrawal always commits a positive amount within the balance and a
   * valid card type, and a UC order a cost within the balance.
   */
  lemma StepKeepsGoodState(s: FlowState, text: string, balance: int, rate: int)
    requires GoodState(s, balance)
    ensures Step(s, text, balance, rate).Advance? ==> GoodState(Step(s, text, balance, rate).next, balance)
    ensures Step(s, text, balance, rate).CommitWithdraw? ==>
      var r := Step(s, text, balance, rate); 0 < r.amount <= balance && IsCardType(r.cardType) && IsCardNumber(r.cardNumber)
    ensures Step(s, text, balance, rate).CommitUc? ==> Step(s, text, balance, rate).fxCost <= balance
  {
  }

  /** A message that is not a positive integer leaves the withdrawal amount prompt in place. */
  lemma BadAmountReprompts(text: string, balance: int, rate: int)
    requires !IsCancel(text)
    requires ParseInt(Trim(text)).None? || ParseInt(Trim(text)).value <= 0
    ensures Step(WithdrawAmount, text, balance, rate) == Reprompt
  {
  }

  /** A message that is not a positive integer leaves the UC amount prompt in place. */
  lemma BadUcAmountReprompts(text: string, balance: int, rate: int)
    requires !IsCancel(text)
    requires ParseInt(Trim(text)).None? || ParseInt(Trim(text)).value <= 0
    ensures Step(UcAmount, text, balance, rate) == Reprompt
  {
  }

  /** Card types are accepted in any letter case and stored in capitals. */
  lemma CardTypeIgnoresCase(amount: int)
    ensures CardTypeStep(amount, "humo") == Advance(WithdrawCardNumber(amount, "HUMO"))
  {
    var u := Upper("humo");
    assert u[0] == 'H' && u[1] == 'U' && u[2] == 'M' && u[3] == 'O';
    assert u == "HUMO";
  }

  /** A UC order the balance cannot cover ends the conversation instead of asking again. */
  lemma UnaffordableUcAbandons(text: string, balance: int, rate: int)
    requires !IsCancel(text)
    requires ParseInt(Trim(text)).Some? && ParseInt(Trim(text)).value > 0
    requires balance < ParseInt(Trim(text)).value * rate
    ensures Step(UcAmount, text, balance, rate) == Abandon
  {
  }

  /** Where the `try` block of a terminal step stops, if it does. */
  datatype Fault = NoFault | DebitFails | CreateFails | NotifyFails

  /** The net change to the user's balance and whether a pending request was left behind. */
  datatype Effect = Effect(balanceDelta: int, recordCreated: bool)

  /**
   * A terminal step as index.js writes it: debit, create the request, notify;
   * the `catch` credits the amount back whatever failed.
   */
  function CommitAsWritten(amount: int, fault: Fault): (e: Effect)
    ensures e.recordCreated <==> fault == NoFault || fault == NotifyFails
    ensures fault != NoFault ==> e.balanceDelta == (if fault == DebitFails then amount else 0)
  {
    match fault
    case NoFault => Effect(-amount, true)
    case DebitFails => Effect(amount, false)
    case CreateFails => Effect(0, false)
    case NotifyFails => Effect(0, true)
  }

  /**
   * The money of a withdrawal or UC order is either back with the user or held
   * by the pending request, never both and never neither.
   */
  predicate Conserves(amount: int, e: Effect) {
    e.balanceDelta == (if e.recordCreated then -amount else 0)
  }

  /** A failed debit is still credited back: the user gains the amount from nothing. */
  lemma FailedDebitStillCredited(amount: int)
    requires amount > 0
    ensures CommitAsWritten(amount, DebitFails).balanceDelta == amount
    ensures !Conserves(amount, CommitAsWritten(amount, DebitFails))
  {
  }

  /**
   * A failed notification after the request exists restores the balance and
   * leaves the request pending; denying it later credits the amount a second
   * time, so the user ends up `amount` richer.
   */
  lemma NotifyFailureThenDenyDoubleCredits(amount: int)
    requires amount > 0
    ensures CommitAsWritten(amount, NotifyFails).recordCreated
    ensures CommitAsWritten(amount, NotifyFails).balanceDelta + amount == amount
    ensures !Conserves(amount, CommitAsWritten(amount, NotifyFails))
  {
  }

  /**
   * The terminal step with the compensation the `catch` evidently intends:
   * credit back only a debit that happened and is not held by a request.
   */
  function Commit(amount: int, fault: Fault): (e: Effect)
    ensures e.recordCreated <==> fault == NoFault || fault == NotifyFails
  {
    match fault
    case NoFault => Effect(-amount, true)
    case DebitFails => Effect(0, false)
    case CreateFails => Effect(0, false)
    case NotifyFails => Effect(-amount, true)
  }

  /** Whatever fails, the corrected step conserves the money; a later deny restores exactly the balance. */
  lemma CommitConserves(amount: int, fault: Fault)
    ensures Conserves(amount, Commit(amount, fault))
    ensures Commit(amount, fault).recordCreated ==> Commit(amount, fault).balanceDelta + amount == 0
  {
  }

  /** The two agree whenever nothing fails or the request could not be created. */
  lemma CommitAgreesWithoutLeftovers(amount: int, fault: Fault)
    requires fault == NoFault || fault == CreateFails
    ensures Commit(amount, fault) == CommitAsWritten(amount, fault)
  {
  }
}
