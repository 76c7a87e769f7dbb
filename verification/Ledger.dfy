/** The wallet ledger as transactions over the users, wallet rows and referral payouts. */
module Ledger {
  import opened Basics

  const MAX_AMOUNT := 100_000_000
  const RESET_ATTEMPTS := 5

  datatype User = User(balance: int, pro: bool)

  /** A row of `wallet_transactions`. */
  datatype Row = Row(
    user: int, kind: string, amount: int, balanceAfter: int,
    price: Option<int>, actor: Option<int>, reference: Option<string>
  )

  datatype Payout = Payout(inviter: int, amount: int)

  /** What a payment order says of its bonus. */
  datatype Bonus = Bonus(percent: int, amount: int)

  datatype Db = Db(users: map<int, User>, rows: seq<Row>, payouts: map<int, Payout>, orders: map<string, Bonus>)

  datatype Outcome =
    | Ok(balanceAfter: int, amount: int)
    | Nothing                                         // a referral that pays nobody
    | UserNotFound
    | InsufficientBalance(required: int, balance: int)
    | AlreadyPro
    | BadValue                                        // ValueError
    | Duplicate                                       // IntegrityError on (kind, reference)
    | KeptChanging

  predicate Succeeded(o: Outcome) { o.Ok? || o.Nothing? }

  predicate KnownKind(kind: string) {
    || kind == "pro_activation" || kind == "referral_reward" || kind == "admin_credit" || kind == "admin_reset"
    || kind == "adjustment" || kind == "topup" || kind == "topup_bonus"
  }

  predicate AmountInBounds(amount: int) { -MAX_AMOUNT <= amount <= MAX_AMOUNT }

  /** References are stored cut to 200 characters. */
  function Stored(reference: Option<string>): Option<string> {
    if reference.Some? && |reference.value| > 200 then Some(reference.value[..200]) else reference
  }

  predicate Taken(rows: seq<Row>, kind: string, reference: Option<string>) {
    reference.Some? && exists i :: 0 <= i < |rows| && rows[i].kind == kind && rows[i].reference == reference
  }

  /** The row as `_insert_tx` stores it; Duplicate keeps the table. */
  function Insert(db: Db, row: Row): (Db, Outcome) {
    var stored := row.(reference := Stored(row.reference));
    if Taken(db.rows, stored.kind, stored.reference) then (db, Duplicate)
    else (db.(rows := db.rows + [stored]), Ok(stored.balanceAfter, stored.amount))
  }

  function WithUser(db: Db, user: int, now: User): Db { db.(users := db.users[user := now]) }

  /** Runs inside the caller's transaction: after an error the caller rolls back. */
  function ApplyBalanceChange(db: Db, user: int, amount: int, kind: string, actor: Option<int>,
                              requireSufficient: bool, reference: Option<string>): (Db, Outcome)
  {
    if !AmountInBounds(amount) || !KnownKind(kind) then (db, BadValue)
    else if user !in db.users then (db, UserNotFound)
    else
      var was := db.users[user];
      if requireSufficient && amount < 0 && was.balance < -amount then (db, InsufficientBalance(-amount, was.balance))
      else
        var after := was.balance + amount;
        Insert(WithUser(db, user, was.(balance := after)), Row(user, kind, amount, after, None, actor, reference))
  }

  function ProRow(user: int, price: int, after: int): Row {
    Row(user, "pro_activation", -price, after, Some(price), None, None)
  }

  function ActivatePro(db: Db, user: int, price: int): (Db, Outcome) {
    if !AmountInBounds(price) || price < 0 then (db, BadValue)
    else if user !in db.users then (db, UserNotFound)
    else
      var was := db.users[user];
      if was.pro then (db, AlreadyPro)
      else if was.balance < price then (db, InsufficientBalance(price, was.balance))
      else
        var after := was.balance - price;
        Insert(WithUser(db, user, User(after, true)), ProRow(user, price, after))
  }

  /** One round of `reset_user` whose read is up to date. */
  function ResetNow(db: Db, user: int, actor: Option<int>): (Db, Outcome) {
    if user !in db.users then (db, UserNotFound)
    else
      var balance := db.users[user].balance;
      var reset := WithUser(db, user, User(0, false));
      if !AmountInBounds(-balance) then (reset, BadValue)
      else Insert(reset, Row(user, "admin_reset", -balance, 0, None, actor, None))
  }

  /** The admin's switch: the flag, then a zero row for the record. */
  function SetPro(db: Db, user: int, enabled: bool, actor: int): (Db, Outcome) {
    if user !in db.users then (db, UserNotFound)
    else ApplyBalanceChange(WithUser(db, user, db.users[user].(pro := enabled)), user, 0, "adjustment", Some(actor),
        false, None)
  }

  /** `payment_bonus_amount` */
  function BonusAmount(amount: int, percent: int): (bonus: nat)
    ensures bonus > 0 ==> amount > 0 && 1 <= percent <= 50
  {
    if amount <= 0 || percent <= 0 || percent > 50 then 0 else amount * percent / 100
  }

  function BonusReference(order: string): string { "payment-bonus:" + order }

  /** The top-up, then the bonus under a savepoint; the last part is the bonus that was paid. */
  function CreditWithBonus(db: Db, user: int, amount: int, reference: string, bonus: nat, order: string)
    : (Db, Outcome, nat)
  {
    var (credited, outcome) := ApplyBalanceChange(db, user, amount, "topup", None, false, Some(reference));
    if !outcome.Ok? || bonus == 0 then (credited, outcome, 0)
    else
      var (extra, bonusOutcome) :=
        ApplyBalanceChange(credited, user, bonus, "topup_bonus", None, false, Some(BonusReference(order)));
      if bonusOutcome.Duplicate? then (credited, outcome, 0) else (extra, bonusOutcome, bonus)
  }

  /** `credit_topup` of a settled payment; the order remembers the bonus. */
  function CreditTopup(db: Db, user: int, amount: int, reference: string, percent: int, order: string): (Db, Outcome) {
    var (after, outcome, paid) := CreditWithBonus(db, user, amount, reference, BonusAmount(amount, percent), order);
    if !outcome.Ok? || order !in after.orders then (after, outcome)
    else (after.(orders := after.orders[order := Bonus(if paid > 0 then percent else 0, paid)]), outcome)
  }

  /** The bot's payout; `logged` is whether its ledger row could be written. */
  function PayReferral(db: Db, invitee: int, inviter: int, reward: int, logged: bool): (Db, Outcome) {
    if inviter !in db.users || reward <= 0 || invitee in db.payouts then (db, Nothing)
    else
      var after := db.users[inviter].balance + reward;
      var paid := WithUser(db, inviter, db.users[inviter].(balance := after))
                    .(payouts := db.payouts[invitee := Payout(inviter, reward)]);
      (if logged then Insert(paid, Row(inviter, "referral_reward", reward, after, None, Some(invitee), None)).0
          else paid,
       Ok(after, reward))
  }

  // ---------------------------------------------------------------- transactions

  datatype Op =
    | Change(user: int, amount: int, kind: string, actor: Option<int>, requireSufficient: bool,
        reference: Option<string>)
    | Activate(user: int, price: int)
    | Reset(user: int, actor: Option<int>)
    | SwitchPro(user: int, enabled: bool, admin: int)
    | TopUp(user: int, amount: int, payment: string, percent: int, order: string)
    | NewOrder(order: string)
    | Referral(invitee: int, inviter: int, reward: int, logged: bool)
    | NewUser(user: int)

  function Attempt(db: Db, op: Op): (Db, Outcome) {
    match op
    case Change(user, amount, kind, actor, sufficient, reference) =>
      ApplyBalanceChange(db, user, amount, kind, actor, sufficient, reference)
    case Activate(user, price) => ActivatePro(db, user, price)
    case Reset(user, actor) => ResetNow(db, user, actor)
    case SwitchPro(user, enabled, admin) => SetPro(db, user, enabled, admin)
    case TopUp(user, amount, payment, percent, order) => CreditTopup(db, user, amount, payment, percent, order)
    case NewOrder(order) =>
      (if order in db.orders then db else db.(orders := db.orders[order := Bonus(0, 0)]), Nothing)
    case Referral(invitee, inviter, reward, logged) => PayReferral(db, invitee, inviter, reward, logged)
    case NewUser(user) => (if user in db.users then db else WithUser(db, user, User(0, false)), Nothing)
  }

  /** What the transaction leaves: its changes, or nothing after an error. */
  function Committed(db: Db, op: Op): Db {
    var (after, outcome) := Attempt(db, op);
    if Succeeded(outcome) then after else db
  }

  function Run(db: Db, ops: seq<Op>): Db
    decreases |ops|
  {
    if ops == [] then db else Run(Committed(db, ops[0]), ops[1..])
  }

  const Empty := Db(map[], [], map[], map[])

  // ---------------------------------------------------------------- balances and rows

  function Balance(db: Db, user: int): int { if user in db.users then db.users[user].balance else 0 }

  function RowSum(rows: seq<Row>, user: int): int {
    if rows == [] then 0
    else RowSum(rows[..|rows| - 1], user) + if rows[|rows| - 1].user == user then rows[|rows| - 1].amount else 0
  }

  lemma RowSumAppend(rows: seq<Row>, row: Row, user: int)
    ensures RowSum(rows + [row], user) == RowSum(rows, user) + if row.user == user then row.amount else 0
  {
    assert (rows + [row])[..|rows|] == rows;
  }

  /** Money on the balance that no row accounts for. */
  function Gap(db: Db, user: int): int { Balance(db, user) - RowSum(db.rows, user) }

  /** What a payout without a ledger row puts on `user`'s balance. */
  function Unlogged(db: Db, op: Op, user: int): nat {
    if op.Referral? && !op.logged && op.inviter == user && Attempt(db, op).1.Ok? && op.reward > 0 then op.reward else 0
  }

  function UnloggedTotal(db: Db, ops: seq<Op>, user: int): nat
    decreases |ops|
  {
    if ops == [] then 0 else Unlogged(db, ops[0], user) + UnloggedTotal(Committed(db, ops[0]), ops[1..], user)
  }

  lemma InsertGap(db: Db, row: Row, user: int)
    requires Insert(db, row).1.Ok?
    ensures Gap(Insert(db, row).0, user) == Gap(db, user) - if row.user == user then row.amount else 0
  {
    RowSumAppend(db.rows, row.(reference := Stored(row.reference)), user);
  }

  lemma ChangeGap(db: Db, user: int, amount: int, kind: string, actor: Option<int>, sufficient: bool,
                  reference: Option<string>, who: int)
    requires ApplyBalanceChange(db, user, amount, kind, actor, sufficient, reference).1.Ok?
    ensures Gap(ApplyBalanceChange(db, user, amount, kind, actor, sufficient, reference).0, who) == Gap(db, who)
  {
    var after := db.users[user].balance + amount;
    InsertGap(WithUser(db, user, db.users[user].(balance := after)),
        Row(user, kind, amount, after, None, actor, reference), who);
  }

  lemma ActivateGap(db: Db, user: int, price: int, who: int)
    requires ActivatePro(db, user, price).1.Ok?
    ensures Gap(ActivatePro(db, user, price).0, who) == Gap(db, who)
  {
    var after := db.users[user].balance - price;
    InsertGap(WithUser(db, user, User(after, true)), ProRow(user, price, after), who);
  }

  lemma ResetGap(db: Db, user: int, actor: Option<int>, who: int)
    requires ResetNow(db, user, actor).1.Ok?
    ensures Gap(ResetNow(db, user, actor).0, who) == Gap(db, who)
  {
    var balance := db.users[user].balance;
    InsertGap(WithUser(db, user, User(0, false)), Row(user, "admin_reset", -balance, 0, None, actor, None), who);
  }

  lemma SwitchGap(db: Db, user: int, enabled: bool, admin: int, who: int)
    requires SetPro(db, user, enabled, admin).1.Ok?
    ensures Gap(SetPro(db, user, enabled, admin).0, who) == Gap(db, who)
  {
    var switched := WithUser(db, user, db.users[user].(pro := enabled));
    ChangeGap(switched, user, 0, "adjustment", Some(admin), false, None, who);
  }

  lemma GapStep(db: Db, op: Op, who: int)
    ensures Gap(Committed(db, op), who) == Gap(db, who) + Unlogged(db, op, who)
  {
    if !Attempt(db, op).1.Ok? {
      return;
    }
    match op {
      case Change(user, amount, kind, actor, sufficient, reference) =>
        ChangeGap(db, user, amount, kind, actor, sufficient, reference, who);
      case Activate(user, price) => ActivateGap(db, user, price, who);
      case Reset(user, actor) => ResetGap(db, user, actor, who);
      case SwitchPro(user, enabled, admin) => SwitchGap(db, user, enabled, admin, who);
      case TopUp(user, amount, payment, percent, order) => TopUpGap(db, user, amount, payment, percent, order, who);
      case Referral(invitee, inviter, reward, logged) => ReferralGap(db, invitee, inviter, reward, logged, who);
      case NewUser(_) =>
      case NewOrder(_) =>
    }
  }

  lemma TopUpGap(db: Db, user: int, amount: int, payment: string, percent: int, order: string, who: int)
    requires CreditTopup(db, user, amount, payment, percent, order).1.Ok?
    ensures Gap(CreditTopup(db, user, amount, payment, percent, order).0, who) == Gap(db, who)
  {
    var bonus := BonusAmount(amount, percent);
    ChangeGap(db, user, amount, "topup", None, false, Some(payment), who);
    var credited := ApplyBalanceChange(db, user, amount, "topup", None, false, Some(payment)).0;
    var reference := Some(BonusReference(order));
    if bonus > 0 && ApplyBalanceChange(credited, user, bonus, "topup_bonus", None, false, reference).1.Ok? {
      ChangeGap(credited, user, bonus, "topup_bonus", None, false, reference, who);
    }
  }

  lemma ReferralGap(db: Db, invitee: int, inviter: int, reward: int, logged: bool, who: int)
    requires PayReferral(db, invitee, inviter, reward, logged).1.Ok?
    ensures Gap(PayReferral(db, invitee, inviter, reward, logged).0, who)
         == Gap(db, who) + if !logged && who == inviter then reward else 0
  {
    var after := db.users[inviter].balance + reward;
    var paid := WithUser(db, inviter, db.users[inviter].(balance := after))
                  .(payouts := db.payouts[invitee := Payout(inviter, reward)]);
    var row := Row(inviter, "referral_reward", reward, after, None, Some(invitee), None);
    assert Insert(paid, row).1.Ok?;
    InsertGap(paid, row, who);
  }

  /** Over every run, a balance is the sum of the user's rows plus exactly what unlogged payouts paid. */
  lemma {:induction false} BalanceIsRowsPlusUnlogged(db: Db, ops: seq<Op>, user: int)
    ensures Gap(Run(db, ops), user) == Gap(db, user) + UnloggedTotal(db, ops, user)
    decreases |ops|
  {
    if ops != [] {
      GapStep(db, ops[0], user);
      BalanceIsRowsPlusUnlogged(Committed(db, ops[0]), ops[1..], user);
    }
  }

  /** From a zero start the rows add up to the balance exactly if no payout to the user went unlogged. */
  lemma RowsAddUpToTheBalance(ops: seq<Op>, user: int)
    ensures Balance(Run(Empty, ops), user) == RowSum(Run(Empty, ops).rows, user)
            <==> UnloggedTotal(Empty, ops, user) == 0
  {
    BalanceIsRowsPlusUnlogged(Empty, ops, user);
  }

  // ---------------------------------------------------------------- prefix sums

  predicate PrefixSums(rows: seq<Row>) {
    forall i :: 0 <= i < |rows| ==> rows[i].balanceAfter == RowSum(rows[..i + 1], rows[i].user)
  }

  ghost predicate Reconciled(db: Db) { PrefixSums(db.rows) && forall user :: Gap(db, user) == 0 }

  predicate Logged(ops: seq<Op>) { forall op :: op in ops && op.Referral? ==> op.logged }

  /** A row that states the balance its change produced extends the prefix sums. */
  lemma AppendKeepsPrefixSums(rows: seq<Row>, row: Row)
    requires PrefixSums(rows) && row.balanceAfter == RowSum(rows, row.user) + row.amount
    ensures PrefixSums(rows + [row])
  {
    RowSumAppend(rows, row, row.user);
    var longer := rows + [row];
    forall i | 0 <= i < |longer|
      ensures longer[i].balanceAfter == RowSum(longer[..i + 1], longer[i].user)
    {
      if i < |rows| {
        assert longer[..i + 1] == rows[..i + 1];
      } else {
        assert longer[..i + 1] == longer;
      }
    }
  }

  lemma InsertPrefix(db: Db, row: Row, balance: int)
    requires PrefixSums(db.rows) && RowSum(db.rows, row.user) == balance && row.balanceAfter == balance + row.amount
    ensures PrefixSums(Insert(db, row).0.rows)
  {
    AppendKeepsPrefixSums(db.rows, row.(reference := Stored(row.reference)));
  }

  lemma ChangePrefix(db: Db, user: int, amount: int, kind: string, actor: Option<int>, sufficient: bool,
      reference: Option<string>)
    requires PrefixSums(db.rows) && Gap(db, user) == 0
    ensures PrefixSums(ApplyBalanceChange(db, user, amount, kind, actor, sufficient, reference).0.rows)
  {
    if user in db.users {
      var after := db.users[user].balance + amount;
      InsertPrefix(WithUser(db, user, db.users[user].(balance := after)),
                   Row(user, kind, amount, after, None, actor, reference), Balance(db, user));
    }
  }

  lemma ActivatePrefix(db: Db, user: int, price: int)
    requires PrefixSums(db.rows) && Gap(db, user) == 0 && ActivatePro(db, user, price).1.Ok?
    ensures PrefixSums(ActivatePro(db, user, price).0.rows)
  {
    var after := db.users[user].balance - price;
    InsertPrefix(WithUser(db, user, User(after, true)), ProRow(user, price, after), Balance(db, user));
  }

  lemma ResetPrefix(db: Db, user: int, actor: Option<int>)
    requires PrefixSums(db.rows) && Gap(db, user) == 0 && ResetNow(db, user, actor).1.Ok?
    ensures PrefixSums(ResetNow(db, user, actor).0.rows)
  {
    var balance := db.users[user].balance;
    InsertPrefix(WithUser(db, user, User(0, false)), Row(user, "admin_reset", -balance, 0, None, actor, None), balance);
  }

  lemma TopUpPrefix(db: Db, user: int, amount: int, payment: string, percent: int, order: string)
    requires PrefixSums(db.rows) && Gap(db, user) == 0
    requires CreditTopup(db, user, amount, payment, percent, order).1.Ok?
    ensures PrefixSums(CreditTopup(db, user, amount, payment, percent, order).0.rows)
  {
    ChangePrefix(db, user, amount, "topup", None, false, Some(payment));
    ChangeGap(db, user, amount, "topup", None, false, Some(payment), user);
    var credited := ApplyBalanceChange(db, user, amount, "topup", None, false, Some(payment)).0;
    ChangePrefix(credited, user, BonusAmount(amount, percent), "topup_bonus", None, false, Some(BonusReference(order)));
  }

  lemma ReferralPrefix(db: Db, invitee: int, inviter: int, reward: int, logged: bool)
    requires PrefixSums(db.rows) && Gap(db, inviter) == 0 && PayReferral(db, invitee, inviter, reward, logged).1.Ok?
    ensures PrefixSums(PayReferral(db, invitee, inviter, reward, logged).0.rows)
  {
    var after := db.users[inviter].balance + reward;
    var paid := WithUser(db, inviter, db.users[inviter].(balance := after))
                  .(payouts := db.payouts[invitee := Payout(inviter, reward)]);
    InsertPrefix(paid, Row(inviter, "referral_reward", reward, after, None, Some(invitee), None), Balance(db, inviter));
  }

  lemma PrefixStep(db: Db, op: Op)
    requires Reconciled(db)
    ensures PrefixSums(Committed(db, op).rows)
  {
    if !Attempt(db, op).1.Ok? {
      return;
    }
    assert !op.NewUser? && !op.NewOrder?;
    assert Gap(db, if op.Referral? then op.inviter else op.user) == 0;
    match op {
      case Change(user, amount, kind, actor, sufficient, reference) =>
        ChangePrefix(db, user, amount, kind, actor, sufficient, reference);
      case Activate(user, price) => ActivatePrefix(db, user, price);
      case Reset(user, actor) => ResetPrefix(db, user, actor);
      case SwitchPro(user, enabled, admin) =>
        ChangePrefix(WithUser(db, user, db.users[user].(pro := enabled)), user, 0, "adjustment", Some(admin), false,
            None);
      case TopUp(user, amount, payment, percent, order) => TopUpPrefix(db, user, amount, payment, percent, order);
      case Referral(invitee, inviter, reward, logged) => ReferralPrefix(db, invitee, inviter, reward, logged);
      case NewUser(_) =>
      case NewOrder(_) =>
    }
  }

  /** Every run with logged payouts keeps balances equal to row sums and each `balance_after` the prefix sum. */
  lemma {:induction false} RunsStayReconciled(db: Db, ops: seq<Op>)
    requires Reconciled(db) && Logged(ops)
    ensures Reconciled(Run(db, ops))
    decreases |ops|
  {
    if ops != [] {
      assert ops[0] in ops;
      PrefixStep(db, ops[0]);
      forall user
        ensures Gap(Committed(db, ops[0]), user) == 0
      {
        GapStep(db, ops[0], user);
      }
      RunsStayReconciled(Committed(db, ops[0]), ops[1..]);
    }
  }

  // ---------------------------------------------------------------- refusals

  /** A reference keeps its first 200 characters. */
  lemma StoredIsAPrefix(s: string)
    ensures Stored(None) == None
    ensures Stored(Some(s)).Some? && Stored(Some(s)).value <= s
    ensures |Stored(Some(s)).value| == if |s| > 200 then 200 else |s|
  {
  }

  /** A refusal by the ledger itself has written nothing, even before any rollback; a success moves one balance by
      the amount asked, never below zero when the funds had to be there, and appends the row that says so. */
  lemma RefusalsWriteNothing(db: Db, user: int, amount: int, kind: string, actor: Option<int>, sufficient: bool,
                             reference: Option<string>)
    ensures var (after, outcome) := ApplyBalanceChange(db, user, amount, kind, actor, sufficient, reference);
            && (outcome.UserNotFound? || outcome.InsufficientBalance? || outcome.BadValue? ==> after == db)
            && (outcome.InsufficientBalance? <==>
                  && AmountInBounds(amount) && KnownKind(kind) && user in db.users && sufficient
                  && Balance(db, user) + amount < 0 && amount < 0)
            && (outcome.Ok? ==>
                  && Balance(after, user) == outcome.balanceAfter == Balance(db, user) + amount
                  && (sufficient && amount < 0 ==> outcome.balanceAfter >= 0)
                  && (forall who :: who != user ==> Balance(after, who) == Balance(db, who))
                  && after.payouts == db.payouts && after.orders == db.orders
                  && after.users == db.users[user := User(Balance(db, user) + amount, db.users[user].pro)]
                  && after.rows
                     == db.rows
                        + [Row(user, kind, amount, Balance(db, user) + amount, None, actor, Stored(reference))])
            && (outcome.BadValue? <==>
                  || amount < -100_000_000 || amount > 100_000_000
                  || kind !in {"pro_activation", "referral_reward", "admin_credit", "admin_reset", "adjustment",
                               "topup", "topup_bonus"})
            && (outcome.UserNotFound? <==> !outcome.BadValue? && user !in db.users)
            && (outcome.Duplicate? <==>
                  && !outcome.BadValue? && !outcome.UserNotFound? && !outcome.InsufficientBalance?
                  && reference != None
                  && exists i :: 0 <= i < |db.rows| && db.rows[i].kind == kind
                                 && db.rows[i].reference == Stored(reference))
            && (outcome.Ok? || outcome.Duplicate? || after == db)
  {
  }

  /** Pro is bought exactly by a known user without Pro who can pay; otherwise nothing is written. */
  lemma ActivationCharges(db: Db, user: int, price: int)
    ensures var (after, outcome) := ActivatePro(db, user, price);
            && (outcome.Ok? <==>
                  0 <= price <= MAX_AMOUNT && user in db.users && !IsPro(db, user) && Balance(db, user) >= price)
            && (outcome.Ok? ==> IsPro(after, user) && Balance(after, user) == Balance(db, user) - price >= 0)
            && (!outcome.Ok? ==> after == db)
            && (outcome.AlreadyPro? ==> IsPro(db, user))
            && (outcome.Ok? ==>
                  after == db.(users := db.users[user := User(Balance(db, user) - price, true)],
                               rows := db.rows + [Row(user, "pro_activation", -price, Balance(db, user) - price,
                                                      Some(price), None, None)]))
            && (forall who :: who != user ==>
                  Balance(after, who) == Balance(db, who) && IsPro(after, who) == IsPro(db, who))
  {
  }

  /** A reset succeeds exactly for a known user whose balance is within the amount guard. */
  lemma ResetNeedsBoundedBalance(db: Db, user: int, actor: Option<int>)
    ensures ResetNow(db, user, actor).1.Ok? <==> user in db.users && AmountInBounds(Balance(db, user))
    ensures var after := Committed(db, Reset(user, actor));
            && (user in db.users && AmountInBounds(Balance(db, user)) ==>
                  && Balance(after, user) == 0 && !after.users[user].pro
                  && after == db.(users := db.users[user := User(0, false)],
                                  rows := db.rows
                                          + [Row(user, "admin_reset", -Balance(db, user), 0, None, actor, None)]))
            && (!(user in db.users && AmountInBounds(Balance(db, user))) ==> after == db)
  {
  }

  /** The admin's switch sets the flag of a known user, moves no money, and leaves a row of zero. */
  lemma SwitchIsRecorded(db: Db, user: int, enabled: bool, admin: int)
    ensures Committed(db, SwitchPro(user, enabled, admin))
         == if user !in db.users then db
            else db.(users := db.users[user := User(Balance(db, user), enabled)],
                     rows := db.rows + [Row(user, "adjustment", 0, Balance(db, user), None, Some(admin), None)])
  {
  }

  /** The bonus is the whole part of its percentage, and none outside of 1 to 50 percent. */
  lemma BonusIsThePercentage(amount: int, percent: int)
    ensures amount > 0 && 1 <= percent <= 50 ==>
      100 * BonusAmount(amount, percent) <= amount * percent < 100 * (BonusAmount(amount, percent) + 1)
    ensures amount <= 0 || percent < 1 || percent > 50 ==> BonusAmount(amount, percent) == 0
  {
  }

  /** A referral pays a known inviter a positive reward, unless the invitee was paid for; it is remembered, and has a
      row if one could be written. */
  lemma ReferralPays(db: Db, invitee: int, inviter: int, reward: int, logged: bool)
    ensures var (after, outcome) := PayReferral(db, invitee, inviter, reward, logged);
            && (outcome.Ok? <==> inviter in db.users && reward > 0 && invitee !in db.payouts)
            && (!outcome.Ok? ==> outcome == Nothing && after == db)
            && (outcome.Ok? ==>
                  var balance := Balance(db, inviter) + reward;
                  after == db.(users := db.users[inviter := User(balance, db.users[inviter].pro)],
                               payouts := db.payouts[invitee := Payout(inviter, reward)],
                               rows := db.rows
                                 + if !logged then []
                                   else [Row(inviter, "referral_reward", reward, balance, None, Some(invitee), None)]))
  {
  }

  // ---------------------------------------------------------------- rows are immutable, references unique

  predicate ReferencesUnique(rows: seq<Row>) {
    forall i, j :: 0 <= i < j < |rows| && rows[i].reference.Some? ==>
      !(rows[i].kind == rows[j].kind && rows[i].reference == rows[j].reference)
  }

  lemma InsertUnique(db: Db, row: Row)
    requires ReferencesUnique(db.rows)
    ensures ReferencesUnique(Insert(db, row).0.rows) && db.rows <= Insert(db, row).0.rows
  {
  }

  ghost predicate Extends(before: Db, after: Db) { before.rows <= after.rows && ReferencesUnique(after.rows) }

  lemma ChangeExtends(db: Db, user: int, amount: int, kind: string, actor: Option<int>, sufficient: bool,
      reference: Option<string>)
    requires ReferencesUnique(db.rows)
    ensures Extends(db, ApplyBalanceChange(db, user, amount, kind, actor, sufficient, reference).0)
  {
    if user in db.users {
      var after := db.users[user].balance + amount;
      InsertUnique(WithUser(db, user, db.users[user].(balance := after)),
          Row(user, kind, amount, after, None, actor, reference));
    }
  }

  lemma ExtendsStep(db: Db, op: Op)
    requires ReferencesUnique(db.rows)
    ensures Extends(db, Committed(db, op))
  {
    if !Attempt(db, op).1.Ok? {
      return;
    }
    match op {
      case Change(user, amount, kind, actor, sufficient, reference) =>
        ChangeExtends(db, user, amount, kind, actor, sufficient, reference);
      case Activate(user, price) =>
        var after := db.users[user].balance - price;
        InsertUnique(WithUser(db, user, User(after, true)), ProRow(user, price, after));
      case Reset(user, actor) =>
        var balance := db.users[user].balance;
        InsertUnique(WithUser(db, user, User(0, false)), Row(user, "admin_reset", -balance, 0, None, actor, None));
      case SwitchPro(user, enabled, admin) =>
        ChangeExtends(WithUser(db, user, db.users[user].(pro := enabled)), user, 0, "adjustment", Some(admin), false,
            None);
      case TopUp(user, amount, payment, percent, order) =>
        ChangeExtends(db, user, amount, "topup", None, false, Some(payment));
        var credited := ApplyBalanceChange(db, user, amount, "topup", None, false, Some(payment)).0;
        ChangeExtends(credited, user, BonusAmount(amount, percent), "topup_bonus", None, false,
            Some(BonusReference(order)));
      case Referral(invitee, inviter, reward, logged) =>
        var after := db.users[inviter].balance + reward;
        var paid := WithUser(db, inviter, db.users[inviter].(balance := after))
                      .(payouts := db.payouts[invitee := Payout(inviter, reward)]);
        InsertUnique(paid, Row(inviter, "referral_reward", reward, after, None, Some(invitee), None));
      case NewUser(_) =>
      case NewOrder(_) =>
    }
  }

  /** In every run rows are only appended and no two rows share a kind and a reference. */
  lemma {:induction false} RowsAreFinal(db: Db, ops: seq<Op>)
    requires ReferencesUnique(db.rows)
    ensures Extends(db, Run(db, ops))
    decreases |ops|
  {
    if ops != [] {
      ExtendsStep(db, ops[0]);
      RowsAreFinal(Committed(db, ops[0]), ops[1..]);
    }
  }

  /** Once a payment has its row, settling it again at any later time changes nothing. */
  lemma PaymentsCreditOnce(db: Db, before: Op, between: seq<Op>, again: Op)
    requires ReferencesUnique(db.rows) && before.TopUp? && again.TopUp? && Attempt(db, before).1.Ok?
    requires Stored(Some(again.payment)) == Stored(Some(before.payment))
    ensures Committed(Run(Committed(db, before), between), again) == Run(Committed(db, before), between)
  {
    ExtendsStep(db, before);
    RowsAreFinal(Committed(db, before), between);
    var first := ApplyBalanceChange(db, before.user, before.amount, "topup", None, false, Some(before.payment)).0;
    ChangeExtends(first, before.user, BonusAmount(before.amount, before.percent), "topup_bonus", None, false,
                  Some(BonusReference(before.order)));
    var n := |db.rows|;
    assert first.rows[n].kind == "topup" && first.rows[n].reference == Stored(Some(again.payment));
    var later := Run(Committed(db, before), between);
    assert later.rows[n] == first.rows[n];
    assert Taken(later.rows, "topup", Stored(Some(again.payment)));
  }

  /** A settled payment adds its amount and exactly the bonus its order then shows. */
  lemma TopUpAddsWhatTheOrderShows(db: Db, user: int, amount: int, payment: string, percent: int, order: string)
    requires order in db.orders && CreditTopup(db, user, amount, payment, percent, order).1.Ok?
    ensures var after := CreditTopup(db, user, amount, payment, percent, order).0;
            && order in after.orders && after.orders[order].amount in {0, BonusAmount(amount, percent)}
            && Balance(after, user) == Balance(db, user) + amount + after.orders[order].amount
            && after.orders[order].percent == (if after.orders[order].amount == 0 then 0 else percent)
            && (forall who :: who != user ==> Balance(after, who) == Balance(db, who))
            && TopUpRows(db, after, user, amount, payment, order)
  {
    var credited := Balance(db, user) + amount;
    assert ApplyBalanceChange(db, user, amount, "topup", None, false, Some(payment)).0.rows
        == db.rows + [Row(user, "topup", amount, credited, None, None, Stored(Some(payment)))];
  }

  /** What a settled payment appends: its row, and the row of the bonus that the order shows. Without one, either none
      was due or the order has had its bonus. */
  ghost predicate TopUpRows(db: Db, after: Db, user: int, amount: int, payment: string, order: string)
    requires order in after.orders
  {
    var credited, bonus := Balance(db, user) + amount, after.orders[order].amount;
    after.rows
    == db.rows + [Row(user, "topup", amount, credited, None, None, Stored(Some(payment)))]
       + if bonus == 0 then []
         else [Row(user, "topup_bonus", bonus, credited + bonus, None, None, Stored(Some("payment-bonus:" + order)))]
  }

  /** A due bonus is left out exactly when the order has one already. */
  lemma BonusOncePerOrder(db: Db, user: int, amount: int, payment: string, percent: int, order: string)
    requires order in db.orders && CreditTopup(db, user, amount, payment, percent, order).1.Ok?
    requires BonusAmount(amount, percent) > 0
    ensures CreditTopup(db, user, amount, payment, percent, order).0.orders[order].amount == 0 <==>
      exists i :: 0 <= i < |db.rows| && db.rows[i].kind == "topup_bonus"
                  && db.rows[i].reference == Stored(Some("payment-bonus:" + order))
  {
    var reference := Stored(Some(BonusReference(order)));
    var (credited, _) := ApplyBalanceChange(db, user, amount, "topup", None, false, Some(payment));
    BonusIsThePercentage(amount, percent);
    assert amount * percent <= amount * 50;
    assert BonusAmount(amount, percent) <= MAX_AMOUNT;
    var last := |db.rows|;
    assert credited.rows[..last] == db.rows && |credited.rows| == last + 1 && credited.rows[last].kind == "topup";
    assert Taken(credited.rows, "topup_bonus", reference) <==> Taken(db.rows, "topup_bonus", reference) by {
      if Taken(db.rows, "topup_bonus", reference) {
        var i :| 0 <= i < last && db.rows[i].kind == "topup_bonus" && db.rows[i].reference == reference;
        assert credited.rows[i] == db.rows[i];
      }
    }
  }

  // ---------------------------------------------------------------- referrals and Pro

  predicate Pays(db: Db, op: Op, invitee: int) { op.Referral? && op.invitee == invitee && Attempt(db, op).1.Ok? }

  function TimesPaid(db: Db, ops: seq<Op>, invitee: int): nat
    decreases |ops|
  {
    if ops == [] then 0
    else (if Pays(db, ops[0], invitee) then 1 else 0) + TimesPaid(Committed(db, ops[0]), ops[1..], invitee)
  }

  lemma PayoutsStep(db: Db, op: Op)
    ensures Committed(db, op).payouts.Keys
         == db.payouts.Keys + (if op.Referral? && Attempt(db, op).1.Ok? then {op.invitee} else {})
  {
  }

  /** One invitee pays at most once, and never again once paid. */
  lemma {:induction false} InviteesPayOnce(db: Db, ops: seq<Op>, invitee: int)
    ensures TimesPaid(db, ops, invitee) <= if invitee in db.payouts then 0 else 1
    decreases |ops|
  {
    if ops != [] {
      PayoutsStep(db, ops[0]);
      InviteesPayOnce(Committed(db, ops[0]), ops[1..], invitee);
    }
  }

  predicate IsPro(db: Db, user: int) { user in db.users && db.users[user].pro }

  predicate Charges(db: Db, op: Op, user: int) { op.Activate? && op.user == user && Attempt(db, op).1.Ok? }

  predicate Revokes(db: Db, op: Op, user: int) {
    (op.Reset? || (op.SwitchPro? && !op.enabled)) && op.user == user && Attempt(db, op).1.Ok?
  }

  function Charged(db: Db, ops: seq<Op>, user: int): nat
    decreases |ops|
  {
    if ops == [] then 0
    else (if Charges(db, ops[0], user) then 1 else 0) + Charged(Committed(db, ops[0]), ops[1..], user)
  }

  function Revoked(db: Db, ops: seq<Op>, user: int): nat
    decreases |ops|
  {
    if ops == [] then 0
    else (if Revokes(db, ops[0], user) then 1 else 0) + Revoked(Committed(db, ops[0]), ops[1..], user)
  }

  lemma ProStep(db: Db, op: Op, user: int)
    ensures Charges(db, op, user) ==> !IsPro(db, user) && IsPro(Committed(db, op), user)
    ensures IsPro(db, user) && !Revokes(db, op, user) ==> IsPro(Committed(db, op), user)
  {
  }

  /** Pro is charged at most once between two revocations. */
  lemma {:induction false} ProChargedOnce(db: Db, ops: seq<Op>, user: int)
    ensures Charged(db, ops, user) <= Revoked(db, ops, user) + if IsPro(db, user) then 0 else 1
    decreases |ops|
  {
    if ops != [] {
      ProStep(db, ops[0], user);
      ProChargedOnce(Committed(db, ops[0]), ops[1..], user);
    }
  }

  // ---------------------------------------------------------------- where the conditions fail

  /** A payout whose row could not be written leaves the inviter with money no row accounts for. */
  lemma UnloggedPayoutBreaksTheSum()
    ensures var db := Run(Empty, [NewUser(1), Referral(2, 1, 5, false)]);
            Balance(db, 1) == 5 && RowSum(db.rows, 1) == 0
  {
    var ops := [NewUser(1), Referral(2, 1, 5, false)];
    assert ops[1..] == [Referral(2, 1, 5, false)] && ops[1..][1..] == [];
    var one := Committed(Empty, ops[0]);
    assert Run(Empty, ops) == Run(one, ops[1..]) == Committed(one, ops[1]);
  }

  function Credit(amount: int): Op { Change(1, amount, "admin_credit", None, false, None) }

  /** Two credits within the guard make a balance beyond it, which no reset can clear. */
  lemma LargeBalanceCannotBeReset()
    ensures var db := Run(Empty, [NewUser(1), Credit(MAX_AMOUNT), Credit(1)]);
            && Balance(db, 1) == MAX_AMOUNT + 1
            && Attempt(db, Reset(1, None)).1 == BadValue && Committed(db, Reset(1, None)) == db
  {
    var ops := [NewUser(1), Credit(MAX_AMOUNT), Credit(1)];
    assert ops[1..] == [Credit(MAX_AMOUNT), Credit(1)] && ops[1..][1..] == [Credit(1)] && ops[1..][1..][1..] == [];
    var one := Committed(Empty, ops[0]);
    var two := Committed(one, ops[1]);
    assert Balance(two, 1) == MAX_AMOUNT;
    assert Run(Empty, ops) == Run(one, ops[1..]) == Run(two, ops[1..][1..]) == Committed(two, ops[2]);
  }
}

/** The ledger's functions as they run inside a transaction of their caller. */
module LedgerStore {
  import opened Basics
  import opened Ledger

  lemma {:induction false} RunAppend(db: Db, first: seq<Op>, second: seq<Op>)
    ensures Run(db, first + second) == Run(Run(db, first), second)
    decreases |first|
  {
    if first == [] {
      assert first + second == second;
    } else {
      assert (first + second)[1..] == first[1..] + second;
      RunAppend(Committed(db, first[0]), first[1..], second);
    }
  }

  class Wallet {
    var users: map<int, User>
    var rows: seq<Row>
    var payouts: map<int, Payout>
    var orders: map<string, Bonus>

    function State(): Db
      reads this
    {
      Db(users, rows, payouts, orders)
    }

    constructor ()
      ensures State() == Empty
    {
      users, rows, payouts, orders := map[], [], map[], map[];
    }

    method Restore(db: Db)
      modifies this
      ensures State() == db
    {
      users, rows, payouts, orders := db.users, db.rows, db.payouts, db.orders;
    }

    /** `_insert_tx` */
    method InsertRow(row: Row) returns (outcome: Outcome)
      modifies this`rows
      ensures (State(), outcome) == Insert(old(State()), row)
    {
      var stored := row.(reference := Stored(row.reference));
      if Taken(rows, stored.kind, stored.reference) {
        return Duplicate;
      }
      rows := rows + [stored];
      return Ok(stored.balanceAfter, stored.amount);
    }

    /** The conditional UPDATE of a balance; the result is its row count. */
    method AddToBalance(user: int, amount: int, least: Option<int>) returns (changed: bool)
      modifies this`users
      ensures changed <==> user in old(users) && (least.Some? ==> old(users)[user].balance >= least.value)
      ensures users == if changed
              then old(users)[user := old(users)[user].(balance := old(users)[user].balance + amount)]
                       else old(users)
    {
      changed := user in users && (least.None? || users[user].balance >= least.value);
      if changed {
        users := users[user := users[user].(balance := users[user].balance + amount)];
      }
    }

    method ApplyBalanceChange(user: int, amount: int, kind: string, actor: Option<int>, requireSufficient: bool,
                              reference: Option<string>) returns (outcome: Outcome)
      modifies this
      ensures (State(), outcome) == Ledger.ApplyBalanceChange(old(State()), user, amount, kind, actor,
              requireSufficient, reference)
    {
      if !AmountInBounds(amount) || !KnownKind(kind) {
        return BadValue;
      }
      var changed := AddToBalance(user, amount, if requireSufficient && amount < 0 then Some(-amount) else None);
      if !changed {
        if user !in users {
          return UserNotFound;
        }
        return InsufficientBalance(-amount, users[user].balance);
      }
      var after := users[user].balance;
      outcome := InsertRow(Row(user, kind, amount, after, None, actor, reference));
    }

    method ActivatePro(user: int, price: int) returns (outcome: Outcome)
      modifies this
      ensures (State(), outcome) == Ledger.ActivatePro(old(State()), user, price)
    {
      if !AmountInBounds(price) || price < 0 {
        return BadValue;
      }
      if user in users && !users[user].pro && users[user].balance >= price {
        users := users[user := User(users[user].balance - price, true)];
        var after := users[user].balance;
        outcome := InsertRow(Row(user, "pro_activation", -price, after, Some(price), None, None));
      } else if user !in users {
        outcome := UserNotFound;
      } else if users[user].pro {
        outcome := AlreadyPro;
      } else {
        outcome := InsufficientBalance(price, users[user].balance);
      }
    }

    /** Transactions of other connections. */
    method Others() returns (ghost arrived: seq<Op>)
      modifies this
      ensures State() == Run(old(State()), arrived)
    {
      var ops: seq<Op> := *;
      arrived := ops;
      Restore(Run(State(), ops));
    }

    /** `reset_user` with its caller's commit or rollback; others may commit between a read and the update. */
    method ResetUser(user: int, actor: Option<int>) returns (outcome: Outcome, ghost arrived: seq<Op>)
      modifies this
      ensures outcome.KeptChanging? ==> State() == Run(old(State()), arrived)
      ensures !outcome.KeptChanging? ==>
                && State() == Committed(Run(old(State()), arrived), Reset(user, actor))
                && outcome == Attempt(Run(old(State()), arrived), Reset(user, actor)).1
      ensures arrived == [] ==> !outcome.KeptChanging?
    {
      arrived := [];
      for attempt := 0 to RESET_ATTEMPTS
        invariant State() == Run(old(State()), arrived)
        invariant attempt > 0 ==> arrived != []
      {
        if user !in users {
          return UserNotFound, arrived;
        }
        var balance := users[user].balance;
        ghost var seen := State();
        ghost var more := Others();
        RunAppend(old(State()), arrived, more);
        arrived := arrived + more;
        if user in users && users[user].balance == balance {
          outcome := ResetAtOnce(user, actor);
          return;
        }
        assert more != [];
      }
      outcome := KeptChanging;
    }

    /** The update that found the balance it expected, its row, and the end of the transaction. */
    method ResetAtOnce(user: int, actor: Option<int>) returns (outcome: Outcome)
      requires user in users
      modifies this
      ensures State() == Committed(old(State()), Reset(user, actor))
              && outcome == Attempt(old(State()), Reset(user, actor)).1
    {
      var before := State();
      var balance := users[user].balance;
      users := users[user := User(0, false)];
      if AmountInBounds(-balance) {
        outcome := InsertRow(Row(user, "admin_reset", -balance, 0, None, actor, None));
      } else {
        outcome := BadValue;
      }
      if !Succeeded(outcome) {
        Restore(before);
      }
    }

    method PayReferral(invitee: int, inviter: int, reward: int, logged: bool) returns (outcome: Outcome)
      modifies this
      ensures (State(), outcome) == Ledger.PayReferral(old(State()), invitee, inviter, reward, logged)
    {
      if inviter !in users || reward <= 0 {
        return Nothing;
      }
      if invitee in payouts {
        return Nothing;
      }
      payouts := payouts[invitee := Payout(inviter, reward)];
      var _ := AddToBalance(inviter, reward, None);
      var after := users[inviter].balance;
      if logged {
        var _ := InsertRow(Row(inviter, "referral_reward", reward, after, None, Some(invitee), None));
      }
      return Ok(after, reward);
    }

    method CreditTopup(user: int, amount: int, reference: string, percent: int, order: string)
        returns (outcome: Outcome)
      modifies this
      ensures (State(), outcome) == Ledger.CreditTopup(old(State()), user, amount, reference, percent, order)
    {
      outcome := ApplyBalanceChange(user, amount, "topup", None, false, Some(reference));
      if !outcome.Ok? {
        return;
      }
      var bonus := BonusAmount(amount, percent);
      var paid := 0;
      if bonus > 0 {
        var savepoint := State();
        var bonusOutcome := ApplyBalanceChange(user, bonus, "topup_bonus", None, false, Some(BonusReference(order)));
        if bonusOutcome.Duplicate? {
          Restore(savepoint);
        } else {
          outcome := bonusOutcome;
          paid := bonus;
        }
      }
      if outcome.Ok? && order in orders {
        orders := orders[order := Bonus(if paid > 0 then percent else 0, paid)];
      }
    }
  }
}
