/**
 The `Account` ledger: one account's balance, its per-operation withdrawal
 limit and its append-only history of operations. Every operation is a pure
 function from the account before to a reply and the account after; a refused
 operation hands back the account it was given.
 */
module BankAccount {

  /** The kind of a history line (the `"type"` key written by `Account._historiser`). */
  datatype Kind =
    | Retrait           // "retrait": a withdrawal
    | Depot             // "depot": a deposit
    | TransfertSortant  // "transfert_sortant": outgoing transfer, on the source account
    | TransfertEntrant  // "transfert_entrant": incoming transfer, on the target account
    | ModifPlafond      // "modif_plafond": the withdrawal limit was changed

  /** One history line: its kind, the amount ("montant") and the balance right
      after the operation ("solde_apres"). The wall-clock date is not modelled. */
  datatype Record = Record(kind: Kind, amount: real, balanceAfter: real)

  /** An account. The random account number is not modelled. */
  datatype Account = Account(holder: string, balance: real, limit: real, history: seq<Record>)

  /** Why an operation was refused; the Python methods only return `False`. */
  datatype Error = InvalidAmount | LimitExceeded | InsufficientFunds

  datatype Reply = Done | Refused(error: Error)

  /** Reply and resulting account of a single-account operation. */
  datatype Step = Step(reply: Reply, account: Account)

  /** Reply and resulting accounts of a transfer. */
  datatype TransferStep = TransferStep(reply: Reply, source: Account, target: Account)

  const DefaultBalance: real := 2000.0
  const DefaultLimit: real := 1000.0

  /** The ledger invariant: the balance is never negative and the limit is
      strictly positive. The constructor does not enforce it; the operations
      preserve it. */
  predicate Valid(a: Account)
  {
    a.balance >= 0.0 && a.limit > 0.0
  }

  /** A new account with an empty history. */
  function Open(holder: string, balance: real, limit: real): (a: Account)
    ensures a.history == []
    ensures a.holder == holder && a.balance == balance && a.limit == limit
  {
    Account(holder, balance, limit, [])
  }

  /** A new account with the default balance and limit satisfies the invariant. */
  function OpenDefault(holder: string): (a: Account)
    ensures Valid(a) && a.history == []
    ensures a.holder == holder
  {
    Open(holder, DefaultBalance, DefaultLimit)
  }

  /** Appends one history line stamped with the current balance; nothing else changes. */
  function Historise(a: Account, kind: Kind, amount: real): (r: Account)
    ensures r.holder == a.holder && r.balance == a.balance && r.limit == a.limit
    ensures |r.history| == |a.history| + 1
    ensures r.history[..|a.history|] == a.history
    ensures r.history[|a.history|] == Record(kind, amount, a.balance)
  {
    a.(history := a.history + [Record(kind, amount, a.balance)])
  }

  /** Withdraws `amount`. The checks run in order: a positive amount, then
      within the limit, then within the balance; the first failing one decides
      the error. */
  function Withdraw(a: Account, amount: real): (r: Step)
    ensures r.reply == Done <==> 0.0 < amount <= a.limit && amount <= a.balance
    ensures r.reply == Refused(InvalidAmount) <==> amount <= 0.0
    ensures r.reply == Refused(LimitExceeded) <==> 0.0 < amount && a.limit < amount
    ensures r.reply == Refused(InsufficientFunds) <==> 0.0 < amount <= a.limit && a.balance < amount
    ensures r.reply.Refused? ==> r.account == a
    ensures r.reply == Done ==>
      && r.account.holder == a.holder
      && r.account.limit == a.limit
      && r.account.balance == a.balance - amount
      && r.account.history == a.history + [Record(Retrait, amount, r.account.balance)]
    ensures Valid(a) ==> Valid(r.account)
  {
    if amount <= 0.0 then Step(Refused(InvalidAmount), a)
    else if amount > a.limit then Step(Refused(LimitExceeded), a)
    else if amount > a.balance then Step(Refused(InsufficientFunds), a)
    else Step(Done, Historise(a.(balance := a.balance - amount), Retrait, amount))
  }

  /** Deposits `amount`, which must be positive. */
  function Deposit(a: Account, amount: real): (r: Step)
    ensures r.reply == Done <==> amount > 0.0
    ensures r.reply.Refused? ==> r.reply.error == InvalidAmount && r.account == a
    ensures r.reply == Done ==>
      && r.account.holder == a.holder
      && r.account.limit == a.limit
      && r.account.balance == a.balance + amount
      && r.account.history == a.history + [Record(Depot, amount, r.account.balance)]
    ensures Valid(a) ==> Valid(r.account)
  {
    if amount <= 0.0 then Step(Refused(InvalidAmount), a)
    else Step(Done, Historise(a.(balance := a.balance + amount), Depot, amount))
  }

  /** Transfers `amount` from `source` to a distinct `target`: a withdrawal on
      the source, then a deposit on the target, then one transfer line on each
      side. The two accounts are separate values here; a transfer of an account
      to itself is modelled by `BankRuns.TransferAt`. */
  function Transfer(source: Account, target: Account, amount: real): (r: TransferStep)
    ensures r.reply == Withdraw(source, amount).reply
    ensures r.reply.Refused? ==> r.source == source && r.target == target
    ensures r.source.balance + r.target.balance == source.balance + target.balance
    ensures r.reply == Done ==>
      && r.source.balance == source.balance - amount
      && r.target.balance == target.balance + amount
      && r.source.limit == source.limit && r.target.limit == target.limit
      && r.source.holder == source.holder && r.target.holder == target.holder
      && r.source.history == source.history
                             + [Record(Retrait, amount, r.source.balance),
                                Record(TransfertSortant, amount, r.source.balance)]
      && r.target.history == target.history
                             + [Record(Depot, amount, r.target.balance),
                                Record(TransfertEntrant, amount, r.target.balance)]
    ensures Valid(source) ==> Valid(r.source)
    ensures Valid(target) ==> Valid(r.target)
  {
    var w := Withdraw(source, amount);
    if w.reply.Refused? then TransferStep(w.reply, source, target)
    else
      // `Account.transfer` ignores the deposit's answer; the withdrawal has already
      // established a positive amount, so the deposit is never refused.
      var d := Deposit(target, amount);
      assert d.reply == Done;
      TransferStep(Done,
                   Historise(w.account, TransfertSortant, amount),
                   Historise(d.account, TransfertEntrant, amount))
  }

  /** Replaces the withdrawal limit, which must be strictly positive. */
  function SetLimit(a: Account, newLimit: real): (r: Step)
    ensures r.reply == Done <==> newLimit > 0.0
    ensures r.reply.Refused? ==> r.reply.error == InvalidAmount && r.account == a
    ensures r.reply == Done ==>
      && r.account.holder == a.holder
      && r.account.limit == newLimit
      && r.account.balance == a.balance
      && r.account.history == a.history + [Record(ModifPlafond, newLimit, a.balance)]
    ensures Valid(a) ==> Valid(r.account)
  {
    if newLimit <= 0.0 then Step(Refused(InvalidAmount), a)
    else Step(Done, Historise(a.(limit := newLimit), ModifPlafond, newLimit))
  }

  /** An amount above both the limit and the balance is refused for the limit. */
  lemma LimitCheckedBeforeBalance(a: Account, amount: real)
    requires amount > 0.0 && amount > a.limit && amount > a.balance
    ensures Withdraw(a, amount).reply == Refused(LimitExceeded)
    ensures Withdraw(a, amount).account == a
  {
  }

  /** Depositing then withdrawing the same amount restores the balance, the
      limit, and leaves exactly a deposit line followed by a withdrawal line.
      The withdrawal needs a non-negative starting balance, which the ledger
      invariant gives. */
  lemma DepositThenWithdraw(a: Account, amount: real)
    requires Valid(a)
    requires 0.0 < amount <= a.limit
    ensures var d := Deposit(a, amount);
            var w := Withdraw(d.account, amount);
            && d.reply == Done && w.reply == Done
            && w.account.balance == a.balance
            && w.account.limit == a.limit
            && w.account.history == a.history + [Record(Depot, amount, a.balance + amount),
                                                 Record(Retrait, amount, a.balance)]
  {
  }

  /** The demonstration run: two default accounts; 650 withdrawn from the
      first, 1500 deposited to and 50 withdrawn from the second, then 350
      transferred from the second to the first. */
  lemma DemoScenario()
    ensures var ross := Withdraw(OpenDefault("Ross"), 650.0);
            var rachel := Withdraw(Deposit(OpenDefault("Rachel"), 1500.0).account, 50.0);
            var t := Transfer(rachel.account, ross.account, 350.0);
            && ross.reply == Done && ross.account.balance == 1350.0
            && rachel.reply == Done && rachel.account.balance == 3450.0
            && t.reply == Done && t.source.balance == 3100.0 && t.target.balance == 1700.0
  {
  }

  /** Withdrawing more than the default limit from a default account is refused
      and leaves the account as it was; so is a negative new limit. */
  lemma RefusalScenarios()
    ensures var a := OpenDefault("Ross");
            && Withdraw(a, 1200.0) == Step(Refused(LimitExceeded), a)
            && SetLimit(a, -5.0) == Step(Refused(InvalidAmount), a)
  {
  }
}
