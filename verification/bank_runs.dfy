/**
 Sequences of ledger operations over a collection of accounts, addressed by
 position (the caller's registry of accounts). A transfer names its source and
 target by position, so a transfer of an account to itself reproduces the
 aliasing of the Python `Account.transfer`: the withdrawal, deposit and both
 transfer lines all land on the same account.
 */
module BankRuns {
  import opened BankAccount

  /** One operation a caller can ask of the registry. */
  datatype Op =
    | DepositOp(at: nat, amount: real)
    | WithdrawOp(at: nat, amount: real)
    | TransferOp(from: nat, to: nat, amount: real)
    | SetLimitOp(at: nat, newLimit: real)

  datatype BankStep = BankStep(reply: Reply, bank: seq<Account>)

  /** The operation only names accounts that exist among `n`. */
  predicate Addresses(op: Op, n: nat)
  {
    match op
    case DepositOp(i, _) => i < n
    case WithdrawOp(i, _) => i < n
    case TransferOp(i, j, _) => i < n && j < n
    case SetLimitOp(i, _) => i < n
  }

  predicate AllValid(bank: seq<Account>)
  {
    forall k :: 0 <= k < |bank| ==> Valid(bank[k])
  }

  /** Sum of all balances. */
  function Total(bank: seq<Account>): real
  {
    if |bank| == 0 then 0.0 else bank[0].balance + Total(bank[1..])
  }

  /** `from` transfers `amount` to `to`, performing the four writes of
      `Account.transfer` one after the other on the registry, so that
      `from == to` is modelled as the Python method executes it. */
  function TransferAt(bank: seq<Account>, from: nat, to: nat, amount: real): (r: BankStep)
    requires from < |bank| && to < |bank|
    ensures |r.bank| == |bank|
    ensures r.reply == Withdraw(bank[from], amount).reply
    ensures r.reply.Refused? ==> r.bank == bank
    ensures forall k :: 0 <= k < |bank| && k != from && k != to ==> r.bank[k] == bank[k]
    ensures forall k :: 0 <= k < |bank| && Valid(bank[k]) ==> Valid(r.bank[k])
    ensures forall k :: 0 <= k < |bank| ==> bank[k].history <= r.bank[k].history
  {
    var w := Withdraw(bank[from], amount);
    if w.reply.Refused? then BankStep(w.reply, bank)
    else
      var b1 := bank[from := w.account];
      var b2 := b1[to := Deposit(b1[to], amount).account];
      var b3 := b2[from := Historise(b2[from], TransfertSortant, amount)];
      var b4 := b3[to := Historise(b3[to], TransfertEntrant, amount)];
      BankStep(Done, b4)
  }

  /** Applies one operation to the account(s) it names. Each account that was
      valid stays valid, whatever the others hold, and every history only grows. */
  function Apply(bank: seq<Account>, op: Op): (r: BankStep)
    requires Addresses(op, |bank|)
    ensures |r.bank| == |bank|
    ensures forall k :: 0 <= k < |bank| && Valid(bank[k]) ==> Valid(r.bank[k])
    ensures forall k :: 0 <= k < |bank| ==> bank[k].history <= r.bank[k].history
  {
    match op
    case DepositOp(i, x) =>
      var s := Deposit(bank[i], x); BankStep(s.reply, bank[i := s.account])
    case WithdrawOp(i, x) =>
      var s := Withdraw(bank[i], x); BankStep(s.reply, bank[i := s.account])
    case SetLimitOp(i, l) =>
      var s := SetLimit(bank[i], l); BankStep(s.reply, bank[i := s.account])
    case TransferOp(i, j, x) => TransferAt(bank, i, j, x)
  }

  /** Applies the operations in order; a refused operation changes nothing and
      the run goes on. */
  function Run(bank: seq<Account>, ops: seq<Op>): (r: seq<Account>)
    requires forall k :: 0 <= k < |ops| ==> Addresses(ops[k], |bank|)
    ensures |r| == |bank|
    decreases |ops|
  {
    if |ops| == 0 then bank
    else Run(Apply(bank, ops[0]).bank, ops[1..])
  }

  /** Money entering (positive) or leaving (negative) the registry by `op`:
      a successful deposit or withdrawal; transfers and limit changes move none. */
  function Flow(bank: seq<Account>, op: Op): real
    requires Addresses(op, |bank|)
  {
    if Apply(bank, op).reply.Refused? then 0.0
    else match op
      case DepositOp(_, x) => x
      case WithdrawOp(_, x) => -x
      case _ => 0.0
  }

  /** A transfer between two distinct positions is the two-account `Transfer`. */
  lemma TransferAtDistinct(bank: seq<Account>, from: nat, to: nat, amount: real)
    requires from < |bank| && to < |bank| && from != to
    ensures var r := TransferAt(bank, from, to, amount);
            var t := Transfer(bank[from], bank[to], amount);
            && r.reply == t.reply
            && r.bank == bank[from := t.source][to := t.target]
  {
  }

  /** A transfer of an account to itself, when it succeeds, leaves the balance
      and limit as they were and appends four lines: the withdrawal, the
      deposit, and the outgoing and incoming transfer lines. */
  lemma TransferToSelf(bank: seq<Account>, i: nat, amount: real)
    requires i < |bank|
    requires TransferAt(bank, i, i, amount).reply == Done
    ensures var a := bank[i];
            var a' := TransferAt(bank, i, i, amount).bank[i];
            && a'.balance == a.balance
            && a'.limit == a.limit
            && a'.history == a.history + [Record(Retrait, amount, a.balance - amount),
                                          Record(Depot, amount, a.balance),
                                          Record(TransfertSortant, amount, a.balance),
                                          Record(TransfertEntrant, amount, a.balance)]
  {
  }

  /** Replacing one account changes the total by the difference of balances. */
  lemma {:induction false} TotalUpdate(bank: seq<Account>, i: nat, a: Account)
    requires i < |bank|
    ensures Total(bank[i := a]) == Total(bank) - bank[i].balance + a.balance
    decreases |bank|
  {
    if i > 0 {
      assert bank[i := a][1..] == bank[1..][i - 1 := a];
      TotalUpdate(bank[1..], i - 1, a);
    } else {
      assert bank[i := a][1..] == bank[1..];
    }
  }

  /** A transfer, wherever its ends are, moves money without creating or
      destroying any. */
  lemma TransferAtConservesTotal(bank: seq<Account>, from: nat, to: nat, amount: real)
    requires from < |bank| && to < |bank|
    ensures Total(TransferAt(bank, from, to, amount).bank) == Total(bank)
  {
    var w := Withdraw(bank[from], amount);
    if w.reply == Done {
      var b1 := bank[from := w.account];
      var d := Deposit(b1[to], amount).account;
      var b2 := b1[to := d];
      var b3 := b2[from := Historise(b2[from], TransfertSortant, amount)];
      var b4 := b3[to := Historise(b3[to], TransfertEntrant, amount)];
      assert TransferAt(bank, from, to, amount).bank == b4;
      TotalUpdate(bank, from, w.account);
      assert Total(b1) == Total(bank) - amount;
      TotalUpdate(b1, to, d);
      assert Total(b2) == Total(bank);
      TotalUpdate(b2, from, Historise(b2[from], TransfertSortant, amount));
      TotalUpdate(b3, to, Historise(b3[to], TransfertEntrant, amount));
    }
  }

  /** The total changes by exactly the operation's flow. */
  lemma ApplyTotal(bank: seq<Account>, op: Op)
    requires Addresses(op, |bank|)
    ensures Total(Apply(bank, op).bank) == Total(bank) + Flow(bank, op)
  {
    match op
    case DepositOp(i, x) =>
      var s := Deposit(bank[i], x);
      assert Apply(bank, op) == BankStep(s.reply, bank[i := s.account]);
      assert Flow(bank, op) == if s.reply.Refused? then 0.0 else x;
      TotalUpdate(bank, i, s.account);
    case WithdrawOp(i, x) =>
      var s := Withdraw(bank[i], x);
      assert Apply(bank, op) == BankStep(s.reply, bank[i := s.account]);
      assert Flow(bank, op) == if s.reply.Refused? then 0.0 else -x;
      TotalUpdate(bank, i, s.account);
    case SetLimitOp(i, l) =>
      var s := SetLimit(bank[i], l);
      assert Apply(bank, op) == BankStep(s.reply, bank[i := s.account]);
      assert Flow(bank, op) == if s.reply.Refused? then 0.0 else 0.0;
      TotalUpdate(bank, i, s.account);
    case TransferOp(i, j, x) =>
      assert Apply(bank, op) == TransferAt(bank, i, j, x);
      assert Flow(bank, op) == 0.0;
      TransferAtConservesTotal(bank, i, j, x);
  }

  /** Along any run of operations, an account that starts valid stays valid,
      whatever the other accounts hold. */
  lemma {:induction false} RunPreservesValid(bank: seq<Account>, ops: seq<Op>, k: nat)
    requires forall j :: 0 <= j < |ops| ==> Addresses(ops[j], |bank|)
    requires k < |bank| && Valid(bank[k])
    ensures Valid(Run(bank, ops)[k])
    decreases |ops|
  {
    if |ops| > 0 {
      RunPreservesValid(Apply(bank, ops[0]).bank, ops[1..], k);
    }
  }

  /** Along any run of operations on valid accounts, every account stays valid. */
  lemma RunPreservesAllValid(bank: seq<Account>, ops: seq<Op>)
    requires forall j :: 0 <= j < |ops| ==> Addresses(ops[j], |bank|)
    requires AllValid(bank)
    ensures AllValid(Run(bank, ops))
  {
    forall k | 0 <= k < |bank|
      ensures Valid(Run(bank, ops)[k])
    {
      RunPreservesValid(bank, ops, k);
    }
  }

  /** Along any run, every history only grows. */
  lemma {:induction false} RunHistoryGrows(bank: seq<Account>, ops: seq<Op>)
    requires forall k :: 0 <= k < |ops| ==> Addresses(ops[k], |bank|)
    ensures forall k :: 0 <= k < |bank| ==> bank[k].history <= Run(bank, ops)[k].history
    decreases |ops|
  {
    if |ops| > 0 {
      var next := Apply(bank, ops[0]).bank;
      RunHistoryGrows(next, ops[1..]);
    }
  }

  /** A run made only of transfers and limit changes keeps the total balance. */
  lemma {:induction false} InternalRunConservesTotal(bank: seq<Account>, ops: seq<Op>)
    requires forall k :: 0 <= k < |ops| ==> Addresses(ops[k], |bank|)
    requires forall k :: 0 <= k < |ops| ==> ops[k].TransferOp? || ops[k].SetLimitOp?
    ensures Total(Run(bank, ops)) == Total(bank)
    decreases |ops|
  {
    if |ops| > 0 {
      ApplyTotal(bank, ops[0]);
      InternalRunConservesTotal(Apply(bank, ops[0]).bank, ops[1..]);
    }
  }
}
