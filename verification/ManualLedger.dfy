/** Manual accounts: a running balance kept beside the transactions it should add up to.

    Create, edit and delete change one transaction row and sometimes the account row. A deleted
    transaction stays in the table, marked archived. Amounts are exact cents.
  */
module ManualLedger {
  import opened Text

  datatype Account = Account(id: string, uid: string, kind: string, balance: Option<int>)

  datatype Txn = Txn(id: string, uid: string, account: string, cents: int, isManual: bool, archived: bool)

  datatype State = State(accounts: seq<Account>, txns: seq<Txn>)

  datatype Outcome = Done | Forbidden | NotFound | BadRequest | Conflict

  datatype Op =
    | Create(uid: string, tier: string, account: string, txn: string, cents: int)
    | Edit(uid: string, txn: string, newCents: Option<int>, otherRestrictedFields: bool)
    | Delete(uid: string, txn: string)

  // ----- Queries -----

  /** The row of `uid` with that id; `|rows|` when there is none. */
  function FindTxn(txns: seq<Txn>, id: string, uid: string): (i: nat)
    ensures i <= |txns| && (i < |txns| ==> txns[i].id == id && txns[i].uid == uid)
    ensures i == |txns| ==> forall k :: 0 <= k < |txns| ==> !(txns[k].id == id && txns[k].uid == uid)
  {
    if txns == [] then 0
    else if txns[0].id == id && txns[0].uid == uid then 0
    else 1 + FindTxn(txns[1..], id, uid)
  }

  function FindAccount(accounts: seq<Account>, id: string, uid: string): (i: nat)
    ensures i <= |accounts| && (i < |accounts| ==> accounts[i].id == id && accounts[i].uid == uid)
    ensures i == |accounts| ==> forall k :: 0 <= k < |accounts| ==> !(accounts[k].id == id && accounts[k].uid == uid)
  {
    if accounts == [] then 0
    else if accounts[0].id == id && accounts[0].uid == uid then 0
    else 1 + FindAccount(accounts[1..], id, uid)
  }

  predicate HasId(txns: seq<Txn>, id: string) {
    exists k :: 0 <= k < |txns| && txns[k].id == id
  }

  /** A missing balance counts as zero. */
  function Cents(balance: Option<int>): int {
    if balance.Some? then balance.value else 0
  }

  /** The sum of the live transactions of an account. */
  function LiveSum(txns: seq<Txn>, account: string): int {
    if txns == [] then 0
    else
      var t := txns[|txns| - 1];
      LiveSum(txns[..|txns| - 1], account) + if t.account == account && !t.archived then t.cents else 0
  }

  // ----- The effect of each endpoint -----

  function AddToBalance(accounts: seq<Account>, i: nat, delta: int): seq<Account>
    requires i < |accounts|
  {
    accounts[i := accounts[i].(balance := Some(Cents(accounts[i].balance) + delta))]
  }

  function Step(s: State, op: Op): (State, Outcome) {
    match op
    case Create(uid, tier, account, txn, cents) =>
      var a := FindAccount(s.accounts, account, uid);
      if tier != "pro" && tier != "ultimate" then (s, Forbidden)
      else if a == |s.accounts| then (s, NotFound)
      else if s.accounts[a].kind != "manual" then (s, BadRequest)
      else if HasId(s.txns, txn) then (s, Conflict)
      else (State(AddToBalance(s.accounts, a, cents), s.txns + [Txn(txn, uid, account, cents, true, false)]), Done)
    case Edit(uid, txn, newCents, others) =>
      var t := FindTxn(s.txns, txn, uid);
      if t == |s.txns| then (s, NotFound)
      else if !s.txns[t].isManual then (s, if newCents.Some? || others then BadRequest else Done)
      else if newCents.None? then (s, Done)
      else (s.(txns := s.txns[t := s.txns[t].(cents := newCents.value)]), Done)
    case Delete(uid, txn) =>
      var t := FindTxn(s.txns, txn, uid);
      if t == |s.txns| then (s, NotFound)
      else if !s.txns[t].isManual then (s, BadRequest)
      else
        var a := FindAccount(s.accounts, s.txns[t].account, uid);
        var txns := s.txns[t := s.txns[t].(archived := true)];
        if a == |s.accounts| then (s.(txns := txns), Done)
        else (State(AddToBalance(s.accounts, a, -s.txns[t].cents), txns), Done)
  }

  class Ledger {
    var accounts: seq<Account>
    var txns: seq<Txn>

    constructor (accounts: seq<Account>, txns: seq<Txn>)
      ensures this.accounts == accounts && this.txns == txns
    {
      this.accounts, this.txns := accounts, txns;
    }

    function Tables(): State
      reads this
    {
      State(accounts, txns)
    }

    method CreateManualTransaction(uid: string, tier: string, account: string, txn: string, cents: int)
      returns (outcome: Outcome)
      modifies this
      ensures (Tables(), outcome) == Step(old(Tables()), Create(uid, tier, account, txn, cents))
    {
      if tier != "pro" && tier != "ultimate" {
        return Forbidden;
      }
      var a := FindAccount(accounts, account, uid);
      if a == |accounts| {
        return NotFound;
      }
      if accounts[a].kind != "manual" {
        return BadRequest;
      }
      if HasId(txns, txn) {
        return Conflict;
      }
      txns := txns + [Txn(txn, uid, account, cents, true, false)];
      var current := Cents(accounts[a].balance);
      accounts := accounts[a := accounts[a].(balance := Some(current + cents))];
      outcome := Done;
    }

    method UpdateTransaction(uid: string, txn: string, newCents: Option<int>, otherRestrictedFields: bool)
      returns (outcome: Outcome)
      modifies this`txns
      ensures (Tables(), outcome) == Step(old(Tables()), Edit(uid, txn, newCents, otherRestrictedFields))
    {
      var t := FindTxn(txns, txn, uid);
      if t == |txns| {
        return NotFound;
      }
      if txns[t].isManual {
        if newCents.Some? {
          txns := txns[t := txns[t].(cents := newCents.value)];
        }
      } else if newCents.Some? || otherRestrictedFields {
        return BadRequest;
      }
      outcome := Done;
    }

    method DeleteTransaction(uid: string, txn: string) returns (outcome: Outcome)
      modifies this
      ensures (Tables(), outcome) == Step(old(Tables()), Delete(uid, txn))
    {
      var t := FindTxn(txns, txn, uid);
      if t == |txns| {
        return NotFound;
      }
      if !txns[t].isManual {
        return BadRequest;
      }
      var a := FindAccount(accounts, txns[t].account, uid);
      if a < |accounts| {
        var current := Cents(accounts[a].balance);
        accounts := accounts[a := accounts[a].(balance := Some(current - txns[t].cents))];
      }
      txns := txns[t := txns[t].(archived := true)];
      outcome := Done;
    }

    /** The repair script: every manual balance becomes the sum of its live transactions. */
    method FixManualTransactionBalances()
      modifies this`accounts
      ensures Tables() == Repair(old(Tables()))
    {
      for i := 0 to |accounts|
        invariant |accounts| == |old(accounts)|
        invariant forall k :: 0 <= k < i ==> accounts[k] == Repaired(old(accounts)[k], txns)
        invariant forall k :: i <= k < |accounts| ==> accounts[k] == old(accounts)[k]
      {
        if accounts[i].kind == "manual" {
          var total := SumLive(accounts[i].id);
          var oldBalance := Cents(accounts[i].balance);
          if oldBalance != total {
            accounts := accounts[i := accounts[i].(balance := Some(total))];
          }
        }
      }
    }

    method SumLive(account: string) returns (total: int)
      ensures total == LiveSum(txns, account)
    {
      total := 0;
      for i := 0 to |txns|
        invariant total == LiveSum(txns[..i], account)
      {
        assert txns[..i + 1][..i] == txns[..i];
        if txns[i].account == account && !txns[i].archived {
          total := total + txns[i].cents;
        }
      }
      assert txns[..|txns|] == txns;
    }
  }

  function Repaired(a: Account, txns: seq<Txn>): (r: Account)
    ensures a.kind == "manual" ==> Cents(r.balance) == LiveSum(txns, a.id)
    ensures a.kind != "manual" ==> r == a
    ensures r.(balance := None) == a.(balance := None)
  {
    if a.kind == "manual" && Cents(a.balance) != LiveSum(txns, a.id)
    then a.(balance := Some(LiveSum(txns, a.id)))
    else a
  }

  /** The tables after the repair. */
  function Repair(s: State): (r: State)
    ensures r.txns == s.txns && |r.accounts| == |s.accounts|
    ensures forall i :: 0 <= i < |s.accounts| ==> r.accounts[i] == Repaired(s.accounts[i], s.txns)
  {
    State(seq(|s.accounts|, i requires 0 <= i < |s.accounts| => Repaired(s.accounts[i], s.txns)), s.txns)
  }

  // ----- Drift: how far a balance is from its live sum -----

  /** Ids are primary keys, and every transaction belongs to an account of its user. */
  ghost predicate Valid(s: State) {
    && (forall i, j :: 0 <= i < j < |s.accounts| ==> s.accounts[i].id != s.accounts[j].id)
    && (forall i, j :: 0 <= i < j < |s.txns| ==> s.txns[i].id != s.txns[j].id)
    && (forall i :: 0 <= i < |s.txns| ==> FindAccount(s.accounts, s.txns[i].account, s.txns[i].uid) < |s.accounts|)
  }

  function Drift(s: State, i: nat): int
    requires i < |s.accounts|
  {
    Cents(s.accounts[i].balance) - LiveSum(s.txns, s.accounts[i].id)
  }

  /** What one call adds to the drift of an account, from data available before the call. */
  function DriftOf(s: State, op: Op, account: string): int {
    match op
    case Create(_, _, _, _, _) => 0
    case Edit(uid, txn, newCents, _) =>
      var t := FindTxn(s.txns, txn, uid);
      if t < |s.txns| && s.txns[t].isManual && s.txns[t].account == account && !s.txns[t].archived && newCents.Some?
      then s.txns[t].cents - newCents.value
      else 0
    case Delete(uid, txn) =>
      var t := FindTxn(s.txns, txn, uid);
      if t < |s.txns| && s.txns[t].isManual && s.txns[t].account == account && s.txns[t].archived
      then -s.txns[t].cents
      else 0
  }

  lemma {:induction false} LiveSumUpdate(txns: seq<Txn>, i: nat, t: Txn, account: string)
    requires i < |txns|
    ensures LiveSum(txns[i := t], account) == LiveSum(txns, account)
            - (if txns[i].account == account && !txns[i].archived then txns[i].cents else 0)
            + (if t.account == account && !t.archived then t.cents else 0)
  {
    var n := |txns| - 1;
    if i < n {
      LiveSumUpdate(txns[..n], i, t, account);
      assert txns[i := t][..n] == txns[..n][i := t];
    } else {
      assert txns[i := t][..n] == txns[..n];
    }
  }

  lemma {:induction false} LiveSumAppend(txns: seq<Txn>, t: Txn, account: string)
    ensures LiveSum(txns + [t], account)
            == LiveSum(txns, account) + if t.account == account && !t.archived then t.cents else 0
  {
    assert (txns + [t])[..|txns|] == txns;
  }

  lemma {:induction false} SameLookup(a: seq<Account>, b: seq<Account>, id: string, uid: string)
    requires |a| == |b| && forall k :: 0 <= k < |a| ==> a[k].id == b[k].id && a[k].uid == b[k].uid
    ensures FindAccount(a, id, uid) == FindAccount(b, id, uid)
  {
    if a == [] {
    } else {
      SameLookup(a[1..], b[1..], id, uid);
    }
  }

  lemma {:induction false} StepKeepsAccounts(s: State, op: Op)
    ensures var s' := Step(s, op).0;
            && |s'.accounts| == |s.accounts|
            && forall k :: 0 <= k < |s.accounts| ==>
                 s'.accounts[k].(balance := None) == s.accounts[k].(balance := None)
  {
  }

  lemma {:induction false} StepKeepsTxns(s: State, op: Op)
    requires Valid(s)
    ensures var s' := Step(s, op).0;
            && |s.txns| <= |s'.txns|
            && (forall k :: 0 <= k < |s.txns| ==>
                  s'.txns[k].id == s.txns[k].id && s'.txns[k].uid == s.txns[k].uid
                  && s'.txns[k].account == s.txns[k].account)
            && (forall i, j :: 0 <= i < j < |s'.txns| ==> s'.txns[i].id != s'.txns[j].id)
            && (forall k :: |s.txns| <= k < |s'.txns| ==>
                  FindAccount(s.accounts, s'.txns[k].account, s'.txns[k].uid) < |s.accounts|)
  {
    hide LiveSum, FindTxn, FindAccount, AddToBalance;
  }

  lemma {:induction false} SameAccounts(s: State, op: Op, id: string, uid: string)
    ensures FindAccount(Step(s, op).0.accounts, id, uid) == FindAccount(s.accounts, id, uid)
    ensures |Step(s, op).0.accounts| == |s.accounts|
    ensures forall k :: 0 <= k < |s.accounts| ==> Step(s, op).0.accounts[k].id == s.accounts[k].id
  {
    StepKeepsAccounts(s, op);
    hide Step, FindAccount;
    var s' := Step(s, op).0;
    forall k | 0 <= k < |s.accounts|
      ensures s'.accounts[k].id == s.accounts[k].id && s'.accounts[k].uid == s.accounts[k].uid
    {
      assert s'.accounts[k].(balance := None) == s.accounts[k].(balance := None);
    }
    SameLookup(s'.accounts, s.accounts, id, uid);
  }

  lemma {:induction false} StepKeepsValid(s: State, op: Op)
    requires Valid(s)
    ensures Valid(Step(s, op).0)
  {
    StepKeepsTxns(s, op);
    SameAccounts(s, op, "", "");
    hide Step, FindAccount;
    var s' := Step(s, op).0;
    forall i | 0 <= i < |s'.txns|
      ensures FindAccount(s'.accounts, s'.txns[i].account, s'.txns[i].uid) < |s'.accounts|
    {
      SameAccounts(s, op, s'.txns[i].account, s'.txns[i].uid);
      if i < |s.txns| {
        assert FindAccount(s.accounts, s.txns[i].account, s.txns[i].uid) < |s.accounts|;
      }
    }
  }

  /** Each call changes the drift of each account by exactly the stated amount. */
  lemma {:induction false} StepDrift(s: State, op: Op, i: nat)
    requires Valid(s) && i < |s.accounts|
    ensures |Step(s, op).0.accounts| == |s.accounts|
    ensures Drift(Step(s, op).0, i) == Drift(s, i) + DriftOf(s, op, s.accounts[i].id)
  {
    hide LiveSum, FindTxn, FindAccount;
    var account := s.accounts[i].id;
    match op
    case Create(uid, tier, acct, txn, cents) =>
      LiveSumAppend(s.txns, Txn(txn, uid, acct, cents, true, false), account);
    case Edit(uid, txn, newCents, others) =>
      var t := FindTxn(s.txns, txn, uid);
      if t < |s.txns| && newCents.Some? {
        LiveSumUpdate(s.txns, t, s.txns[t].(cents := newCents.value), account);
      }
    case Delete(uid, txn) =>
      var t := FindTxn(s.txns, txn, uid);
      if t < |s.txns| {
        LiveSumUpdate(s.txns, t, s.txns[t].(archived := true), account);
        assert FindAccount(s.accounts, s.txns[t].account, s.txns[t].uid) < |s.accounts|;
      }
  }

  // ----- Whole runs -----

  function Run(s: State, ops: seq<Op>): State
    decreases |ops|
  {
    if ops == [] then s else Run(Step(s, ops[0]).0, ops[1..])
  }

  function DriftOver(s: State, ops: seq<Op>, account: string): int
    decreases |ops|
  {
    if ops == [] then 0 else DriftOf(s, ops[0], account) + DriftOver(Step(s, ops[0]).0, ops[1..], account)
  }

  /** After any run, balance = opening + live sum + drift, where the opening is what the balance
      held beyond the live sum at the start. */
  lemma {:induction false} BalanceEquation(s: State, ops: seq<Op>, i: nat)
    requires Valid(s) && i < |s.accounts|
    ensures var s' := Run(s, ops);
            && Valid(s') && |s'.accounts| == |s.accounts| && s'.accounts[i].id == s.accounts[i].id
            && Cents(s'.accounts[i].balance)
               == Drift(s, i) + LiveSum(s'.txns, s.accounts[i].id) + DriftOver(s, ops, s.accounts[i].id)
    decreases |ops|
  {
    hide Valid, Step, DriftOf, LiveSum;
    if ops == [] {
    } else {
      StepKeepsValid(s, ops[0]);
      StepKeepsAccounts(s, ops[0]);
      StepDrift(s, ops[0], i);
      assert Step(s, ops[0]).0.accounts[i].(balance := None).id == s.accounts[i].id;
      BalanceEquation(Step(s, ops[0]).0, ops[1..], i);
    }
  }

  /** The guard a caller can check: the call neither changes the amount of a live manual row nor
      repeats the deletion of a row with a non-zero amount. */
  predicate Harmless(s: State, op: Op) {
    match op
    case Create(_, _, _, _, _) => true
    case Edit(uid, txn, newCents, _) =>
      var t := FindTxn(s.txns, txn, uid);
      t == |s.txns| || !s.txns[t].isManual || s.txns[t].archived || newCents.None? || newCents.value == s.txns[t].cents
    case Delete(uid, txn) =>
      var t := FindTxn(s.txns, txn, uid);
      t == |s.txns| || !s.txns[t].isManual || !s.txns[t].archived || s.txns[t].cents == 0
  }

  /** A call leaves every balance in step with its live sum exactly when it is harmless. */
  lemma {:induction false} InStepIffHarmless(s: State, op: Op)
    requires Valid(s)
    ensures |Step(s, op).0.accounts| == |s.accounts|
    ensures (forall i :: 0 <= i < |s.accounts| ==> Drift(Step(s, op).0, i) == Drift(s, i)) <==> Harmless(s, op)
  {
    hide LiveSum, FindTxn, FindAccount, Step, Drift;
    StepKeepsAccounts(s, op);
    forall i | 0 <= i < |s.accounts|
      ensures Drift(Step(s, op).0, i) == Drift(s, i) + DriftOf(s, op, s.accounts[i].id)
    {
      StepDrift(s, op, i);
    }
    if !Harmless(s, op) {
      var t := FindTxn(s.txns, op.txn, op.uid);
      var a := FindAccount(s.accounts, s.txns[t].account, s.txns[t].uid);
      assert Drift(Step(s, op).0, a) == Drift(s, a) + DriftOf(s, op, s.txns[t].account);
    }
  }

  predicate DeletesAtMostOnce(ops: seq<Op>, gone: set<string>) {
    ops != [] ==>
    && (ops[0].Delete? ==> ops[0].txn !in gone)
    && (ops[0].Edit? ==> ops[0].newCents.None?)
    && DeletesAtMostOnce(ops[1..], if ops[0].Delete? then gone + {ops[0].txn} else gone)
  }

  /** With no amount edited and no transaction deleted twice there is no drift at all. */
  lemma {:induction false} NoDriftWithoutRepeats(s: State, ops: seq<Op>, gone: set<string>, account: string)
    requires Valid(s) && DeletesAtMostOnce(ops, gone)
    requires forall k :: 0 <= k < |s.txns| && s.txns[k].archived ==> s.txns[k].id in gone
    ensures DriftOver(s, ops, account) == 0
    decreases |ops|
  {
    hide LiveSum, FindTxn, FindAccount, Valid;
    if ops == [] {
    } else {
      StepKeepsValid(s, ops[0]);
      var gone' := if ops[0].Delete? then gone + {ops[0].txn} else gone;
      NoDriftWithoutRepeats(Step(s, ops[0]).0, ops[1..], gone', account);
    }
  }

  // ----- The repair -----

  /** Every manual balance is the sum of its live transactions. */
  ghost predicate InStep(s: State) {
    forall i :: 0 <= i < |s.accounts| && s.accounts[i].kind == "manual" ==> Drift(s, i) == 0
  }

  predicate AllHarmless(s: State, ops: seq<Op>)
    decreases |ops|
  {
    ops != [] ==> Harmless(s, ops[0]) && AllHarmless(Step(s, ops[0]).0, ops[1..])
  }

  lemma {:induction false} RepairKeepsValid(s: State)
    requires Valid(s)
    ensures Valid(Repair(s))
  {
    hide Repaired, LiveSum, FindAccount;
    var r := Repair(s);
    forall i | 0 <= i < |s.accounts|
      ensures r.accounts[i].id == s.accounts[i].id && r.accounts[i].uid == s.accounts[i].uid
    {
      assert r.accounts[i].(balance := None) == s.accounts[i].(balance := None);
    }
    forall i | 0 <= i < |r.txns|
      ensures FindAccount(r.accounts, r.txns[i].account, r.txns[i].uid) < |r.accounts|
    {
      SameLookup(s.accounts, r.accounts, s.txns[i].account, s.txns[i].uid);
    }
  }

  lemma {:induction false} HarmlessRunHasNoDrift(s: State, ops: seq<Op>, account: string)
    requires AllHarmless(s, ops)
    ensures DriftOver(s, ops, account) == 0
    decreases |ops|
  {
    hide Step, FindTxn;
    if ops == [] {
    } else {
      HarmlessRunHasNoDrift(Step(s, ops[0]).0, ops[1..], account);
    }
  }

  lemma {:induction false} RunKeepsAccounts(s: State, ops: seq<Op>)
    ensures |Run(s, ops).accounts| == |s.accounts|
    ensures forall k :: 0 <= k < |s.accounts| ==>
              Run(s, ops).accounts[k].(balance := None) == s.accounts[k].(balance := None)
    decreases |ops|
  {
    hide Step;
    if ops == [] {
    } else {
      StepKeepsAccounts(s, ops[0]);
      RunKeepsAccounts(Step(s, ops[0]).0, ops[1..]);
    }
  }

  /** After the repair a manual balance is off by nothing but the drift of the calls since. */
  lemma {:induction false} BalanceSinceRepair(s: State, ops: seq<Op>, i: nat)
    requires Valid(s) && i < |s.accounts| && s.accounts[i].kind == "manual"
    ensures var id, s' := s.accounts[i].id, Run(Repair(s), ops);
            && |s'.accounts| == |s.accounts| && s'.accounts[i].id == id && s'.accounts[i].kind == "manual"
            && Cents(s'.accounts[i].balance) == LiveSum(s'.txns, id) + DriftOver(Repair(s), ops, id)
  {
    hide LiveSum, Run, DriftOver, Valid;
    var r := Repair(s);
    assert r.accounts[i].(balance := None) == s.accounts[i].(balance := None);
    assert r.accounts[i].id == s.accounts[i].id && r.accounts[i].kind == r.accounts[i].(balance := None).kind;
    RepairKeepsValid(s);
    RunKeepsAccounts(r, ops);
    BalanceEquation(r, ops, i);
    assert Run(r, ops).accounts[i].(balance := None).kind == r.accounts[i].(balance := None).kind;
  }

  /** From any state: a second repair changes nothing, and after the repair every manual balance is its
      live sum for as long as the calls are harmless. */
  lemma {:induction false} RepairedStaysInStep(s: State, ops: seq<Op>)
    requires Valid(s)
    ensures Repair(Repair(s)) == Repair(s)
    ensures AllHarmless(Repair(s), ops) ==> InStep(Run(Repair(s), ops))
  {
    hide LiveSum, Run, DriftOver, Valid, AllHarmless;
    var r := Repair(s);
    assert Repair(r) == r by {
      assert forall i :: 0 <= i < |r.accounts| ==> Repair(r).accounts[i] == r.accounts[i];
    }
    if AllHarmless(r, ops) {
      var s' := Run(r, ops);
      RunKeepsAccounts(r, ops);
      forall i | 0 <= i < |s'.accounts| && s'.accounts[i].kind == "manual"
        ensures Drift(s', i) == 0
      {
        assert s'.accounts[i].(balance := None).kind == r.accounts[i].(balance := None).kind;
        assert r.accounts[i].(balance := None).kind == s.accounts[i].(balance := None).kind;
        BalanceSinceRepair(s, ops, i);
        HarmlessRunHasNoDrift(r, ops, s.accounts[i].id);
      }
    }
  }

  // ----- What each call does, row by row -----

  /** Account a is the one of the user with this id. */
  ghost predicate IsAccount(s: State, id: string, uid: string, a: nat) {
    && a < |s.accounts| && s.accounts[a].id == id && s.accounts[a].uid == uid
    && forall k :: 0 <= k < a ==> !(s.accounts[k].id == id && s.accounts[k].uid == uid)
  }

  ghost predicate IsTxn(s: State, id: string, uid: string, t: nat) {
    && t < |s.txns| && s.txns[t].id == id && s.txns[t].uid == uid
    && forall k :: 0 <= k < t ==> !(s.txns[k].id == id && s.txns[k].uid == uid)
  }

  /** The balance of account a is raised by so much, a missing balance counting as zero; no other account
      changes, and nothing else of that one. */
  ghost predicate BalanceRaised(before: State, after: State, a: nat, cents: int) {
    && a < |before.accounts| == |after.accounts|
    && (forall k :: 0 <= k < |before.accounts| && k != a ==> after.accounts[k] == before.accounts[k])
    && after.accounts[a] == before.accounts[a].(balance := after.accounts[a].balance)
    && after.accounts[a].balance
       == Some((if before.accounts[a].balance.Some? then before.accounts[a].balance.value else 0) + cents)
  }

  /** Creating takes one of two plans, an account of the user, and one that is manual; the row is then stored
      with the amount that was asked for, live and manual, and the balance goes up by that amount. */
  lemma {:induction false} CreateIff(s: State, uid: string, tier: string, account: string, txn: string, cents: int)
    ensures var (s', outcome) := Step(s, Create(uid, tier, account, txn, cents));
            && (outcome == Done <==>
                  && tier in {"pro", "ultimate"} && (forall k :: 0 <= k < |s.txns| ==> s.txns[k].id != txn)
                  && exists a: nat :: IsAccount(s, account, uid, a) && s.accounts[a].kind == "manual")
            && (outcome != Done ==> s' == s)
            && (outcome == Done ==>
                  && s'.txns == s.txns + [Txn(txn, uid, account, cents, true, false)]
                  && exists a: nat :: IsAccount(s, account, uid, a) && BalanceRaised(s, s', a, cents))
  {
    AccountFound(s, account, uid);
    hide FindAccount;
    var a := FindAccount(s.accounts, account, uid);
    var (s', outcome) := Step(s, Create(uid, tier, account, txn, cents));
    if outcome == Done {
      assert IsAccount(s, account, uid, a) && BalanceRaised(s, s', a, cents);
    }
  }

  lemma {:induction false} AccountFound(s: State, id: string, uid: string)
    ensures var a := FindAccount(s.accounts, id, uid);
            && (a < |s.accounts| ==> IsAccount(s, id, uid, a))
            && (forall b: nat :: IsAccount(s, id, uid, b) ==> b == a)
  {
    FirstAccount(s.accounts, id, uid);
    hide FindAccount;
  }

  lemma {:induction false} FirstAccount(accounts: seq<Account>, id: string, uid: string)
    ensures forall k :: 0 <= k < FindAccount(accounts, id, uid) ==> !(accounts[k].id == id && accounts[k].uid == uid)
  {
    if accounts == [] || (accounts[0].id == id && accounts[0].uid == uid) {
    } else {
      FirstAccount(accounts[1..], id, uid);
      assert forall k :: 1 <= k < |accounts| ==> accounts[k] == accounts[1..][k - 1];
    }
  }

  lemma {:induction false} FirstTxn(txns: seq<Txn>, id: string, uid: string)
    ensures forall k :: 0 <= k < FindTxn(txns, id, uid) ==> !(txns[k].id == id && txns[k].uid == uid)
  {
    if txns == [] || (txns[0].id == id && txns[0].uid == uid) {
    } else {
      FirstTxn(txns[1..], id, uid);
      assert forall k :: 1 <= k < |txns| ==> txns[k] == txns[1..][k - 1];
    }
  }

  lemma {:induction false} TxnFound(s: State, id: string, uid: string)
    ensures var t := FindTxn(s.txns, id, uid);
            && (t < |s.txns| ==> IsTxn(s, id, uid, t))
            && (forall u: nat :: IsTxn(s, id, uid, u) ==> u == t)
  {
    FirstTxn(s.txns, id, uid);
    hide FindTxn;
  }

  /** An edit changes the amount of the user's row, if the row is manual and an amount is given, and nothing
      else; what a bank reported can be changed neither in its amount nor in its other fixed fields. */
  lemma {:induction false} EditIff(s: State, uid: string, txn: string, newCents: Option<int>, others: bool)
    ensures var (s', outcome) := Step(s, Edit(uid, txn, newCents, others));
            && (outcome == Done <==>
                  exists t: nat :: IsTxn(s, txn, uid, t) && (s.txns[t].isManual || (newCents.None? && !others)))
            && s'.accounts == s.accounts && |s'.txns| == |s.txns|
            && (forall k :: 0 <= k < |s.txns| ==>
                  s'.txns[k] == if IsTxn(s, txn, uid, k) && s.txns[k].isManual && newCents.Some?
                                then s.txns[k].(cents := newCents.value) else s.txns[k])
  {
    TxnFound(s, txn, uid);
    hide FindTxn;
    var t := FindTxn(s.txns, txn, uid);
    assert t < |s.txns| ==> IsTxn(s, txn, uid, t);
    hide IsTxn;
  }

  /** A deletion archives the user's row, if it is manual, and takes its amount off the balance of its account,
      whether or not the row was archived before. */
  lemma {:induction false} DeleteIff(s: State, uid: string, txn: string)
    ensures var (s', outcome) := Step(s, Delete(uid, txn));
            && (outcome == Done <==> exists t: nat :: IsTxn(s, txn, uid, t) && s.txns[t].isManual)
            && (outcome != Done ==> s' == s)
            && (outcome == Done ==>
                  && |s'.txns| == |s.txns|
                  && (forall k :: 0 <= k < |s.txns| ==>
                        s'.txns[k] == if IsTxn(s, txn, uid, k) then s.txns[k].(archived := true) else s.txns[k])
                  && (forall t: nat :: IsTxn(s, txn, uid, t) ==> TakenOff(s, s', uid, t)))
  {
    TxnFound(s, txn, uid);
    hide FindTxn;
    var t := FindTxn(s.txns, txn, uid);
    if t < |s.txns| {
      AccountFound(s, s.txns[t].account, uid);
      assert IsTxn(s, txn, uid, t);
    }
    hide FindAccount, IsTxn;
  }

  /** The amount of row t is off the balance of the user's account of the row, if there is one. */
  ghost predicate TakenOff(s: State, s': State, uid: string, t: nat)
    requires t < |s.txns|
  {
    if exists a: nat :: IsAccount(s, s.txns[t].account, uid, a)
    then exists a: nat :: IsAccount(s, s.txns[t].account, uid, a) && BalanceRaised(s, s', a, -s.txns[t].cents)
    else s'.accounts == s.accounts
  }
}
