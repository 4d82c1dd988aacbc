/** Unspent transaction outputs: a pool of transactions, a wallet of balances, and the admission check. */
module Utxo {
  import opened Common

  datatype In = In(prevId: int, outIdx: int)
  datatype Out = Out(address: string, value: int, spent: bool, pubKey: string)
  datatype Tx = Tx(address: string, sig: string, ins: seq<In>, outs: seq<Out>)

  /** Signature check over the sender's address and the sum of the input ids. */
  datatype Env = Env(verify: (string, int, string, string) -> bool)

  /** Pool entries are numbered by position; an address missing from the wallet has balance 0. */
  datatype Ledger = Ledger(txs: seq<Tx>, wallet: map<string, int>)

  datatype Outcome = Accepted(id: nat) | Rejected | Aborted

  // ---------------------------------------------------------------- admission

  predicate Known(txs: seq<Tx>, i: In) {
    0 <= i.prevId < |txs| && 0 <= i.outIdx < |txs[i.prevId].outs|
  }

  function OutAt(txs: seq<Tx>, i: In): Out
    requires Known(txs, i)
  {
    txs[i.prevId].outs[i.outIdx]
  }

  /** TxMempool::GetUTXO. */
  predicate Spendable(txs: seq<Tx>, i: In, address: string) {
    Known(txs, i) && !OutAt(txs, i).spent && OutAt(txs, i).address == address
  }

  function Sum(outs: seq<Out>): int {
    if outs == [] then 0 else Sum(outs[..|outs| - 1]) + outs[|outs| - 1].value
  }

  /** A negative position into a known transaction, which protobuf's indexed access does not survive. */
  predicate Stray(txs: seq<Tx>, i: In) { 0 <= i.prevId < |txs| && i.outIdx < 0 }

  /** The lookup of the inputs gets as far as a stray one. */
  predicate Strays(txs: seq<Tx>, tx: Tx) {
    exists i :: 0 <= i < |tx.ins| && Stray(txs, tx.ins[i]) && AllSpendable(txs, tx.ins, tx.address, i)
  }

  /** What the lookup of the inputs gathers: the outputs, the first key that is not empty, the sum of the ids. */
  datatype Found = Found(outs: seq<Out>, key: string, nonce: int)

  predicate AllSpendable(txs: seq<Tx>, ins: seq<In>, address: string, n: nat)
    requires n <= |ins|
  {
    forall i :: 0 <= i < n ==> Spendable(txs, ins[i], address)
  }

  /** The first n inputs. */
  function FoundOf(txs: seq<Tx>, ins: seq<In>, address: string, n: nat): (f: Found)
    requires n <= |ins| && AllSpendable(txs, ins, address, n)
    ensures |f.outs| == n
  {
    if n == 0 then Found([], "", 0)
    else
      var f, out := FoundOf(txs, ins, address, n - 1), OutAt(txs, ins[n - 1]);
      Found(f.outs + [out], if f.key == "" then out.pubKey else f.key, f.nonce + ins[n - 1].prevId)
  }

  predicate InputsOk(env: Env, txs: seq<Tx>, tx: Tx) {
    || (tx.ins == [] && tx.address == "0000")
    || (&& tx.ins != [] && tx.sig != "" && AllSpendable(txs, tx.ins, tx.address, |tx.ins|)
        && var f := FoundOf(txs, tx.ins, tx.address, |tx.ins|);
           && env.verify(tx.address, f.nonce, f.key, tx.sig)
           && forall i :: 0 <= i < |f.outs| ==> f.outs[i].pubKey == f.key)
  }

  /** The inputs must be worth strictly more than the outputs. */
  predicate Admits(env: Env, txs: seq<Tx>, tx: Tx) {
    InputsOk(env, txs, tx) && Sum(FoundOf(txs, tx.ins, tx.address, |tx.ins|).outs) > Sum(tx.outs)
  }

  /** MarkSpend returns -1 for an unknown output. */
  function ValueAt(txs: seq<Tx>, i: In): int { if Known(txs, i) then OutAt(txs, i).value else -1 }

  /** AddCoin asserts that no marked output is negative. */
  predicate Aborts(txs: seq<Tx>, tx: Tx) { exists i :: 0 <= i < |tx.ins| && ValueAt(txs, tx.ins[i]) < 0 }

  // ---------------------------------------------------------------- effect

  function Mark(txs: seq<Tx>, i: In): seq<Tx> {
    if !Known(txs, i) then txs
    else
      var tx := txs[i.prevId];
      txs[i.prevId := tx.(outs := tx.outs[i.outIdx := tx.outs[i.outIdx].(spent := true)])]
  }

  function MarkAll(txs: seq<Tx>, ins: seq<In>): (r: seq<Tx>)
    ensures |r| == |txs|
  {
    if ins == [] then txs else Mark(MarkAll(txs, ins[..|ins| - 1]), ins[|ins| - 1])
  }

  /** What a list of inputs claims: their values, an input listed twice counted twice. */
  function Claimed(txs: seq<Tx>, ins: seq<In>): int {
    if ins == [] then 0 else Claimed(txs, ins[..|ins| - 1]) + ValueAt(txs, ins[|ins| - 1])
  }

  function Balance(wallet: map<string, int>, a: string): int {
    if a in wallet then wallet[a] else 0
  }

  function AddCoin(wallet: map<string, int>, a: string, value: int): map<string, int> {
    wallet[a := Balance(wallet, a) + value]
  }

  function Credit(wallet: map<string, int>, outs: seq<Out>): map<string, int> {
    if outs == [] then wallet
    else AddCoin(Credit(wallet, outs[..|outs| - 1]), outs[|outs| - 1].address, outs[|outs| - 1].value)
  }

  function Apply(s: Ledger, tx: Tx): Ledger {
    Ledger(MarkAll(s.txs, tx.ins) + [tx],
           Credit(AddCoin(s.wallet, tx.address, -Claimed(s.txs, tx.ins)), tx.outs))
  }

  function OutcomeOf(env: Env, s: Ledger, tx: Tx): Outcome {
    if Strays(s.txs, tx) then Aborted
    else if !Admits(env, s.txs, tx) then Rejected
    else if Aborts(s.txs, tx) then Aborted
    else Accepted(|s.txs|)
  }

  function Step(env: Env, s: Ledger, tx: Tx): Ledger {
    if OutcomeOf(env, s, tx).Accepted? then Apply(s, tx) else s
  }

  function CreditAll(wallet: map<string, int>, txs: seq<Tx>): map<string, int> {
    if txs == [] then wallet else Credit(CreditAll(wallet, txs[..|txs| - 1]), txs[|txs| - 1].outs)
  }

  // ---------------------------------------------------------------- the manager

  datatype Inputs = Crashed | Refused | Gathered(outs: seq<Out>)

  class Transaction {
    const env: Env
    var txs: seq<Tx>
    var wallet: map<string, int>

    ghost function Abs(): Ledger
      reads this
    {
      Ledger(txs, wallet)
    }

    constructor (env: Env, genesis: seq<Tx>)
      ensures this.env == env && Abs() == Ledger(genesis, CreditAll(map[], genesis))
    {
      this.env := env;
      txs, wallet := [], map[];
      new;
      for g := 0 to |genesis|
        invariant txs == genesis[..g] && wallet == CreditAll(map[], genesis[..g]) && this.env == env
      {
        assert genesis[..g + 1][..g] == genesis[..g];
        txs := txs + [genesis[g]];
        CreditOuts(genesis[g].outs);
      }
      assert genesis[..|genesis|] == genesis;
    }

    method CreditOuts(outs: seq<Out>)
      modifies this`wallet
      ensures wallet == Credit(old(wallet), outs)
    {
      for o := 0 to |outs|
        invariant wallet == Credit(old(wallet), outs[..o])
      {
        assert outs[..o + 1][..o] == outs[..o];
        wallet := AddCoin(wallet, outs[o].address, outs[o].value);
      }
      assert outs[..|outs|] == outs;
    }

    method GetInput(tx: Tx) returns (r: Inputs)
      ensures r.Crashed? <==> Strays(txs, tx)
      ensures r.Gathered? <==> InputsOk(env, txs, tx)
      ensures r.Gathered? ==> r.outs == FoundOf(txs, tx.ins, tx.address, |tx.ins|).outs
    {
      if tx.ins == [] && tx.address == "0000" { return Gathered([]); }
      var stray, found := Collect(tx);
      if stray { return Crashed; }
      if found.None? || found.value.outs == [] || tx.sig == "" { return Refused; }
      if !env.verify(tx.address, found.value.nonce, found.value.key, tx.sig) { return Refused; }
      var same := SameKeys(found.value.outs, found.value.key);
      if !same { return Refused; }
      r := Gathered(found.value.outs);
    }

    method SameKeys(outs: seq<Out>, key: string) returns (same: bool)
      ensures same <==> forall i :: 0 <= i < |outs| ==> outs[i].pubKey == key
    {
      for i := 0 to |outs|
        invariant forall j :: 0 <= j < i ==> outs[j].pubKey == key
      {
        if outs[i].pubKey != key { return false; }
      }
      same := true;
    }

    method Collect(tx: Tx) returns (stray: bool, r: Option<Found>)
      ensures stray <==> Strays(txs, tx)
      ensures r.Some? <==> AllSpendable(txs, tx.ins, tx.address, |tx.ins|)
      ensures r.Some? ==> r.value == FoundOf(txs, tx.ins, tx.address, |tx.ins|)
    {
      var f := Found([], "", 0);
      for i := 0 to |tx.ins|
        invariant AllSpendable(txs, tx.ins, tx.address, i) && f == FoundOf(txs, tx.ins, tx.address, i)
      {
        if Stray(txs, tx.ins[i]) { return true, None; }
        if !Spendable(txs, tx.ins[i], tx.address) { return false, None; }
        var out := OutAt(txs, tx.ins[i]);
        f := Found(f.outs + [out], if f.key == "" then out.pubKey else f.key, f.nonce + tx.ins[i].prevId);
      }
      stray, r := false, Some(f);
    }

    method VerifyUTXO(tx: Tx, inputs: seq<Out>) returns (ok: bool)
      ensures ok <==> Sum(inputs) > Sum(tx.outs)
    {
      var total := 0;
      for i := 0 to |inputs|
        invariant total == Sum(inputs[..i])
      {
        assert inputs[..i + 1][..i] == inputs[..i];
        total := total + inputs[i].value;
      }
      assert inputs[..|inputs|] == inputs;
      for o := 0 to |tx.outs|
        invariant total == Sum(inputs) - Sum(tx.outs[..o])
      {
        assert tx.outs[..o + 1][..o] == tx.outs[..o];
        total := total - tx.outs[o].value;
      }
      assert tx.outs[..|tx.outs|] == tx.outs;
      ok := total > 0;
    }

    /** Marks the inputs; None where the assertion on a marked value fails. */
    method MarkSpends(tx: Tx) returns (total: Option<int>)
      modifies this`txs
      ensures total.None? <==> Aborts(old(txs), tx)
      ensures total.Some? ==> txs == MarkAll(old(txs), tx.ins) && total.value == Claimed(old(txs), tx.ins)
    {
      var sum := 0;
      for i := 0 to |tx.ins|
        invariant txs == MarkAll(old(txs), tx.ins[..i]) && sum == Claimed(old(txs), tx.ins[..i])
        invariant forall j :: 0 <= j < i ==> ValueAt(old(txs), tx.ins[j]) >= 0
      {
        assert tx.ins[..i + 1][..i] == tx.ins[..i];
        MarkedValue(old(txs), tx.ins[..i + 1], tx.ins[i]);
        txs := Mark(txs, tx.ins[i]);
        var value := ValueAt(txs, tx.ins[i]);
        if value < 0 { return None; }
        sum := sum + value;
      }
      assert tx.ins[..|tx.ins|] == tx.ins;
      total := Some(sum);
    }

    /** An aborted call ends the process: its half-made state is nobody's. */
    method AddTransaction(tx: Tx) returns (r: Outcome)
      modifies this
      ensures r == OutcomeOf(env, old(Abs()), tx)
      ensures !r.Aborted? ==> Abs() == Step(env, old(Abs()), tx)
    {
      hide Strays, Aborts, MarkAll, Claimed, Credit;
      var ins := GetInput(tx);
      if ins.Crashed? { return Aborted; }
      if ins.Refused? { return Rejected; }
      var enough := VerifyUTXO(tx, ins.outs);
      if !enough { return Rejected; }
      var total := MarkSpends(tx);
      if total.None? { return Aborted; }
      wallet := AddCoin(wallet, tx.address, -total.value);
      CreditOuts(tx.outs);
      r := Accepted(|txs|);
      txs := txs + [tx];
    }
  }

  lemma {:induction false} FoundClaims(txs: seq<Tx>, ins: seq<In>, address: string, n: nat)
    requires n <= |ins| && AllSpendable(txs, ins, address, n)
    ensures Sum(FoundOf(txs, ins, address, n).outs) == Claimed(txs, ins[..n])
  {
    if n > 0 {
      FoundClaims(txs, ins, address, n - 1);
      var before, out := FoundOf(txs, ins, address, n - 1).outs, OutAt(txs, ins[n - 1]);
      assert (before + [out])[..|before|] == before && ins[..n][..n - 1] == ins[..n - 1];
    }
  }

  /** Marking changes the spent flag of the listed outputs and nothing else. */
  lemma {:induction false} MarkedOut(txs: seq<Tx>, ins: seq<In>, i: In)
    ensures Known(MarkAll(txs, ins), i) <==> Known(txs, i)
    ensures Known(txs, i) ==>
              OutAt(MarkAll(txs, ins), i) == OutAt(txs, i).(spent := OutAt(txs, i).spent || i in ins)
  {
    if ins != [] {
      var init, last := ins[..|ins| - 1], ins[|ins| - 1];
      MarkedOut(txs, init, i);
      assert ins == init + [last];
    }
  }

  lemma MarkedValue(txs: seq<Tx>, ins: seq<In>, i: In)
    ensures ValueAt(MarkAll(txs, ins), i) == ValueAt(txs, i)
  {
    MarkedOut(txs, ins, i);
  }

  // ---------------------------------------------------------------- unspent value

  /** Whose outputs are summed: one address, or everybody. */
  datatype Who = Everyone | Only(address: string)

  predicate Counts(o: Out, who: Who) { who.Everyone? || o.address == who.address }

  function Unspent(outs: seq<Out>, who: Who): int {
    if outs == [] then 0
    else
      var o := outs[|outs| - 1];
      Unspent(outs[..|outs| - 1], who) + (if !o.spent && Counts(o, who) then o.value else 0)
  }

  function UnspentIn(txs: seq<Tx>, who: Who): int {
    if txs == [] then 0 else UnspentIn(txs[..|txs| - 1], who) + Unspent(txs[|txs| - 1].outs, who)
  }

  /** Value of outputs that arrive already flagged as spent. */
  function PreSpent(outs: seq<Out>, who: Who): int {
    if outs == [] then 0
    else
      var o := outs[|outs| - 1];
      PreSpent(outs[..|outs| - 1], who) + (if o.spent && Counts(o, who) then o.value else 0)
  }

  /** Value of the inputs that repeat an earlier one of the same list. */
  function Repeated(txs: seq<Tx>, ins: seq<In>): int {
    if ins == [] then 0
    else
      var init, last := ins[..|ins| - 1], ins[|ins| - 1];
      Repeated(txs, init) + (if last in init then ValueAt(txs, last) else 0)
  }

  lemma {:induction false} UnspentSet(outs: seq<Out>, k: nat, who: Who)
    requires k < |outs|
    ensures var o := outs[k];
            Unspent(outs[k := o.(spent := true)], who)
            == Unspent(outs, who) - (if !o.spent && Counts(o, who) then o.value else 0)
  {
    var init, n := outs[..|outs| - 1], |outs| - 1;
    var set' := outs[k := outs[k].(spent := true)];
    if k < n {
      UnspentSet(init, k, who);
      assert set'[..n] == init[k := outs[k].(spent := true)];
    } else {
      assert set'[..n] == init;
    }
  }

  lemma {:induction false} UnspentPut(txs: seq<Tx>, k: nat, tx: Tx, who: Who)
    requires k < |txs|
    ensures UnspentIn(txs[k := tx], who) == UnspentIn(txs, who) - Unspent(txs[k].outs, who) + Unspent(tx.outs, who)
  {
    var init, n := txs[..|txs| - 1], |txs| - 1;
    if k < n {
      UnspentPut(init, k, tx, who);
      assert txs[k := tx][..n] == init[k := tx];
    } else {
      assert txs[k := tx][..n] == init;
    }
  }

  /** Marking a list of unspent outputs of one address takes each of them off once. */
  lemma {:induction false} MarkAllUnspent(txs: seq<Tx>, ins: seq<In>, address: string, who: Who)
    requires forall i :: 0 <= i < |ins| ==> Spendable(txs, ins[i], address)
    ensures UnspentIn(MarkAll(txs, ins), who) == UnspentIn(txs, who)
            - (if who.Everyone? || who.address == address then Claimed(txs, ins) - Repeated(txs, ins) else 0)
  {
    if ins != [] {
      var init, last := ins[..|ins| - 1], ins[|ins| - 1];
      MarkAllUnspent(txs, init, address, who);
      assert Spendable(txs, last, address);
      MarkedOut(txs, init, last);
      var before := MarkAll(txs, init);
      UnspentSet(before[last.prevId].outs, last.outIdx, who);
      UnspentPut(before, last.prevId, Mark(before, last)[last.prevId], who);
    }
  }

  lemma {:induction false} CreditBalance(wallet: map<string, int>, outs: seq<Out>, a: string)
    ensures Balance(Credit(wallet, outs), a) == Balance(wallet, a) + Unspent(outs, Only(a)) + PreSpent(outs, Only(a))
  {
    if outs != [] { CreditBalance(wallet, outs[..|outs| - 1], a); }
  }

  lemma {:induction false} SumSplit(outs: seq<Out>)
    ensures Sum(outs) == Unspent(outs, Everyone) + PreSpent(outs, Everyone)
  {
    if outs != [] { SumSplit(outs[..|outs| - 1]); }
  }

  lemma AdmittedInputs(env: Env, s: Ledger, tx: Tx)
    requires Admits(env, s.txs, tx)
    ensures forall i :: 0 <= i < |tx.ins| ==> Spendable(s.txs, tx.ins[i], tx.address)
    ensures Claimed(s.txs, tx.ins) > Sum(tx.outs)
  {
    FoundClaims(s.txs, tx.ins, tx.address, |tx.ins|);
    assert tx.ins[..|tx.ins|] == tx.ins;
  }

  lemma UnspentOfApply(s: Ledger, tx: Tx, who: Who)
    requires forall i :: 0 <= i < |tx.ins| ==> Spendable(s.txs, tx.ins[i], tx.address)
    ensures UnspentIn(Apply(s, tx).txs, who) == UnspentIn(s.txs, who) + Unspent(tx.outs, who)
            - (if who.Everyone? || who.address == tx.address
               then Claimed(s.txs, tx.ins) - Repeated(s.txs, tx.ins) else 0)
  {
    MarkAllUnspent(s.txs, tx.ins, tx.address, who);
    var marked := MarkAll(s.txs, tx.ins);
    assert (marked + [tx])[..|marked|] == marked;
  }

  lemma BalanceOfApply(s: Ledger, tx: Tx, a: string)
    ensures Balance(Apply(s, tx).wallet, a) == Balance(s.wallet, a)
            - (if a == tx.address then Claimed(s.txs, tx.ins) else 0) + Unspent(tx.outs, Only(a))
                + PreSpent(tx.outs, Only(a))
  {
    CreditBalance(AddCoin(s.wallet, tx.address, -Claimed(s.txs, tx.ins)), tx.outs, a);
  }

  /** How far a balance is from the unspent outputs it should equal. */
  function Drift(s: Ledger, a: string): int { Balance(s.wallet, a) - UnspentIn(s.txs, Only(a)) }

  /**
   * The exact effect of an accepted transaction: at the sender's address the balance drops
   * below the unspent outputs by the value of repeated inputs, and at any address it rises above
   * them by the value of outputs that come flagged as spent. Nothing else moves it.
   */
  lemma DriftOfStep(env: Env, s: Ledger, tx: Tx, a: string)
    requires OutcomeOf(env, s, tx).Accepted?
    ensures Drift(Step(env, s, tx), a)
            == Drift(s, a) - (if a == tx.address then Repeated(s.txs, tx.ins) else 0) + PreSpent(tx.outs, Only(a))
  {
    AdmittedInputs(env, s, tx);
    UnspentOfApply(s, tx, Only(a));
    BalanceOfApply(s, tx, a);
  }

  /** The total unspent value strictly falls, but for repeated inputs and flagged outputs. */
  lemma TotalOfStep(env: Env, s: Ledger, tx: Tx)
    requires OutcomeOf(env, s, tx).Accepted?
    ensures UnspentIn(Step(env, s, tx).txs, Everyone)
            < UnspentIn(s.txs, Everyone) + Repeated(s.txs, tx.ins) - PreSpent(tx.outs, Everyone)
  {
    AdmittedInputs(env, s, tx);
    UnspentOfApply(s, tx, Everyone);
    SumSplit(tx.outs);
  }

  // ---------------------------------------------------------------- when balances are exact

  ghost predicate Balanced(s: Ledger) { forall a :: Drift(s, a) == 0 }

  predicate Unflagged(outs: seq<Out>) { forall o :: 0 <= o < |outs| ==> !outs[o].spent }

  predicate NonNegative(outs: seq<Out>) { forall o :: 0 <= o < |outs| ==> outs[o].value >= 0 }

  ghost predicate PoolNonNegative(txs: seq<Tx>) { forall t :: 0 <= t < |txs| ==> NonNegative(txs[t].outs) }

  /** Some input with a value is listed more than once. */
  ghost predicate RepeatsValue(txs: seq<Tx>, ins: seq<In>) {
    exists i, j :: 0 <= i < j < |ins| && ins[i] == ins[j] && ValueAt(txs, ins[j]) != 0
  }

  lemma {:induction false} NothingFlagged(outs: seq<Out>, who: Who)
    requires Unflagged(outs)
    ensures PreSpent(outs, who) == 0
  {
    if outs != [] { NothingFlagged(outs[..|outs| - 1], who); }
  }

  lemma RepeatsMore(txs: seq<Tx>, ins: seq<In>)
    requires ins != []
    ensures var init, last := ins[..|ins| - 1], ins[|ins| - 1];
            RepeatsValue(txs, ins) <==> RepeatsValue(txs, init) || (last in init && ValueAt(txs, last) != 0)
  {
    var n := |ins| - 1;
    var init, last := ins[..n], ins[n];
    assert forall i :: 0 <= i < n ==> init[i] == ins[i];
    if last in init && ValueAt(txs, last) != 0 {
      var i :| 0 <= i < n && init[i] == last;
      assert ins[i] == ins[n];
    }
    if RepeatsValue(txs, ins) {
      var i, j :| 0 <= i < j < |ins| && ins[i] == ins[j] && ValueAt(txs, ins[j]) != 0;
      if j < n { assert init[i] == init[j]; } else { assert init[i] == last; }
    }
  }

  lemma {:induction false} RepeatedIff(txs: seq<Tx>, ins: seq<In>)
    requires (forall i :: 0 <= i < |ins| ==> Known(txs, ins[i])) && PoolNonNegative(txs)
    ensures Repeated(txs, ins) >= 0
    ensures Repeated(txs, ins) > 0 <==> RepeatsValue(txs, ins)
  {
    if ins != [] {
      var last := ins[|ins| - 1];
      RepeatedIff(txs, ins[..|ins| - 1]);
      RepeatsMore(txs, ins);
      assert Known(txs, last) && NonNegative(txs[last.prevId].outs);
    }
  }

  /** Every balance still equals its unspent outputs after an accepted step iff no input of value is repeated. */
  lemma BalancedIff(env: Env, s: Ledger, tx: Tx)
    requires Balanced(s) && PoolNonNegative(s.txs) && Unflagged(tx.outs) && OutcomeOf(env, s, tx).Accepted?
    ensures Balanced(Step(env, s, tx)) <==> !RepeatsValue(s.txs, tx.ins)
  {
    AdmittedInputs(env, s, tx);
    RepeatedIff(s.txs, tx.ins);
    forall a ensures Drift(Step(env, s, tx), a) == -(if a == tx.address then Repeated(s.txs, tx.ins) else 0) {
      DriftOfStep(env, s, tx, a);
      NothingFlagged(tx.outs, Only(a));
    }
    assert Drift(Step(env, s, tx), tx.address) == -Repeated(s.txs, tx.ins);
  }

  /** An input listed twice is debited twice and taken off the unspent outputs once. */
  lemma RepeatBreaksBalance(env: Env, o: Out)
    requires o == Out("a", 5, false, "k") && env.verify("a", 0, "k", "s")
    ensures var s := Ledger([Tx("g", "", [], [o])], map["a" := 5]);
            var tx := Tx("a", "s", [In(0, 0), In(0, 0)], [Out("b", 9, false, "k")]);
            Balanced(s) && OutcomeOf(env, s, tx).Accepted? && !Balanced(Step(env, s, tx))
  {
    var s := Ledger([Tx("g", "", [], [o])], map["a" := 5]);
    var tx := Tx("a", "s", [In(0, 0), In(0, 0)], [Out("b", 9, false, "k")]);
    assert OutAt(s.txs, In(0, 0)) == o && Spendable(s.txs, In(0, 0), "a")
        && FoundOf(s.txs, tx.ins, "a", 0) == Found([], "", 0);
    assert FoundOf(s.txs, tx.ins, "a", 1) == Found([] + [o], "k", 0);
    assert FoundOf(s.txs, tx.ins, "a", 2) == Found([o] + [o], "k", 0);
    assert [o, o] == [o] + [o] && [o, o][..1] == [o] && [o][..0] == [];
    assert Sum([o]) == Sum([o][..0]) + 5 && Sum([o, o]) == Sum([o, o][..1]) + 5;
    assert Sum(tx.outs) == Sum(tx.outs[..0]) + 9 && tx.outs[..0] == [];
    assert s.txs[..0] == [];
    forall a ensures Drift(s, a) == 0 {
      assert Unspent([o], Only(a)) == if a == "a" then 5 else 0;
      assert UnspentIn(s.txs, Only(a)) == UnspentIn([], Only(a)) + Unspent([o], Only(a));
    }
    BalancedIff(env, s, tx);
    assert tx.ins[0] == tx.ins[1];
  }

  // ---------------------------------------------------------------- whole histories

  function Run(env: Env, genesis: seq<Tx>, history: seq<Tx>): Ledger {
    if history == [] then Ledger(genesis, CreditAll(map[], genesis))
    else Step(env, Run(env, genesis, history[..|history| - 1]), history[|history| - 1])
  }

  predicate AcceptedAt(env: Env, genesis: seq<Tx>, history: seq<Tx>, n: nat)
    requires n < |history|
  {
    OutcomeOf(env, Run(env, genesis, history[..n]), history[n]).Accepted?
  }

  lemma StepKeepsSpent(env: Env, s: Ledger, tx: Tx, i: In)
    requires Known(s.txs, i)
    ensures var t := Step(env, s, tx);
            && Known(t.txs, i)
            && (OutAt(t.txs, i).spent <==>
                  OutAt(s.txs, i).spent || (OutcomeOf(env, s, tx).Accepted? && i in tx.ins))
  {
    if OutcomeOf(env, s, tx).Accepted? {
      AdmittedInputs(env, s, tx);
      MarkedOut(s.txs, tx.ins, i);
    }
  }

  lemma SpentNow(env: Env, s: Ledger, tx: Tx, i: In)
    requires OutcomeOf(env, s, tx).Accepted? && i in tx.ins
    ensures Known(Step(env, s, tx).txs, i) && OutAt(Step(env, s, tx).txs, i).spent
  {
    AdmittedInputs(env, s, tx);
    StepKeepsSpent(env, s, tx, i);
  }

  lemma {:induction false} SpentStays(env: Env, genesis: seq<Tx>, history: seq<Tx>, n: nat, i: In)
    requires n < |history| && AcceptedAt(env, genesis, history, n) && i in history[n].ins
    ensures var s := Run(env, genesis, history); Known(s.txs, i) && OutAt(s.txs, i).spent
  {
    var init, last := history[..|history| - 1], history[|history| - 1];
    if n == |history| - 1 {
      SpentNow(env, Run(env, genesis, init), last, i);
    } else {
      assert init[..n] == history[..n];
      SpentStays(env, genesis, init, n, i);
      StepKeepsSpent(env, Run(env, genesis, init), last, i);
    }
  }

  /** No output is consumed by two accepted transactions of a history. */
  lemma NoDoubleSpend(env: Env, genesis: seq<Tx>, history: seq<Tx>, m: nat, n: nat, i: In)
    requires m < n < |history| && AcceptedAt(env, genesis, history, m) && i in history[m].ins
    requires AcceptedAt(env, genesis, history, n)
    ensures i !in history[n].ins
  {
    assert history[..n][..m] == history[..m];
    SpentStays(env, genesis, history[..n], m, i);
    AdmittedInputs(env, Run(env, genesis, history[..n]), history[n]);
  }

  /** Transactions whose inputs are distinct and whose outputs are new and not negative. */
  ghost predicate WellFormed(tx: Tx) {
    Distinct(tx.ins) && Unflagged(tx.outs) && NonNegative(tx.outs)
  }

  ghost predicate AllWellFormed(txs: seq<Tx>) { forall t :: 0 <= t < |txs| ==> WellFormed(txs[t]) }

  lemma {:induction false} GenesisBalance(genesis: seq<Tx>, a: string)
    requires AllWellFormed(genesis)
    ensures Balance(CreditAll(map[], genesis), a) == UnspentIn(genesis, Only(a))
  {
    if genesis != [] {
      var init, last := genesis[..|genesis| - 1], genesis[|genesis| - 1];
      GenesisBalance(init, a);
      assert WellFormed(genesis[|genesis| - 1]);
      CreditBalance(CreditAll(map[], init), last.outs, a);
      NothingFlagged(last.outs, Only(a));
    }
  }

  lemma StepKeepsNonNegative(env: Env, s: Ledger, tx: Tx)
    requires PoolNonNegative(s.txs) && NonNegative(tx.outs)
    ensures PoolNonNegative(Step(env, s, tx).txs) && (OutcomeOf(env, s, tx).Aborted? <==> Strays(s.txs, tx))
  {
    if Admits(env, s.txs, tx) {
      AdmittedInputs(env, s, tx);
      forall i | 0 <= i < |tx.ins| ensures ValueAt(s.txs, tx.ins[i]) >= 0 {
        assert Spendable(s.txs, tx.ins[i], tx.address) && NonNegative(s.txs[tx.ins[i].prevId].outs);
      }
    }
    if OutcomeOf(env, s, tx).Accepted? {
      AdmittedInputs(env, s, tx);
      var marked := MarkAll(s.txs, tx.ins);
      forall t, o | 0 <= t < |marked| && 0 <= o < |marked[t].outs| ensures marked[t].outs[o].value >= 0 {
        MarkedOut(s.txs, tx.ins, In(t, o));
        assert NonNegative(s.txs[t].outs);
      }
    }
  }

  lemma {:induction false} UnspentNonNegative(outs: seq<Out>, who: Who)
    requires NonNegative(outs)
    ensures Unspent(outs, who) >= 0
  {
    if outs != [] { UnspentNonNegative(outs[..|outs| - 1], who); }
  }

  lemma {:induction false} PoolUnspentNonNegative(txs: seq<Tx>, who: Who)
    requires PoolNonNegative(txs)
    ensures UnspentIn(txs, who) >= 0
  {
    if txs != [] {
      PoolUnspentNonNegative(txs[..|txs| - 1], who);
      assert NonNegative(txs[|txs| - 1].outs);
      UnspentNonNegative(txs[|txs| - 1].outs, who);
    }
  }

  /** Over a history of well-formed transactions every balance is its unspent outputs and never negative. */
  lemma {:induction false} BalancesAreUnspent(env: Env, genesis: seq<Tx>, history: seq<Tx>, a: string)
    requires AllWellFormed(genesis) && AllWellFormed(history)
    ensures var s := Run(env, genesis, history);
            PoolNonNegative(s.txs) && Balance(s.wallet, a) == UnspentIn(s.txs, Only(a)) >= 0
  {
    if history == [] {
      GenesisBalance(genesis, a);
    } else {
      var init, tx := history[..|history| - 1], history[|history| - 1];
      var s := Run(env, genesis, init);
      BalancesAreUnspent(env, genesis, init, a);
      assert WellFormed(history[|history| - 1]);
      StepKeepsNonNegative(env, s, tx);
      if OutcomeOf(env, s, tx).Accepted? {
        AdmittedInputs(env, s, tx);
        DriftOfStep(env, s, tx, a);
        NothingFlagged(tx.outs, Only(a));
        RepeatedIff(s.txs, tx.ins);
      }
    }
    PoolUnspentNonNegative(Run(env, genesis, history).txs, Only(a));
  }

  /** Transactions in the pool beyond genesis, one for each that was accepted. */
  function AcceptedCount(env: Env, genesis: seq<Tx>, history: seq<Tx>): int {
    |Run(env, genesis, history).txs| - |genesis|
  }

  /** Each accepted transaction costs the total at least 1, so genesis bounds how many there can be. */
  lemma {:induction false} GenesisBoundsHistory(env: Env, genesis: seq<Tx>, history: seq<Tx>)
    requires AllWellFormed(genesis) && AllWellFormed(history)
    ensures 0 <= AcceptedCount(env, genesis, history)
    ensures UnspentIn(Run(env, genesis, history).txs, Everyone) >= 0
    ensures AcceptedCount(env, genesis, history) + UnspentIn(Run(env, genesis, history).txs, Everyone)
            <= UnspentIn(genesis, Everyone)
  {
    if history != [] {
      var init, tx := history[..|history| - 1], history[|history| - 1];
      var s := Run(env, genesis, init);
      GenesisBoundsHistory(env, genesis, init);
      BalancesAreUnspent(env, genesis, init, "");
      assert WellFormed(history[|history| - 1]);
      if OutcomeOf(env, s, tx).Accepted? {
        AdmittedInputs(env, s, tx);
        TotalOfStep(env, s, tx);
        NothingFlagged(tx.outs, Everyone);
        RepeatedIff(s.txs, tx.ins);
      }
    }
    BalancesAreUnspent(env, genesis, history, "");
    PoolUnspentNonNegative(Run(env, genesis, history).txs, Everyone);
  }

  // ---------------------------------------------------------------- what an accepted transaction has shown

  /** The sum of the ids the inputs name, which the signature covers. */
  function SumIds(ins: seq<In>): int {
    if ins == [] then 0 else SumIds(ins[..|ins| - 1]) + ins[|ins| - 1].prevId
  }

  /** The input names an output of the pool, not spent, of the given address and key. */
  predicate OwnOutput(txs: seq<Tx>, i: In, address: string, key: string) {
    && 0 <= i.prevId < |txs| && 0 <= i.outIdx < |txs[i.prevId].outs|
    && var out := txs[i.prevId].outs[i.outIdx];
       !out.spent && out.address == address && out.pubKey == key
  }

  /** What the outputs the inputs name are worth. */
  function Worth(txs: seq<Tx>, ins: seq<In>): int
    requires forall i :: 0 <= i < |ins| ==> Known(txs, ins[i])
  {
    if ins == [] then 0
    else
      var n := |ins| - 1;
      assert Known(txs, ins[n]);
      Worth(txs, ins[..n]) + txs[ins[n].prevId].outs[ins[n].outIdx].value
  }

  /** The sender owns all inputs under one key, and has signed for them with it. */
  ghost predicate SignedFor(env: Env, txs: seq<Tx>, tx: Tx, key: string) {
    && tx.sig != "" && (forall i :: 0 <= i < |tx.ins| ==> OwnOutput(txs, tx.ins[i], tx.address, key))
    && env.verify(tx.address, SumIds(tx.ins), key, tx.sig)
  }

  lemma {:induction false} FoundFacts(txs: seq<Tx>, ins: seq<In>, address: string, n: nat)
    requires n <= |ins| && AllSpendable(txs, ins, address, n)
    ensures var f := FoundOf(txs, ins, address, n);
            f.nonce == SumIds(ins[..n]) && forall i :: 0 <= i < n ==> f.outs[i] == OutAt(txs, ins[i])
  {
    if n > 0 {
      FoundFacts(txs, ins, address, n - 1);
      assert ins[..n][..n - 1] == ins[..n - 1];
    }
  }

  /** Outputs of one key give that key. */
  lemma {:induction false} FoundKey(txs: seq<Tx>, ins: seq<In>, address: string, n: nat, key: string)
    requires n <= |ins| && AllSpendable(txs, ins, address, n)
    requires forall i :: 0 <= i < n ==> OutAt(txs, ins[i]).pubKey == key
    ensures FoundOf(txs, ins, address, n).key == if n == 0 then "" else key
  {
    if n > 0 { FoundKey(txs, ins, address, n - 1, key); }
  }

  lemma {:induction false} WorthIsClaimed(txs: seq<Tx>, ins: seq<In>)
    requires forall i :: 0 <= i < |ins| ==> Known(txs, ins[i])
    ensures Worth(txs, ins) == Claimed(txs, ins)
  {
    if ins != [] { WorthIsClaimed(txs, ins[..|ins| - 1]); }
  }

  /** Inputs are let through exactly when one key owns them all and has signed for them. */
  lemma InputsOkIff(env: Env, txs: seq<Tx>, tx: Tx)
    requires tx.ins != []
    ensures InputsOk(env, txs, tx) <==> exists key :: SignedFor(env, txs, tx, key)
  {
    var n := |tx.ins|;
    assert tx.ins[..n] == tx.ins;
    if AllSpendable(txs, tx.ins, tx.address, n) {
      FoundFacts(txs, tx.ins, tx.address, n);
      var f := FoundOf(txs, tx.ins, tx.address, n);
      if InputsOk(env, txs, tx) { assert SignedFor(env, txs, tx, f.key); }
      forall key | SignedFor(env, txs, tx, key) ensures f.key == key && InputsOk(env, txs, tx) {
        assert forall i :: 0 <= i < n ==> OwnOutput(txs, tx.ins[i], tx.address, key);
        FoundKey(txs, tx.ins, tx.address, n, key);
      }
    } else {
      forall key ensures !SignedFor(env, txs, tx, key) {
        var i :| 0 <= i < n && !Spendable(txs, tx.ins[i], tx.address);
        assert !OwnOutput(txs, tx.ins[i], tx.address, key);
      }
    }
  }

  /**
   * A transaction with inputs is accepted exactly when one key owns them all and has signed the
   * sender's address and the sum of their ids, they are worth more than the outputs, and none of
   * them is negative. Any other leaves the ledger as it was.
   */
  lemma AcceptedIff(env: Env, s: Ledger, tx: Tx)
    requires tx.ins != []
    ensures OutcomeOf(env, s, tx).Accepted? <==>
            exists key ::
              && SignedFor(env, s.txs, tx, key)
              && Worth(s.txs, tx.ins) > Sum(tx.outs)
              && forall i :: 0 <= i < |tx.ins| ==> s.txs[tx.ins[i].prevId].outs[tx.ins[i].outIdx].value >= 0
    ensures !OutcomeOf(env, s, tx).Accepted? ==> Step(env, s, tx) == s
  {
    InputsOkIff(env, s.txs, tx);
    if InputsOk(env, s.txs, tx) {
      var n := |tx.ins|;
      FoundClaims(s.txs, tx.ins, tx.address, n);
      assert tx.ins[..n] == tx.ins;
      WorthIsClaimed(s.txs, tx.ins);
      assert !Strays(s.txs, tx);
    }
  }

  /** A signature that does not verify for the owning key is never accepted. */
  lemma ForgedIsRefused(env: Env, s: Ledger, tx: Tx)
    requires tx.ins != []
    requires forall key :: OwnOutput(s.txs, tx.ins[0], tx.address, key) ==>
               !env.verify(tx.address, SumIds(tx.ins), key, tx.sig)
    ensures !OutcomeOf(env, s, tx).Accepted? && Step(env, s, tx) == s
  {
    AcceptedIff(env, s, tx);
    hide OutcomeOf, SignedFor;
    forall key
      ensures SignedFor(env, s.txs, tx, key) ==>
                OwnOutput(s.txs, tx.ins[0], tx.address, key) && env.verify(tx.address, SumIds(tx.ins), key, tx.sig)
    {
      SignedOwns(env, s.txs, tx, key);
    }
  }

  lemma SignedOwns(env: Env, txs: seq<Tx>, tx: Tx, key: string)
    requires tx.ins != []
    ensures SignedFor(env, txs, tx, key) ==>
              OwnOutput(txs, tx.ins[0], tx.address, key) && env.verify(tx.address, SumIds(tx.ins), key, tx.sig)
  {}

  /** Without inputs, only the address 0000 is accepted, and only with outputs worth less than nothing. */
  lemma AcceptedEmptyIff(env: Env, s: Ledger, tx: Tx)
    requires tx.ins == []
    ensures OutcomeOf(env, s, tx).Accepted? <==> tx.address == "0000" && Sum(tx.outs) < 0
    ensures !OutcomeOf(env, s, tx).Accepted? ==> Step(env, s, tx) == s
  {}
}
