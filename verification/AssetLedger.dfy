/** Transfers of assets: which transfers are admitted to a ledger and what that conserves. */
module AssetLedger {
  import opened Common

  datatype Link = Link(txid: string, output: int)
  datatype Output = Output(amount: int, condition: string)
  datatype Operation = Create | Transfer

  /** A CREATE is its own asset; its inputs fulfil nothing. */
  datatype Tx = Tx(id: string, op: Operation, assetRef: string, inputs: seq<Option<Link>>, outputs: seq<Output>)

  datatype Error =
    | NoLink | InputDoesNotExist | CriticalDoubleSpend | DoubleSpend | NoSuchOutput
    | NoInputs | AssetIdMismatch | AmountError | InvalidSignature

  datatype Result<+T> = Ok(value: T) | Err(error: Error)

  /** Whether a transaction's fulfillments satisfy the outputs it spends. */
  datatype Env = Env(inputsValid: (Tx, seq<Output>) -> bool)

  function AssetOf(tx: Tx): string { if tx.op.Create? then tx.id else tx.assetRef }

  // ---------------------------------------------------------------- one transfer

  /** The last transaction with that id. */
  function Find(txs: seq<Tx>, id: string): (r: Option<Tx>)
    ensures r.Some? ==> r.value in txs && r.value.id == id
  {
    if txs == [] then None
    else if txs[|txs| - 1].id == id then Some(txs[|txs| - 1])
    else Find(txs[..|txs| - 1], id)
  }

  /** How many of the transactions spend the link. */
  function Spenders(txs: seq<Tx>, link: Link): nat {
    if txs == [] then 0
    else Spenders(txs[..|txs| - 1], link) + (if Some(link) in txs[|txs| - 1].inputs then 1 else 0)
  }

  function Occurrences(inputs: seq<Option<Link>>, link: Link): nat {
    if inputs == [] then 0
    else Occurrences(inputs[..|inputs| - 1], link) + (if inputs[|inputs| - 1] == Some(link) then 1 else 0)
  }

  /** How many inputs of the transactions spend the link. */
  function SpendingInputs(txs: seq<Tx>, link: Link): nat {
    if txs == [] then 0
    else SpendingInputs(txs[..|txs| - 1], link) + Occurrences(txs[|txs| - 1].inputs, link)
  }

  /** get_spent: whether the link is spent, stored transactions counted once and pending ones by input. */
  function GetSpent(db: seq<Tx>, current: seq<Tx>, link: Link): Result<bool> {
    var stored, pending := Spenders(db, link), SpendingInputs(current, link);
    if stored > 1 then Err(CriticalDoubleSpend)
    else if stored + pending > 1 then Err(DoubleSpend)
    else Ok(stored + pending == 1)
  }

  /** Python's list indexing: negative positions count from the end. */
  function Item(outputs: seq<Output>, k: int): Option<Output> {
    if 0 <= k < |outputs| then Some(outputs[k])
    else if -|outputs| <= k < 0 then Some(outputs[|outputs| + k])
    else None
  }

  datatype Source = Source(tx: Tx, output: Output)

  function SourceOf(db: seq<Tx>, current: seq<Tx>, input: Option<Link>): Result<Source> {
    if input.None? then Err(NoLink)
    else
      var link := input.value;
      var found := if Find(db, link.txid).Some? then Find(db, link.txid) else Find(current, link.txid);
      if found.None? then Err(InputDoesNotExist)
      else
        var spent := GetSpent(db, current, link);
        if spent.Err? then Err(spent.error)
        else if spent.value then Err(DoubleSpend)
        else if Item(found.value.outputs, link.output).None? then Err(NoSuchOutput)
        else Ok(Source(found.value, Item(found.value.outputs, link.output).value))
  }

  function SourcesOf(db: seq<Tx>, current: seq<Tx>, inputs: seq<Option<Link>>): (r: Result<seq<Source>>)
    ensures r.Ok? ==> |r.value| == |inputs|
  {
    if inputs == [] then Ok([])
    else
      var init := SourcesOf(db, current, inputs[..|inputs| - 1]);
      if init.Err? then init
      else
        var last := SourceOf(db, current, inputs[|inputs| - 1]);
        if last.Err? then Err(last.error) else Ok(init.value + [last.value])
  }

  function Amount(outputs: seq<Output>): int {
    if outputs == [] then 0 else Amount(outputs[..|outputs| - 1]) + outputs[|outputs| - 1].amount
  }

  function OutputsOf(sources: seq<Source>): (r: seq<Output>)
    ensures |r| == |sources| && forall i :: 0 <= i < |sources| ==> r[i] == sources[i].output
  {
    seq(|sources|, i requires 0 <= i < |sources| => sources[i].output)
  }

  predicate AllAsset(sources: seq<Source>, asset: string) {
    forall i :: 0 <= i < |sources| ==> AssetOf(sources[i].tx) == asset
  }

  /** get_asset_id. */
  function AssetId(sources: seq<Source>): Result<string> {
    if sources == [] then Err(NoInputs)
    else if AllAsset(sources, AssetOf(sources[0].tx)) then Ok(AssetOf(sources[0].tx))
    else Err(AssetIdMismatch)
  }

  /** The order of the checks decides which exception a bad transfer raises. */
  function Validate(env: Env, db: seq<Tx>, current: seq<Tx>, tx: Tx): Result<()> {
    var sources := SourcesOf(db, current, tx.inputs);
    if sources.Err? then Err(sources.error)
    else if !Distinct(tx.inputs) then Err(DoubleSpend)
    else
      var asset := AssetId(sources.value);
      if asset.Err? then Err(asset.error)
      else if asset.value != tx.assetRef then Err(AssetIdMismatch)
      else if Amount(tx.outputs) != Amount(OutputsOf(sources.value)) then Err(AmountError)
      else if !env.inputsValid(tx, OutputsOf(sources.value)) then Err(InvalidSignature)
      else Ok(())
  }

  method GetAssetId(sources: seq<Source>) returns (r: Result<string>)
    ensures r == AssetId(sources)
  {
    var ids: set<string> := {};
    for i := 0 to |sources|
      invariant forall a :: a in ids <==> exists j :: 0 <= j < i && AssetOf(sources[j].tx) == a
    {
      ids := ids + {AssetOf(sources[i].tx)};
    }
    if |ids| > 1 {
      assert !AllAsset(sources, AssetOf(sources[0].tx)) by {
        if AllAsset(sources, AssetOf(sources[0].tx)) {
          assert ids <= {AssetOf(sources[0].tx)};
          SubsetSize(ids, {AssetOf(sources[0].tx)});
          assert false;
        }
      }
      return Err(AssetIdMismatch);
    }
    if sources != [] { assert AssetOf(sources[0].tx) in ids; }
    if ids == {} {
      return Err(NoInputs);
    }
    var id :| id in ids;
    OnlyElement(ids, id);
    forall j | 0 <= j < |sources| ensures AssetOf(sources[j].tx) == id { assert AssetOf(sources[j].tx) in ids; }
    r := Ok(id);
  }

  lemma OnlyElement<T>(s: set<T>, x: T)
    requires x in s && |s| <= 1
    ensures forall y :: y in s ==> y == x
  {
    forall y | y in s ensures y == x {
      if y != x { SubsetSize({x, y}, s); }
    }
  }

  method SumAmounts(outputs: seq<Output>) returns (n: int)
    ensures n == Amount(outputs)
  {
    n := 0;
    for i := 0 to |outputs|
      invariant n == Amount(outputs[..i])
    {
      assert outputs[..i + 1][..i] == outputs[..i];
      n := n + outputs[i].amount;
    }
    assert outputs[..|outputs|] == outputs;
  }

  method ValidateTransferInputs(env: Env, db: seq<Tx>, current: seq<Tx>, tx: Tx) returns (r: Result<()>)
    ensures r == Validate(env, db, current, tx)
  {
    var sources: seq<Source> := [];
    for i := 0 to |tx.inputs|
      invariant SourcesOf(db, current, tx.inputs[..i]) == Ok(sources)
    {
      assert tx.inputs[..i + 1][..i] == tx.inputs[..i];
      var source := SourceOf(db, current, tx.inputs[i]);
      if source.Err? {
        ErrorStays(db, current, tx.inputs, i + 1);
        return Err(source.error);
      }
      sources := sources + [source.value];
    }
    assert tx.inputs[..|tx.inputs|] == tx.inputs;
    if !Distinct(tx.inputs) { return Err(DoubleSpend); }
    var asset := GetAssetId(sources);
    if asset.Err? { return Err(asset.error); }
    if asset.value != tx.assetRef { return Err(AssetIdMismatch); }
    var spent := SumAmounts(OutputsOf(sources));
    var made := SumAmounts(tx.outputs);
    if made != spent { return Err(AmountError); }
    if !env.inputsValid(tx, OutputsOf(sources)) { return Err(InvalidSignature); }
    r := Ok(());
  }

  lemma {:induction false} ErrorStays(db: seq<Tx>, current: seq<Tx>, inputs: seq<Option<Link>>, n: nat)
    requires n <= |inputs| && SourcesOf(db, current, inputs[..n]).Err?
    ensures SourcesOf(db, current, inputs) == SourcesOf(db, current, inputs[..n])
    decreases |inputs|
  {
    if n == |inputs| {
      assert inputs[..n] == inputs;
    } else {
      assert inputs[..|inputs| - 1][..n] == inputs[..n];
      ErrorStays(db, current, inputs[..|inputs| - 1], n);
    }
  }

  // ---------------------------------------------------------------- ledgers

  function LinksOf(inputs: seq<Option<Link>>): (r: set<Link>)
    ensures forall l :: l in r <==> Some(l) in inputs
  {
    if inputs == [] then {}
    else
      var init, last := inputs[..|inputs| - 1], inputs[|inputs| - 1];
      assert inputs == init + [last];
      LinksOf(init) + (if last.Some? then {last.value} else {})
  }

  /** Every output some transaction spends. */
  function Links(ledger: seq<Tx>): set<Link> {
    if ledger == [] then {} else Links(ledger[..|ledger| - 1]) + LinksOf(ledger[|ledger| - 1].inputs)
  }

  /** Only a TRANSFER spends. */
  ghost predicate Shaped(tx: Tx) {
    forall i :: 0 <= i < |tx.inputs| && tx.inputs[i].Some? ==> tx.op.Transfer?
  }

  /** Ledgers grown by CREATEs with fresh ids and by validated TRANSFERs. */
  ghost predicate Grown(env: Env, ledger: seq<Tx>) {
    ledger == [] ||
    var init, tx := ledger[..|ledger| - 1], ledger[|ledger| - 1];
    && Grown(env, init) && Find(init, tx.id).None? && Shaped(tx)
    && (tx.op.Transfer? ==> Validate(env, init, [], tx).Ok?)
  }

  /** Each link is spent by one input at most. */
  ghost predicate SpentOnce(ledger: seq<Tx>) {
    ledger == [] ||
    var init, tx := ledger[..|ledger| - 1], ledger[|ledger| - 1];
    && SpentOnce(init) && LinksOf(tx.inputs) !! Links(init)
    && forall i, j :: 0 <= i < j < |tx.inputs| && tx.inputs[i].Some? ==> tx.inputs[i] != tx.inputs[j]
  }

  lemma {:induction false} NoSpenders(txs: seq<Tx>, link: Link)
    ensures Spenders(txs, link) == 0 <==> link !in Links(txs)
  {
    if txs != [] { NoSpenders(txs[..|txs| - 1], link); }
  }

  /** What an accepted input is: a known output of the ledger, under a link that nobody has spent. */
  ghost predicate Backed(db: seq<Tx>, input: Option<Link>, source: Source) {
    && input.Some? && input.value !in Links(db)
    && Find(db, input.value.txid) == Some(source.tx)
    && Item(source.tx.outputs, input.value.output) == Some(source.output)
  }

  lemma {:induction false} SourcesBacked(db: seq<Tx>, inputs: seq<Option<Link>>)
    requires SourcesOf(db, [], inputs).Ok?
    ensures forall i :: 0 <= i < |inputs| ==> Backed(db, inputs[i], SourcesOf(db, [], inputs).value[i])
  {
    if inputs != [] {
      var init, last := inputs[..|inputs| - 1], inputs[|inputs| - 1];
      SourcesBacked(db, init);
      NoSpenders(db, last.value);
      assert SourcesOf(db, [], inputs).value == SourcesOf(db, [], init).value + [SourceOf(db, [], last).value];
    }
  }

  predicate Created(ledger: seq<Tx>, asset: string) {
    Find(ledger, asset).Some? && Find(ledger, asset).value.op.Create?
  }

  /** Ids are unique, every asset was created in the ledger, and every link points into it. */
  ghost predicate Rooted(ledger: seq<Tx>) {
    ledger == [] ||
    var init, tx := ledger[..|ledger| - 1], ledger[|ledger| - 1];
    && Rooted(init) && Find(init, tx.id).None? && Created(ledger, AssetOf(tx))
    && forall l :: l in LinksOf(tx.inputs) ==> Find(init, l.txid).Some?
  }

  lemma {:induction false} AssetCreated(ledger: seq<Tx>, id: string)
    requires Rooted(ledger) && Find(ledger, id).Some?
    ensures Created(ledger, AssetOf(Find(ledger, id).value))
  {
    if ledger[|ledger| - 1].id != id { AssetCreated(ledger[..|ledger| - 1], id); }
  }

  lemma {:induction false} LinksKnown(ledger: seq<Tx>, l: Link)
    requires Rooted(ledger) && l in Links(ledger)
    ensures Find(ledger, l.txid).Some?
  {
    if l in Links(ledger[..|ledger| - 1]) { LinksKnown(ledger[..|ledger| - 1], l); }
  }

  /** What validation establishes of the transfer it lets through. */
  lemma Validated(env: Env, db: seq<Tx>, tx: Tx) returns (sources: seq<Source>)
    requires Validate(env, db, [], tx).Ok?
    ensures SourcesOf(db, [], tx.inputs) == Ok(sources) && sources != [] && AllAsset(sources, tx.assetRef)
    ensures Amount(tx.outputs) == Amount(OutputsOf(sources)) && Distinct(tx.inputs)
    ensures forall i :: 0 <= i < |tx.inputs| ==> Backed(db, tx.inputs[i], sources[i])
  {
    sources := SourcesOf(db, [], tx.inputs).value;
    SourcesBacked(db, tx.inputs);
  }

  /** A validated transfer spends known, unspent and distinct outputs of an asset created before. */
  lemma TransferSound(env: Env, init: seq<Tx>, tx: Tx)
    requires Rooted(init) && Validate(env, init, [], tx).Ok?
    ensures LinksOf(tx.inputs) !! Links(init) && Created(init, tx.assetRef)
    ensures forall l :: l in LinksOf(tx.inputs) ==> Find(init, l.txid).Some?
    ensures forall i, j :: 0 <= i < j < |tx.inputs| && tx.inputs[i].Some? ==> tx.inputs[i] != tx.inputs[j]
  {
    var sources := Validated(env, init, tx);
    assert Backed(init, tx.inputs[0], sources[0]);
    AssetCreated(init, tx.inputs[0].value.txid);
    forall l | l in LinksOf(tx.inputs) ensures l !in Links(init) && Find(init, l.txid).Some? {
      var i :| 0 <= i < |tx.inputs| && tx.inputs[i] == Some(l);
      assert Backed(init, tx.inputs[i], sources[i]);
    }
  }

  lemma {:induction false} GrownIsSound(env: Env, ledger: seq<Tx>)
    requires Grown(env, ledger)
    ensures SpentOnce(ledger) && Rooted(ledger)
  {
    if ledger != [] {
      var init, tx := ledger[..|ledger| - 1], ledger[|ledger| - 1];
      GrownIsSound(env, init);
      if tx.op.Transfer? { TransferSound(env, init, tx); } else { NoLinks(tx); }
    }
  }

  lemma NoLinks(tx: Tx)
    requires Shaped(tx) && tx.op.Create?
    ensures LinksOf(tx.inputs) == {} && forall i :: 0 <= i < |tx.inputs| ==> tx.inputs[i].None?
  {
    assert LinksOf(tx.inputs) == {};
  }

  // ---------------------------------------------------------------- conservation

  /** Value of one transaction's outputs that are not among the spent ones. */
  function UnspentOutputs(id: string, outputs: seq<Output>, spent: set<Link>): int {
    if outputs == [] then 0
    else
      var k := |outputs| - 1;
      UnspentOutputs(id, outputs[..k], spent) + (if Link(id, k) in spent then 0 else outputs[k].amount)
  }

  function Unspent(txs: seq<Tx>, asset: string, spent: set<Link>): int {
    if txs == [] then 0
    else
      var tx := txs[|txs| - 1];
      Unspent(txs[..|txs| - 1], asset, spent)
      + (if AssetOf(tx) == asset then UnspentOutputs(tx.id, tx.outputs, spent) else 0)
  }

  /** What the CREATE of that id made. */
  function Issued(ledger: seq<Tx>, asset: string): int {
    if Created(ledger, asset) then Amount(Find(ledger, asset).value.outputs) else 0
  }

  lemma {:induction false} SpendOutput(id: string, outputs: seq<Output>, spent: set<Link>, link: Link)
    requires link !in spent
    ensures UnspentOutputs(id, outputs, spent + {link}) == UnspentOutputs(id, outputs, spent)
            - (if link.txid == id && 0 <= link.output < |outputs| then outputs[link.output].amount else 0)
  {
    if outputs != [] {
      SpendOutput(id, outputs[..|outputs| - 1], spent, link);
      assert link == Link(id, |outputs| - 1) <==> link.txid == id && link.output == |outputs| - 1;
    }
  }

  lemma {:induction false} SpendElsewhere(txs: seq<Tx>, asset: string, spent: set<Link>, link: Link)
    requires link !in spent && Find(txs, link.txid).None?
    ensures Unspent(txs, asset, spent + {link}) == Unspent(txs, asset, spent)
  {
    if txs != [] {
      SpendElsewhere(txs[..|txs| - 1], asset, spent, link);
      SpendOutput(txs[|txs| - 1].id, txs[|txs| - 1].outputs, spent, link);
    }
  }

  lemma {:induction false} Spend(txs: seq<Tx>, asset: string, spent: set<Link>, link: Link)
    requires Rooted(txs) && link !in spent && Find(txs, link.txid).Some?
    requires Item(Find(txs, link.txid).value.outputs, link.output).Some?
    ensures var from := Find(txs, link.txid).value;
            Unspent(txs, asset, spent + {link}) == Unspent(txs, asset, spent)
            - (if AssetOf(from) == asset && link.output >= 0 then from.outputs[link.output].amount else 0)
  {
    var init, last := txs[..|txs| - 1], txs[|txs| - 1];
    SpendOutput(last.id, last.outputs, spent, link);
    if last.id == link.txid {
      SpendElsewhere(init, asset, spent, link);
    } else {
      Spend(init, asset, spent, link);
    }
  }

  /** Inputs that can be spent one after the other. */
  ghost predicate AllBacked(db: seq<Tx>, inputs: seq<Option<Link>>, sources: seq<Source>) {
    && |sources| == |inputs| && Distinct(inputs)
    && forall i :: 0 <= i < |inputs| ==> Backed(db, inputs[i], sources[i])
  }

  lemma LastBacked(db: seq<Tx>, inputs: seq<Option<Link>>, sources: seq<Source>)
    requires AllBacked(db, inputs, sources) && inputs != []
    ensures var n := |inputs| - 1;
            && AllBacked(db, inputs[..n], sources[..n]) && Backed(db, inputs[n], sources[n])
            && inputs[n].value !in Links(db) + LinksOf(inputs[..n])
            && Links(db) + LinksOf(inputs) == Links(db) + LinksOf(inputs[..n]) + {inputs[n].value}
  {
    var n := |inputs| - 1;
    assert inputs[n] !in inputs[..n];
  }

  /** The amount of the output a link names by a position counted from the end, else nothing. */
  function NamedFromEnd(db: seq<Tx>, input: Option<Link>): int {
    if input.Some? && input.value.output < 0 && Find(db, input.value.txid).Some?
    then
      var output := Item(Find(db, input.value.txid).value.outputs, input.value.output);
      if output.Some? then output.value.amount else 0
    else 0
  }

  function FromEnd(db: seq<Tx>, inputs: seq<Option<Link>>): int {
    if inputs == [] then 0 else FromEnd(db, inputs[..|inputs| - 1]) + NamedFromEnd(db, inputs[|inputs| - 1])
  }

  /** Spending a transfer's inputs takes their amounts off the asset they share, but for those named from the end. */
  lemma {:induction false} SpendAll(db: seq<Tx>, inputs: seq<Option<Link>>, sources: seq<Source>, of: string,
                                    asset: string)
    requires Rooted(db) && AllBacked(db, inputs, sources) && AllAsset(sources, of)
    ensures Unspent(db, asset, Links(db) + LinksOf(inputs)) == Unspent(db, asset, Links(db))
            - (if of == asset then Amount(OutputsOf(sources)) - FromEnd(db, inputs) else 0)
  {
    if inputs == [] {
      assert Links(db) + LinksOf(inputs) == Links(db);
    } else {
      var n := |inputs| - 1;
      LastBacked(db, inputs, sources);
      SpendAll(db, inputs[..n], sources[..n], of, asset);
      Spend(db, asset, Links(db) + LinksOf(inputs[..n]), inputs[n].value);
      AmountMore(sources);
    }
  }

  lemma AmountMore(sources: seq<Source>)
    requires sources != []
    ensures Amount(OutputsOf(sources))
            == Amount(OutputsOf(sources[..|sources| - 1])) + sources[|sources| - 1].output.amount
  {
    assert OutputsOf(sources)[..|sources| - 1] == OutputsOf(sources[..|sources| - 1]);
  }

  lemma {:induction false} NothingSpent(id: string, outputs: seq<Output>, spent: set<Link>)
    requires forall l :: l in spent ==> l.txid != id
    ensures UnspentOutputs(id, outputs, spent) == Amount(outputs)
  {
    if outputs != [] { NothingSpent(id, outputs[..|outputs| - 1], spent); }
  }

  lemma FreshOutputs(env: Env, ledger: seq<Tx>)
    requires Grown(env, ledger) && ledger != []
    ensures var tx := ledger[|ledger| - 1]; UnspentOutputs(tx.id, tx.outputs, Links(ledger)) == Amount(tx.outputs)
  {
    var init, tx := ledger[..|ledger| - 1], ledger[|ledger| - 1];
    GrownIsSound(env, ledger);
    forall l | l in Links(ledger) ensures l.txid != tx.id {
      if l in Links(init) { LinksKnown(init, l); }
    }
    NothingSpent(tx.id, tx.outputs, Links(ledger));
  }

  /**
   * A transfer moves its inputs' amounts to its outputs, within one asset, but leaves those named from the
   * end in place.
   */
  lemma TransferDrift(env: Env, ledger: seq<Tx>, asset: string)
    requires Grown(env, ledger) && ledger != [] && ledger[|ledger| - 1].op.Transfer?
    ensures var init, tx := ledger[..|ledger| - 1], ledger[|ledger| - 1];
            Unspent(ledger, asset, Links(ledger)) == Unspent(init, asset, Links(init))
            + (if tx.assetRef == asset then FromEnd(init, tx.inputs) else 0)
    ensures Created(ledger[..|ledger| - 1], ledger[|ledger| - 1].assetRef)
  {
    var init, tx := ledger[..|ledger| - 1], ledger[|ledger| - 1];
    GrownIsSound(env, init);
    FreshOutputs(env, ledger);
    var sources := Validated(env, init, tx);
    SpendAll(init, tx.inputs, sources, tx.assetRef, asset);
    assert Backed(init, tx.inputs[0], sources[0]);
    AssetCreated(init, tx.inputs[0].value.txid);
  }

  /** What an asset's transfers named from the end. */
  function Drift(ledger: seq<Tx>, asset: string): int {
    if ledger == [] then 0
    else
      var init, tx := ledger[..|ledger| - 1], ledger[|ledger| - 1];
      Drift(init, asset) + (if tx.op.Transfer? && tx.assetRef == asset then FromEnd(init, tx.inputs) else 0)
  }

  /**
   * In every grown ledger each asset's unspent outputs are worth what its CREATE issued and what was named
   * from the end.
   */
  lemma {:induction false} AssetDrift(env: Env, ledger: seq<Tx>, asset: string)
    requires Grown(env, ledger)
    ensures Unspent(ledger, asset, Links(ledger)) == Issued(ledger, asset) + Drift(ledger, asset)
  {
    if ledger != [] {
      var init, tx := ledger[..|ledger| - 1], ledger[|ledger| - 1];
      AssetDrift(env, init, asset);
      if tx.op.Transfer? {
        TransferDrift(env, ledger, asset);
      } else {
        FreshOutputs(env, ledger);
        NoLinks(tx);
        assert Links(ledger) == Links(init);
      }
    }
  }

  predicate CountsFromStart(inputs: seq<Option<Link>>) {
    forall i :: 0 <= i < |inputs| && inputs[i].Some? ==> inputs[i].value.output >= 0
  }

  /** No transfer of the asset names an output from the end. */
  predicate AllFromStart(ledger: seq<Tx>, asset: string) {
    forall t :: 0 <= t < |ledger| && ledger[t].op.Transfer? && ledger[t].assetRef == asset ==>
        CountsFromStart(ledger[t].inputs)
  }

  /** Outputs hold at least 1, as their constructor demands. */
  predicate Positive(ledger: seq<Tx>) {
    forall t, k :: 0 <= t < |ledger| && 0 <= k < |ledger[t].outputs| ==> ledger[t].outputs[k].amount >= 1
  }

  lemma {:induction false} FromEndIsZeroIff(db: seq<Tx>, inputs: seq<Option<Link>>)
    requires Positive(db) && SourcesOf(db, [], inputs).Ok?
    ensures FromEnd(db, inputs) >= 0 && (FromEnd(db, inputs) == 0 <==> CountsFromStart(inputs))
  {
    assert inputs == [] ==> CountsFromStart(inputs);
    hide Positive, NamedFromEnd, SourceOf, CountsFromStart;
    if inputs != [] {
      var init, last := inputs[..|inputs| - 1], inputs[|inputs| - 1];
      FromEndIsZeroIff(db, init);
      NamedIsZeroIff(db, last);
      StartSplit(inputs);
    }
  }

  lemma StartSplit(inputs: seq<Option<Link>>)
    requires inputs != []
    ensures CountsFromStart(inputs) <==>
            && CountsFromStart(inputs[..|inputs| - 1])
            && (inputs[|inputs| - 1].Some? ==> inputs[|inputs| - 1].value.output >= 0)
  {
    var init := inputs[..|inputs| - 1];
    assert forall i :: 0 <= i < |init| ==> init[i] == inputs[i];
  }

  lemma NamedIsZeroIff(db: seq<Tx>, input: Option<Link>)
    requires Positive(db) && SourceOf(db, [], input).Ok?
    ensures input.Some? && NamedFromEnd(db, input) >= 0 && (NamedFromEnd(db, input) == 0 <==> input.value.output >= 0)
  {
    var from := Find(db, input.value.txid).value;
    var t :| 0 <= t < |db| && db[t] == from;
  }

  lemma {:induction false} DriftIsZeroIff(env: Env, ledger: seq<Tx>, asset: string)
    requires Grown(env, ledger) && Positive(ledger)
    ensures Drift(ledger, asset) >= 0 && (Drift(ledger, asset) == 0 <==> AllFromStart(ledger, asset))
  {
    if ledger != [] {
      var init, tx := ledger[..|ledger| - 1], ledger[|ledger| - 1];
      assert forall t :: 0 <= t < |init| ==> init[t] == ledger[t];
      DriftIsZeroIff(env, init, asset);
      if tx.op.Transfer? { FromEndIsZeroIff(init, tx.inputs); }
      assert AllFromStart(ledger, asset) <==>
             AllFromStart(init, asset) && (tx.op.Transfer? && tx.assetRef == asset ==> CountsFromStart(tx.inputs));
    }
  }

  /** An asset is conserved exactly when none of its transfers names an output from the end. */
  lemma AssetConservedIff(env: Env, ledger: seq<Tx>, asset: string)
    requires Grown(env, ledger) && Positive(ledger)
    ensures Unspent(ledger, asset, Links(ledger)) == Issued(ledger, asset) <==> AllFromStart(ledger, asset)
  {
    AssetDrift(env, ledger, asset);
    DriftIsZeroIff(env, ledger, asset);
  }

  /** The output a link names, by its position from the start. */
  function Target(ledger: seq<Tx>, link: Link): Option<Link> {
    if Find(ledger, link.txid).None? then None
    else
      var n := |Find(ledger, link.txid).value.outputs|;
      if 0 <= link.output < n then Some(link)
      else if -n <= link.output < 0 then Some(Link(link.txid, n + link.output))
      else None
  }

  /** A link names the output at its target, counted from the start, and nothing when it has none. */
  lemma ItemAtTarget(ledger: seq<Tx>, link: Link)
    requires Find(ledger, link.txid).Some?
    ensures var outputs := Find(ledger, link.txid).value.outputs;
            && (Item(outputs, link.output).Some? <==> Target(ledger, link).Some?)
            && (Target(ledger, link).Some? ==>
                  var at := Target(ledger, link).value.output;
                  && 0 <= at < |outputs| && (at - link.output) % |outputs| == 0
                  && Item(outputs, link.output).value == outputs[at])
  {
    var n := |Find(ledger, link.txid).value.outputs|;
    if -n <= link.output < 0 { assert n % n == 0; }
  }

  lemma TargetKept(ledger: seq<Tx>, link: Link)
    requires Rooted(ledger) && ledger != [] && Target(ledger[..|ledger| - 1], link).Some?
    ensures Target(ledger, link) == Target(ledger[..|ledger| - 1], link)
  {}

  lemma LastHasTarget(env: Env, ledger: seq<Tx>, i: nat)
    requires Grown(env, ledger) && ledger != []
    requires i < |ledger[|ledger| - 1].inputs| && ledger[|ledger| - 1].inputs[i].Some?
    ensures Target(ledger[..|ledger| - 1], ledger[|ledger| - 1].inputs[i].value).Some?
  {
    var init, tx := ledger[..|ledger| - 1], ledger[|ledger| - 1];
    hide Validate, Links;
    var sources := Validated(env, init, tx);
    assert Backed(init, tx.inputs[i], sources[i]);
  }

  /** Every input of a grown ledger names an output of it. */
  lemma {:induction false} InputsHaveTargets(env: Env, ledger: seq<Tx>, t: nat, i: nat)
    requires Grown(env, ledger) && t < |ledger| && i < |ledger[t].inputs| && ledger[t].inputs[i].Some?
    ensures Target(ledger, ledger[t].inputs[i].value).Some?
  {
    hide Target, Validate, Shaped, Rooted, SpentOnce, Find;
    var n := |ledger| - 1;
    GrownIsSound(env, ledger);
    if t < n { InputsHaveTargets(env, ledger[..n], t, i); } else { LastHasTarget(env, ledger, i); }
    TargetKept(ledger, ledger[t].inputs[i].value);
  }

  /** Two inputs of a grown ledger that spend one output are the same input, or exactly one names it from the end. */
  lemma NoOutputSpentTwice(env: Env, ledger: seq<Tx>, t: nat, i: nat, u: nat, j: nat)
    requires Grown(env, ledger) && t < |ledger| && u < |ledger| && i < |ledger[t].inputs| && j < |ledger[u].inputs|
    requires ledger[t].inputs[i].Some? && ledger[u].inputs[j].Some?
    requires Target(ledger, ledger[t].inputs[i].value) == Target(ledger, ledger[u].inputs[j].value)
    ensures (t == u && i == j) || (ledger[t].inputs[i].value.output < 0 <==> ledger[u].inputs[j].value.output >= 0)
  {
    GrownIsSound(env, ledger);
    InputsHaveTargets(env, ledger, t, i);
    var a, b := ledger[t].inputs[i].value, ledger[u].inputs[j].value;
    if a.output < 0 <==> b.output < 0 {
      assert a == b;
      if t <= u { SpentOncePosition(ledger, t, i, u, j); } else { SpentOncePosition(ledger, u, j, t, i); }
    }
  }

  lemma {:induction false} SpentOncePosition(ledger: seq<Tx>, t: nat, i: nat, u: nat, j: nat)
    requires SpentOnce(ledger) && t <= u < |ledger| && i < |ledger[t].inputs| && j < |ledger[u].inputs|
    requires ledger[t].inputs[i].Some? && ledger[t].inputs[i] == ledger[u].inputs[j]
    ensures t == u && i == j
    decreases |ledger|
  {
    var n := |ledger| - 1;
    if u < n {
      SpentOncePosition(ledger[..n], t, i, u, j);
    } else {
      assert ledger[u].inputs[j].value in LinksOf(ledger[n].inputs);
      if t < n { LinkListed(ledger[..n], t, ledger[t].inputs[i].value); }
    }
  }

  lemma {:induction false} LinkListed(ledger: seq<Tx>, t: nat, l: Link)
    requires t < |ledger| && Some(l) in ledger[t].inputs
    ensures l in Links(ledger)
  {
    if t < |ledger| - 1 { LinkListed(ledger[..|ledger| - 1], t, l); }
  }

  // ---------------------------------------------------------------- what is admitted

  lemma {:induction false} BackedSources(db: seq<Tx>, inputs: seq<Option<Link>>, sources: seq<Source>)
    requires |sources| == |inputs| && forall i :: 0 <= i < |inputs| ==> Backed(db, inputs[i], sources[i])
    ensures SourcesOf(db, [], inputs) == Ok(sources)
  {
    if inputs != [] {
      var n := |inputs| - 1;
      BackedSources(db, inputs[..n], sources[..n]);
      NoSpenders(db, inputs[n].value);
      assert Backed(db, inputs[n], sources[n]);
      assert sources == sources[..n] + [sources[n]];
    }
  }

  /** Validation lets through exactly the signed transfers of distinct unspent outputs that keep asset and amount. */
  lemma AdmittedIff(env: Env, db: seq<Tx>, tx: Tx)
    ensures Validate(env, db, [], tx).Ok? <==>
            exists sources :: && AllBacked(db, tx.inputs, sources) && sources != []
                              && AllAsset(sources, tx.assetRef) && Amount(tx.outputs) == Amount(OutputsOf(sources))
                              && env.inputsValid(tx, OutputsOf(sources))
  {
    if Validate(env, db, [], tx).Ok? {
      var sources := Validated(env, db, tx);
      assert AllBacked(db, tx.inputs, sources);
    }
    forall sources | AllBacked(db, tx.inputs, sources)
      ensures SourcesOf(db, [], tx.inputs) == Ok(sources)
    {
      BackedSources(db, tx.inputs, sources);
    }
  }

  lemma {:induction false} OccursOnce(inputs: seq<Option<Link>>, l: Link)
    requires forall i, j :: 0 <= i < j < |inputs| && inputs[i].Some? ==> inputs[i] != inputs[j]
    ensures Occurrences(inputs, l) == if Some(l) in inputs then 1 else 0
  {
    if inputs != [] {
      var init, last := inputs[..|inputs| - 1], inputs[|inputs| - 1];
      OccursOnce(init, l);
      assert inputs == init + [last];
      assert last.Some? ==> last !in init;
    }
  }

  lemma {:induction false} SpentSplit(db: seq<Tx>, current: seq<Tx>, l: Link)
    requires SpentOnce(db + current)
    ensures Spenders(db + current, l) == Spenders(db, l) + SpendingInputs(current, l) <= 1
    ensures Spenders(db + current, l) == 1 <==> l in Links(db + current)
    decreases |db| + |current|
  {
    var all, n := db + current, |db| + |current| - 1;
    if current == [] {
      assert all == db;
      if db != [] {
        assert db[..n] + [] == db[..n];
        SpentSplit(db[..n], [], l);
      }
    } else {
      assert all[..n] == db + current[..|current| - 1];
      SpentSplit(db, current[..|current| - 1], l);
      OccursOnce(all[n].inputs, l);
    }
  }

  lemma {:induction false} FindSplit(db: seq<Tx>, current: seq<Tx>, id: string)
    requires Rooted(db + current)
    ensures Find(db + current, id) == if Find(db, id).Some? then Find(db, id) else Find(current, id)
  {
    var all := db + current;
    if current == [] {
      assert all == db;
    } else {
      assert all[..|all| - 1] == db + current[..|current| - 1];
      FindSplit(db, current[..|current| - 1], id);
    }
  }

  lemma {:induction false} SourcesSplit(db: seq<Tx>, current: seq<Tx>, inputs: seq<Option<Link>>)
    requires Rooted(db + current) && SpentOnce(db + current)
    ensures SourcesOf(db, current, inputs) == SourcesOf(db + current, [], inputs)
  {
    if inputs != [] {
      SourcesSplit(db, current, inputs[..|inputs| - 1]);
      var last := inputs[|inputs| - 1];
      if last.Some? {
        FindSplit(db, current, last.value.txid);
        SpentSplit(db, current, last.value);
        NoSpenders(db, last.value);
      }
    }
  }

  /** Where the stored ledger ends and the pending block begins makes no difference to the verdict. */
  lemma BlockBoundaryIrrelevant(env: Env, db: seq<Tx>, current: seq<Tx>, tx: Tx)
    requires Grown(env, db + current)
    ensures Validate(env, db, current, tx) == Validate(env, db + current, [], tx)
  {
    GrownIsSound(env, db + current);
    SourcesSplit(db, current, tx.inputs);
  }

  /** A position counted from the end names an output under a second link, so it is admitted again. */
  lemma NegativePositionRespends(env: Env)
    requires forall tx, outs :: env.inputsValid(tx, outs)
    ensures var made := Tx("c", Create, "", [None], [Output(5, "x")]);
            var first := Tx("t", Transfer, "c", [Some(Link("c", 0))], [Output(5, "y")]);
            var second := Tx("u", Transfer, "c", [Some(Link("c", -1))], [Output(5, "z")]);
            && Validate(env, [made], [], first) == Ok(()) && Validate(env, [made, first], [], second) == Ok(())
            && Item(made.outputs, 0) == Item(made.outputs, -1)
  {
    var made := Tx("c", Create, "", [None], [Output(5, "x")]);
    var first := Tx("t", Transfer, "c", [Some(Link("c", 0))], [Output(5, "y")]);
    var second := Tx("u", Transfer, "c", [Some(Link("c", -1))], [Output(5, "z")]);
    var source := Source(made, Output(5, "x"));
    assert [made, first][..1] == [made] && [made][..0] == [];
    assert Find([made, first], "c") == Some(made) && Find([made], "c") == Some(made);
    assert Spenders([made], Link("c", 0)) == Spenders([], Link("c", 0));
    assert Spenders([made, first], Link("c", -1)) == Spenders([made], Link("c", -1)) == Spenders([], Link("c", -1));
    OneInput([made], first.inputs, source);
    OneInput([made, first], second.inputs, source);
    assert OutputsOf([source]) == [source.output];
    OneAmount(source.output);
    OneAmount(Output(5, "y"));
    OneAmount(Output(5, "z"));
  }

  lemma OneInput(db: seq<Tx>, inputs: seq<Option<Link>>, source: Source)
    requires |inputs| == 1 && SourceOf(db, [], inputs[0]) == Ok(source)
    ensures SourcesOf(db, [], inputs) == Ok([source])
  {
    assert inputs[..0] == [] && SourcesOf(db, [], inputs[..0]) == Ok([]);
    assert [] + [source] == [source];
  }

  lemma OneAmount(o: Output)
    ensures Amount([o]) == o.amount
  {
    assert [o][..0] == [];
  }
}
