/** Signing a transaction and checking its id and inputs; condition trees and their details form. */
module Signing {
  import opened Common

  datatype Fulfillment =
    | Ed25519(publicKey: string, signature: Option<string>)
    | Threshold(threshold: nat, subs: seq<Fulfillment>)
    | Other(typeName: string)

  datatype Link = Link(txid: string, output: int)
  datatype Input = Input(fulfillment: Fulfillment, ownersBefore: seq<string>, fulfills: Option<Link>)
  datatype Operation = Create | Transfer

  /** Outputs, metadata, asset and version: the part signing never touches. */
  datatype Tx = Tx(op: Operation, rest: string, inputs: seq<Input>, id: Option<string>)

  /** A transaction as a dictionary; a removed signature leaves None behind. */
  datatype InputBody = InputBody(ownersBefore: seq<string>, fulfills: Option<Link>, fulfillment: Option<Fulfillment>)
  datatype Body = Body(op: Operation, rest: string, inputs: seq<InputBody>, id: Option<string>)

  datatype Error = KeypairMismatch | NoOwner | UnknownType | CountMismatch | TooDeep
  datatype Result<+T> = Ok(value: T) | Err(error: Error)

  /** Keys and hashing, from libraries outside the repository. */
  datatype Crypto = Crypto(
    publicKey: string -> string,
    sign: (string, string) -> string,
    verify: (string, string, string) -> bool,
    digest: (string, Option<Link>) -> string,
    serialize: Body -> string,
    hash: string -> string)

  /** A signature verifies for the message it was made for, and only for that one. */
  ghost predicate Signs(c: Crypto) {
    forall k, m, n :: c.verify(c.publicKey(k), n, c.sign(k, m)) <==> m == n
  }

  /** Bodies that differ in their id alone hash differently. */
  ghost predicate CollisionFree(c: Crypto) {
    && (forall b: Body, i, j :: c.hash(c.serialize(b.(id := i))) == c.hash(c.serialize(b.(id := j))) ==> i == j)
    && (forall b: Body, i, j, l :: c.digest(c.serialize(b.(id := i)), l) == c.digest(c.serialize(b.(id := j)), l) ==>
        i == j)
  }

  // ---------------------------------------------------------------- dictionaries

  function ToBody(tx: Tx): Body {
    Body(tx.op, tx.rest,
         seq(|tx.inputs|, i requires 0 <= i < |tx.inputs| =>
               var input := tx.inputs[i];
               InputBody(input.ownersBefore, input.fulfills, Some(input.fulfillment))),
         tx.id)
  }

  function RemoveSignatures(body: Body): Body {
    body.(inputs := seq(|body.inputs|, i requires 0 <= i < |body.inputs| => body.inputs[i].(fulfillment := None)))
  }

  /** The message under the signatures, for a given id. */
  function Message(c: Crypto, tx: Tx, id: Option<string>): string {
    c.serialize(RemoveSignatures(ToBody(tx)).(id := id))
  }

  predicate IdValid(c: Crypto, body: Body) {
    body.id == Some(c.hash(c.serialize(body.(id := None))))
  }

  // ---------------------------------------------------------------- signing

  /** The private key for each public one; a later key replaces an equal earlier one. */
  function KeyPairs(c: Crypto, keys: seq<string>): (r: map<string, string>)
    ensures forall p :: p in r ==> c.publicKey(r[p]) == p && r[p] in keys
    ensures forall k :: k in keys ==> c.publicKey(k) in r
  {
    if keys == [] then map[]
    else
      var last := keys[|keys| - 1];
      assert keys == keys[..|keys| - 1] + [last];
      KeyPairs(c, keys[..|keys| - 1])[c.publicKey(last) := last]
  }

  predicate HasLeaf(f: Fulfillment, key: string) {
    match f
    case Ed25519(p, _) => p == key
    case Threshold(_, subs) => exists i :: 0 <= i < |subs| && HasLeaf(subs[i], key)
    case Other(_) => false
  }

  /** Signs every leaf of one key. */
  function SignLeaves(f: Fulfillment, key: string, signature: string): Fulfillment {
    match f
    case Ed25519(p, _) => if p == key then Ed25519(p, Some(signature)) else f
    case Threshold(t, subs) =>
      Threshold(t, seq(|subs|, i requires 0 <= i < |subs| => SignLeaves(subs[i], key, signature)))
    case Other(_) => f
  }

  /** Signs every leaf that one of the owners has a key for. */
  function SignOwners(c: Crypto, f: Fulfillment, owners: set<string>, pairs: map<string, string>,
                      digest: string): Fulfillment {
    match f
    case Ed25519(p, _) => if p in owners && p in pairs then Ed25519(p, Some(c.sign(pairs[p], digest))) else f
    case Threshold(t, subs) =>
      Threshold(t, seq(|subs|, i requires 0 <= i < |subs| => SignOwners(c, subs[i], owners, pairs, digest)))
    case Other(_) => f
  }

  function SignInput(c: Crypto, input: Input, message: string, pairs: map<string, string>): Result<Input> {
    var digest := c.digest(message, input.fulfills);
    match input.fulfillment
    case Ed25519(_, _) =>
      if input.ownersBefore == [] then Err(NoOwner)
      else if input.ownersBefore[0] !in pairs then Err(KeypairMismatch)
      else
        var k := pairs[input.ownersBefore[0]];
        Ok(input.(fulfillment := Ed25519(c.publicKey(k), Some(c.sign(k, digest)))))
    case Threshold(_, _) =>
      var owners := set o | o in input.ownersBefore;
      if forall o :: o in owners ==> HasLeaf(input.fulfillment, o) && o in pairs
      then Ok(input.(fulfillment := SignOwners(c, input.fulfillment, owners, pairs, digest)))
      else Err(KeypairMismatch)
    case Other(_) => Err(UnknownType)
  }

  function SignInputs(c: Crypto, inputs: seq<Input>, message: string, pairs: map<string, string>)
    : (r: Result<seq<Input>>)
    ensures r.Ok? ==> |r.value| == |inputs|
    ensures r.Ok? ==> forall i :: 0 <= i < |inputs| ==> SignInput(c, inputs[i], message, pairs) == Ok(r.value[i])
  {
    if inputs == [] then Ok([])
    else
      var init := SignInputs(c, inputs[..|inputs| - 1], message, pairs);
      if init.Err? then init
      else
        var last := SignInput(c, inputs[|inputs| - 1], message, pairs);
        if last.Err? then Err(last.error) else Ok(init.value + [last.value])
  }

  /** sign: the message carries whatever id the transaction has at the time, and so does the hash. */
  function Sign(c: Crypto, tx: Tx, keys: seq<string>): Result<Tx> {
    var inputs := SignInputs(c, tx.inputs, Message(c, tx, tx.id), KeyPairs(c, keys));
    if inputs.Err? then Err(inputs.error)
    else
      var signed := tx.(inputs := inputs.value);
      Ok(signed.(id := Some(c.hash(c.serialize(ToBody(signed))))))
  }

  class Transaction {
    const crypto: Crypto
    const op: Operation
    const rest: string
    var inputs: seq<Input>
    var id: Option<string>

    ghost function Abs(): Tx
      reads this
    {
      Tx(op, rest, inputs, id)
    }

    constructor (crypto: Crypto, tx: Tx)
      ensures this.crypto == crypto && Abs() == tx
    {
      this.crypto, op, rest, inputs, id := crypto, tx.op, tx.rest, tx.inputs, tx.id;
    }

    /** Signs the leaves of each owner in turn, in whatever order the set is walked. */
    method SignThreshold(input: Input, message: string, pairs: map<string, string>) returns (r: Result<Input>)
      requires input.fulfillment.Threshold?
      ensures r == SignInput(crypto, input, message, pairs)
    {
      hide SignOwners, SignLeaves, HasLeaf;
      var digest := crypto.digest(message, input.fulfills);
      var todo := set o | o in input.ownersBefore;
      ghost var owners := todo;
      var f := input.fulfillment;
      ghost var done: set<string> := {};
      SignNobody(crypto, f, pairs, digest);
      while todo != {}
        invariant done !! todo && done + todo == owners
        invariant forall o :: o in done ==> HasLeaf(input.fulfillment, o) && o in pairs
        invariant f == SignOwners(crypto, input.fulfillment, done, pairs, digest)
        decreases |todo|
      {
        var owner :| owner in todo;
        SameLeaves(crypto, input.fulfillment, done, pairs, digest, owner);
        if !HasLeaf(f, owner) || owner !in pairs { return Err(KeypairMismatch); }
        SignOneMore(crypto, input.fulfillment, done, pairs, digest, owner);
        f := SignLeaves(f, owner, crypto.sign(pairs[owner], digest));
        todo, done := todo - {owner}, done + {owner};
      }
      assert done == owners;
      r := Ok(input.(fulfillment := f));
    }

    method SignOne(input: Input, message: string, pairs: map<string, string>) returns (r: Result<Input>)
      ensures r == SignInput(crypto, input, message, pairs)
    {
      match input.fulfillment
      case Ed25519(_, _) =>
        if input.ownersBefore == [] { return Err(NoOwner); }
        if input.ownersBefore[0] !in pairs { return Err(KeypairMismatch); }
        var k := pairs[input.ownersBefore[0]];
        var signature := crypto.sign(k, crypto.digest(message, input.fulfills));
        r := Ok(input.(fulfillment := Ed25519(crypto.publicKey(k), Some(signature))));
      case Threshold(_, _) => r := SignThreshold(input, message, pairs);
      case Other(_) => r := Err(UnknownType);
    }

    /** A failing input leaves the ones before it signed and the id as it was. */
    method SignAll(keys: seq<string>) returns (r: Result<()>)
      modifies this
      ensures r.Ok? <==> Sign(crypto, old(Abs()), keys).Ok?
      ensures r.Ok? ==> Abs() == Sign(crypto, old(Abs()), keys).value
      ensures r.Err? ==> r.error == Sign(crypto, old(Abs()), keys).error && id == old(id) && |inputs| == |old(inputs)|
    {
      hide SignInput, Message, ToBody;
      var pairs := KeyPairs(crypto, keys);
      var message := Message(crypto, Tx(op, rest, inputs, id), id);
      for i := 0 to |inputs|
        invariant |inputs| == |old(inputs)| && id == old(id) && inputs[i..] == old(inputs)[i..]
        invariant SignInputs(crypto, old(inputs)[..i], message, pairs) == Ok(inputs[..i])
      {
        assert old(inputs)[..i + 1][..i] == old(inputs)[..i] && inputs[i] == old(inputs)[i..][0];
        var signed := SignOne(inputs[i], message, pairs);
        if signed.Err? {
          ErrorStays(crypto, old(inputs), message, pairs, i + 1);
          return Err(signed.error);
        }
        assert inputs[i := signed.value][..i + 1] == inputs[..i] + [signed.value];
        assert inputs[i := signed.value][i + 1..] == inputs[i..][1..] == old(inputs)[i + 1..];
        inputs := inputs[i := signed.value];
      }
      assert old(inputs)[..|inputs|] == old(inputs) && inputs[..|inputs|] == inputs;
      id := Some(crypto.hash(crypto.serialize(ToBody(Tx(op, rest, inputs, id)))));
      r := Ok(());
    }
  }

  lemma {:induction false} SignNobody(c: Crypto, f: Fulfillment, pairs: map<string, string>, digest: string)
    ensures SignOwners(c, f, {}, pairs, digest) == f
  {
    if f.Threshold? {
      forall i | 0 <= i < |f.subs| { SignNobody(c, f.subs[i], pairs, digest); }
    }
  }

  lemma {:induction false} SignOneMore(
      c: Crypto, f: Fulfillment, done: set<string>, pairs: map<string, string>, digest: string, o: string)
    requires o in pairs && o !in done
    ensures SignLeaves(SignOwners(c, f, done, pairs, digest), o, c.sign(pairs[o], digest))
            == SignOwners(c, f, done + {o}, pairs, digest)
  {
    if f.Threshold? {
      forall i | 0 <= i < |f.subs| { SignOneMore(c, f.subs[i], done, pairs, digest, o); }
    }
  }

  lemma {:induction false} SameLeaves(
      c: Crypto, f: Fulfillment, done: set<string>, pairs: map<string, string>, digest: string, key: string)
    ensures HasLeaf(SignOwners(c, f, done, pairs, digest), key) <==> HasLeaf(f, key)
  {
    if f.Threshold? {
      var g := SignOwners(c, f, done, pairs, digest);
      forall i | 0 <= i < |f.subs| ensures HasLeaf(g.subs[i], key) <==> HasLeaf(f.subs[i], key) {
        SameLeaves(c, f.subs[i], done, pairs, digest, key);
      }
    }
  }

  lemma {:induction false} ErrorStays(c: Crypto, inputs: seq<Input>, message: string, pairs: map<string, string>,
                                      n: nat)
    requires n <= |inputs| && SignInputs(c, inputs[..n], message, pairs).Err?
    ensures SignInputs(c, inputs, message, pairs) == SignInputs(c, inputs[..n], message, pairs)
    decreases |inputs|
  {
    if n == |inputs| {
      assert inputs[..n] == inputs;
    } else {
      assert inputs[..|inputs| - 1][..n] == inputs[..n];
      ErrorStays(c, inputs[..|inputs| - 1], message, pairs, n);
    }
  }

  // ---------------------------------------------------------------- validity

  /** A leaf needs a good signature, a threshold enough children that hold. */
  predicate Accepts(c: Crypto, f: Fulfillment, digest: string) {
    match f
    case Ed25519(p, s) => s.Some? && c.verify(p, digest, s.value)
    case Threshold(t, subs) => |set i | 0 <= i < |subs| && Accepts(c, subs[i], digest)| >= t
    case Other(_) => false
  }

  /** The condition a fulfillment answers: the tree without its signatures. */
  function Condition(f: Fulfillment): Fulfillment {
    match f
    case Ed25519(p, _) => Ed25519(p, None)
    case Threshold(t, subs) => Threshold(t, seq(|subs|, i requires 0 <= i < |subs| => Condition(subs[i])))
    case Other(_) => f
  }

  predicate InputValid(c: Crypto, input: Input, op: Operation, message: string, condition: Fulfillment) {
    && (op.Transfer? ==> condition == Condition(input.fulfillment))
    && Accepts(c, input.fulfillment, c.digest(message, input.fulfills))
  }

  /** The check always serializes with no id. A CREATE is checked against nothing. */
  function InputsValid(c: Crypto, tx: Tx, conditions: seq<Fulfillment>): Result<bool> {
    if tx.op.Transfer? && |conditions| != |tx.inputs| then Err(CountMismatch)
    else
      var message := Message(c, tx, None);
      Ok(forall i :: 0 <= i < |tx.inputs| ==>
           InputValid(c, tx.inputs[i], tx.op, message,
                      if tx.op.Transfer? then conditions[i] else tx.inputs[i].fulfillment))
  }

  /** Only keys and thresholds, and no threshold out of reach. */
  ghost predicate Sound(f: Fulfillment, owners: set<string>) {
    match f
    case Ed25519(p, _) => p in owners
    case Threshold(t, subs) => 1 <= t <= |subs| && forall i :: 0 <= i < |subs| ==> Sound(subs[i], owners)
    case Other(_) => false
  }

  /** An input owned by whom its condition names. */
  ghost predicate Owned(input: Input) {
    match input.fulfillment
    case Ed25519(p, _) => input.ownersBefore != [] && input.ownersBefore[0] == p
    case Threshold(_, _) => Sound(input.fulfillment, set o | o in input.ownersBefore)
    case Other(_) => false
  }

  function Below(n: nat): (r: set<int>)
    ensures |r| == n && forall i :: i in r <==> 0 <= i < n
  {
    if n == 0 then {} else Below(n - 1) + {n - 1}
  }

  /** Children that all hold, or all fail, decide a threshold within reach. */
  lemma AllOrNone(c: Crypto, f: Fulfillment, digest: string, hold: bool)
    requires f.Threshold? && 1 <= f.threshold <= |f.subs|
    requires forall i :: 0 <= i < |f.subs| ==> (Accepts(c, f.subs[i], digest) <==> hold)
    ensures Accepts(c, f, digest) <==> hold
  {
    var holding := set i | 0 <= i < |f.subs| && Accepts(c, f.subs[i], digest);
    assert holding == if hold then Below(|f.subs|) else {};
  }

  /** A tree signed by all its owners accepts the message they signed and no other. */
  lemma {:induction false} SignedAccepts(
      c: Crypto, f: Fulfillment, owners: set<string>, pairs: map<string, string>, made: string, checked: string)
    requires Signs(c) && Sound(f, owners)
    requires forall o :: o in owners ==> o in pairs && c.publicKey(pairs[o]) == o
    ensures var g := SignOwners(c, f, owners, pairs, made);
            (Accepts(c, g, checked) <==> made == checked) && Condition(g) == Condition(f)
  {
    match f
    case Ed25519(p, _) =>
    case Threshold(t, subs) =>
      var g := SignOwners(c, f, owners, pairs, made);
      forall i | 0 <= i < |subs|
        ensures (Accepts(c, g.subs[i], checked) <==> made == checked) && Condition(g.subs[i]) == Condition(subs[i])
      {
        SignedAccepts(c, subs[i], owners, pairs, made, checked);
      }
      AllOrNone(c, g, checked, made == checked);
  }

  lemma SignedInput(c: Crypto, input: Input, message: string, pairs: map<string, string>, checked: string)
    requires Signs(c) && Owned(input) && SignInput(c, input, message, pairs).Ok?
    requires forall p :: p in pairs ==> c.publicKey(pairs[p]) == p
    ensures var signed := SignInput(c, input, message, pairs).value;
            && signed.ownersBefore == input.ownersBefore && signed.fulfills == input.fulfills
            && Condition(signed.fulfillment) == Condition(input.fulfillment)
            && (Accepts(c, signed.fulfillment, checked) <==> c.digest(message, input.fulfills) == checked)
  {
    if input.fulfillment.Threshold? {
      var owners := set o | o in input.ownersBefore;
      SignedAccepts(c, input.fulfillment, owners, pairs, c.digest(message, input.fulfills), checked);
    }
  }

  /** Signing does not change the message: fulfillments are blanked before it is serialized. */
  lemma MessageStays(c: Crypto, tx: Tx, signed: Tx, id: Option<string>)
    requires signed.op == tx.op && signed.rest == tx.rest && |signed.inputs| == |tx.inputs|
    requires forall i :: 0 <= i < |tx.inputs| ==>
               signed.inputs[i].ownersBefore == tx.inputs[i].ownersBefore
                   && signed.inputs[i].fulfills == tx.inputs[i].fulfills
    ensures Message(c, signed, id) == Message(c, tx, id)
  {
    assert RemoveSignatures(ToBody(signed)).inputs == RemoveSignatures(ToBody(tx)).inputs;
  }

  /** The id a signing leaves behind is valid exactly when there was none before. */
  lemma SignedIdValidIff(c: Crypto, tx: Tx, keys: seq<string>)
    requires CollisionFree(c) && Sign(c, tx, keys).Ok?
    ensures IdValid(c, ToBody(Sign(c, tx, keys).value)) <==> tx.id == None
  {
    var signed := Sign(c, tx, keys).value;
    var hashed := ToBody(signed.(id := tx.id));
    assert ToBody(signed).inputs == hashed.inputs;
    assert ToBody(signed).(id := tx.id) == hashed;
  }

  /** Its inputs are valid against their conditions exactly when there was none before. */
  lemma SignedInputsValidIff(c: Crypto, tx: Tx, keys: seq<string>, conditions: seq<Fulfillment>)
    requires Signs(c) && CollisionFree(c) && Sign(c, tx, keys).Ok? && tx.inputs != []
    requires forall i :: 0 <= i < |tx.inputs| ==> Owned(tx.inputs[i])
    requires tx.op.Transfer? ==> |conditions| == |tx.inputs|
    requires tx.op.Transfer? ==> forall i :: 0 <= i < |tx.inputs| ==>
            conditions[i] == Condition(tx.inputs[i].fulfillment)
    ensures InputsValid(c, Sign(c, tx, keys).value, conditions) == Ok(tx.id == None)
  {
    var signed := Sign(c, tx, keys).value;
    var made, message, pairs := Message(c, tx, tx.id), Message(c, tx, None), KeyPairs(c, keys);
    forall i | 0 <= i < |tx.inputs|
      ensures && signed.inputs[i].ownersBefore == tx.inputs[i].ownersBefore
              && signed.inputs[i].fulfills == tx.inputs[i].fulfills
              && Condition(signed.inputs[i].fulfillment) == Condition(tx.inputs[i].fulfillment)
              && (Accepts(c, signed.inputs[i].fulfillment, c.digest(message, signed.inputs[i].fulfills)) <==>
                  tx.id == None)
    {
      var input := tx.inputs[i];
      assert SignInput(c, input, made, pairs) == Ok(signed.inputs[i]);
      SignedInput(c, input, made, pairs, c.digest(message, input.fulfills));
      DigestsAgree(c, tx, input.fulfills);
    }
    MessageStays(c, tx, signed, None);
    assert signed.inputs[0].fulfills == tx.inputs[0].fulfills;
  }

  lemma DigestsAgree(c: Crypto, tx: Tx, fulfills: Option<Link>)
    requires CollisionFree(c)
    ensures c.digest(Message(c, tx, tx.id), fulfills) == c.digest(Message(c, tx, None), fulfills) <==> tx.id == None
  {
    var body := RemoveSignatures(ToBody(tx));
    assert body.(id := tx.id) == body.(id := None) <==> tx.id == None;
  }

  /** Every owner is named by the condition and has a key. */
  ghost predicate Covered(input: Input, pairs: map<string, string>) {
    Owned(input) && forall o :: o in input.ownersBefore ==> o in pairs && HasLeaf(input.fulfillment, o)
  }

  lemma {:induction false} SignSucceeds(c: Crypto, inputs: seq<Input>, message: string, pairs: map<string, string>)
    requires forall i :: 0 <= i < |inputs| ==> Covered(inputs[i], pairs)
    ensures SignInputs(c, inputs, message, pairs).Ok?
  {
    if inputs != [] {
      var last := inputs[|inputs| - 1];
      SignSucceeds(c, inputs[..|inputs| - 1], message, pairs);
      assert Covered(last, pairs);
      if last.fulfillment.Ed25519? { assert last.ownersBefore[0] in last.ownersBefore; }
    }
  }

  /** Signing a transaction that has no id, with keys for all owners, succeeds and makes it valid. */
  lemma SignThenValid(c: Crypto, tx: Tx, keys: seq<string>, conditions: seq<Fulfillment>)
    requires Signs(c) && CollisionFree(c) && tx.id == None && tx.inputs != []
    requires forall i :: 0 <= i < |tx.inputs| ==> Covered(tx.inputs[i], KeyPairs(c, keys))
    requires tx.op.Transfer? ==> |conditions| == |tx.inputs|
    requires tx.op.Transfer? ==> forall i :: 0 <= i < |tx.inputs| ==>
            conditions[i] == Condition(tx.inputs[i].fulfillment)
    ensures Sign(c, tx, keys).Ok? && IdValid(c, ToBody(Sign(c, tx, keys).value))
    ensures InputsValid(c, Sign(c, tx, keys).value, conditions) == Ok(true)
  {
    forall i | 0 <= i < |tx.inputs| ensures Owned(tx.inputs[i]) { assert Covered(tx.inputs[i], KeyPairs(c, keys)); }
    SignSucceeds(c, tx.inputs, Message(c, tx, None), KeyPairs(c, keys));
    SignedIdValidIff(c, tx, keys);
    SignedInputsValidIff(c, tx, keys, conditions);
  }

  // ---------------------------------------------------------------- what is let through

  /** Different places among the children, rising. */
  ghost predicate Places(at: seq<nat>, n: nat) {
    (forall j, k :: 0 <= j < k < |at| ==> at[j] < at[k]) && forall k :: 0 <= k < |at| ==> at[k] < n
  }

  lemma {:induction false} RisingPlaces(holding: set<int>, n: nat) returns (at: seq<nat>)
    requires forall i :: i in holding ==> 0 <= i < n
    ensures Places(at, n) && |at| == |holding| && forall k :: 0 <= k < |at| ==> at[k] in holding
  {
    if n == 0 {
      at := [];
      forall i ensures i !in holding {}
      assert holding == {};
    } else if n - 1 in holding {
      var rest := RisingPlaces(holding - {n - 1}, n - 1);
      at := rest + [n - 1];
    } else {
      at := RisingPlaces(holding, n - 1);
    }
  }

  lemma {:induction false} PlacesAmong(at: seq<nat>, n: nat, holding: set<int>)
    requires Places(at, n) && forall k :: 0 <= k < |at| ==> at[k] in holding
    ensures |at| <= |holding|
  {
    if at != [] {
      var last := at[|at| - 1];
      PlacesAmong(at[..|at| - 1], n, holding - {last});
    }
  }

  /** That many children hold. */
  ghost predicate SomeHold(c: Crypto, subs: seq<Fulfillment>, digest: string, t: nat) {
    exists at :: Places(at, |subs|) && |at| == t && forall k :: 0 <= k < t ==> Accepts(c, subs[at[k]], digest)
  }

  /** A threshold holds exactly when so many different children do. */
  lemma ThresholdHoldsIff(c: Crypto, t: nat, subs: seq<Fulfillment>, digest: string)
    ensures Accepts(c, Threshold(t, subs), digest) <==> SomeHold(c, subs, digest, t)
  {
    var holding := set i | 0 <= i < |subs| && Accepts(c, subs[i], digest);
    if |holding| >= t {
      var all := RisingPlaces(holding, |subs|);
      var at := all[..t];
      assert Places(at, |subs|) && forall k :: 0 <= k < t ==> Accepts(c, subs[at[k]], digest);
    }
    if SomeHold(c, subs, digest, t) {
      var at :| Places(at, |subs|) && |at| == t && forall k :: 0 <= k < t ==> Accepts(c, subs[at[k]], digest);
      PlacesAmong(at, |subs|, holding);
    }
  }

  /** Which fulfillments answer a condition: the same tree, whatever the signatures. */
  lemma AnswersIff(f: Fulfillment, condition: Fulfillment)
    ensures condition.Ed25519? ==>
              (Condition(f) == condition <==>
                 f.Ed25519? && f.publicKey == condition.publicKey && condition.signature == None)
    ensures condition.Threshold? ==>
              (Condition(f) == condition <==>
                 && f.Threshold? && f.threshold == condition.threshold && |f.subs| == |condition.subs|
                 && forall i :: 0 <= i < |f.subs| ==> Condition(f.subs[i]) == condition.subs[i])
  {}

  /** The transaction as it is signed: no fulfillments and no id. */
  function Unsigned(tx: Tx): Body {
    Body(tx.op, tx.rest,
         seq(|tx.inputs|, i requires 0 <= i < |tx.inputs| =>
               InputBody(tx.inputs[i].ownersBefore, tx.inputs[i].fulfills, None)),
         None)
  }

  lemma MessageIsUnsigned(c: Crypto, tx: Tx)
    ensures Message(c, tx, None) == c.serialize(Unsigned(tx))
  {
    assert RemoveSignatures(ToBody(tx)).inputs == Unsigned(tx).inputs;
  }

  /** What an input's signatures are checked against. */
  function Covers(c: Crypto, tx: Tx, i: nat): string
    requires i < |tx.inputs|
  {
    c.digest(c.serialize(Unsigned(tx)), tx.inputs[i].fulfills)
  }

  /**
   * A transfer is valid exactly when every input answers the condition of the output it spends and
   * holds for the unsigned transaction and the input's link. Nothing else is let through.
   */
  lemma TransferValidIff(c: Crypto, tx: Tx, conditions: seq<Fulfillment>)
    requires tx.op.Transfer?
    ensures InputsValid(c, tx, conditions) == Err(CountMismatch) <==> |conditions| != |tx.inputs|
    ensures InputsValid(c, tx, conditions) == Ok(true) <==>
            && |conditions| == |tx.inputs|
            && forall i :: 0 <= i < |tx.inputs| ==>
                 && Condition(tx.inputs[i].fulfillment) == conditions[i]
                 && Accepts(c, tx.inputs[i].fulfillment, Covers(c, tx, i))
  {
    MessageIsUnsigned(c, tx);
  }

  /** An output locked by a key is spent only with a signature that verifies under that key. */
  lemma KeyMustSign(c: Crypto, tx: Tx, conditions: seq<Fulfillment>, i: nat)
    requires tx.op.Transfer? && InputsValid(c, tx, conditions) == Ok(true) && i < |tx.inputs|
    ensures |conditions| == |tx.inputs|
    ensures conditions[i].Ed25519? ==>
              var f := tx.inputs[i].fulfillment;
              f.Ed25519? && f.publicKey == conditions[i].publicKey
              && f.signature.Some? && c.verify(conditions[i].publicKey, Covers(c, tx, i), f.signature.value)
    ensures conditions[i].Threshold? ==>
              var f := tx.inputs[i].fulfillment;
              f.Threshold? && |f.subs| == |conditions[i].subs|
              && SomeHold(c, f.subs, Covers(c, tx, i), conditions[i].threshold)
  {
    TransferValidIff(c, tx, conditions);
    var f := tx.inputs[i].fulfillment;
    AnswersIff(f, conditions[i]);
    if f.Threshold? { ThresholdHoldsIff(c, f.threshold, f.subs, Covers(c, tx, i)); }
  }

  /** An input under another key, or whose signature does not verify, makes a transfer invalid. */
  lemma WrongKeyRefused(c: Crypto, tx: Tx, conditions: seq<Fulfillment>, i: nat)
    requires tx.op.Transfer? && |conditions| == |tx.inputs| && i < |tx.inputs| && conditions[i].Ed25519?
    requires var f := tx.inputs[i].fulfillment;
             || !f.Ed25519? || f.publicKey != conditions[i].publicKey || f.signature == None
             || !c.verify(f.publicKey, Covers(c, tx, i), f.signature.value)
    ensures InputsValid(c, tx, conditions) == Ok(false)
  {
    TransferValidIff(c, tx, conditions);
    AnswersIff(tx.inputs[i].fulfillment, conditions[i]);
    assert InputsValid(c, tx, conditions).Ok?;
  }

  /** A CREATE is valid exactly when every input holds, whatever the conditions. */
  lemma CreateValidIff(c: Crypto, tx: Tx, conditions: seq<Fulfillment>)
    requires tx.op.Create?
    ensures InputsValid(c, tx, conditions)
            == Ok(forall i :: 0 <= i < |tx.inputs| ==> Accepts(c, tx.inputs[i].fulfillment, Covers(c, tx, i)))
  {
    MessageIsUnsigned(c, tx);
  }

  // ---------------------------------------------------------------- details

  datatype Details =
    | KeyDetails(publicKey: string)
    | ThresholdDetails(threshold: nat, subs: seq<Details>)
    | UnknownDetails(typeName: string)

  /** Base 58, from a library outside the repository. */
  datatype Base58 = Base58(encode: string -> string, decode: string -> string)

  ghost predicate Inverse(b: Base58) { forall s :: b.decode(b.encode(s)) == s }

  /** The error of the first element that has one. */
  function Collect<T>(rs: seq<Result<T>>): (r: Result<seq<T>>)
    ensures r.Ok? <==> forall i :: 0 <= i < |rs| ==> rs[i].Ok?
    ensures r.Ok? ==> |r.value| == |rs| && forall i :: 0 <= i < |rs| ==> rs[i] == Ok(r.value[i])
  {
    if rs == [] then Ok([])
    else
      var init := Collect(rs[..|rs| - 1]);
      if init.Err? then init
      else if rs[|rs| - 1].Err? then Err(rs[|rs| - 1].error)
      else Ok(init.value + [rs[|rs| - 1].value])
  }

  function ToDetails(b: Base58, f: Fulfillment): Result<Details> {
    match f
    case Ed25519(p, _) => Ok(KeyDetails(b.encode(p)))
    case Threshold(t, subs) =>
      var details := Collect(seq(|subs|, i requires 0 <= i < |subs| => ToDetails(b, subs[i])));
      if details.Err? then Err(details.error) else Ok(ThresholdDetails(t, details.value))
    case Other(_) => Err(UnknownType)
  }

  const MAX_DEPTH := 100

  function FromDetails(b: Base58, d: Details, depth: nat): Result<Fulfillment> {
    if depth == MAX_DEPTH then Err(TooDeep)
    else
      match d
      case KeyDetails(p) => Ok(Ed25519(b.decode(p), None))
      case ThresholdDetails(t, subs) =>
        var loaded := Collect(seq(|subs|, i requires 0 <= i < |subs| => FromDetails(b, subs[i], depth + 1)));
        if loaded.Err? then Err(loaded.error) else Ok(Threshold(t, loaded.value))
      case UnknownDetails(_) => Err(UnknownType)
  }

  /** No node lies more than limit levels down. */
  predicate Within(f: Fulfillment, limit: int) {
    0 <= limit && (f.Threshold? ==> forall i :: 0 <= i < |f.subs| ==> Within(f.subs[i], limit - 1))
  }

  lemma {:induction false} LoadIff(b: Base58, f: Fulfillment, depth: nat)
    requires Inverse(b) && ToDetails(b, f).Ok? && depth <= MAX_DEPTH
    ensures var r := FromDetails(b, ToDetails(b, f).value, depth);
            && (r.Ok? <==> Within(f, MAX_DEPTH - 1 - depth))
            && (r.Ok? ==> r.value == Condition(f))
    decreases f
  {
    if f.Threshold? && depth < MAX_DEPTH {
      var d := ToDetails(b, f).value;
      var details := seq(|f.subs|, i requires 0 <= i < |f.subs| => ToDetails(b, f.subs[i]));
      assert Collect(details) == Ok(d.subs);
      forall i | 0 <= i < |f.subs|
        ensures ToDetails(b, f.subs[i]) == Ok(d.subs[i])
        ensures var r := FromDetails(b, d.subs[i], depth + 1);
                && (r.Ok? <==> Within(f.subs[i], MAX_DEPTH - 2 - depth)) && (r.Ok? ==> r.value == Condition(f.subs[i]))
      {
        assert details[i] == Ok(d.subs[i]);
        LoadIff(b, f.subs[i], depth + 1);
      }
      var loaded := seq(|d.subs|, i requires 0 <= i < |d.subs| => FromDetails(b, d.subs[i], depth + 1));
      assert forall i :: 0 <= i < |loaded| ==> loaded[i] == FromDetails(b, d.subs[i], depth + 1);
      if Collect(loaded).Ok? {
        assert forall i :: 0 <= i < |f.subs| ==> loaded[i] == Ok(Condition(f.subs[i]));
        assert Collect(loaded).value == Condition(f).subs;
      }
    }
  }

  /** A condition tree survives its details form exactly when no node is deeper than 99. */
  lemma DetailsRoundTripIff(b: Base58, f: Fulfillment)
    requires Inverse(b) && ToDetails(b, f).Ok?
    ensures FromDetails(b, ToDetails(b, f).value, 0) == Ok(Condition(f)) <==> Within(f, 99)
  {
    LoadIff(b, f, 0);
  }
}
