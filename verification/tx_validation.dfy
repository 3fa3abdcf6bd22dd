/**
 * verify_tx: a transaction is accepted when every input names a key of the
 * UTXO set, carries a signature over the transaction with all signatures
 * blanked, and comes from the public key whose address owns the output, and
 * when its outputs total no more than its inputs. The first failing check,
 * input by input, is the reason reported.
 */
module TxValidation {
  import opened LedgerTypes

  datatype Verdict = Accept | MissingInput(key: OutPoint) | BadSignature | PubkeyMismatch | OutputsExceedInputs

  /** The message every input signs: the transaction with each input's sig set to "". */
  function BlankSigs(tx: Tx): (r: Tx)
    ensures |r.inputs| == |tx.inputs| && r.outputs == tx.outputs && r.timestamp == tx.timestamp
    ensures forall i :: 0 <= i < |tx.inputs| ==> r.inputs[i] == tx.inputs[i].(sig := "")
  {
    tx.(inputs := seq(|tx.inputs|, i requires 0 <= i < |tx.inputs| => tx.inputs[i].(sig := "")))
  }

  /**
   * Two transactions sign the same message exactly when they differ in
   * nothing but their signatures, so no input's signature can cover another
   * input's signature; blanking a second time changes nothing.
   */
  lemma SignedMessageIgnoresSigs(t1: Tx, t2: Tx)
    ensures BlankSigs(t1) == BlankSigs(t2) <==>
      |t1.inputs| == |t2.inputs| && t1.outputs == t2.outputs && t1.timestamp == t2.timestamp
      && forall i :: 0 <= i < |t1.inputs| ==> t1.inputs[i].(sig := "") == t2.inputs[i].(sig := "")
    ensures BlankSigs(BlankSigs(t1)) == BlankSigs(t1)
  {
    var b1, b2 := BlankSigs(t1), BlankSigs(t2);
    if |t1.inputs| == |t2.inputs| && t1.outputs == t2.outputs && t1.timestamp == t2.timestamp
       && forall i :: 0 <= i < |t1.inputs| ==> t1.inputs[i].(sig := "") == t2.inputs[i].(sig := "")
    {
      assert b1.inputs == b2.inputs;
    }
    if b1 == b2 {
      forall i | 0 <= i < |t1.inputs| ensures t1.inputs[i].(sig := "") == t2.inputs[i].(sig := "") {
        assert b1.inputs[i] == b2.inputs[i];
      }
    }
    assert BlankSigs(b1).inputs == b1.inputs;
  }

  function SumOutputs(outs: seq<TxOut>): int
    decreases |outs|
  {
    if outs == [] then 0 else SumOutputs(outs[..|outs| - 1]) + outs[|outs| - 1].amount
  }

  /** Every input names a key of the set. */
  predicate Funded(u: Utxo, ins: seq<TxIn>) {
    forall i :: 0 <= i < |ins| ==> KeyOf(ins[i]) in u
  }

  /** total_in: the amounts of the referenced outputs, one term per input, repeats included. */
  function TotalIn(u: Utxo, ins: seq<TxIn>): int
    requires Funded(u, ins)
    decreases |ins|
  {
    if ins == [] then 0 else TotalIn(u, ins[..|ins| - 1]) + u[KeyOf(ins[|ins| - 1])].amount
  }

  /** The checks verify_tx makes on one input, in the order it makes them. */
  function InputVerdict(c: Crypto, u: Utxo, tx: Tx, inp: TxIn): Verdict {
    if KeyOf(inp) !in u then MissingInput(KeyOf(inp))
    else if !c.sigOk(inp.pubkey, inp.sig, BlankSigs(tx)) then BadSignature
    else if c.address(inp.pubkey) != u[KeyOf(inp)].pubkeyHash then PubkeyMismatch
    else Accept
  }

  /** The verdict once inputs 0 .. i-1 have passed. */
  function CheckFrom(c: Crypto, u: Utxo, tx: Tx, i: nat): Verdict
    requires i <= |tx.inputs|
    requires forall j :: 0 <= j < i ==> InputVerdict(c, u, tx, tx.inputs[j]) == Accept
    decreases |tx.inputs| - i
  {
    if i == |tx.inputs| then
      assert Funded(u, tx.inputs) by {
        forall j | 0 <= j < |tx.inputs| ensures KeyOf(tx.inputs[j]) in u {
          assert InputVerdict(c, u, tx, tx.inputs[j]) == Accept;
        }
      }
      if SumOutputs(tx.outputs) > TotalIn(u, tx.inputs) then OutputsExceedInputs else Accept
    else
      var v := InputVerdict(c, u, tx, tx.inputs[i]);
      if v != Accept then v else CheckFrom(c, u, tx, i + 1)
  }

  /** The verdict of verify_tx against the set u. */
  function Verify(c: Crypto, u: Utxo, tx: Tx): Verdict {
    CheckFrom(c, u, tx, 0)
  }

  /** verify_tx: reads the UTXO set and returns the verdict; it changes nothing. */
  method VerifyTx(c: Crypto, u: Utxo, tx: Tx) returns (v: Verdict)
    ensures v == Verify(c, u, tx)
  {
    var totalIn := 0;
    var i := 0;
    while i < |tx.inputs|
      invariant 0 <= i <= |tx.inputs|
      invariant forall j :: 0 <= j < i ==> InputVerdict(c, u, tx, tx.inputs[j]) == Accept
      invariant totalIn == TotalIn(u, tx.inputs[..i])
      invariant Verify(c, u, tx) == CheckFrom(c, u, tx, i)
    {
      var inp := tx.inputs[i];
      var key := KeyOf(inp);
      if key !in u {
        return MissingInput(key);
      }
      var entry := u[key];
      totalIn := totalIn + entry.amount;
      var message := BlankSigs(tx);
      if !c.sigOk(inp.pubkey, inp.sig, message) {
        return BadSignature;
      }
      if c.address(inp.pubkey) != entry.pubkeyHash {
        return PubkeyMismatch;
      }
      assert tx.inputs[..i + 1][..i] == tx.inputs[..i];
      i := i + 1;
    }
    assert tx.inputs[..i] == tx.inputs;
    var totalOut := SumOutputs(tx.outputs);
    if totalOut > totalIn {
      return OutputsExceedInputs;
    }
    return Accept;
  }

  lemma {:induction false} CheckFromAccepts(c: Crypto, u: Utxo, tx: Tx, i: nat)
    requires i <= |tx.inputs|
    requires forall j :: 0 <= j < i ==> InputVerdict(c, u, tx, tx.inputs[j]) == Accept
    ensures CheckFrom(c, u, tx, i) == Accept <==>
      Funded(u, tx.inputs)
      && (forall j :: i <= j < |tx.inputs| ==> InputVerdict(c, u, tx, tx.inputs[j]) == Accept)
      && SumOutputs(tx.outputs) <= TotalIn(u, tx.inputs)
    decreases |tx.inputs| - i
  {
    if i < |tx.inputs| && InputVerdict(c, u, tx, tx.inputs[i]) == Accept {
      CheckFromAccepts(c, u, tx, i + 1);
    }
  }

  /**
   * A transaction is accepted exactly when every input passes its three checks
   * and the outputs total no more than the inputs.
   */
  lemma VerifyAcceptIff(c: Crypto, u: Utxo, tx: Tx)
    ensures Verify(c, u, tx) == Accept <==>
      Funded(u, tx.inputs)
      && (forall i :: 0 <= i < |tx.inputs| ==> InputVerdict(c, u, tx, tx.inputs[i]) == Accept)
      && SumOutputs(tx.outputs) <= TotalIn(u, tx.inputs)
  {
    CheckFromAccepts(c, u, tx, 0);
  }

  lemma {:induction false} CheckFromReason(c: Crypto, u: Utxo, tx: Tx, i: nat)
    requires i <= |tx.inputs|
    requires forall j :: 0 <= j < i ==> InputVerdict(c, u, tx, tx.inputs[j]) == Accept
    ensures var v := CheckFrom(c, u, tx, i);
      v.MissingInput? ==> v.key !in u && exists j :: i <= j < |tx.inputs| && KeyOf(tx.inputs[j]) == v.key
    decreases |tx.inputs| - i
  {
    if i < |tx.inputs| && InputVerdict(c, u, tx, tx.inputs[i]) == Accept {
      CheckFromReason(c, u, tx, i + 1);
    }
  }

  /** A missing-input rejection names a key some input refers to and the set lacks. */
  lemma MissingInputIsMissing(c: Crypto, u: Utxo, tx: Tx)
    ensures var v := Verify(c, u, tx);
      v.MissingInput? ==> v.key !in u && exists j :: 0 <= j < |tx.inputs| && KeyOf(tx.inputs[j]) == v.key
  {
    CheckFromReason(c, u, tx, 0);
  }

  /** An input listed twice contributes its amount twice to total_in. */
  lemma DuplicateInputCountsTwice(u: Utxo, inp: TxIn)
    requires KeyOf(inp) in u
    ensures TotalIn(u, [inp, inp]) == 2 * u[KeyOf(inp)].amount
  {
    assert [inp, inp][..1] == [inp];
    assert [inp][..0] == [];
    assert TotalIn(u, [inp]) == u[KeyOf(inp)].amount;
  }

  /**
   * Hence a transaction spending one output twice may pay out twice its
   * value and still be accepted.
   */
  lemma DuplicateInputDoublesValue(c: Crypto, u: Utxo, inp: TxIn, payee: string, now: int)
    requires KeyOf(inp) in u
    requires var tx := Tx([inp, inp], [TxOut(2 * u[KeyOf(inp)].amount, payee)], now);
      InputVerdict(c, u, tx, inp) == Accept
    ensures Verify(c, u, Tx([inp, inp], [TxOut(2 * u[KeyOf(inp)].amount, payee)], now)) == Accept
  {
    var tx := Tx([inp, inp], [TxOut(2 * u[KeyOf(inp)].amount, payee)], now);
    DuplicateInputCountsTwice(u, inp);
    assert tx.outputs[..0] == [];
    VerifyAcceptIff(c, u, tx);
  }
}
