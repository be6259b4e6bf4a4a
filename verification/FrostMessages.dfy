/** Messages of the weighted FROST protocols and the data each party brings to
    them. Curve points, scalars and shares are opaque byte strings; the signing
    function of a party is a parameter of the model. */
module FrostMessages {
  type PartyId = nat
  type KeyId = nat
  type Bytes = seq<nat>

  datatype Message =
    | DKG(from: PartyId, shares: map<KeyId, Bytes>, keyIds: seq<KeyId>, poly: Bytes)
    | Sign(from: PartyId, keyIds: seq<KeyId>, nonce: Bytes)
    | SignFinal(from: PartyId, share: Bytes)

  /** What a party publishes in the first signing round. */
  datatype Commitment = Commitment(keyIds: seq<KeyId>, nonce: Bytes)

  /** The values of `m` in the order of `ids`. */
  function Values<V>(m: map<PartyId, V>, ids: seq<PartyId>): (r: seq<V>)
    requires forall i | i in ids :: i in m
    ensures |r| == |ids| && forall i | 0 <= i < |r| :: r[i] == m[ids[i]]
  {
    seq(|ids|, i requires 0 <= i < |ids| => m[ids[i]])
  }

  /** Parties whose first-round signing message is in `log`. */
  function Signers(log: seq<Message>): set<PartyId> {
    if log == [] then {}
    else
      var m := log[|log| - 1];
      Signers(log[..|log| - 1]) + (if m.Sign? then {m.from} else {})
  }

  /** Parties whose signature share is in `log`. */
  function Finalizers(log: seq<Message>): set<PartyId> {
    if log == [] then {}
    else
      var m := log[|log| - 1];
      Finalizers(log[..|log| - 1]) + (if m.SignFinal? then {m.from} else {})
  }

  /** Parties whose key generation message is in `log`. */
  function Dealers(log: seq<Message>): set<PartyId> {
    if log == [] then {}
    else
      var m := log[|log| - 1];
      Dealers(log[..|log| - 1]) + (if m.DKG? then {m.from} else {})
  }

  lemma SendersAppend(log: seq<Message>, m: Message)
    ensures Signers(log + [m]) == Signers(log) + (if m.Sign? then {m.from} else {})
    ensures Finalizers(log + [m]) == Finalizers(log) + (if m.SignFinal? then {m.from} else {})
    ensures Dealers(log + [m]) == Dealers(log) + (if m.DKG? then {m.from} else {})
  {
    assert (log + [m])[..|log|] == log;
  }

  lemma {:induction false} SendersPrefix(log: seq<Message>, k: nat)
    requires k <= |log|
    ensures Signers(log[..k]) <= Signers(log)
    ensures Finalizers(log[..k]) <= Finalizers(log)
    ensures Dealers(log[..k]) <= Dealers(log)
  {
    if k == |log| {
      assert log[..k] == log;
    } else {
      SendersPrefix(log[..|log| - 1], k);
      assert log[..|log| - 1][..k] == log[..k];
    }
  }

  /** The senders of a log are the senders of its messages. */
  lemma {:induction false} SendersMembers(log: seq<Message>, p: PartyId)
    ensures p in Signers(log) <==> exists m :: m in log && m.Sign? && m.from == p
    ensures p in Finalizers(log) <==> exists m :: m in log && m.SignFinal? && m.from == p
    ensures p in Dealers(log) <==> exists m :: m in log && m.DKG? && m.from == p
  {
    if log != [] {
      var front, last := log[..|log| - 1], log[|log| - 1];
      SendersMembers(front, p);
      assert log == front + [last];
      assert forall m :: m in log <==> m in front || m == last;
    }
  }
}
