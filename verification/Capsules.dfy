/** Key capsules: what a gateway with a given broker and, perhaps, the recovery secret gets
    out of one. Wraps are symbolic: an undamaged envelope opens under its own key and context
    and gives the data key it was made from. */
module Capsules {
  import opened Tables

  /** What a process can unwrap with: its key broker, and whether it holds the recovery secret. */
  datatype Gateway = Gateway(broker: Option<Id>, root: bool)

  /** `key_broker.unwrap(envelope, context)` for the broker whose key made the envelope. */
  predicate EnvelopeOpens(envelope: Envelope, id: Id) {
    envelope.intact && envelope.context == id
  }

  /** The recovery half of `_unwrap_capsule`. */
  function Recover(capsule: Capsule, id: Id, gateway: Gateway): Option<Dek> {
    if gateway.root && capsule.recoveryContext == id then Some(capsule.recoveryDek) else None
  }

  /** The envelope loop of `_unwrap_capsule`, every broker call answering. */
  function UnwrapFrom(primary: seq<Envelope>, capsule: Capsule, id: Id, gateway: Gateway): Option<Dek> {
    if primary == [] then Recover(capsule, id, gateway)
    else if gateway.broker == Some(primary[0].keyId) then
      if EnvelopeOpens(primary[0], id) then Some(primary[0].dek)
      else if gateway.root then UnwrapFrom(primary[1..], capsule, id, gateway)
      else None
    else UnwrapFrom(primary[1..], capsule, id, gateway)
  }

  function Unwrap(capsule: Capsule, id: Id, gateway: Gateway): Option<Dek> {
    UnwrapFrom(capsule.primary, capsule, id, gateway)
  }

  /** Every wrap in the capsule that opens for `id` gives `dek`, and recovery does. */
  ghost predicate Faithful(capsule: Capsule, id: Id, dek: Dek) {
    && capsule.recoveryContext == id && capsule.recoveryDek == dek
    && forall i :: 0 <= i < |capsule.primary| && EnvelopeOpens(capsule.primary[i], id) ==>
         capsule.primary[i].dek == dek
  }

  /** A data key comes out of an undamaged envelope of this broker that is bound to the object, or out of a
      recovery wrap that is, and from nowhere else. */
  lemma {:induction false} UnwrapComesFrom(primary: seq<Envelope>, capsule: Capsule, id: Id, gateway: Gateway)
    requires UnwrapFrom(primary, capsule, id, gateway).Some?
    ensures var dek := UnwrapFrom(primary, capsule, id, gateway).value;
      || (exists e :: e in primary && Some(e.keyId) == gateway.broker && e.intact && e.context == id && e.dek == dek)
      || (gateway.root && capsule.recoveryContext == id && capsule.recoveryDek == dek)
  {
    if primary != [] {
      assert primary[0] in primary;
      if !(gateway.broker == Some(primary[0].keyId) && EnvelopeOpens(primary[0], id)) {
        UnwrapComesFrom(primary[1..], capsule, id, gateway);
      }
    }
  }

  /** A faithful capsule never yields a wrong data key, whoever opens it. */
  lemma {:induction false} UnwrapFaithful(primary: seq<Envelope>, capsule: Capsule, id: Id, gateway: Gateway, dek: Dek)
    requires Faithful(capsule, id, dek)
    requires forall i :: 0 <= i < |primary| && EnvelopeOpens(primary[i], id) ==> primary[i].dek == dek
    ensures UnwrapFrom(primary, capsule, id, gateway) in {None, Some(dek)}
    ensures gateway.root ==> UnwrapFrom(primary, capsule, id, gateway) == Some(dek)
  {
    if primary != [] {
      UnwrapFaithful(primary[1..], capsule, id, gateway, dek);
    }
  }
}
