/** Moving every key capsule from one key broker to another, over any number of interrupted and
    resumed runs. */
module Rotation {
  import opened Tables
  import opened Capsules

  /** What the broker with this key gets out of a capsule, on its own. */
  function ByBroker(capsule: Capsule, id: Id, key: Id): Option<Dek> {
    Unwrap(capsule, id, Gateway(Some(key), false))
  }

  /** The first envelope for a key: `next(...)` over the list. */
  function FirstFor(primary: seq<Envelope>, key: Id): Option<Envelope> {
    if primary == [] then None
    else if primary[0].keyId == key then Some(primary[0])
    else FirstFor(primary[1..], key)
  }

  /** The envelopes for a key, in order. */
  function AllFor(primary: seq<Envelope>, key: Id): seq<Envelope> {
    if primary == [] then []
    else if primary[0].keyId == key then [primary[0]] + AllFor(primary[1..], key)
    else AllFor(primary[1..], key)
  }

  lemma {:induction false} FirstIsOne(primary: seq<Envelope>, key: Id)
    ensures FirstFor(primary, key).Some? <==> AllFor(primary, key) != []
    ensures FirstFor(primary, key).Some? ==>
      FirstFor(primary, key).value == AllFor(primary, key)[0] && FirstFor(primary, key).value in primary
    ensures forall e :: e in AllFor(primary, key) ==> e in primary && e.keyId == key
  {
    if primary != [] {
      FirstIsOne(primary[1..], key);
    }
  }

  /** A broker alone gets what its first envelope holds. */
  lemma {:induction false} BrokerSeesFirst(primary: seq<Envelope>, capsule: Capsule, id: Id, key: Id)
    ensures UnwrapFrom(primary, capsule, id, Gateway(Some(key), false)) ==
      match FirstFor(primary, key)
      case None => None
      case Some(e) => if EnvelopeOpens(e, id) then Some(e.dek) else None
  {
    if primary != [] {
      BrokerSeesFirst(primary[1..], capsule, id, key);
    }
  }

  lemma {:induction false} FirstInLonger(primary: seq<Envelope>, e: Envelope, key: Id)
    ensures FirstFor(primary + [e], key) ==
      if FirstFor(primary, key).Some? then FirstFor(primary, key)
      else if e.keyId == key then Some(e) else None
  {
    if primary == [] {
      assert primary + [e] == [e] && [e][1..] == [];
    } else {
      assert (primary + [e])[1..] == primary[1..] + [e];
      FirstInLonger(primary[1..], e, key);
    }
  }

  /** The capsule with one more primary envelope. */
  function Appended(capsule: Capsule, e: Envelope): Capsule {
    capsule.(primary := capsule.primary + [e])
  }

  /** Adding a good envelope at the end takes nothing from anybody: what any broker could open it
      still can, and recovery still gives the same data key. */
  lemma AppendKeeps(capsule: Capsule, id: Id, e: Envelope, dek: Dek, key: Id)
    requires Faithful(capsule, id, dek) && e.dek == dek
    ensures Faithful(Appended(capsule, e), id, dek)
    ensures ByBroker(capsule, id, key).Some? ==> ByBroker(Appended(capsule, e), id, key) == ByBroker(capsule, id, key)
    ensures FirstFor(capsule.primary, e.keyId).None? && EnvelopeOpens(e, id) ==>
      ByBroker(Appended(capsule, e), id, e.keyId) == Some(dek)
  {
    var longer := Appended(capsule, e);
    BrokerSeesFirst(capsule.primary, capsule, id, key);
    BrokerSeesFirst(longer.primary, longer, id, key);
    BrokerSeesFirst(longer.primary, longer, id, e.keyId);
    FirstInLonger(capsule.primary, e, key);
    FirstInLonger(capsule.primary, e, e.keyId);
  }

  /** Keeping only the one envelope for a key leaves that key's broker what it had. */
  lemma FinalizeKeeps(capsule: Capsule, id: Id, dek: Dek, key: Id)
    requires Faithful(capsule, id, dek) && |AllFor(capsule.primary, key)| == 1
    requires EnvelopeOpens(AllFor(capsule.primary, key)[0], id)
    ensures var only := capsule.(primary := AllFor(capsule.primary, key));
      Faithful(only, id, dek) && ByBroker(only, id, key) == Some(dek)
  {
    FirstIsOne(capsule.primary, key);
    var only := capsule.(primary := AllFor(capsule.primary, key));
    var e := AllFor(capsule.primary, key)[0];
    assert only.primary == [e] && [e][1..] == [];
    BrokerSeesFirst(only.primary, only, id, key);
    assert FirstFor([e], key) == Some(e);
  }

  /** A capsule after the first loop has seen it. */
  function Added(capsule: Capsule, id: Id, key: Id): Capsule {
    if FirstFor(capsule.primary, key).Some? then capsule
    else Appended(capsule, Envelope(key, id, DekOf(id), true))
  }

  /** A capsule with the envelopes for one key alone. */
  function Finalized(capsule: Capsule, key: Id): Capsule {
    capsule.(primary := AllFor(capsule.primary, key))
  }

  lemma {:induction false} AllOfAll(primary: seq<Envelope>, key: Id)
    ensures AllFor(AllFor(primary, key), key) == AllFor(primary, key)
  {
    if primary != [] {
      AllOfAll(primary[1..], key);
    }
  }

  /** A resumed run finds nothing more to do where an earlier one has been. */
  lemma ResumedRunsAgree(capsule: Capsule, id: Id, key: Id)
    ensures Added(Added(capsule, id, key), id, key) == Added(capsule, id, key)
    ensures Added(Finalized(Added(capsule, id, key), key), id, key) == Finalized(Added(capsule, id, key), key)
    ensures Finalized(Finalized(capsule, key), key) == Finalized(capsule, key)
  {
    var e := Envelope(key, id, DekOf(id), true);
    FirstInLonger(capsule.primary, e, key);
    AllOfAll(capsule.primary, key);
    var added := Added(capsule, id, key);
    AllOfAll(added.primary, key);
    FirstIsOne(added.primary, key);
    FirstIsOne(AllFor(added.primary, key), key);
  }

  /** A finalized capsule opens for a process that holds the recovery secret or has the new
      broker, and for no other: an interrupted finalizing run cannot be resumed with the old
      broker alone. */
  lemma FinalizedOpensFor(capsule: Capsule, id: Id, key: Id, gateway: Gateway)
    requires Faithful(capsule, id, DekOf(id)) && OnlyNew(capsule, key) && EnvelopeOpens(capsule.primary[0], id)
    ensures Unwrap(capsule, id, gateway) == Some(DekOf(id)) <==> gateway.root || gateway.broker == Some(key)
    ensures Unwrap(capsule, id, gateway).Some? ==> Unwrap(capsule, id, gateway) == Some(DekOf(id))
  {
    assert capsule.primary[1..] == [];
    assert UnwrapFrom(capsule.primary[1..], capsule, id, gateway) == Recover(capsule, id, gateway);
  }

  /** Just one primary envelope, for the new broker. */
  predicate OnlyNew(capsule: Capsule, key: Id) {
    |capsule.primary| == 1 && capsule.primary[0].keyId == key
  }

  predicate Lacks(capsule: Capsule, key: Id) {
    FirstFor(capsule.primary, key).None?
  }

  /** How many of the first `n` capsules have no envelope for the key yet. */
  function Lacking(rows: seq<Id>, n: nat, capsules: map<Id, Capsule>, key: Id): nat
    requires n <= |rows|
  {
    if n == 0 then 0
    else
      Lacking(rows, n - 1, capsules, key) +
      if rows[n - 1] in capsules && Lacks(capsules[rows[n - 1]], key) then 1 else 0
  }

  /** The process can open the capsule, and the new broker can, once it has an envelope there. */
  predicate Rewrappable(capsule: Capsule, id: Id, key: Id, gateway: Gateway) {
    Unwrap(capsule, id, gateway).Some? && ByBroker(Added(capsule, id, key), id, key).Some?
  }

  /** The process can open the capsule, and the new broker has just one envelope there. */
  predicate Finalizable(capsule: Capsule, id: Id, key: Id, gateway: Gateway) {
    Unwrap(capsule, id, gateway).Some? && |AllFor(capsule.primary, key)| == 1
  }

  lemma {:induction false} AllForLonger(primary: seq<Envelope>, e: Envelope, key: Id)
    ensures AllFor(primary + [e], key) == AllFor(primary, key) + if e.keyId == key then [e] else []
  {
    if primary == [] {
      assert primary + [e] == [e] && [e][1..] == [];
    } else {
      assert (primary + [e])[1..] == primary[1..] + [e];
      AllForLonger(primary[1..], e, key);
    }
  }

  /** After the first loop a capsule can be finalized, unless it had several envelopes for the new broker
      to begin with. */
  lemma AddedFinalizable(capsule: Capsule, id: Id, key: Id, gateway: Gateway)
    requires Faithful(capsule, id, DekOf(id)) && Rewrappable(capsule, id, key, gateway)
    ensures Finalizable(Added(capsule, id, key), id, key, gateway) <==> |AllFor(capsule.primary, key)| <= 1
  {
    hide UnwrapFrom, FirstFor;
    var e := Envelope(key, id, DekOf(id), true);
    var added := Added(capsule, id, key);
    FirstIsOne(capsule.primary, key);
    AllForLonger(capsule.primary, e, key);
    AppendKeeps(capsule, id, e, DekOf(id), key);
    UnwrapFaithful(added.primary, added, id, gateway, DekOf(id));
    if gateway.broker.Some? && !gateway.root {
      AppendKeeps(capsule, id, e, DekOf(id), gateway.broker.value);
    }
    if gateway.broker.None? && !gateway.root {
      WithoutAnything(capsule.primary, capsule, id);
    }
  }

  lemma {:induction false} WithoutAnything(primary: seq<Envelope>, capsule: Capsule, id: Id)
    ensures UnwrapFrom(primary, capsule, id, Gateway(None, false)) == None
  {
    if primary != [] {
      WithoutAnything(primary[1..], capsule, id);
    }
  }

  /** `ORDER BY id`, each id once. */
  predicate Ascending(rows: seq<Id>) {
    forall i, j :: 0 <= i < j < |rows| ==> rows[i] < rows[j]
  }

  /** `changed`, after `n` capsules. */
  predicate ChangedIs(changed: nat, rows: seq<Id>, n: nat, capsules: map<Id, Capsule>, key: Id)
    requires n <= |rows|
  {
    changed == Lacking(rows, n, capsules, key)
  }

  lemma ChangedMore(changed: nat, rows: seq<Id>, n: nat, capsules: map<Id, Capsule>, key: Id, added: bool)
    requires n < |rows| && rows[n] in capsules && ChangedIs(changed, rows, n, capsules, key)
    requires added <==> Lacks(capsules[rows[n]], key)
    ensures ChangedIs(changed + if added then 1 else 0, rows, n + 1, capsules, key)
  {
  }

  /** The two loops over the capsules. */
  datatype Pass = Adding | Keeping

  /** What a loop makes of a capsule. */
  function Touched(pass: Pass, capsule: Capsule, id: Id, key: Id): Capsule {
    match pass
    case Adding => Added(capsule, id, key)
    case Keeping => Finalized(capsule, key)
  }

  /** A loop has done the first `n` of `rows` and no other capsule. */
  ghost predicate DoneUpTo(pass: Pass, before: map<Id, Capsule>, now: map<Id, Capsule>, rows: seq<Id>, n: nat, key: Id)
    requires n <= |rows|
  {
    && now.Keys == before.Keys
    && forall id :: id in now ==>
         now[id] == if id in rows[..n] then Touched(pass, before[id], id, key) else before[id]
  }

  /** Wherever a loop stops, each capsule is as it was or as the loop makes it. */
  ghost predicate DoneSome(pass: Pass, before: map<Id, Capsule>, now: map<Id, Capsule>, rows: seq<Id>, key: Id) {
    && now.Keys == before.Keys
    && forall id :: id in now ==>
         now[id] == before[id] || (id in rows && now[id] == Touched(pass, before[id], id, key))
  }

  /** The next capsule of a loop: it is still as it was, and touching it keeps the count. */
  lemma DoneOneMore(pass: Pass, before: map<Id, Capsule>, now: map<Id, Capsule>, later: map<Id, Capsule>, rows: seq<Id>,
                    n: nat, key: Id)
    requires n < |rows| && Ascending(rows)
    requires DoneUpTo(pass, before, now, rows, n, key) && rows[n] in now
    requires later == now || later == now[rows[n] := Touched(pass, now[rows[n]], rows[n], key)]
    ensures rows[n] in before && now[rows[n]] == before[rows[n]]
    ensures DoneSome(pass, before, now, rows, key) && DoneSome(pass, before, later, rows, key)
    ensures later == now[rows[n] := Touched(pass, now[rows[n]], rows[n], key)] ==>
      DoneUpTo(pass, before, later, rows, n + 1, key)
  {
    hide Touched;
    assert rows[..n + 1] == rows[..n] + [rows[n]];
    assert rows[n] !in rows[..n];
  }

  lemma DoneNone(pass: Pass, before: map<Id, Capsule>, rows: seq<Id>, key: Id)
    ensures DoneUpTo(pass, before, before, rows, 0, key)
  {
  }

  lemma DoneAll(pass: Pass, before: map<Id, Capsule>, now: map<Id, Capsule>, rows: seq<Id>, key: Id)
    requires DoneUpTo(pass, before, now, rows, |rows|, key)
    ensures DoneSome(pass, before, now, rows, key)
  {
    assert rows[..|rows|] == rows;
  }

  /** The first loop after `n` capsules. */
  ghost predicate AddedSoFar(before: map<Id, Capsule>, now: map<Id, Capsule>, rows: seq<Id>, n: nat, changed: nat,
                             key: Id) {
    n <= |rows| && DoneUpTo(Adding, before, now, rows, n, key) && ChangedIs(changed, rows, n, before, key)
  }

  lemma NoneAdded(before: map<Id, Capsule>, rows: seq<Id>, key: Id)
    ensures AddedSoFar(before, before, rows, 0, 0, key)
  {
  }

  lemma AllAdded(before: map<Id, Capsule>, now: map<Id, Capsule>, rows: seq<Id>, changed: nat, key: Id)
    requires AddedSoFar(before, now, rows, |rows|, changed, key)
    ensures DoneSome(Adding, before, now, rows, key)
  {
    DoneAll(Adding, before, now, rows, key);
  }

  class KeyRotation {
    /** The objects and manifests with a capsule, in the order of the query. */
    const rows: seq<Id>
    /** The broker the capsules were made with, and the one they move to. */
    const oldKey: Id
    const newKey: Id
    /** Whether the process holds the recovery secret. */
    const root: bool

    /** `self.key_broker`: lost when the process stops. */
    var keyBroker: Option<Id>
    /** The key files of the vault. */
    var capsules: map<Id, Capsule>
    /** `cas_key_rewrap` for the new key: true for VERIFIED, false for FAILED. */
    var rewrap: map<Id, bool>

    /** Whether a write that removes old envelopes has been begun, in any run, and for which
        capsules. */
    ghost var finalizing: bool
    ghost var finalized: set<Id>
    /** How many calls to the vault or to a broker have failed. */
    ghost var faults: nat

    /** A capsule that still has its data key, for whoever is promised it. */
    ghost predicate Safe(id: Id)
      reads this
    {
      && id in capsules && Faithful(capsules[id], id, DekOf(id))
      && (id !in finalized ==> ByBroker(capsules[id], id, oldKey) == Some(DekOf(id)))
      && (finalizing ==> ByBroker(capsules[id], id, newKey) == Some(DekOf(id)))
    }

    ghost predicate Valid()
      reads this
    {
      && Ascending(rows)
      && (forall id :: id in rows ==> Safe(id))
      && (finalized != {} ==> finalizing)
      && (keyBroker.Some? || root)
    }

    /** Before the first run: every capsule opens for the old broker and for recovery. */
    constructor (rows: seq<Id>, capsules: map<Id, Capsule>, oldKey: Id, newKey: Id, keyBroker: Option<Id>, root: bool)
      requires Ascending(rows)
      requires forall id :: id in rows ==>
        id in capsules && Faithful(capsules[id], id, DekOf(id)) &&
        ByBroker(capsules[id], id, oldKey) == Some(DekOf(id))
      requires keyBroker.Some? || root
      ensures Valid() && !finalizing && finalized == {} && this.rows == rows && this.capsules == capsules
      ensures this.oldKey == oldKey && this.newKey == newKey && this.root == root
    {
      this.rows, this.capsules, this.oldKey, this.newKey := rows, capsules, oldKey, newKey;
      this.keyBroker, this.root := keyBroker, root;
      this.rewrap, this.finalizing, this.finalized, this.faults := map[], false, {}, 0;
    }

    /** A capsule is read whole or the call raises. */
    method Fetch(id: Id) returns (r: Outcome<Capsule>)
      requires id in capsules
      modifies this`faults
      ensures faults == old(faults) + if r == Raised(RemoteFailure) then 1 else 0
      ensures r.Raised? ==> r.error == RemoteFailure
      ensures r.Done? ==> r.value == capsules[id]
    {
      if * {
        return Stopped;
      }
      if * {
        faults := faults + 1;
        return Raised(RemoteFailure);
      }
      r := Done(capsules[id]);
    }

    /** `_upload_capsule`: the file is replaced whole or not at all, whether or not the call
        returns. */
    method Store(id: Id, capsule: Capsule) returns (r: Outcome<()>)
      modifies this`capsules, this`faults
      ensures faults == old(faults) + if r == Raised(RemoteFailure) then 1 else 0
      ensures r.Raised? ==> r.error == RemoteFailure
      ensures capsules == old(capsules) || capsules == old(capsules)[id := capsule]
      ensures r.Done? ==> capsules == old(capsules)[id := capsule]
    {
      if * {
        capsules := capsules[id := capsule];
        return Done(());
      }
      if * {
        capsules := capsules[id := capsule];
      }
      if * {
        return Stopped;
      }
      faults := faults + 1;
      r := Raised(RemoteFailure);
    }

    /** `_unwrap_capsule` with the current broker, whose calls may fail; with the recovery secret that does
        not matter. */
    method UnwrapHere(id: Id, capsule: Capsule) returns (r: Outcome<Dek>)
      requires Faithful(capsule, id, DekOf(id))
      modifies this`faults
      ensures faults == old(faults) + if r == Raised(RemoteFailure) then 1 else 0
      ensures r.Raised? ==> !root && r.error in {RemoteFailure, InvalidValue}
      ensures r == Raised(InvalidValue) ==> Unwrap(capsule, id, Gateway(keyBroker, root)) == None
      ensures r.Done? ==> r.value == DekOf(id) && (root || Unwrap(capsule, id, Gateway(keyBroker, root)).Some?)
    {
      if * {
        return Stopped;
      }
      var fails: bool := *;
      if fails && !root {
        faults := faults + 1;
        return Raised(RemoteFailure);
      }
      UnwrapFaithful(capsule.primary, capsule, id, Gateway(keyBroker, root), DekOf(id));
      var dek := Unwrap(capsule, id, Gateway(keyBroker, root));
      r := if dek.Some? then Done(dek.value) else Raised(InvalidValue);
    }

    /** `new_broker.unwrap(envelope, context)`. */
    method NewUnwrap(id: Id, envelope: Envelope) returns (r: Outcome<Dek>)
      modifies this`faults
      ensures faults == old(faults) + if r == Raised(RemoteFailure) then 1 else 0
      ensures r.Raised? ==> r.error in {RemoteFailure, InvalidValue}
      ensures r == Raised(InvalidValue) ==> !EnvelopeOpens(envelope, id)
      ensures r.Done? ==> EnvelopeOpens(envelope, id) && r.value == envelope.dek
    {
      if * {
        return Stopped;
      }
      if * {
        faults := faults + 1;
        return Raised(RemoteFailure);
      }
      r := if EnvelopeOpens(envelope, id) then Done(envelope.dek) else Raised(InvalidValue);
    }

    /** `new_broker.wrap(dek, context)`. */
    method NewWrap(id: Id, dek: Dek) returns (r: Outcome<Envelope>)
      modifies this`faults
      ensures faults == old(faults) + if r == Raised(RemoteFailure) then 1 else 0
      ensures r.Raised? ==> r.error == RemoteFailure
      ensures r.Done? ==> r.value == Envelope(newKey, id, dek, true)
    {
      if * {
        return Stopped;
      }
      if * {
        faults := faults + 1;
        return Raised(RemoteFailure);
      }
      r := Done(Envelope(newKey, id, dek, true));
    }

    /** The row of `cas_key_rewrap` for one object; the process may stop before or after it is
        written. */
    method Record(id: Id, verified: bool) returns (r: Outcome<()>)
      modifies this`rewrap
      ensures !r.Raised?
      ensures rewrap == old(rewrap) || rewrap == old(rewrap)[id := verified]
      ensures r.Done? ==> rewrap == old(rewrap)[id := verified]
    {
      if * {
        return Stopped;
      }
      rewrap := rewrap[id := verified];
      if * {
        return Stopped;
      }
      r := Done(());
    }

    /** The new broker opens the capsule, and the database says so. */
    ghost predicate Verified(id: Id)
      reads this
    {
      && id in capsules && ByBroker(capsules[id], id, newKey) == Some(DekOf(id))
      && id in rewrap && rewrap[id]
    }

    /** What the process opens capsules with. */
    function Here(): Gateway
      reads this`keyBroker
    {
      Gateway(keyBroker, root)
    }

    /** The `try` block for one capsule: add the new envelope if it is not there, and check it. */
    method AddEnvelope(id: Id, capsule: Capsule) returns (r: Outcome<bool>)
      requires Valid() && id in rows && capsule == capsules[id]
      modifies this`capsules, this`rewrap, this`faults
      ensures Valid() && capsules.Keys == old(capsules).Keys
      ensures faults >= old(faults)
      ensures faults == old(faults) && !r.Stopped? ==> (r.Done? <==> Rewrappable(capsule, id, newKey, Here()))
      ensures capsules == old(capsules) || capsules == old(capsules)[id := Added(capsule, id, newKey)]
      ensures forall key :: ByBroker(old(capsules)[id], id, key).Some? ==>
        ByBroker(capsules[id], id, key) == ByBroker(old(capsules)[id], id, key)
      ensures r.Done? ==>
        && ByBroker(capsules[id], id, newKey) == Some(DekOf(id))
        && rewrap == old(rewrap)[id := true]
        && capsules == old(capsules)[id := Added(capsule, id, newKey)]
        && (r.value <==> Lacks(capsule, newKey))
      ensures rewrap == old(rewrap) || rewrap == old(rewrap)[id := true]
      ensures r.Raised? ==> rewrap == old(rewrap)
    {
      hide Faithful, UnwrapFrom, FirstFor;
      AddedOpens(id, capsule);
      BrokerSeesFirst(capsule.primary, capsule, id, newKey);
      var existing := FirstFor(capsule.primary, newKey);
      var changed := false;
      var dek :- UnwrapHere(id, capsule);
      ghost var before := capsules;
      if existing == None {
        var envelope :- NewWrap(id, dek);
        AppendedSafe(id, capsule, envelope);
        changed := true;
        existing := Some(envelope);
        var _ :- Store(id, Appended(capsule, envelope));
      }
      var again :- NewUnwrap(id, existing.value);
      if again != dek {
        return Raised(InvalidValue);
      }
      assert changed || capsules == old(capsules)[id := capsule];
      var _ :- Record(id, true);
      r := Done(changed);
    }

    /** What decides the `try` block when every call is answered. */
    lemma AddedOpens(id: Id, capsule: Capsule)
      requires Faithful(capsule, id, DekOf(id))
      ensures root ==> Unwrap(capsule, id, Gateway(keyBroker, root)).Some?
      ensures ByBroker(Added(capsule, id, newKey), id, newKey).Some? <==>
        match FirstFor(capsule.primary, newKey)
        case None => true
        case Some(e) => EnvelopeOpens(e, id)
      ensures FirstFor(capsule.primary, newKey).Some? && EnvelopeOpens(FirstFor(capsule.primary, newKey).value, id) ==>
        FirstFor(capsule.primary, newKey).value.dek == DekOf(id)
    {
      hide UnwrapFrom, FirstFor;
      UnwrapFaithful(capsule.primary, capsule, id, Gateway(keyBroker, root), DekOf(id));
      BrokerSeesFirst(capsule.primary, capsule, id, newKey);
      FirstIsOne(capsule.primary, newKey);
      AppendKeeps(capsule, id, Envelope(newKey, id, DekOf(id), true), DekOf(id), newKey);
    }

    lemma AppendedSafe(id: Id, capsule: Capsule, e: Envelope)
      requires Faithful(capsule, id, DekOf(id)) && e == Envelope(newKey, id, DekOf(id), true)
      requires FirstFor(capsule.primary, newKey).None?
      ensures Faithful(Appended(capsule, e), id, DekOf(id))
      ensures forall key :: ByBroker(capsule, id, key).Some? ==>
        ByBroker(Appended(capsule, e), id, key) == ByBroker(capsule, id, key)
      ensures ByBroker(Appended(capsule, e), id, newKey) == Some(DekOf(id))
    {
      hide Faithful, UnwrapFrom;
      forall key
        ensures ByBroker(capsule, id, key).Some? ==>
          ByBroker(Appended(capsule, e), id, key) == ByBroker(capsule, id, key)
      {
        AppendKeeps(capsule, id, e, DekOf(id), key);
      }
      AppendKeeps(capsule, id, e, DekOf(id), newKey);
    }

    ghost predicate VerifiedUpTo(n: nat)
      requires n <= |rows|
      reads this
    {
      forall i :: 0 <= i < n ==> Verified(rows[i])
    }

    /** One round of the first loop, after `n` of them, the first of which found `start`: read the
        capsule, and write down how the `try` block went. */
    method AddToCapsule(n: nat, changed: nat, ghost start: map<Id, Capsule>) returns (r: Outcome<nat>)
      requires Valid() && n < |rows| && VerifiedUpTo(n) && AddedSoFar(start, capsules, rows, n, changed, newKey)
      modifies this`capsules, this`rewrap, this`faults
      ensures Valid() && DoneSome(Adding, start, capsules, rows, newKey)
      ensures faults >= old(faults) && rows[n] in start
      ensures faults == old(faults) && !r.Stopped? ==> (r.Done? <==> Rewrappable(start[rows[n]], rows[n], newKey, Here()))
      ensures r.Done? ==> VerifiedUpTo(n + 1) && AddedSoFar(start, capsules, rows, n + 1, r.value, newKey)
      ensures r.Done? ==> rewrap == old(rewrap)[rows[n] := true]
      ensures rewrap in {old(rewrap), old(rewrap)[rows[n] := true], old(rewrap)[rows[n] := false]}
      ensures r.Raised? ==> rewrap in {old(rewrap), old(rewrap)[rows[n] := false]}
      ensures r.Raised? && (r.error != RemoteFailure || capsules != old(capsules)) ==>
        rewrap == old(rewrap)[rows[n] := false]
    {
      hide Faithful, UnwrapFrom, FirstFor, Lacks, Added, ByBroker, DoneUpTo, DoneSome, ChangedIs, Rewrappable;
      var id := rows[n];
      assert Safe(id);
      assert forall i :: 0 <= i < n ==> rows[i] != id && rows[i] in rows;
      DoneOneMore(Adding, start, capsules, capsules, rows, n, newKey);
      ghost var before := capsules;
      var capsule :- Fetch(id);
      var added := AddEnvelope(id, capsule);
      DoneOneMore(Adding, start, before, capsules, rows, n, newKey);
      if added.Raised? {
        var recorded := Record(id, false);
        return if recorded.Stopped? then Stopped else Raised(added.error);
      }
      if added.Stopped? {
        return Stopped;
      }
      ChangedMore(changed, rows, n, start, newKey, added.value);
      r := Done(changed + if added.value then 1 else 0);
    }

    /** The first loop of `rewrap_primary_keys`: an envelope for the new broker in every capsule. */
    method AddEnvelopes() returns (r: Outcome<nat>)
      requires Valid()
      modifies this`capsules, this`rewrap, this`faults
      ensures Valid() && DoneSome(Adding, old(capsules), capsules, rows, newKey)
      ensures faults >= old(faults)
      ensures faults == old(faults) && !r.Stopped? ==>
        (r.Done? <==>
           forall id :: id in rows ==> id in old(capsules) && Rewrappable(old(capsules)[id], id, newKey, Here()))
      ensures r.Done? ==>
        VerifiedUpTo(|rows|) && AddedSoFar(old(capsules), capsules, rows, |rows|, r.value, newKey)
    {
      NoneAdded(capsules, rows, newKey);
      hide DoneSome, AddedSoFar, Valid, Rewrappable;
      var changed := 0;
      for n := 0 to |rows|
        invariant faults >= old(faults)
        invariant faults == old(faults) ==>
          forall i :: 0 <= i < n ==>
            rows[i] in old(capsules) && Rewrappable(old(capsules)[rows[i]], rows[i], newKey, Here())
        invariant Valid() && VerifiedUpTo(n) && AddedSoFar(old(capsules), capsules, rows, n, changed, newKey)
      {
        changed :- AddToCapsule(n, changed, old(capsules));
      }
      AllAdded(old(capsules), capsules, rows, changed, newKey);
      r := Done(changed);
    }

    /** One round of the finalizing loop: keep the new envelope alone, after checking it once
        more. */
    method FinalizeCapsule(id: Id) returns (r: Outcome<()>)
      requires Valid() && id in rows
      requires forall other :: other in rows ==> ByBroker(capsules[other], other, newKey) == Some(DekOf(other))
      modifies this`capsules, this`finalizing, this`finalized, this`faults
      ensures Valid() && capsules.Keys == old(capsules).Keys
      ensures faults >= old(faults)
      ensures faults == old(faults) && !r.Stopped? ==> (r.Done? <==> Finalizable(old(capsules)[id], id, newKey, Here()))
      ensures capsules == old(capsules) || capsules == old(capsules)[id := Finalized(old(capsules)[id], newKey)]
      ensures forall other :: other in rows ==> ByBroker(capsules[other], other, newKey) == Some(DekOf(other))
      ensures r.Done? ==>
        OnlyNew(capsules[id], newKey) && capsules == old(capsules)[id := Finalized(old(capsules)[id], newKey)]
    {
      hide Faithful, UnwrapFrom, FirstFor, AllFor, ByBroker;
      assert Safe(id);
      var capsule :- Fetch(id);
      var selected := AllFor(capsule.primary, newKey);
      OnlyOpens(id, capsule);
      if |selected| != 1 {
        return Raised(InvalidValue);
      }
      var dek :- UnwrapHere(id, capsule);
      var again :- NewUnwrap(id, selected[0]);
      if again != dek {
        return Raised(InvalidValue);
      }
      FinalizeKeeps(capsule, id, DekOf(id), newKey);
      FirstIsOne(capsule.primary, newKey);
      finalizing, finalized := true, finalized + {id};
      r := Store(id, Finalized(capsule, newKey));
    }

    lemma OnlyOpens(id: Id, capsule: Capsule)
      requires Faithful(capsule, id, DekOf(id)) && ByBroker(capsule, id, newKey).Some?
      ensures root ==> Unwrap(capsule, id, Here()).Some?
      ensures AllFor(capsule.primary, newKey) != [] ==>
        var e := AllFor(capsule.primary, newKey)[0]; EnvelopeOpens(e, id) && e.dek == DekOf(id)
    {
      hide UnwrapFrom, FirstFor, AllFor;
      UnwrapFaithful(capsule.primary, capsule, id, Here(), DekOf(id));
      BrokerSeesFirst(capsule.primary, capsule, id, newKey);
      FirstIsOne(capsule.primary, newKey);
    }

    /** The finalizing half of `rewrap_primary_keys`. */
    method FinalizeAll() returns (r: Outcome<()>)
      requires Valid() && VerifiedUpTo(|rows|)
      modifies this`capsules, this`finalizing, this`finalized, this`keyBroker, this`faults
      ensures Valid() && DoneSome(Keeping, old(capsules), capsules, rows, newKey)
      ensures faults >= old(faults)
      ensures faults == old(faults) && !r.Stopped? ==>
        (r.Done? <==>
           forall id :: id in rows ==> id in old(capsules) && Finalizable(old(capsules)[id], id, newKey, old(Here())))
      ensures r.Done? ==>
        && keyBroker == Some(newKey)
        && DoneUpTo(Keeping, old(capsules), capsules, rows, |rows|, newKey)
        && forall id :: id in rows ==>
             ByBroker(capsules[id], id, newKey) == Some(DekOf(id)) && OnlyNew(capsules[id], newKey)
      ensures !r.Done? ==> keyBroker == old(keyBroker)
    {
      hide Faithful, UnwrapFrom, FirstFor, AllFor, Finalized, ByBroker, DoneUpTo, OnlyNew, Finalizable;
      DoneNone(Keeping, capsules, rows, newKey);
      for n := 0 to |rows|
        invariant Valid() && DoneUpTo(Keeping, old(capsules), capsules, rows, n, newKey) && keyBroker == old(keyBroker)
        invariant faults >= old(faults)
        invariant faults == old(faults) ==>
          forall i :: 0 <= i < n ==>
            rows[i] in old(capsules) && Finalizable(old(capsules)[rows[i]], rows[i], newKey, Here())
        invariant forall id :: id in rows ==> ByBroker(capsules[id], id, newKey) == Some(DekOf(id))
        invariant forall i :: 0 <= i < n ==> rows[i] in capsules && OnlyNew(capsules[rows[i]], newKey)
      {
        assert Safe(rows[n]);
        assert forall i :: 0 <= i < n ==> rows[i] in rows && rows[i] != rows[n];
        ghost var before := capsules;
        var done := FinalizeCapsule(rows[n]);
        DoneOneMore(Keeping, old(capsules), before, capsules, rows, n, newKey);
        if !done.Done? {
          return done;
        }
      }
      DoneAll(Keeping, old(capsules), capsules, rows, newKey);
      keyBroker := Some(newKey);
      r := Done(());
    }

    /** `rewrap_primary_keys`. Whatever fails and wherever it stops, every capsule stays safe; and when no
        call fails it succeeds, if every capsule opens and, for finalizing, none has two envelopes for
        the new broker. */
    method Rewrap(finalize: bool) returns (r: Outcome<nat>)
      requires Valid()
      modifies this
      ensures Valid() && capsules.Keys == old(capsules).Keys
      ensures !finalize ==> finalizing == old(finalizing) && finalized == old(finalized)
      ensures faults >= old(faults)
      ensures faults == old(faults) && !r.Stopped? ==>
        (r.Done? <==>
           forall id :: id in rows ==>
             && id in old(capsules) && Rewrappable(old(capsules)[id], id, newKey, old(Here()))
             && (finalize ==> |AllFor(old(capsules)[id].primary, newKey)| <= 1))
      ensures forall id :: id in capsules ==>
        || capsules[id] == old(capsules)[id]
        || (id in rows && capsules[id] == Added(old(capsules)[id], id, newKey))
        || (finalize && id in rows && capsules[id] == Finalized(Added(old(capsules)[id], id, newKey), newKey))
      ensures r.Done? ==> r.value == Lacking(rows, |rows|, old(capsules), newKey)
      ensures r.Done? ==> forall id :: id in rows ==>
        ByBroker(capsules[id], id, newKey) == Some(DekOf(id)) &&
        capsules[id] == if finalize then Finalized(Added(old(capsules)[id], id, newKey), newKey)
                        else Added(old(capsules)[id], id, newKey)
      ensures r.Done? && finalize ==> forall id :: id in rows ==> OnlyNew(capsules[id], newKey)
      ensures keyBroker == if r.Done? && finalize then Some(newKey) else old(keyBroker)
    {
      hide Faithful, ByBroker, Added, Finalized, OnlyNew, Rewrappable, Finalizable, AllFor;
      assert forall id :: id in rows ==> Safe(id);
      var changed :- AddEnvelopes();
      if finalize {
        forall id | id in rows && id in old(capsules) && Rewrappable(old(capsules)[id], id, newKey, Here())
          ensures Finalizable(capsules[id], id, newKey, Here()) <==> |AllFor(old(capsules)[id].primary, newKey)| <= 1
        {
          AddedFinalizable(old(capsules)[id], id, newKey, Here());
        }
        var verified := set id | id in rewrap && rewrap[id];
        if |verified| < |rows| {
          // The program raises here; the first loop has just made it impossible.
          EnoughVerified(rows, verified);
          assert false;
        }
        var _ :- FinalizeAll();
      }
      r := Done(changed);
    }
  }

  /** One VERIFIED row for each capsule: the count the finalizing half insists on. */
  lemma {:induction false} EnoughVerified(rows: seq<Id>, verified: set<Id>)
    requires Ascending(rows)
    requires forall id :: id in rows ==> id in verified
    ensures |verified| >= |rows|
  {
    if rows != [] {
      var last := rows[|rows| - 1];
      forall id | id in rows[..|rows| - 1]
        ensures id in verified - {last}
      {
      }
      EnoughVerified(rows[..|rows| - 1], verified - {last});
    }
  }

  /** The new broker opens every capsule; and when the run finalized, it alone has an envelope there and is
      the broker from now on. */
  ghost predicate RunEnded(rotation: KeyRotation, finalize: bool)
    reads rotation
  {
    && (forall id :: id in rotation.rows ==>
          && id in rotation.capsules
          && ByBroker(rotation.capsules[id], id, rotation.newKey) == Some(DekOf(id))
          && (finalize ==> OnlyNew(rotation.capsules[id], rotation.newKey)))
    && (finalize ==> rotation.keyBroker == Some(rotation.newKey))
  }

  /** Any number of runs, each taken up where the one before ended, failed or stopped, by a process
      that has whatever broker it was started with. `Valid` says what every capsule still opens for
      after the last of them; while no run finalizes, the old broker opens every one; and one run that
      ends well is enough. */
  method RotateInRuns(rotation: KeyRotation, runs: seq<(bool, Option<Id>)>) returns (results: seq<Outcome<nat>>)
    requires rotation.Valid()
    modifies rotation
    ensures rotation.Valid() && rotation.capsules.Keys == old(rotation.capsules).Keys
    ensures (forall i :: 0 <= i < |runs| ==> !runs[i].0) && !old(rotation.finalizing) ==>
      forall id :: id in rotation.rows ==> ByBroker(rotation.capsules[id], id, rotation.oldKey) == Some(DekOf(id))
    ensures |results| == |runs|
    ensures runs != [] && results[|runs| - 1].Done? ==> RunEnded(rotation, runs[|runs| - 1].0)
  {
    hide Faithful, ByBroker, OnlyNew;
    results := [];
    for n := 0 to |runs|
      invariant |results| == n
      invariant n > 0 && results[n - 1].Done? ==> RunEnded(rotation, runs[n - 1].0)
      invariant rotation.Valid() && rotation.capsules.Keys == old(rotation.capsules).Keys
      invariant (forall i :: 0 <= i < n ==> !runs[i].0) && !old(rotation.finalizing) ==> !rotation.finalizing
    {
      if runs[n].1.Some? || rotation.root {
        rotation.keyBroker := runs[n].1;
      }
      var r := rotation.Rewrap(runs[n].0);
      results := results + [r];
    }
    assert forall id :: id in rotation.rows ==> rotation.Safe(id);
  }
}
