/** Meter enrolment, key rotation, revocation and packet verification. */
module MeterRegistry {
  import opened Common
  import opened BloomFilter

  /** Public keys by their encoding; two keys are equal exactly when their bytes are. */
  type Key = Bytes

  type MeterId = Bytes

  /** The cryptography the registry calls: whether bytes are a well-formed signature, and
      whether a key verifies a message under a signature. Nothing else is known about it. */
  datatype Crypto = Crypto(sha: Sha256, wellFormed: Bytes -> bool, verifies: (Key, Bytes, Bytes) -> bool)

  datatype MeterStatus = Active | Revoked | Pending

  datatype MeterIdentity = MeterIdentity(
    meterId: MeterId, publicKey: Key, status: MeterStatus, enrolledAt: nat, keyRotatedAt: nat)

  datatype Outcome = Accepted | Rejected(reason: string)

  type Meters = map<MeterId, MeterIdentity>

  /** `crl` is the set of bits set in the revocation filter. */
  datatype Registry = Registry(meters: Meters, crl: set<nat>)

  const EMPTY := Registry(map[], {})

  const SIGNATURE_LENGTH := 64

  function VerifyTpmAttestation(c: Crypto, aik: Key, attestation: Bytes): bool {
    |attestation| >= SIGNATURE_LENGTH
    && c.wellFormed(attestation[..SIGNATURE_LENGTH])
    && c.verifies(aik, attestation[SIGNATURE_LENGTH..], attestation[..SIGNATURE_LENGTH])
  }

  // ---- Operations as functions of the registry ----

  function RegisterOutcome(c: Crypto, r: Registry, id: MeterId, tpm: Option<Bytes>, aik: Option<Key>): Outcome {
    if id in r.meters then Rejected("meter already registered")
    else if tpm.Some? && aik.Some? && !VerifyTpmAttestation(c, aik.value, tpm.value) then Rejected("TPM attestation verification failed")
    else Accepted
  }

  function Registered(r: Registry, id: MeterId, key: Key, now: nat): Registry {
    r.(meters := r.meters[id := MeterIdentity(id, key, Active, now, now)])
  }

  function RotateOutcome(c: Crypto, r: Registry, id: MeterId, newKey: Key, signature: Bytes): Outcome {
    if id !in r.meters then Rejected("unknown meter")
    else if r.meters[id].status != Active then Rejected("meter is not active")
    else if !c.wellFormed(signature) then Rejected("invalid signature format")
    else if !c.verifies(r.meters[id].publicKey, newKey, signature) then Rejected("key rotation signature verification failed")
    else Accepted
  }

  function Rotated(r: Registry, id: MeterId, newKey: Key, now: nat): Registry
    requires id in r.meters
  {
    r.(meters := r.meters[id := r.meters[id].(publicKey := newKey, keyRotatedAt := now)])
  }

  function RevokedIn(c: Crypto, shape: Shape, r: Registry, id: MeterId): Registry
    requires ValidShape(shape) && id in r.meters
  {
    Registry(r.meters[id := r.meters[id].(status := Revoked)], r.crl + IndexSet(c.sha, shape, id))
  }

  /** A packet's signature check, after both revocation checks have passed. */
  function SignatureOutcome(c: Crypto, key: Key, payload: Bytes, signature: Bytes): Outcome {
    if !c.wellFormed(signature) then Rejected("invalid signature format")
    else if !c.verifies(key, payload, signature) then Rejected("cryptographic signature mismatch")
    else Accepted
  }

  function VerifyOutcome(c: Crypto, shape: Shape, r: Registry, id: MeterId, payload: Bytes, signature: Bytes): Outcome
    requires ValidShape(shape)
  {
    if id !in r.meters then Rejected("unknown meter")
    else if r.meters[id].status == Revoked then Rejected("meter is revoked")
    else if IndexSet(c.sha, shape, id) <= r.crl then Rejected("meter certificate revoked")
    else SignatureOutcome(c, r.meters[id].publicKey, payload, signature)
  }

  /** `verify_packet` without its status test: the filter alone guards revocation. */
  function VerifyByCrlOnly(c: Crypto, shape: Shape, r: Registry, id: MeterId, payload: Bytes, signature: Bytes): Outcome
    requires ValidShape(shape)
  {
    if id !in r.meters then Rejected("unknown meter")
    else if IndexSet(c.sha, shape, id) <= r.crl then Rejected("meter certificate revoked")
    else SignatureOutcome(c, r.meters[id].publicKey, payload, signature)
  }

  // ---- The registry as it is updated ----

  class MeterRegistry {
    const crypto: Crypto
    const crl: BloomFilter
    var meters: Meters

    ghost predicate Valid() {
      crl.Valid() && crl.sha == crypto.sha
    }

    ghost function Abs(): Registry
      reads this, crl.bits
    {
      Registry(meters, crl.Indices())
    }

    constructor (crypto: Crypto, shape: Shape)
      requires ValidShape(shape)
      ensures Valid() && Abs() == EMPTY && this.crypto == crypto && crl.shape == shape && fresh(crl.bits)
    {
      this.crypto := crypto;
      meters := map[];
      crl := new BloomFilter(crypto.sha, shape);
    }

    method RegisterMeter(id: MeterId, publicKey: Key, tpm: Option<Bytes>, aik: Option<Key>, now: nat) returns (outcome: Outcome)
      requires Valid()
      modifies this`meters
      ensures outcome == RegisterOutcome(crypto, old(Abs()), id, tpm, aik)
      ensures Abs() == if outcome.Accepted? then Registered(old(Abs()), id, publicKey, now) else old(Abs())
    {
      if id in meters {
        return Rejected("meter already registered");
      }
      if tpm.Some? && aik.Some? {
        if !VerifyTpmAttestation(crypto, aik.value, tpm.value) {
          return Rejected("TPM attestation verification failed");
        }
      }
      meters := meters[id := MeterIdentity(id, publicKey, Active, now, now)];
      return Accepted;
    }

    method VerifyPacket(id: MeterId, payload: Bytes, signature: Bytes) returns (outcome: Outcome)
      requires Valid()
      ensures outcome == VerifyOutcome(crypto, crl.shape, Abs(), id, payload, signature)
    {
      if id !in meters {
        return Rejected("unknown meter");
      }
      if meters[id].status == Revoked {
        return Rejected("meter is revoked");
      }
      var listed := crl.Contains(id);
      if listed {
        return Rejected("meter certificate revoked");
      }
      if !crypto.wellFormed(signature) {
        return Rejected("invalid signature format");
      }
      if !crypto.verifies(meters[id].publicKey, payload, signature) {
        return Rejected("cryptographic signature mismatch");
      }
      return Accepted;
    }

    method RotateKey(id: MeterId, newKey: Key, oldSignature: Bytes, now: nat) returns (outcome: Outcome)
      requires Valid()
      modifies this`meters
      ensures outcome == RotateOutcome(crypto, old(Abs()), id, newKey, oldSignature)
      ensures Abs() == if outcome.Accepted? then Rotated(old(Abs()), id, newKey, now) else old(Abs())
    {
      if id !in meters {
        return Rejected("unknown meter");
      }
      if meters[id].status != Active {
        return Rejected("meter is not active");
      }
      if !crypto.wellFormed(oldSignature) {
        return Rejected("invalid signature format");
      }
      if !crypto.verifies(meters[id].publicKey, newKey, oldSignature) {
        return Rejected("key rotation signature verification failed");
      }
      meters := meters[id := meters[id].(publicKey := newKey, keyRotatedAt := now)];
      return Accepted;
    }

    method RevokeMeter(id: MeterId) returns (outcome: Outcome)
      requires Valid()
      modifies this`meters, crl.bits
      ensures outcome == if id in old(meters) then Accepted else Rejected("unknown meter")
      ensures Abs() == if outcome.Accepted? then RevokedIn(crypto, crl.shape, old(Abs()), id) else old(Abs())
    {
      if id !in meters {
        return Rejected("unknown meter");
      }
      meters := meters[id := meters[id].(status := Revoked)];
      crl.Insert(id);
      return Accepted;
    }
  }

  // ---- Runs ----

  datatype Call =
    | Register(id: MeterId, key: Key, tpm: Option<Bytes>, aik: Option<Key>, now: nat)
    | Rotate(id: MeterId, newKey: Key, signature: Bytes, now: nat)
    | Revoke(id: MeterId)

  /** The registry and its cryptography, fixed over a run. */
  datatype Setting = Setting(crypto: Crypto, shape: Shape)

  predicate Succeeds(g: Setting, r: Registry, call: Call) {
    match call
    case Register(id, _, tpm, aik, _) => RegisterOutcome(g.crypto, r, id, tpm, aik).Accepted?
    case Rotate(id, newKey, signature, _) => RotateOutcome(g.crypto, r, id, newKey, signature).Accepted?
    case Revoke(id) => id in r.meters
  }

  function Apply(g: Setting, r: Registry, call: Call): Registry
    requires ValidShape(g.shape)
  {
    if !Succeeds(g, r, call) then r
    else
      match call
      case Register(id, key, _, _, now) => Registered(r, id, key, now)
      case Rotate(id, newKey, _, now) => Rotated(r, id, newKey, now)
      case Revoke(id) => RevokedIn(g.crypto, g.shape, r, id)
  }

  function After(g: Setting, calls: seq<Call>): Registry
    requires ValidShape(g.shape)
  {
    if calls == [] then EMPTY else Apply(g, After(g, calls[..|calls| - 1]), calls[|calls| - 1])
  }

  lemma AfterOneMore(g: Setting, calls: seq<Call>, call: Call)
    requires ValidShape(g.shape)
    ensures After(g, calls + [call]) == Apply(g, After(g, calls), call)
  {
    assert (calls + [call])[..|calls|] == calls;
  }

  function RevokedMeters(r: Registry): set<MeterId> {
    set id | id in r.meters && r.meters[id].status == Revoked
  }

  // ---- Revocation ----

  /** What every reachable registry keeps: ids match, nobody is Pending, and the filter
      holds exactly the bits of the revoked meters. */
  ghost predicate Kept(g: Setting, r: Registry)
    requires ValidShape(g.shape)
  {
    && (forall id :: id in r.meters ==> r.meters[id].meterId == id && r.meters[id].status != Pending)
    && (forall i: nat :: i in r.crl <==> exists id :: id in RevokedMeters(r) && i in IndexSet(g.crypto.sha, g.shape, id))
  }

  /** One call changes who is revoked only by a successful revocation. */
  lemma ApplyRevokes(g: Setting, r: Registry, call: Call)
    requires ValidShape(g.shape)
    ensures RevokedMeters(Apply(g, r, call))
         == RevokedMeters(r) + if call.Revoke? && Succeeds(g, r, call) then {call.id} else {}
    ensures Apply(g, r, call).crl
         == r.crl + if call.Revoke? && Succeeds(g, r, call) then IndexSet(g.crypto.sha, g.shape, call.id) else {}
    ensures r.meters.Keys <= Apply(g, r, call).meters.Keys
  {
    var after := Apply(g, r, call);
    if Succeeds(g, r, call) {
      assert forall id :: id != call.id ==> (id in after.meters <==> id in r.meters);
      assert forall id :: id in r.meters && id != call.id ==> after.meters[id] == r.meters[id];
    }
  }

  lemma ApplyKeeps(g: Setting, r: Registry, call: Call)
    requires ValidShape(g.shape) && Kept(g, r)
    ensures Kept(g, Apply(g, r, call))
  {
    ApplyRevokes(g, r, call);
    hide IndexSet, RevokedMeters;
  }

  lemma {:induction false} EveryRunKeeps(g: Setting, calls: seq<Call>)
    requires ValidShape(g.shape)
    ensures Kept(g, After(g, calls))
  {
    if calls != [] {
      EveryRunKeeps(g, calls[..|calls| - 1]);
      ApplyKeeps(g, After(g, calls[..|calls| - 1]), calls[|calls| - 1]);
      hide Kept, Apply;
    }
  }

  lemma {:induction false} RevocationIsPermanent(g: Setting, calls: seq<Call>, more: seq<Call>, id: MeterId)
    requires ValidShape(g.shape)
    ensures id in RevokedMeters(After(g, calls)) ==> id in RevokedMeters(After(g, calls + more))
    ensures id in After(g, calls).meters ==> id in After(g, calls + more).meters
    ensures After(g, calls).crl <= After(g, calls + more).crl
  {
    if more == [] {
      assert calls + more == calls;
    } else {
      var n := |more| - 1;
      assert (calls + more) == (calls + more[..n]) + [more[n]];
      RevocationIsPermanent(g, calls, more[..n], id);
      ApplyRevokes(g, After(g, calls + more[..n]), more[n]);
      AfterOneMore(g, calls + more[..n], more[n]);
      hide Apply, RevokedMeters, After;
    }
  }

  /** A revoked meter's packets are refused in every later state, by the status test and
      by the filter alone. */
  lemma RevokedMeterIsNeverAccepted(g: Setting, calls: seq<Call>, more: seq<Call>, id: MeterId, payload: Bytes, signature: Bytes)
    requires ValidShape(g.shape) && id in RevokedMeters(After(g, calls))
    ensures VerifyOutcome(g.crypto, g.shape, After(g, calls + more), id, payload, signature) == Rejected("meter is revoked")
    ensures VerifyByCrlOnly(g.crypto, g.shape, After(g, calls + more), id, payload, signature)
         == Rejected("meter certificate revoked")
  {
    var r := After(g, calls + more);
    RevocationIsPermanent(g, calls, more, id);
    RevokedIsListed(g, calls + more, id);
    hide After;
  }

  lemma RevokedIsListed(g: Setting, calls: seq<Call>, id: MeterId)
    requires ValidShape(g.shape) && id in RevokedMeters(After(g, calls))
    ensures IndexSet(g.crypto.sha, g.shape, id) <= After(g, calls).crl
  {
    EveryRunKeeps(g, calls);
    hide After, IndexSet, RevokedMeters;
  }

  /** The two revocation tests are redundant: in every reachable registry the filter alone
      accepts exactly the packets that both tests accept. */
  lemma {:induction false} CrlAloneSuffices(g: Setting, calls: seq<Call>, id: MeterId, payload: Bytes, signature: Bytes)
    requires ValidShape(g.shape)
    ensures VerifyByCrlOnly(g.crypto, g.shape, After(g, calls), id, payload, signature).Accepted?
        <==> VerifyOutcome(g.crypto, g.shape, After(g, calls), id, payload, signature).Accepted?
  {
    if id in RevokedMeters(After(g, calls)) {
      RevokedIsListed(g, calls, id);
    }
    hide After, IndexSet;
  }

  /** Exactly which packets a reachable registry accepts: the meter is enrolled, some index
      of its id is hit by no revoked meter, and its current key verifies the signature. */
  lemma AcceptedIff(g: Setting, calls: seq<Call>, id: MeterId, payload: Bytes, signature: Bytes)
    requires ValidShape(g.shape)
    ensures var r := After(g, calls);
            VerifyOutcome(g.crypto, g.shape, r, id, payload, signature).Accepted?
            <==> && id in r.meters
                 && (exists i :: i in IndexSet(g.crypto.sha, g.shape, id)
                                 && forall x :: x in RevokedMeters(r) ==> i !in IndexSet(g.crypto.sha, g.shape, x))
                 && g.crypto.wellFormed(signature) && g.crypto.verifies(r.meters[id].publicKey, payload, signature)
  {
    EveryRunKeeps(g, calls);
    if id in RevokedMeters(After(g, calls)) {
      RevokedIsListed(g, calls, id);
    }
    hide After, IndexSet;
  }

  lemma {:induction false} NobodyRevoked(g: Setting, calls: seq<Call>)
    requires ValidShape(g.shape) && forall i :: 0 <= i < |calls| ==> !calls[i].Revoke?
    ensures RevokedMeters(After(g, calls)) == {}
  {
    if calls != [] {
      NobodyRevoked(g, calls[..|calls| - 1]);
      ApplyRevokes(g, After(g, calls[..|calls| - 1]), calls[|calls| - 1]);
      hide RevokedMeters, Apply;
    }
  }

  /** A run without revocations rejects nothing through the revocation list: verification
      of an enrolled meter is the bare signature check. */
  lemma NoRevocationsNoRejections(g: Setting, calls: seq<Call>, id: MeterId, payload: Bytes, signature: Bytes)
    requires ValidShape(g.shape) && forall i :: 0 <= i < |calls| ==> !calls[i].Revoke?
    requires id in After(g, calls).meters
    ensures VerifyOutcome(g.crypto, g.shape, After(g, calls), id, payload, signature)
         == SignatureOutcome(g.crypto, After(g, calls).meters[id].publicKey, payload, signature)
  {
    var r := After(g, calls);
    EveryRunKeeps(g, calls);
    NobodyRevoked(g, calls);
    assert r.crl == {};
    assert id !in RevokedMeters(r);
    hide After, SignatureOutcome, HashIndices, ElementsOf;
    assert IndexSet(g.crypto.sha, g.shape, id) != {};
  }

  // ---- Key chains ----

  /** Whether a call, made after the others, enrols the meter or rotates its key. */
  predicate SetsKey(g: Setting, before: seq<Call>, call: Call, id: MeterId)
    requires ValidShape(g.shape)
  {
    call.id == id && !call.Revoke? && Succeeds(g, After(g, before), call)
  }

  function NewKey(call: Call): Key
    requires !call.Revoke?
  {
    match call case Register(_, key, _, _, _) => key case Rotate(_, newKey, _, _) => newKey
  }

  /** The calls of a run that set the meter's key, by position. */
  function KeyCalls(g: Setting, calls: seq<Call>, id: MeterId): (ks: seq<nat>)
    requires ValidShape(g.shape)
    ensures forall k :: k in ks ==> k < |calls| && !calls[k].Revoke?
  {
    if calls == [] then []
    else
      var n := |calls| - 1;
      KeyCalls(g, calls[..n], id) + if SetsKey(g, calls[..n], calls[n], id) then [n] else []
  }

  /** The keys a meter has had, from enrolment on. */
  function KeyHistory(g: Setting, calls: seq<Call>, id: MeterId): (keys: seq<Key>)
    requires ValidShape(g.shape)
    ensures |keys| == |KeyCalls(g, calls, id)|
  {
    if calls == [] then []
    else
      var n := |calls| - 1;
      KeyHistory(g, calls[..n], id) + if SetsKey(g, calls[..n], calls[n], id) then [NewKey(calls[n])] else []
  }

  /** Call k enrols the unknown meter with this key. */
  ghost predicate Enrols(g: Setting, calls: seq<Call>, id: MeterId, k: nat, key: Key)
    requires ValidShape(g.shape)
  {
    && k < |calls| && calls[k].Register? && calls[k].id == id && calls[k].key == key
    && id !in After(g, calls[..k]).meters && RegisterOutcome(g.crypto, After(g, calls[..k]), id, calls[k].tpm, calls[k].aik).Accepted?
  }

  /** Call k presents a signature by the meter's key of that moment over the new key,
      while the meter is Active. */
  ghost predicate HandsOver(g: Setting, calls: seq<Call>, id: MeterId, k: nat, oldKey: Key, newKey: Key)
    requires ValidShape(g.shape)
  {
    && k < |calls| && calls[k].Rotate? && calls[k].id == id && calls[k].newKey == newKey
    && var r := After(g, calls[..k]);
       && id in r.meters && r.meters[id].status == Active && r.meters[id].publicKey == oldKey
       && g.crypto.wellFormed(calls[k].signature) && g.crypto.verifies(oldKey, newKey, calls[k].signature)
  }

  /** The calls ks, in the order of the run, enrolled the meter with keys[0] and handed it
      from each key to the next. */
  ghost predicate IsChain(g: Setting, calls: seq<Call>, id: MeterId, ks: seq<nat>, keys: seq<Key>)
    requires ValidShape(g.shape)
  {
    && |ks| == |keys|
    && (forall i :: 0 < i < |ks| ==> ks[i - 1] < ks[i])
    && (ks != [] ==> Enrols(g, calls, id, ks[0], keys[0]))
    && (forall i :: 0 < i < |ks| ==> HandsOver(g, calls, id, ks[i], keys[i - 1], keys[i]))
  }

  /** What a call adds to one meter's key history, and what it does to that meter. */
  lemma ApplyToMeter(g: Setting, r: Registry, call: Call, id: MeterId)
    requires ValidShape(g.shape)
    ensures var t := Apply(g, r, call);
            && (call.id != id || !Succeeds(g, r, call)
                ==> (id in t.meters <==> id in r.meters) && (id in r.meters ==> t.meters[id] == r.meters[id]))
            && (call.id == id && Succeeds(g, r, call) ==>
                  && id in t.meters
                  && match call
                     case Register(_, key, _, _, _) => id !in r.meters && t.meters[id].publicKey == key
                     case Rotate(_, newKey, _, _) =>
                       && id in r.meters && r.meters[id].status == Active && t.meters[id].publicKey == newKey
                       && t.meters[id].enrolledAt == r.meters[id].enrolledAt
                       && g.crypto.wellFormed(call.signature) && g.crypto.verifies(r.meters[id].publicKey, newKey, call.signature)
                     case Revoke(_) =>
                       && id in r.meters && t.meters[id].publicKey == r.meters[id].publicKey
                       && t.meters[id].enrolledAt == r.meters[id].enrolledAt)
  {
    hide IndexSet;
  }

  lemma ChainSurvives(g: Setting, calls: seq<Call>, call: Call, id: MeterId, ks: seq<nat>, keys: seq<Key>)
    requires ValidShape(g.shape) && IsChain(g, calls, id, ks, keys)
    ensures IsChain(g, calls + [call], id, ks, keys)
  {
    var more := calls + [call];
    assert forall k :: 0 <= k < |calls| ==> more[k] == calls[k] && more[..k] == calls[..k];
    hide After, RegisterOutcome;
    forall i | 0 < i < |ks| ensures HandsOver(g, more, id, ks[i], keys[i - 1], keys[i]) {
      assert HandsOver(g, calls, id, ks[i], keys[i - 1], keys[i]);
    }
  }

  lemma ChainGrows(g: Setting, calls: seq<Call>, id: MeterId, ks: seq<nat>, keys: seq<Key>, k: nat, key: Key)
    requires ValidShape(g.shape) && IsChain(g, calls, id, ks, keys)
    requires ks != [] ==> ks[|ks| - 1] < k
    requires if ks == [] then Enrols(g, calls, id, k, key) else HandsOver(g, calls, id, k, keys[|keys| - 1], key)
    ensures IsChain(g, calls, id, ks + [k], keys + [key])
  {
    hide Enrols, HandsOver;
  }

  /** A call that sets the key extends the chain: it enrols an unknown meter, or is
      approved by the Active meter's current key. */
  lemma KeyCallIsLink(g: Setting, calls: seq<Call>, id: MeterId)
    requires ValidShape(g.shape) && calls != [] && SetsKey(g, calls[..|calls| - 1], calls[|calls| - 1], id)
    ensures var n, r := |calls| - 1, After(g, calls[..|calls| - 1]);
            if id in r.meters then HandsOver(g, calls, id, n, r.meters[id].publicKey, NewKey(calls[n]))
            else Enrols(g, calls, id, n, NewKey(calls[n]))
  {
    hide After;
  }

  /** A call changes a meter's enrolment and key only by setting the key. */
  lemma KeyStep(g: Setting, before: seq<Call>, call: Call, id: MeterId)
    requires ValidShape(g.shape)
    ensures var r, t, sets := After(g, before), After(g, before + [call]), SetsKey(g, before, call, id);
            && (id in t.meters <==> id in r.meters || sets)
            && (sets ==> t.meters[id].publicKey == NewKey(call))
            && (id in r.meters && !sets ==> t.meters[id].publicKey == r.meters[id].publicKey)
  {
    AfterOneMore(g, before, call);
    ApplyToMeter(g, After(g, before), call, id);
    hide After, Apply;
  }

  lemma HistoryStep(g: Setting, before: seq<Call>, call: Call, id: MeterId)
    requires ValidShape(g.shape)
    ensures KeyHistory(g, before + [call], id)
         == if SetsKey(g, before, call, id) then KeyHistory(g, before, id) + [NewKey(call)] else KeyHistory(g, before, id)
    ensures KeyCalls(g, before + [call], id)
         == if SetsKey(g, before, call, id) then KeyCalls(g, before, id) + [|before|] else KeyCalls(g, before, id)
  {
    assert (before + [call])[..|before|] == before;
  }

  /** A meter has a key history exactly when it is enrolled, and its key is the last one. */
  lemma {:induction false} HistoryEndsInCurrentKey(g: Setting, calls: seq<Call>, id: MeterId)
    requires ValidShape(g.shape)
    ensures var r, keys := After(g, calls), KeyHistory(g, calls, id);
            && (id in r.meters <==> keys != [])
            && (id in r.meters ==> r.meters[id].publicKey == keys[|keys| - 1])
  {
    assert calls == [] ==> After(g, calls) == EMPTY && KeyHistory(g, calls, id) == [];
    hide After, SetsKey, KeyHistory, KeyCalls, NewKey;
    if calls != [] {
      var n := |calls| - 1;
      HistoryEndsInCurrentKey(g, calls[..n], id);
      assert calls[..n] + [calls[n]] == calls;
      KeyStep(g, calls[..n], calls[n], id);
      HistoryStep(g, calls[..n], calls[n], id);
    }
  }

  lemma {:induction false} KeysFormAChain(g: Setting, calls: seq<Call>, id: MeterId)
    requires ValidShape(g.shape)
    ensures IsChain(g, calls, id, KeyCalls(g, calls, id), KeyHistory(g, calls, id))
  {
    if calls != [] {
      hide After, SetsKey, KeyHistory, KeyCalls, IsChain, Enrols, HandsOver, NewKey;
      var n := |calls| - 1;
      var before, call := calls[..n], calls[n];
      var ks, keys := KeyCalls(g, before, id), KeyHistory(g, before, id);
      KeysFormAChain(g, before, id);
      assert before + [call] == calls;
      ChainSurvives(g, before, call, id, ks, keys);
      HistoryStep(g, before, call, id);
      if SetsKey(g, before, call, id) {
        HistoryEndsInCurrentKey(g, before, id);
        KeyCallIsLink(g, calls, id);
        assert ks != [] ==> ks[|ks| - 1] in ks;
        ChainGrows(g, calls, id, ks, keys, n, NewKey(call));
      }
    }
  }

  /** In every run each enrolled meter's current key ends a chain: it was enrolled with the
      first key by a successful registration, and each later key was handed over by a call
      that presented a signature of the key before it, made while the meter was Active. A
      meter that is not enrolled has no history. */
  lemma CurrentKeyEndsAnApprovedChain(g: Setting, calls: seq<Call>, id: MeterId)
    requires ValidShape(g.shape)
    ensures var r, keys := After(g, calls), KeyHistory(g, calls, id);
            && (id in r.meters <==> keys != [])
            && (id in r.meters ==> r.meters[id].publicKey == keys[|keys| - 1])
            && IsChain(g, calls, id, KeyCalls(g, calls, id), keys)
  {
    HistoryEndsInCurrentKey(g, calls, id);
    KeysFormAChain(g, calls, id);
    hide After, KeyHistory, KeyCalls, IsChain;
  }

  /** A registration succeeds exactly when no call of the run has given the meter a key, and the
      attestation, if there is one and a key to check it with, is a 64-byte signature of the rest. */
  lemma RegistrationSucceedsIff(g: Setting, calls: seq<Call>, id: MeterId, key: Key, tpm: Option<Bytes>, aik: Option<Key>, now: nat)
    requires ValidShape(g.shape)
    ensures Succeeds(g, After(g, calls), Register(id, key, tpm, aik, now))
       <==> && KeyHistory(g, calls, id) == []
            && (tpm.Some? && aik.Some? ==>
                  && |tpm.value| >= 64 && g.crypto.wellFormed(tpm.value[..64])
                  && g.crypto.verifies(aik.value, tpm.value[64..], tpm.value[..64]))
  {
    HistoryEndsInCurrentKey(g, calls, id);
    hide After, KeyHistory;
  }

  /** A rotation succeeds exactly when the meter has a key and is not revoked, and that key, the
      last of its history, signed the new one. */
  lemma RotationSucceedsIff(g: Setting, calls: seq<Call>, id: MeterId, newKey: Key, signature: Bytes, now: nat)
    requires ValidShape(g.shape)
    ensures var keys := KeyHistory(g, calls, id);
            Succeeds(g, After(g, calls), Rotate(id, newKey, signature, now))
            <==> && keys != [] && id !in RevokedMeters(After(g, calls))
                 && g.crypto.wellFormed(signature) && g.crypto.verifies(keys[|keys| - 1], newKey, signature)
  {
    HistoryEndsInCurrentKey(g, calls, id);
    EveryRunKeeps(g, calls);
    hide After, KeyHistory, IndexSet;
  }

  function TimeOf(call: Call): nat
    requires !call.Revoke?
  {
    match call case Register(_, _, _, _, now) => now case Rotate(_, _, _, now) => now
  }

  /** What a call does to a meter's dates. */
  lemma DateStep(g: Setting, before: seq<Call>, call: Call, id: MeterId)
    requires ValidShape(g.shape) && id in After(g, before + [call]).meters
    ensures var r, t := After(g, before), After(g, before + [call]).meters[id];
            if SetsKey(g, before, call, id) then
              t.keyRotatedAt == TimeOf(call) && t.enrolledAt == if id in r.meters then r.meters[id].enrolledAt else TimeOf(call)
            else id in r.meters && t.keyRotatedAt == r.meters[id].keyRotatedAt && t.enrolledAt == r.meters[id].enrolledAt
  {
    AfterOneMore(g, before, call);
    hide After, IndexSet;
  }

  /** Why a packet is refused, from the calls of the run: the meter has no key; it was revoked; its
      bits are all bits of revoked meters; the signature is malformed; or the meter's last key does
      not verify it. */
  lemma RefusalReasons(g: Setting, calls: seq<Call>, id: MeterId, payload: Bytes, signature: Bytes)
    requires ValidShape(g.shape)
    ensures var outcome, keys, revoked :=
              VerifyOutcome(g.crypto, g.shape, After(g, calls), id, payload, signature), KeyHistory(g, calls, id), RevokedMeters(After(g, calls));
            if keys == [] then outcome == Rejected("unknown meter")
            else if id in revoked then outcome == Rejected("meter is revoked")
            else if forall i :: i in IndexSet(g.crypto.sha, g.shape, id) ==>
                      exists x :: x in revoked && i in IndexSet(g.crypto.sha, g.shape, x)
            then outcome == Rejected("meter certificate revoked")
            else if !g.crypto.wellFormed(signature) then outcome == Rejected("invalid signature format")
            else if !g.crypto.verifies(keys[|keys| - 1], payload, signature) then outcome == Rejected("cryptographic signature mismatch")
            else outcome == Accepted
  {
    HistoryEndsInCurrentKey(g, calls, id);
    EveryRunKeeps(g, calls);
    hide After, KeyHistory, IndexSet;
  }

  /** A meter's dates are those of the first and the last call that set its key. */
  lemma {:induction false} DatesAreOfKeyCalls(g: Setting, calls: seq<Call>, id: MeterId)
    requires ValidShape(g.shape) && id in After(g, calls).meters
    ensures var ks, meter := KeyCalls(g, calls, id), After(g, calls).meters[id];
            && ks != [] && ks[0] in ks && ks[|ks| - 1] in ks
            && meter.enrolledAt == TimeOf(calls[ks[0]]) && meter.keyRotatedAt == TimeOf(calls[ks[|ks| - 1]])
  {
    if calls != [] {
      var n := |calls| - 1;
      var before, call := calls[..n], calls[n];
      assert before + [call] == calls;
      DateStep(g, before, call, id);
      HistoryStep(g, before, call, id);
      HistoryEndsInCurrentKey(g, before, id);
      if id in After(g, before).meters {
        DatesAreOfKeyCalls(g, before, id);
      }
      assert SetsKey(g, before, call, id) ==> !call.Revoke?;
      hide After, SetsKey, KeyCalls, KeyHistory, TimeOf, NewKey;
    }
  }

  /** Once enrolled, a meter is never registered again and keeps its enrolment time; from the
      moment it is revoked no rotation succeeds and its key history is frozen. */
  lemma {:induction false} RevokedHistoryIsFrozen(g: Setting, calls: seq<Call>, more: seq<Call>, id: MeterId)
    requires ValidShape(g.shape) && id in After(g, calls).meters
    ensures id in After(g, calls + more).meters
    ensures forall call: Call :: call.Register? && call.id == id ==> !Succeeds(g, After(g, calls + more), call)
    ensures After(g, calls + more).meters[id].enrolledAt == After(g, calls).meters[id].enrolledAt
    ensures KeyHistory(g, calls, id) <= KeyHistory(g, calls + more, id)
    ensures id in RevokedMeters(After(g, calls)) ==>
              && (forall call: Call :: call.Rotate? && call.id == id ==> !Succeeds(g, After(g, calls + more), call))
              && KeyHistory(g, calls + more, id) == KeyHistory(g, calls, id)
  {
    RevocationIsPermanent(g, calls, more, id);
    if more == [] {
      assert calls + more == calls;
    } else {
      var n := |more| - 1;
      var before := calls + more[..n];
      assert calls + more == before + [more[n]];
      assert (before + [more[n]])[..|before|] == before;
      RevokedHistoryIsFrozen(g, calls, more[..n], id);
      ApplyToMeter(g, After(g, before), more[n], id);
      AfterOneMore(g, before, more[n]);
      hide Apply, After;
    }
  }
}
