/** The handshake as the object whose methods update its fields in place.  Each
    method is the function of the same name on the old fields, early returns
    included. */
module HandshakeObject {
  import opened Basics
  import opened Crypto
  import opened Noise

  class HandshakeXX {
    const role: Role
    var ss: SymmetricState
    const id: PublicIdentity
    const e: nat
    var re: Option<Term>
    var rs: Option<Term>
    var step: nat
    var remote: Option<PublicIdentity>

    function Model(): Handshake
      reads this
    {
      Handshake(role, ss, id, e, re, rs, step, remote)
    }

    constructor (role: Role, id: PublicIdentity, prologue: Term, e: nat)
      ensures Model() == New(role, id, prologue, e)
    {
      this.role, this.id, this.e := role, id, e;
      ss := INITIAL.MixHash(prologue);
      re, rs, step, remote := None, None, 0, None;
    }

    /** Take up a stored handshake. */
    constructor Resume(h: Handshake)
      ensures Model() == h
    {
      role, ss, id, e, re, rs, step, remote := h.role, h.ss, h.id, h.e, h.re, h.rs, h.step, h.remote;
    }

    method EncryptAndHash(pt: Term) returns (ct: Term)
      modifies this`ss
      ensures (ss, ct) == old(ss).EncryptAndHash(pt)
    {
      match ss.cs.k {
        case None => ct := pt;
        case Some(k) =>
          ct := EncryptN(k, ss.cs.n, ss.h, pt);
          ss := ss.(cs := ss.cs.Next());
      }
      ss := ss.MixHash(ct);
    }

    method DecryptAndHash(ct: Term) returns (r: Result<Term>)
      modifies this`ss
      ensures Outcome(ss, r) == old(ss).DecryptAndHash(ct)
    {
      match ss.cs.k {
        case None => r := Ok(ct);
        case Some(k) =>
          r := DecryptN(k, ss.cs.n, ss.h, ct);
          if r.Err? { return; }
          ss := ss.(cs := ss.cs.Next());
      }
      ss := ss.MixHash(ct);
    }

    method VerifyIdentityPayload(payload: Term) returns (r: Result<Term>)
      modifies this`remote
      ensures Outcome(Model(), r) == VerifyIdentity(old(Model()), payload)
    {
      if !payload.Cat? { return Err(Truncated); }
      if !payload.head.Ed? { return Err(BadField); }
      if rs.None? { return Err(HandshakeState); }
      if payload.head.id.NoiseStatic() != rs.value { return Err(AuthFailed); }
      remote := Some(payload.head.id);
      return Ok(payload.tail);
    }

    method WriteMessage1(payload: Term) returns (r: Result<Message>)
      modifies this
      ensures Outcome(Model(), r) == Noise.WriteMessage1(old(Model()), payload)
    {
      if role != Initiator || step != 0 { return Err(HandshakeState); }
      ss := ss.MixHash(Pub(e));
      var ct := EncryptAndHash(payload);
      step := 1;
      return Ok(M1(Pub(e), ct));
    }

    method ReadMessage1(msg: Message) returns (r: Result<Term>)
      modifies this
      ensures Outcome(Model(), r) == Noise.ReadMessage1(old(Model()), msg)
    {
      if role != Responder || step != 0 { return Err(HandshakeState); }
      if !msg.M1? { return Err(Truncated); }
      re := Some(msg.e);
      ss := ss.MixHash(msg.e);
      r := DecryptAndHash(msg.payload);
      if r.Err? { return; }
      step := 1;
    }

    method WriteMessage2(extra: Term) returns (r: Result<Message>)
      modifies this
      ensures Outcome(Model(), r) == Noise.WriteMessage2(old(Model()), extra)
    {
      if role != Responder || step != 1 { return Err(HandshakeState); }
      if re.None? { return Err(HandshakeState); }
      ss := ss.MixHash(Pub(e));
      var ee := Dh(e, re.value);
      if ee.Err? { return Err(ee.error); }
      ss := ss.MixKey(ee.value);
      var encStatic := EncryptAndHash(id.NoiseStatic());
      var es := Dh(id.sk, re.value);
      if es.Err? { return Err(es.error); }
      ss := ss.MixKey(es.value);
      var encPayload := EncryptAndHash(Cat(Ed(id), extra));
      step := 2;
      return Ok(M2(Pub(e), encStatic, encPayload));
    }

    method ReadKey(encStatic: Term) returns (r: Result<Term>)
      modifies this
      ensures Outcome(Model(), r) == Noise.ReadKey(old(Model()), encStatic)
    {
      r := DecryptAndHash(encStatic);
      if r.Err? { return; }
      rs := Some(r.value);
      var dh := Dh(e, rs.value);
      if dh.Err? { return Err(dh.error); }
      ss := ss.MixKey(dh.value);
    }

    method ReadStatic(encStatic: Term, encPayload: Term, next: nat) returns (r: Result<Term>)
      modifies this
      ensures Outcome(Model(), r) == Noise.ReadStatic(old(Model()), encStatic, encPayload, next)
    {
      r := ReadKey(encStatic);
      if r.Ok? { r := ReadIdentity(encPayload, next); }
    }

    method ReadIdentity(encPayload: Term, next: nat) returns (r: Result<Term>)
      modifies this
      ensures Outcome(Model(), r) == Noise.ReadIdentity(old(Model()), encPayload, next)
    {
      r := DecryptAndHash(encPayload);
      if r.Err? { return; }
      r := VerifyIdentityPayload(r.value);
      if r.Err? { return; }
      step := next;
    }

    method ReadMessage2(msg: Message) returns (r: Result<Term>)
      modifies this
      ensures Outcome(Model(), r) == Noise.ReadMessage2(old(Model()), msg)
    {
      if role != Initiator || step != 1 { return Err(HandshakeState); }
      if !msg.M2? { return Err(Truncated); }
      re := Some(msg.e);
      ss := ss.MixHash(msg.e);
      var ee := Dh(e, msg.e);
      if ee.Err? { return Err(ee.error); }
      ss := ss.MixKey(ee.value);
      r := ReadStatic(msg.encStatic, msg.encPayload, 2);
    }

    method WriteMessage3(extra: Term) returns (r: Result<Message>)
      modifies this
      ensures Outcome(Model(), r) == Noise.WriteMessage3(old(Model()), extra)
    {
      if role != Initiator || step != 2 { return Err(HandshakeState); }
      if re.None? { return Err(HandshakeState); }
      var encStatic := EncryptAndHash(id.NoiseStatic());
      var se := Dh(id.sk, re.value);
      if se.Err? { return Err(se.error); }
      ss := ss.MixKey(se.value);
      var encPayload := EncryptAndHash(Cat(Ed(id), extra));
      step := 3;
      return Ok(M3(encStatic, encPayload));
    }

    method ReadMessage3(msg: Message) returns (r: Result<Term>)
      modifies this
      ensures Outcome(Model(), r) == Noise.ReadMessage3(old(Model()), msg)
    {
      if role != Responder || step != 2 { return Err(HandshakeState); }
      if !msg.M3? { return Err(Truncated); }
      r := ReadStatic(msg.encStatic, msg.encPayload, 3);
    }

    method Finish() returns (r: Result<(TransportKeys, PublicIdentity)>)
      ensures r == Noise.Finish(Model())
    {
      if step != 3 || remote.None? { return Err(HandshakeState); }
      var (k1, k2) := ss.Split();
      var keys := if role.Initiator? then TransportKeys(k1, k2, ss.h) else TransportKeys(k2, k1, ss.h);
      return Ok((keys, remote.value));
    }
  }
}
