/** The Noise XX handshake object (sections 5.1 to 5.3 and 7.5 of the Noise
    Protocol Framework, revision 34) as the source implements it, including the
    symmetric state that a failed read leaves advanced. */
module Noise {
  import opened Basics
  import opened Crypto

  datatype CipherState = CipherState(k: Option<Term>, n: nat) {
    /** The nonce is a u64 that wraps. */
    function Next(): CipherState { this.(n := (n + 1) % U64) }
  }

  /** The outcome of a call that may fail after it has already changed its state. */
  datatype Outcome<S, T> = Outcome(state: S, result: Result<T>)

  datatype SymmetricState = SymmetricState(cs: CipherState, ck: Term, h: Term) {
    function MixKey(ikm: Term): SymmetricState {
      var (ck', k) := Hkdf2(ck, ikm);
      SymmetricState(CipherState(Some(k), 0), ck', h)
    }

    function MixHash(data: Term): SymmetricState { this.(h := Hash(h, data)) }

    function EncryptAndHash(pt: Term): (SymmetricState, Term) {
      match cs.k
      case None => (MixHash(pt), pt)
      case Some(k) =>
        var ct := EncryptN(k, cs.n, h, pt);
        (this.(cs := cs.Next()).MixHash(ct), ct)
    }

    function DecryptAndHash(ct: Term): Outcome<SymmetricState, Term> {
      match cs.k
      case None => Outcome(MixHash(ct), Ok(ct))
      case Some(k) =>
        match DecryptN(k, cs.n, h, ct)
        case Ok(pt) => Outcome(this.(cs := cs.Next()).MixHash(ct), Ok(pt))
        case Err(e) => Outcome(this, Err(e))
    }

    function Split(): (Term, Term) { Hkdf2(ck, EMPTY) }
  }

  const INITIAL := SymmetricState(CipherState(None, 0), ProtocolName, ProtocolName)

  datatype Role = Initiator | Responder

  /** Transport keys from the owner's point of view. */
  datatype TransportKeys = TransportKeys(send: Term, recv: Term, hash: Term)

  /** A handshake message cut at the offsets the reader uses; `Short` is one that
      is below the reader's minimum length. */
  datatype Message =
    | Short
    | M1(e: Term, payload: Term)
    | M2(e: Term, encStatic: Term, encPayload: Term)
    | M3(encStatic: Term, encPayload: Term)

  datatype Handshake = Handshake(
    role: Role, ss: SymmetricState, id: PublicIdentity, e: nat,
    re: Option<Term>, rs: Option<Term>, step: nat, remote: Option<PublicIdentity>)

  /** A fresh handshake object; `e` is the ephemeral secret drawn from the RNG. */
  function New(role: Role, id: PublicIdentity, prologue: Term, e: nat): Handshake {
    Handshake(role, INITIAL.MixHash(prologue), id, e, None, None, 0, None)
  }

  /** Check that the Ed25519 key in an identity payload maps to `rs`. */
  function VerifyIdentity(hs: Handshake, payload: Term): Outcome<Handshake, Term> {
    if !payload.Cat? then Outcome(hs, Err(Truncated))
    else if !payload.head.Ed? then Outcome(hs, Err(BadField))
    else if hs.rs.None? then Outcome(hs, Err(HandshakeState))
    else if payload.head.id.NoiseStatic() != hs.rs.value then Outcome(hs, Err(AuthFailed))
    else Outcome(hs.(remote := Some(payload.head.id)), Ok(payload.tail))
  }

  // -> e
  function WriteMessage1(hs: Handshake, payload: Term): Outcome<Handshake, Message> {
    if hs.role != Initiator || hs.step != 0 then Outcome(hs, Err(HandshakeState))
    else
      var (ss, ct) := hs.ss.MixHash(Pub(hs.e)).EncryptAndHash(payload);
      Outcome(hs.(ss := ss, step := 1), Ok(M1(Pub(hs.e), ct)))
  }

  function ReadMessage1(hs: Handshake, msg: Message): Outcome<Handshake, Term> {
    if hs.role != Responder || hs.step != 0 then Outcome(hs, Err(HandshakeState))
    else if !msg.M1? then Outcome(hs, Err(Truncated))
    else
      var hs1 := hs.(re := Some(msg.e), ss := hs.ss.MixHash(msg.e));
      var d := hs1.ss.DecryptAndHash(msg.payload);
      match d.result
      case Err(x) => Outcome(hs1, Err(x))
      case Ok(p) => Outcome(hs1.(ss := d.state, step := 1), Ok(p))
  }

  // <- e, ee, s, es
  function WriteMessage2(hs: Handshake, extra: Term): Outcome<Handshake, Message> {
    if hs.role != Responder || hs.step != 1 || hs.re.None? then Outcome(hs, Err(HandshakeState))
    else
      var hs1 := hs.(ss := hs.ss.MixHash(Pub(hs.e)));
      match Dh(hs.e, hs.re.value)
      case Err(x) => Outcome(hs1, Err(x))
      case Ok(ee) =>
        var (ss2, encStatic) := hs1.ss.MixKey(ee).EncryptAndHash(hs.id.NoiseStatic());
        match Dh(hs.id.sk, hs.re.value)
        case Err(x) => Outcome(hs1.(ss := ss2), Err(x))
        case Ok(es) =>
          var (ss3, encPayload) := ss2.MixKey(es).EncryptAndHash(Cat(Ed(hs.id), extra));
          Outcome(hs1.(ss := ss3, step := 2), Ok(M2(Pub(hs.e), encStatic, encPayload)))
  }

  function ReadMessage2(hs: Handshake, msg: Message): Outcome<Handshake, Term> {
    if hs.role != Initiator || hs.step != 1 then Outcome(hs, Err(HandshakeState))
    else if !msg.M2? then Outcome(hs, Err(Truncated))
    else
      var hs1 := hs.(re := Some(msg.e), ss := hs.ss.MixHash(msg.e));
      match Dh(hs.e, msg.e)
      case Err(x) => Outcome(hs1, Err(x))
      case Ok(ee) => ReadStatic(hs1.(ss := hs1.ss.MixKey(ee)), msg.encStatic, msg.encPayload, 2)
  }

  // -> s, se
  function WriteMessage3(hs: Handshake, extra: Term): Outcome<Handshake, Message> {
    if hs.role != Initiator || hs.step != 2 || hs.re.None? then Outcome(hs, Err(HandshakeState))
    else
      var (ss1, encStatic) := hs.ss.EncryptAndHash(hs.id.NoiseStatic());
      match Dh(hs.id.sk, hs.re.value)
      case Err(x) => Outcome(hs.(ss := ss1), Err(x))
      case Ok(se) =>
        var (ss2, encPayload) := ss1.MixKey(se).EncryptAndHash(Cat(Ed(hs.id), extra));
        Outcome(hs.(ss := ss2, step := 3), Ok(M3(encStatic, encPayload)))
  }

  function ReadMessage3(hs: Handshake, msg: Message): Outcome<Handshake, Term> {
    if hs.role != Responder || hs.step != 2 then Outcome(hs, Err(HandshakeState))
    else if !msg.M3? then Outcome(hs, Err(Truncated))
    else ReadStatic(hs, msg.encStatic, msg.encPayload, 3)
  }

  /** Decrypt the peer's static key and mix in the DH with our ephemeral. */
  function ReadKey(hs: Handshake, encStatic: Term): Outcome<Handshake, Term> {
    var d := hs.ss.DecryptAndHash(encStatic);
    match d.result
    case Err(x) => Outcome(hs, Err(x))
    case Ok(rs) =>
      var hs1 := hs.(ss := d.state, rs := Some(rs));
      match Dh(hs.e, rs)
      case Err(x) => Outcome(hs1, Err(x))
      case Ok(dh) => Outcome(hs1.(ss := hs1.ss.MixKey(dh)), Ok(rs))
  }

  /** The common tail of reading message 2 and message 3: the peer's static key, then the
      identity payload.  Every early return leaves what was already mixed in. */
  function ReadStatic(hs: Handshake, encStatic: Term, encPayload: Term, step: nat): Outcome<Handshake, Term> {
    var k := ReadKey(hs, encStatic);
    if k.result.Err? then k else ReadIdentity(k.state, encPayload, step)
  }

  /** Decrypt and check the identity payload. */
  function ReadIdentity(hs: Handshake, encPayload: Term, step: nat): Outcome<Handshake, Term> {
    var d := hs.ss.DecryptAndHash(encPayload);
    match d.result
    case Err(x) => Outcome(hs, Err(x))
    case Ok(payload) =>
      var v := VerifyIdentity(hs.(ss := d.state), payload);
      match v.result
      case Err(x) => v
      case Ok(extra) => Outcome(v.state.(step := step), Ok(extra))
  }

  /** Split into transport keys. */
  function Finish(hs: Handshake): Result<(TransportKeys, PublicIdentity)> {
    if hs.step != 3 then Err(HandshakeState)
    else if hs.remote.None? then Err(HandshakeState)
    else
      var (k1, k2) := hs.ss.Split();
      var keys := match hs.role
                  case Initiator => TransportKeys(k1, k2, hs.ss.h)
                  case Responder => TransportKeys(k2, k1, hs.ss.h);
      Ok((keys, hs.remote.value))
  }

  // ----- agreement and binding ---------------------------------------------

  lemma DhMatches(a: nat, b: nat, p: Term)
    ensures Dh(b, p).Err? <==> p.LowOrder?
    ensures Dh(a, Pub(b)) == Dh(b, p) <==> p == Pub(a)
  {
  }

  /** What a reader needs to accept the static-key part of message 2 or 3 written
      in the symmetric state `w` by the key pair `sk` towards `point`. */
  lemma ReadStaticAccepts(r: Handshake, w: SymmetricState, id: PublicIdentity, point: Term, extra: Term, step: nat)
    requires r.ss.cs.k.Some? && w.cs.k.Some? && !point.LowOrder?
    ensures
      var (w1, c1) := w.EncryptAndHash(id.NoiseStatic());
      var (w2, c2) := w1.MixKey(Dh(id.sk, point).value).EncryptAndHash(Cat(Ed(id), extra));
      var o := ReadStatic(r, c1, c2, step);
      && (o.result.Ok? <==> r.ss == w && point == Pub(r.e))
      && (o.result.Ok? ==> o.result == Ok(extra)
                           && o.state == r.(ss := w2, rs := Some(Pub(id.sk)), step := step, remote := Some(id)))
  {
    var (w1, c1) := w.EncryptAndHash(id.NoiseStatic());
    DhMatches(r.e, id.sk, point);
    var d := r.ss.DecryptAndHash(c1);
    if d.result.Ok? {
      assert d.result == Ok(Pub(id.sk));
      assert r.ss.cs == w.cs && r.ss.h == w.h;
    }
  }

  /** Message 2 written by `r` is accepted by `i` exactly when both hold the same
      transcript hash and chaining key and `r` answered `i`'s ephemeral; the
      symmetric states then agree again. */
  lemma Message2Binds(i: Handshake, r: Handshake, extra: Term)
    requires i.role == Initiator && i.step == 1
    requires WriteMessage2(r, extra).result.Ok?
    ensures
      var w := WriteMessage2(r, extra);
      var o := ReadMessage2(i, w.result.value);
      && (o.result.Ok? <==> i.ss.h == r.ss.h && i.ss.ck == r.ss.ck && r.re == Some(Pub(i.e)))
      && (o.result.Ok? ==> o.result == Ok(extra) && o.state.ss == w.state.ss && o.state.step == 2
                           && o.state.re == Some(Pub(r.e)) && o.state.remote == Some(r.id))
  {
    var ee := Dh(r.e, r.re.value).value;
    var ee' := Dh(i.e, Pub(r.e)).value;
    var w := r.ss.MixHash(Pub(r.e)).MixKey(ee);
    var hs := i.(re := Some(Pub(r.e)), ss := i.ss.MixHash(Pub(r.e)).MixKey(ee'));
    DhMatches(i.e, r.e, r.re.value);
    assert hs.ss == w <==> i.ss.h == r.ss.h && i.ss.ck == r.ss.ck && r.re == Some(Pub(i.e));
    ReadStaticAccepts(hs, w, r.id, r.re.value, extra, 2);
  }

  /** Message 3 written by `i` is accepted by `r` exactly when their symmetric
      states are equal and `i` answered `r`'s ephemeral. */
  lemma Message3Binds(i: Handshake, r: Handshake, extra: Term)
    requires r.role == Responder && r.step == 2 && r.ss.cs.k.Some? && i.ss.cs.k.Some?
    requires WriteMessage3(i, extra).result.Ok?
    ensures
      var w := WriteMessage3(i, extra);
      var o := ReadMessage3(r, w.result.value);
      && (o.result.Ok? <==> i.ss == r.ss && i.re == Some(Pub(r.e)))
      && (o.result.Ok? ==> o.result == Ok(extra) && o.state.ss == w.state.ss && o.state.step == 3
                           && o.state.remote == Some(i.id))
  {
    ReadStaticAccepts(r, i.ss, i.id, i.re.value, extra, 3);
  }

  /** Messages 2 and 3 of an undisturbed run with the states in between: every call
      succeeds and every payload arrives. */
  datatype Exchange = Exchange(m2: Message, r2: Handshake, i2: Handshake, m3: Message, i3: Handshake, r3: Handshake)

  ghost predicate Completes(i: Handshake, r: Handshake, x2: Term, x3: Term, x: Exchange) {
    && WriteMessage2(r, x2) == Outcome(x.r2, Ok(x.m2))
    && ReadMessage2(i, x.m2) == Outcome(x.i2, Ok(x2))
    && WriteMessage3(x.i2, x3) == Outcome(x.i3, Ok(x.m3))
    && ReadMessage3(x.r2, x.m3) == Outcome(x.r3, Ok(x3))
  }

  ghost predicate Mirrored(i: Handshake, r: Handshake) {
    && Finish(i).Ok? && Finish(r).Ok?
    && Finish(i).value.1 == r.id && Finish(r).value.1 == i.id
    && var ki, kr := Finish(i).value.0, Finish(r).value.0;
       ki.send == kr.recv && ki.recv == kr.send && ki.send != ki.recv && ki.hash == kr.hash
  }

  lemma WriteMessage2State(r: Handshake, x: Term)
    requires r.role == Responder && r.step == 1 && r.re.Some? && !r.re.value.LowOrder?
    ensures
      var w := WriteMessage2(r, x);
      w.result.Ok? && w.state.ss.cs.k.Some? && w.state == r.(ss := w.state.ss, step := 2)
  {
  }

  lemma WriteMessage3State(i: Handshake, x: Term)
    requires i.role == Initiator && i.step == 2 && i.re.Some? && !i.re.value.LowOrder?
    ensures
      var w := WriteMessage3(i, x);
      w.result.Ok? && w.state == i.(ss := w.state.ss, step := 3)
  {
  }

  lemma ReadKeeps(hs: Handshake, msg: Message)
    ensures var o := ReadMessage2(hs, msg).state; o.role == hs.role && o.id == hs.id && o.e == hs.e
    ensures var o := ReadMessage3(hs, msg).state; o.role == hs.role && o.id == hs.id && o.e == hs.e
  {
  }

  /** Once message 1 has been read undisturbed, messages 2 and 3 go through, both
      ends learn each other's identity, and the transport keys are mirrored. */
  lemma Completion(i: Handshake, r: Handshake, x2: Term, x3: Term) returns (x: Exchange)
    requires i.role == Initiator && i.step == 1 && r.role == Responder && r.step == 1
    requires i.ss == r.ss && r.re == Some(Pub(i.e))
    ensures Completes(i, r, x2, x3, x) && Mirrored(x.i3, x.r3)
    ensures x.i3.id == i.id && x.r3.id == r.id && x.i2.remote == x.i3.remote
  {
    WriteMessage2State(r, x2);
    var w2 := WriteMessage2(r, x2);
    Message2Binds(i, r, x2);
    ReadKeeps(i, w2.result.value);
    var i2 := ReadMessage2(i, w2.result.value).state;
    var m3, i3, r3 := CompletionOfMessage3(i2, w2.state, x3);
    x := Exchange(w2.result.value, w2.state, i2, m3, i3, r3);
  }

  lemma CompletionOfMessage3(i: Handshake, r: Handshake, x3: Term) returns (m3: Message, i3: Handshake, r3: Handshake)
    requires i.role == Initiator && i.step == 2 && r.role == Responder && r.step == 2
    requires i.ss == r.ss && i.ss.cs.k.Some? && i.re == Some(Pub(r.e)) && i.remote == Some(r.id)
    ensures WriteMessage3(i, x3) == Outcome(i3, Ok(m3)) && ReadMessage3(r, m3) == Outcome(r3, Ok(x3))
    ensures Mirrored(i3, r3) && i3.id == i.id && r3.id == r.id && i3.remote == i.remote
  {
    WriteMessage3State(i, x3);
    var w3 := WriteMessage3(i, x3);
    m3, i3 := w3.result.value, w3.state;
    Message3Binds(i, r, x3);
    ReadKeeps(r, m3);
    r3 := ReadMessage3(r, m3).state;
  }

  /** A complete honest run from two fresh objects with the same prologue. */
  lemma HonestRun(a: PublicIdentity, b: PublicIdentity, prologue: Term, ei: nat, er: nat, x1: Term, x2: Term, x3: Term)
    returns (x: Exchange)
    ensures
      var w1 := WriteMessage1(New(Initiator, a, prologue, ei), x1);
      && w1.result.Ok?
      && var r1 := ReadMessage1(New(Responder, b, prologue, er), w1.result.value);
      && r1.result == Ok(x1) && Completes(w1.state, r1.state, x2, x3, x)
    ensures Mirrored(x.i3, x.r3) && x.i3.id == a && x.r3.id == b && x.i2.remote == x.i3.remote
  {
    var w1 := WriteMessage1(New(Initiator, a, prologue, ei), x1);
    var r1 := ReadMessage1(New(Responder, b, prologue, er), w1.result.value);
    x := Completion(w1.state, r1.state, x2, x3);
  }

  /** A message 2 written by a responder is accepted by an initiator exactly when
      they started from the same prologue and the responder read the initiator's own
      message 1: same ephemeral, same payload. */
  lemma TranscriptBinds(a: PublicIdentity, b: PublicIdentity, p: Term, p': Term, ei: nat, er: nat, x1: Term, m1: Message, x2: Term)
    requires m1.M1? && !m1.e.LowOrder?
    ensures
      var i := WriteMessage1(New(Initiator, a, p, ei), x1).state;
      var r := ReadMessage1(New(Responder, b, p', er), m1).state;
      var w := WriteMessage2(r, x2);
      && w.result.Ok?
      && (ReadMessage2(i, w.result.value).result.Ok? <==> p == p' && m1 == M1(Pub(ei), x1))
  {
    var i := WriteMessage1(New(Initiator, a, p, ei), x1).state;
    var r := ReadMessage1(New(Responder, b, p', er), m1).state;
    WriteMessage2State(r, x2);
    Message2Binds(i, r, x2);
  }

  lemma Message2Shape(r: Handshake, x: Term)
    requires WriteMessage2(r, x).result.Ok?
    ensures
      var w := WriteMessage2(r, x);
      && w.result.value.M2? && w.result.value.e == Pub(r.e) && w.state.ss.cs.k.Some?
      && w.state.ss.h == Hash(Hash(Hash(r.ss.h, Pub(r.e)), w.result.value.encStatic), w.result.value.encPayload)
  {
  }

  lemma ReadStaticShape(hs: Handshake, c1: Term, c2: Term, step: nat)
    requires hs.ss.cs.k.Some? && ReadStatic(hs, c1, c2, step).result.Ok?
    ensures
      var o := ReadStatic(hs, c1, c2, step);
      o.state.ss.h == Hash(Hash(hs.ss.h, c1), c2) && o.state.ss.cs.k.Some? && o.state.re == hs.re && o.state.step == step
  {
  }

  lemma Accepted2Shape(i: Handshake, m2: Message)
    requires ReadMessage2(i, m2).result.Ok?
    ensures
      var o := ReadMessage2(i, m2);
      && i.role.Initiator? && i.step == 1 && m2.M2? && !m2.e.LowOrder?
      && o.state.ss.cs.k.Some? && o.state.role == i.role && o.state.re == Some(m2.e) && o.state.step == 2
      && o.state.ss.h == Hash(Hash(Hash(i.ss.h, m2.e), m2.encStatic), m2.encPayload)
  {
    ReadKeeps(i, m2);
    var hs := i.(re := Some(m2.e), ss := i.ss.MixHash(m2.e).MixKey(Dh(i.e, m2.e).value));
    ReadStaticShape(hs, m2.encStatic, m2.encPayload, 2);
  }

  /** A message 3 is accepted exactly when both sides started from the same prologue, the
      responder read the initiator's own message 1 and the initiator accepted the
      responder's own message 2. */
  lemma TranscriptBinds3(a: PublicIdentity, b: PublicIdentity, p: Term, p': Term, ei: nat, er: nat,
                         x1: Term, m1: Message, x2: Term, m2: Message, x3: Term)
    requires m1.M1? && !m1.e.LowOrder?
    requires ReadMessage2(WriteMessage1(New(Initiator, a, p, ei), x1).state, m2).result.Ok?
    ensures
      var i := ReadMessage2(WriteMessage1(New(Initiator, a, p, ei), x1).state, m2).state;
      var w2 := WriteMessage2(ReadMessage1(New(Responder, b, p', er), m1).state, x2);
      var w3 := WriteMessage3(i, x3);
      && w2.result.Ok? && w3.result.Ok?
      && (ReadMessage3(w2.state, w3.result.value).result.Ok?
          <==> p == p' && m1 == M1(Pub(ei), x1) && m2 == w2.result.value)
  {
    var i1 := WriteMessage1(New(Initiator, a, p, ei), x1).state;
    var r1 := ReadMessage1(New(Responder, b, p', er), m1).state;
    TranscriptBinds(a, b, p, p', ei, er, x1, m1, x2);
    WriteMessage2State(r1, x2);
    Message2Shape(r1, x2);
    Accepted2Shape(i1, m2);
    var i, w2 := ReadMessage2(i1, m2).state, WriteMessage2(r1, x2);
    WriteMessage3State(i, x3);
    Message3Binds(i, w2.state, x3);
    if m2 == w2.result.value { Message2Binds(i1, r1, x2); }
  }

  // ----- what a failed read leaves behind -------------------------------------

  /** The items mixed into a transcript hash, oldest first. */
  ghost function Transcript(h: Term): seq<Term> {
    if h.Hash? then Transcript(h.left) + [h.right] else []
  }

  lemma ReadStaticGrows(hs: Handshake, c1: Term, c2: Term, step: nat)
    ensures |Transcript(ReadStatic(hs, c1, c2, step).state.ss.h)| >= |Transcript(hs.ss.h)|
    ensures hs.ss.DecryptAndHash(c1).result.Ok? ==>
              |Transcript(ReadStatic(hs, c1, c2, step).state.ss.h)| > |Transcript(hs.ss.h)|
    ensures hs.ss.DecryptAndHash(c1).result.Err? ==> ReadStatic(hs, c1, c2, step).state == hs
  {
  }

  /** A failed read of message 2 is not rolled back: the genuine answer to our
      message 1 is still accepted afterwards exactly when the message that failed
      was too short to be parsed. */
  lemma FailedRead2IsFinal(i: Handshake, r: Handshake, bad: Message, x2: Term)
    requires i.role == Initiator && i.step == 1 && i.ss == r.ss
    requires r.role == Responder && r.step == 1 && r.re == Some(Pub(i.e))
    requires ReadMessage2(i, bad).result.Err?
    ensures WriteMessage2(r, x2).result.Ok?
    ensures ReadMessage2(ReadMessage2(i, bad).state, WriteMessage2(r, x2).result.value).result.Ok? <==> !bad.M2?
  {
    var i' := ReadMessage2(i, bad).state;
    WriteMessage2State(r, x2);
    ReadKeeps(i, bad);
    if bad.M2? {
      var mixed := i.ss.MixHash(bad.e);
      var d := Dh(i.e, bad.e);
      if d.Ok? {
        ReadStaticGrows(i.(re := Some(bad.e), ss := mixed.MixKey(d.value)), bad.encStatic, bad.encPayload, 2);
      }
      assert |Transcript(i'.ss.h)| > |Transcript(i.ss.h)|;
      if i'.step == 1 { Message2Binds(i', r, x2); }
    } else {
      Message2Binds(i, r, x2);
    }
  }

  /** For message 3 the genuine message survives a failed read exactly when the
      failure came before the static key decrypted. */
  lemma FailedRead3(i: Handshake, r: Handshake, bad: Message, x3: Term)
    requires i.role == Initiator && i.step == 2 && r.role == Responder && r.step == 2
    requires i.ss == r.ss && i.ss.cs.k.Some? && i.re == Some(Pub(r.e))
    requires ReadMessage3(r, bad).result.Err?
    ensures WriteMessage3(i, x3).result.Ok?
    ensures ReadMessage3(ReadMessage3(r, bad).state, WriteMessage3(i, x3).result.value).result.Ok?
            <==> !(bad.M3? && r.ss.DecryptAndHash(bad.encStatic).result.Ok?)
  {
    var r' := ReadMessage3(r, bad).state;
    WriteMessage3State(i, x3);
    ReadKeeps(r, bad);
    Message3Binds(i, r, x3);
    if bad.M3? {
      ReadStaticGrows(r, bad.encStatic, bad.encPayload, 3);
      if r.ss.DecryptAndHash(bad.encStatic).result.Ok? {
        assert r'.ss.h != r.ss.h;
        if r'.step == 2 { ReadStaticHasKey(r, bad.encStatic, bad.encPayload, 3); Message3Binds(i, r', x3); }
      }
    }
  }

  lemma ReadStaticHasKey(hs: Handshake, c1: Term, c2: Term, step: nat)
    requires hs.ss.cs.k.Some?
    ensures ReadStatic(hs, c1, c2, step).state.ss.cs.k.Some?
  {
  }

  // ----- the message order ----------------------------------------------------

  /** One call on a handshake object. */
  datatype Call =
    | Write1(x: Term) | Read1(m: Message)
    | Write2(x: Term) | Read2(m: Message)
    | Write3(x: Term) | Read3(m: Message)
  {
    function Perform(hs: Handshake): Outcome<Handshake, ()> {
      match this
      case Write1(x) => var o := WriteMessage1(hs, x); Outcome(o.state, Done(o.result))
      case Read1(m) => var o := ReadMessage1(hs, m); Outcome(o.state, Done(o.result))
      case Write2(x) => var o := WriteMessage2(hs, x); Outcome(o.state, Done(o.result))
      case Read2(m) => var o := ReadMessage2(hs, m); Outcome(o.state, Done(o.result))
      case Write3(x) => var o := WriteMessage3(hs, x); Outcome(o.state, Done(o.result))
      case Read3(m) => var o := ReadMessage3(hs, m); Outcome(o.state, Done(o.result))
    }

    /** The position of the call in the pattern, odd when it writes. */
    function Kind(): nat {
      match this
      case Write1(_) => 1 case Read1(_) => 2 case Write2(_) => 3
      case Read2(_) => 4 case Write3(_) => 5 case Read3(_) => 6
    }
  }

  function Done<T>(r: Result<T>): Result<()> {
    match r case Ok(_) => Ok(()) case Err(e) => Err(e)
  }

  /** The calls a complete handshake consists of, for each role. */
  function FullOrder(role: Role): seq<nat> {
    if role.Initiator? then [1, 4, 5] else [2, 3, 6]
  }

  function Run(hs: Handshake, calls: seq<Call>): Handshake {
    if calls == [] then hs
    else calls[|calls| - 1].Perform(Run(hs, calls[..|calls| - 1])).state
  }

  /** The kinds of the calls of the run that succeeded, in order. */
  function Succeeded(hs: Handshake, calls: seq<Call>): seq<nat> {
    if calls == [] then []
    else
      var init := calls[..|calls| - 1];
      var last := calls[|calls| - 1];
      Succeeded(hs, init) + if last.Perform(Run(hs, init)).result.Ok? then [last.Kind()] else []
  }

  /** What every state of a run satisfies, given the calls that succeeded so far. */
  ghost predicate InOrder(hs: Handshake, done: seq<nat>) {
    && hs.step <= 3
    && done == FullOrder(hs.role)[..hs.step]
    && (hs.role.Initiator? && hs.step >= 2 ==> hs.remote.Some?)
    && (hs.role.Responder? && hs.step == 3 ==> hs.remote.Some?)
  }

  /** A call succeeds only in its place in the order, and only then counts a step. */
  lemma CallSteps(hs: Handshake, call: Call)
    requires hs.step <= 3
    ensures
      var o := call.Perform(hs);
      && o.state.role == hs.role
      && (o.result.Err? ==> o.state.step == hs.step && (hs.remote.Some? ==> o.state.remote.Some?))
      && (o.result.Ok? ==>
            && hs.step < 3 && FullOrder(hs.role)[hs.step] == call.Kind() && o.state.step == hs.step + 1
            && (hs.remote.Some? || call.Read2? || call.Read3? ==> o.state.remote.Some?))
  {
    match call
    case Read2(m) => ReadKeeps(hs, m); ReadSteps(hs, m);
    case Read3(m) => ReadKeeps(hs, m); ReadSteps(hs, m);
    case _ =>
  }

  lemma ReadSteps(hs: Handshake, msg: Message)
    ensures
      var o := ReadMessage2(hs, msg);
      && (o.result.Err? ==> o.state.step == hs.step && (hs.remote.Some? ==> o.state.remote.Some?))
      && (o.result.Ok? ==> hs.role.Initiator? && hs.step == 1 && o.state.step == 2 && o.state.remote.Some?)
    ensures
      var o := ReadMessage3(hs, msg);
      && (o.result.Err? ==> o.state.step == hs.step && (hs.remote.Some? ==> o.state.remote.Some?))
      && (o.result.Ok? ==> hs.role.Responder? && hs.step == 2 && o.state.step == 3 && o.state.remote.Some?)
  {
  }

  lemma CallKeepsOrder(hs: Handshake, done: seq<nat>, call: Call)
    requires InOrder(hs, done)
    ensures
      var o := call.Perform(hs);
      && o.state.role == hs.role
      && InOrder(o.state, done + if o.result.Ok? then [call.Kind()] else [])
  {
    assert done + [] == done;
    var o := call.Perform(hs);
    CallSteps(hs, call);
    if o.result.Ok? {
      assert FullOrder(hs.role)[..hs.step + 1] == FullOrder(hs.role)[..hs.step] + [call.Kind()];
    }
  }

  /** Over every sequence of calls on a fresh object, in any order and with any
      messages, `finish` succeeds exactly when the calls that succeeded are the
      whole pattern of the object's role, in order. */
  lemma {:induction false} FinishNeedsFullOrder(role: Role, id: PublicIdentity, prologue: Term, e: nat, calls: seq<Call>)
    ensures
      var hs := New(role, id, prologue, e);
      && InOrder(Run(hs, calls), Succeeded(hs, calls))
      && Run(hs, calls).role == role
      && (Finish(Run(hs, calls)).Ok? <==> Succeeded(hs, calls) == FullOrder(role))
  {
    var hs := New(role, id, prologue, e);
    if calls != [] {
      FinishNeedsFullOrder(role, id, prologue, e, calls[..|calls| - 1]);
      CallKeepsOrder(Run(hs, calls[..|calls| - 1]), Succeeded(hs, calls[..|calls| - 1]), calls[|calls| - 1]);
    }
    var done := Succeeded(hs, calls);
    assert |done| == Run(hs, calls).step;
    assert FullOrder(role)[..3] == FullOrder(role);
  }
}
