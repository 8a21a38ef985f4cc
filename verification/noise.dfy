/**
 The Noise session as the protocol layer sees it: a handshake with an outcome, then two ciphers with
 message counters (sections 3, 5.1 and 5.3 of the Noise Protocol Framework). Ciphers are parameters.
 */
module Noise {
  import opened Bytes

  /** Authenticated encryption under one key: nonce and text in, text out. */
  datatype Cipher = Cipher(enc: (nat, seq<byte>) -> seq<byte>, dec: (nat, seq<byte>) -> Option<seq<byte>>)

  const MAC_LENGTH := 16
  const MAX_MESSAGE := 0xFFFF
  const LAST_NONCE := 0xFFFF_FFFF_FFFF_FFFF // reserved: no message is sent under it

  /** Decryption inverts encryption under the same nonce, and both change the length by that of the tag. */
  ghost predicate Sound(c: Cipher) {
    && (forall n, p :: |c.enc(n, p)| == |p| + MAC_LENGTH && c.dec(n, c.enc(n, p)) == Some(p))
    && (forall n, t :: c.dec(n, t).Some? ==> |t| == |c.dec(n, t).value| + MAC_LENGTH)
  }

  /** What a key pair makes of a handshake: the message to write, the answers it accepts, the resulting ciphers. */
  datatype Keys = Keys(message: seq<byte>, accepts: seq<byte> -> bool, send: Cipher, receive: Cipher)

  datatype Phase = Start | Waiting | Failed | Complete

  datatype Session = Session(keys: Keys, phase: Phase, sent: nat, received: nat)

  function Begin(keys: Keys): Session { Session(keys, Start, 0, 0) }

  function WriteHandshake(s: Session): (Session, seq<byte>) {
    if s.phase == Start then (s.(phase := Waiting), s.keys.message) else (s, [])
  }

  /** The session is complete afterwards exactly when the answer was accepted. */
  function ReadHandshake(s: Session, data: seq<byte>): (r: Session)
    ensures s.phase != Complete ==> (r.phase == Complete <==> s.phase == Waiting && s.keys.accepts(data))
  {
    if s.phase != Waiting then s else s.(phase := if s.keys.accepts(data) then Complete else Failed)
  }

  /** Any number of answers, one after the other. */
  function ReadHandshakes(s: Session, answers: seq<seq<byte>>): Session {
    if answers == [] then s else ReadHandshake(ReadHandshakes(s, answers[..|answers| - 1]), answers[|answers| - 1])
  }

  /**
   The first answer decides for good: whatever follows, the session is complete exactly when that one
   was accepted, and has failed otherwise; keys and counters are those of the start.
   */
  lemma {:induction false} FirstAnswerDecides(keys: Keys, answers: seq<seq<byte>>)
    requires answers != []
    ensures var s := WriteHandshake(Begin(keys)).0;
            ReadHandshakes(s, answers) == Session(keys, if keys.accepts(answers[0]) then Complete else Failed, 0, 0)
  {
    if |answers| > 1 {
      FirstAnswerDecides(keys, answers[..|answers| - 1]);
    }
  }

  predicate CanEncrypt(s: Session, size: nat) {
    s.phase == Complete && s.sent < LAST_NONCE && size + MAC_LENGTH <= MAX_MESSAGE
  }

  /** The empty text stands for failure. */
  function Encrypt(s: Session, plain: seq<byte>): (r: (Session, seq<byte>)) {
    if CanEncrypt(s, |plain|) then (s.(sent := s.sent + 1), s.keys.send.enc(s.sent, plain)) else (s, [])
  }

  function Decrypt(s: Session, text: seq<byte>): (r: (Session, seq<byte>)) {
    if s.phase != Complete || s.received >= LAST_NONCE then (s, [])
    else
      match s.keys.receive.dec(s.received, text)
      case None => (s, [])
      case Some(plain) => (s.(received := s.received + 1), plain)
  }
}
