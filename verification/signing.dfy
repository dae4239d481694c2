/** Ed25519 (section 5.1 of RFC 8032) and encoding/hex, known only by their laws. */
module Signing {
  import opened Options

  const PUBLIC_KEY_SIZE := 32

  datatype Scheme = Scheme(
    publicKey: string -> string,
    sign: (string, string) -> string,
    verify: (string, string, string) -> bool,
    hexEncode: string -> string,
    hexDecode: string -> Option<string>)

  ghost predicate Lawful(s: Scheme) {
    && (forall key :: |s.publicKey(key)| == PUBLIC_KEY_SIZE)
    && (forall key, msg :: s.verify(s.publicKey(key), msg, s.sign(key, msg)))
    && (forall b :: s.hexDecode(s.hexEncode(b)) == Some(b))
  }

  datatype SignatureCheck = Good | BadKey | BadSignature

  /** The last check of both Verify functions, on the hexadecimal key and signature of a manifest. */
  function Check(s: Scheme, publicKey: string, msg: string, signature: string): SignatureCheck {
    var pub := s.hexDecode(publicKey);
    if pub.None? || |pub.value| != PUBLIC_KEY_SIZE then BadKey
    else
      var sig := s.hexDecode(signature);
      if sig.None? || !s.verify(pub.value, msg, sig.value) then BadSignature else Good
  }

  ghost predicate KeyReads(s: Scheme, publicKey: string) {
    s.hexDecode(publicKey).Some? && |s.hexDecode(publicKey).value| == 32
  }

  /** The key reads, the signature decodes, and it is one of that key on the message. */
  ghost predicate Authentic(s: Scheme, publicKey: string, msg: string, signature: string) {
    KeyReads(s, publicKey) && s.hexDecode(signature).Some?
    && s.verify(s.hexDecode(publicKey).value, msg, s.hexDecode(signature).value)
  }

  lemma SignedIsAuthentic(s: Scheme, key: string, msg: string)
    requires Lawful(s)
    ensures KeyReads(s, s.hexEncode(s.publicKey(key)))
    ensures Authentic(s, s.hexEncode(s.publicKey(key)), msg, s.hexEncode(s.sign(key, msg)))
  {
  }
}
