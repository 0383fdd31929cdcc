/** Symbolic stand-ins for the cryptographic primitives the services call: bcrypt,
    SHA-256 (FIPS 180-4) and HMAC (RFC 2104). The services only ever compare their
    outputs for equality, so each is modelled as an injective encoding of its input,
    which is the collision freedom the code relies on. */
module Crypto {

  /** A bcrypt hash. The salt is random (a parameter of the model); the hash
      remembers the password it was computed from. */
  datatype PasswordHash = Bcrypt(salt: string, secret: string)

  /** bcrypt.hash(password, salt). */
  function BcryptHash(password: string, salt: string): (h: PasswordHash)
    ensures forall p :: BcryptCompare(p, h) <==> p == password
  {
    Bcrypt(salt, password)
  }

  /** bcrypt.compare(password, hash). */
  predicate BcryptCompare(password: string, h: PasswordHash) {
    h.secret == password
  }

  const Sha256Tag: string := "sha256:"

  /** crypto.createHash('sha256').update(s).digest('hex'). */
  function Sha256Hex(s: string): (d: string)
    ensures |d| > 0
  {
    Sha256Tag + s
  }

  /** Equal digests come from equal inputs: looking a user up by the digest of a
      token finds exactly the users whose stored digest was made from that token. */
  lemma Sha256Injective(a: string, b: string)
    ensures Sha256Hex(a) == Sha256Hex(b) ==> a == b
  {
    if Sha256Hex(a) == Sha256Hex(b) {
      calc {
        a;
        (Sha256Tag + a)[|Sha256Tag|..];
        (Sha256Tag + b)[|Sha256Tag|..];
        b;
      }
    }
  }

  /** createHmac(algorithm, key).update(message).digest('hex'): never empty. */
  function HmacHex(key: string, message: string): (d: string)
    ensures |d| > 0
  {
    "hmac(" + key + ")" + message
  }
}
