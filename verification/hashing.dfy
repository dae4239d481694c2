/**
 SHA-256 printed in hexadecimal, as an arbitrary function. Nothing is assumed about it but
 its shape; where a result needs a hash without collisions it says so for the finitely
 many texts at hand, or hands over the two texts that collide.
 */
module Hashing {

  predicate IsHex(c: char) {
    '0' <= c <= '9' || 'a' <= c <= 'f'
  }

  predicate HexDigest(d: string) {
    |d| == 64 && forall c <- d :: IsHex(c)
  }

  type HashFn = string -> string

  /** 64 lower-case hexadecimal digits, whatever is hashed. */
  ghost predicate HexValued(h: HashFn) {
    forall x :: HexDigest(h(x))
  }

  ghost predicate CollisionFree(h: HashFn, texts: set<string>) {
    forall x, y :: x in texts && y in texts && h(x) == h(y) ==> x == y
  }
}
