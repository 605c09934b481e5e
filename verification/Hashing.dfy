/** What hash values look like, and when hashing tells strings apart. */
module Hashing {
  predicate IsHex(c: char) {
    '0' <= c <= '9' || 'a' <= c <= 'f'
  }

  predicate IsDigest(s: string) {
    |s| == 64 && forall i :: 0 <= i < |s| ==> IsHex(s[i])
  }

  /** Every value of `sha` is 64 lower-case hexadecimal digits. */
  ghost predicate MakesDigests(sha: string -> string) {
    forall x :: IsDigest(sha(x))
  }

  /** No two different strings among those that are hashed for these items share their hash. */
  ghost predicate CollisionFree<T(!new)>(sha: string -> string, items: seq<T>, hashed: T -> string) {
    forall x, y :: x in items && y in items && sha(hashed(x)) == sha(hashed(y)) ==> hashed(x) == hashed(y)
  }
}
