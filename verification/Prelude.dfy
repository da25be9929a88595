/** Small vocabulary shared by every component: bytes, optional values, results and ideal digests. */
module Prelude {

  type byte = b: int | 0 <= b < 256
  type Bytes = seq<byte>

  datatype Option<+T> = None | Some(value: T)

  datatype Result<+T, +E> = Ok(value: T) | Err(error: E)

  /** SHA-256 as an ideal hash: a digest is its preimage under a free constructor, hence injective.
      The text hashed for a symlink, `symlink:<destination>:<digest>:<digest>`, is kept as its parts. */
  datatype Digest =
    | Sha256(preimage: Bytes)
    | Sha256OfLink(destination: Bytes, content: Digest, manifest: Digest)

  /** The ASCII whitespace that trimming removes. */
  predicate IsWhitespace(c: char) {
    c in {' ', '\t', '\n', '\r'}
  }
}
