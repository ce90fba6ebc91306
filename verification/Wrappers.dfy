/** Optional values and the errors the modelled operations can return. */
module Wrappers {

  datatype Option<+T> = None | Some(value: T)

  datatype Error =
    | TooManyBits          // HashBits asked for more than 8 bits
    | MaximumDepth         // the hash has no bits left
    | BlockNotFound        // a CID is not in the block store
    | UnexpectedBlock      // a block has the wrong type
    | DirtyPointer         // an unflushed pointer reached the serializer
    | NoPointers           // a collapsed node without pointers
    | NoAuthor             // a memo without an author header
    | EmptyChangelog       // a map changed without recorded changes
    | NoChangelogAuthor    // a changelog without an author
    | UnexpectedAuthor     // a changelog by somebody else
    | NoBase               // compaction without an ancestral base
    | HydrationMismatch    // a replayed body differs from the recorded one
    | NothingToStore       // zero bytes cannot be stored as chunks
    | Expired              // a UCAN past its expiry
    | TooEarly             // a UCAN before its start
    | BadSignature         // a UCAN not signed by its issuer
    | MalformedCid         // a proof that is not a CID
    | TokenNotFound        // a proof that is not in the token store
    | AudienceMismatch     // a proof for somebody else
    | LifetimeExceeded     // a UCAN that outlives its proof
    | NoSuchProof          // redelegation of a proof that is not there

  /** A block is missing, or the hash has run out of bits. */
  predicate StorageError(e: Error)
  {
    e == BlockNotFound || e == MaximumDepth
  }

  /** A revision does not say who changed what. */
  predicate DeriveError(e: Error)
  {
    e == BlockNotFound || e == NoAuthor || e == EmptyChangelog || e == NoChangelogAuthor || e == UnexpectedAuthor
  }

  datatype Result<+T> = Ok(value: T) | Err(error: Error)
}
