/** bcrypt as the account service uses it: `bcrypt.hash(p, 10)` and
    `bcrypt.compare(p, digest)`. The hash is an arbitrary function supplied by
    the caller; of the digest format only the leading '$' (every bcrypt digest
    starts "$2a$" or "$2b$") is kept, which is what makes a digest a non-empty
    string. Salting and the cost factor are not modelled. */
module Bcrypt {

  type Hasher = string -> string

  /** `bcrypt.hash(p, 10)` */
  function Hash(h: Hasher, p: string): (digest: string)
    ensures digest != "" && digest[0] == '$'
  {
    "$" + h(p)
  }

  /** `bcrypt.compare(p, digest)` */
  predicate Compare(h: Hasher, p: string, digest: string) {
    digest == Hash(h, p)
  }

  /** A password always matches its own digest. */
  lemma CompareHash(h: Hasher, p: string)
    ensures Compare(h, p, Hash(h, p))
  {
  }
}
