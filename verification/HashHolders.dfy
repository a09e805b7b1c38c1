/** The shared hash of the current trust bundle (internal/ctb/hash_holder.go). */
module HashHolders {

  /** Hex-encoded SHA-256, of which only this is used: a digest is never the empty string. */
  type Digest = f: string -> string | forall text :: f(text) != "" witness (text: string) => "0"

  class HashHolder {
    var hash: string

    constructor ()
      ensures hash == ""
    {
      hash := "";
    }

    method Get() returns (current: string)
      ensures current == hash
    {
      return hash;
    }

    method Set(hash: string)
      modifies this
      ensures this.hash == hash
    {
      this.hash := hash;
    }

    method ComputeAndSet(sha: Digest, trustBundle: string)
      modifies this
      ensures hash == sha(trustBundle) && hash != ""
    {
      Set(sha(trustBundle));
    }
  }
}
