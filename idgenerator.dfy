/** internal/service/idgenerator/base62.go: the id generator the use case is built with.
    It holds only the id length, set when it is built and never changed; each call to
    `Generate` draws fresh random bytes, given here as `entropy`. */
module IdGenerator {
  import opened Errors
  import Base62

  datatype Base62Generator = Base62Generator(length: nat)
  {
    /** `Generate`: delegates to `GenerateRandomBase62` with the configured length. On
        failure it returns `""` and passes the error on; on success the id has the
        configured length and only base62 characters. */
    method Generate(entropy: seq<Base62.byte>) returns (id: string, err: Option<Error>)
      ensures err.Some? <==> |entropy| < length
      ensures err.Some? ==> id == "" && err == Some(RandomnessUnavailable)
      ensures err == None ==> |id| == length && Base62.AllAlphanumeric(id)
      ensures err == None ==> Base62.RandomBase62(length, entropy) == Some(id)
    {
      var randomBytes, genErr := Base62.GenerateRandomBase62(length, entropy);
      if genErr.Some? {
        return "", genErr;
      }
      return randomBytes, None;
    }
  }

  /** `NewBase62Generator`: the generator for ids of `length` characters. */
  function NewBase62Generator(length: nat): (g: Base62Generator)
    ensures g.length == length
  {
    Base62Generator(length)
  }

  /** The generator outcomes of a use case whose k-th `Generate` call reads `entropy(k)`:
      a call fails exactly when its random bytes run short, and every produced id is a
      base62 string of the generator's length. */
  function Outcomes(g: Base62Generator, entropy: nat -> seq<Base62.byte>): (gen: nat -> Option<string>)
    ensures forall k: nat :: gen(k).None? <==> |entropy(k)| < g.length
    ensures forall k: nat :: gen(k).Some? ==> |gen(k).value| == g.length && Base62.AllAlphanumeric(gen(k).value)
  {
    Base62.Stream(g.length, entropy)
  }

  /** The k-th `Generate` call of a use case built with `g`: it reads `entropy(k)`, and
      what it returns is the k-th entry of `Outcomes(g, entropy)`, `None` standing for an
      error. */
  method GenerateNth(g: Base62Generator, entropy: nat -> seq<Base62.byte>, k: nat) returns (id: string, err: Option<Error>)
    ensures (if err.Some? then None else Some(id)) == Outcomes(g, entropy)(k)
    ensures err.Some? ==> id == ""
  {
    id, err := g.Generate(entropy(k));
  }
}
