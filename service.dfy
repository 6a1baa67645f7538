/** internal/app/service.go: the earlier revision of the shortening service, which calls
    the base62 helper itself with its configured id length and works over the
    application's in-memory store.

    The random bytes the k-th attempt reads are `entropy(k)`. The store interface of
    internal/app/storage.go lets `Exists` fail although the in-memory store never does;
    `existsFails(k)` says whether the check made in attempt `k` fails with a store fault. */
module AppService {
  import opened Errors
  import opened Coordinator
  import Links
  import AppStorage
  import Base62

  /** The error `CreateShortURL` reports for a failed `Save`: every store error, a conflict
      included, is wrapped as a storage error, so `errors.Is` still sees the cause. */
  function WrapSaveError(e: Error): (r: Error)
    ensures Is(r, e)
    ensures r.Wrapped? && r.context == SaveFailed
    ensures Is(r, Conflict) <==> Is(e, Conflict)
  {
    Wrapped(SaveFailed, e)
  }

  /** The result of `CreateShortURL(url)` on a store holding `data`. It succeeds exactly
      when the id search finds a free id, which then has the configured length and only
      base62 characters, and is linked to `url` with nothing else changed. On failure the
      store is untouched, `""` is returned, and the search's error comes back unchanged. */
  function CreateOutcome(data: map<string, string>, url: string, idLength: nat, entropy: nat -> seq<Base62.byte>,
                         fails: nat -> bool, attempts: int): (c: Created)
    ensures c.err == None <==> Verdict(Trace(Base62.Stream(idLength, entropy), fails, data.Keys, 0, attempts)).Found?
    ensures c.err == None ==> c.id == Verdict(Trace(Base62.Stream(idLength, entropy), fails, data.Keys, 0, attempts)).id
    ensures c.err == None ==> c.id !in data && c.data == data[c.id := url]
    ensures c.err == None ==> |c.id| == idLength && Base62.AllAlphanumeric(c.id)
    ensures c.err.Some? ==> c.id == "" && c.data == data
    ensures c.err.Some? ==> c.err == Some(Exhausted) || c.err == Some(Wrapped(CheckExistence, StoreFault))
    ensures c.err.Some? ==> c.err == Outcome(Verdict(Trace(Base62.Stream(idLength, entropy), fails, data.Keys, 0, attempts))).1
    ensures Links.Extends(data, c.data)
  {
    var gen := Base62.Stream(idLength, entropy);
    var v := Verdict(Trace(gen, fails, data.Keys, 0, attempts));
    var (id, genErr) := Outcome(v);
    if genErr.Some? then
      Created(data, "", genErr)
    else
      FoundWasGeneratedAndFree(gen, fails, data.Keys, attempts);
      GeneratedIdShape(idLength, entropy, id, attempts);
      var s := Links.Save(data, id, url);
      match s.err
      case None => Created(s.data, id, None)
      case Some(e) => Created(s.data, "", Some(WrapSaveError(e)))
  }

  /** An id that some attempt within budget generated has the configured length and only
      base62 characters. */
  lemma GeneratedIdShape(idLength: nat, entropy: nat -> seq<Base62.byte>, id: string, attempts: int)
    requires exists j: nat :: j < attempts && Base62.Stream(idLength, entropy)(j) == Some(id)
    ensures |id| == idLength && Base62.AllAlphanumeric(id)
  {
    var j: nat :| j < attempts && Base62.Stream(idLength, entropy)(j) == Some(id);
  }

  /** Round trip: after a successful create, looking the returned id up yields the URL. */
  lemma CreateThenLookup(data: map<string, string>, url: string, idLength: nat, entropy: nat -> seq<Base62.byte>,
                         fails: nat -> bool, attempts: int)
    ensures var c := CreateOutcome(data, url, idLength, entropy, fails, attempts);
      c.err == None ==> PassNotFound(Links.Lookup(c.data, c.id).0, Links.Lookup(c.data, c.id).1) == (url, None)
  {
  }

  /** With the default id length of 8, every id a successful create returns passes
      `IsValidBase62String`, the format the redirect route accepts. */
  lemma DefaultLengthIdsAreValid(data: map<string, string>, url: string, entropy: nat -> seq<Base62.byte>,
                                 fails: nat -> bool, attempts: int)
    ensures var c := CreateOutcome(data, url, 8, entropy, fails, attempts);
      c.err == None ==> Base62.IsValidBase62String(c.id)
  {
  }

  /** A service over a store holding `data` serving `reqs` one after the other, the
      requests' sources being the random bytes of their attempts: the final store and, for
      each request, the id and error `CreateShortURL` returned. */
  function Serve(data: map<string, string>, reqs: seq<Request<nat -> seq<Base62.byte>>>, idLength: nat, attempts: int)
    : (r: (map<string, string>, seq<(string, Option<Error>)>))
    ensures |r.1| == |reqs|
    decreases |reqs|
  {
    if reqs == [] then (data, [])
    else
      var (d, out) := Serve(data, reqs[..|reqs| - 1], idLength, attempts);
      var q := reqs[|reqs| - 1];
      var c := CreateOutcome(d, q.url, idLength, q.source, q.fails, attempts);
      (c.data, out + [(c.id, c.err)])
  }

  /** Any sequence of creates: the ids of the successful ones are pairwise distinct and new
      to the store, each is linked to its own request's URL, failed creates return `""`,
      no earlier link changes, and the store ends up holding exactly its earlier ids plus
      the returned ones. */
  lemma {:induction false} ServeLaws(data: map<string, string>, reqs: seq<Request<nat -> seq<Base62.byte>>>, idLength: nat, attempts: int)
    ensures Links.Accounts(data, Urls(reqs), Serve(data, reqs, idLength, attempts).0, Serve(data, reqs, idLength, attempts).1)
    decreases |reqs|
  {
    if reqs == [] {
      Links.AccountsStart(data);
    } else {
      var front, q := reqs[..|reqs| - 1], reqs[|reqs| - 1];
      ServeLaws(data, front, idLength, attempts);
      var (d, out) := Serve(data, front, idLength, attempts);
      var c := CreateOutcome(d, q.url, idLength, q.source, q.fails, attempts);
      Links.AccountsStep(data, Urls(front), d, out, q.url, c.id, c.err, c.data);
    }
  }

  /** Not-found law: on a new store, after any sequence of creates, an id resolves to the
      URL of the create that returned it, and every id no create returned is not found. */
  lemma ServeFromEmpty(reqs: seq<Request<nat -> seq<Base62.byte>>>, idLength: nat, attempts: int, id: string)
    ensures var (final, out) := Serve(map[], reqs, idLength, attempts);
      (id in Links.Returned(out) <==> id in final) &&
      (id !in Links.Returned(out) ==> PassNotFound(Links.Lookup(final, id).0, Links.Lookup(final, id).1) == ("", Some(NotFound))) &&
      (forall i :: 0 <= i < |out| && out[i].1 == None ==>
        PassNotFound(Links.Lookup(final, out[i].0).0, Links.Lookup(final, out[i].0).1) == (reqs[i].url, None))
  {
    ServeLaws(map[], reqs, idLength, attempts);
  }

  /** `s.storage.Exists` through the store interface: the in-memory store answers with
      membership and a nil error; `fault` stands for a backing store whose check fails. */
  method CheckExists(storage: AppStorage.InMemoryStorage, id: string, fault: bool) returns (present: bool, err: Option<Error>)
    ensures fault ==> err == Some(StoreFault)
    ensures !fault ==> err == None && (present <==> id in storage.data)
  {
    if fault {
      return false, Some(StoreFault);
    }
    present, err := storage.Exists(id);
  }

  class ShortenerService {
    const storage: AppStorage.InMemoryStorage
    const idLength: nat
    const attempts: int

    /** `NewShortenerService`. */
    constructor (storage: AppStorage.InMemoryStorage, idLength: nat, attempts: int)
      ensures this.storage == storage && this.idLength == idLength && this.attempts == attempts
    {
      this.storage := storage;
      this.idLength := idLength;
      this.attempts := attempts;
    }

    /** `genUnicID`: up to `attempts` times, generate an id of `idLength` characters (a
        failed generation uses up the attempt and skips the check), check it against the
        store (a failing check aborts at once), and return the first id that is not taken.
        `calls` records the attempts made; the store is only read. */
    method GenUnicID(entropy: nat -> seq<Base62.byte>, existsFails: nat -> bool)
      returns (shortID: string, err: Option<Error>, ghost calls: seq<Probe>)
      ensures calls == Trace(Base62.Stream(idLength, entropy), existsFails, storage.data.Keys, 0, attempts)
      ensures (shortID, err) == Outcome(Verdict(calls))
      ensures err == None ==> shortID !in storage.data && |shortID| == idLength && Base62.AllAlphanumeric(shortID)
      ensures err.Some? ==> shortID == "" && (err == Some(Exhausted) || err == Some(Wrapped(CheckExistence, StoreFault)))
    {
      ghost var gen, taken := Base62.Stream(idLength, entropy), storage.data.Keys;
      calls := [];
      var k: nat := 0;
      while k < attempts
        invariant k == 0 || k <= attempts
        invariant |calls| == k
        invariant forall i :: 0 <= i < k ==> calls[i] == ProbeAt(gen, existsFails, taken, i) && Continues(calls[i])
      {
        var candidate := Base62.TryGenerate(idLength, entropy(k));
        if candidate.None? {
          calls := calls + [GenFailed];
          k := k + 1;
          continue;
        }
        var randomID := candidate.value;
        var present, checkErr := CheckExists(storage, randomID, existsFails(k));
        if checkErr.Some? {
          StopHere(gen, existsFails, taken, attempts, calls, Checked(randomID, CheckFailed));
          calls := calls + [Checked(randomID, CheckFailed)];
          return "", Some(Wrapped(CheckExistence, checkErr.value)), calls;
        }
        if !present {
          StopHere(gen, existsFails, taken, attempts, calls, Checked(randomID, Free));
          calls := calls + [Checked(randomID, Free)];
          return randomID, None, calls;
        }
        calls := calls + [Checked(randomID, Taken)];
        k := k + 1;
      }
      RanOut(gen, existsFails, taken, attempts, calls);
      return "", Some(Exhausted), calls;
    }

    /** `CreateShortURL`: find a free id, then save the link under it. A failed search
        returns its error unchanged and saves nothing; any failed save is wrapped. */
    method CreateShortURL(originalURL: string, entropy: nat -> seq<Base62.byte>, existsFails: nat -> bool)
      returns (shortID: string, err: Option<Error>, ghost calls: seq<Probe>)
      modifies storage
      ensures calls == Trace(Base62.Stream(idLength, entropy), existsFails, old(storage.data).Keys, 0, attempts)
      ensures Created(storage.data, shortID, err) == CreateOutcome(old(storage.data), originalURL, idLength, entropy, existsFails, attempts)
    {
      var id, genErr;
      id, genErr, calls := GenUnicID(entropy, existsFails);
      if genErr.Some? {
        return "", genErr, calls;
      }
      var saveErr := storage.Save(id, originalURL);
      match saveErr
      case None => return id, None, calls;
      case Some(e) => return "", Some(WrapSaveError(e)), calls;
    }

    /** `GetOriginalURL`: the stored URL; a `NotFound` passes through unchanged, any other
        store error would be wrapped. The in-memory store only ever reports `NotFound`. */
    method GetOriginalURL(id: string) returns (url: string, err: Option<Error>)
      ensures (url, err) == PassNotFound(Links.Lookup(storage.data, id).0, Links.Lookup(storage.data, id).1)
      ensures err == None <==> id in storage.data
      ensures err == None ==> url == storage.data[id]
      ensures err.Some? ==> url == "" && err == Some(NotFound)
    {
      var originalURL, getErr := storage.GetByID(id);
      var r := PassNotFound(originalURL, getErr);
      url, err := r.0, r.1;
    }

    /** Round trip on a live store: create a link, then resolve the id it returned. */
    method CreateThenGet(originalURL: string, entropy: nat -> seq<Base62.byte>, existsFails: nat -> bool)
      returns (shortID: string, err: Option<Error>, url: string, getErr: Option<Error>)
      modifies storage
      ensures err == None ==> getErr == None && url == originalURL && shortID !in old(storage.data)
      ensures err.Some? ==> storage.data == old(storage.data)
    {
      ghost var calls;
      shortID, err, calls := CreateShortURL(originalURL, entropy, existsFails);
      url, getErr := GetOriginalURL(shortID);
    }
  }
}
