/** internal/usecase/shortener/usecase.go: the use case that creates short links and
    resolves them, over the repository's in-memory store.

    The id generator is an interface in the source; here its outcomes are an input,
    `gen(k)` being what the k-th `Generate` call returns (`None` for an error). The
    repository interface lets `Exists` fail although the in-memory store never does;
    `existsFails(k)` says whether the check made in attempt `k` fails with a store
    fault, so that the abort path can be reached. */
module Shortener {
  import opened Errors
  import opened Coordinator
  import Links
  import MemoryRepository
  import IdGenerator
  import Base62

  /** The error `CreateShortURL` reports for a failed `Save` of `id`: a conflict becomes
      an "unexpected conflict" error that does not wrap `ErrConflict`; any other store
      error is wrapped as a storage error and stays visible to `errors.Is`. */
  function SaveError(id: string, e: Error): (r: Error)
    ensures !Is(r, Conflict)
    ensures r.UnexpectedConflict? <==> Is(e, Conflict)
    ensures !Is(e, Conflict) ==> (Is(r, StoreFault) <==> Is(e, StoreFault))
    ensures Is(e, Conflict) ==> r == UnexpectedConflict(id)
    ensures !Is(e, Conflict) ==> r.Wrapped? && r.context == SaveFailed && Is(r, e)
  {
    if Is(e, Conflict) then UnexpectedConflict(id) else Wrapped(SaveFailed, e)
  }

  /** The result of `CreateShortURL(url)` on a store holding `data`. With the in-memory
      store it succeeds exactly when the id search finds a free id; it then links that
      fresh id to `url` and nothing else changes. On failure the store is untouched, `""`
      is returned, and the error is the search's error wrapped once more. */
  function CreateOutcome(data: map<string, string>, url: string, gen: nat -> Option<string>, fails: nat -> bool, attempts: int): (c: Created)
    ensures c.err == None <==> Verdict(Trace(gen, fails, data.Keys, 0, attempts)).Found?
    ensures c.err == None ==> c.id == Verdict(Trace(gen, fails, data.Keys, 0, attempts)).id
    ensures c.err == None ==> c.id !in data && c.data == data[c.id := url]
    ensures c.err.Some? ==> c.id == "" && c.data == data
    ensures c.err.Some? ==> c.err.value.Wrapped? && c.err.value.context == CouldNotGenerate && !Is(c.err.value, Conflict)
    ensures c.err.Some? ==> Is(c.err.value, Outcome(Verdict(Trace(gen, fails, data.Keys, 0, attempts))).1.value)
    ensures Links.Extends(data, c.data)
  {
    var v := Verdict(Trace(gen, fails, data.Keys, 0, attempts));
    var (id, genErr) := Outcome(v);
    if genErr.Some? then
      Created(data, "", Some(Wrapped(CouldNotGenerate, genErr.value)))
    else
      FoundWasGeneratedAndFree(gen, fails, data.Keys, attempts);
      var s := Links.Save(data, id, url);
      match s.err
      case None => Created(s.data, id, None)
      case Some(e) => Created(s.data, "", Some(SaveError(id, e)))
  }

  /** Round trip: after a successful create, looking the returned id up yields the URL. */
  lemma CreateThenLookup(data: map<string, string>, url: string, gen: nat -> Option<string>, fails: nat -> bool, attempts: int)
    ensures var c := CreateOutcome(data, url, gen, fails, attempts);
      c.err == None ==> PassNotFound(Links.Lookup(c.data, c.id).0, Links.Lookup(c.data, c.id).1) == (url, None)
  {
  }

  /** Uniqueness: two successful creates in a row, on the same store, return different ids,
      and the first link survives the second create. */
  lemma SuccessiveIdsDiffer(data: map<string, string>, u1: string, u2: string,
                            gen1: nat -> Option<string>, gen2: nat -> Option<string>,
                            fails1: nat -> bool, fails2: nat -> bool, attempts: int)
    ensures var c1 := CreateOutcome(data, u1, gen1, fails1, attempts);
      var c2 := CreateOutcome(c1.data, u2, gen2, fails2, attempts);
      c1.err == None && c2.err == None ==> c1.id != c2.id && Links.Lookup(c2.data, c1.id) == (u1, None)
  {
  }

  /** Exhaustion: a generator that only yields ids already stored makes the create fail
      after exactly `attempts` `Generate` calls, leaving the store unchanged. */
  lemma CollisionsExhaust(data: map<string, string>, url: string, gen: nat -> Option<string>, attempts: nat)
    requires forall k: nat :: gen(k).Some? && gen(k).value in data
    ensures |Trace(gen, (k: nat) => false, data.Keys, 0, attempts)| == attempts
    ensures CreateOutcome(data, url, gen, (k: nat) => false, attempts) ==
      Created(data, "", Some(Wrapped(CouldNotGenerate, Exhausted)))
  {
    CollidingGeneratorExhausts(gen, (k: nat) => false, data.Keys, attempts);
  }

  /** With the Base62 generator, every id a successful create returns has the generator's
      length and only base62 characters; with length 8 it passes `IsValidBase62String`. */
  lemma {:induction false} CreatedIdsAreBase62(data: map<string, string>, url: string, g: IdGenerator.Base62Generator,
                                               entropy: nat -> seq<Base62.byte>, fails: nat -> bool, attempts: int)
    ensures var c := CreateOutcome(data, url, IdGenerator.Outcomes(g, entropy), fails, attempts);
      c.err == None ==>
        |c.id| == g.length && Base62.AllAlphanumeric(c.id) &&
        (g.length == 8 ==> Base62.IsValidBase62String(c.id))
  {
    var gen := IdGenerator.Outcomes(g, entropy);
    var c := CreateOutcome(data, url, gen, fails, attempts);
    if c.err == None {
      FoundWasGeneratedAndFree(gen, fails, data.Keys, attempts);
      var j: nat :| j < attempts && gen(j) == Some(c.id);
      assert Base62.RandomBase62(g.length, entropy(j)) == Some(c.id);
    }
  }

  /** A use case over a store holding `data` serving `reqs` one after the other: the final
      store and, for each request, the id and error `CreateShortURL` returned. */
  function Serve(data: map<string, string>, reqs: seq<Request<nat -> Option<string>>>, attempts: int): (r: (map<string, string>, seq<(string, Option<Error>)>))
    ensures |r.1| == |reqs|
    decreases |reqs|
  {
    if reqs == [] then (data, [])
    else
      var (d, out) := Serve(data, reqs[..|reqs| - 1], attempts);
      var q := reqs[|reqs| - 1];
      var c := CreateOutcome(d, q.url, q.source, q.fails, attempts);
      (c.data, out + [(c.id, c.err)])
  }

  /** Any sequence of creates: the ids of the successful ones are pairwise distinct and new
      to the store, each is linked to its own request's URL, failed creates return `""`,
      no earlier link changes, and the store ends up holding exactly its earlier ids plus
      the returned ones. */
  lemma {:induction false} ServeLaws(data: map<string, string>, reqs: seq<Request<nat -> Option<string>>>, attempts: int)
    ensures Links.Accounts(data, Urls(reqs), Serve(data, reqs, attempts).0, Serve(data, reqs, attempts).1)
    decreases |reqs|
  {
    if reqs == [] {
      Links.AccountsStart(data);
    } else {
      var front, q := reqs[..|reqs| - 1], reqs[|reqs| - 1];
      ServeLaws(data, front, attempts);
      var (d, out) := Serve(data, front, attempts);
      var c := CreateOutcome(d, q.url, q.source, q.fails, attempts);
      Links.AccountsStep(data, Urls(front), d, out, q.url, c.id, c.err, c.data);
    }
  }

  /** Not-found law: on a new store, after any sequence of creates, an id resolves to the
      URL of the create that returned it, and every id no create returned is not found. */
  lemma ServeFromEmpty(reqs: seq<Request<nat -> Option<string>>>, attempts: int, id: string)
    ensures var (final, out) := Serve(map[], reqs, attempts);
      (id in Links.Returned(out) <==> id in final) &&
      (id !in Links.Returned(out) ==> PassNotFound(Links.Lookup(final, id).0, Links.Lookup(final, id).1) == ("", Some(NotFound))) &&
      (forall i :: 0 <= i < |out| && out[i].1 == None ==>
        PassNotFound(Links.Lookup(final, out[i].0).0, Links.Lookup(final, out[i].0).1) == (reqs[i].url, None))
  {
    ServeLaws(map[], reqs, attempts);
  }

  /** `uc.repo.Exists` as the use case sees it through the repository interface: the
      in-memory store answers with membership and a nil error; `fault` stands for a
      backing store whose check fails. */
  method CheckExists(repo: MemoryRepository.Storage, id: string, fault: bool) returns (present: bool, err: Option<Error>)
    ensures fault ==> err == Some(StoreFault)
    ensures !fault ==> err == None && (present <==> id in repo.data)
  {
    if fault {
      return false, Some(StoreFault);
    }
    present, err := repo.Exists(id);
  }

  class UseCase {
    const repo: MemoryRepository.Storage
    const attempts: int

    /** `NewUseCase`: the generator is not a field here; its outcomes are passed to each call. */
    constructor (repo: MemoryRepository.Storage, attempts: int)
      ensures this.repo == repo && this.attempts == attempts
    {
      this.repo := repo;
      this.attempts := attempts;
    }

    /** `genUniqueID`: up to `attempts` times, take the next generated id (a generation
        error uses up the attempt and skips the check), check it against the repository
        (a failing check aborts at once), and return the first id that is not taken.
        `calls` records the attempts made; the store is only read. */
    method GenUniqueID(gen: nat -> Option<string>, existsFails: nat -> bool)
      returns (shortID: string, err: Option<Error>, ghost calls: seq<Probe>)
      ensures calls == Trace(gen, existsFails, repo.data.Keys, 0, attempts)
      ensures (shortID, err) == Outcome(Verdict(calls))
      ensures err == None ==> shortID !in repo.data && exists j: nat :: j < attempts && gen(j) == Some(shortID)
      ensures err.Some? ==> shortID == "" && (err == Some(Exhausted) || err == Some(Wrapped(CheckExistence, StoreFault)))
    {
      ghost var taken := repo.data.Keys;
      calls := [];
      var k: nat := 0;
      while k < attempts
        invariant k == 0 || k <= attempts
        invariant |calls| == k
        invariant forall i :: 0 <= i < k ==> calls[i] == ProbeAt(gen, existsFails, taken, i) && Continues(calls[i])
      {
        var candidate := gen(k);
        if candidate.None? {
          calls := calls + [GenFailed];
          k := k + 1;
          continue;
        }
        var id := candidate.value;
        var present, checkErr := CheckExists(repo, id, existsFails(k));
        if checkErr.Some? {
          StopHere(gen, existsFails, taken, attempts, calls, Checked(id, CheckFailed));
          calls := calls + [Checked(id, CheckFailed)];
          return "", Some(Wrapped(CheckExistence, checkErr.value)), calls;
        }
        if !present {
          StopHere(gen, existsFails, taken, attempts, calls, Checked(id, Free));
          calls := calls + [Checked(id, Free)];
          return id, None, calls;
        }
        calls := calls + [Checked(id, Taken)];
        k := k + 1;
      }
      RanOut(gen, existsFails, taken, attempts, calls);
      return "", Some(Exhausted), calls;
    }

    /** `CreateShortURL`: find a free id, then save the link under it. A failed search
        saves nothing; a failed save is reported through `SaveError`. */
    method CreateShortURL(originalURL: string, gen: nat -> Option<string>, existsFails: nat -> bool)
      returns (shortID: string, err: Option<Error>, ghost calls: seq<Probe>)
      modifies repo
      ensures calls == Trace(gen, existsFails, old(repo.data).Keys, 0, attempts)
      ensures Created(repo.data, shortID, err) == CreateOutcome(old(repo.data), originalURL, gen, existsFails, attempts)
    {
      var id, genErr;
      id, genErr, calls := GenUniqueID(gen, existsFails);
      if genErr.Some? {
        return "", Some(Wrapped(CouldNotGenerate, genErr.value)), calls;
      }
      var saveErr := repo.Save(id, originalURL);
      match saveErr
      case Some(e) => return "", Some(SaveError(id, e)), calls;
      case None => return id, None, calls;
    }

    /** `GetOriginalURL`: the stored URL; a `NotFound` passes through unchanged, any other
        store error would be wrapped. The in-memory store only ever reports `NotFound`. */
    method GetOriginalURL(shortID: string) returns (url: string, err: Option<Error>)
      ensures (url, err) == PassNotFound(Links.Lookup(repo.data, shortID).0, Links.Lookup(repo.data, shortID).1)
      ensures err == None <==> shortID in repo.data
      ensures err == None ==> url == repo.data[shortID]
      ensures err.Some? ==> url == "" && err == Some(NotFound)
    {
      var originalURL, getErr := repo.GetByID(shortID);
      var r := PassNotFound(originalURL, getErr);
      url, err := r.0, r.1;
    }

    /** Round trip on a live store: create a link, then resolve the id it returned. */
    method CreateThenGet(originalURL: string, gen: nat -> Option<string>, existsFails: nat -> bool)
      returns (shortID: string, err: Option<Error>, url: string, getErr: Option<Error>)
      modifies repo
      ensures err == None ==> getErr == None && url == originalURL && shortID !in old(repo.data)
      ensures err.Some? ==> repo.data == old(repo.data)
    {
      ghost var calls;
      shortID, err, calls := CreateShortURL(originalURL, gen, existsFails);
      url, getErr := GetOriginalURL(shortID);
    }
  }
}
