/** internal/app/storage_memory.go: the earlier in-memory implementation of
    the short-link store, a map from short id to original URL that its methods read and
    `Save` updates in place. The request context argument of each method is not modelled. */
module AppStorage {
  import opened Errors
  import Links

  class InMemoryStorage {
    var data: map<string, string>

    /** `NewInMemoryStorage`: a store with no links. */
    constructor ()
      ensures data == map[]
    {
      data := map[];
    }

    /** `Save`: refuses an id that is already present with `ErrConflict` and leaves the
        map as it was; otherwise links `id` to `originalURL` and touches no other id. */
    method Save(id: string, originalURL: string) returns (err: Option<Error>)
      modifies this
      ensures err == None <==> id !in old(data)
      ensures err.Some? ==> err == Some(Conflict) && data == old(data)
      ensures err == None ==> data == old(data)[id := originalURL]
      ensures Links.Saved(data, err) == Links.Save(old(data), id, originalURL)
    {
      if id in data {
        return Some(Conflict);
      }
      data := data[id := originalURL];
      return None;
    }

    /** `GetByID`: the URL stored under `id`, or `ErrNotFound` exactly when there is none. */
    method GetByID(id: string) returns (url: string, err: Option<Error>)
      ensures err == Some(NotFound) <==> id !in data
      ensures err == None <==> id in data
      ensures err == None ==> url == data[id]
      ensures err.Some? ==> url == ""
    {
      if id !in data {
        return "", Some(NotFound);
      }
      return data[id], None;
    }

    /** `Exists`: map membership, never an error. */
    method Exists(id: string) returns (present: bool, err: Option<Error>)
      ensures present <==> id in data
      ensures err == None
    {
      present := id in data;
      err := None;
    }

    /** `Close`: nothing to release; always a nil error. */
    method Close() returns (err: Option<Error>)
      ensures err == None
    {
      err := None;
    }
  }

  /** Conflict law on a live store: saving the same id twice, the second save conflicts
      and the id keeps the URL it had after the first. */
  method SaveTwice(s: InMemoryStorage, id: string, u1: string, u2: string)
    returns (first: Option<Error>, second: Option<Error>, url: string, err: Option<Error>)
    modifies s
    ensures first == None <==> id !in old(s.data)
    ensures second == Some(Conflict)
    ensures err == None && url == if id in old(s.data) then old(s.data)[id] else u1
    ensures Links.Extends(old(s.data), s.data) && s.data.Keys == old(s.data).Keys + {id}
  {
    first := s.Save(id, u1);
    second := s.Save(id, u2);
    url, err := s.GetByID(id);
  }
}
