/** The link store's contract on its map, shared by both in-memory stores
    (internal/repository/memory/storage.go and internal/app/storage_memory.go):
    saving refuses a taken id, lookup reports a missing one, and no operation ever
    removes or overwrites a link. */
module Links {
  import opened Errors

  /** `newer` keeps every link of `older` unchanged and may add more. */
  predicate Extends(older: map<string, string>, newer: map<string, string>)
  {
    older.Keys <= newer.Keys && forall id :: id in older ==> newer[id] == older[id]
  }

  datatype Saved = Saved(data: map<string, string>, err: Option<Error>)

  /** `Save(id, url)` on a store holding `data`: a taken id is refused with a conflict,
      a fresh one is linked to `url`. */
  function Save(data: map<string, string>, id: string, url: string): (s: Saved)
    ensures s.err == None <==> id !in data
    ensures s.err.Some? ==> s.err == Some(Conflict) && s.data == data
    ensures s.data.Keys == data.Keys + {id}
    ensures s.data[id] == if id in data then data[id] else url
    ensures Extends(data, s.data)
  {
    if id in data then Saved(data, Some(Conflict)) else Saved(data[id := url], None)
  }

  /** `GetByID(id)` on a store holding `data`. */
  function Lookup(data: map<string, string>, id: string): (r: (string, Option<Error>))
    ensures r.1 == None <==> id in data
    ensures r.1 == None ==> r.0 == data[id]
    ensures r.1.Some? ==> r == ("", Some(NotFound))
  {
    if id in data then (data[id], None) else ("", Some(NotFound))
  }

  /** A store only grows: extension is reflexive and transitive, so after any sequence
      of saves every earlier link is still there with its first URL. */
  lemma ExtendsIsPreorder(a: map<string, string>, b: map<string, string>, c: map<string, string>)
    ensures Extends(a, a)
    ensures Extends(a, b) && Extends(b, c) ==> Extends(a, c)
  {
  }

  /** Saving and then looking up the same id returns the URL that id is linked to:
      the one just saved if the id was fresh, the earlier one otherwise. */
  lemma SaveThenLookup(data: map<string, string>, id: string, url: string)
    ensures Lookup(Save(data, id, url).data, id) == (if id in data then data[id] else url, None)
  {
  }

  /** Conflict law: after `Save(id, u1)`, a second `Save(id, u2)` fails with a conflict,
      changes nothing, and the id still resolves to its first URL. */
  lemma ConflictLaw(data: map<string, string>, id: string, u1: string, u2: string)
    ensures Save(Save(data, id, u1).data, id, u2).err == Some(Conflict)
    ensures Save(Save(data, id, u1).data, id, u2).data == Save(data, id, u1).data
    ensures Lookup(Save(Save(data, id, u1).data, id, u2).data, id).0 == if id in data then data[id] else u1
  {
  }

  /** Saving one id leaves the lookup of every other id as it was. */
  lemma SaveIsolated(data: map<string, string>, id: string, url: string, other: string)
    requires other != id
    ensures Lookup(Save(data, id, url).data, other) == Lookup(data, other)
  {
  }

  /** The ids the successful creates among `out` returned, each reply being an id and an
      error. */
  function Returned(out: seq<(string, Option<Error>)>): set<string>
  {
    set i | 0 <= i < |out| && out[i].1 == None :: out[i].0
  }

  /** The successful creates among `out` returned pairwise distinct ids. */
  predicate DistinctIds(out: seq<(string, Option<Error>)>)
  {
    forall i, j :: 0 <= i < j < |out| && out[i].1 == None && out[j].1 == None ==> out[i].0 != out[j].0
  }

  /** Each successful create's id was new to `data` and is linked in `final` to its own
      request's URL; each failed create replied `""`. */
  predicate Linked(data: map<string, string>, urls: seq<string>, final: map<string, string>, out: seq<(string, Option<Error>)>)
    requires |out| == |urls|
  {
    (forall i :: 0 <= i < |out| && out[i].1 == None ==> out[i].0 !in data && out[i].0 in final && final[out[i].0] == urls[i]) &&
    (forall i :: 0 <= i < |out| && out[i].1.Some? ==> out[i].0 == "")
  }

  /** After creates for `urls` took a store from `data` to `final`, replying `out`: the
      ids of the successful creates are pairwise distinct and new to the store, each is
      linked to its own request's URL, failed creates reply `""`, no earlier link changed,
      and the store holds exactly its earlier ids plus the returned ones. */
  predicate Accounts(data: map<string, string>, urls: seq<string>, final: map<string, string>, out: seq<(string, Option<Error>)>)
  {
    |out| == |urls| && DistinctIds(out) && Linked(data, urls, final, out) &&
    Extends(data, final) && final.Keys == data.Keys + Returned(out)
  }

  /** Nothing served yet accounts for itself. */
  lemma AccountsStart(data: map<string, string>)
    ensures Accounts(data, [], data, [])
  {
    assert Returned([]) == {};
  }

  lemma ReturnedStep(out: seq<(string, Option<Error>)>, id: string, err: Option<Error>)
    ensures Returned(out + [(id, err)]) == Returned(out) + (if err == None then {id} else {})
  {
    var o := out + [(id, err)];
    assert forall i :: 0 <= i < |out| ==> o[i] == out[i];
    assert o[|out|] == (id, err);
  }

  lemma DistinctStep(out: seq<(string, Option<Error>)>, id: string, err: Option<Error>)
    requires DistinctIds(out)
    requires err == None ==> id !in Returned(out)
    ensures DistinctIds(out + [(id, err)])
  {
    var o := out + [(id, err)];
    assert forall i :: 0 <= i < |out| ==> o[i] == out[i];
    forall i | 0 <= i < |out| && out[i].1 == None
      ensures out[i].0 in Returned(out)
    {
    }
  }

  lemma LinkedStep(data: map<string, string>, urls: seq<string>, final: map<string, string>, out: seq<(string, Option<Error>)>,
                   url: string, id: string, err: Option<Error>, next: map<string, string>)
    requires |out| == |urls| && Linked(data, urls, final, out) && Extends(final, next)
    requires err == None ==> id !in data && id in next && next[id] == url
    requires err.Some? ==> id == ""
    ensures Linked(data, urls + [url], next, out + [(id, err)])
  {
    var o, u := out + [(id, err)], urls + [url];
    assert forall i :: 0 <= i < |out| ==> o[i] == out[i] && u[i] == urls[i];
    assert o[|out|] == (id, err) && u[|out|] == url;
  }

  /** One more create that either links a fresh id to its URL or fails with `""` and the
      store unchanged keeps the account. */
  lemma AccountsStep(data: map<string, string>, urls: seq<string>, final: map<string, string>, out: seq<(string, Option<Error>)>,
                     url: string, id: string, err: Option<Error>, next: map<string, string>)
    requires Accounts(data, urls, final, out)
    requires err == None ==> id !in final && next == final[id := url]
    requires err.Some? ==> id == "" && next == final
    ensures Accounts(data, urls + [url], next, out + [(id, err)])
  {
    ReturnedStep(out, id, err);
    DistinctStep(out, id, err);
    assert Extends(final, next);
    ExtendsIsPreorder(data, final, next);
    LinkedStep(data, urls, final, out, url, id, err, next);
  }
}
