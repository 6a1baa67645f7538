/** The bounded retry loop shared by every revision of the short-ID search
    (`GenUnicID` in internal/helper/base62.go, `genUnicID` in internal/app/service.go,
    `genUniqueID` in internal/usecase/shortener/usecase.go), stated as a specification.

    Each attempt calls the generator once. A failed generation consumes the attempt and
    skips the existence check; a candidate is then checked against the store, and the
    loop stops at the first candidate that is free or whose check fails. `Trace` is the
    record of the attempts one run makes, `Verdict` how the run ended, and `Outcome` the
    `(id, error)` pair the loop returns. */
module Coordinator {
  import opened Errors

  /** The answer of one existence check. */
  datatype Answer = Taken | Free | CheckFailed

  /** One attempt: either the generator failed (and no check was made),
      or it produced `id` and the store was asked about it. */
  datatype Probe = GenFailed | Checked(id: string, answer: Answer)

  datatype Ending = Found(id: string) | Aborted(id: string) | GaveUp

  /** What a create request leaves behind: the store's map, the returned id and error. */
  datatype Created = Created(data: map<string, string>, id: string, err: Option<Error>)

  /** The attempt numbered `k`: `gen(k)` is the k-th generator outcome, `fails(k)` says
      whether the existence check made in that attempt fails, `taken` is the key set. */
  function ProbeAt(gen: nat -> Option<string>, fails: nat -> bool, taken: set<string>, k: nat): Probe
  {
    match gen(k)
    case None => GenFailed
    case Some(id) => Checked(id, if fails(k) then CheckFailed else if id in taken then Taken else Free)
  }

  /** The loop goes on after this attempt: the generation failed or the id collided. */
  predicate Continues(p: Probe)
  {
    p.GenFailed? || p.answer == Taken
  }

  /** The attempts made from attempt `k` on, with `attempts` the budget (Go's
      `for range attempts` runs no iteration when `attempts <= 0`). The contract
      characterises the run: it makes the attempts in order, goes on only past
      attempts that continue, and stops early only at one that does not. */
  function Trace(gen: nat -> Option<string>, fails: nat -> bool, taken: set<string>, k: nat, attempts: int): (t: seq<Probe>)
    ensures attempts <= k ==> t == []
    ensures attempts > k ==> 1 <= |t| <= attempts - k
    ensures forall i :: 0 <= i < |t| ==> t[i] == ProbeAt(gen, fails, taken, k + i)
    ensures forall i :: 0 <= i < |t| - 1 ==> Continues(t[i])
    ensures |t| > 0 && Continues(t[|t| - 1]) ==> |t| == attempts - k
    decreases attempts - k
  {
    if attempts <= k then []
    else
      var p := ProbeAt(gen, fails, taken, k);
      if Continues(p) then [p] + Trace(gen, fails, taken, k + 1, attempts) else [p]
  }

  /** The contract of `Trace` pins the run down: any record of attempts that makes the
      attempts in order, goes on only past attempts that continue, and ends at the first
      attempt that does not continue or when the budget is spent, is the trace. */
  lemma {:induction false} TraceIsUnique(gen: nat -> Option<string>, fails: nat -> bool, taken: set<string>, attempts: int, t: seq<Probe>)
    requires forall i :: 0 <= i < |t| ==> t[i] == ProbeAt(gen, fails, taken, i)
    requires forall i :: 0 <= i < |t| - 1 ==> Continues(t[i])
    requires |t| <= attempts || t == []
    requires t == [] ==> attempts <= 0
    requires t != [] && Continues(t[|t| - 1]) ==> |t| == attempts
    ensures t == Trace(gen, fails, taken, 0, attempts)
  {
    var u := Trace(gen, fails, taken, 0, attempts);
    if t != [] {
      var n := |t| - 1;
      if Continues(t[n]) {
        assert u[|u| - 1] == ProbeAt(gen, fails, taken, |u| - 1);
      } else {
        StopsAtFirstStop(gen, fails, taken, attempts, n);
      }
    }
  }

  /** The loop stops at attempt `|prefix|`: every earlier attempt continued, this one did
      not. The record made so far plus this attempt is the whole trace, and the run found
      the id if its check said free and aborted if its check failed. */
  lemma StopHere(gen: nat -> Option<string>, fails: nat -> bool, taken: set<string>, attempts: int, prefix: seq<Probe>, p: Probe)
    requires |prefix| < attempts
    requires forall i :: 0 <= i < |prefix| ==> prefix[i] == ProbeAt(gen, fails, taken, i) && Continues(prefix[i])
    requires p == ProbeAt(gen, fails, taken, |prefix|) && !Continues(p)
    ensures prefix + [p] == Trace(gen, fails, taken, 0, attempts)
    ensures Verdict(prefix + [p]) == if p.answer == Free then Found(p.id) else Aborted(p.id)
  {
    var t := prefix + [p];
    assert t[|t| - 1] == p;
    TraceIsUnique(gen, fails, taken, attempts, t);
  }

  /** The loop ran out of budget with every attempt continuing: the record is the whole
      trace and the run gave up. */
  lemma RanOut(gen: nat -> Option<string>, fails: nat -> bool, taken: set<string>, attempts: int, done: seq<Probe>)
    requires |done| == attempts || (done == [] && attempts <= 0)
    requires forall i :: 0 <= i < |done| ==> done[i] == ProbeAt(gen, fails, taken, i) && Continues(done[i])
    ensures done == Trace(gen, fails, taken, 0, attempts)
    ensures Verdict(done) == GaveUp
  {
    assert done != [] ==> Continues(done[|done| - 1]);
    TraceIsUnique(gen, fails, taken, attempts, done);
  }

  /** How a run ended, read off its last attempt. */
  function Verdict(t: seq<Probe>): Ending
  {
    if t == [] then GaveUp
    else match t[|t| - 1]
      case Checked(id, Free) => Found(id)
      case Checked(id, CheckFailed) => Aborted(id)
      case _ => GaveUp
  }

  /** What the loop returns: the free id and a nil error, or `""` and the error. */
  function Outcome(v: Ending): (r: (string, Option<Error>))
    ensures r.1 == None <==> v.Found?
    ensures v.Found? ==> r.0 == v.id
    ensures r.1.Some? ==> r.0 == ""
    ensures v.Aborted? ==> r.1 == Some(Wrapped(CheckExistence, StoreFault))
    ensures v.GaveUp? ==> r.1 == Some(Exhausted)
  {
    match v
    case Found(id) => (id, None)
    case Aborted(_) => ("", Some(Wrapped(CheckExistence, StoreFault)))
    case GaveUp => ("", Some(Exhausted))
  }

  /** The number of existence checks a run made (attempts whose generation succeeded). */
  function Checks(t: seq<Probe>): (n: nat)
    ensures n <= |t|
  {
    if t == [] then 0 else Checks(t[..|t| - 1]) + (if t[|t| - 1].Checked? then 1 else 0)
  }

  /** If attempt `j` is within budget, does not continue, and every attempt before it
      continued, then the run stops exactly there: `j + 1` generator calls in all. */
  lemma {:induction false} StopsAtFirstStop(gen: nat -> Option<string>, fails: nat -> bool, taken: set<string>, attempts: int, j: nat)
    requires j < attempts
    requires !Continues(ProbeAt(gen, fails, taken, j))
    requires forall i :: 0 <= i < j ==> Continues(ProbeAt(gen, fails, taken, i))
    ensures |Trace(gen, fails, taken, 0, attempts)| == j + 1
  {
    var t := Trace(gen, fails, taken, 0, attempts);
    assert t[|t| - 1] == ProbeAt(gen, fails, taken, |t| - 1);
    assert j < |t| ==> t[j] == ProbeAt(gen, fails, taken, j);
  }

  /** The loop returns `id` exactly when some attempt within budget produced `id`, its
      check said free, and every earlier attempt failed to generate or collided. */
  lemma {:induction false} FoundIsFirstFree(gen: nat -> Option<string>, fails: nat -> bool, taken: set<string>, attempts: int, id: string)
    ensures Verdict(Trace(gen, fails, taken, 0, attempts)) == Found(id) <==>
      exists j: nat :: j < attempts && ProbeAt(gen, fails, taken, j) == Checked(id, Free) &&
        forall i :: 0 <= i < j ==> Continues(ProbeAt(gen, fails, taken, i))
  {
    var t := Trace(gen, fails, taken, 0, attempts);
    if Verdict(t) == Found(id) {
      var j: nat := |t| - 1;
      assert ProbeAt(gen, fails, taken, j) == Checked(id, Free);
      assert forall i :: 0 <= i < j ==> Continues(ProbeAt(gen, fails, taken, i)) by {
        forall i | 0 <= i < j ensures Continues(ProbeAt(gen, fails, taken, i)) {
          assert t[i] == ProbeAt(gen, fails, taken, i);
        }
      }
    }
    if exists j: nat :: j < attempts && ProbeAt(gen, fails, taken, j) == Checked(id, Free) &&
        forall i :: 0 <= i < j ==> Continues(ProbeAt(gen, fails, taken, i)) {
      var j: nat :| j < attempts && ProbeAt(gen, fails, taken, j) == Checked(id, Free) &&
        forall i :: 0 <= i < j ==> Continues(ProbeAt(gen, fails, taken, i));
      StopsAtFirstStop(gen, fails, taken, attempts, j);
      assert t[j] == ProbeAt(gen, fails, taken, j);
    }
  }

  /** A failing existence check aborts the loop at once: the run ends with that check,
      so no generator call follows it. */
  lemma {:induction false} AbortIsImmediate(gen: nat -> Option<string>, fails: nat -> bool, taken: set<string>, attempts: int, j: nat)
    requires j < attempts
    requires gen(j).Some? && fails(j)
    requires forall i :: 0 <= i < j ==> Continues(ProbeAt(gen, fails, taken, i))
    ensures |Trace(gen, fails, taken, 0, attempts)| == j + 1
    ensures Verdict(Trace(gen, fails, taken, 0, attempts)) == Aborted(gen(j).value)
  {
    StopsAtFirstStop(gen, fails, taken, attempts, j);
    var t := Trace(gen, fails, taken, 0, attempts);
    assert t[j] == ProbeAt(gen, fails, taken, j);
  }

  /** The loop gives up exactly when every attempt of the budget continued, and then
      it has called the generator exactly `attempts` times (none when `attempts <= 0`). */
  lemma {:induction false} GaveUpIffAllContinue(gen: nat -> Option<string>, fails: nat -> bool, taken: set<string>, attempts: int)
    ensures Verdict(Trace(gen, fails, taken, 0, attempts)) == GaveUp <==>
      forall i :: 0 <= i < attempts ==> Continues(ProbeAt(gen, fails, taken, i))
    ensures Verdict(Trace(gen, fails, taken, 0, attempts)) == GaveUp ==>
      |Trace(gen, fails, taken, 0, attempts)| == if attempts <= 0 then 0 else attempts
  {
    var t := Trace(gen, fails, taken, 0, attempts);
    if Verdict(t) == GaveUp && t != [] {
      assert Continues(t[|t| - 1]);
      forall i | 0 <= i < attempts ensures Continues(ProbeAt(gen, fails, taken, i)) {
        assert t[i] == ProbeAt(gen, fails, taken, i);
      }
    }
    if forall i :: 0 <= i < attempts ==> Continues(ProbeAt(gen, fails, taken, i)) {
      if t != [] {
        assert t[|t| - 1] == ProbeAt(gen, fails, taken, |t| - 1);
      }
    }
  }

  /** A generator that only ever yields ids already in the store, against a store whose
      checks do not fail, exhausts the budget after exactly `attempts` generator calls
      and `attempts` existence checks. */
  lemma {:induction false} CollidingGeneratorExhausts(gen: nat -> Option<string>, fails: nat -> bool, taken: set<string>, attempts: nat)
    requires forall k: nat :: gen(k).Some? && gen(k).value in taken && !fails(k)
    ensures Verdict(Trace(gen, fails, taken, 0, attempts)) == GaveUp
    ensures |Trace(gen, fails, taken, 0, attempts)| == attempts
    ensures Checks(Trace(gen, fails, taken, 0, attempts)) == attempts
  {
    var t := Trace(gen, fails, taken, 0, attempts);
    GaveUpIffAllContinue(gen, fails, taken, attempts);
    AllChecked(t, |t|);
    assert t[..|t|] == t;
  }

  lemma {:induction false} AllChecked(t: seq<Probe>, n: nat)
    requires n <= |t|
    requires forall i :: 0 <= i < |t| ==> t[i].Checked?
    ensures Checks(t[..n]) == n
  {
    if n > 0 {
      assert t[..n][..n - 1] == t[..n - 1];
      AllChecked(t, n - 1);
    }
  }

  /** When existence checks never fail (the in-memory stores), the loop never aborts,
      and a free id it returns is not a key of the store. */
  lemma {:induction false} FaultFreeNeverAborts(gen: nat -> Option<string>, fails: nat -> bool, taken: set<string>, attempts: int)
    requires forall k: nat :: !fails(k)
    ensures !Verdict(Trace(gen, fails, taken, 0, attempts)).Aborted?
    ensures Verdict(Trace(gen, fails, taken, 0, attempts)).Found? ==>
      Verdict(Trace(gen, fails, taken, 0, attempts)).id !in taken
  {
    var t := Trace(gen, fails, taken, 0, attempts);
    if t != [] {
      assert t[|t| - 1] == ProbeAt(gen, fails, taken, |t| - 1);
    }
  }

  /** Whatever the store's checks do, a found id was generated in some attempt
      within budget and its check said the id is not a key of the store. */
  lemma {:induction false} FoundWasGeneratedAndFree(gen: nat -> Option<string>, fails: nat -> bool, taken: set<string>, attempts: int)
    requires Verdict(Trace(gen, fails, taken, 0, attempts)).Found?
    ensures Verdict(Trace(gen, fails, taken, 0, attempts)).id !in taken
    ensures exists j: nat :: j < attempts && gen(j) == Some(Verdict(Trace(gen, fails, taken, 0, attempts)).id)
  {
    var t := Trace(gen, fails, taken, 0, attempts);
    var j: nat := |t| - 1;
    assert t[j] == ProbeAt(gen, fails, taken, j);
  }

  /** One `CreateShortURL` call: the URL, what its id generation draws on (`source`), and
      which of its existence checks fail. */
  datatype Request<S> = Request(url: string, source: S, fails: nat -> bool)

  /** The URLs of `reqs`, in order. */
  function Urls<S>(reqs: seq<Request<S>>): (urls: seq<string>)
    ensures |urls| == |reqs| && forall i :: 0 <= i < |reqs| ==> urls[i] == reqs[i].url
  {
    if reqs == [] then [] else Urls(reqs[..|reqs| - 1]) + [reqs[|reqs| - 1].url]
  }

  /** `GetOriginalURL` in both revisions: a `NotFound` from the store passes through
      unchanged, any other store error is wrapped as a storage error and the URL
      dropped, and without an error the stored URL is returned. */
  function PassNotFound(url: string, err: Option<Error>): (r: (string, Option<Error>))
    ensures r.1.Some? <==> err.Some?
    ensures err.Some? ==> Is(r.1.value, err.value)
    ensures r.1 == None ==> r.0 == url
    ensures err.Some? ==> (Is(r.1.value, NotFound) <==> Is(err.value, NotFound))
    ensures err.Some? && Is(err.value, NotFound) ==> r == (url, err)
    ensures err.Some? && !Is(err.value, NotFound) ==> r.0 == "" && r.1.value.Wrapped? && r.1.value.context == GetFailed
  {
    if err.Some? && !Is(err.value, NotFound) then ("", Some(Wrapped(GetFailed, err.value)))
    else (url, err)
  }
}
