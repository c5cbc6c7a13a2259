/** What the two upload handlers share: the answers of their collaborators, what they
    write back, the calls they defer, and the effects they have on the world. */
module Handlers {
  import opened Wrappers
  import opened Records

  /** How getting and validating the bearer token went. */
  datatype Auth = MissingToken | InvalidToken | User(id: Uuid)

  /** What the record store's `GetVideo` handed back: a video (Go's zero `Video` when the
      lookup failed) and whether it reported an error. */
  datatype Fetch = Fetch(video: Video, failed: bool)

  /** A response written by `respondWithError` or `respondWithJSON`. */
  datatype Reply = Error(code: int) | Json(code: int, video: Video)

  /** A `defer`red call: closing an open file, or removing a file by path. */
  datatype Deferred = Close(file: string) | Remove(path: string)

  /** The name the model gives the uploaded form part's open file handle. */
  const FormPart: string := "form file"

  /** An effect on the world, in the order the handler has it. */
  datatype Event =
    | Created(path: string)
    | Closed(file: string)
    | Removed(path: string)
    | Published(bucket: string, key: string, contentType: string)
    | Updated(video: Video)

  /** The world the handlers change: files on local disk, the record store's videos by
      id, and the blob store's objects by bucket and key with their content types. */
  datatype World = World(disk: set<string>, records: map<Uuid, Video>, objects: map<(string, string), string>)

  /** What one effect does to the world. */
  function Step(w: World, e: Event): World {
    match e
    case Created(p) => w.(disk := w.disk + {p})
    case Closed(_) => w
    case Removed(p) => w.(disk := w.disk - {p})
    case Published(b, k, ct) => w.(objects := w.objects[(b, k) := ct])
    case Updated(v) => w.(records := w.records[v.id := v])
  }

  /** The world after a sequence of effects. */
  function After(w: World, t: seq<Event>): World
    decreases |t|
  {
    if |t| == 0 then w else Step(After(w, t[..|t| - 1]), t[|t| - 1])
  }

  /** One more effect is one more step. */
  lemma AfterSnoc(w: World, t: seq<Event>, e: Event)
    ensures After(w, t + [e]) == Step(After(w, t), e)
  {
    assert (t + [e])[..|t|] == t;
  }

  /** One effect is one step. */
  lemma AfterOne(w: World, e: Event)
    ensures After(w, [e]) == Step(w, e)
  {
    assert [e][..0] == [];
  }

  /** The effect of running a deferred call. */
  function Effect(d: Deferred): Event {
    match d
    case Close(f) => Closed(f)
    case Remove(p) => Removed(p)
  }

  /** The effects of the deferred calls when the function returns: last deferred, first
      run. */
  function Unwound(ds: seq<Deferred>): (t: seq<Event>)
    decreases |ds|
  {
    if |ds| == 0 then [] else Unwound(ds[1..]) + [Effect(ds[0])]
  }

  /** A single deferred call has its one effect. */
  lemma UnwoundOne(d: Deferred)
    ensures Unwound([d]) == [Effect(d)]
  {
    assert [d][1..] == [];
  }

  /** A file on disk stays there through events that never remove it. */
  lemma {:induction false} KeptWithoutRemoval(w: World, t: seq<Event>, p: string)
    requires p in w.disk
    requires forall j :: 0 <= j < |t| ==> t[j] != Removed(p)
    ensures p in After(w, t).disk
    decreases |t|
  {
    if |t| > 0 {
      KeptWithoutRemoval(w, t[..|t| - 1], p);
    }
  }

  /** A file created by an event and never removed after it is on disk afterwards. */
  lemma LeftOnDisk(w: World, t: seq<Event>, p: string, i: nat)
    requires i < |t| && t[i] == Created(p)
    requires forall j :: i < j < |t| ==> t[j] != Removed(p)
    ensures p in After(w, t).disk
  {
    assert t == t[..i] + [t[i]] + t[i + 1..];
    AfterConcat(w, t[..i] + [t[i]], t[i + 1..]);
    AfterSnoc(w, t[..i], t[i]);
    KeptWithoutRemoval(After(w, t[..i + 1]), t[i + 1..], p);
  }

  /** Running two sequences of effects one after the other is running their
      concatenation. */
  lemma {:induction false} AfterConcat(w: World, a: seq<Event>, b: seq<Event>)
    ensures After(w, a + b) == After(After(w, a), b)
    decreases |b|
  {
    if |b| == 0 {
      assert a + b == a;
    } else {
      AfterConcat(w, a, b[..|b| - 1]);
      assert (a + b)[..|a + b| - 1] == a + b[..|b| - 1];
    }
  }

  /** Effects other than creating, removing, publishing and updating leave the world as
      it is, and removing a file does not touch the stores. */
  lemma {:induction false} StoresUntouched(w: World, t: seq<Event>)
    requires forall j :: 0 <= j < |t| ==> t[j].Closed? || t[j].Removed? || t[j].Created?
    ensures After(w, t).records == w.records && After(w, t).objects == w.objects
    decreases |t|
  {
    if |t| > 0 {
      StoresUntouched(w, t[..|t| - 1]);
    }
  }

  /** Deferred calls only close and remove: they never create a file, publish an object
      or update a record. */
  lemma {:induction false} UnwoundOnlyClosesAndRemoves(ds: seq<Deferred>)
    ensures |Unwound(ds)| == |ds|
    ensures forall e :: e in Unwound(ds) ==> e.Closed? || e.Removed?
    decreases |ds|
  {
    if |ds| > 0 {
      UnwoundOnlyClosesAndRemoves(ds[1..]);
    }
  }

  /** A file whose removal was deferred is gone once the deferred calls have run,
      whatever else they do. */
  lemma {:induction false} RemovedWhenDeferred(w: World, ds: seq<Deferred>, p: string)
    requires Remove(p) in ds
    ensures p !in After(w, Unwound(ds)).disk
    decreases |ds|
  {
    AfterSnoc(w, Unwound(ds[1..]), Effect(ds[0]));
    if ds[0] != Remove(p) {
      assert Remove(p) in ds[1..];
      RemovedWhenDeferred(w, ds[1..], p);
    }
  }

  /** A file on disk whose removal was never deferred is still there once the deferred
      calls have run. */
  lemma {:induction false} KeptUnlessDeferred(w: World, ds: seq<Deferred>, p: string)
    requires p in w.disk && Remove(p) !in ds
    ensures p in After(w, Unwound(ds)).disk
    decreases |ds|
  {
    if |ds| > 0 {
      AfterSnoc(w, Unwound(ds[1..]), Effect(ds[0]));
      assert forall d :: d in ds[1..] ==> d in ds;
      KeptUnlessDeferred(w, ds[1..], p);
    }
  }

  /** The deferred calls leave the record and blob stores as they are. */
  lemma UnwoundKeepsStores(w: World, ds: seq<Deferred>)
    ensures After(w, Unwound(ds)).records == w.records
    ensures After(w, Unwound(ds)).objects == w.objects
  {
    UnwoundOnlyClosesAndRemoves(ds);
    var t := Unwound(ds);
    assert forall j :: 0 <= j < |t| ==> t[j].Closed? || t[j].Removed? || t[j].Created? by {
      forall j | 0 <= j < |t| ensures t[j].Closed? || t[j].Removed? {
        assert t[j] in t;
      }
    }
    StoresUntouched(w, t);
  }
}
