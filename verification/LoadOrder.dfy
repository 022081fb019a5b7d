/**
 * Which libraries the skills carry, and in which order they load: `neededClosure` of
 * skills/bayma-platform-ardour/install.ts and the order of skills/bayma-platform-mltpp/install.ts.
 * What a file needs, and which names a directory provides, are parameters.
 */
module LoadOrders {
  import opened Basics
  import opened Options

  /**
   * `needs` has the libraries each file needs, by name; `providers` the path each name the
   * directories hold is found at first; `own` the names of the files themselves, and `system` the
   * machine's own runtime.
   */
  datatype Libraries = Libraries(
    needs: map<string, seq<string>>,
    providers: map<string, string>,
    own: set<string>,
    system: set<string>)

  function NeedsOf(libraries: Libraries, file: string): seq<string> {
    if file in libraries.needs then libraries.needs[file] else []
  }

  /** Whether a name a file needs is to be carried. */
  predicate Carried(libraries: Libraries, name: string) {
    name !in libraries.own && name !in libraries.system
  }

  /** Whether all that `file` needs is in `names`, of what is to be carried. */
  predicate NeedsWithin(libraries: Libraries, file: string, names: set<string>) {
    forall name <- NeedsOf(libraries, file) :: Carried(libraries, name) ==> name in names
  }

  /** Whether `names` has all that `files` need, and all that is found for its own names needs in turn. */
  predicate ClosedUnder(libraries: Libraries, files: seq<string>, names: set<string>) {
    && (forall file <- files :: NeedsWithin(libraries, file, names))
    && (forall name <- names :: name in libraries.providers ==>
        NeedsWithin(libraries, libraries.providers[name], names))
  }

  datatype Closure = Found(found: map<string, string>) | Lacks(name: string)

  /** Whether each name found is one to carry, and where it is provided. */
  predicate Provided(libraries: Libraries, found: map<string, string>) {
    forall name <- found ::
      name in libraries.providers && found[name] == libraries.providers[name] && Carried(libraries, name)
  }

  /** Whether every set with all that is needed has these names. */
  ghost predicate Needed(libraries: Libraries, files: seq<string>, names: set<string>) {
    forall closed: set<string> :: ClosedUnder(libraries, files, closed) ==> names <= closed
  }

  predicate Reached(files: seq<string>, found: map<string, string>, file: string) {
    file in files || file in found.Values
  }

  /** What the loops keep: of all reached, only `busy` and what is queued may need what is not found. */
  ghost predicate Finding(libraries: Libraries, files: seq<string>, queue: seq<string>, found: map<string, string>,
      busy: set<string>) {
    && Provided(libraries, found) && Needed(libraries, files, found.Keys)
    && (forall file <- queue :: Reached(files, found, file))
    && (forall file <- busy :: Reached(files, found, file))
    && (forall file | Reached(files, found, file) ::
        file in queue || file in busy || NeedsWithin(libraries, file, found.Keys))
  }

  /** What is reached needs only what every such set has. */
  lemma {:induction false} NeedIsNeeded(libraries: Libraries, files: seq<string>, found: map<string, string>,
      file: string, name: string)
    requires Provided(libraries, found) && Needed(libraries, files, found.Keys) && Reached(files, found, file)
    requires name in NeedsOf(libraries, file) && Carried(libraries, name)
    ensures Needed(libraries, files, {name})
  {
    forall closed: set<string> | ClosedUnder(libraries, files, closed) ensures {name} <= closed {
      if file !in files {
        var of :| of in found && found[of] == file;
        assert of in closed;
      }
      assert NeedsWithin(libraries, file, closed);
    }
  }

  lemma {:induction false} FindsOne(libraries: Libraries, files: seq<string>, queue: seq<string>,
      found: map<string, string>, busy: string, name: string)
    requires Finding(libraries, files, queue, found, {busy}) && name !in found
    requires name in NeedsOf(libraries, busy) && Carried(libraries, name) && name in libraries.providers
    ensures var path := libraries.providers[name];
      Finding(libraries, files, queue + [path], found[name := path], {busy})
  {
    var more := found[name := libraries.providers[name]];
    NeedIsNeeded(libraries, files, found, busy, name);
    assert more.Keys == found.Keys + {name};
    forall file ensures Reached(files, more, file) <==>
      Reached(files, found, file) || file == libraries.providers[name] {
      if file in found.Values {
        var of :| of in found && found[of] == file;
        assert of in more && more[of] == file;
      }
      assert name in more && more[name] == libraries.providers[name];
    }
  }

  /** What a loop over one file's needs keeps: those found only grow, and nothing is queued but with one found. */
  predicate Grows(queued: seq<string>, before: map<string, string>, queue: seq<string>, found: map<string, string>) {
    before.Keys <= found.Keys && |before| <= |found| && (|found| == |before| ==> queue == queued)
  }

  lemma {:induction false} GrowsByOne(
      queued: seq<string>, before: map<string, string>, queue: seq<string>, found: map<string, string>,
      name: string, path: string)
    requires Grows(queued, before, queue, found) && name !in found
    ensures Grows(queued, before, queue + [path], found[name := path])
  {
    assert found[name := path].Keys == found.Keys + {name};
  }

  /** Whether each of some needs that is to be carried is found. */
  predicate AllFound(libraries: Libraries, needs: seq<string>, found: map<string, string>) {
    forall name <- needs :: Carried(libraries, name) ==> name in found
  }

  lemma {:induction false} AllFoundOn(
      libraries: Libraries, needs: seq<string>, i: nat, found: map<string, string>, more: map<string, string>)
    requires i < |needs| && AllFound(libraries, needs[..i], found) && found.Keys <= more.Keys
    requires Carried(libraries, needs[i]) ==> needs[i] in more
    ensures AllFound(libraries, needs[..i + 1], more)
  {
    assert needs[..i + 1] == needs[..i] + [needs[i]];
  }

  lemma {:induction false} NothingBusy(
      libraries: Libraries, files: seq<string>, file: string, queue: seq<string>, found: map<string, string>)
    requires Finding(libraries, files, queue, found, {file}) && NeedsWithin(libraries, file, found.Keys)
    ensures Finding(libraries, files, queue, found, {})
  {
  }

  /** What `file` needs, each found where it was not, or the first that is provided nowhere. */
  method FindNeeds(
      libraries: Libraries, files: seq<string>, file: string, queued: seq<string>, before: map<string, string>)
    returns (lacked: Option<string>, queue: seq<string>, found: map<string, string>)
    requires Finding(libraries, files, queued, before, {file})
    ensures lacked.Some? ==> lacked.value !in libraries.providers && Needed(libraries, files, {lacked.value})
    ensures lacked.None? ==> Finding(libraries, files, queue, found, {})
    ensures before.Keys <= found.Keys && (|found| == |before| ==> queue == queued)
  {
    lacked, queue, found := None, queued, before;
    var needs := NeedsOf(libraries, file);
    for i := 0 to |needs|
      invariant Finding(libraries, files, queue, found, {file})
      invariant Grows(queued, before, queue, found) && AllFound(libraries, needs[..i], found)
    {
      var needed := needs[i];
      ghost var last := found;
      if needed !in found && Carried(libraries, needed) {
        if needed !in libraries.providers {
          NeedIsNeeded(libraries, files, found, file, needed);
          lacked := Some(needed);
          return;
        }
        FindsOne(libraries, files, queue, found, file, needed);
        GrowsByOne(queued, before, queue, found, needed, libraries.providers[needed]);
        queue := queue + [libraries.providers[needed]];
        found := found[needed := libraries.providers[needed]];
      }
      AllFoundOn(libraries, needs, i, last, found);
    }
    assert needs[..|needs|] == needs;
    NothingBusy(libraries, files, file, queue, found);
  }

  lemma {:induction false} FoundIsClosed(libraries: Libraries, files: seq<string>, found: map<string, string>)
    requires Finding(libraries, files, [], found, {})
    ensures ClosedUnder(libraries, files, found.Keys)
  {
    forall file <- files ensures NeedsWithin(libraries, file, found.Keys) { assert Reached(files, found, file); }
    forall name <- found.Keys
      ensures name in libraries.providers && NeedsWithin(libraries, libraries.providers[name], found.Keys) {
      assert Reached(files, found, found[name]);
    }
  }

  lemma {:induction false} FewerKeys(found: map<string, string>, libraries: Libraries)
    requires Provided(libraries, found)
    ensures |found| <= |libraries.providers|
  {
    assert found.Keys <= libraries.providers.Keys;
    var rest := libraries.providers.Keys - found.Keys;
    assert libraries.providers.Keys == found.Keys + rest;
  }

  /**
   * What is found is the least set of names with all that the files need and all that it needs
   * itself, each where it is provided; what is lacked is in every such set, and provided nowhere.
   */
  method NeededClosure(libraries: Libraries, files: seq<string>) returns (closure: Closure)
    ensures closure.Found? ==>
      Provided(libraries, closure.found) && ClosedUnder(libraries, files, closure.found.Keys)
        && Needed(libraries, files, closure.found.Keys)
    ensures closure.Lacks? ==> closure.name !in libraries.providers && Needed(libraries, files, {closure.name})
  {
    var found: map<string, string> := map[];
    var queue := files;
    while queue != []
      invariant Finding(libraries, files, queue, found, {})
      decreases |libraries.providers| - |found|, |queue|
    {
      var file := queue[|queue| - 1];
      PopsOne(libraries, files, queue, found);
      FewerKeys(found, libraries);
      var lacked, queued, more := FindNeeds(libraries, files, file, queue[..|queue| - 1], found);
      if lacked.Some? { return Lacks(lacked.value); }
      FewerKeys(more, libraries);
      FewerWithin(found.Keys, more.Keys);
      queue, found := queued, more;
    }
    FoundIsClosed(libraries, files, found);
    closure := Found(found);
  }

  lemma {:induction false} PopsOne(libraries: Libraries, files: seq<string>, queue: seq<string>,
      found: map<string, string>)
    requires Finding(libraries, files, queue, found, {}) && queue != []
    ensures Finding(libraries, files, queue[..|queue| - 1], found, {queue[|queue| - 1]})
  {
    var last := |queue| - 1;
    assert queue == queue[..last] + [queue[last]];
    assert queue[last] in queue;
  }

  /** A library and all that it needs, directly or not, as `ldd` has them. */
  datatype Needs = Needs(of: map<string, set<string>>)

  function CountOf(needs: Needs, library: string): nat {
    if library in needs.of then |needs.of[library]| else 0
  }

  predicate NeedsIt(needs: Needs, library: string, other: string) {
    library in needs.of && other in needs.of[library]
  }

  /** Whether what a library needs has its own needs among the library's. */
  ghost predicate IsTransitive(needs: Needs) {
    forall a, b, c :: NeedsIt(needs, a, b) && NeedsIt(needs, b, c) ==> NeedsIt(needs, a, c)
  }

  predicate SortedByCount(needs: Needs, order: seq<string>) {
    forall i, j | 0 <= i < j < |order| :: CountOf(needs, order[i]) <= CountOf(needs, order[j])
  }

  /** Whether no library comes before one that it needs. */
  predicate LoadsInOrder(needs: Needs, order: seq<string>) {
    forall i, j | 0 <= i < j < |order| :: !NeedsIt(needs, order[i], order[j])
  }

  /** A library needs only libraries that need fewer than it does, unless they need each other. */
  lemma {:induction false} NeededNeedFewer(needs: Needs, library: string, other: string)
    requires IsTransitive(needs) && NeedsIt(needs, library, other) && !NeedsIt(needs, other, other)
    ensures CountOf(needs, other) < CountOf(needs, library)
  {
    if other in needs.of {
      assert forall name <- needs.of[other] :: NeedsIt(needs, other, name);
      assert needs.of[other] <= needs.of[library] - {other};
      FewerWithin(needs.of[other], needs.of[library] - {other});
    }
  }

  /** Sorted by how many others each needs, no library loads before one that it needs, if no two need each other. */
  lemma {:induction false} CountsOrderLoads(needs: Needs, order: seq<string>)
    requires IsTransitive(needs) && (forall library <- order :: !NeedsIt(needs, library, library))
    requires SortedByCount(needs, order)
    ensures LoadsInOrder(needs, order)
  {
    forall i, j | 0 <= i < j < |order| ensures !NeedsIt(needs, order[i], order[j]) {
      if NeedsIt(needs, order[i], order[j]) {
        assert order[j] in order;
        NeededNeedFewer(needs, order[i], order[j]);
      }
    }
  }
}
