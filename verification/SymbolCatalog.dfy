/** The catalog cache of SymbolCatalogProvider.java.

    The cache is keyed by session, revision and publication epoch and never asks which
    engine a read has borrowed.  It returns the right catalog because no such key names
    two engines in any run of the project runtime. */
module SymbolCatalog {
  import opened Common
  import opened RuntimeSystem
  import RuntimeTheorems

  /** A catalog is determined by the classes of an engine and the identity of the read. */
  datatype Catalog = Catalog(classes: seq<string>, session: string, revision: nat, epoch: nat)

  /** `temporary`: the catalog computed afresh from the engine the read captured. */
  function FreshCatalog(classesOf: nat -> seq<string>, read: Capture): Catalog {
    Catalog(classesOf(read.engine), read.session, read.revision, read.epoch)
  }

  /** One call of `primary`: the catalog it returns and leaves in the cache. */
  function Serve(classesOf: nat -> seq<string>, cache: Option<Catalog>, read: Capture): Catalog {
    if cache.None? || cache.value.session != read.session || cache.value.revision != read.revision
       || cache.value.epoch != read.epoch
    then FreshCatalog(classesOf, read) else cache.value
  }

  /** The cache after serving the reads one after another. */
  function ServeAll(classesOf: nat -> seq<string>, history: seq<Capture>): Option<Catalog> {
    if history == [] then None
    else Some(Serve(classesOf, ServeAll(classesOf, history[..|history| - 1]), history[|history| - 1]))
  }

  class SymbolCatalogProvider {
    const classesOf: nat -> seq<string>
    var primary: Option<Catalog>

    constructor (classesOf: nat -> seq<string>)
      ensures primary == None && this.classesOf == classesOf
    {
      this.classesOf := classesOf;
      primary := None;
    }

    method Primary(read: Capture) returns (catalog: Catalog)
      modifies this
      ensures catalog == Serve(classesOf, old(primary), read) && primary == Some(catalog)
    {
      var current := primary;
      if current == None || current.value.session != read.session || current.value.revision != read.revision
         || current.value.epoch != read.epoch {
        current := Some(Catalog(classesOf(read.engine), read.session, read.revision, read.epoch));
        primary := current;
      }
      return current.value;
    }
  }

  /** Reads that agree on the epoch agree on everything. */
  ghost predicate EpochsAgree(history: seq<Capture>) {
    forall i, j | 0 <= i < |history| && 0 <= j < |history| && history[i].epoch == history[j].epoch ::
      history[i] == history[j]
  }

  lemma {:induction false} CacheIsSomeRead(classesOf: nat -> seq<string>, history: seq<Capture>)
    requires EpochsAgree(history) && |history| > 0
    ensures ServeAll(classesOf, history) == Some(FreshCatalog(classesOf, history[|history| - 1]))
  {
    var earlier := history[..|history| - 1];
    if earlier != [] {
      assert forall i | 0 <= i < |earlier| :: earlier[i] == history[i];
      CacheIsSomeRead(classesOf, earlier);
    }
  }

  /** In every run of the project runtime, however reads, edits, rebuilds and saves are
      interleaved, each leased symbol read is served the catalog of the engine it borrowed. */
  lemma EveryReadGetsItsOwnCatalog(classesOf: nat -> seq<string>, run: Execution, at: nat, i: nat)
    requires run.Valid() && at < |run.states|
    ensures var history := run.states[at].captures;
            i < |history| ==> ServeAll(classesOf, history[..i + 1]) == Some(FreshCatalog(classesOf, history[i]))
  {
    var history := run.states[at].captures;
    if i < |history| {
      var prefix := history[..i + 1];
      forall j, k | 0 <= j < |prefix| && 0 <= k < |prefix| && prefix[j].epoch == prefix[k].epoch
        ensures prefix[j] == prefix[k]
      {
        RuntimeTheorems.EpochNamesOneEngine(run, at, j, k);
      }
      CacheIsSomeRead(classesOf, prefix);
    }
  }

  /** The agreement is needed: two engines at one key would share a catalog. */
  lemma SharedKeyWouldMixCatalogs(classesOf: nat -> seq<string>, a: Capture, b: Capture)
    requires a.(engine := b.engine) == b
    ensures ServeAll(classesOf, [a, b]) == Some(FreshCatalog(classesOf, b))
            <==> classesOf(a.engine) == classesOf(b.engine)
  {
    assert [a, b][..1] == [a] && [a][..0] == [];
    assert ServeAll(classesOf, [a]) == Some(FreshCatalog(classesOf, a));
  }
}
