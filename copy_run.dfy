/** What one count-then-copy run over a catalog computes: the total of the
    counting pass, the found/not-found split, the sequence of copies, and the
    flat target those copies leave behind. The lemmas here are the run's
    promises.

    The run is stated for any token type `T` and any matcher `find`, which
    gives the matches of one token; both passes call the same `find`, which
    is what "both passes see the same walk" means. The application
    instantiates `T` with strings and `find` with `Finder(walk)`. */
module CopyRun {
  import opened Matching
  import opened SeqFacts

  /** A catalog token with at least one match, and its number of matches. */
  datatype FoundEntry<T> = FoundEntry(token: T, count: nat)

  /** What a run reports: the found tokens with their counts, the tokens
      without matches, and the total of the counting pass. */
  datatype RunSummary<T> = RunSummary(found: seq<FoundEntry<T>>, notFound: seq<T>, totalFiles: nat)

  /** The target directory: base name to the source path last copied there. */
  type Target = map<string, FilePath>

  /** The counting pass: the number of matches summed over the catalog. */
  function TotalMatches<T>(find: T -> seq<FilePath>, catalog: seq<T>): nat
  {
    if catalog == [] then 0
    else TotalMatches(find, catalog[..|catalog| - 1]) + |find(catalog[|catalog| - 1])|
  }

  /** Every copy the copying pass performs, in order: token by token, each
      token's matches in the matcher's order. Repeated tokens copy again. */
  function AllCopies<T>(find: T -> seq<FilePath>, catalog: seq<T>): seq<FilePath>
  {
    if catalog == [] then []
    else AllCopies(find, catalog[..|catalog| - 1]) + find(catalog[|catalog| - 1])
  }

  /** The `found` list: tokens with matches, in catalog order, with counts. */
  function FoundOf<T>(find: T -> seq<FilePath>, catalog: seq<T>): seq<FoundEntry<T>>
  {
    if catalog == [] then []
    else
      var token := catalog[|catalog| - 1];
      FoundOf(find, catalog[..|catalog| - 1])
        + (if find(token) != [] then [FoundEntry(token, |find(token)|)] else [])
  }

  /** The `not_found` list: tokens without matches, in catalog order. */
  function NotFoundOf<T>(find: T -> seq<FilePath>, catalog: seq<T>): seq<T>
  {
    if catalog == [] then []
    else
      var token := catalog[|catalog| - 1];
      NotFoundOf(find, catalog[..|catalog| - 1]) + (if find(token) != [] then [] else [token])
  }

  /** The summary a completed run reports. */
  function Summarize<T>(find: T -> seq<FilePath>, catalog: seq<T>): RunSummary<T>
  {
    RunSummary(FoundOf(find, catalog), NotFoundOf(find, catalog), TotalMatches(find, catalog))
  }

  function Tokens<T>(found: seq<FoundEntry<T>>): seq<T>
  {
    if found == [] then [] else Tokens(found[..|found| - 1]) + [found[|found| - 1].token]
  }

  function SumCounts<T>(found: seq<FoundEntry<T>>): nat
  {
    if found == [] then 0 else SumCounts(found[..|found| - 1]) + found[|found| - 1].count
  }

  /** Copying `copies` one after the other into a flat target directory:
      each copy lands under its base name and replaces what was there. */
  function CopyInto(target: Target, copies: seq<FilePath>): Target
  {
    if copies == [] then target
    else
      var p := copies[|copies| - 1];
      CopyInto(target, copies[..|copies| - 1])[p.name := p]
  }

  function Names(copies: seq<FilePath>): set<string>
  {
    set p | p in copies :: p.name
  }

  /** No later copy in `copies` has the base name of the copy at index `k`. */
  predicate LastWithName(copies: seq<FilePath>, k: nat)
    requires k < |copies|
  {
    forall k' :: k < k' < |copies| ==> copies[k'].name != copies[k].name
  }

  // ---------------------------------------------------------------------
  // The found/not-found partition
  // ---------------------------------------------------------------------

  /** Every token, duplicates included, lands in exactly one of the two lists. */
  lemma {:induction false} PartitionSizes<T>(find: T -> seq<FilePath>, catalog: seq<T>)
    ensures |FoundOf(find, catalog)| + |NotFoundOf(find, catalog)| == |catalog|
    decreases |catalog|
  {
    if catalog != [] {
      PartitionSizes(find, catalog[..|catalog| - 1]);
    }
  }

  lemma {:induction false} TokensAppend<T>(a: seq<FoundEntry<T>>, b: seq<FoundEntry<T>>)
    ensures Tokens(a + b) == Tokens(a) + Tokens(b)
    decreases |b|
  {
    if b == [] {
      assert a + b == a;
    } else {
      var b' := b[..|b| - 1];
      assert (a + b)[..|a + b| - 1] == a + b';
      TokensAppend(a, b');
    }
  }

  /** The found tokens and the not-found tokens together are the catalog,
      with every duplicate accounted for. */
  lemma {:induction false} PartitionMultiset<T>(find: T -> seq<FilePath>, catalog: seq<T>)
    ensures multiset(Tokens(FoundOf(find, catalog))) + multiset(NotFoundOf(find, catalog)) == multiset(catalog)
    decreases |catalog|
  {
    if catalog != [] {
      var init, token := catalog[..|catalog| - 1], catalog[|catalog| - 1];
      var found, notFound := FoundOf(find, init), NotFoundOf(find, init);
      PartitionMultiset(find, init);
      SplitLast(catalog);
      if find(token) != [] {
        var e := FoundEntry(token, |find(token)|);
        assert FoundOf(find, catalog) == found + [e];
        assert NotFoundOf(find, catalog) == notFound;
        TokensAppend(found, [e]);
        assert [e][..0] == [];
        assert Tokens(FoundOf(find, catalog)) == Tokens(found) + [token];
      } else {
        assert FoundOf(find, catalog) == found;
        assert NotFoundOf(find, catalog) == notFound + [token];
      }
    }
  }

  /** Each found entry is a catalog token with a non-empty match list and
      carries that list's length; each not-found token has no match. */
  lemma {:induction false} ClassificationSound<T>(find: T -> seq<FilePath>, catalog: seq<T>)
    ensures forall e :: e in FoundOf(find, catalog) ==>
              e.token in catalog && find(e.token) != [] && e.count == |find(e.token)|
    ensures forall t :: t in NotFoundOf(find, catalog) ==> t in catalog && find(t) == []
    decreases |catalog|
  {
    if catalog != [] {
      var init := catalog[..|catalog| - 1];
      ClassificationSound(find, init);
      assert forall t :: t in init ==> t in catalog;
    }
  }

  /** A token goes to `found` (with its count) iff its match list is
      non-empty, and to `not_found` otherwise. */
  lemma {:induction false} ClassificationComplete<T>(find: T -> seq<FilePath>, catalog: seq<T>, k: nat)
    requires k < |catalog|
    ensures find(catalog[k]) != [] ==> FoundEntry(catalog[k], |find(catalog[k])|) in FoundOf(find, catalog)
    ensures find(catalog[k]) == [] ==> catalog[k] in NotFoundOf(find, catalog)
    decreases |catalog|
  {
    if k < |catalog| - 1 {
      var init := catalog[..|catalog| - 1];
      ClassificationComplete(find, init, k);
      assert init[k] == catalog[k];
    }
  }

  // ---------------------------------------------------------------------
  // Totals and progress
  // ---------------------------------------------------------------------

  lemma {:induction false} SumCountsAppend<T>(a: seq<FoundEntry<T>>, b: seq<FoundEntry<T>>)
    ensures SumCounts(a + b) == SumCounts(a) + SumCounts(b)
    decreases |b|
  {
    if b == [] {
      assert a + b == a;
    } else {
      var b' := b[..|b| - 1];
      assert (a + b)[..|a + b| - 1] == a + b';
      SumCountsAppend(a, b');
    }
  }

  /** The total of the counting pass is the sum of the counts of the found
      entries (not-found tokens contribute nothing). */
  lemma {:induction false} TotalIsSumOfFound<T>(find: T -> seq<FilePath>, catalog: seq<T>)
    ensures SumCounts(FoundOf(find, catalog)) == TotalMatches(find, catalog)
    decreases |catalog|
  {
    if catalog != [] {
      var init, token := catalog[..|catalog| - 1], catalog[|catalog| - 1];
      TotalIsSumOfFound(find, init);
      if find(token) != [] {
        var e := FoundEntry(token, |find(token)|);
        SumCountsAppend(FoundOf(find, init), [e]);
        assert [e][..0] == [];
      } else {
        assert FoundOf(find, catalog) == FoundOf(find, init);
        assert |find(token)| == 0;
      }
    }
  }

  /** The copying pass performs exactly as many copies as the counting pass
      counted, so the progress counter ends at the precomputed maximum. */
  lemma {:induction false} CopiesMatchTotal<T>(find: T -> seq<FilePath>, catalog: seq<T>)
    ensures |AllCopies(find, catalog)| == TotalMatches(find, catalog)
    decreases |catalog|
  {
    if catalog != [] {
      CopiesMatchTotal(find, catalog[..|catalog| - 1]);
    }
  }

  /** Any prefix of the catalog has at most the total number of matches: the
      progress counter never passes the maximum. */
  lemma {:induction false} TotalMatchesPrefix<T>(find: T -> seq<FilePath>, catalog: seq<T>, i: nat)
    requires i <= |catalog|
    ensures TotalMatches(find, catalog[..i]) <= TotalMatches(find, catalog)
    decreases |catalog|
  {
    if i < |catalog| {
      var init := catalog[..|catalog| - 1];
      PrefixOfPrefix(catalog, i, |catalog| - 1);
      TotalMatchesPrefix(find, init, i);
    } else {
      WholePrefix(catalog);
    }
  }

  /** A token without matches contributes nothing to the total, goes to
      `not_found`, and leaves `found` and the copies as they were. */
  lemma NotFoundContributesZero<T>(find: T -> seq<FilePath>, catalog: seq<T>, token: T)
    requires find(token) == []
    ensures TotalMatches(find, catalog + [token]) == TotalMatches(find, catalog)
    ensures NotFoundOf(find, catalog + [token]) == NotFoundOf(find, catalog) + [token]
    ensures FoundOf(find, catalog + [token]) == FoundOf(find, catalog)
    ensures AllCopies(find, catalog + [token]) == AllCopies(find, catalog)
  {
    assert (catalog + [token])[..|catalog|] == catalog;
  }

  /** One more catalog token extends the copies by its matches and sorts it
      into exactly one of the two lists. */
  lemma CatalogStep<T>(find: T -> seq<FilePath>, catalog: seq<T>, i: nat)
    requires i < |catalog|
    ensures AllCopies(find, catalog[..i + 1]) == AllCopies(find, catalog[..i]) + find(catalog[i])
    ensures find(catalog[i]) != [] ==>
              FoundOf(find, catalog[..i + 1]) == FoundOf(find, catalog[..i]) + [FoundEntry(catalog[i], |find(catalog[i])|)]
              && NotFoundOf(find, catalog[..i + 1]) == NotFoundOf(find, catalog[..i])
    ensures find(catalog[i]) == [] ==>
              FoundOf(find, catalog[..i + 1]) == FoundOf(find, catalog[..i])
              && NotFoundOf(find, catalog[..i + 1]) == NotFoundOf(find, catalog[..i]) + [catalog[i]]
    ensures |AllCopies(find, catalog[..i + 1])| <= TotalMatches(find, catalog)
  {
    PrefixOfPrefix(catalog, i, i + 1);
    CopiesMatchTotal(find, catalog[..i + 1]);
    TotalMatchesPrefix(find, catalog, i + 1);
  }

  /** One more copy overwrites one entry of the target. */
  lemma CopyIntoStep(target: Target, copies: seq<FilePath>, j: nat)
    requires j < |copies|
    ensures CopyInto(target, copies[..j + 1]) == CopyInto(target, copies[..j])[copies[j].name := copies[j]]
  {
    PrefixOfPrefix(copies, j, j + 1);
  }

  /** Copying `a` then `b` is copying `a + b`. */
  lemma {:induction false} CopyIntoAppend(target: Target, a: seq<FilePath>, b: seq<FilePath>)
    ensures CopyInto(CopyInto(target, a), b) == CopyInto(target, a + b)
    decreases |b|
  {
    if b == [] {
      assert a + b == a;
    } else {
      var b' := b[..|b| - 1];
      assert (a + b)[..|a + b| - 1] == a + b';
      CopyIntoAppend(target, a, b');
    }
  }

  // ---------------------------------------------------------------------
  // Flattening with overwrite
  // ---------------------------------------------------------------------

  lemma NamesSnoc(copies: seq<FilePath>)
    requires copies != []
    ensures Names(copies) == Names(copies[..|copies| - 1]) + {copies[|copies| - 1].name}
  {
    SplitLast(copies);
    var init, p := copies[..|copies| - 1], copies[|copies| - 1];
    forall n | n in Names(copies) ensures n in Names(init) + {p.name} {
      var q :| q in copies && q.name == n;
      if q != p {
        assert q in init;
      }
    }
  }

  /** After the copies, the target holds exactly its old names and every
      copied base name. */
  lemma {:induction false} CopyIntoKeys(target: Target, copies: seq<FilePath>)
    ensures CopyInto(target, copies).Keys == target.Keys + Names(copies)
    decreases |copies|
  {
    if copies != [] {
      CopyIntoKeys(target, copies[..|copies| - 1]);
      NamesSnoc(copies);
    }
  }

  /** A copied base name holds the last copy with that name. */
  lemma {:induction false} LastCopyWins(target: Target, copies: seq<FilePath>, k: nat)
    requires k < |copies| && LastWithName(copies, k)
    ensures copies[k].name in CopyInto(target, copies)
    ensures CopyInto(target, copies)[copies[k].name] == copies[k]
    decreases |copies|
  {
    if k < |copies| - 1 {
      var init := copies[..|copies| - 1];
      assert copies[|copies| - 1].name != copies[k].name;
      assert init[k] == copies[k];
      assert LastWithName(init, k) by {
        forall k' | k < k' < |init| ensures init[k'].name != init[k].name {
          assert init[k'] == copies[k'];
        }
      }
      LastCopyWins(target, init, k);
    }
  }

  /** A name that no copy has keeps its old entry. */
  lemma {:induction false} CopyIntoKeepsOthers(target: Target, copies: seq<FilePath>, n: string)
    requires n in target && n !in Names(copies)
    ensures n in CopyInto(target, copies) && CopyInto(target, copies)[n] == target[n]
    decreases |copies|
  {
    if copies != [] {
      NamesSnoc(copies);
      CopyIntoKeepsOthers(target, copies[..|copies| - 1], n);
    }
  }

  /** Without base-name collisions, and into a target that holds none of the
      copied names, the number of files in the target grows by exactly the
      number of copies. */
  lemma {:induction false} CopyIntoSize(target: Target, copies: seq<FilePath>)
    requires forall k, k' :: 0 <= k < k' < |copies| ==> copies[k].name != copies[k'].name
    requires forall k :: 0 <= k < |copies| ==> copies[k].name !in target
    ensures |CopyInto(target, copies)| == |target| + |copies|
    decreases |copies|
  {
    if copies != [] {
      var init := copies[..|copies| - 1];
      var p := copies[|copies| - 1];
      CopyIntoSize(target, init);
      CopyIntoKeys(target, init);
      assert p.name !in Names(init);
    }
  }
}
