/** Prefix matching over a snapshot of a directory walk: the helper
    `find_files_recursively`, its specification, and an independent reference
    definition (filter the flattened walk) that it is proved equal to. */
module Matching {
  import opened SeqFacts

  /** The path `Path(root) / file`: the directory the walk yielded and the
      file's base name. */
  datatype FilePath = FilePath(dir: string, name: string)

  /** One step of the directory walk: a directory and the names of the files
      directly inside it (the sub-directory names are not used). */
  datatype Listing = Listing(root: string, files: seq<string>)

  /** A snapshot of the whole walk, in the order the walk yields directories. */
  type Walk = seq<Listing>

  /** `name.startswith(token)`: a literal, case-sensitive prefix test. The
      empty token is a prefix of every name. */
  predicate StartsWith(name: string, token: string)
  {
    token <= name
  }

  // ---------------------------------------------------------------------
  // Specification of the nested loop, one directory and one file at a time
  // ---------------------------------------------------------------------

  /** The matches among the files of one directory, in file order. */
  function DirMatches(root: string, files: seq<string>, token: string): seq<FilePath>
  {
    if files == [] then []
    else
      var name := files[|files| - 1];
      DirMatches(root, files[..|files| - 1], token)
        + (if StartsWith(name, token) then [FilePath(root, name)] else [])
  }

  /** The matches of the whole walk: directory order, then file order. */
  function Matches(walk: Walk, token: string): seq<FilePath>
  {
    if walk == [] then []
    else
      var last := walk[|walk| - 1];
      Matches(walk[..|walk| - 1], token) + DirMatches(last.root, last.files, token)
  }

  /** The matcher of one walk snapshot, as a function of the token. */
  function Finder(walk: Walk): string -> seq<FilePath>
  {
    token => Matches(walk, token)
  }

  /** Collects every file of the walk whose base name starts with `token`. */
  method FindFilesRecursively(walk: Walk, token: string) returns (found: seq<FilePath>)
    ensures found == Matches(walk, token)
  {
    found := [];
    for i := 0 to |walk|
      invariant found == Matches(walk[..i], token)
    {
      var listing := walk[i];
      for j := 0 to |listing.files|
        invariant found == Matches(walk[..i], token)
                           + DirMatches(listing.root, listing.files[..j], token)
      {
        var file := listing.files[j];
        if StartsWith(file, token) {
          found := found + [FilePath(listing.root, file)];
        }
        PrefixOfPrefix(listing.files, j, j + 1);
      }
      WholePrefix(listing.files);
      PrefixOfPrefix(walk, i, i + 1);
    }
    WholePrefix(walk);
  }

  // ---------------------------------------------------------------------
  // Reference definition: every file of the walk, then a filter
  // ---------------------------------------------------------------------

  /** Every path of one directory listing, in file order. */
  function DirEntries(listing: Listing): seq<FilePath>
  {
    seq(|listing.files|, k requires 0 <= k < |listing.files| => FilePath(listing.root, listing.files[k]))
  }

  /** Every path of the walk, in walk order. */
  function Entries(walk: Walk): seq<FilePath>
  {
    if walk == [] then [] else Entries(walk[..|walk| - 1]) + DirEntries(walk[|walk| - 1])
  }

  /** The paths of `paths` whose base name starts with `token`, order kept. */
  function Filter(paths: seq<FilePath>, token: string): seq<FilePath>
  {
    if paths == [] then []
    else
      var p := paths[|paths| - 1];
      Filter(paths[..|paths| - 1], token) + (if StartsWith(p.name, token) then [p] else [])
  }

  lemma {:induction false} FilterAppend(a: seq<FilePath>, b: seq<FilePath>, token: string)
    ensures Filter(a + b, token) == Filter(a, token) + Filter(b, token)
    decreases |b|
  {
    if b == [] {
      assert a + b == a;
    } else {
      var b' := b[..|b| - 1];
      assert (a + b)[..|a + b| - 1] == a + b';
      FilterAppend(a, b', token);
    }
  }

  lemma {:induction false} DirMatchesIsFilter(root: string, files: seq<string>, token: string)
    ensures DirMatches(root, files, token) == Filter(DirEntries(Listing(root, files)), token)
    decreases |files|
  {
    if files != [] {
      var init := files[..|files| - 1];
      DirMatchesIsFilter(root, init, token);
      var es := DirEntries(Listing(root, files));
      assert es[..|es| - 1] == DirEntries(Listing(root, init));
    }
  }

  /** The nested loop selects exactly what the reference filter selects, in
      the same order: directory order, then file order. */
  lemma {:induction false} MatchesInWalkOrder(walk: Walk, token: string)
    ensures Matches(walk, token) == Filter(Entries(walk), token)
    decreases |walk|
  {
    if walk != [] {
      var last := walk[|walk| - 1];
      MatchesInWalkOrder(walk[..|walk| - 1], token);
      DirMatchesIsFilter(last.root, last.files, token);
      FilterAppend(Entries(walk[..|walk| - 1]), DirEntries(last), token);
    }
  }

  lemma {:induction false} FilterMultiplicity(paths: seq<FilePath>, token: string, p: FilePath)
    ensures multiset(Filter(paths, token))[p] == if StartsWith(p.name, token) then multiset(paths)[p] else 0
    decreases |paths|
  {
    if paths != [] {
      var init := paths[..|paths| - 1];
      FilterMultiplicity(init, token, p);
      assert paths == init + [paths[|paths| - 1]];
    }
  }

  lemma {:induction false} EntriesMembership(walk: Walk, p: FilePath)
    ensures p in Entries(walk) <==> exists i :: 0 <= i < |walk| && walk[i].root == p.dir && p.name in walk[i].files
    decreases |walk|
  {
    if walk != [] {
      var init := walk[..|walk| - 1];
      var last := walk[|walk| - 1];
      EntriesMembership(init, p);
      if p in DirEntries(last) {
        var k :| 0 <= k < |last.files| && DirEntries(last)[k] == p;
        assert walk[|walk| - 1].root == p.dir && p.name in walk[|walk| - 1].files;
      }
      if exists i :: 0 <= i < |walk| && walk[i].root == p.dir && p.name in walk[i].files {
        var i :| 0 <= i < |walk| && walk[i].root == p.dir && p.name in walk[i].files;
        if i < |walk| - 1 {
          assert init[i] == walk[i];
        } else {
          var k :| 0 <= k < |last.files| && last.files[k] == p.name;
          assert DirEntries(last)[k] == p;
        }
      }
    }
  }

  /** Soundness: every returned path has a base name starting with the token
      and names a file of a directory the walk yielded. */
  lemma MatchesSound(walk: Walk, token: string, p: FilePath)
    requires p in Matches(walk, token)
    ensures StartsWith(p.name, token)
    ensures exists i :: 0 <= i < |walk| && walk[i].root == p.dir && p.name in walk[i].files
  {
    MatchesInWalkOrder(walk, token);
    FilterMultiplicity(Entries(walk), token, p);
    EntriesMembership(walk, p);
  }

  /** Completeness: every file of the walk whose name starts with the token is
      returned as often as the walk lists it, so exactly once when the walk
      lists each path once; nothing else is returned. */
  lemma MatchesComplete(walk: Walk, token: string, i: nat, j: nat)
    requires i < |walk| && j < |walk[i].files|
    ensures var p := FilePath(walk[i].root, walk[i].files[j]);
            multiset(Matches(walk, token))[p] == if StartsWith(p.name, token) then multiset(Entries(walk))[p] else 0
    ensures var p := FilePath(walk[i].root, walk[i].files[j]);
            p in Entries(walk) && (StartsWith(p.name, token) ==> p in Matches(walk, token))
  {
    var p := FilePath(walk[i].root, walk[i].files[j]);
    MatchesInWalkOrder(walk, token);
    FilterMultiplicity(Entries(walk), token, p);
    EntriesMembership(walk, p);
  }

  /** The literal prefix test: `ABC123_a.txt` and `ABC123_b.txt` match
      `ABC123`, `XYZ_c.txt` does not, and case matters. */
  lemma PrefixExamples()
    ensures StartsWith("ABC123_a.txt", "ABC123") && StartsWith("ABC123_b.txt", "ABC123")
    ensures !StartsWith("XYZ_c.txt", "ABC123") && !StartsWith("abc123_a.txt", "ABC123")
    ensures |Matches([Listing("src", ["ABC123_a.txt", "XYZ_c.txt"]), Listing("src/sub", ["ABC123_b.txt"])], "ABC123")| == 2
  {
    assert "ABC123_a.txt"[..6] == "ABC123";
    assert "ABC123_b.txt"[..6] == "ABC123";
    assert "XYZ_c.txt"[0] != "ABC123"[0];
    assert "abc123_a.txt"[0] != "ABC123"[0];
    var t := "ABC123";
    var a := FilePath("src", "ABC123_a.txt");
    var b := FilePath("src/sub", "ABC123_b.txt");
    var files0 := ["ABC123_a.txt", "XYZ_c.txt"];
    assert files0[..1] == ["ABC123_a.txt"] && files0[..1][..0] == [];
    assert DirMatches("src", files0[..1], t) == [a];
    assert DirMatches("src", files0, t) == [a];
    var files1 := ["ABC123_b.txt"];
    assert files1[..0] == [];
    assert DirMatches("src/sub", files1, t) == [b];
    var walk := [Listing("src", files0), Listing("src/sub", files1)];
    assert walk[..1] == [walk[0]] && walk[..1][..0] == [];
    assert Matches(walk[..1], t) == [a];
    assert Matches(walk, t) == [a, b];
  }
}
