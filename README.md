# QuickCopy — a verified model of the catalog-matching and copy pipeline

QuickCopy is a desktop tool that reads catalog numbers from column B of a
spreadsheet, searches a source folder (and all its subfolders) for files whose
base name starts with each catalog number, and copies every match into one
flat target folder while a progress bar advances. When the run ends, it shows
which catalog numbers were found (with the number of files each one matched),
which were not, and how many files were copied in total. A small tutorial
window pages through four help texts.

This project models that core in Dafny:

- `matching.dfy` (module `Matching`): `find_files_recursively` as a nested loop
  over a snapshot of the directory walk (a sequence of `Listing(root, files)`
  in the order the walk yields them). It is proved equal to a specification
  function `Matches`. `Matches` is in turn proved equal to an independent
  reference definition: flatten the walk, then keep the paths whose base name
  starts with the token.
- `copy_run.dfy` (module `CopyRun`): what one run computes, as functions of
  the catalog and a matcher `find`. These are the counting-pass total, the
  `found` and `not_found` lists, the sequence of copies, and the flat target
  those copies leave (`CopyInto`, last copy wins). The lemmas are the run's
  promises: a true partition of the catalog, the total as the sum of the
  found counts, copies equal to the total, and last-writer-wins flattening.
  They are stated for any token type and any matcher. The application uses
  string tokens and `Finder(walk)`, the prefix matcher over the walk
  snapshot. Both passes use the same matcher.
- `seq_facts.dfy` (module `SeqFacts`): three general facts about sequence
  prefixes used by the proofs.
- `file_transfer.dfy` (module `FileTransfer`): the application's state. Class
  `TargetFolder` holds the target folder's existence flag and its files, keyed
  by base name. Class `FileTransferApp` holds the three paths and the progress
  bar's `maximum` and `value`. `StartProcessing` is the input gate.
  `CopyFiles` runs the two passes with the source's loops. Its postcondition
  ties the new target, the progress bar and the summary to the `CopyRun`
  functions.
- `tutorial.dfy` (module `Tutorial`): class `TutorialWindow` with
  `currentStep`, an open/closed flag, and the Previous/Next buttons.

The file system and the spreadsheet are inputs. The walk is a snapshot given
as a parameter, and both passes see the same snapshot. The existence of the
source folder is a boolean. The catalog column is a `seq<string>`. The target
folder is a map from base name to the source path last copied there.

The model follows the code in one place where a description of the design
might suggest otherwise. The progress bar's value is assigned only after a
copy (src/QuickCopy.py:168-169). A run with nothing to copy therefore sets
the maximum to 0 and leaves the value from the previous run. The local
counter still ends at the total, which is 0 here.

## Model

| member | source | states |
|---|---|---|
| `Matching.FindFilesRecursively` | src/QuickCopy.py:204-211 | The nested walk loop returns exactly `Matches(walk, token)`: for each directory in walk order, each file in listing order whose name starts with the token, as `Path(root) / file`. |
| `Matching.MatchesInWalkOrder` | src/QuickCopy.py:207-211 | The nested loop's result equals the reference definition: the flattened walk filtered by the prefix test. So matches come in walk order (directory order, then file order). |
| `Matching.DirMatchesIsFilter` | src/QuickCopy.py:208-210 | Within one directory, the inner loop keeps exactly the prefix-matching files, in listing order. |
| `Matching.MatchesSound` | src/QuickCopy.py:207-210 | Every returned path has a base name that starts with the token, and it names a file listed under a directory the walk yielded. |
| `Matching.MatchesComplete` | src/QuickCopy.py:207-211 | Every file of the walk whose name starts with the token is returned, as many times as the walk lists it (so exactly once for a walk that lists each path once). A non-matching file is never returned. |
| `Matching.EntriesMembership` | src/QuickCopy.py:207-208 | A path is in the flattened walk iff some directory the walk yielded has that root and lists that base name. |
| `Matching.FilterMultiplicity` | src/QuickCopy.py:209-210 | The prefix filter keeps each path as often as it occurs if its base name matches, and drops it otherwise. |
| `Matching.FilterAppend` | src/QuickCopy.py:207-210 | Filtering distributes over concatenation, so a walk can be filtered one directory at a time. |
| `Matching.PrefixExamples` | src/QuickCopy.py:209 | The test is a literal, case-sensitive prefix test: `ABC123_a.txt` and `ABC123_b.txt` match `ABC123`; `XYZ_c.txt` and `abc123_a.txt` do not. In a two-directory walk the token finds exactly 2 files. |
| `CopyRun.PartitionSizes` | src/QuickCopy.py:160-173 | Every catalog token, duplicates included, is appended to exactly one list: \|found\| + \|not_found\| = \|catalog\|. |
| `CopyRun.PartitionMultiset` | src/QuickCopy.py:160-173 | The found tokens and the not-found tokens together are the catalog as a multiset: no token is lost, invented or counted twice. |
| `CopyRun.TokensAppend` | src/QuickCopy.py:171 | Appending found entries appends their tokens. |
| `CopyRun.ClassificationSound` | src/QuickCopy.py:163-173 | Each found entry is a catalog token with a non-empty match list and carries that list's length. Each not-found token is a catalog token with no match. |
| `CopyRun.ClassificationComplete` | src/QuickCopy.py:163-173 | Each catalog token with matches appears in `found` with its count, and each token without matches appears in `not_found`. With ClassificationSound this is the "found iff non-empty" split in both directions. |
| `CopyRun.TotalIsSumOfFound` | src/QuickCopy.py:152-154 | The counting-pass total equals the sum of the counts of the found entries. |
| `CopyRun.SumCountsAppend` | src/QuickCopy.py:171 | The sum of counts distributes over concatenation of found lists. |
| `CopyRun.CopiesMatchTotal` | src/QuickCopy.py:152-169 | The copying pass performs exactly as many copies as the counting pass counted (same matcher, so the same walk snapshot). |
| `CopyRun.TotalMatchesPrefix` | src/QuickCopy.py:152-168 | The matches of any catalog prefix number at most the total, so the progress counter never passes the maximum. |
| `CopyRun.NotFoundContributesZero` | src/QuickCopy.py:172-173 | A token without matches adds nothing to the total and makes no copy. It is appended to `not_found` and leaves `found` unchanged. |
| `CopyRun.CatalogStep` | src/QuickCopy.py:160-173 | One more catalog token extends the copies by its matches and goes to exactly one list: `found` with its count when it has matches, `not_found` otherwise. The copies so far never exceed the total. |
| `CopyRun.CopyIntoStep` | src/QuickCopy.py:164-167 | One more copy overwrites exactly the entry under its base name. |
| `CopyRun.CopyIntoAppend` | src/QuickCopy.py:160-167 | Copying one token's files after the earlier tokens' files equals copying the concatenation. |
| `CopyRun.NamesSnoc` | src/QuickCopy.py:166 | The copied base names of a sequence of copies are those of all but the last, plus the last one's name. |
| `CopyRun.CopyIntoKeys` | src/QuickCopy.py:164-167 | After the copies, the target's names are exactly the old names plus every copied base name. |
| `CopyRun.LastCopyWins` | src/QuickCopy.py:164-167 | A copied base name holds the last copy with that name: two matches with the same base name leave only the later one. |
| `CopyRun.CopyIntoKeepsOthers` | src/QuickCopy.py:164-167 | A target entry whose name no copy has is left unchanged. |
| `CopyRun.CopyIntoSize` | src/QuickCopy.py:164-167 | Without base-name collisions, copying into a target that has none of the names adds exactly one file per copy. |
| `FileTransfer.TargetFolder.constructor` | src/QuickCopy.py:145 | A target folder is either present, or absent and empty. |
| `FileTransfer.TargetFolder.MakeDirs` | src/QuickCopy.py:145 | Creating the target folder leaves it present and its files unchanged; calling it again changes nothing. |
| `FileTransfer.TargetFolder.Copy2` | src/QuickCopy.py:166-167 | A copy lands under the file's base name and replaces any file of that name; no other entry changes. |
| `FileTransfer.CheckInputs` | src/QuickCopy.py:126-135 | The gate refuses with "missing paths" iff one of the three paths is empty (checked first). Otherwise it refuses with "source not found" iff the source folder does not exist, and accepts iff neither holds. |
| `FileTransfer.CountMatches` | src/QuickCopy.py:151-154 | The counting loop returns the sum of the match counts over the catalog, which is also the number of copies the copying pass will make. |
| `FileTransfer.FileTransferApp.constructor` | src/QuickCopy.py:12-19 | The app starts with the three given paths. The progress bar, created at src/QuickCopy.py:74 without options, starts at ttk's defaults: maximum 100, value 0. |
| `FileTransfer.FileTransferApp.StartProcessing` | src/QuickCopy.py:124-135 | When a path is empty or the source folder does not exist, the run is refused with that reason and no copy runs: the app and the target are unchanged. Otherwise the run completes with the summary, target and progress stated by `CopyFiles`. |
| `FileTransfer.FileTransferApp.CopyFiles` | src/QuickCopy.py:138-173 | The target folder exists afterwards and equals the old target with every copy applied in order (last writer wins). The summary is the exact found/not-found split with counts and the total. The progress maximum is set to the total, and the value reaches that total, or stays as it was when there is nothing to copy. Loop invariants keep the progress at exactly the number of copies made so far, never above the maximum. |
| `Tutorial.TutorialWindow.constructor` | src/QuickCopy.py:222-244 | The window opens on step 0 of the four pages. |
| `Tutorial.TutorialWindow.PreviousStep` | src/QuickCopy.py:275-278 | The step goes back by one, and on the first page it is a no-op. The step stays in `[0, len(steps)-1]`. |
| `Tutorial.TutorialWindow.NextStep` | src/QuickCopy.py:280-285 | The step goes forward by one before the last page. On the last page the window closes and the step stays put. The step stays in `[0, len(steps)-1]`. |
| `Tutorial.WalkThrough` | src/QuickCopy.py:270-285 | Pressing Next from a fresh window shows every page once, in order, and then closes the window. |

## Left out

- The tkinter interface: widgets, dialogs, message boxes, styles, window centring and geometry (src/QuickCopy.py:30-121, 247-268). These are presentation only.
- Reading the spreadsheet (`pd.read_excel`, column B, `astype(str)`, src/QuickCopy.py:141-142). This is a foreign library. The catalog column is a parameter `seq<string>`.
- The real `os.walk`, `os.path.exists`, `os.makedirs` and `shutil.copy2`. These are I/O. They are replaced by a walk snapshot, a boolean, an existence flag and a map from base name to source path. Metadata preservation and symbolic-link behaviour are not modelled.
- The target folder is assumed to lie outside the walked source tree: the copying pass never changes the walk snapshot. The input gate (src/QuickCopy.py:126-133) does not check this, and the program does not behave like the model when the target is the source folder or lies inside it. When the target equals the source, `shutil.copy2` copies a file onto itself (src/QuickCopy.py:167). That raises an error, which the catch-all `except` (src/QuickCopy.py:197-198) reports instead of a summary. When the target lies strictly inside the source, the walk for a later token (src/QuickCopy.py:161) also sees files copied for earlier tokens. With a repeated token, or a token that is a prefix of another, the copying pass can then make more copies than the counting pass counted, push the progress value above the maximum, or hit the same self-copy error. The model's `CheckInputs` accepts such inputs, and its `CopyFiles` result holds only for a target outside the source tree.
- Filesystem changes between the counting pass and the copying pass are not modelled: both passes see the same walk snapshot. With a changing tree, the progress value need not end at the maximum.
- Target file names are compared exactly, case included: the target is a map keyed by base name. On case-insensitive file systems, which are the default on macOS and Windows (the platforms configured at src/QuickCopy.py:22-25), `ABC123_a.txt` and `ABC123_A.txt` land on one target file. Case-folding collisions are not modelled, so on such systems `CopyRun.CopyIntoKeys`, `CopyRun.LastCopyWins` and `CopyRun.CopyIntoSize` overstate the number of distinct files on disk.
- The catch-all `except` and its error dialog (src/QuickCopy.py:197-198). An I/O failure mid-run would leave the copies made so far in place; the model has no failing I/O.
- The status label text, `self.root.update()` event pumping, and the summary and detail strings (src/QuickCopy.py:165, 170, 175-195). A found entry is a `(token, count)` pair rather than the text `"token (n files)"`.
- The platform-dependent default source folder (`~/Documents` on macOS and Windows, src/QuickCopy.py:22-25). The constructor takes the three paths as given.
- Destroying the tutorial window: the model keeps the Previous/Next logic callable after the window is closed. In the program, the buttons disappear with the window.
