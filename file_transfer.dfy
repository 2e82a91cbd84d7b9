/** The application's processing: the input gate of `start_processing`, the
    two passes of `copy_files` (count, then copy with progress), and the
    target directory they write into. */
module FileTransfer {
  import opened Matching
  import opened CopyRun
  import opened SeqFacts

  /** The target directory on disk: whether it exists, and the file under
      each base name (recorded as the source path it was copied from). */
  class TargetFolder {
    var present: bool
    var files: Target

    ghost predicate Valid()
      reads this
    {
      !present ==> files == map[]
    }

    constructor (present: bool, files: Target)
      requires present || files == map[]
      ensures Valid() && this.present == present && this.files == files
    {
      this.present := present;
      this.files := files;
    }

    /** `os.makedirs(path, exist_ok=True)`: creates the directory if needed;
        calling it again changes nothing. */
    method MakeDirs()
      requires Valid()
      modifies this
      ensures Valid() && present && files == old(files)
    {
      present := true;
    }

    /** `shutil.copy2(src, target / src.name)`: the file lands under its base
        name and silently replaces a file of the same name. */
    method Copy2(src: FilePath)
      requires Valid() && present
      modifies this
      ensures Valid() && present && files == old(files)[src.name := src]
    {
      files := files[src.name := src];
    }
  }

  /** Why `start_processing` refuses to run, or that it accepts. */
  datatype InputCheck = Accepted | MissingPaths | SourceNotFound

  /** What pressing Start produces: an error dialog, or a completed run. */
  datatype Outcome = Refused(reason: InputCheck) | Completed(summary: RunSummary<string>)

  /** The input gate: all three paths must be non-empty (checked first),
      then the source folder must exist. */
  function CheckInputs(excelPath: string, targetDirectory: string, sourceDirectory: string, sourceExists: bool): (r: InputCheck)
    ensures r == MissingPaths <==> excelPath == [] || targetDirectory == [] || sourceDirectory == []
    ensures r == SourceNotFound <==> excelPath != [] && targetDirectory != [] && sourceDirectory != [] && !sourceExists
    ensures r == Accepted <==> excelPath != [] && targetDirectory != [] && sourceDirectory != [] && sourceExists
  {
    if excelPath == [] || targetDirectory == [] || sourceDirectory == [] then MissingPaths
    else if !sourceExists then SourceNotFound
    else Accepted
  }

  /** The counting pass: sums the number of matches of every catalog token. */
  method CountMatches(walk: Walk, catalog: seq<string>) returns (totalFiles: nat)
    ensures totalFiles == TotalMatches(Finder(walk), catalog)
    ensures totalFiles == |AllCopies(Finder(walk), catalog)|
  {
    totalFiles := 0;
    for i := 0 to |catalog|
      invariant totalFiles == TotalMatches(Finder(walk), catalog[..i])
    {
      var files := FindFilesRecursively(walk, catalog[i]);
      totalFiles := totalFiles + |files|;
      PrefixOfPrefix(catalog, i, i + 1);
    }
    WholePrefix(catalog);
    CopiesMatchTotal(Finder(walk), catalog);
  }

  class FileTransferApp {
    var excelPath: string
    var sourceDirectory: string
    var targetDirectory: string
    /** The progress bar's `maximum` and `value`. */
    var progressMaximum: nat
    var progressValue: nat

    /** The three path fields as the dialogs left them; the progress bar
        starts at ttk's defaults (maximum 100, value 0). */
    constructor (excelPath: string, sourceDirectory: string, targetDirectory: string)
      ensures this.excelPath == excelPath && this.sourceDirectory == sourceDirectory
      ensures this.targetDirectory == targetDirectory
      ensures progressMaximum == 100 && progressValue == 0
    {
      this.excelPath := excelPath;
      this.sourceDirectory := sourceDirectory;
      this.targetDirectory := targetDirectory;
      progressMaximum := 100;
      progressValue := 0;
    }

    /** Start: refuses (and changes nothing) when a path is missing or the
        source folder does not exist; otherwise runs the copy. `catalog` is
        the catalog column as read from the spreadsheet and `walk` the walk
        of the source folder. */
    method StartProcessing(sourceExists: bool, catalog: seq<string>, walk: Walk, target: TargetFolder)
      returns (outcome: Outcome)
      requires target.Valid()
      modifies this`progressMaximum, this`progressValue, target
      ensures target.Valid()
      ensures CheckInputs(excelPath, targetDirectory, sourceDirectory, sourceExists) != Accepted ==>
                outcome == Refused(CheckInputs(excelPath, targetDirectory, sourceDirectory, sourceExists))
                && unchanged(this) && unchanged(target)
      ensures CheckInputs(excelPath, targetDirectory, sourceDirectory, sourceExists) == Accepted ==>
                outcome == Completed(Summarize(Finder(walk), catalog))
                && target.present
                && target.files == CopyInto(old(target.files), AllCopies(Finder(walk), catalog))
                && progressMaximum == TotalMatches(Finder(walk), catalog)
                && progressValue == (if TotalMatches(Finder(walk), catalog) == 0 then old(progressValue) else TotalMatches(Finder(walk), catalog))
    {
      var check := CheckInputs(excelPath, targetDirectory, sourceDirectory, sourceExists);
      if check != Accepted {
        return Refused(check);
      }
      var summary := CopyFiles(catalog, walk, target);
      outcome := Completed(summary);
    }

    /** The two passes. The counting pass fixes the progress maximum; the
        copying pass copies each match of each token into the flat target,
        advancing the progress by one per copy, and sorts each token into
        `found` (with its count) or `not_found`. The progress value is only
        assigned after a copy, so a run with nothing to copy leaves it as it
        was. */
    method CopyFiles(catalog: seq<string>, walk: Walk, target: TargetFolder) returns (summary: RunSummary<string>)
      requires target.Valid()
      modifies this`progressMaximum, this`progressValue, target
      ensures target.Valid() && target.present
      ensures target.files == CopyInto(old(target.files), AllCopies(Finder(walk), catalog))
      ensures summary == Summarize(Finder(walk), catalog)
      ensures progressMaximum == summary.totalFiles
      ensures progressValue == if summary.totalFiles == 0 then old(progressValue) else summary.totalFiles
    {
      target.MakeDirs();
      ghost var before := target.files;

      var found: seq<FoundEntry<string>> := [];
      var notFound: seq<string> := [];
      var totalFiles := CountMatches(walk, catalog);

      progressMaximum := totalFiles;
      var currentProgress := 0;

      for i := 0 to |catalog|
        invariant target.present
        invariant found == FoundOf(Finder(walk), catalog[..i]) && notFound == NotFoundOf(Finder(walk), catalog[..i])
        invariant currentProgress == |AllCopies(Finder(walk), catalog[..i])| <= totalFiles
        invariant target.files == CopyInto(before, AllCopies(Finder(walk), catalog[..i]))
        invariant progressMaximum == totalFiles
        invariant progressValue == if currentProgress == 0 then old(progressValue) else currentProgress
      {
        var catalogNumber := catalog[i];
        var foundFiles := FindFilesRecursively(walk, catalogNumber);
        ghost var done := AllCopies(Finder(walk), catalog[..i]);
        CatalogStep(Finder(walk), catalog, i);

        if foundFiles != [] {
          assert foundFiles[..0] == [];
          for j := 0 to |foundFiles|
            invariant target.present
            invariant currentProgress == |done| + j <= totalFiles
            invariant target.files == CopyInto(CopyInto(before, done), foundFiles[..j])
            invariant progressMaximum == totalFiles
            invariant progressValue == if currentProgress == 0 then old(progressValue) else currentProgress
          {
            var file := foundFiles[j];
            target.Copy2(file);
            currentProgress := currentProgress + 1;
            progressValue := currentProgress;
            CopyIntoStep(CopyInto(before, done), foundFiles, j);
          }
          assert foundFiles[..|foundFiles|] == foundFiles;
          CopyIntoAppend(before, done, foundFiles);
          found := found + [FoundEntry(catalogNumber, |foundFiles|)];
        } else {
          assert done + foundFiles == done;
          notFound := notFound + [catalogNumber];
        }
      }
      WholePrefix(catalog);
      summary := RunSummary(found, notFound, totalFiles);
    }
  }
}
