/**
  * The two loops that drive the renderer over a whole cookbook: compiling the recipe
  * files of one collection while isolating the failures of single files, and
  * assembling the table of contents from the outcomes of the collections.
  */
module Pipeline {
  import opened Wrappers
  import opened Strings
  import opened Latex

  // ---------------------------------------------------------------------------
  // One collection

  /** A recipe file of a collection and what compiling it gave: its output path, or an error. */
  datatype FileOutcome = FileOutcome(path: string, result: Result<string, string>)

  /** Why a collection produced no recipes. */
  datatype CollectionError =
    | ReadFailed(path: string)        // its directory could not be listed
    | NameUnreadable(reason: string)  // its path has no usable last component
    | NothingCompiled(name: string)   // none of its files compiled

  /** How a collection error reads. */
  function ErrorText(e: CollectionError): string {
    match e
    case ReadFailed(path) => "Failed to read collection: " + path
    case NameUnreadable(reason) => reason
    case NothingCompiled(name) => "No recipes were successfully compiled in collection: " + name
  }

  /** A warning printed to standard error; processing carries on after it. */
  datatype Warning =
    | RecipeFailed(path: string, reason: string)
    | CollectionFailed(name: string, cause: CollectionError)

  /** How a warning reads. */
  function WarningText(w: Warning): string {
    match w
    case RecipeFailed(path, reason) => "Warning: Failed to compile recipe " + path + ": " + reason
    case CollectionFailed(name, cause) => "Warning: Failed to process collection " + name + ": " + ErrorText(cause)
  }

  /** The output paths of the files that compiled, in file order. */
  function Successes(files: seq<FileOutcome>): seq<string> {
    if files == [] then []
    else
      var f := files[|files| - 1];
      Successes(files[..|files| - 1]) + (if f.result.Ok? then [f.result.value] else [])
  }

  /** One warning per file that did not compile, in file order. */
  function Failures(files: seq<FileOutcome>): seq<Warning> {
    if files == [] then []
    else
      var f := files[|files| - 1];
      Failures(files[..|files| - 1]) + (if f.result.Err? then [RecipeFailed(f.path, f.result.error)] else [])
  }

  /**
    * What `transpile_collection` returns for a collection at `path`, given the listing of
    * its directory (with each file's compilation outcome) and the collection's name.
    */
  function CollectionResult(path: string, listing: Result<seq<FileOutcome>, string>,
                            name: Result<string, string>): Result<seq<string>, CollectionError>
  {
    match listing
    case Err(_) => Err(ReadFailed(path))
    case Ok(files) =>
      match name
      case Err(e) => Err(NameUnreadable(e))
      case Ok(n) => if Successes(files) == [] then Err(NothingCompiled(n)) else Ok(Successes(files))
  }

  /**
    * `transpile_collection`: compiles the files one by one, keeps the paths of those that
    * compiled and reports the others as warnings; fails when none compiled.
    */
  method TranspileCollection(path: string, listing: Result<seq<FileOutcome>, string>,
                             name: Result<string, string>)
    returns (r: Result<seq<string>, CollectionError>, warnings: seq<Warning>)
    ensures r == CollectionResult(path, listing, name)
    ensures warnings == (if listing.Ok? && name.Ok? then Failures(listing.value) else [])
  {
    warnings := [];
    if listing.Err? {
      return Err(ReadFailed(path)), warnings;
    }
    if name.Err? {
      return Err(NameUnreadable(name.error)), warnings;
    }
    var files := listing.value;
    var resultFiles: seq<string> := [];
    var i := 0;
    while i < |files|
      invariant 0 <= i <= |files|
      invariant resultFiles == Successes(files[..i])
      invariant warnings == Failures(files[..i])
    {
      var f := files[i];
      assert files[..i + 1][..i] == files[..i];
      match f.result {
        case Ok(p) =>
          resultFiles := resultFiles + [p];
        case Err(e) =>
          warnings := warnings + [RecipeFailed(f.path, e)];
      }
      i := i + 1;
    }
    assert files[..|files|] == files;
    if resultFiles == [] {
      return Err(NothingCompiled(name.value)), warnings;
    }
    return Ok(resultFiles), warnings;
  }

  /** Compiling two runs of files one after the other keeps the successes of each, in order. */
  lemma {:induction false} SuccessesAppend(a: seq<FileOutcome>, b: seq<FileOutcome>)
    ensures Successes(a + b) == Successes(a) + Successes(b)
    ensures Failures(a + b) == Failures(a) + Failures(b)
    decreases |b|
  {
    if b == [] {
      assert a + b == a;
    } else {
      assert (a + b)[..|a + b| - 1] == a + b[..|b| - 1];
      SuccessesAppend(a, b[..|b| - 1]);
    }
  }

  /** Every file is either kept or reported, never both and never neither. */
  lemma {:induction false} SuccessesCount(files: seq<FileOutcome>)
    ensures |Successes(files)| + |Failures(files)| == |files|
    decreases |files|
  {
    if files != [] {
      SuccessesCount(files[..|files| - 1]);
    }
  }

  /** A path is kept exactly when some file compiled to it. */
  lemma {:induction false} SuccessesMember(files: seq<FileOutcome>, p: string)
    ensures p in Successes(files) <==> exists i :: 0 <= i < |files| && files[i].result == Ok(p)
    decreases |files|
  {
    if files != [] {
      var init := files[..|files| - 1];
      SuccessesMember(init, p);
      if p in Successes(init) {
        var i :| 0 <= i < |init| && init[i].result == Ok(p);
        assert files[i].result == Ok(p);
      }
      if exists i :: 0 <= i < |files| && files[i].result == Ok(p) {
        var i :| 0 <= i < |files| && files[i].result == Ok(p);
        if i < |init| {
          assert init[i].result == Ok(p);
        }
      }
    }
  }

  /** When every file compiles, the result lists all their paths in file order. */
  lemma {:induction false} SuccessesAll(files: seq<FileOutcome>)
    requires forall i :: 0 <= i < |files| ==> files[i].result.Ok?
    ensures |Successes(files)| == |files|
    ensures forall i :: 0 <= i < |files| ==> Successes(files)[i] == files[i].result.value
    decreases |files|
  {
    if files != [] {
      SuccessesAll(files[..|files| - 1]);
    }
  }

  /** Nothing is kept exactly when every file failed. */
  lemma {:induction false} SuccessesEmpty(files: seq<FileOutcome>)
    ensures Successes(files) == [] <==> forall i :: 0 <= i < |files| ==> files[i].result.Err?
    decreases |files|
  {
    if files != [] {
      var init := files[..|files| - 1];
      SuccessesEmpty(init);
      assert forall i :: 0 <= i < |init| ==> init[i] == files[i];
    }
  }

  /**
    * A collection fails exactly when its directory cannot be listed, its name cannot be
    * read, or none of its files compiled; otherwise it lists at least one path.
    */
  lemma CollectionFails(path: string, listing: Result<seq<FileOutcome>, string>, name: Result<string, string>)
    ensures var r := CollectionResult(path, listing, name);
      r.Err? <==> (listing.Err? || name.Err?
        || forall i :: 0 <= i < |listing.value| ==> listing.value[i].result.Err?)
    ensures var r := CollectionResult(path, listing, name); r.Ok? ==> |r.value| > 0
  {
    if listing.Ok? {
      SuccessesEmpty(listing.value);
    }
  }

  // ---------------------------------------------------------------------------
  // The table of contents

  /** A collection named on the command line: its name, or why it has none, and the outcome of compiling it. */
  datatype Collection = Collection(name: Result<string, string>, compiled: Result<seq<string>, CollectionError>)

  function InputLine(file: string): string {
    SimpleLine("input", file)
  }

  function NewPage(): string {
    "\\newpage"
  }

  lemma NewPageIsCommand()
    ensures CommandLine("newpage", []) == NewPage()
  {
  }

  /** The lines for the `j`-th recipe file: its `\input`, and a `\newpage` unless it is the last file. */
  function InputEntry(files: seq<string>, j: nat): seq<string>
    requires j < |files|
  {
    [InputLine(files[j])] + (if j + 1 < |files| then [NewPage()] else [])
  }

  /** The lines for the first `k` recipe files. */
  function InputLinesUpTo(files: seq<string>, k: nat): seq<string>
    requires k <= |files|
  {
    if k == 0 then [] else InputLinesUpTo(files, k - 1) + InputEntry(files, k - 1)
  }

  function InputLines(files: seq<string>): seq<string> {
    InputLinesUpTo(files, |files|)
  }

  /**
    * `\input` lines sit at the even positions, in file order, with a `\newpage` between
    * each two of them and none after the last.
    */
  lemma {:induction false} InputLinesShape(files: seq<string>, k: nat)
    requires k <= |files|
    ensures |InputLinesUpTo(files, k)| == if 0 < k == |files| then 2 * k - 1 else 2 * k
    ensures forall i :: 0 <= i < k ==>
      InputLinesUpTo(files, k)[2 * i] == InputLine(files[i])
      && (i + 1 < |files| ==> InputLinesUpTo(files, k)[2 * i + 1] == NewPage())
    decreases k
  {
    if k > 0 {
      InputLinesShape(files, k - 1);
      var before := InputLinesUpTo(files, k - 1);
      assert |before| == 2 * (k - 1);
      forall i | 0 <= i < k
        ensures InputLinesUpTo(files, k)[2 * i] == InputLine(files[i])
          && (i + 1 < |files| ==> InputLinesUpTo(files, k)[2 * i + 1] == NewPage())
      {
        if i < k - 1 {
          assert InputLinesUpTo(files, k)[2 * i] == before[2 * i];
          assert InputLinesUpTo(files, k)[2 * i + 1] == before[2 * i + 1];
        }
      }
    }
  }

  /** `k` recipe files give `k` `\input` lines and `k - 1` page breaks, and the last line is the last file's. */
  lemma InputLinesEnd(files: seq<string>)
    requires files != []
    ensures |InputLines(files)| == 2 * |files| - 1
    ensures InputLines(files)[|InputLines(files)| - 1] == InputLine(files[|files| - 1])
  {
    InputLinesShape(files, |files|);
    assert 2 * (|files| - 1) == |InputLines(files)| - 1;
  }

  /** The lines of one collection: its chapter, then its recipes when it compiled. */
  function CollectionLines(name: string, compiled: Result<seq<string>, CollectionError>): seq<string> {
    [SimpleLine("chapter", name)] + (if compiled.Ok? then InputLines(compiled.value) else [])
  }


  /**
    * The state of the table-of-contents loop: the lines so far, the warnings so far, and
    * the error of a collection whose name could not be read, which ends the program.
    */
  datatype Toc = Toc(lines: seq<string>, warnings: seq<Warning>, failure: Option<string>)

  /** The warning for a collection that failed to compile, if it did. */
  function CollectionWarnings(name: string, compiled: Result<seq<string>, CollectionError>): seq<Warning> {
    if compiled.Err? then [CollectionFailed(name, compiled.error)] else []
  }

  /** One turn of the loop: what collection `c` does to the table of contents so far. */
  function TocStep(t: Toc, c: Collection): Toc {
    if t.failure.Some? then t
    else
      match c.name
      case Err(e) => Toc(t.lines, t.warnings, Some(e))
      case Ok(name) => Toc(t.lines + CollectionLines(name, c.compiled), t.warnings + CollectionWarnings(name, c.compiled), None)
  }

  /** The table of contents after the first `n` collections. */
  function TocUpTo(cs: seq<Collection>, n: nat): Toc
    requires n <= |cs|
  {
    if n == 0 then Toc([], [], None) else TocStep(TocUpTo(cs, n - 1), cs[n - 1])
  }

  /** A turn only adds lines and warnings, and after a failure changes nothing. */
  lemma TocStepGrows(t: Toc, c: Collection)
    ensures t.lines <= TocStep(t, c).lines && t.warnings <= TocStep(t, c).warnings
    ensures t.failure.Some? ==> TocStep(t, c) == t
  {
  }

  lemma TocNext(cs: seq<Collection>, n: nat)
    requires n < |cs|
    ensures TocUpTo(cs, n + 1) == TocStep(TocUpTo(cs, n), cs[n])
  {
  }

  /** Once a collection's name fails, nothing after it changes the outcome. */
  lemma {:induction false} TocStops(cs: seq<Collection>, n: nat, m: nat)
    requires n <= m <= |cs| && TocUpTo(cs, n).failure.Some?
    ensures TocUpTo(cs, m) == TocUpTo(cs, n)
    decreases m
  {
    if m > n {
      TocStops(cs, n, m - 1);
      TocNext(cs, m - 1);
      TocStepGrows(TocUpTo(cs, m - 1), cs[m - 1]);
    }
  }

  /** One turn of the `peekable` loop: the file's `\input`, then `\newpage` when another file follows. */
  method AddInput(latex: LatexBuilder, files: seq<string>, j: nat)
    requires j < |files|
    modifies latex
    ensures latex.content == old(latex.content) + InputEntry(files, j)
  {
    SimpleLineIsCommand("input", files[j]);
    latex.AddSimpleCommand("input", files[j]);
    if j + 1 < |files| {
      NewPageIsCommand();
      latex.AddCommand("newpage", []);
    }
  }

  /** The `\input` and `\newpage` lines for `files`, appended by the `peekable` loop. */
  method AddInputs(latex: LatexBuilder, files: seq<string>)
    modifies latex
    ensures latex.content == old(latex.content) + InputLines(files)
  {
    ghost var start := latex.content;
    var j := 0;
    while j < |files|
      invariant 0 <= j <= |files|
      invariant latex.content == start + InputLinesUpTo(files, j)
    {
      AddInput(latex, files, j);
      assert start + InputLinesUpTo(files, j) + InputEntry(files, j) == start + (InputLinesUpTo(files, j) + InputEntry(files, j));
      assert InputLinesUpTo(files, j + 1) == InputLinesUpTo(files, j) + InputEntry(files, j);
      j := j + 1;
    }
  }

  /** The lines of a collection whose name reads: its chapter, then its recipes when it compiled. */
  method AddCollection(latex: LatexBuilder, name: string, compiled: Result<seq<string>, CollectionError>)
    modifies latex
    ensures latex.content == old(latex.content) + CollectionLines(name, compiled)
  {
    ghost var start := latex.content;
    SimpleLineIsCommand("chapter", name);
    latex.AddSimpleCommand("chapter", name);
    if compiled.Ok? {
      AddInputs(latex, compiled.value);
    }
    ghost var inputs := if compiled.Ok? then InputLines(compiled.value) else [];
    assert start + [SimpleLine("chapter", name)] + inputs == start + ([SimpleLine("chapter", name)] + inputs);
  }

  /**
    * One turn of the table-of-contents loop, for collection `cs[n]`: an unreadable name
    * becomes the failure; otherwise its chapter and recipes are appended and its warning,
    * if any, is added to `warnings`.
    */
  method VisitCollection(latex: LatexBuilder, ghost toc: Toc, c: Collection, warnings: seq<Warning>)
    returns (failure: Option<string>, warnings': seq<Warning>)
    requires toc.failure.None? && latex.content == toc.lines && warnings == toc.warnings
    modifies latex
    ensures failure == TocStep(toc, c).failure && warnings' == TocStep(toc, c).warnings
    ensures failure.None? ==> latex.content == TocStep(toc, c).lines
  {
    if c.name.Err? {
      return Some(c.name.error), warnings;
    }
    AddCollection(latex, c.name.value, c.compiled);
    warnings' := warnings + CollectionWarnings(c.name.value, c.compiled);
    failure := None;
  }

  /**
    * The table-of-contents loop of `main` over `cs`: a chapter per collection, then its
    * recipes or, when it failed to compile, a warning. A collection whose name cannot be
    * read stops the loop with that error.
    */
  method AddCollections(latex: LatexBuilder, cs: seq<Collection>)
    returns (failure: Option<string>, warnings: seq<Warning>)
    requires latex.content == []
    modifies latex
    ensures var t := TocUpTo(cs, |cs|);
      failure == t.failure && warnings == t.warnings && (failure.None? ==> latex.content == t.lines)
  {
    ghost var toc := Toc([], [], None);
    failure, warnings := None, [];
    var i := 0;
    while i < |cs| && failure.None?
      invariant 0 <= i <= |cs| && toc == TocUpTo(cs, i)
      invariant failure == toc.failure && warnings == toc.warnings
      invariant failure.None? ==> latex.content == toc.lines
    {
      failure, warnings := VisitCollection(latex, toc, cs[i], warnings);
      toc := TocStep(toc, cs[i]);
      i := i + 1;
    }
    if failure.Some? {
      TocStops(cs, i, |cs|);
    }
  }

  /** The table of contents of `main`: the built document, or the error of an unreadable collection name. */
  method TableOfContents(cs: seq<Collection>) returns (r: Result<string, string>, warnings: seq<Warning>)
    ensures var t := TocUpTo(cs, |cs|);
      warnings == t.warnings
      && r == (if t.failure.Some? then Err(t.failure.value) else Ok(Join(t.lines, "\n")))
  {
    var latex := new LatexBuilder();
    var failure;
    failure, warnings := AddCollections(latex, cs);
    if failure.Some? {
      return Err(failure.value), warnings;
    }
    return Ok(latex.Build()), warnings;
  }

  /** The loop ends early exactly when some collection's name cannot be read, with the first such error. */
  lemma {:induction false} TocFailure(cs: seq<Collection>, n: nat)
    requires n <= |cs|
    ensures TocUpTo(cs, n).failure.None? <==> NamesRead(cs, n)
    ensures TocUpTo(cs, n).failure.Some? ==>
      exists i :: 0 <= i < n && cs[i].name == Err(TocUpTo(cs, n).failure.value) && NamesRead(cs, i)
    decreases n
  {
    if n > 0 {
      TocFailure(cs, n - 1);
      var before := TocUpTo(cs, n - 1).failure;
      var now := TocUpTo(cs, n).failure;
      TocFailureStep(cs, n);
      NamesReadStep(cs, n);
    }
  }

  /** The names of the first `n` collections all read. */
  predicate NamesRead(cs: seq<Collection>, n: nat)
    requires n <= |cs|
  {
    forall j :: 0 <= j < n ==> cs[j].name.Ok?
  }

  lemma NamesReadStep(cs: seq<Collection>, n: nat)
    requires 0 < n <= |cs|
    ensures NamesRead(cs, n) <==> NamesRead(cs, n - 1) && cs[n - 1].name.Ok?
  {
  }

  lemma TocFailureStep(cs: seq<Collection>, n: nat)
    requires 0 < n <= |cs|
    ensures var before := TocUpTo(cs, n - 1).failure;
      TocUpTo(cs, n).failure
        == if before.Some? then before else if cs[n - 1].name.Err? then Some(cs[n - 1].name.error) else None
  {
  }

  /** Output already produced is never taken back: later collections only add lines and warnings. */
  lemma {:induction false} TocGrows(cs: seq<Collection>, m: nat, n: nat)
    requires m <= n <= |cs|
    ensures TocUpTo(cs, m).lines <= TocUpTo(cs, n).lines
    ensures TocUpTo(cs, m).warnings <= TocUpTo(cs, n).warnings
    decreases n
  {
    if m < n {
      TocGrows(cs, m, n - 1);
      TocNext(cs, n - 1);
      TocStepGrows(TocUpTo(cs, n - 1), cs[n - 1]);
    }
  }

  /** The number of collections among the first `n` that failed to compile. */
  function FailedCount(cs: seq<Collection>, n: nat): nat
    requires n <= |cs|
  {
    if n == 0 then 0 else FailedCount(cs, n - 1) + (if cs[n - 1].compiled.Err? then 1 else 0)
  }

  /** The lines one collection contributes: a chapter, and two lines per recipe less one. */
  function CollectionSize(c: Collection): nat {
    if c.compiled.Ok? && c.compiled.value != [] then 2 * |c.compiled.value| else 1
  }

  function TocSize(cs: seq<Collection>, n: nat): nat
    requires n <= |cs|
  {
    if n == 0 then 0 else TocSize(cs, n - 1) + CollectionSize(cs[n - 1])
  }

  /**
    * When every name reads, each collection adds its chapter and its `\input`/`\newpage`
    * lines, and there is one warning per collection that failed to compile.
    */
  lemma {:induction false} TocCounts(cs: seq<Collection>, n: nat)
    requires n <= |cs|
    requires TocUpTo(cs, n).failure.None?
    ensures |TocUpTo(cs, n).lines| == TocSize(cs, n)
    ensures |TocUpTo(cs, n).warnings| == FailedCount(cs, n)
    decreases n
  {
    if n > 0 {
      TocCounts(cs, n - 1);
      var c := cs[n - 1];
      if c.compiled.Ok? && c.compiled.value != [] {
        InputLinesEnd(c.compiled.value);
      }
    }
  }
}
