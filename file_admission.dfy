/**
 * The pure rules the upload drop zone applies to candidate files
 * (frontend/src/components/drag-zone.tsx): type validation, the per-file
 * admission decision of `handleFiles`, and removal by identity.
 */
module FileAdmission {
  import opened Subsequences

  /**
   * A browser `File`. `id` stands for JavaScript object identity: two entries
   * are the same file exactly when their ids are equal.
   */
  datatype File = File(id: nat, name: string, size: nat, mime: string)

  /** ASCII lower-casing of one character. */
  function LowerChar(c: char): char
  {
    if 'A' <= c <= 'Z' then (c as int + 32) as char else c
  }

  /** `toLowerCase()`, on ASCII letters. */
  function Lower(s: string): (r: string)
    ensures |r| == |s|
    ensures forall i :: 0 <= i < |s| ==> r[i] == LowerChar(s[i])
  {
    if |s| == 0 then "" else [LowerChar(s[0])] + Lower(s[1..])
  }

  /** `s.split(".").pop()`: the text after the last dot, or all of `s` when it has no dot. */
  function AfterLastDot(s: string): (r: string)
    ensures '.' !in r
    ensures |r| <= |s| && r == s[|s| - |r|..]
    ensures '.' !in s ==> r == s
    ensures '.' in s ==> |r| < |s| && s[|s| - |r| - 1] == '.'
  {
    if |s| == 0 then ""
    else if s[|s| - 1] == '.' then ""
    else
      var r := AfterLastDot(s[..|s| - 1]) + [s[|s| - 1]];
      assert s == s[..|s| - 1] + [s[|s| - 1]];
      r
  }

  /** The extension a name is compared under: a dot, then the lower-cased last dot-separated part. */
  function FileExtension(name: string): (ext: string)
    ensures |ext| >= 1 && ext[0] == '.'
    ensures forall i :: 1 <= i < |ext| ==> ext[i] != '.' && LowerChar(ext[i]) == ext[i]
  {
    var stem := AfterLastDot(name);
    LowerDotFree(stem);
    "." + Lower(stem)
  }

  /** Lower-casing a dot-free text gives a dot-free text that lower-casing leaves alone. */
  lemma LowerDotFree(s: string)
    requires '.' !in s
    ensures forall i :: 0 <= i < |Lower(s)| ==> Lower(s)[i] != '.' && LowerChar(Lower(s)[i]) == Lower(s)[i]
  {
    var l := Lower(s);
    forall i | 0 <= i < |l|
      ensures l[i] != '.' && LowerChar(l[i]) == l[i]
    {
      assert s[i] != '.' && l[i] == LowerChar(s[i]);
    }
  }

  /**
   * One allowed entry matches a file by MIME type or by extension, ignoring case; an entry
   * that does not start with a dot can only match by MIME type.
   */
  function TypeMatches(entry: string, f: File): (m: bool)
    ensures m && (|entry| == 0 || entry[0] != '.') ==> Lower(entry) == Lower(f.mime)
  {
    Lower(entry) == Lower(f.mime) || Lower(entry) == FileExtension(f.name)
  }

  /** `allowedFileTypes.some(...)`. */
  function SomeTypeMatches(allowed: seq<string>, f: File): (r: bool)
    ensures |allowed| == 0 ==> !r
    ensures |allowed| > 0 && TypeMatches(allowed[0], f) ==> r
  {
    if |allowed| == 0 then false
    else TypeMatches(allowed[0], f) || SomeTypeMatches(allowed[1..], f)
  }

  /** `validateFileType`: an empty list allows everything, otherwise some entry must match. */
  function ValidateFileType(allowed: seq<string>, f: File): (ok: bool)
    ensures |allowed| == 0 ==> ok
  {
    |allowed| == 0 || SomeTypeMatches(allowed, f)
  }

  lemma {:induction false} SomeTypeMatchesMeaning(allowed: seq<string>, f: File)
    ensures SomeTypeMatches(allowed, f) <==> exists i :: 0 <= i < |allowed| && TypeMatches(allowed[i], f)
    decreases |allowed|
  {
    if |allowed| > 0 {
      SomeTypeMatchesMeaning(allowed[1..], f);
      if !TypeMatches(allowed[0], f) && exists i :: 0 <= i < |allowed| && TypeMatches(allowed[i], f) {
        var i :| 0 <= i < |allowed| && TypeMatches(allowed[i], f);
        assert allowed[1..][i - 1] == allowed[i];
      }
    }
  }

  /** With a non-empty list, a file passes exactly when some entry matches its MIME type or its extension. */
  lemma ValidateFileTypeMeaning(allowed: seq<string>, f: File)
    requires |allowed| > 0
    ensures ValidateFileType(allowed, f) <==>
      exists i :: 0 <= i < |allowed| && (Lower(allowed[i]) == Lower(f.mime) || Lower(allowed[i]) == FileExtension(f.name))
  {
    SomeTypeMatchesMeaning(allowed, f);
  }

  lemma LowerIdempotent(s: string)
    ensures Lower(Lower(s)) == Lower(s)
  {
    assert forall i :: 0 <= i < |s| ==> LowerChar(LowerChar(s[i])) == LowerChar(s[i]);
  }

  /** A name without a dot is its own extension: `"README"` is compared as `".readme"`. */
  lemma DotlessNameExtension(name: string)
    requires '.' !in name
    ensures FileExtension(name) == "." + Lower(name)
  {
  }

  lemma {:induction false} AfterDot(stem: string, ext: string)
    requires '.' !in ext
    ensures AfterLastDot(stem + "." + ext) == ext
    decreases |ext|
  {
    var s := stem + "." + ext;
    if |ext| == 0 {
      assert s[|s| - 1] == '.';
    } else {
      assert s[..|s| - 1] == stem + "." + ext[..|ext| - 1];
      assert '.' !in ext[..|ext| - 1] by {
        assert forall c :: c in ext[..|ext| - 1] ==> c in ext;
      }
      AfterDot(stem, ext[..|ext| - 1]);
      assert ext == ext[..|ext| - 1] + [ext[|ext| - 1]];
    }
  }

  /** Only the part after the last dot counts: `"archive.tar.GZ"` has extension `".gz"`. */
  lemma ExtensionAfterLastDot(stem: string, ext: string)
    requires '.' !in ext
    ensures FileExtension(stem + "." + ext) == "." + Lower(ext)
  {
    AfterDot(stem, ext);
  }

  /** The case of an allowed entry does not matter. */
  lemma EntryCaseIgnored(entry: string, f: File)
    ensures TypeMatches(entry, f) <==> TypeMatches(Lower(entry), f)
  {
    LowerIdempotent(entry);
  }

  /** The case of the file's MIME type does not matter either. */
  lemma MimeCaseIgnored(allowed: seq<string>, f: File)
    ensures ValidateFileType(allowed, f) == ValidateFileType(allowed, f.(mime := Lower(f.mime)))
  {
    LowerIdempotent(f.mime);
    var g := f.(mime := Lower(f.mime));
    assert forall i :: 0 <= i < |allowed| ==> (TypeMatches(allowed[i], f) <==> TypeMatches(allowed[i], g));
    SomeTypeMatchesMeaning(allowed, f);
    SomeTypeMatchesMeaning(allowed, g);
  }

  /** `selectedFiles.some(...)`: a selected file has the same name and size. */
  function IsDuplicate(selected: seq<File>, f: File): (r: bool)
    ensures |selected| == 0 ==> !r
    ensures |selected| > 0 && selected[0].name == f.name && selected[0].size == f.size ==> r
  {
    if |selected| == 0 then false
    else (selected[0].name == f.name && selected[0].size == f.size) || IsDuplicate(selected[1..], f)
  }

  lemma {:induction false} IsDuplicateMeaning(selected: seq<File>, f: File)
    ensures IsDuplicate(selected, f) <==> exists j :: 0 <= j < |selected| && selected[j].name == f.name && selected[j].size == f.size
    decreases |selected|
  {
    if |selected| > 0 {
      IsDuplicateMeaning(selected[1..], f);
      if exists j :: 0 <= j < |selected| && selected[j].name == f.name && selected[j].size == f.size {
        var j :| 0 <= j < |selected| && selected[j].name == f.name && selected[j].size == f.size;
        if j > 0 {
          assert selected[1..][j - 1] == selected[j];
        }
      }
    }
  }

  /** What `handleFiles` does with one candidate. */
  datatype Verdict = Admitted | TypeRejected | DuplicateRejected | LimitReached

  /**
   * The decision for one candidate, given the selection from before the call and
   * the number of files this call has admitted so far.
   */
  function Classify(allowed: seq<string>, maxFiles: int, selected: seq<File>, added: nat, f: File): (v: Verdict)
    ensures v == TypeRejected <==> !ValidateFileType(allowed, f)
    ensures v == DuplicateRejected <==> ValidateFileType(allowed, f) && IsDuplicate(selected, f)
    ensures v == Admitted <==> ValidateFileType(allowed, f) && !IsDuplicate(selected, f) && added < maxFiles
    ensures v == LimitReached <==> ValidateFileType(allowed, f) && !IsDuplicate(selected, f) && maxFiles <= added
  {
    if !ValidateFileType(allowed, f) then TypeRejected
    else if !IsDuplicate(selected, f) && added < maxFiles then Admitted
    else if IsDuplicate(selected, f) then DuplicateRejected
    else LimitReached
  }

  /** The outcome of one `handleFiles` call: a verdict per candidate and the admitted files. */
  datatype Selection = Selection(verdicts: seq<Verdict>, admitted: seq<File>)

  function Max0(n: int): nat
  {
    if n < 0 then 0 else n
  }

  /** The candidates of one call, processed in order, none skipped. */
  function Scan(allowed: seq<string>, maxFiles: int, selected: seq<File>, files: seq<File>): (s: Selection)
    ensures |s.verdicts| == |files|
    ensures |s.admitted| <= Max0(maxFiles)
    decreases |files|
  {
    if |files| == 0 then Selection([], [])
    else
      var prev := Scan(allowed, maxFiles, selected, files[..|files| - 1]);
      var f := files[|files| - 1];
      var v := Classify(allowed, maxFiles, selected, |prev.admitted|, f);
      Selection(prev.verdicts + [v], if v == Admitted then prev.admitted + [f] else prev.admitted)
  }

  /** Admitted files keep the order they had among the candidates. */
  lemma {:induction false} AdmittedInOrder(allowed: seq<string>, maxFiles: int, selected: seq<File>, files: seq<File>)
    ensures IsSubseq(Scan(allowed, maxFiles, selected, files).admitted, files)
    decreases |files|
  {
    if |files| > 0 {
      var init := files[..|files| - 1];
      var f := files[|files| - 1];
      AdmittedInOrder(allowed, maxFiles, selected, init);
      ScanAdmittedStep(allowed, maxFiles, selected, files);
      var prev := Scan(allowed, maxFiles, selected, init).admitted;
      var a := Scan(allowed, maxFiles, selected, files).admitted;
      if a != prev {
        assert a[..|a| - 1] == prev;
      }
    }
  }

  /** Processing a prefix of the candidates gives a prefix of the verdicts. */
  lemma {:induction false} ScanPrefix(allowed: seq<string>, maxFiles: int, selected: seq<File>, files: seq<File>, k: nat)
    requires k <= |files|
    ensures Scan(allowed, maxFiles, selected, files[..k]).verdicts == Scan(allowed, maxFiles, selected, files).verdicts[..k]
    decreases |files|
  {
    if k < |files| {
      var init := files[..|files| - 1];
      assert init[..k] == files[..k];
      ScanPrefix(allowed, maxFiles, selected, init, k);
    } else {
      assert files[..k] == files;
    }
  }

  lemma {:induction false} ScanLast(allowed: seq<string>, maxFiles: int, selected: seq<File>, files: seq<File>)
    requires |files| > 0
    ensures Scan(allowed, maxFiles, selected, files).verdicts[|files| - 1]
         == Classify(allowed, maxFiles, selected, |Scan(allowed, maxFiles, selected, files[..|files| - 1]).admitted|, files[|files| - 1])
  {
  }

  /**
   * The loop never stops early: the verdict on candidate `i` is the single-file decision
   * given how many of the candidates before it were admitted.
   */
  lemma VerdictAt(allowed: seq<string>, maxFiles: int, selected: seq<File>, files: seq<File>, i: nat)
    requires i < |files|
    ensures Scan(allowed, maxFiles, selected, files).verdicts[i]
         == Classify(allowed, maxFiles, selected, |Scan(allowed, maxFiles, selected, files[..i]).admitted|, files[i])
  {
    var p := files[..i + 1];
    ScanPrefix(allowed, maxFiles, selected, files, i + 1);
    ScanLast(allowed, maxFiles, selected, p);
    assert p[..i] == files[..i];
  }

  /** Every admitted file passed type validation and duplicates nothing selected before the call. */
  lemma {:induction false} AdmittedAreValidAndFresh(allowed: seq<string>, maxFiles: int, selected: seq<File>, files: seq<File>)
    ensures forall x :: x in Scan(allowed, maxFiles, selected, files).admitted ==>
      ValidateFileType(allowed, x) && !IsDuplicate(selected, x)
    decreases |files|
  {
    if |files| > 0 {
      AdmittedAreValidAndFresh(allowed, maxFiles, selected, files[..|files| - 1]);
    }
  }

  /**
   * Once a candidate meets the limit, the call has admitted exactly `maxFiles` files
   * (none when `maxFiles` is not positive), and no later candidate is admitted.
   */
  lemma {:induction false} LimitIsFinal(allowed: seq<string>, maxFiles: int, selected: seq<File>, files: seq<File>, i: nat)
    requires i < |files|
    requires Scan(allowed, maxFiles, selected, files).verdicts[i] == LimitReached
    ensures |Scan(allowed, maxFiles, selected, files[..i]).admitted| == Max0(maxFiles)
    ensures |Scan(allowed, maxFiles, selected, files).admitted| == Max0(maxFiles)
    decreases |files|
  {
    VerdictAt(allowed, maxFiles, selected, files, i);
    var before := Scan(allowed, maxFiles, selected, files[..i]);
    assert maxFiles <= |before.admitted| <= Max0(maxFiles);
    if i < |files| - 1 {
      var init := files[..|files| - 1];
      assert init[..i] == files[..i];
      ScanPrefix(allowed, maxFiles, selected, files, |files| - 1);
      LimitIsFinal(allowed, maxFiles, selected, init, i);
    }
  }

  function Min(a: int, b: int): int
  {
    if a <= b then a else b
  }

  lemma ScanAdmittedStep(allowed: seq<string>, maxFiles: int, selected: seq<File>, files: seq<File>)
    requires |files| > 0
    ensures var prev := Scan(allowed, maxFiles, selected, files[..|files| - 1]).admitted;
      Scan(allowed, maxFiles, selected, files).admitted
        == if Classify(allowed, maxFiles, selected, |prev|, files[|files| - 1]) == Admitted
           then prev + [files[|files| - 1]] else prev
  {
  }

  /** Count-only view of the step: a fresh file with an allowed type is admitted exactly while under the limit. */
  lemma FreshStep(allowed: seq<string>, maxFiles: int, selected: seq<File>, files: seq<File>)
    requires |files| > 0
    requires ValidateFileType(allowed, files[|files| - 1]) && !IsDuplicate(selected, files[|files| - 1])
    ensures var prev := Scan(allowed, maxFiles, selected, files[..|files| - 1]).admitted;
      Scan(allowed, maxFiles, selected, files).admitted
        == if |prev| < maxFiles then prev + [files[|files| - 1]] else prev
  {
    ScanAdmittedStep(allowed, maxFiles, selected, files);
  }

  /**
   * When every candidate has an allowed type and duplicates nothing selected before,
   * the first `maxFiles` candidates are admitted, however many files were selected already.
   */
  lemma {:induction false} FreshFilesUpToLimit(allowed: seq<string>, maxFiles: int, selected: seq<File>, files: seq<File>)
    requires forall i :: 0 <= i < |files| ==> ValidateFileType(allowed, files[i]) && !IsDuplicate(selected, files[i])
    ensures Scan(allowed, maxFiles, selected, files).admitted == files[..Min(|files|, Max0(maxFiles))]
    decreases |files|
  {
    if |files| > 0 {
      var init := files[..|files| - 1];
      FreshFilesUpToLimit(allowed, maxFiles, selected, init);
      FreshStep(allowed, maxFiles, selected, files);
      if |init| < Max0(maxFiles) {
        assert files[..Min(|files|, Max0(maxFiles))] == init + [files[|files| - 1]];
      } else {
        assert files[..Min(|files|, Max0(maxFiles))] == init[..Max0(maxFiles)];
      }
    }
  }

  /** Two identical files in one drop are not checked against each other: both are admitted. */
  lemma SameDropNotDeduplicated(allowed: seq<string>, maxFiles: int, selected: seq<File>, f: File, g: File)
    requires f.name == g.name && f.size == g.size
    requires ValidateFileType(allowed, f) && ValidateFileType(allowed, g) && !IsDuplicate(selected, f)
    requires 2 <= maxFiles
    ensures Scan(allowed, maxFiles, selected, [f, g]).admitted == [f, g]
  {
    IsDuplicateMeaning(selected, f);
    IsDuplicateMeaning(selected, g);
    FreshFilesUpToLimit(allowed, maxFiles, selected, [f, g]);
  }

  /** `filter((file) => file !== fileToRemove)`: every entry that is not the given file, in order. */
  function Without(files: seq<File>, f: File): (r: seq<File>)
    ensures forall x :: x in r ==> x.id != f.id
    ensures forall x: File :: x.id != f.id ==> multiset(r)[x] == multiset(files)[x]
    ensures IsSubseq(r, files)
  {
    if |files| == 0 then []
    else
      var init := files[..|files| - 1];
      var last := files[|files| - 1];
      var rest := Without(init, f);
      assert files == init + [last];
      if last.id == f.id then
        SubseqExtendRight(rest, init, last);
        rest
      else
        SubseqExtendBoth(rest, init, last);
        rest + [last]
  }

  /** Removing a file that is not selected changes nothing. */
  lemma {:induction false} WithoutAbsent(files: seq<File>, f: File)
    requires forall x :: x in files ==> x.id != f.id
    ensures Without(files, f) == files
  {
    if |files| > 0 {
      var init := files[..|files| - 1];
      var last := files[|files| - 1];
      assert files == init + [last];
      assert forall x :: x in init ==> x in files;
      WithoutAbsent(init, f);
      WithoutStep(files, f);
    }
  }

  lemma WithoutStep(files: seq<File>, f: File)
    requires |files| > 0
    ensures Without(files, f) == Without(files[..|files| - 1], f) + (if files[|files| - 1].id == f.id then [] else [files[|files| - 1]])
  {
    var init := files[..|files| - 1];
    if files[|files| - 1].id == f.id {
      assert Without(init, f) + [] == Without(init, f);
    }
  }

  /** Removing the same file twice is the same as removing it once. */
  lemma WithoutIdempotent(files: seq<File>, f: File)
    ensures Without(Without(files, f), f) == Without(files, f)
  {
    WithoutAbsent(Without(files, f), f);
  }
}
