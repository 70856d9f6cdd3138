/** Choice of a file reader from a path's extension. */
module Reader {
  import opened Wrappers
  import opened Text

  datatype Format = Csv | Excel

  datatype ReaderError = UnknownSuffix(suffix: string)

  /** Index just past the last '/', or 0 when there is none. */
  function NameStart(path: string): (i: nat)
    ensures i <= |path|
    ensures i > 0 ==> path[i - 1] == '/'
    ensures forall j :: i <= j < |path| ==> path[j] != '/'
  {
    if |path| == 0 then 0
    else if path[|path| - 1] == '/' then |path|
    else NameStart(path[..|path| - 1])
  }

  /** `Path.name`: the final component of the normalised path. pathlib
      drops empty components (a repeated or trailing '/') and '.'
      components, so those are skipped from the end; the name is empty
      when nothing is left. */
  function Name(path: string): (n: string)
    ensures '/' !in n && n != "."
    ensures '/' !in path && path != "." ==> n == path
    decreases |path|
  {
    var i := NameStart(path);
    var last := path[i..];
    if last != [] && last != "." then last
    else if i == 0 then []
    else Name(path[..i - 1])
  }

  /** A component that is neither empty nor '.' after the last '/' is the
      name. */
  lemma NameOfComponent(dir: string, name: string)
    requires name != [] && name != "." && '/' !in name
    ensures Name(dir + "/" + name) == name
  {
    var head := dir + "/";
    assert dir + "/" + name == head + name;
    NameStartAfterSlash(head, name);
    assert (head + name)[|head|..] == name;
  }

  /** A trailing '/' does not change the name. */
  lemma TrailingSlashIgnored(path: string)
    ensures Name(path + "/") == Name(path)
  {
    NameStartAfterSlash(path + "/", "");
    assert (path + "/")[..|path|] == path;
  }

  /** A trailing "/." does not change the name. */
  lemma TrailingDotIgnored(path: string)
    ensures Name(path + "/.") == Name(path)
  {
    assert path + "/." == (path + "/") + ".";
    NameStartAfterSlash(path + "/", ".");
    assert (path + "/.")[|path| + 1..] == ".";
    assert (path + "/.")[..|path|] == path;
  }

  /** Position of the last '.', if any. */
  function LastDot(s: string): (r: Option<nat>)
    ensures r.Some? ==> r.value < |s| && s[r.value] == '.'
    ensures r.Some? ==> forall j :: r.value < j < |s| ==> s[j] != '.'
    ensures r.None? ==> '.' !in s
  {
    if |s| == 0 then None
    else if s[|s| - 1] == '.' then Some(|s| - 1)
    else LastDot(s[..|s| - 1])
  }

  /** `Path.suffix`: from the last dot of the final component, unless that
      dot starts the name or ends it. */
  function Suffix(path: string): (sfx: string)
    ensures sfx == [] || sfx[0] == '.'
  {
    var name := Name(path);
    match LastDot(name)
    case Some(i) => if 0 < i < |name| - 1 then name[i..] else []
    case None => []
  }

  function FormatOfSuffix(ext: string): (r: Result<Format, ReaderError>)
    ensures r == Ok(Csv) <==> ext == ".csv" || ext == ".txt"
    ensures r == Ok(Excel) <==> ext == ".xls" || ext == ".xlsx"
  {
    if ext == ".csv" || ext == ".txt" then Ok(Csv)
    else if ext == ".xls" || ext == ".xlsx" then Ok(Excel)
    else Err(UnknownSuffix(ext))
  }

  /** `_infer_format`. */
  function InferFormat(path: string): (r: Result<Format, ReaderError>)
    ensures r.Err? ==> r.error.suffix == Lower(Suffix(path))
  {
    FormatOfSuffix(Lower(Suffix(path)))
  }

  /** A file name ending in `.` plus an extension has that extension as
      its suffix, whatever the directory and the stem. */
  lemma {:induction false} SuffixOfName(dir: string, stem: string, ext: string)
    requires |stem| > 0 && '/' !in stem
    requires |ext| > 0 && '/' !in ext && '.' !in ext
    ensures Suffix(dir + "/" + stem + "." + ext) == "." + ext
  {
    var name := stem + "." + ext;
    var path := dir + "/" + stem + "." + ext;
    assert path == dir + "/" + name;
    assert name != "." by {
      assert |name| >= 3;
    }
    assert '/' !in name by {
      assert '/' !in stem + ".";
    }
    NameOfComponent(dir, name);
    assert Name(path) == name;
    LastDotBefore(stem + ".", ext);
    assert name == (stem + ".") + ext;
    assert name[|stem|..] == "." + ext;
  }

  /** The lower-cased suffix of such a name is the lower-cased extension. */
  lemma SuffixLowered(dir: string, stem: string, ext: string)
    requires |stem| > 0 && '/' !in stem
    requires |ext| > 0 && '/' !in ext && '.' !in ext
    ensures Lower(Suffix(dir + "/" + stem + "." + ext)) == "." + Lower(ext)
  {
    SuffixOfName(dir, stem, ext);
    LowerDotted(ext);
  }

  lemma {:induction false} NameStartAfterSlash(a: string, b: string)
    requires |a| > 0 && a[|a| - 1] == '/' && '/' !in b
    ensures NameStart(a + b) == |a|
  {
    if |b| > 0 {
      assert (a + b)[..|a + b| - 1] == a + b[..|b| - 1];
      NameStartAfterSlash(a, b[..|b| - 1]);
    } else {
      assert a + b == a;
    }
  }

  lemma {:induction false} LastDotBefore(a: string, b: string)
    requires |a| > 0 && a[|a| - 1] == '.' && '.' !in b
    ensures LastDot(a + b) == Some(|a| - 1)
  {
    if |b| > 0 {
      assert (a + b)[..|a + b| - 1] == a + b[..|b| - 1];
      LastDotBefore(a, b[..|b| - 1]);
    } else {
      assert a + b == a;
    }
  }

  /** Lower-casing a dot followed by an extension lower-cases the
      extension only. */
  lemma LowerDotted(ext: string)
    ensures Lower("." + ext) == "." + Lower(ext)
  {
    var l := Lower("." + ext);
    forall i | 0 <= i < |l| ensures l[i] == ("." + Lower(ext))[i] {
      if i > 0 {
        assert ("." + ext)[i] == ext[i - 1];
      }
    }
  }

  /** Lower-casing keeps slashes and dots where they are. */
  lemma NoSeparators(ext: string)
    requires '/' !in Lower(ext) && '.' !in Lower(ext)
    ensures '/' !in ext && '.' !in ext
  {
    forall i | 0 <= i < |ext| ensures ext[i] != '/' && ext[i] != '.' {
      assert Lower(ext)[i] == LowerChar(ext[i]);
    }
  }

  /** The reader such a name selects depends on its lower-cased extension
      only. */
  lemma InferFromExtension(dir: string, stem: string, ext: string)
    requires |stem| > 0 && '/' !in stem
    requires |ext| > 0 && '/' !in Lower(ext) && '.' !in Lower(ext)
    ensures InferFormat(dir + "/" + stem + "." + ext) == FormatOfSuffix("." + Lower(ext))
  {
    NoSeparators(ext);
    SuffixLowered(dir, stem, ext);
  }

  /** The four known extensions, lower-case and dotted, and what they
      select. */
  lemma KnownExtension(l: string)
    requires l == "csv" || l == "txt" || l == "xls" || l == "xlsx"
    ensures |l| > 0 && '/' !in l && '.' !in l
    ensures l == "csv" || l == "txt" ==> FormatOfSuffix("." + l) == Ok(Csv)
    ensures l == "xls" || l == "xlsx" ==> FormatOfSuffix("." + l) == Ok(Excel)
  {
    if l == "csv" {
      assert "." + l == ".csv";
    } else if l == "txt" {
      assert "." + l == ".txt";
    } else if l == "xls" {
      assert "." + l == ".xls";
    } else {
      assert "." + l == ".xlsx";
    }
  }

  /** `.csv` and `.txt` in any letter case select the CSV reader. */
  lemma {:induction false} CsvAnyCase(dir: string, stem: string, ext: string)
    requires |stem| > 0 && '/' !in stem
    requires Lower(ext) == "csv" || Lower(ext) == "txt"
    ensures InferFormat(dir + "/" + stem + "." + ext) == Ok(Csv)
  {
    KnownExtension(Lower(ext));
    InferFromExtension(dir, stem, ext);
  }

  /** `.xls` and `.xlsx` in any letter case select the Excel reader. */
  lemma {:induction false} ExcelAnyCase(dir: string, stem: string, ext: string)
    requires |stem| > 0 && '/' !in stem
    requires Lower(ext) == "xls" || Lower(ext) == "xlsx"
    ensures InferFormat(dir + "/" + stem + "." + ext) == Ok(Excel)
  {
    KnownExtension(Lower(ext));
    InferFromExtension(dir, stem, ext);
  }

  /** Any other suffix is refused. */
  lemma UnknownSuffixRefused(path: string)
    requires Lower(Suffix(path)) !in [".csv", ".txt", ".xls", ".xlsx"]
    ensures InferFormat(path).Err?
  {
  }

  /** The reader chosen for a path does not change when the path ends in
      '/' or "/.": pathlib normalises both away. */
  lemma InferFormatIgnoresTrailing(path: string)
    ensures InferFormat(path + "/") == InferFormat(path)
    ensures InferFormat(path + "/.") == InferFormat(path)
  {
    TrailingSlashIgnored(path);
    TrailingDotIgnored(path);
  }
}
