/**
  Call-site attribution: the file and line of the assertion that failed.

  The stack lookup `runtime.Caller(2)` is not modelled; its answer is an
  input, a `Lookup` carrying the frame's file path, line and success flag.
  What is modelled is what `caller` does with that answer: a fixed sentinel
  when the lookup fails, and otherwise the path with every directory in front
  of the last `/` removed.
*/
module CallSite {

  /** What the stack lookup reports: the frame's full file path, its line,
      and whether the frame could be found at all. */
  datatype Lookup = Lookup(file: string, line: int, ok: bool)

  /** A resolved call site, as it appears in a report. */
  datatype Site = Site(file: string, line: int)

  /** The sentinel file name reported when the lookup fails. */
  const UnknownFile: string := "???"

  /** Index of the last occurrence of `c` in `s`, or -1 when there is none. */
  function LastIndex(s: string, c: char): (i: int)
    ensures -1 <= i < |s|
    ensures 0 <= i ==> s[i] == c
    ensures forall j :: i < j < |s| ==> s[j] != c
  {
    if |s| == 0 then -1
    else if s[|s| - 1] == c then |s| - 1
    else LastIndex(s[..|s| - 1], c)
  }

  /** The path trimmed to its final component: the part after the last `/`,
      or the whole path when it has no `/`. */
  function Basename(path: string): (r: string)
    ensures '/' !in r
    ensures |r| <= |path| && r == path[|path| - |r|..]
    ensures '/' in path ==> |r| < |path| && path[|path| - |r| - 1] == '/'
    ensures '/' !in path ==> r == path
  {
    var slash := LastIndex(path, '/');
    if slash >= 0 then path[slash + 1..] else path
  }

  /** Trimming a trimmed path changes nothing. */
  lemma BasenameIdempotent(path: string)
    ensures Basename(Basename(path)) == Basename(path)
  {
  }

  /** Whatever directory a file sits in, only its own name is kept. */
  lemma BasenameOfJoin(dir: string, name: string)
    requires '/' !in name
    ensures Basename(dir + "/" + name) == name
  {
    var path := dir + "/" + name;
    assert path[|dir|] == '/';
  }

  /** The call site `caller` reports for a given answer of the stack lookup:
      the sentinel `("???", 1)` when the lookup fails; otherwise the lookup's
      line, and its path trimmed to the slash-free part after the last `/`,
      or the whole path when it has none. */
  function Resolve(found: Lookup): (site: Site)
    ensures !found.ok ==> site.file == "???" && site.line == 1
    ensures found.ok ==> site.line == found.line
    ensures found.ok ==> '/' !in site.file && |site.file| <= |found.file|
    ensures found.ok ==> site.file == found.file[|found.file| - |site.file|..]
    ensures found.ok && '/' !in found.file ==> site.file == found.file
    ensures found.ok && '/' in found.file ==>
              |site.file| < |found.file| && found.file[|found.file| - |site.file| - 1] == '/'
  {
    if !found.ok then Site(UnknownFile, 1) else Site(Basename(found.file), found.line)
  }

  /** `caller`: the step-by-step computation of the call site, reassigning
      its results as the lookup's answer is examined. */
  method Caller(found: Lookup) returns (file: string, line: int)
    ensures Site(file, line) == Resolve(found)
  {
    var ok: bool;
    file, line, ok := found.file, found.line, found.ok;
    if !ok {
      file := UnknownFile;
      line := 1;
    } else {
      var slash := LastIndex(file, '/');
      if slash >= 0 {
        file := file[slash + 1..];
      }
    }
  }
}
