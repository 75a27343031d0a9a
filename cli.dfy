/**
 * The command line's two checks on its environment: `check_file`, which validates the
 * target script, and `get_build_dir`, which finds the built UI. The filesystem is the
 * predicate `pathExists`; `os.path.splitext`'s extension is given by `splitExt`.
 */
module Cli {
  import opened Wrappers
  import opened Text

  /** The two `click` exceptions `check_file` raises. */
  datatype CliError = BadArgumentUsage(message: string) | BadParameter(message: string)

  const AcceptedExtensions: seq<string> := ["py", "py3"]

  const NoExtensionMessage := "Looplit requires raw Python (.py) files, but the provided file has no extension."

  /** `extension[1:]`: the extension without its leading dot (empty stays empty). */
  function DropFirst(s: string): string {
    if s == [] then [] else s[1..]
  }

  /** `check_file(target)`: the extension is checked first, then existence. */
  function CheckFile(target: string, splitExt: string -> string, pathExists: string -> bool): (r: Result<(), CliError>) {
    var extension := splitExt(target);
    var bare := DropFirst(extension);
    if bare !in AcceptedExtensions then
      if bare == "" then Err(BadArgumentUsage(NoExtensionMessage))
      else Err(BadArgumentUsage("Looplit requires raw Python (.py) files, not " + extension + "."))
    else if !pathExists(target) then Err(BadParameter("File does not exist: " + target))
    else Ok(())
  }

  /** A target is accepted exactly when its extension is `.py` or `.py3`, compared as
      written, and the file pathExists. (`splitext` answers `""` or a string starting with
      its dot.) */
  lemma {:induction false} CheckFileAccepts(target: string, splitExt: string -> string, pathExists: string -> bool)
    requires splitExt(target) == "" || splitExt(target)[0] == '.'
    ensures CheckFile(target, splitExt, pathExists).Ok?
            <==> (splitExt(target) == ".py" || splitExt(target) == ".py3") && pathExists(target)
  {
    var e := splitExt(target);
    if DropFirst(e) == "py" {
      assert e == [e[0]] + e[1..];
    } else if DropFirst(e) == "py3" {
      assert e == [e[0]] + e[1..];
    }
    if e == ".py" {
      assert DropFirst(e) == "py";
    } else if e == ".py3" {
      assert DropFirst(e) == "py3";
    }
  }

  /** The rejections, in the order the source makes them: no extension, a wrong one
      (named in the message), then a missing file. A bad extension is reported even when
      the file is missing too. */
  lemma {:induction false} CheckFileRejects(target: string, splitExt: string -> string, pathExists: string -> bool)
    ensures var e := DropFirst(splitExt(target));
            var r := CheckFile(target, splitExt, pathExists);
            && (e == "" ==> r == Err(BadArgumentUsage(NoExtensionMessage)))
            && (e != "" && e != "py" && e != "py3" ==>
                  r.Err? && r.error.BadArgumentUsage?
                  && StartsWith(r.error.message, "Looplit requires raw Python (.py) files, not ")
                  && r.error.message == "Looplit requires raw Python (.py) files, not " + splitExt(target) + ".")
            && ((e == "py" || e == "py3") && !pathExists(target) ==>
                  r == Err(BadParameter("File does not exist: " + target)))
  {
    var msg := "Looplit requires raw Python (.py) files, not " + splitExt(target) + ".";
    assert msg[..|"Looplit requires raw Python (.py) files, not "|] == "Looplit requires raw Python (.py) files, not ";
  }

  /** The comparison is case-sensitive: `.PY` is refused even for an existing file. */
  lemma {:induction false} UpperCaseRefused(target: string, pathExists: string -> bool)
    ensures CheckFile(target, _ => ".PY", pathExists) == Err(BadArgumentUsage("Looplit requires raw Python (.py) files, not .PY."))
  {
    assert DropFirst(".PY") == "PY";
    assert "PY" != "py" && "PY" != "py3";
    assert "PY" !in AcceptedExtensions;
    assert "Looplit requires raw Python (.py) files, not " + ".PY" + "."
           == "Looplit requires raw Python (.py) files, not .PY.";
  }

  /** `os.path.join(a, b)` on POSIX: an absolute `b` replaces `a`; otherwise a `/` is put
      between them unless `a` is empty or already ends in one. */
  function PathJoin(a: string, b: string): string {
    if StartsWith(b, "/") then b
    else if a == "" || a[|a| - 1] == '/' then a + b
    else a + "/" + b
  }

  /** `get_build_dir(local_target, packaged_target)`, with the two package roots given. */
  function GetBuildDir(packageRoot: string, backendRoot: string, localTarget: string,
                       packagedTarget: string, pathExists: string -> bool): Result<string, string>
  {
    var localDir := PathJoin(PathJoin(packageRoot, localTarget), "dist");
    var packagedDir := PathJoin(PathJoin(backendRoot, packagedTarget), "dist");
    if pathExists(localDir) then Ok(localDir)
    else if pathExists(packagedDir) then Ok(packagedDir)
    else Err(localTarget + " built UI dir not found")
  }

  /** The local build wins when both exist; the packaged one is used only when the local
      one is missing; the answer is always a directory that pathExists; and the lookup fails,
      naming the local target, exactly when neither pathExists. */
  lemma {:induction false} GetBuildDirSpec(packageRoot: string, backendRoot: string, localTarget: string,
                                           packagedTarget: string, pathExists: string -> bool)
    ensures var localDir := PathJoin(PathJoin(packageRoot, localTarget), "dist");
            var packagedDir := PathJoin(PathJoin(backendRoot, packagedTarget), "dist");
            var r := GetBuildDir(packageRoot, backendRoot, localTarget, packagedTarget, pathExists);
            && (r.Ok? ==> pathExists(r.value) && (r.value == localDir || r.value == packagedDir))
            && (pathExists(localDir) ==> r == Ok(localDir))
            && (r.Ok? && r.value != localDir ==> !pathExists(localDir))
            && (r.Err? <==> !pathExists(localDir) && !pathExists(packagedDir))
            && (r.Err? ==> r.error == localTarget + " built UI dir not found")
  {
  }

  /** Joined paths end in the last component: each candidate directory ends in `dist`. */
  lemma {:induction false} PathJoinEndsWith(a: string, b: string)
    ensures |PathJoin(a, b)| >= |b| && PathJoin(a, b)[|PathJoin(a, b)| - |b|..] == b
  {
    var j := PathJoin(a, b);
    if !StartsWith(b, "/") {
      if a == "" || a[|a| - 1] == '/' {
        assert j == a + b;
      } else {
        assert j == (a + "/") + b;
      }
    }
  }
}
