/** The `read-transcript` request handler: it reads a transcript file named
    by a path relative to the tool's directory, after checking that the path
    stays inside its projects/ subtree. POSIX conventions apply:
    `path.sep` is '/' and `path.isAbsolute` means a leading '/'.
    `path.normalize`, `path.join(CLAUDE_DIR, ·)`, `path.resolve` and the file
    read are parameters. */
module TranscriptAccess {
  import opened JsBuiltins

  /** `typeof relativePath` and, for a string, its value. */
  datatype RequestArg = NotAString | Text(s: string)

  /** The path helpers the handler calls; `join` prefixes CLAUDE_DIR. */
  datatype PathOps = PathOps(normalize: string -> string, join: string -> string, resolve: string -> string)

  /** Why a request is refused. */
  datatype Refusal = NotAPath | Traversal | OutsideProjects | Escape

  datatype Verdict = Refused(reason: Refusal) | Allowed(filePath: string)

  const Sep: char := '/'

  /** `path.isAbsolute` on POSIX. */
  predicate IsAbsolute(p: string) {
    |p| > 0 && p[0] == Sep
  }

  /** The checks of the handler, in its order. */
  function CheckTranscriptPath(arg: RequestArg, ops: PathOps, claudeDir: string): (v: Verdict)
    ensures v.Allowed? ==> arg.Text? && StartsWith(ops.normalize(arg.s), "projects/")
    ensures v.Allowed? ==> v.filePath == ops.join(ops.normalize(arg.s))
    ensures v.Allowed? ==> StartsWith(ops.resolve(v.filePath), claudeDir + [Sep])
  {
    if arg.NotAString? || arg.s == "" then Refused(NotAPath)
    else
      var normalized := ops.normalize(arg.s);
      if Includes(normalized, "..") || IsAbsolute(normalized) then Refused(Traversal)
      else if !StartsWith(normalized, "projects" + [Sep]) && !StartsWith(normalized, "projects/") then Refused(OutsideProjects)
      else
        var filePath := ops.join(normalized);
        if !StartsWith(ops.resolve(filePath), claudeDir + [Sep]) then Refused(Escape)
        else Allowed(filePath)
  }

  /** The handler's answer: the file's contents when the path is allowed and
      the read succeeds, '' otherwise. */
  function ReadTranscript(arg: RequestArg, ops: PathOps, claudeDir: string, readFile: string -> Option<string>): (r: string)
    ensures CheckTranscriptPath(arg, ops, claudeDir).Refused? ==> r == ""
    ensures CheckTranscriptPath(arg, ops, claudeDir).Allowed? ==>
      r == readFile(CheckTranscriptPath(arg, ops, claudeDir).filePath).GetOr("")
  {
    match CheckTranscriptPath(arg, ops, claudeDir)
    case Refused(_) => ""
    case Allowed(filePath) => readFile(filePath).GetOr("")
  }

  /** A `..` segment of `p` starts at index `i`. */
  predicate ParentSegmentAt(p: string, i: int) {
    OccursAt(p, "..", i) && (i == 0 || p[i - 1] == Sep) && (i + 2 == |p| || p[i + 2] == Sep)
  }

  /** Each refusal rule holds for every input it covers: an empty or
      non-string argument; a normalised path with two consecutive dots at any
      index, or a leading '/'; a normalised path not under projects/. */
  lemma RefusalRules(arg: RequestArg, ops: PathOps, claudeDir: string)
    ensures arg.NotAString? || arg == Text("") ==> CheckTranscriptPath(arg, ops, claudeDir) == Refused(NotAPath)
    ensures arg.Text? && arg.s != "" ==>
      var normalized := ops.normalize(arg.s);
      && ((exists i :: OccursAt(normalized, "..", i)) || IsAbsolute(normalized) ==>
            CheckTranscriptPath(arg, ops, claudeDir) == Refused(Traversal))
      && (CheckTranscriptPath(arg, ops, claudeDir) != Refused(Traversal) && !StartsWith(normalized, "projects/") ==>
            CheckTranscriptPath(arg, ops, claudeDir) == Refused(OutsideProjects))
  {
    if arg.Text? && arg.s != "" {
      IncludesIff(ops.normalize(arg.s), "..");
    }
  }

  /** An allowed path is confined syntactically: it is relative, its first
      segment is `projects`, and none of its segments is `..`. */
  lemma AllowedIsConfined(arg: RequestArg, ops: PathOps, claudeDir: string)
    requires CheckTranscriptPath(arg, ops, claudeDir).Allowed?
    ensures var normalized := ops.normalize(arg.s);
      && !IsAbsolute(normalized)
      && normalized == "projects/" + normalized[9..]
      && forall i :: !ParentSegmentAt(normalized, i)
  {
    var normalized := ops.normalize(arg.s);
    assert !Includes(normalized, "..");
    assert normalized[..9] == "projects/";
    forall i ensures !ParentSegmentAt(normalized, i) {
      if OccursAt(normalized, "..", i) {
        IncludesAt(normalized, "..", i);
      }
    }
  }

  /** The check is stricter than refusing `..` segments: a name that merely
      contains two dots is refused too. */
  lemma DotsInsideANameAreRefused(ops: PathOps, claudeDir: string)
    requires ops.normalize("projects/a..b") == "projects/a..b"
    ensures CheckTranscriptPath(Text("projects/a..b"), ops, claudeDir) == Refused(Traversal)
    ensures forall i :: !ParentSegmentAt("projects/a..b", i)
  {
    var p := "projects/a..b";
    assert OccursAt(p, "..", 10);
    IncludesAt(p, "..", 10);
  }

  /** The parent-traversal example is refused with ''. */
  lemma ParentTraversalRefused(ops: PathOps, claudeDir: string, readFile: string -> Option<string>)
    requires ops.normalize("../../etc/passwd") == "../../etc/passwd"
    ensures CheckTranscriptPath(Text("../../etc/passwd"), ops, claudeDir) == Refused(Traversal)
    ensures ReadTranscript(Text("../../etc/passwd"), ops, claudeDir, readFile) == ""
  {
    assert StartsWith("../../etc/passwd", "..");
  }

  /** The absolute-path example is refused with ''. */
  lemma AbsolutePathRefused(ops: PathOps, claudeDir: string, readFile: string -> Option<string>)
    requires ops.normalize("/etc/passwd") == "/etc/passwd"
    ensures CheckTranscriptPath(Text("/etc/passwd"), ops, claudeDir) == Refused(Traversal)
    ensures ReadTranscript(Text("/etc/passwd"), ops, claudeDir, readFile) == ""
  {
    assert IsAbsolute("/etc/passwd");
  }

  /** A sibling directory whose name merely starts with "projects" is refused. */
  lemma PrefixLookalikeRefused(ops: PathOps, claudeDir: string, readFile: string -> Option<string>)
    requires ops.normalize("projectsXYZ/evil") == "projectsXYZ/evil"
    ensures CheckTranscriptPath(Text("projectsXYZ/evil"), ops, claudeDir) == Refused(OutsideProjects)
    ensures ReadTranscript(Text("projectsXYZ/evil"), ops, claudeDir, readFile) == ""
  {
    var p := "projectsXYZ/evil";
    assert !StartsWith(p, "projects/") by {
      assert p[..9][8] == 'X';
    }
    DotFreeVerdict(Text(p), ops, claudeDir);
  }

  /** A transcript under projects/ that resolves inside the directory is read. */
  lemma ProjectTranscriptRead(ops: PathOps, claudeDir: string, readFile: string -> Option<string>)
    requires ops.normalize("projects/abc/transcript.txt") == "projects/abc/transcript.txt"
    requires StartsWith(ops.resolve(ops.join("projects/abc/transcript.txt")), claudeDir + [Sep])
    ensures ReadTranscript(Text("projects/abc/transcript.txt"), ops, claudeDir, readFile)
         == readFile(ops.join("projects/abc/transcript.txt")).GetOr("")
  {
    var p := "projects/abc/transcript.txt";
    assert StartsWith(p, "projects/");
    DotFreeVerdict(Text(p), ops, claudeDir);
  }

  /** For a relative normalised path in which no '.' is followed by another,
      only the projects/ prefix and the resolved location decide. */
  lemma DotFreeVerdict(arg: RequestArg, ops: PathOps, claudeDir: string)
    requires arg.Text? && arg.s != ""
    requires !IsAbsolute(ops.normalize(arg.s))
    requires var n := ops.normalize(arg.s);
      forall i :: 0 <= i < |n| - 1 ==> !(n[i] == '.' && n[i + 1] == '.')
    ensures var n := ops.normalize(arg.s);
      CheckTranscriptPath(arg, ops, claudeDir)
      == if !StartsWith(n, "projects/") then Refused(OutsideProjects)
         else if !StartsWith(ops.resolve(ops.join(n)), claudeDir + [Sep]) then Refused(Escape)
         else Allowed(ops.join(n))
  {
    NoDoubleDot(ops.normalize(arg.s));
    assert "projects" + [Sep] == "projects/";
  }

  /** A string in which no '.' is followed by another '.' does not include "..". */
  lemma NoDoubleDot(p: string)
    requires forall i :: 0 <= i < |p| - 1 ==> !(p[i] == '.' && p[i + 1] == '.')
    ensures !Includes(p, "..")
  {
    forall i ensures !OccursAt(p, "..", i) {
      if 0 <= i && i + 2 <= |p| {
        assert p[i..i + 2][0] == p[i] && p[i..i + 2][1] == p[i + 1];
      }
    }
    IncludesIff(p, "..");
  }

}
