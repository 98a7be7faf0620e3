/**
 * The part of the `nginx-sys` build script that turns nginx's
 * autoconf-generated Makefile into clang arguments: the `ALL_INCS`
 * include-path parser, the resolution of relative paths against the
 * source directory, and the `-I` argument mapping.
 */
module BuildMain {
  import opened Results
  import opened Text

  /** The flag that introduces an include directory in `ALL_INCS`. */
  const I_FLAG: string := "-I "

  /** The Makefile variable holding the include directories. */
  const ALL_INCS: string := "ALL_INCS"

  /**
   * `extract_include_part`: a continuation line loses its trailing
   * backslash and surrounding whitespace; any other line is kept as is.
   */
  function ExtractIncludePart(line: string): (r: string)
    ensures StripSuffix(line, "\\").None? ==> r == line
    ensures StripSuffix(line, "\\").Some? ==>
      r == Trim(line[..|line| - 1]) && |r| < |line|
      && (r != [] ==> !IsWhitespace(r[0]) && !IsWhitespace(r[|r| - 1]))
  {
    match StripSuffix(line, "\\")
    case None => line
    case Some(s) => Trim(s)
  }

  /**
   * `extract_after_i_flag`: `None` when the line has no `-I `; otherwise
   * the text between the first `-I ` and the next one (or the end of the
   * line), through `extract_include_part`.
   */
  function ExtractAfterIFlag(line: string): Option<string>
  {
    var parts := Split(line, I_FLAG);
    if |parts| >= 2 then Some(ExtractIncludePart(parts[1])) else None
  }

  /** `extract_after_i_flag` finds nothing exactly when `-I ` occurs nowhere in the line. */
  lemma ExtractAfterIFlagNone(line: string)
    ensures ExtractAfterIFlag(line).None? <==> (forall j :: !OccursAt(line, I_FLAG, j))
  {
    FindFirst(line, I_FLAG);
  }

  /**
   * When there is a `-I `, `extract_after_i_flag` cleans up the text that
   * starts right after the first one and runs up to the next one (or the
   * end of the line).
   */
  lemma IFlagPiece(line: string)
    requires ExtractAfterIFlag(line).Some?
    ensures Find(line, I_FLAG).Some?
    ensures var i := Find(line, I_FLAG).value; var piece := Split(line, I_FLAG)[1];
      i + |I_FLAG| + |piece| <= |line| && line[i + |I_FLAG|..i + |I_FLAG| + |piece|] == piece
      && (forall j :: !OccursAt(piece, I_FLAG, j))
      && ExtractAfterIFlag(line) == Some(ExtractIncludePart(piece))
  {
    var i := Find(line, I_FLAG).value;
    var rest := line[i + |I_FLAG|..];
    assert Split(line, I_FLAG) == [line[..i]] + Split(rest, I_FLAG);
    SplitHeadPrefix(rest, I_FLAG);
    SplitPiecesAvoidSep(line, I_FLAG);
    var piece := Split(line, I_FLAG)[1];
    assert line[i + |I_FLAG|..i + |I_FLAG| + |piece|] == rest[..|piece|];
  }

  /** `line.strip_prefix("ALL_INCS")`. */
  function StripAllIncs(line: string): Option<string>
  {
    StripPrefix(line, ALL_INCS)
  }

  /**
   * What the loop of `parse_includes_from_makefile` looks at in one line:
   * whether it starts with `ALL_INCS` (and then what follows its first
   * `-I `), and what follows the line's own first `-I `.
   */
  datatype LineInfo = LineInfo(allIncs: Option<Option<string>>, iflag: Option<string>)

  /** One line, seen through the two tests `strip` (for `ALL_INCS`) and `extract` (for `-I `). */
  function Classify(strip: string -> Option<string>, extract: string -> Option<string>, line: string): LineInfo
  {
    var allIncs := match strip(line)
      case None => None
      case Some(rest) => Some(extract(rest));
    LineInfo(allIncs, extract(line))
  }

  /** The lines, classified. */
  function Infos(lines: seq<string>, strip: string -> Option<string>, extract: string -> Option<string>): (infos: seq<LineInfo>)
    ensures |infos| == |lines|
    ensures forall j :: 0 <= j < |lines| ==> infos[j] == Classify(strip, extract, lines[j])
  {
    seq(|lines|, j requires 0 <= j < |lines| => Classify(strip, extract, lines[j]))
  }

  /**
   * The include paths contributed by the lines from index `i` on, once
   * `ALL_INCS` has been seen: one per line, in order, up to the first
   * line without `-I `.
   */
  function CollectFrom(infos: seq<LineInfo>, i: nat): (r: seq<string>)
    ensures i <= |infos| ==> |r| <= |infos| - i
    decreases |infos| - i
  {
    if i >= |infos| then []
    else match infos[i].iflag
      case None => []
      case Some(p) => [p] + CollectFrom(infos, i + 1)
  }

  /** `CollectFrom` is a take-while: the path of each of the lines it covers, and the line after them has no `-I `. */
  lemma {:induction false} CollectTakesWhile(infos: seq<LineInfo>, i: nat)
    requires i <= |infos|
    ensures var r := CollectFrom(infos, i);
      (forall j :: 0 <= j < |r| ==> infos[i + j].iflag == Some(r[j]))
      && (i + |r| < |infos| ==> infos[i + |r|].iflag.None?)
    decreases |infos| - i
  {
    if i < |infos| && infos[i].iflag.Some? {
      CollectTakesWhile(infos, i + 1);
      var r := CollectFrom(infos, i);
      var rest := CollectFrom(infos, i + 1);
      assert r == [infos[i].iflag.value] + rest;
      forall j | 1 <= j < |r| ensures infos[i + j].iflag == Some(r[j]) {
        assert r[j] == rest[j - 1] && i + j == (i + 1) + (j - 1);
      }
    }
  }

  /** A line without `-I ` ends the collection: what follows it is ignored, whatever it holds. */
  lemma {:induction false} CollectStopsAtGap(infos: seq<LineInfo>, i: nat, k: nat)
    requires i <= k < |infos| && infos[k].iflag.None?
    ensures CollectFrom(infos, i) == CollectFrom(infos[..k], i)
    decreases k - i
  {
    if i < k {
      assert infos[..k][i] == infos[i];
      if infos[i].iflag.Some? {
        CollectStopsAtGap(infos, i + 1, k);
      }
    }
  }

  /** The list of the one value of an `Option`, or the empty list. */
  function OptionToSeq(o: Option<string>): (r: seq<string>)
    ensures o.None? ==> r == []
    ensures o.Some? ==> r == [o.value]
  {
    match o
    case None => []
    case Some(v) => [v]
  }

  /** What the loop collects from the lines from index `i` on, while `ALL_INCS` has not been seen. */
  function IncludesFrom(infos: seq<LineInfo>, i: nat): seq<string>
    decreases |infos| - i
  {
    if i >= |infos| then []
    else match infos[i].allIncs
      case Some(part) => OptionToSeq(part) + CollectFrom(infos, i + 1)
      case None => IncludesFrom(infos, i + 1)
  }

  /** What `parse_includes_from_makefile` collects from the Makefile's lines, before the paths are resolved. */
  function Includes(lines: seq<string>): seq<string>
  {
    IncludesFrom(Infos(lines, StripAllIncs, ExtractAfterIFlag), 0)
  }

  /** Without an `ALL_INCS` line from `i` on, nothing is collected. */
  lemma {:induction false} NoAllIncsFrom(infos: seq<LineInfo>, i: nat)
    requires forall j :: i <= j < |infos| ==> infos[j].allIncs.None?
    ensures IncludesFrom(infos, i) == []
    decreases |infos| - i
  {
    if i < |infos| {
      NoAllIncsFrom(infos, i + 1);
    }
  }

  /** Without an `ALL_INCS` line, nothing is collected. */
  lemma NoAllIncsNoIncludes(lines: seq<string>)
    requires forall j :: 0 <= j < |lines| ==> StripPrefix(lines[j], ALL_INCS).None?
    ensures Includes(lines) == []
  {
    NoAllIncsFrom(Infos(lines, StripAllIncs, ExtractAfterIFlag), 0);
  }

  /** Lines before the first `ALL_INCS` line, from `i` on, contribute nothing. */
  lemma {:induction false} IncludesSkipTo(infos: seq<LineInfo>, i: nat, k: nat)
    requires i <= k < |infos|
    requires forall j :: i <= j < k ==> infos[j].allIncs.None?
    ensures IncludesFrom(infos, i) == IncludesFrom(infos, k)
    decreases k - i
  {
    if i < k {
      assert infos[i].allIncs.None?;
      assert IncludesFrom(infos, i) == IncludesFrom(infos, i + 1);
      IncludesSkipTo(infos, i + 1, k);
    }
  }

  /**
   * Lines before the first `ALL_INCS` line contribute nothing; that line
   * contributes the path after its first `-I ` if it has one, and the
   * following lines contribute the path after their first `-I `, one
   * each, up to the first line without one.
   */
  lemma IncludesFromFirstAllIncs(infos: seq<LineInfo>, k: nat)
    requires k < |infos| && infos[k].allIncs.Some?
    requires forall j :: 0 <= j < k ==> infos[j].allIncs.None?
    ensures var after := CollectFrom(infos, k + 1);
      IncludesFrom(infos, 0) == OptionToSeq(infos[k].allIncs.value) + after
      && (forall j :: 0 <= j < |after| ==> infos[k + 1 + j].iflag == Some(after[j]))
      && (k + 1 + |after| < |infos| ==> infos[k + 1 + |after|].iflag.None?)
  {
    IncludesSkipTo(infos, 0, k);
    CollectTakesWhile(infos, k + 1);
  }

  /**
   * The `for line in makefile_contents.lines()` loop of
   * `parse_includes_from_makefile`, over the line tests `strip` and
   * `extract` (in the build script, `StripAllIncs` and
   * `ExtractAfterIFlag`).
   */
  method CollectIncludes(lines: seq<string>, strip: string -> Option<string>, extract: string -> Option<string>)
    returns (includes: seq<string>)
    ensures includes == IncludesFrom(Infos(lines, strip, extract), 0)
  {
    ghost var infos := Infos(lines, strip, extract);
    includes := [];
    var includesLines := false;
    var i := 0;
    while i < |lines|
      invariant 0 <= i <= |lines|
      invariant !includesLines ==> includes == [] && IncludesFrom(infos, 0) == IncludesFrom(infos, i)
      invariant includesLines ==> IncludesFrom(infos, 0) == includes + CollectFrom(infos, i)
    {
      var line := lines[i];
      if !includesLines {
        var stripped := strip(line);
        if stripped.Some? {
          includesLines := true;
          var part := extract(stripped.value);
          if part.Some? {
            includes := includes + [part.value];
          }
          i := i + 1;
          continue;
        }
      }
      if includesLines {
        var part := extract(line);
        if part.Some? {
          includes := includes + [part.value];
        } else {
          break;
        }
      }
      i := i + 1;
    }
  }

  /** The include loop of `parse_includes_from_makefile` on the Makefile's lines. */
  method ParseIncludes(lines: seq<string>) returns (includes: seq<string>)
    ensures includes == Includes(lines)
  {
    includes := CollectIncludes(lines, StripAllIncs, ExtractAfterIFlag);
  }

  /** `Path::is_absolute` on Unix: the path starts at the root. */
  predicate IsAbsolute(p: string)
  {
    |p| > 0 && p[0] == '/'
  }

  /** `PathBuf::join` of a relative path: a separator is added unless the directory is empty or already ends in one. */
  function JoinPath(dir: string, p: string): (r: string)
    ensures |r| >= |dir| + |p| && r[..|dir|] == dir && r[|r| - |p|..] == p
    ensures |r| == |dir| + |p| <==> dir == [] || dir[|dir| - 1] == '/'
    ensures |r| > |dir| + |p| ==> r == dir + "/" + p
  {
    if dir == [] || dir[|dir| - 1] == '/' then dir + p else dir + "/" + p
  }

  /** The closure of `parse_includes_from_makefile`'s final `map`: absolute paths as they are, relative ones under `dir`. */
  function ResolvePath(dir: string, p: string): (r: string)
    ensures IsAbsolute(p) ==> r == p
    ensures !IsAbsolute(p) ==> r == JoinPath(dir, p)
    ensures IsAbsolute(dir) || IsAbsolute(p) ==> IsAbsolute(r)
  {
    if IsAbsolute(p) then p else JoinPath(dir, p)
  }

  /**
   * `parse_includes_from_makefile` on a Makefile with the given lines;
   * `dir` is the canonical form of the Makefile's grandparent directory.
   * The paths come out in the order of their lines, each resolved.
   */
  method ParseIncludesFromMakefile(lines: seq<string>, dir: string) returns (paths: seq<string>)
    ensures |paths| == |Includes(lines)|
    ensures forall j :: 0 <= j < |paths| ==> paths[j] == ResolvePath(dir, Includes(lines)[j])
  {
    var includes := ParseIncludes(lines);
    paths := seq(|includes|, j requires 0 <= j < |includes| => ResolvePath(dir, includes[j]));
  }

  /** The `clang_args` of `generate_binding`: `-I` glued to each path, in order. */
  function ClangArgs(paths: seq<string>): (args: seq<string>)
    ensures |args| == |paths|
    ensures forall j :: 0 <= j < |args| ==> StripPrefix(args[j], "-I") == Some(paths[j])
  {
    seq(|paths|, j requires 0 <= j < |paths| => "-I" + paths[j])
  }
}
