/**
 * `normalize_path` (main.cpp) and the paths the controller builds with it.
 *
 * A path is cut into segments at `/` (after every `\` became `/`); empty and
 * `.` segments are dropped, `..` drops the segment before it (and is itself
 * dropped when there is none), and the remaining segments are joined again,
 * each behind a `/`, except that a first segment of two characters whose
 * second is `:` (a Windows drive such as `C:`) gets no leading `/`.
 */
module Paths {
  import opened Text

  // ---------------------------------------------------------------------------
  // Specification
  // ---------------------------------------------------------------------------

  /** `replace(path.begin(), path.end(), '\\', '/')`. */
  function Slashed(s: string): string
  {
    seq(|s|, i requires 0 <= i < |s| => if s[i] == '\\' then '/' else s[i])
  }

  /** A Windows drive prefix such as `C:`. */
  predicate IsDrive(segment: string)
  {
    |segment| == 2 && segment[1] == ':'
  }

  /** A segment that survives normalisation. */
  predicate IsName(segment: string)
  {
    segment != "" && segment != "." && segment != ".." && '/' !in segment && '\\' !in segment
  }

  predicate AllNames(parts: seq<string>)
  {
    forall i :: 0 <= i < |parts| ==> IsName(parts[i])
  }

  /** One turn of the segment loop over the `parts` stack. */
  function Step(parts: seq<string>, segment: string): seq<string>
  {
    if segment == "" || segment == "." then parts
    else if segment == ".." then (if parts == [] then parts else parts[..|parts| - 1])
    else parts + [segment]
  }

  /** The `parts` stack after the segment loop has consumed `segments`, starting from `parts`. */
  function Resolve(parts: seq<string>, segments: seq<string>): seq<string>
    decreases |segments|
  {
    if segments == [] then parts
    else Step(Resolve(parts, segments[..|segments| - 1]), segments[|segments| - 1])
  }

  /** The segments that `normalize_path` keeps. */
  function Parts(path: string): seq<string>
  {
    Resolve([], Fields(Slashed(path), '/'))
  }

  /** What the join loop appends for the segment at position `i`. */
  function Piece(i: nat, segment: string): string
  {
    if i == 0 && IsDrive(segment) then segment else "/" + segment
  }

  /** The join loop: `r += "/"` (unless a leading drive), then `r += parts[i]`. */
  function Render(parts: seq<string>): (r: string)
    ensures parts != [] && parts[0] != "" ==> r != ""
    decreases |parts|
  {
    if parts == [] then "" else Render(parts[..|parts| - 1]) + Piece(|parts| - 1, parts[|parts| - 1])
  }

  /** `normalize_path(path)`. */
  function Normalize(path: string): string
  {
    var r := Render(Parts(path));
    if r == "" then "/" else r
  }

  /** Drops the last segment, if there is one. */
  function DropLast(parts: seq<string>): seq<string>
  {
    if parts == [] then [] else parts[..|parts| - 1]
  }

  // ---------------------------------------------------------------------------
  // The imperative normalize_path
  // ---------------------------------------------------------------------------

  /** `replace(path.begin(), path.end(), '\\', '/')`, in place on a copy. */
  method ReplaceBackslashes(path: string) returns (p: string)
    ensures p == Slashed(path)
  {
    p := path;
    var k := 0;
    while k < |p|
      invariant 0 <= k <= |p| && |p| == |path|
      invariant forall j :: 0 <= j < k ==> p[j] == Slashed(path)[j]
      invariant forall j :: k <= j < |p| ==> p[j] == path[j]
    {
      if p[k] == '\\' {
        p := p[k := '/'];
      }
      k := k + 1;
    }
  }

  /** The segment loop: skip empty and `.`, pop on `..`, push anything else. */
  method ResolveSegments(segments: seq<string>) returns (parts: seq<string>)
    ensures parts == Resolve([], segments)
  {
    parts := [];
    var i := 0;
    while i < |segments|
      invariant 0 <= i <= |segments|
      invariant parts == Resolve([], segments[..i])
    {
      assert segments[..i + 1][..i] == segments[..i];
      var segment := segments[i];
      if segment == "" || segment == "." {
      } else if segment == ".." {
        if parts != [] {
          parts := parts[..|parts| - 1];
        }
      } else {
        parts := parts + [segment];
      }
      i := i + 1;
    }
    assert segments[..|segments|] == segments;
  }

  /** The join loop. */
  method JoinParts(parts: seq<string>) returns (r: string)
    ensures r == Render(parts)
  {
    r := "";
    var i := 0;
    while i < |parts|
      invariant 0 <= i <= |parts|
      invariant r == Render(parts[..i])
    {
      RenderStep(parts, i);
      var piece := parts[i];
      if i == 0 && |parts[0]| == 2 && parts[0][1] == ':' {
        // Windows drive letter part: no separator before it.
      } else {
        piece := "/" + piece;
      }
      r := r + piece;
      i := i + 1;
    }
    assert parts[..|parts|] == parts;
  }

  /** One more part renders its piece after the others. */
  lemma RenderStep(parts: seq<string>, i: int)
    requires 0 <= i < |parts|
    ensures Render(parts[..i + 1]) == Render(parts[..i]) + Piece(i, parts[i])
  {
    assert parts[..i + 1][..i] == parts[..i];
  }

  /** `normalize_path`. */
  method NormalizePath(path: string) returns (r: string)
    ensures r == Normalize(path)
  {
    var p := ReplaceBackslashes(path);
    var segments := SplitFields(p, '/');
    var parts := ResolveSegments(segments);
    GetlineResolve([], p);
    r := JoinParts(parts);
    if r == "" {
      r := "/";
    }
  }

  // ---------------------------------------------------------------------------
  // Lemmas about the segment loop
  // ---------------------------------------------------------------------------

  /** The empty last field that getline does not produce makes no difference to the loop. */
  lemma GetlineResolve(parts: seq<string>, s: string)
    ensures Resolve(parts, GetlineFields(s, '/')) == Resolve(parts, Fields(s, '/'))
  {
  }

  lemma {:induction false} ResolveConcat(parts: seq<string>, a: seq<string>, b: seq<string>)
    ensures Resolve(parts, a + b) == Resolve(Resolve(parts, a), b)
    decreases |b|
  {
    if b == [] {
      assert a + b == a;
    } else {
      assert (a + b)[..|a + b| - 1] == a + b[..|b| - 1];
      ResolveConcat(parts, a, b[..|b| - 1]);
    }
  }

  /** Real segments are pushed one after the other. */
  lemma {:induction false} ResolveNames(parts: seq<string>, names: seq<string>)
    requires AllNames(names)
    ensures Resolve(parts, names) == parts + names
    decreases |names|
  {
    if names != [] {
      ResolveNames(parts, names[..|names| - 1]);
      assert names == names[..|names| - 1] + [names[|names| - 1]];
    }
  }

  /** Segments that are only empty, `.` or `..` leave an empty stack empty. */
  lemma {:induction false} ResolveNoNames(segments: seq<string>)
    requires forall i :: 0 <= i < |segments| ==> segments[i] in {"", ".", ".."}
    ensures Resolve([], segments) == []
    decreases |segments|
  {
    if segments != [] {
      ResolveNoNames(segments[..|segments| - 1]);
    }
  }

  /** The stack only ever holds real segments. */
  lemma {:induction false} ResolveKeepsNames(parts: seq<string>, segments: seq<string>)
    requires AllNames(parts)
    requires forall i :: 0 <= i < |segments| ==> '/' !in segments[i] && '\\' !in segments[i]
    ensures AllNames(Resolve(parts, segments))
    decreases |segments|
  {
    if segments != [] {
      ResolveKeepsNames(parts, segments[..|segments| - 1]);
    }
  }

  lemma SlashedConcat(a: string, b: string)
    ensures Slashed(a + b) == Slashed(a) + Slashed(b)
  {
  }

  lemma SlashedChars(s: string)
    ensures '\\' !in Slashed(s)
    ensures '\\' !in s ==> Slashed(s) == s
  {
    assert forall i :: 0 <= i < |s| ==> Slashed(s)[i] != '\\';
  }

  /** Every segment `normalize_path` keeps is a real one. */
  lemma PartsAreNames(path: string)
    ensures AllNames(Parts(path))
  {
    var s := Slashed(path);
    var f := Fields(s, '/');
    FieldChars(s, '/');
    SlashedChars(path);
    forall i | 0 <= i < |f|
      ensures '/' !in f[i] && '\\' !in f[i]
    {
      assert PieceOf(f[i], s, '/');
    }
    ResolveKeepsNames([], f);
  }

  /** Splitting a path at a `/` splits the segment loop at the same place. */
  lemma PartsConcat(a: string, b: string)
    ensures Parts(a + "/" + b) == Resolve(Parts(a), Fields(Slashed(b), '/'))
  {
    SlashedConcat(a + "/", b);
    SlashedConcat(a, "/");
    assert Slashed("/") == ['/'];
    FieldsConcat(Slashed(a), Slashed(b), '/');
    ResolveConcat([], Fields(Slashed(a), '/'), Fields(Slashed(b), '/'));
  }

  // ---------------------------------------------------------------------------
  // Lemmas about the join loop
  // ---------------------------------------------------------------------------

  lemma {:induction false} RenderNoBackslash(parts: seq<string>)
    requires AllNames(parts)
    ensures '\\' !in Render(parts)
    decreases |parts|
  {
    if parts != [] {
      var q := parts[..|parts| - 1];
      RenderNoBackslash(q);
      var piece := Piece(|parts| - 1, parts[|parts| - 1]);
      assert '\\' !in piece;
      assert forall c :: c in Render(q) + piece ==> c in Render(q) || c in piece;
    }
  }

  /** The joined string starts with what was appended for the first segment. */
  lemma {:induction false} RenderFirst(parts: seq<string>)
    requires AllNames(parts) && parts != []
    ensures Render(parts)[0] == Piece(0, parts[0])[0]
    decreases |parts|
  {
    var q := parts[..|parts| - 1];
    if q != [] {
      RenderFirst(q);
    }
  }

  /** Appending `/` and a separator-free segment adds that segment as a field. */
  lemma FieldsAppendSegment(prefix: string, segment: string)
    requires '/' !in segment
    ensures Fields(prefix + ("/" + segment), '/') == Fields(prefix, '/') + [segment]
  {
    assert prefix + ("/" + segment) == prefix + ['/'] + segment;
    FieldsConcat(prefix, segment, '/');
    FieldsOfSeparatorFree(segment, '/');
  }

  /** Cutting the joined string at `/` gives back the segments, after an empty field unless a drive leads. */
  lemma {:induction false} FieldsOfRender(parts: seq<string>)
    requires AllNames(parts) && parts != []
    ensures Fields(Render(parts), '/') == (if IsDrive(parts[0]) then [] else [""]) + parts
    decreases |parts|
  {
    var q, p := parts[..|parts| - 1], parts[|parts| - 1];
    assert parts == q + [p];
    assert Render(parts) == Render(q) + Piece(|q|, p);
    if q == [] {
      if IsDrive(p) {
        assert Render(parts) == p;
        FieldsOfSeparatorFree(p, '/');
      } else {
        assert Render(parts) == "" + ("/" + p);
        FieldsAppendSegment("", p);
      }
    } else {
      FieldsOfRender(q);
      assert q[0] == parts[0];
      FieldsAppendSegment(Render(q), p);
    }
  }

  /** The fields of a normalized path resolve, on top of any stack, to that stack plus the path's segments. */
  lemma ResolveNormalized(parts: seq<string>, path: string)
    ensures Resolve(parts, Fields(Normalize(path), '/')) == parts + Parts(path)
  {
    var ps := Parts(path);
    PartsAreNames(path);
    if ps == [] {
      assert Normalize(path) == "/";
      assert Fields("/", '/') == ["", ""];
    } else {
      assert ps[0] != "";
      FieldsOfRender(ps);
      var pre: seq<string> := if IsDrive(ps[0]) then [] else [""];
      ResolveConcat(parts, pre, ps);
      assert Resolve(parts, pre) == parts;
      ResolveNames(parts, ps);
    }
  }

  // ---------------------------------------------------------------------------
  // Properties of normalize_path
  // ---------------------------------------------------------------------------

  /**
   * The result is never empty and has no `\`; it is `/` exactly when no real
   * segment is left, and it starts with `/` unless its first segment is a
   * drive such as `C:`.
   */
  lemma NormalizeShape(path: string)
    ensures var r, ps := Normalize(path), Parts(path);
      && r != ""
      && '\\' !in r
      && (r == "/" <==> ps == [])
      && (r[0] == '/' <==> !(ps != [] && IsDrive(ps[0])))
  {
    var ps := Parts(path);
    PartsAreNames(path);
    if ps != [] {
      assert ps[0] != "";
      RenderNoBackslash(ps);
      RenderFirst(ps);
      FieldsOfRender(ps);
      if Render(ps) == "/" {
        assert false;
      }
    }
  }

  /**
   * Cut at `/`, the result is exactly the kept segments (each a real one: not
   * empty, not `.` or `..`, without `/` or `\`), behind one empty field when it
   * starts with `/`.
   */
  lemma NormalizeSegments(path: string)
    ensures var r, ps := Normalize(path), Parts(path);
      && AllNames(ps)
      && Fields(r, '/') == (if ps == [] then ["", ""] else if r[0] == '/' then [""] + ps else ps)
  {
    var ps := Parts(path);
    PartsAreNames(path);
    NormalizeShape(path);
    if ps == [] {
      assert Fields("/", '/') == ["", ""];
    } else {
      FieldsOfRender(ps);
    }
  }

  /** Normalizing a normalized path keeps its segments. */
  lemma PartsOfNormalize(path: string)
    ensures Parts(Normalize(path)) == Parts(path)
  {
    NormalizeShape(path);
    SlashedChars(Normalize(path));
    ResolveNormalized([], path);
  }

  /** `normalize_path` is idempotent. */
  lemma NormalizeIdempotent(path: string)
    ensures Normalize(Normalize(path)) == Normalize(path)
  {
    PartsOfNormalize(path);
  }

  /** A `..` with nothing to pop is dropped. */
  lemma LeadingDotDotDropped(path: string)
    ensures Normalize("../" + path) == Normalize(path)
  {
    assert "../" + path == ".." + "/" + path;
    PartsConcat("..", path);
    assert Slashed("..") == "..";
    FieldsOfSeparatorFree("..", '/');
  }

  /** A segment that is empty, `.` or `..`. */
  predicate IsDotOrEmpty(segment: string)
  {
    segment == "" || segment == "." || segment == ".."
  }

  /** A path without a real segment normalizes to `/`. */
  lemma NoNamesGivesRoot(path: string)
    requires forall i :: 0 <= i < |Fields(Slashed(path), '/')| ==> IsDotOrEmpty(Fields(Slashed(path), '/')[i])
    ensures Normalize(path) == "/"
  {
    ResolveNoNames(Fields(Slashed(path), '/'));
  }

  /** Appending `/` and one separator-free segment is one more turn of the segment loop. */
  lemma PartsAppendSegment(dir: string, segment: string)
    requires '/' !in segment && '\\' !in segment
    ensures Parts(dir + "/" + segment) == Step(Parts(dir), segment)
  {
    PartsConcat(dir, segment);
    SlashedChars(segment);
    FieldsOfSeparatorFree(segment, '/');
    assert [segment][..0] == [];
  }

  // ---------------------------------------------------------------------------
  // Paths the controller derives
  // ---------------------------------------------------------------------------

  /** The parent-directory menu: `normalize_path(current_dir_ + "/..")` drops the last segment. */
  function ParentOf(dir: string): (r: string)
    ensures Parts(r) == DropLast(Parts(dir))
  {
    assert dir + "/" + ".." == dir + "/..";
    PartsAppendSegment(dir, "..");
    PartsOfNormalize(dir + "/..");
    Normalize(dir + "/..")
  }

  /** Entering a listed entry: `normalize_path(current_dir_ + "/" + name)` appends a real name. */
  function ChildOf(dir: string, name: string): (r: string)
    ensures IsName(name) ==> Parts(r) == Parts(dir) + [name]
  {
    PartsOfNormalize(dir + "/" + name);
    if IsName(name) then
      PartsAppendSegment(dir, name);
      Normalize(dir + "/" + name)
    else
      Normalize(dir + "/" + name)
  }

  /** Appending a normalized path appends its parts. */
  lemma AppendNormalized(dir: string, remote: string)
    ensures Parts(dir + "/" + Normalize(remote)) == Parts(dir) + Parts(remote)
  {
    var n := Normalize(remote);
    PartsConcat(dir, n);
    NormalizeShape(remote);
    SlashedChars(n);
    ResolveNormalized(Parts(dir), remote);
  }

  /** The scratch path's text, regrouped one segment at a time. */
  lemma ScratchText(tempDir: string, conn: string, n: string)
    ensures tempDir + "/sftpgui/" + conn + "/" + n == ((tempDir + "/" + "sftpgui") + "/" + conn) + "/" + n
  {
    assert "/sftpgui/" == "/" + "sftpgui" + "/";
  }

  /** The segments of the local copy of `remote` (see `ScratchPath`). */
  lemma ScratchParts(tempDir: string, conn: string, remote: string)
    requires IsName(conn)
    ensures Parts(tempDir + "/sftpgui/" + conn + "/" + Normalize(remote))
         == Parts(tempDir) + ["sftpgui", conn] + Parts(remote)
  {
    ScratchText(tempDir, conn, Normalize(remote));
    assert IsName("sftpgui");
    PartsUnderTwo(tempDir, "sftpgui", conn, remote);
  }

  /** Two real names and a normalized path below `base` add their segments to the base's. */
  lemma PartsUnderTwo(base: string, a: string, b: string, remote: string)
    requires IsName(a) && IsName(b)
    ensures Parts(((base + "/" + a) + "/" + b) + "/" + Normalize(remote)) == Parts(base) + [a, b] + Parts(remote)
  {
    var top := base + "/" + a;
    var inner := top + "/" + b;
    AppendNormalized(inner, remote);
    PartsAppendName(top, b);
    PartsAppendName(base, a);
    assert Parts(base) + [a] + [b] == Parts(base) + [a, b];
  }

  /** Appending `/` and a real name adds that name to the segments. */
  lemma PartsAppendName(dir: string, name: string)
    requires IsName(name)
    ensures Parts(dir + "/" + name) == Parts(dir) + [name]
  {
    PartsAppendSegment(dir, name);
  }

  /**
   * The local copy of a remote file: the remote path is normalized and placed
   * under `<temp>/sftpgui/<conn>/`. When `conn` is a single real segment the
   * local path's segments are the temporary directory's, then `sftpgui` and
   * `conn`, then the remote path's.
   */
  function ScratchPath(tempDir: string, conn: string, remote: string): (r: string)
    ensures IsName(conn) ==> Parts(r) == Parts(tempDir) + ["sftpgui", conn] + Parts(remote)
  {
    var path := tempDir + "/sftpgui/" + conn + "/" + Normalize(remote);
    PartsOfNormalize(path);
    if IsName(conn) then
      ScratchParts(tempDir, conn, remote);
      Normalize(path)
    else
      Normalize(path)
  }
}
