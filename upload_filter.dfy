/**
 * The upload file-type filter: a file is accepted iff the extension of its
 * original name, lower-cased and without its leading dot, is one of the
 * comma-separated allowed types (from the configuration, or
 * "jpg,jpeg,png,gif,webp,mp4,mov,avi" when that is unset or empty).
 *
 * The extension is Node's POSIX `path.extname`: the part of the last path
 * segment (trailing slashes ignored) from its last dot on, except that a
 * segment whose only dot is its first character, and the segment "..", have
 * no extension.
 */
module UploadFilter {
  import opened Values
  import opened Strings

  /** The eight media types allowed when nothing is configured. */
  const DefaultTypes: seq<string> := ["jpg", "jpeg", "png", "gif", "webp", "mp4", "mov", "avi"]

  /** The default setting, "jpg,jpeg,png,gif,webp,mp4,mov,avi". */
  const DefaultAllowedTypes: string := Join(DefaultTypes, ',')

  /**
   * The allow-list: the entries of the configured value when truthy, else of
   * the default, i.e. comma-free pieces that joined with commas give back the
   * setting.
   */
  function AllowedTypes(configured: Option<string>): (types: seq<string>)
    ensures |types| >= 1
    ensures forall i :: 0 <= i < |types| ==> ',' !in types[i]
    ensures Join(types, ',') == if Truthy(configured) then configured.value else DefaultAllowedTypes
  {
    var setting := if Truthy(configured) then configured.value else DefaultAllowedTypes;
    SplitJoin(setting, ',');
    Split(setting, ',')
  }

  /** The path without its trailing slashes. */
  function TrimTrailingSlashes(path: string): (r: string)
    ensures r <= path
    ensures r == [] || r[|r| - 1] != '/'
    ensures forall i :: |r| <= i < |path| ==> path[i] == '/'
  {
    if path != [] && path[|path| - 1] == '/' then TrimTrailingSlashes(path[..|path| - 1]) else path
  }

  /** The index of the last `c` in `s`, or -1 when there is none. */
  function LastIndexOf(s: string, c: char): (k: int)
    ensures -1 <= k < |s|
    ensures k >= 0 ==> s[k] == c
    ensures forall i :: k < i < |s| ==> s[i] != c
  {
    if s == [] then -1
    else if s[|s| - 1] == c then |s| - 1
    else LastIndexOf(s[..|s| - 1], c)
  }

  /**
   * The last segment of the path: the part of the path, trailing slashes
   * removed, after its last slash (all of it when it has none).
   */
  function BaseName(path: string): (b: string)
    ensures var t := TrimTrailingSlashes(path);
      |b| <= |t| && b == t[|t| - |b|..] && (|b| == |t| || t[|t| - |b| - 1] == '/')
    ensures '/' !in b
  {
    var t := TrimTrailingSlashes(path);
    t[LastIndexOf(t, '/') + 1..]
  }

  /**
   * The extension of one path segment: empty, or a dot followed by no
   * further dot, taken from the segment (where it sits is stated by
   * `SegmentExtEndsSegment`).
   */
  function SegmentExt(b: string): (ext: string)
    ensures ext == "" || (ext[0] == '.' && '.' !in ext[1..])
    ensures '/' !in b ==> '/' !in ext
  {
    var k := LastIndexOf(b, '.');
    if k <= 0 || b == ".." then ""
    else
      assert forall i :: 0 <= i < |b[k..]| ==> b[k..][i] == b[k + i];
      b[k..]
  }

  /**
   * The extension ends the segment, and a segment without a dot, or "..",
   * has none.
   */
  lemma SegmentExtEndsSegment(b: string)
    ensures var ext := SegmentExt(b);
      && (ext == "" || (|ext| <= |b| && b[|b| - |ext|..] == ext))
      && ('.' !in b || b == ".." ==> ext == "")
  {
    var k := LastIndexOf(b, '.');
    if !(k <= 0 || b == "..") {
      assert b[|b| - |b[k..]|..] == b[k..];
    }
  }

  /** `path.extname`: the extension of the last segment. */
  function ExtName(path: string): (ext: string)
    ensures ext == "" || (ext[0] == '.' && '.' !in ext[1..] && '/' !in ext)
  {
    SegmentExt(BaseName(path))
  }

  /**
   * `path.extname(name).toLowerCase().substring(1)`: the lower-cased
   * extension without its dot, empty when there is no extension.
   */
  function ExtensionOf(originalName: string): (e: string)
    ensures ExtName(originalName) == "" ==> e == ""
    ensures ExtName(originalName) != "" ==> Lower(ExtName(originalName)) == "." + e
  {
    var ext := ExtName(originalName);
    if ext == "" then ""  // `"".substring(1)` is ""
    else
      LowerKeepsLeadingDot(ext);
      Lower(ext)[1..]
  }

  /** Lower-casing keeps a leading dot in front. */
  lemma LowerKeepsLeadingDot(x: string)
    requires x != [] && x[0] == '.'
    ensures Lower(x) == "." + Lower(x)[1..]
  {
    assert Lower(x)[0] == LowerChar('.');
  }

  /** The filter's verdict on a file with this original name. */
  predicate Accepts(originalName: string, configured: Option<string>)
  {
    ExtensionOf(originalName) in AllowedTypes(configured)
  }

  /** A path with no slash is its own last segment. */
  lemma BaseNameOfSegment(name: string)
    requires '/' !in name
    ensures BaseName(name) == name
  {
    forall j | 0 <= j < |name| ensures name[j] != '/' {
      assert name[j] in name;
    }
    assert TrimTrailingSlashes(name) == name;
    assert LastIndexOf(name, '/') == -1;
  }

  /**
   * In a segment, a dot at position `k > 0` with no dot after it starts the
   * extension, unless the segment is "..".
   */
  lemma ExtNameOfSegment(name: string, k: nat)
    requires '/' !in name && name != ".."
    requires 0 < k < |name| && name[k] == '.'
    requires forall j :: k < j < |name| ==> name[j] != '.'
    ensures ExtName(name) == name[k..]
  {
    BaseNameOfSegment(name);
    assert LastIndexOf(name, '.') == k;
  }

  /**
   * A plain file name `stem.ext` whose stem has a character other than a dot
   * and whose extension has no dot: the extension is `.ext`.
   */
  lemma ExtNameOfPlainName(stem: string, e: string, i: nat)
    requires '/' !in stem && '/' !in e && '.' !in e
    requires i < |stem| && stem[i] != '.'
    ensures ExtName(stem + "." + e) == "." + e
  {
    var name := stem + "." + e;
    assert name[|stem|] == '.';
    forall j | |stem| < j < |name| ensures name[j] != '.' {
      assert name[j] == e[j - |stem| - 1];
      assert e[j - |stem| - 1] in e;
    }
    assert name[i] == stem[i];
    assert name[|stem|..] == "." + e;
    ExtNameOfSegment(name, |stem|);
  }

  /** A name whose only dot is its first character has no extension (".jpg" is rejected by default). */
  lemma DotfileHasNoExtension(e: string)
    requires '/' !in e && '.' !in e
    ensures ExtName("." + e) == ""
  {
    var name := "." + e;
    BaseNameOfSegment(name);
    assert name[0] == '.';
    forall j | 0 < j < |name| ensures name[j] != '.' {
      assert name[j] == e[j - 1];
      assert e[j - 1] in e;
    }
    assert LastIndexOf(name, '.') == 0;
  }

  /**
   * For a plain name `stem.ext`, the filter accepts iff the lower-cased `ext`
   * is one of the allowed types.
   */
  lemma AcceptsPlainName(stem: string, e: string, i: nat, configured: Option<string>)
    requires '/' !in stem && '/' !in e && '.' !in e
    requires i < |stem| && stem[i] != '.'
    ensures Accepts(stem + "." + e, configured) <==> Lower(e) in AllowedTypes(configured)
  {
    ExtNameOfPlainName(stem, e, i);
    var lowered := Lower("." + e);
    forall k | 0 <= k < |e| ensures lowered[k + 1] == Lower(e)[k] {
      assert ("." + e)[k + 1] == e[k];
    }
    assert ExtensionOf(stem + "." + e) == lowered[1..] == Lower(e);
  }

  /** The default allow-list holds exactly the eight media types. */
  lemma DefaultAllowedTypesList()
    ensures AllowedTypes(None) == DefaultTypes
  {
    JoinSplit(DefaultTypes, ',');
  }

  /**
   * Without configuration, a plain name `stem.ext` is accepted iff its
   * lower-cased extension is one of the eight default types.
   */
  lemma DefaultAcceptsPlainName(stem: string, e: string, i: nat)
    requires '/' !in stem && '/' !in e && '.' !in e
    requires i < |stem| && stem[i] != '.'
    ensures Accepts(stem + "." + e, None) <==> Lower(e) in DefaultTypes
  {
    AcceptsPlainName(stem, e, i, None);
    DefaultAllowedTypesList();
  }

  /** Without configuration, a file name with no dot (`photo`) is refused. */
  lemma DefaultRejectsDotFreeName(name: string)
    requires '/' !in name && '.' !in name
    ensures !Accepts(name, None)
  {
    BaseNameOfSegment(name);
    SegmentExtEndsSegment(name);
    NoExtensionNeedsEmptyEntry(name, None);
    DefaultAllowedTypesList();
    NoEmptyDefaultType();
    assert !("" in AllowedTypes(None));
  }

  /** None of the eight default types is empty. */
  lemma NoEmptyDefaultType()
    ensures "" !in DefaultTypes
  {
  }

  /** A name without extension is accepted only when the allow-list has an empty entry. */
  lemma NoExtensionNeedsEmptyEntry(name: string, configured: Option<string>)
    requires ExtName(name) == ""
    ensures Accepts(name, configured) <==> "" in AllowedTypes(configured)
  {
  }
}
