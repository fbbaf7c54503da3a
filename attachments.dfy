/** Saving the résumé attached to an application e-mail: the filename
    sanitiser, POSIX `os.path.splitext`/`os.path.join`, the collision-avoiding
    path chooser and `_download_first_resume_attachment`. The file system is
    a map from path to contents. */
module Attachments {
  import opened Text
  import opened Base64Url
  import opened Mime

  // ---------------------------------------------------------------------
  // _safe_filename

  /** Characters `[A-Za-z0-9.\- _]` that survive the substitution. */
  predicate IsSafeChar(c: char)
  {
    IsAsciiLetter(c) || IsAsciiDigit(c) || c == '.' || c == '-' || c == ' ' || c == '_'
  }

  /** `re.sub(r"[^A-Za-z0-9.\- _]", "_", name)`. */
  function Sanitize(name: string): (r: string)
    ensures |r| == |name|
    ensures forall i :: 0 <= i < |r| ==> IsSafeChar(r[i])
    ensures forall i :: 0 <= i < |r| ==> r[i] == (if IsSafeChar(name[i]) then name[i] else '_')
  {
    if name == [] then [] else [if IsSafeChar(name[0]) then name[0] else '_'] + Sanitize(name[1..])
  }

  const DefaultFilename := "attachment"

  /** `_safe_filename(name)`: the sanitised name stripped of whitespace, or
      the default name when nothing is left. */
  function SafeFilename(name: string): (r: string)
    ensures Strip(Sanitize(name)) == [] ==> r == DefaultFilename
    ensures Strip(Sanitize(name)) != [] ==> r == Strip(Sanitize(name))
    ensures r != []
    ensures forall i :: 0 <= i < |r| ==> IsSafeChar(r[i])
    ensures r[0] != ' ' && r[|r| - 1] != ' '
  {
    var safe := Strip(Sanitize(name));
    StripKeepsSafe(Sanitize(name));
    if safe == [] then DefaultFilename else safe
  }

  lemma StripKeepsSafe(s: string)
    requires forall i :: 0 <= i < |s| ==> IsSafeChar(s[i])
    ensures forall i :: 0 <= i < |Strip(s)| ==> IsSafeChar(Strip(s)[i])
  {
    var r := Strip(s);
    var k: nat :| k <= |s| && OccursAt(s, r, k);
    assert forall i :: 0 <= i < |r| ==> r[i] == s[k + i];
  }

  lemma {:induction false} SanitizeSafe(s: string)
    requires forall i :: 0 <= i < |s| ==> IsSafeChar(s[i])
    ensures Sanitize(s) == s
  {
    if s != [] {
      SanitizeSafe(s[1..]);
    }
  }

  lemma StripStripped(s: string)
    requires s != [] ==> !IsSpace(s[0]) && !IsSpace(s[|s| - 1])
    ensures Strip(s) == s
  {
    assert LeadingSpaces(s) == 0;
    assert s[0..] == s;
    assert TrailingSpaces(s) == 0;
  }

  lemma SafeNonSpace(c: char)
    requires IsSafeChar(c) && c != ' '
    ensures !IsSpace(c)
  {
  }

  /** Sanitising a sanitised name changes nothing. */
  lemma SafeFilenameIdempotent(name: string)
    ensures SafeFilename(SafeFilename(name)) == SafeFilename(name)
  {
    var r := SafeFilename(name);
    SanitizeSafe(r);
    assert !IsSpace(r[0]) && !IsSpace(r[|r| - 1]) by {
      SafeNonSpace(r[0]);
      SafeNonSpace(r[|r| - 1]);
    }
    StripStripped(r);
    assert Strip(Sanitize(r)) == r;
  }

  // ---------------------------------------------------------------------
  // os.path.splitext and os.path.join (POSIX)

  /** Index of the last `c` in `s`, or -1. */
  function LastIndex(s: string, c: char): (r: int)
    ensures -1 <= r < |s|
    ensures r >= 0 ==> s[r] == c
    ensures forall i :: r < i < |s| ==> s[i] != c
  {
    if s == [] then -1
    else if s[|s| - 1] == c then |s| - 1
    else LastIndex(s[..|s| - 1], c)
  }

  /** `os.path.splitext(p)`: the extension is the last '.' of the last
      component and what follows it, unless the component has nothing but
      dots before it. */
  function SplitExt(p: string): (r: (string, string))
    ensures r.0 + r.1 == p
    ensures r.1 != [] ==> r.1[0] == '.' && '.' !in r.1[1..] && '/' !in r.1
    ensures r.1 != [] ==> r.0 != []
    ensures r.1 != [] ==> exists k :: LastIndex(p, '/') < k < |r.0| && p[k] != '.'
    ensures r.1 == [] ==>
              forall i :: LastIndex(p, '/') < i < |p| && p[i] == '.' ==>
                forall k :: LastIndex(p, '/') < k < i ==> p[k] == '.'
  {
    var sep := LastIndex(p, '/');
    var dot := LastIndex(p, '.');
    if dot > sep && exists k :: sep + 1 <= k < dot && p[k] != '.' then
      assert p[..dot] + p[dot..] == p;
      (p[..dot], p[dot..])
    else (p, [])
  }

  /** `os.path.join(a, b)`. */
  function Join(a: string, b: string): (r: string)
    ensures EndsWith(r, b)
    ensures StartsWith(b, "/") ==> r == b
    ensures !StartsWith(b, "/") ==> StartsWith(r, a) && |r| <= |a| + 1 + |b|
  {
    if StartsWith(b, "/") then b
    else if a == [] || EndsWith(a, "/") then a + b
    else a + "/" + b
  }

  // ---------------------------------------------------------------------
  // _unique_path

  /** The `n`-th file name `_unique_path` tries: `filename`, then
      `"base (n)ext"`. */
  function NumberedName(filename: string, n: nat): string
  {
    if n == 0 then filename
    else
      var (base, ext) := SplitExt(filename);
      base + " (" + NatToString(n) + ")" + ext
  }

  /** The `n`-th path `_unique_path` tries. */
  function Candidate(dir: string, filename: string, n: nat): string
  {
    Join(dir, NumberedName(filename, n))
  }

  /** Joining onto the same directory keeps names apart unless one is
      absolute and the other is not. */
  lemma JoinInjective(dir: string, x: string, y: string)
    requires StartsWith(x, "/") == StartsWith(y, "/")
    requires Join(dir, x) == Join(dir, y)
    ensures x == y
  {
    if !StartsWith(x, "/") {
      var pre := if dir == [] || EndsWith(dir, "/") then dir else dir + "/";
      assert Join(dir, x) == pre + x && Join(dir, y) == pre + y;
      assert x == (pre + x)[|pre|..];
    }
  }

  /** A numbered name is longer than the plain one and starts the same way. */
  lemma NumberedNameShape(filename: string, n: nat)
    ensures StartsWith(NumberedName(filename, n), "/") == StartsWith(filename, "/")
    ensures n > 0 ==> |NumberedName(filename, n)| > |filename|
  {
    if n > 0 {
      var (base, ext) := SplitExt(filename);
      var r := NumberedName(filename, n);
      assert r == base + (" (" + NatToString(n) + ")" + ext);
      if base == [] {
        assert filename == [];
        assert r[0] == ' ';
      } else {
        assert r[..1] == base[..1] && filename[..1] == base[..1];
      }
    }
  }

  lemma NumberedNamesDiffer(base: string, ext: string, a: string, b: string)
    requires forall i :: 0 <= i < |a| ==> IsAsciiDigit(a[i])
    requires forall i :: 0 <= i < |b| ==> IsAsciiDigit(b[i])
    requires base + " (" + a + ")" + ext == base + " (" + b + ")" + ext
    ensures a == b
  {
    var x, y := base + " (" + a + ")" + ext, base + " (" + b + ")" + ext;
    var n := |base| + 2;
    assert |a| == |b|;
    assert a == x[n..n + |a|] && b == y[n..n + |b|];
  }

  /** The paths tried are pairwise distinct, so the search cannot cycle. */
  lemma CandidatesDistinct(dir: string, filename: string, m: nat, n: nat)
    requires Candidate(dir, filename, m) == Candidate(dir, filename, n)
    ensures m == n
  {
    var x, y := NumberedName(filename, m), NumberedName(filename, n);
    NumberedNameShape(filename, m);
    NumberedNameShape(filename, n);
    JoinInjective(dir, x, y);
    if m != 0 && n != 0 {
      var (base, ext) := SplitExt(filename);
      NumberedNamesDiffer(base, ext, NatToString(m), NatToString(n));
      NatToStringInjective(m, n);
    }
  }

  /** The values `f` takes below `n`: the paths tried before the `n`-th. */
  function Tried(f: nat -> string, n: nat): set<string>
  {
    if n == 0 then {} else Tried(f, n - 1) + {f(n - 1)}
  }

  lemma {:induction false} NotTriedBefore(f: nat -> string, k: nat, n: nat)
    requires n <= k
    requires forall j: nat :: j < k ==> f(j) != f(k)
    ensures f(k) !in Tried(f, n)
  {
    if n > 0 {
      NotTriedBefore(f, k, n - 1);
    }
  }

  lemma {:induction false} TriedIn(existing: set<string>, f: nat -> string, n: nat)
    requires forall j: nat :: j < n ==> f(j) in existing
    ensures Tried(f, n) <= existing
  {
    if n > 0 {
      TriedIn(existing, f, n - 1);
    }
  }

  /** Trying one more taken path leaves fewer taken paths untried. */
  lemma TriedGrows(existing: set<string>, dir: string, filename: string, k: nat)
    requires forall j: nat :: j <= k ==> Candidate(dir, filename, j) in existing
    ensures var f := (j: nat) => Candidate(dir, filename, j);
      |existing - Tried(f, k + 1)| < |existing - Tried(f, k)|
  {
    var f := (j: nat) => Candidate(dir, filename, j);
    var tried, path := Tried(f, k), f(k);
    TriedIn(existing, f, k);
    forall j: nat | j < k ensures f(j) != f(k) {
      if f(j) == f(k) { CandidatesDistinct(dir, filename, j, k); }
    }
    NotTriedBefore(f, k, k);
    assert existing - tried == (existing - (tried + {path})) + {path};
  }

  /** `path` is the first candidate that does not exist. */
  ghost predicate FirstFree(existing: set<string>, dir: string, filename: string, path: string)
  {
    path !in existing &&
    exists n: nat :: path == Candidate(dir, filename, n)
      && forall j: nat :: j < n ==> Candidate(dir, filename, j) in existing
  }

  /** `_unique_path(directory, filename)` against the paths in `existing`. */
  method UniquePath(existing: set<string>, dir: string, filename: string) returns (path: string)
    ensures path !in existing
    ensures FirstFree(existing, dir, filename, path)
    ensures Join(dir, filename) !in existing ==> path == Join(dir, filename)
  {
    path := Join(dir, filename);
    var i := 1;
    while path in existing
      invariant i >= 1 && path == Candidate(dir, filename, i - 1)
      invariant forall j: nat :: j < i - 1 ==> Candidate(dir, filename, j) in existing
      decreases |existing - Tried((j: nat) => Candidate(dir, filename, j), i - 1)|
    {
      ghost var k := i - 1;
      assert forall j: nat :: j <= k ==> Candidate(dir, filename, j) in existing by {
        forall j: nat | j <= k ensures Candidate(dir, filename, j) in existing {
          if j == k { assert Candidate(dir, filename, j) == path; }
        }
      }
      TriedGrows(existing, dir, filename, k);
      path := Candidate(dir, filename, i);
      i := i + 1;
    }
    assert FirstFree(existing, dir, filename, path) by {
      var n: nat := i - 1;
      assert path == Candidate(dir, filename, n);
    }
  }

  // ---------------------------------------------------------------------
  // _download_first_resume_attachment

  predicate IsResumeName(filename: string)
  {
    var f := Lower(filename);
    EndsWith(f, ".pdf") || EndsWith(f, ".doc") || EndsWith(f, ".docx")
  }

  /** A part the download loop stops at. */
  predicate IsResumePart(p: Part)
  {
    p.filename != [] && IsResumeName(p.filename) && p.attachmentId != []
  }

  /** The first résumé part, in the order the parts are given. */
  function FirstResumePart(ps: seq<Part>): (r: Option<Part>)
    ensures r.None? <==> forall i :: 0 <= i < |ps| ==> !IsResumePart(ps[i])
    ensures r.Some? ==>
              exists i :: 0 <= i < |ps| && ps[i] == r.value && IsResumePart(ps[i])
                && forall j :: 0 <= j < i ==> !IsResumePart(ps[j])
  {
    if ps == [] then None
    else if IsResumePart(ps[0]) then Some(ps[0])
    else
      var r := FirstResumePart(ps[1..]);
      assert forall k :: 1 <= k < |ps| ==> ps[k] == ps[1..][k - 1];
      r
  }

  /** The files on disk. */
  class FileStore {
    var files: map<string, seq<byte>>

    constructor(initial: map<string, seq<byte>>)
      ensures files == initial
    {
      files := initial;
    }
  }

  datatype Download =
    | NoResume                                  // (None, None)
    | Saved(path: string, filename: string)     // (path, original filename)
    | DecodeFailed(error: DecodeError)          // _b64url_to_bytes raised

  /** The suffix handed to `tempfile.mkstemp`. */
  function TempSuffix(filename: string): string
  {
    var ext := SplitExt(filename).1;
    if ext == [] then ".bin" else ext
  }

  /** `_download_first_resume_attachment(service, msg, download_dir)`.
      `fetch` gives the `data` field the attachments API returns for an id
      ("" when absent). Without a download directory the file goes where
      `mkstemp` puts it: `tempDir/resume_<token><suffix>`, a name the OS
      guarantees is new. */
  method DownloadFirstResume(store: FileStore, msg: Message, fetch: string -> string,
                             downloadDir: string, tempDir: string, token: string)
    returns (r: Download)
    requires downloadDir == [] ==>
      forall p :: Join(tempDir, "resume_" + token + TempSuffix(p)) !in store.files
    modifies store
    ensures FirstResumePart(WalkStack([msg.payload])).None? ==> r == NoResume && store.files == old(store.files)
    ensures FirstResumePart(WalkStack([msg.payload])).Some? ==>
      var part := FirstResumePart(WalkStack([msg.payload])).value;
      match B64UrlToBytes(fetch(part.attachmentId))
      case Err(e) => r == DecodeFailed(e) && store.files == old(store.files)
      case Ok(bytes) =>
        && r.Saved? && r.filename == part.filename
        && r.path !in old(store.files)
        && store.files == old(store.files)[r.path := bytes]
        && (downloadDir != [] ==> FirstFree(old(store.files).Keys, downloadDir, SafeFilename(part.filename), r.path))
        && (downloadDir == [] ==> r.path == Join(tempDir, "resume_" + token + TempSuffix(part.filename)))
  {
    var parts := Walk(msg.payload);
    var found := FirstResumePart(parts);
    if found.None? {
      return NoResume;
    }
    var part := found.value;
    var decoded := B64UrlToBytes(fetch(part.attachmentId));
    if decoded.Err? {
      return DecodeFailed(decoded.error);
    }
    var path;
    if downloadDir != [] {
      path := UniquePath(store.files.Keys, downloadDir, SafeFilename(part.filename));
    } else {
      path := Join(tempDir, "resume_" + token + TempSuffix(part.filename));
    }
    store.files := store.files[path := decoded.bytes];
    r := Saved(path, part.filename);
  }
}
