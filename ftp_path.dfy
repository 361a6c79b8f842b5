/**
  Remote path handling of the backup tool (`_normalize_ftp_path`, identical in
  hostingerbackup/hostinger_bakup.py and hostingerbackup/fullbackup.py), and
  the server's resolution of `CWD ..`.
 */
module FtpPath {
  import Text

  type Path = string

  /** `p.replace('\\', '/')`. */
  function Slashed(p: string): (r: string)
    ensures |r| == |p|
    ensures forall i :: 0 <= i < |p| ==> r[i] == if p[i] == '\\' then '/' else p[i]
  {
    seq(|p|, i requires 0 <= i < |p| => if p[i] == '\\' then '/' else p[i])
  }

  function LeadingSlashes(s: string): (n: nat)
    ensures n <= |s|
    ensures forall i :: 0 <= i < n ==> s[i] == '/'
    ensures n < |s| ==> s[n] != '/'
    decreases |s|
  {
    if |s| > 0 && s[0] == '/' then 1 + LeadingSlashes(s[1..]) else 0
  }

  function TrailingSlashes(s: string): (n: nat)
    ensures n <= |s|
    ensures forall i :: |s| - n <= i < |s| ==> s[i] == '/'
    ensures n < |s| ==> s[|s| - n - 1] != '/'
    decreases |s|
  {
    if |s| > 0 && s[|s| - 1] == '/' then 1 + TrailingSlashes(s[..|s| - 1]) else 0
  }

  /** `s.strip('/')`. */
  function StripSlashes(s: string): (r: string)
    ensures r == [] || (r[0] != '/' && r[|r| - 1] != '/')
    ensures r == [] <==> forall i :: 0 <= i < |s| ==> s[i] == '/'
  {
    var a := LeadingSlashes(s);
    var b := |s| - TrailingSlashes(s[a..]);
    assert a < |s| ==> s[a..][|s[a..]| - 1 - TrailingSlashes(s[a..])] == s[b - 1];
    s[a..b]
  }

  /**
    `_normalize_ftp_path`: backslashes become slashes, slashes are stripped
    from both ends, and one leading slash is put back; all-slash input is the root.
   */
  function Normalize(path: string): Path {
    var stripped := StripSlashes(Slashed(path));
    if stripped == "" then "/" else "/" + stripped
  }

  /**
    A normalised path starts with `/`, holds no backslash, is the root
    exactly when the input is empty or made only of slashes and backslashes,
    and otherwise does not end with `/`.
   */
  lemma NormalizeShape(path: string)
    ensures var r := Normalize(path);
      && |r| > 0 && r[0] == '/'
      && (forall i :: 0 <= i < |r| ==> r[i] != '\\')
      && (r == "/" <==> forall i :: 0 <= i < |path| ==> path[i] == '/' || path[i] == '\\')
      && (r != "/" ==> r[|r| - 1] != '/')
  {
    var s := Slashed(path);
    var stripped := StripSlashes(s);
    var r := Normalize(path);
    assert (forall i :: 0 <= i < |path| ==> path[i] == '/' || path[i] == '\\') <==> (forall i :: 0 <= i < |s| ==> s[i] == '/');
    assert forall i :: 0 <= i < |s| ==> s[i] != '\\';
    StripSlashesKeeps(s, '\\');
    forall i | 0 <= i < |r|
      ensures r[i] != '\\'
    {
      if i > 0 {
        assert r[i] == stripped[i - 1];
      }
    }
  }

  /** Stripping slashes only removes characters: one absent before is absent after. */
  lemma StripSlashesKeeps(s: string, c: char)
    requires forall i :: 0 <= i < |s| ==> s[i] != c
    ensures forall i :: 0 <= i < |StripSlashes(s)| ==> StripSlashes(s)[i] != c
  {
    var a := LeadingSlashes(s);
    var b := |s| - TrailingSlashes(s[a..]);
    assert StripSlashes(s) == s[a..b];
  }

  /** A normalised path is its own normal form. */
  lemma NormalizeIdempotent(path: string)
    ensures Normalize(Normalize(path)) == Normalize(path)
  {
    var r := Normalize(path);
    NormalizeShape(path);
    assert Slashed(r) == r;
    if r != "/" {
      var x := r[1..];
      assert r == "/" + x;
      assert LeadingSlashes(r) == 1 + LeadingSlashes(x);
      assert LeadingSlashes(r) == 1;
      assert TrailingSlashes(r[1..]) == 0;
      assert StripSlashes(r) == x;
    }
  }

  /** Where `CWD ..` leads from `p`: the text before its last `/`, or the root. */
  function Parent(p: Path): (r: Path)
  {
    var k := Text.RFind(p, "/");
    if k <= 0 then "/" else p[..k]
  }

}
