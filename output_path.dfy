/** The name of the written file (pdf-compress.py:149-150):
    `join(output_folder, splitext(basename(file_path))[0] + "_compressed.pdf")`,
    with the POSIX rules for `basename`, `splitext` and `join`. */
module Paths {

  const Sep: char := '/'
  const Dot: char := '.'
  const Suffix: string := "_compressed.pdf"

  /** `s.rfind(c)`: the last index of `c`, or -1. */
  function RFind(s: string, c: char): (r: int)
    ensures -1 <= r < |s|
    ensures r >= 0 ==> s[r] == c
    ensures forall j :: r < j < |s| ==> s[j] != c
  {
    if |s| == 0 then -1
    else if s[|s| - 1] == c then |s| - 1
    else RFind(s[..|s| - 1], c)
  }

  /** Characters that are not `c` at the end do not move the last `c`. */
  lemma {:induction false} RFindSkips(s: string, c: char, tail: string)
    requires c !in tail
    ensures RFind(s + tail, c) == RFind(s, c)
    decreases |tail|
  {
    if tail == [] {
      assert s + tail == s;
    } else {
      var t := s + tail;
      assert t[|t| - 1] == tail[|tail| - 1];
      assert t[..|t| - 1] == s + tail[..|tail| - 1];
      RFindSkips(s, c, tail[..|tail| - 1]);
    }
  }

  /** `basename`: the longest suffix without a separator. */
  function Basename(p: string): (r: string)
    ensures Sep !in r
    ensures |r| <= |p| && r == p[|p| - |r|..]
    ensures |r| < |p| ==> p[|p| - |r| - 1] == Sep
  {
    p[RFind(p, Sep) + 1..]
  }

  /** Every character before index `d` is a dot. */
  predicate DotsBefore(name: string, d: int)
    requires d <= |name|
  {
    forall k :: 0 <= k < d ==> name[k] == Dot
  }

  /** `splitext` of a final path component: the extension runs from the last
      dot to the end, unless only dots precede that dot. */
  function Splitext(name: string): (r: (string, string))
    requires Sep !in name
    ensures r.0 + r.1 == name
    ensures r.1 != [] ==>
      && r.1[0] == Dot
      && (forall k :: 1 <= k < |r.1| ==> r.1[k] != Dot)
      && !DotsBefore(name, |r.0|)
    ensures r.1 == [] ==> forall d :: 0 <= d < |name| && name[d] == Dot ==> DotsBefore(name, d)
  {
    var dot := RFind(name, Dot);
    if dot >= 0 && !DotsBefore(name, dot) then
      assert name[..dot] + name[dot..] == name;
      (name[..dot], name[dot..])
    else
      (name, [])
  }

  /** posixpath `join` of a folder and a name that is not absolute. */
  function Join(folder: string, name: string): (r: string)
    requires name == [] || name[0] != Sep
    ensures r == folder + name || r == folder + [Sep] + name
    ensures folder != [] && folder[|folder| - 1] != Sep ==> r == folder + [Sep] + name
    ensures folder == [] || folder[|folder| - 1] == Sep ==> r == folder + name
  {
    if folder == [] || folder[|folder| - 1] == Sep then folder + name
    else folder + [Sep] + name
  }

  /** The stem of a base name contains no separator. */
  lemma StemHasNoSep(base: string)
    requires Sep !in base
    ensures Sep !in Splitext(base).0 + Suffix
  {
    var stem := Splitext(base).0;
    var name := stem + Suffix;
    assert stem + Splitext(base).1 == base;
    forall k | 0 <= k < |name| ensures name[k] != Sep {
      if k < |stem| {
        assert name[k] == base[k];
      } else {
        assert name[k] == Suffix[k - |stem|];
      }
    }
  }

  function OutputPath(folder: string, input: string): string {
    var base := Basename(input);
    StemHasNoSep(base);
    Join(folder, Splitext(base).0 + Suffix)
  }

  /** The base name of `dir/name` is `name`. */
  lemma BasenameAfterSep(dir: string, name: string)
    requires Sep !in name
    ensures Basename(dir + [Sep] + name) == name
  {
    var p := dir + [Sep] + name;
    RFindSkips(dir + [Sep], Sep, name);
    assert p == (dir + [Sep]) + name;
    assert p[|dir| + 1..] == name;
  }

  /** The written file lies in the output folder and is named after the
      input's base name minus its last extension, then `_compressed.pdf`. */
  lemma OutputPathIsInFolder(folder: string, input: string)
    requires folder != [] && folder[|folder| - 1] != Sep
    ensures OutputPath(folder, input) == folder + [Sep] + Splitext(Basename(input)).0 + Suffix
    ensures Basename(OutputPath(folder, input)) == Splitext(Basename(input)).0 + Suffix
  {
    var name := Splitext(Basename(input)).0 + Suffix;
    StemHasNoSep(Basename(input));
    assert OutputPath(folder, input) == folder + [Sep] + name;
    BasenameAfterSep(folder, name);
  }

  /** Only the last extension goes (`a.b.pdf` has the stem `a.b`, so it is
      written as `a.b_compressed.pdf`), and a single leading dot does not start
      an extension. */
  lemma ExampleSplitext()
    ensures Splitext("a.b.pdf") == ("a.b", ".pdf")
    ensures Splitext(".pdf") == (".pdf", "")
  {
    var base := "a.b.pdf";
    RFindSkips("a.b.", Dot, "pdf");
    assert "a.b." + "pdf" == base;
    assert !DotsBefore(base, 3) by { assert base[0] != Dot; }
    assert base[..3] == "a.b" && base[3..] == ".pdf";
    RFindSkips(".", Dot, "pdf");
    assert "." + "pdf" == ".pdf";
  }

  /** Two inputs with the same base name are written to the same file. */
  lemma SameBasenameSameOutput(folder: string, a: string, b: string)
    requires Basename(a) == Basename(b)
    ensures OutputPath(folder, a) == OutputPath(folder, b)
  {
  }
}
