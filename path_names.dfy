/** The parts of pathlib that `add_paths` relies on: the final component of a
    path (`name`), its extension (`suffix`) and the case-insensitive ".pdf" test. */
module PathNames {
  import opened Types

  /** `s.rfind(c)`: the index of the last occurrence of `c`, or -1. */
  function LastIndexOf(s: string, c: char): (r: int)
    ensures -1 <= r < |s|
    decreases |s|
  {
    if s == [] then -1
    else if s[|s| - 1] == c then |s| - 1
    else LastIndexOf(s[..|s| - 1], c)
  }

  /** `rfind` finds an occurrence of `c`, and no occurrence lies after it. */
  lemma {:induction false} LastIndexOfIsLast(s: string, c: char)
    ensures LastIndexOf(s, c) >= 0 ==> s[LastIndexOf(s, c)] == c
    ensures forall j :: LastIndexOf(s, c) < j < |s| ==> s[j] != c
    decreases |s|
  {
    if s != [] && s[|s| - 1] != c {
      LastIndexOfIsLast(s[..|s| - 1], c);
    }
  }

  /** `PurePath.name`: everything after the last separator. */
  function BaseName(p: Path): string
  {
    p[LastIndexOf(p, '/') + 1..]
  }

  /** `PurePath.suffix`: from the last dot of the name, provided that dot is
      neither the first nor the last character of the name; otherwise "". */
  function Suffix(name: string): string
  {
    var i := LastIndexOf(name, '.');
    if 0 < i < |name| - 1 then name[i..] else ""
  }

  function LowerChar(c: char): char
  {
    if 'A' <= c <= 'Z' then (c as int - 'A' as int + 'a' as int) as char else c
  }

  /** `str.lower()` restricted to ASCII letters; see README for why this is exact
      for the comparison with ".pdf". */
  function Lower(s: string): (r: string)
    ensures |r| == |s|
  {
    seq(|s|, i requires 0 <= i < |s| => LowerChar(s[i]))
  }

  lemma LowerAt(s: string, i: nat)
    requires i < |s|
    ensures Lower(s)[i] == LowerChar(s[i])
  {
  }

  /** `p.suffix.lower() == ".pdf"`. */
  predicate HasPdfSuffix(p: Path)
  {
    Lower(Suffix(BaseName(p))) == ".pdf"
  }

  /** A name whose last four characters lower to ".pdf" has its last dot
      four characters from the end. */
  lemma PdfTailHasLastDot(n: string)
    requires |n| >= 4 && Lower(n[|n| - 4..]) == ".pdf"
    ensures n[|n| - 4] == '.'
    ensures forall j :: |n| - 4 < j < |n| ==> n[j] != '.'
  {
    var t := n[|n| - 4..];
    LowerAt(t, 0); LowerAt(t, 1); LowerAt(t, 2); LowerAt(t, 3);
    forall j | |n| - 4 < j < |n| ensures n[j] != '.' {
      assert n[j] == t[j - (|n| - 4)];
    }
  }

  lemma SuffixIsPdfTail(n: string)
    requires Lower(Suffix(n)) == ".pdf"
    ensures |n| > 4 && Lower(n[|n| - 4..]) == ".pdf"
  {
    var i := LastIndexOf(n, '.');
    assert 0 < i < |n| - 1 && Suffix(n) == n[i..];
    assert |n[i..]| == 4;
  }

  lemma PdfTailIsSuffix(n: string)
    requires |n| > 4 && Lower(n[|n| - 4..]) == ".pdf"
    ensures Suffix(n) == n[|n| - 4..]
  {
    PdfTailHasLastDot(n);
    LastIndexOfIsLast(n, '.');
    assert LastIndexOf(n, '.') == |n| - 4;
  }

  /** The suffix test accepts exactly the names that end in ".pdf" in any case
      and have at least one character before that dot: "Report.PDF" passes,
      a bare ".pdf" and "a.pdf.bak" do not. */
  lemma PdfSuffixIff(p: Path)
    ensures HasPdfSuffix(p) <==>
      var n := BaseName(p);
      |n| > 4 && Lower(n[|n| - 4..]) == ".pdf"
  {
    var n := BaseName(p);
    if HasPdfSuffix(p) {
      SuffixIsPdfTail(n);
    }
    if |n| > 4 && Lower(n[|n| - 4..]) == ".pdf" {
      PdfTailIsSuffix(n);
    }
  }

  /** A separator-free name ending in lower-case ".pdf", such as "a.pdf",
      passes the suffix test. */
  lemma PlainPdfName(p: Path)
    requires '/' !in p && |p| > 4 && p[|p| - 4..] == ".pdf"
    ensures HasPdfSuffix(p)
  {
    LastIndexOfIsLast(p, '/');
    assert BaseName(p) == p;
    assert Lower(p[|p| - 4..]) == ".pdf";
    PdfSuffixIff(p);
  }
}
