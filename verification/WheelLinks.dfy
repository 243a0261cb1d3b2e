/** Wheel index pages as text: lines, links, and the file name inside a link. */
module WheelLinks {

  import opened Prelude

  // ---- lines --------------------------------------------------------------------------------------

  /** The pieces of a text between separators. */
  function Split(s: string, sep: char): (ls: seq<string>)
    ensures |ls| > 0
  {
    if s == [] then [[]] else
    var before := Split(s[..|s| - 1], sep);
    var c := s[|s| - 1];
    if c == sep then before + [[]] else before[..|before| - 1] + [before[|before| - 1] + [c]]
  }

  function Glue(ls: seq<string>, sep: char): string {
    if ls == [] then [] else if |ls| == 1 then ls[0] else Glue(ls[..|ls| - 1], sep) + [sep] + ls[|ls| - 1]
  }

  function Lines(s: string): (ls: seq<string>)
    ensures |ls| > 0
  {
    Split(s, '\n')
  }

  function Join(ls: seq<string>): string { Glue(ls, '\n') }

  lemma {:induction false} OnePiece(s: string, sep: char)
    requires sep !in s
    ensures Split(s, sep) == [s]
  {
    if s != [] {
      OnePiece(s[..|s| - 1], sep);
      assert s == s[..|s| - 1] + [s[|s| - 1]];
    }
  }

  lemma SplitPush(s: string, c: char, sep: char)
    ensures Split(s + [c], sep) ==
      var before := Split(s, sep);
      if c == sep then before + [[]] else before[..|before| - 1] + [before[|before| - 1] + [c]]
  {
    assert (s + [c])[..|s|] == s;
  }

  lemma {:induction false} SplitConcat(a: string, b: string, sep: char)
    ensures Split(a + [sep] + b, sep) == Split(a, sep) + Split(b, sep)
  {
    hide Split;
    if b == [] {
      assert a + [sep] + b == a + [sep];
      SplitPush(a, sep, sep);
      OnePiece([], sep);
    } else {
      var n := |b| - 1;
      SplitConcat(a, b[..n], sep);
      assert b == b[..n] + [b[n]] && a + [sep] + b == (a + [sep] + b[..n]) + [b[n]];
      SplitPush(b[..n], b[n], sep);
      SplitPush(a + [sep] + b[..n], b[n], sep);
      var x, y := Split(a, sep), Split(b[..n], sep);
      assert (x + y)[..|x + y| - 1] == x + y[..|y| - 1];
    }
  }

  /** Splitting undoes glueing, as long as no piece holds the separator. */
  lemma {:induction false} GlueSplits(ls: seq<string>, sep: char)
    requires ls != [] && forall l :: l in ls ==> sep !in l
    ensures Split(Glue(ls, sep), sep) == ls
  {
    hide Split;
    var n := |ls| - 1;
    assert ls[n] in ls;
    OnePiece(ls[n], sep);
    if n == 0 {
      assert ls == [ls[0]];
    } else {
      GlueSplits(ls[..n], sep);
      SplitConcat(Glue(ls[..n], sep), ls[n], sep);
      assert ls == ls[..n] + [ls[n]];
    }
  }

  /** Glueing undoes splitting, and no piece holds the separator. */
  lemma {:induction false} SplitGlues(s: string, sep: char)
    ensures Glue(Split(s, sep), sep) == s
    ensures forall l :: l in Split(s, sep) ==> sep !in l
  {
    if s != [] {
      var n := |s| - 1;
      SplitGlues(s[..n], sep);
      GlueGrows(Split(s[..n], sep), s[n], sep);
      assert s == s[..n] + [s[n]];
    }
  }

  lemma GlueGrows(ls: seq<string>, c: char, sep: char)
    requires ls != []
    ensures Glue(ls + [[]], sep) == Glue(ls, sep) + [sep]
    ensures Glue(ls[..|ls| - 1] + [ls[|ls| - 1] + [c]], sep) == Glue(ls, sep) + [c]
  {
    var n := |ls| - 1;
    assert (ls + [[]])[..|ls|] == ls;
    assert (ls[..n] + [ls[n] + [c]])[..n] == ls[..n];
  }

  lemma OneLineText(s: string)
    requires '\n' !in s
    ensures Lines(s) == [s]
  {
    OnePiece(s, '\n');
  }

  lemma LinesSplit(a: string, b: string)
    ensures Lines(a + "\n" + b) == Lines(a) + Lines(b)
  {
    SplitConcat(a, b, '\n');
  }

  lemma JoinSplits(ls: seq<string>)
    requires ls != [] && forall l :: l in ls ==> '\n' !in l
    ensures Lines(Join(ls)) == ls
  {
    GlueSplits(ls, '\n');
  }

  const DOCTYPE := "<!DOCTYPE html>"

  // ---- links --------------------------------------------------------------------------------------

  const LINK_START := "<a href="

  predicate StartsWith(s: string, p: string) { |p| <= |s| && s[..|p|] == p }

  predicate EndsWith(s: string, p: string) { |p| <= |s| && s[|s| - |p|..] == p }

  function Link(url: string, name: string): string {
    LINK_START + "\"" + url + "\">" + name + "</a><br>"
  }

  /** The first `c` at or after `from`, or the length of the text. */
  function IndexOf(s: string, c: char, from: nat): (i: nat)
    requires from <= |s|
    ensures from <= i <= |s| && (i < |s| ==> s[i] == c)
    ensures forall k :: from <= k < i ==> s[k] != c
    decreases |s| - from
  {
    if from == |s| || s[from] == c then from else IndexOf(s, c, from + 1)
  }

  /** The file name that starts behind the `>` at `p`: a non-empty name and `.whl`, up to a closing tag. */
  function NameAt(line: string, p: nat): Option<string>
    requires p < |line|
  {
    if line[p] != '>' then None else
    var q := IndexOf(line, '<', p + 1);
    var name := line[p + 1..q];
    if StartsWith(line[q..], "</a>") && |name| > 4 && EndsWith(name, ".whl") then Some(name) else None
  }

  /** The first file name in a line. */
  function NameFrom(line: string, p: nat): Option<string>
    requires p <= |line|
    decreases |line| - p
  {
    if p == |line| then None
    else if NameAt(line, p).Some? then NameAt(line, p)
    else NameFrom(line, p + 1)
  }

  function FileName(line: string): Option<string> { NameFrom(line, 0) }

  /** A wheel's file name, as packaging tools produce them. */
  ghost predicate WellNamed(name: string) {
    |name| > 4 && EndsWith(name, ".whl") && '<' !in name && '\n' !in name
  }

  ghost predicate PlainUrl(url: string) {
    '>' !in url && '\n' !in url
  }

  lemma {:induction false} SkipTo(line: string, p: nat, q: nat)
    requires p <= q < |line| && forall k :: p <= k < q ==> line[k] != '>'
    ensures NameFrom(line, p) == NameFrom(line, q)
    decreases q - p
  {
    if p < q { SkipTo(line, p + 1, q); }
  }

  lemma IndexOfUnique(s: string, c: char, from: nat, i: nat)
    requires from <= i < |s| && s[i] == c && forall k :: from <= k < i ==> s[k] != c
    ensures IndexOf(s, c, from) == i
  {
    var j := IndexOf(s, c, from);
    assert j <= i;
  }

  /** A written link gives back the name it was written with. */
  lemma NameInLink(url: string, name: string)
    requires PlainUrl(url) && WellNamed(name)
    ensures FileName(Link(url, name)) == Some(name)
    ensures StartsWith(Link(url, name), LINK_START) && '\n' !in Link(url, name)
  {
    var line := Link(url, name);
    var head := LINK_START + "\"" + url + "\"";
    var p := |head|;
    var q := p + 1 + |name|;
    assert line == head + ">" + name + "</a><br>";
    LinkHeadHasNoGt(url);
    SkipTo(line, 0, p);
    NameBehindHead(head, name);
    LinkIsOneLine(url, name);
  }

  /** The address of a line that is a link: what stands between the quotes behind `href=`. */
  function UrlOf(line: string): Option<string> {
    if !StartsWith(line, "<a href=\"") then None else
    var q := IndexOf(line, '"', 9);
    if q == |line| then None else Some(line[9..q])
  }

  /** A written link gives back the address it was written with, exactly if that holds no quote. */
  lemma UrlInLink(url: string, name: string)
    ensures UrlOf(Link(url, name)) == Some(url) <==> '"' !in url
  {
    var line := Link(url, name);
    var q := 9 + |url|;
    assert LINK_START + "\"" == "<a href=\"";
    assert line[..9] == "<a href=\"" && line[q] == '"' && line[9..q] == url;
    var i := IndexOf(line, '"', 9);
    forall k | 9 <= k < q ensures line[k] == url[k - 9] { assert line[9..q][k - 9] == line[k]; }
    if '"' !in url {
      IndexOfUnique(line, '"', 9, q);
    } else {
      var j :| 0 <= j < |url| && url[j] == '"';
      assert line[9 + j] == '"' && i <= 9 + j;
      assert |line[9..i]| < |url|;
    }
  }

  lemma LinkHeadHasNoGt(url: string)
    requires PlainUrl(url)
    ensures '>' !in LINK_START + "\"" + url + "\"" && '\n' !in LINK_START + "\"" + url + "\""
  {
    assert '>' !in LINK_START + "\"" && '\n' !in LINK_START + "\"";
  }

  lemma LinkIsOneLine(url: string, name: string)
    requires PlainUrl(url) && WellNamed(name)
    ensures '\n' !in Link(url, name)
  {
    LinkHeadHasNoGt(url);
    assert '\n' !in "</a><br>" && '\n' !in ">";
    assert Link(url, name) == (LINK_START + "\"" + url + "\"") + ">" + name + "</a><br>";
  }

  lemma NameBehindHead(head: string, name: string)
    requires WellNamed(name)
    ensures NameAt(head + ">" + name + "</a><br>", |head|) == Some(name)
  {
    var line := head + ">" + name + "</a><br>";
    var p, q := |head|, |head| + 1 + |name|;
    forall k | p + 1 <= k < q ensures line[k] != '<' { assert line[k] == name[k - p - 1]; }
    IndexOfUnique(line, '<', p + 1, q);
    assert line[p + 1..q] == name;
    assert line[q..] == "</a><br>";
    assert "</a><br>"[..4] == "</a>";
  }
}
