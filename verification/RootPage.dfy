/** The root page of an accelerator version, which the nightly and the release update both rewrite. */
module RootPage {
  import opened Prelude
  import opened WheelLinks
  import opened SortedTexts
  import opened ReleaseIndex

  const NIGHTLY_PACKAGE := "sglang"
  const RELEASE_PACKAGE := "sgl-deep-ep"

  function PackageLine(p: string): string { ANCHOR_OPEN + p + "/\">" + p + "</a>" }

  // ---- the packages a text links ------------------------------------------------------------------

  predicate OpensAt(s: string, i: nat) { At(s, ANCHOR_OPEN, i) }

  /** The quote that closes the address of the anchor at `i`, or the length of the text. */
  function CloseOf(s: string, i: nat): (q: nat)
    requires OpensAt(s, i)
    ensures i + |ANCHOR_OPEN| <= q <= |s|
  {
    IndexOf(s, '"', i + |ANCHOR_OPEN|)
  }

  /** The package linked at `i`: what stands between the opening quote and a slash before the closing one. */
  function PackageAt(s: string, i: nat): (p: Option<string>)
    ensures p.Some? ==> p.value != [] && '"' !in p.value
  {
    if !OpensAt(s, i) then None else
    var o, q := i + |ANCHOR_OPEN|, CloseOf(s, i);
    if q + 2 > |s| || s[q..q + 2] != "\">" || q < o + 2 || s[q - 1] != '/' then None else Some(s[o..q - 1])
  }

  function PackagesIn(s: string): set<string> {
    set i | 0 <= i < |s| && PackageAt(s, i).Some? :: PackageAt(s, i).value
  }

  lemma Openings(s: string, i: nat)
    requires OpensAt(s, i)
    ensures s[i] == '<' && s[i + 7] == '=' && s[i + 8] == '"' && i + 9 <= |s|
    ensures forall k :: i <= k < i + 8 ==> s[k] != '"' && s[k] != '\n'
  {
    var w := s[i..i + |ANCHOR_OPEN|];
    assert forall k :: i <= k < i + 9 ==> s[k] == w[k - i];
    assert w == ANCHOR_OPEN && ANCHOR_OPEN[0] == '<' && ANCHOR_OPEN[7] == '=' && ANCHOR_OPEN[8] == '"';
    assert '"' !in ANCHOR_OPEN[..8] && '\n' !in ANCHOR_OPEN[..8];
    forall k | i <= k < i + 8 ensures s[k] != '"' && s[k] != '\n' { assert s[k] == ANCHOR_OPEN[..8][k - i]; }
  }

  /** No link starts inside another, so finding them one after the other finds all. */
  lemma NoInnerLink(s: string, i: nat, k: nat)
    requires PackageAt(s, i).Some? && i < k < CloseOf(s, i) + 2
    ensures PackageAt(s, k).None?
  {
    Openings(s, i);
    var q := CloseOf(s, i);
    var close := s[q..q + 2];
    assert close == "\">" && close[1] == s[q + 1] && "\">"[1] == '>';
    if OpensAt(s, k) { Openings(s, k); }
  }

  /** Finding the links of a text one after the other. */
  method FindPackages(s: string) returns (ps: set<string>)
    ensures ps == PackagesIn(s)
  {
    hide PackageAt, OpensAt;
    ps := {};
    var i := 0;
    while i < |s|
      invariant 0 <= i <= |s|
      invariant ps == set k | 0 <= k < i && PackageAt(s, k).Some? :: PackageAt(s, k).value
    {
      ghost var before := i;
      var p := PackageAt(s, i);
      if p.Some? {
        ps := ps + {p.value};
        LinkExtent(s, i);
        forall k | before < k < CloseOf(s, before) + 2 ensures PackageAt(s, k).None? { NoInnerLink(s, before, k); }
        i := CloseOf(s, i) + 2;
      } else {
        i := i + 1;
      }
    }
  }

  lemma LinkExtent(s: string, i: nat)
    requires PackageAt(s, i).Some?
    ensures OpensAt(s, i) && i < CloseOf(s, i) + 2 <= |s|
  {}

  // ---- texts put together from lines --------------------------------------------------------------

  /** Every address that is opened is closed within the text. */
  ghost predicate Closed(s: string) {
    forall i: nat :: OpensAt(s, i) ==> CloseOf(s, i) < |s|
  }

  lemma OpensInFront(a: string, b: string, i: nat)
    requires i < |a| && Closed(a)
    ensures OpensAt(a + "\n" + b, i) <==> OpensAt(a, i)
    ensures OpensAt(a, i) ==> CloseOf(a + "\n" + b, i) == CloseOf(a, i)
  {
    var s := a + "\n" + b;
    assert forall k :: 0 <= k < |a| ==> s[k] == a[k];
    if OpensAt(s, i) {
      Openings(s, i);
      assert s[|a|] == '\n';
      assert s[i..i + |ANCHOR_OPEN|] == a[i..i + |ANCHOR_OPEN|];
    }
    if OpensAt(a, i) {
      assert s[i..i + |ANCHOR_OPEN|] == a[i..i + |ANCHOR_OPEN|];
      IndexOfUnique(s, '"', i + |ANCHOR_OPEN|, CloseOf(a, i));
    }
  }

  lemma SliceBehind(pre: string, b: string, x: nat, y: nat)
    requires x <= y <= |b|
    ensures (pre + b)[|pre| + x..|pre| + y] == b[x..y]
  {}

  lemma IndexBehind(pre: string, b: string, c: char, from: nat)
    requires from <= |b|
    ensures IndexOf(pre + b, c, |pre| + from) == |pre| + IndexOf(b, c, from)
  {
    hide IndexOf;
    var s, n, q := pre + b, |pre|, IndexOf(b, c, from);
    forall k | n + from <= k < n + q ensures s[k] != c { assert s[k] == b[k - n]; }
    if q < |b| {
      assert s[n + q] == b[q];
      IndexOfUnique(s, c, n + from, n + q);
    }
  }

  lemma OpensBehind(pre: string, b: string, i: nat)
    ensures OpensAt(pre + b, |pre| + i) <==> OpensAt(b, i)
    ensures OpensAt(b, i) ==> CloseOf(pre + b, |pre| + i) == |pre| + CloseOf(b, i)
  {
    hide IndexOf;
    if i + |ANCHOR_OPEN| <= |b| {
      SliceBehind(pre, b, i, i + |ANCHOR_OPEN|);
      IndexBehind(pre, b, '"', i + |ANCHOR_OPEN|);
    }
  }

  lemma PackageInFront(a: string, b: string, i: nat)
    requires i < |a| && Closed(a)
    ensures PackageAt(a + "\n" + b, i) == PackageAt(a, i)
  {
    OpensInFront(a, b, i);
    var s := a + "\n" + b;
    if OpensAt(a, i) {
      var o, q := i + |ANCHOR_OPEN|, CloseOf(a, i);
      assert CloseOf(s, i) == q < |a|;
      assert forall k :: 0 <= k < |a| ==> s[k] == a[k];
      if q + 2 <= |a| {
        assert s[q..q + 2] == a[q..q + 2];
      } else if q + 2 <= |s| {
        assert s[q..q + 2][1] == s[q + 1] == '\n';
      }
      if q >= o + 2 { assert s[o..q - 1] == a[o..q - 1]; }
    }
  }

  lemma PackageBehind(pre: string, b: string, i: nat)
    ensures PackageAt(pre + b, |pre| + i) == PackageAt(b, i)
  {
    OpensBehind(pre, b, i);
    var s, n := pre + b, |pre|;
    if OpensAt(b, i) {
      var o, q := i + |ANCHOR_OPEN|, CloseOf(b, i);
      hide OpensAt, CloseOf;
      if q + 2 <= |b| { SliceBehind(pre, b, q, q + 2); }
      if o + 2 <= q { SliceBehind(pre, b, o, q - 1); assert s[n + q - 1] == b[q - 1]; }
    }
  }

  lemma NothingAtNewline(a: string, b: string)
    ensures !OpensAt(a + "\n" + b, |a|)
  {
    if OpensAt(a + "\n" + b, |a|) { Openings(a + "\n" + b, |a|); }
  }

  /** A text of two parts, one below the other, links what they link. */
  lemma PackagesOfBoth(a: string, b: string)
    requires Closed(a)
    ensures PackagesIn(a + "\n" + b) == PackagesIn(a) + PackagesIn(b)
  {
    hide PackageAt, OpensAt, Closed;
    var s, n := a + "\n" + b, |a| + 1;
    forall p ensures p in PackagesIn(s) <==> p in PackagesIn(a) + PackagesIn(b) {
      if p in PackagesIn(s) {
        var i :| 0 <= i < |s| && PackageAt(s, i) == Some(p);
        if i < |a| {
          PackageInFront(a, b, i);
        } else if i == |a| {
          NothingAtNewline(a, b);
          NoPackage(s, i);
        } else {
          PackageBehind(a + "\n", b, i - n);
        }
      }
      if p in PackagesIn(a) {
        var i :| 0 <= i < |a| && PackageAt(a, i) == Some(p);
        PackageInFront(a, b, i);
        assert i < |s|;
      }
      if p in PackagesIn(b) {
        var i :| 0 <= i < |b| && PackageAt(b, i) == Some(p);
        PackageBehind(a + "\n", b, i);
        assert n + i < |s|;
      }
    }
  }

  lemma NoPackage(s: string, i: nat)
    requires !OpensAt(s, i)
    ensures PackageAt(s, i).None?
  {}

  lemma ClosedBoth(a: string, b: string)
    requires Closed(a) && Closed(b)
    ensures Closed(a + "\n" + b)
  {
    var s := a + "\n" + b;
    forall i: nat | OpensAt(s, i) ensures CloseOf(s, i) < |s| {
      if i < |a| {
        OpensInFront(a, b, i);
      } else if i == |a| {
        NothingAtNewline(a, b);
      } else {
        OpensBehind(a + "\n", b, i - |a| - 1);
      }
    }
  }

  ghost predicate AllClosed(lines: seq<string>) {
    forall l :: l in lines ==> Closed(l)
  }

  function PackagesOf(lines: seq<string>): set<string> {
    if lines == [] then {} else PackagesOf(lines[..|lines| - 1]) + PackagesIn(lines[|lines| - 1])
  }

  lemma {:induction false} PackagesOfJoin(lines: seq<string>)
    requires lines != [] && AllClosed(lines)
    ensures PackagesIn(Join(lines)) == PackagesOf(lines) && Closed(Join(lines))
  {
    hide PackagesIn, Closed;
    var n := |lines| - 1;
    assert lines[n] in lines;
    if n == 0 {
      assert PackagesOf(lines[..0]) == {};
    } else {
      PackagesOfJoin(lines[..n]);
      PackagesOfBoth(Join(lines[..n]), lines[n]);
      ClosedBoth(Join(lines[..n]), lines[n]);
    }
  }

  lemma {:induction false} PackagesOfIff(lines: seq<string>, p: string)
    ensures p in PackagesOf(lines) <==> exists l :: l in lines && p in PackagesIn(l)
  {
    hide PackagesIn;
    if lines != [] {
      var n := |lines| - 1;
      PackagesOfIff(lines[..n], p);
      assert lines == lines[..n] + [lines[n]];
      assert forall l :: l in lines <==> l in lines[..n] || l == lines[n];
    }
  }

  lemma Unquoted(s: string)
    requires '"' !in s
    ensures PackagesIn(s) == {} && Closed(s)
  {
    forall i: nat ensures !OpensAt(s, i) { if OpensAt(s, i) { Openings(s, i); } }
  }

  lemma DoctypeIsPlain()
    ensures '"' !in DOCTYPE && '\n' !in DOCTYPE && StartsWith(DOCTYPE, "<!DOCTYPE") && !StartsWith(DOCTYPE, "<a ")
  {
    assert DOCTYPE[1] == '!' && "<a "[1] == 'a' && DOCTYPE[..9] == "<!DOCTYPE";
  }

  /** What a page written line by line links. */
  lemma PackagesOfText(lines: seq<string>)
    requires lines != [] && AllClosed(lines)
    ensures PackagesIn(Join(lines) + "\n") == PackagesOf(lines)
  {
    PackagesOfJoin(lines);
    Unquoted([]);
    PackagesOfBoth(Join(lines), []);
    assert Join(lines) + "\n" + [] == Join(lines) + "\n";
  }

  ghost predicate LinkName(p: string) { p != [] && '"' !in p }

  /** Where the parts of a package line lie. */
  lemma LineParts(p: string, line: string)
    requires line == PackageLine(p)
    ensures |line| == 16 + 2 * |p|
    ensures line[..9] == ANCHOR_OPEN && line[9..9 + |p|] == p && line[9 + |p|..12 + |p|] == "/\">"
    ensures line[12 + |p|..12 + 2 * |p|] == p && line[12 + 2 * |p|..] == "</a>"
  {
    assert |ANCHOR_OPEN| == 9;
  }

  lemma LineQuotes(p: string, line: string)
    requires LinkName(p) && line == PackageLine(p)
    ensures |line| > 12 + |p| && line[9 + |p|] == '/' && line[10 + |p|] == '"' && line[11 + |p|] == '>'
    ensures forall k :: 0 <= k < |line| && line[k] == '"' ==> k == 8 || k == 10 + |p|
  {
    LineParts(p, line);
    hide PackageLine;
    var a, b, c := line[..9], line[9..9 + |p|], line[9 + |p|..12 + |p|];
    var d, e := line[12 + |p|..12 + 2 * |p|], line[12 + 2 * |p|..];
    assert c[0] == '/' && c[1] == '"' && c[2] == '>';
    forall k | 0 <= k < |line| && k != 8 && k != 10 + |p| ensures line[k] != '"' {
      if k < 9 { assert a[k] == line[k]; }
      else if k < 9 + |p| { assert b[k - 9] == line[k]; }
      else if k < 12 + |p| { assert c[k - 9 - |p|] == line[k]; }
      else if k < 12 + 2 * |p| { assert d[k - 12 - |p|] == line[k]; }
      else { assert e[k - 12 - 2 * |p|] == line[k]; }
    }
  }

  /** A package line links its package and nothing else. */
  lemma LineLinks(p: string)
    requires LinkName(p)
    ensures PackagesIn(PackageLine(p)) == {p} && Closed(PackageLine(p))
  {
    var line, q := PackageLine(p), 10 + |p|;
    LineParts(p, line);
    LineQuotes(p, line);
    hide PackageLine;
    forall i: nat | OpensAt(line, i) ensures i == 0 {
      Openings(line, i);
    }
    assert OpensAt(line, 0);
    IndexOfUnique(line, '"', 9, q);
    assert PackageAt(line, 0) == Some(p);
    assert forall i :: 0 < i < |line| ==> PackageAt(line, i).None?;
  }

  lemma LineStarts(p: string)
    ensures StartsWith(PackageLine(p), "<a ") && !StartsWith(PackageLine(p), "<!DOCTYPE")
    ensures '\n' !in p ==> '\n' !in PackageLine(p)
  {
    var line := PackageLine(p);
    assert line[..3] == ANCHOR_OPEN[..3] == "<a ";
    assert line[1] == ANCHOR_OPEN[1] == 'a' && "<!DOCTYPE"[1] == '!';
    assert |line| >= 9 ==> line[..9][1] == 'a';
    assert '\n' !in ANCHOR_OPEN && '\n' !in "/\">" && '\n' !in "</a>";
  }

  // ---- the two writers ----------------------------------------------------------------------------

  ghost predicate LinkNames(ps: set<string>) { forall p :: p in ps ==> LinkName(p) }

  function PackageLines(names: seq<string>): (lines: seq<string>)
    ensures |lines| == |names| && forall i :: 0 <= i < |lines| ==> lines[i] == PackageLine(names[i])
  {
    seq(|names|, i requires 0 <= i < |names| => PackageLine(names[i]))
  }

  /** A page that is not there reads like an empty one. */
  function Content(page: Option<string>): string { if page.Some? then page.value else [] }

  /** The nightly writer: every package linked so far and its own, by package name. */
  ghost function NightlyRoot(text: string): string {
    Page(PackageLines(SortSet(PackagesIn(text) + {NIGHTLY_PACKAGE})))
  }

  method WriteNightlyRoot(page: Option<string>) returns (r: string)
    ensures r == NightlyRoot(Content(page))
  {
    hide Page, PackageLine, PackagesIn, SortSet;
    var ps := FindPackages(Content(page));
    var names := Sort(ps + {NIGHTLY_PACKAGE});
    r := DOCTYPE + "\n";
    PageStarts(PackageLines(names[..0]));
    for i := 0 to |names|
      invariant r == Page(PackageLines(names[..i]))
    {
      PageGrows(PackageLines(names[..i]), PackageLine(names[i]));
      assert PackageLines(names[..i + 1]) == PackageLines(names[..i]) + [PackageLine(names[i])];
      r := r + PackageLine(names[i]) + "\n";
    }
    assert names[..|names|] == names;
  }

  lemma PageStarts(lines: seq<string>)
    requires lines == []
    ensures Page(lines) == DOCTYPE + "\n"
  {
    assert [DOCTYPE] + lines == [DOCTYPE];
  }

  lemma PageGrows(lines: seq<string>, l: string)
    ensures Page(lines + [l]) == Page(lines) + l + "\n"
  {
    var all := [DOCTYPE] + lines;
    assert [DOCTYPE] + (lines + [l]) == all + [l] && (all + [l])[..|all|] == all;
  }

  function Doctypes(lines: seq<string>): (kept: seq<string>)
    ensures forall l :: l in kept <==> l in lines && StartsWith(l, "<!DOCTYPE")
  {
    if lines == [] then [] else
    assert forall l :: l in lines <==> l in lines[..|lines| - 1] || l == lines[|lines| - 1];
    Doctypes(lines[..|lines| - 1]) + if StartsWith(lines[|lines| - 1], "<!DOCTYPE") then [lines[|lines| - 1]] else []
  }

  function Anchors(lines: seq<string>): set<string> {
    set l | l in lines && StartsWith(l, "<a ")
  }

  function Heading(lines: seq<string>): seq<string> { if Doctypes(lines) == [] then [DOCTYPE] else Doctypes(lines) }

  /** The release writer: the document type lines as they are, or the usual one; then every anchor line so far and its
      own, by line. */
  ghost function ReleaseRoot(text: string): string {
    var lines := Lines(text);
    Join(Heading(lines) + SortSet(Anchors(lines) + {PackageLine(RELEASE_PACKAGE)})) + "\n"
  }

  lemma OneMoreLine(lines: seq<string>, i: nat)
    requires i < |lines|
    ensures Doctypes(lines[..i + 1])
         == Doctypes(lines[..i]) + if StartsWith(lines[i], "<!DOCTYPE") then [lines[i]] else []
    ensures Anchors(lines[..i + 1]) == Anchors(lines[..i]) + if StartsWith(lines[i], "<a ") then {lines[i]} else {}
  {
    hide StartsWith;
    assert lines[..i + 1][..i] == lines[..i];
    assert forall l :: l in lines[..i + 1] <==> l in lines[..i] || l == lines[i];
  }

  method WriteReleaseRoot(page: Option<string>) returns (r: string)
    ensures r == ReleaseRoot(Content(page))
  {
    var lines := Lines(Content(page));
    var doctype: seq<string>, anchors: set<string> := [], {};
    assert Doctypes(lines[..0]) == [] && Anchors(lines[..0]) == {};
    hide StartsWith, PackageLine, Doctypes, Anchors, Lines, SortSet, Join;
    for i := 0 to |lines|
      invariant doctype == Doctypes(lines[..i]) && anchors == Anchors(lines[..i])
    {
      OneMoreLine(lines, i);
      if StartsWith(lines[i], "<!DOCTYPE") { doctype := doctype + [lines[i]]; }
      if StartsWith(lines[i], "<a ") { anchors := anchors + {lines[i]}; }
    }
    assert lines[..|lines|] == lines;
    var sorted := Sort(anchors + {PackageLine(RELEASE_PACKAGE)});
    r := Join((if doctype == [] then [DOCTYPE] else doctype) + sorted) + "\n";
  }

  // ---- what each writer keeps ---------------------------------------------------------------------

  lemma PackagesAreNames(s: string)
    ensures LinkNames(PackagesIn(s))
  {}

  ghost function LinesOf(ps: set<string>): set<string> { set p | p in ps :: PackageLine(p) }

  /** Each package of `ps` on one line of its own, once. */
  ghost predicate Lists(lines: seq<string>, ps: set<string>) {
    && (forall i, j :: 0 <= i < j < |lines| ==> lines[i] != lines[j])
    && (forall l :: l in lines <==> l in LinesOf(ps))
  }

  /** A page, possibly empty, that links the packages `ps`, each once. */
  ghost predicate Links(text: string, ps: set<string>) {
    (text == [] && ps == {}) || exists lines :: text == Page(lines) && Lists(lines, ps)
  }

  lemma LinesDiffer(p: string, q: string)
    requires LinkName(p) && LinkName(q) && PackageLine(p) == PackageLine(q)
    ensures p == q
  {
    LineLinks(p);
    LineLinks(q);
    assert p in PackagesIn(PackageLine(q));
  }

  lemma LinesOfNames(names: seq<string>, ps: set<string>)
    requires forall p :: p in names <==> p in ps
    ensures forall l :: l in PackageLines(names) <==> l in LinesOf(ps)
  {
    hide PackageLine;
    var lines := PackageLines(names);
    forall l ensures l in lines <==> l in LinesOf(ps) {
      if l in lines {
        var i :| 0 <= i < |lines| && lines[i] == l;
        assert names[i] in names;
      }
      if l in LinesOf(ps) {
        var p :| p in ps && PackageLine(p) == l;
        assert p in names;
        var i :| 0 <= i < |names| && names[i] == p;
        assert lines[i] == l;
      }
    }
  }

  lemma NamesGiveLines(ps: set<string>)
    requires LinkNames(ps)
    ensures Lists(PackageLines(SortSet(ps)), ps)
  {
    hide PackageLine, LinkName, LinesOf;
    var names := SortSet(ps);
    var lines := PackageLines(names);
    forall i, j | 0 <= i < j < |lines| ensures lines[i] != lines[j] {
      assert names[i] in names && names[j] in names;
      if lines[i] == lines[j] { LinesDiffer(names[i], names[j]); }
    }
    LinesOfNames(names, ps);
  }

  lemma ListedPackages(lines: seq<string>, ps: set<string>)
    requires LinkNames(ps) && Lists(lines, ps)
    ensures PackagesIn(Page(lines)) == ps
  {
    hide PackageLine, PackagesIn, Closed, PackagesOf;
    var all := [DOCTYPE] + lines;
    PlainIsTidy();
    forall l | l in all ensures Closed(l) && (l == DOCTYPE || exists p :: p in ps && l == PackageLine(p)) {
      if l in lines {
        var p :| p in ps && PackageLine(p) == l;
        LineLinks(p);
      }
    }
    PackagesOfText(all);
    forall p ensures p in PackagesOf(all) <==> p in ps {
      PackagesOfIff(all, p);
      if p in PackagesOf(all) {
        var l :| l in all && p in PackagesIn(l);
        var x :| x in ps && l == PackageLine(x);
        LineLinks(x);
      }
      if p in ps {
        LineLinks(p);
        assert PackageLine(p) in lines && PackageLine(p) in all;
      }
    }
  }

  lemma OwnNames()
    ensures LinkName(NIGHTLY_PACKAGE) && '\n' !in NIGHTLY_PACKAGE
    ensures LinkName(RELEASE_PACKAGE) && '\n' !in RELEASE_PACKAGE
  {}

  /** The nightly writer keeps every package linked anywhere on the page, whatever the page looks like, and adds its
      own; each is linked once. */
  lemma NightlyKeepsPackages(text: string)
    ensures PackagesIn(NightlyRoot(text)) == PackagesIn(text) + {NIGHTLY_PACKAGE}
    ensures Links(NightlyRoot(text), PackagesIn(text) + {NIGHTLY_PACKAGE})
  {
    hide PackagesIn, PackageLines, Page, Lists;
    var ps := PackagesIn(text) + {NIGHTLY_PACKAGE};
    PackagesAreNames(text);
    OwnNames();
    NamesGiveLines(ps);
    ListedPackages(PackageLines(SortSet(ps)), ps);
  }

  /** The lines the release writer keeps. */
  predicate Kept(line: string) { StartsWith(line, "<!DOCTYPE") || StartsWith(line, "<a ") }

  ghost function ReleaseLines(text: string): seq<string> {
    Heading(Lines(text)) + SortSet(Anchors(Lines(text)) + {PackageLine(RELEASE_PACKAGE)})
  }

  lemma ReleaseLine(text: string, l: string)
    ensures l in Lines(text) && Kept(l) ==> l in ReleaseLines(text)
    ensures l in ReleaseLines(text) ==>
      l == DOCTYPE || l == PackageLine(RELEASE_PACKAGE) || (l in Lines(text) && Kept(l))
    ensures PackageLine(RELEASE_PACKAGE) in ReleaseLines(text)
  {
    hide StartsWith, PackageLine, Lines;
  }

  /** Every line the release writer keeps closes the addresses it opens. */
  ghost predicate KeptAreClosed(text: string) {
    forall l :: l in Lines(text) && Kept(l) ==> Closed(l)
  }

  lemma ReleaseLinks(text: string)
    requires KeptAreClosed(text)
    ensures forall p :: p in PackagesIn(ReleaseRoot(text)) <==>
      p == RELEASE_PACKAGE || exists l :: l in Lines(text) && Kept(l) && p in PackagesIn(l)
  {
    hide PackagesIn, Closed, PackagesOf, Kept, Lines, PackageLine;
    var lines := ReleaseLines(text);
    DoctypeIsPlain();
    Unquoted(DOCTYPE);
    OwnNames();
    LineLinks(RELEASE_PACKAGE);
    forall l | l in lines ensures Closed(l) { ReleaseLine(text, l); }
    ReleaseLine(text, PackageLine(RELEASE_PACKAGE));
    PackagesOfText(lines);
    forall p ensures p in PackagesIn(ReleaseRoot(text)) <==>
      p == RELEASE_PACKAGE || exists l :: l in Lines(text) && Kept(l) && p in PackagesIn(l)
    {
      PackagesOfIff(lines, p);
      if p in PackagesOf(lines) {
        var l :| l in lines && p in PackagesIn(l);
        ReleaseLine(text, l);
      }
      if l :| l in Lines(text) && Kept(l) && p in PackagesIn(l) { ReleaseLine(text, l); }
    }
  }

  /** The release writer keeps every package of a page whose kept lines are closed exactly if each is its own or linked
      from a line that starts with an anchor or a document type; other lines it drops. */
  lemma ReleaseKeepsPackagesIff(text: string)
    requires KeptAreClosed(text)
    ensures PackagesIn(text) <= PackagesIn(ReleaseRoot(text)) <==>
      forall p :: p in PackagesIn(text) ==>
        p == RELEASE_PACKAGE || exists l :: l in Lines(text) && Kept(l) && p in PackagesIn(l)
  {
    hide PackagesIn, Closed, Kept, Lines;
    ReleaseLinks(text);
  }

  lemma IndentedLink(line: string, p: string, text: string)
    requires text == " " + line && p in PackagesIn(line) && Closed(line)
    ensures p in PackagesIn(text) && Closed(text)
  {
    var i :| 0 <= i < |line| && PackageAt(line, i) == Some(p);
    PackageBehind(" ", line, i);
    assert 1 + i < |text|;
    forall k: nat | OpensAt(text, k) ensures CloseOf(text, k) < |text| {
      Openings(text, k);
      OpensBehind(" ", line, k - 1);
    }
  }

  lemma IndentedIsNotKept(line: string)
    ensures !Kept(" " + line)
  {
    var text := " " + line;
    assert text[0] == ' ' && "<a "[0] == '<' && "<!DOCTYPE"[0] == '<';
    assert |text| >= 3 ==> text[..3][0] == ' ';
    assert |text| >= 9 ==> text[..9][0] == ' ';
  }

  /** An indented link is one the release writer loses. */
  lemma IndentedLinkIsLost(p: string)
    requires LinkName(p) && '\n' !in p && p != RELEASE_PACKAGE
    ensures var text := " " + PackageLine(p); p in PackagesIn(text) && p !in PackagesIn(ReleaseRoot(text))
  {
    hide PackageLine, PackagesIn, Kept, ReleaseRoot, Closed, Lines;
    var line, text := PackageLine(p), " " + PackageLine(p);
    LineLinks(p);
    LineStarts(p);
    IndentedLink(line, p, text);
    IndentedIsNotKept(line);
    OneLineText(text);
    ReleaseLinks(text);
  }

  // ---- sharing the page ---------------------------------------------------------------------------

  /** Every line closes what it opens, and only kept lines link packages. */
  ghost predicate Tidy(text: string) {
    forall l :: l in Lines(text) ==> Closed(l) && (PackagesIn(l) != {} ==> Kept(l))
  }

  lemma PackagesOfLines(text: string)
    requires AllClosed(Lines(text))
    ensures PackagesIn(text) == PackagesOf(Lines(text))
  {
    hide PackagesIn, Closed;
    SplitGlues(text, '\n');
    PackagesOfJoin(Lines(text));
  }

  /** On such a page no package name runs over a line. */
  lemma TidyNames(text: string)
    requires Tidy(text)
    ensures forall p :: p in PackagesIn(text) ==> LinkName(p) && '\n' !in p
  {
    PackagesOfLines(text);
    PackagesAreNames(text);
    SplitGlues(text, '\n');
    forall p | p in PackagesIn(text) ensures '\n' !in p {
      PackagesOfIff(Lines(text), p);
      var l :| l in Lines(text) && p in PackagesIn(l);
      NameFromText(l, p);
    }
  }

  lemma NameFromText(s: string, p: string)
    requires p in PackagesIn(s) && '\n' !in s
    ensures '\n' !in p
  {}

  lemma LinesAreTidy(names: seq<string>)
    requires forall p :: p in names ==> LinkName(p) && '\n' !in p
    ensures forall l :: l in PackageLines(names) ==> '\n' !in l && Closed(l) && Kept(l)
  {
    hide Closed, PackageLine, Kept;
    var lines := PackageLines(names);
    forall l | l in lines ensures '\n' !in l && Closed(l) && Kept(l) {
      var i :| 0 <= i < |lines| && lines[i] == l;
      assert names[i] in names;
      LineStarts(names[i]);
      LineLinks(names[i]);
      AnchorsAreKept(l);
    }
  }

  lemma NightlyStaysTidy(text: string)
    requires Tidy(text)
    ensures Tidy(NightlyRoot(text))
  {
    TidyNames(text);
    OwnNames();
    hide PackagesIn, Closed, Lines, Kept, PackageLines;
    var lines := PackageLines(SortSet(PackagesIn(text) + {NIGHTLY_PACKAGE}));
    LinesAreTidy(SortSet(PackagesIn(text) + {NIGHTLY_PACKAGE}));
    PlainIsTidy();
    PageOfTidy(lines);
  }

  lemma PageOfTidy(lines: seq<string>)
    requires forall l :: l in lines ==> '\n' !in l && Closed(l) && Kept(l)
    ensures Tidy(Page(lines))
  {
    hide PackagesIn, Closed, Kept, Page, Lines;
    PlainIsTidy();
    PageLines(lines);
    assert forall l :: l in [DOCTYPE] + lines + [[]] ==> l == DOCTYPE || l in lines || l == [];
  }

  lemma AnchorsAreKept(l: string)
    requires StartsWith(l, "<a ")
    ensures Kept(l)
  {}

  lemma PlainIsTidy()
    ensures PackagesIn(DOCTYPE) == {} && Closed(DOCTYPE) && PackagesIn([]) == {} && Closed([])
  {
    DoctypeIsPlain();
    Unquoted(DOCTYPE);
    Unquoted([]);
  }

  lemma ReleaseStaysTidy(text: string)
    requires Tidy(text)
    ensures Tidy(ReleaseRoot(text))
  {
    hide PackagesIn, Closed, Lines, PackageLine, Kept;
    var lines := ReleaseLines(text);
    SplitLines(text);
    DoctypeIsPlain();
    OwnNames();
    LineStarts(RELEASE_PACKAGE);
    LineLinks(RELEASE_PACKAGE);
    AnchorsAreKept(PackageLine(RELEASE_PACKAGE));
    PlainIsTidy();
    forall l | l in lines ensures '\n' !in l && Closed(l) && (PackagesIn(l) != {} ==> Kept(l)) { ReleaseLine(text, l); }
    ReleaseLine(text, PackageLine(RELEASE_PACKAGE));
    TextLines(lines);
  }

  lemma SplitLines(text: string)
    ensures forall l :: l in Lines(text) ==> '\n' !in l
  {
    SplitGlues(text, '\n');
  }

  lemma TextLines(lines: seq<string>)
    requires lines != [] && forall l :: l in lines ==> '\n' !in l
    ensures Lines(Join(lines) + "\n") == lines + [[]]
  {
    JoinSplits(lines);
    LinesSplit(Join(lines), []);
    assert Join(lines) + "\n" + [] == Join(lines) + "\n";
    OneLineText([]);
  }

  datatype Writer = Nightly | Release

  function Own(w: Writer): string { if w.Nightly? then NIGHTLY_PACKAGE else RELEASE_PACKAGE }

  ghost function Write(w: Writer, text: string): string { if w.Nightly? then NightlyRoot(text) else ReleaseRoot(text) }

  /** One write to a tidy page, which may be missing or empty, keeps every package and adds the writer's own. */
  lemma WriteAdds(w: Writer, text: string)
    requires Tidy(text)
    ensures Tidy(Write(w, text)) && PackagesIn(Write(w, text)) == PackagesIn(text) + {Own(w)}
  {
    hide Tidy, PackagesIn, NightlyRoot, ReleaseRoot;
    if w.Nightly? {
      NightlyKeepsPackages(text);
      NightlyStaysTidy(text);
    } else {
      ReleaseStaysTidy(text);
      ReleaseAdds(text);
    }
  }

  lemma ReleaseAdds(text: string)
    requires Tidy(text)
    ensures PackagesIn(ReleaseRoot(text)) == PackagesIn(text) + {RELEASE_PACKAGE}
  {
    hide PackagesIn, Closed, Lines, Kept, ReleaseRoot, PackagesOf;
    ReleaseLinks(text);
    PackagesOfLines(text);
    forall p ensures p in PackagesIn(ReleaseRoot(text)) <==> p in PackagesIn(text) + {RELEASE_PACKAGE} {
      PackagesOfIff(Lines(text), p);
    }
  }

  /** The root page after a sequence of writers. */
  ghost function RootAfter(start: string, writers: seq<Writer>): string {
    if writers == [] then start else Write(writers[|writers| - 1], RootAfter(start, writers[..|writers| - 1]))
  }

  lemma EmptyIsTidy()
    ensures Tidy([]) && PackagesIn([]) == {}
  {
    OneLineText([]);
    PlainIsTidy();
  }

  /** Without a root page either writer writes one that links its own package only. */
  lemma FirstRootPage()
    ensures PackagesIn(NightlyRoot(Content(None))) == {"sglang"}
    ensures PackagesIn(ReleaseRoot(Content(None))) == {"sgl-deep-ep"}
  {
    hide PackagesIn, NightlyRoot, ReleaseRoot, Tidy;
    EmptyIsTidy();
    NightlyKeepsPackages([]);
    ReleaseAdds([]);
  }

  /** However the two writers interleave, from a missing, empty or tidy page: no package is lost, and exactly the
      writers' own are added. */
  lemma {:induction false} SharedRootKeepsLinks(start: string, writers: seq<Writer>)
    requires Tidy(start)
    ensures Tidy(RootAfter(start, writers))
    ensures PackagesIn(RootAfter(start, writers)) == PackagesIn(start) + set w | w in writers :: Own(w)
  {
    hide Tidy, Write, PackagesIn;
    if writers != [] {
      var n := |writers| - 1;
      var front, w := writers[..n], writers[n];
      SharedRootKeepsLinks(start, front);
      WriteAdds(w, RootAfter(start, front));
      assert writers == front + [w];
      assert (set x | x in writers :: Own(x)) == (set x | x in front :: Own(x)) + {Own(w)};
    }
  }

  // ---- each package once ----------------------------------------------------------------------------

  ghost predicate OneLineNames(ps: set<string>) { forall p :: p in ps ==> LinkName(p) && '\n' !in p }

  lemma {:induction false} DoctypesOfConcat(a: seq<string>, b: seq<string>)
    ensures Doctypes(a + b) == Doctypes(a) + Doctypes(b)
  {
    hide StartsWith;
    if b == [] {
      assert a + b == a;
    } else {
      var n := |b| - 1;
      assert (a + b)[..|a + b| - 1] == a + b[..n];
      DoctypesOfConcat(a, b[..n]);
    }
  }

  lemma NoDoctypes(lines: seq<string>)
    requires forall l :: l in lines ==> !StartsWith(l, "<!DOCTYPE")
    ensures Doctypes(lines) == []
  {
    assert forall i :: 0 <= i < |Doctypes(lines)| ==> Doctypes(lines)[i] in Doctypes(lines);
  }

  lemma Boilerplate()
    ensures Doctypes([DOCTYPE]) == [DOCTYPE] && Doctypes([[]]) == []
    ensures !StartsWith(DOCTYPE, "<a ") && !StartsWith([], "<a ")
  {
    DoctypeIsPlain();
    var blank: seq<string> := [[]];
    NoDoctypes(blank);
    assert [DOCTYPE][..0] == [];
  }

  lemma HeadingOfPage(lines: seq<string>)
    requires forall l :: l in lines ==> StartsWith(l, "<a ") && !StartsWith(l, "<!DOCTYPE")
    ensures var all := [DOCTYPE] + lines + [[]];
      Heading(all) == [DOCTYPE] && forall l :: l in Anchors(all) <==> l in lines
  {
    hide StartsWith, Doctypes;
    Boilerplate();
    NoDoctypes(lines);
    DoctypesOfConcat([DOCTYPE] + lines, [[]]);
    DoctypesOfConcat([DOCTYPE], lines);
    assert forall l :: l in [DOCTYPE] + lines + [[]] <==> l == DOCTYPE || l in lines || l == [];
  }

  /** What both writers read off a page that links `ps`. */
  lemma ReadRoot(text: string, ps: set<string>)
    requires OneLineNames(ps) && Links(text, ps)
    ensures PackagesIn(text) == ps && Anchors(Lines(text)) == LinesOf(ps) && Heading(Lines(text)) == [DOCTYPE]
  {
    if text == [] && ps == {} {
      EmptyIsTidy();
      OneLineText([]);
      NoDoctypes([[]]);
    } else {
      var lines :| text == Page(lines) && Lists(lines, ps);
      hide Page, Lines, PackageLine, StartsWith, PackagesIn, Heading, Anchors;
      ListedPackages(lines, ps);
      forall l | l in lines ensures '\n' !in l && StartsWith(l, "<a ") && !StartsWith(l, "<!DOCTYPE") {
        var q :| q in ps && PackageLine(q) == l;
        LineStarts(q);
      }
      PageLines(lines);
      HeadingOfPage(lines);
    }
  }

  lemma SortedLists(ps: set<string>, own: string)
    ensures LinesOf(ps + {own}) == LinesOf(ps) + {PackageLine(own)}
    ensures Lists(SortSet(LinesOf(ps) + {PackageLine(own)}), ps + {own})
  {
    hide PackageLine;
  }

  lemma ReleaseLinksOnce(text: string, ps: set<string>)
    requires Heading(Lines(text)) == [DOCTYPE] && Anchors(Lines(text)) == LinesOf(ps)
    ensures Links(ReleaseRoot(text), ps + {RELEASE_PACKAGE})
  {
    hide Lines, Heading, Anchors, PackageLine, Lists, LinesOf, SortSet;
    SortedLists(ps, RELEASE_PACKAGE);
    assert ReleaseRoot(text) == Page(SortSet(LinesOf(ps) + {PackageLine(RELEASE_PACKAGE)}));
  }

  lemma WriteLinksOnce(w: Writer, text: string, ps: set<string>)
    requires OneLineNames(ps) && Links(text, ps)
    ensures OneLineNames(ps + {Own(w)}) && Links(Write(w, text), ps + {Own(w)})
  {
    hide Links, PackagesIn, NightlyRoot, ReleaseRoot;
    OwnNames();
    ReadRoot(text, ps);
    if w.Nightly? { NightlyKeepsPackages(text); } else { ReleaseLinksOnce(text, ps); }
  }

  /** From a missing or empty page, or a page of package links: however the writers interleave, each package is linked
      once. */
  lemma {:induction false} SharedRootLinksOnce(start: string, ps: set<string>, writers: seq<Writer>)
    requires OneLineNames(ps) && Links(start, ps)
    ensures var all := ps + set w | w in writers :: Own(w); OneLineNames(all) && Links(RootAfter(start, writers), all)
  {
    hide Links, Write, OneLineNames;
    if writers == [] {
      assert ps + (set x | x in writers :: Own(x)) == ps;
    } else {
      var n := |writers| - 1;
      var front, w := writers[..n], writers[n];
      SharedRootLinksOnce(start, ps, front);
      WriteLinksOnce(w, RootAfter(start, front), ps + set x | x in front :: Own(x));
      assert writers == front + [w];
      assert ps + (set x | x in writers :: Own(x)) == ps + (set x | x in front :: Own(x)) + {Own(w)};
    }
  }
}
