/** The release index of one package, kept sorted by file name. */
module ReleaseIndex {
  import opened Prelude
  import opened WheelLinks
  import opened SortedTexts

  // ---- pages --------------------------------------------------------------------------------------

  /** A page of the document type and a line each. */
  function Page(lines: seq<string>): string { Join([DOCTYPE] + lines) + "\n" }

  ghost predicate OneLiners(lines: seq<string>) {
    forall l :: l in lines ==> '\n' !in l
  }

  lemma PageLines(lines: seq<string>)
    requires OneLiners(lines)
    ensures Lines(Page(lines)) == [DOCTYPE] + lines + [[]]
  {
    var all := [DOCTYPE] + lines;
    forall l | l in all ensures '\n' !in l {
      assert l == DOCTYPE || l in lines;
    }
    JoinSplits(all);
    LinesSplit(Join(all), []);
    assert Join(all) + "\n" + [] == Page(lines);
    OneLineText([]);
  }

  // ---- the release index --------------------------------------------------------------------------

  const ANCHOR_OPEN := "<a href=\""
  const ANCHOR_CLOSE := "</a><br>"

  /** The file name of a line that is exactly one anchor. */
  function AnchorName(line: string): Option<string> {
    if !StartsWith(line, ANCHOR_OPEN) then None else
    var q := IndexOf(line, '"', |ANCHOR_OPEN|);
    if q == |ANCHOR_OPEN| || q + 2 > |line| || line[q..q + 2] != "\">" then None else
    var r := IndexOf(line, '<', q + 2);
    if r == q + 2 || line[r..] != ANCHOR_CLOSE then None else Some(line[q + 2..r])
  }

  function Anchor(url: string, name: string): string { ANCHOR_OPEN + url + "\">" + name + ANCHOR_CLOSE }

  lemma AnchorNameOf(url: string, name: string)
    requires url != [] && '"' !in url && name != [] && '<' !in name
    ensures AnchorName(Anchor(url, name)) == Some(name)
  {
    var line := Anchor(url, name);
    var o := |ANCHOR_OPEN|;
    var q := o + |url|;
    var r := q + 2 + |name|;
    assert line[..o] == ANCHOR_OPEN;
    forall k | o <= k < q ensures line[k] != '"' { assert line[k] == url[k - o]; }
    IndexOfUnique(line, '"', o, q);
    assert line[q..q + 2] == "\">";
    forall k | q + 2 <= k < r ensures line[k] != '<' { assert line[k] == name[k - q - 2]; }
    IndexOfUnique(line, '<', q + 2, r);
    assert line[q + 2..r] == name && line[r..] == ANCHOR_CLOSE;
  }

  /** Reads the anchors of a list of lines into a dictionary; a repeated name keeps its last line. */
  function Entries(lines: seq<string>): map<string, string> {
    if lines == [] then map[] else
    var before, x := Entries(lines[..|lines| - 1]), lines[|lines| - 1];
    match AnchorName(x)
    case Some(name) => before[name := x]
    case None => before
  }

  /** Every line is the anchor of the name it is filed under. */
  ghost predicate Filed(m: map<string, string>) {
    forall n :: n in m ==> AnchorName(m[n]) == Some(n) && '\n' !in m[n]
  }

  ghost function SortedLines(m: map<string, string>, names: seq<string>): (lines: seq<string>)
    requires forall n :: n in names ==> n in m
    ensures |lines| == |names| && forall i :: 0 <= i < |names| ==> lines[i] == m[names[i]]
  {
    if names == [] then [] else
    assert names[|names| - 1] in names;
    SortedLines(m, names[..|names| - 1]) + [m[names[|names| - 1]]]
  }

  ghost function Render(m: map<string, string>): string { Page(SortedLines(m, SortSet(m.Keys))) }

  function ReadEntries(page: string): map<string, string> { Entries(Lines(page)) }

  function Restrict(m: map<string, string>, names: seq<string>): map<string, string> {
    map n | n in m && n in names :: m[n]
  }

  lemma RestrictPush(m: map<string, string>, names: seq<string>, n: string)
    requires n in m
    ensures Restrict(m, names + [n]) == Restrict(m, names)[n := m[n]]
  {}

  lemma EntriesPush(lines: seq<string>, x: string, name: string)
    requires AnchorName(x) == Some(name)
    ensures Entries(lines + [x]) == Entries(lines)[name := x]
  {
    assert (lines + [x])[..|lines|] == lines;
  }

  lemma {:induction false} EntriesOfSorted(m: map<string, string>, names: seq<string>)
    requires Filed(m) && forall n :: n in names ==> n in m
    ensures Entries(SortedLines(m, names)) == Restrict(m, names)
  {
    hide AnchorName, Restrict, Entries;
    if names == [] {
      NoEntries(m);
      assert SortedLines(m, names) == [];
    } else {
      var k := |names| - 1;
      assert names[k] in names && names == names[..k] + [names[k]];
      EntriesOfSorted(m, names[..k]);
      EntriesPush(SortedLines(m, names[..k]), m[names[k]], names[k]);
      RestrictPush(m, names[..k], names[k]);
    }
  }

  lemma NoEntries(m: map<string, string>)
    ensures Entries([]) == map[] == Restrict(m, [])
  {}

  lemma {:induction false} EntriesConcat(a: seq<string>, b: seq<string>)
    ensures Entries(a + b) == Entries(a) + Entries(b)
  {
    hide AnchorName;
    if b == [] {
      assert a + b == a;
    } else {
      var n := |b| - 1;
      assert (a + b)[..|a + b| - 1] == a + b[..n];
      EntriesConcat(a, b[..n]);
    }
  }

  lemma BoilerplateHasNoEntry()
    ensures Entries([DOCTYPE]) == map[] && Entries([[]]) == map[]
  {
    assert DOCTYPE[1] == '!' && ANCHOR_OPEN[1] == 'a';
    var blank: seq<string> := [[]];
    assert [DOCTYPE][..0] == [] && blank[..0] == [];
    assert !StartsWith(DOCTYPE, ANCHOR_OPEN);
  }

  lemma SortedAreOneLiners(m: map<string, string>, names: seq<string>)
    requires Filed(m) && forall n :: n in names ==> n in m
    ensures OneLiners(SortedLines(m, names))
  {
    hide AnchorName;
    var lines := SortedLines(m, names);
    forall l | l in lines ensures '\n' !in l {
      var i :| 0 <= i < |lines| && lines[i] == l;
      assert names[i] in names;
    }
  }

  lemma RestrictAll(m: map<string, string>)
    ensures Restrict(m, SortSet(m.Keys)) == m
  {
    hide SortSet;
  }

  lemma EntriesOfPage(lines: seq<string>)
    requires OneLiners(lines)
    ensures ReadEntries(Page(lines)) == Entries(lines)
  {
    PageLines(lines);
    BoilerplateHasNoEntry();
    hide Page, Lines, AnchorName, Entries;
    EntriesConcat([DOCTYPE] + lines, [[]]);
    EntriesConcat([DOCTYPE], lines);
  }

  /** Reading a written index gives back its entries. */
  lemma ReadBack(m: map<string, string>)
    requires Filed(m)
    ensures ReadEntries(Render(m)) == m
  {
    hide Page, ReadEntries, Entries, Filed, Restrict;
    var names := SortSet(m.Keys);
    SortedAreOneLiners(m, names);
    EntriesOfPage(SortedLines(m, names));
    EntriesOfSorted(m, names);
    RestrictAll(m);
  }

  lemma {:induction false} EntriesAreFiled(lines: seq<string>)
    requires OneLiners(lines)
    ensures Filed(Entries(lines))
  {
    hide AnchorName;
    if lines != [] {
      assert lines[|lines| - 1] in lines;
      EntriesAreFiled(lines[..|lines| - 1]);
    }
  }

  /** Whatever a page holds, what is read off it is filed under its own name. */
  lemma ReadIsFiled(page: Option<string>)
    ensures Filed(Read(page))
  {
    if page.Some? {
      SplitGlues(page.value, '\n');
      EntriesAreFiled(Lines(page.value));
    }
  }

  function Read(page: Option<string>): map<string, string> {
    if page.Some? then ReadEntries(page.value) else map[]
  }

  // ---- which wheels are filed, and how ------------------------------------------------------------

  const PACKAGE := "sgl_deep_ep"
  const SUPPORTED_CUDA_VERSIONS := ["129", "130"]
  const RELEASE_BASE := "https://github.com/" + "sgl-project/whl/" + "releases/download"

  /** A wheel found in the directory: its file name and the digest of its contents. */
  datatype Wheel = Wheel(name: string, digest: string)

  ghost predicate Fields(version: string, a: string, b: string, c: string) {
    && version != [] && '0' <= version[0] <= '9' && a != [] && b != [] && c != []
    && '-' !in version && '-' !in a && '-' !in b && '-' !in c
  }

  function WheelName(version: string, a: string, b: string, c: string): string {
    Glue([PACKAGE, version, a, b, c + ".whl"], '-')
  }

  /** The version in a wheel's file name, if it is one of this package. */
  function VersionOf(name: string): Option<string> {
    var parts := Split(name, '-');
    if && |parts| == 5 && parts[0] == PACKAGE && parts[1] != [] && '0' <= parts[1][0] <= '9'
       && parts[2] != [] && parts[3] != [] && |parts[4]| > 4 && EndsWith(parts[4], ".whl")
    then Some(parts[1]) else None
  }

  /** A version is found in exactly the names made of the package, a version, three tags and the suffix. */
  lemma VersionIff(name: string, version: string)
    ensures VersionOf(name) == Some(version) <==>
      exists a, b, c :: Fields(version, a, b, c) && name == WheelName(version, a, b, c)
  {
    SplitGlues(name, '-');
    hide Split;
    if VersionOf(name) == Some(version) {
      var parts := Split(name, '-');
      assert parts[1] in parts && parts[2] in parts && parts[3] in parts && parts[4] in parts;
      var c := parts[4][..|parts[4]| - 4];
      assert parts[4] == c + ".whl";
      assert parts == [PACKAGE, version, parts[2], parts[3], c + ".whl"];
      assert Fields(version, parts[2], parts[3], c) && name == WheelName(version, parts[2], parts[3], c);
    }
    forall a, b, c | Fields(version, a, b, c) && name == WheelName(version, a, b, c)
      ensures VersionOf(name) == Some(version)
    {
      hide Glue;
      assert '-' !in PACKAGE && '-' !in ".whl";
      GlueSplits([PACKAGE, version, a, b, c + ".whl"], '-');
    }
  }

  predicate Eligible(cuda: string, name: string) {
    VersionOf(name).Some? && Contains(VersionOf(name).value, "+cu" + cuda)
  }

  /** A wheel whose version has one local part is for one accelerator version only. */
  lemma OneAccelerator(name: string, i: nat)
    requires VersionOf(name).Some? && i < |VersionOf(name).value|
    requires forall j :: 0 <= j < |VersionOf(name).value| && VersionOf(name).value[j] == '+' ==> j == i
    ensures !(Eligible("129", name) && Eligible("130", name))
  {
    hide VersionOf;
    var v := VersionOf(name).value;
    var a, b := "+cu" + "129", "+cu" + "130";
    assert a[0] == '+' && b[0] == '+' && a[4] == '2' && b[4] == '3';
    forall x: nat | At(v, a, x) ensures x == i && v[i + 4] == '2' {
      assert v[x] == v[x..x + |a|][0] && v[x + 4] == v[x..x + |a|][4];
    }
    forall x: nat | At(v, b, x) ensures x == i && v[i + 4] == '3' {
      assert v[x] == v[x..x + |b|][0] && v[x + 4] == v[x..x + |b|][4];
    }
  }

  function PublicVersion(version: string): string { version[..IndexOf(version, '+', 0)] }

  function ReleaseUrl(w: Wheel): string
    requires VersionOf(w.name).Some?
  {
    RELEASE_BASE + "/v" + PublicVersion(VersionOf(w.name).value) + "/" + w.name + "#sha256=" + w.digest
  }

  /** What a list of wheels files; those it is not for are skipped. */
  function Added(cuda: string, wheels: seq<Wheel>): map<string, string> {
    if wheels == [] then map[] else
    var x := wheels[|wheels| - 1];
    var before := Added(cuda, wheels[..|wheels| - 1]);
    if Eligible(cuda, x.name) then before[x.name := Anchor(ReleaseUrl(x), x.name)] else before
  }

  /** The loop over the wheels of a release. */
  method FileWheels(cuda: string, entries: map<string, string>, wheels: seq<Wheel>) returns (r: map<string, string>)
    ensures r == entries + Added(cuda, wheels)
  {
    hide Eligible, Anchor, ReleaseUrl;
    r := entries;
    for i := 0 to |wheels|
      invariant r == entries + Added(cuda, wheels[..i])
    {
      assert wheels[..i + 1][..i] == wheels[..i];
      if Eligible(cuda, wheels[i].name) {
        HasVersion(cuda, wheels[i].name);
        r := r[wheels[i].name := Anchor(ReleaseUrl(wheels[i]), wheels[i].name)];
      }
    }
    assert wheels[..|wheels|] == wheels;
  }

  lemma HasVersion(cuda: string, name: string)
    requires Eligible(cuda, name)
    ensures VersionOf(name).Some?
  {}

  /** File names and digests without markup. */
  ghost predicate GoodWheel(w: Wheel) {
    '"' !in w.name && '<' !in w.name && '\n' !in w.name && '"' !in w.digest && '\n' !in w.digest
  }

  ghost predicate GoodRelease(wheels: seq<Wheel>) {
    forall i :: 0 <= i < |wheels| ==> GoodWheel(wheels[i])
  }

  lemma BaseIsPlain()
    ensures '"' !in RELEASE_BASE && '\n' !in RELEASE_BASE
  {
    assert '"' !in "https://github.com/" && '"' !in "sgl-project/whl/" && '"' !in "releases/download";
    assert '\n' !in "https://github.com/" && '\n' !in "sgl-project/whl/" && '\n' !in "releases/download";
  }

  /** Glueing pieces loses no character. */
  lemma {:induction false} PartsHold(parts: seq<string>, i: nat, c: char)
    ensures i < |parts| && c in parts[i] ==> c in Glue(parts, '-')
  {
    if |parts| > 1 && i < |parts| - 1 { PartsHold(parts[..|parts| - 1], i, c); }
  }

  /** The version is part of the name, so it has no other characters. */
  lemma VersionIsPlain(name: string, c: char)
    requires VersionOf(name).Some? && c !in name
    ensures name != [] && c !in VersionOf(name).value
  {
    SplitGlues(name, '-');
    PartsHold(Split(name, '-'), 1, c);
    OnePiece([], '-');
  }

  lemma UrlIsPlain(w: Wheel)
    requires GoodWheel(w) && VersionOf(w.name).Some?
    ensures w.name != [] && ReleaseUrl(w) != [] && '"' !in ReleaseUrl(w) && '\n' !in ReleaseUrl(w)
  {
    BaseIsPlain();
    VersionIsPlain(w.name, '"');
    VersionIsPlain(w.name, '\n');
    hide VersionOf;
    var base := RELEASE_BASE;
    assert '"' !in "#sha256=" && '\n' !in "#sha256=" && '"' !in "/v" && '\n' !in "/v";
    assert ReleaseUrl(w) == base + "/v" + PublicVersion(VersionOf(w.name).value) + "/" + w.name + "#sha256=" + w.digest;
  }

  lemma AnchorIsFiled(w: Wheel)
    requires GoodWheel(w) && VersionOf(w.name).Some?
    ensures AnchorName(Anchor(ReleaseUrl(w), w.name)) == Some(w.name) && '\n' !in Anchor(ReleaseUrl(w), w.name)
  {
    UrlIsPlain(w);
    hide VersionOf, ReleaseUrl;
    AnchorNameOf(ReleaseUrl(w), w.name);
    assert '\n' !in ANCHOR_OPEN && '\n' !in "\">" && '\n' !in ANCHOR_CLOSE;
  }

  lemma {:induction false} AddedIsFiled(cuda: string, wheels: seq<Wheel>)
    requires GoodRelease(wheels)
    ensures Filed(Added(cuda, wheels))
  {
    hide AnchorName, Anchor, GoodWheel, VersionOf, ReleaseUrl;
    if wheels != [] {
      var n := |wheels| - 1;
      AddedIsFiled(cuda, wheels[..n]);
      if Eligible(cuda, wheels[n].name) { AnchorIsFiled(wheels[n]); }
    }
  }

  // ---- the address a wheel is filed under -----------------------------------------------------------

  /** What the address of a released wheel tells: the version of the release, the file name and the digest. */
  datatype Address = Address(version: string, name: string, digest: string)

  function ReadAddress(url: string): Option<Address> {
    var head := "https://github.com/" + "sgl-project/whl/" + "releases/download" + "/v";
    if !StartsWith(url, head) then None else
    var p := |head|;
    var q := IndexOf(url, '/', p);
    if q == |url| then None else
    var h := IndexOf(url, '#', q + 1);
    if !StartsWith(url[h..], "#sha256=") then None else Some(Address(url[p..q], url[q + 1..h], url[h + 8..]))
  }

  lemma AddressReadsBack(version: string, name: string, digest: string)
    requires '/' !in version && '#' !in name
    ensures ReadAddress(RELEASE_BASE + "/v" + version + "/" + name + "#sha256=" + digest) ==
      Some(Address(version, name, digest))
  {
    var head := RELEASE_BASE + "/v";
    var tail := "#sha256=" + digest;
    var url := head + version + "/" + name + tail;
    assert url == RELEASE_BASE + "/v" + version + "/" + name + "#sha256=" + digest;
    var p := |head|;
    var q := p + |version|;
    var h := q + 1 + |name|;
    hide *;
    assert url[..p] == head && url[p..q] == version && url[q + 1..h] == name && url[h..] == tail;
    forall k | p <= k < q ensures url[k] != '/' { assert url[k] == version[k - p]; }
    IndexOfUnique(url, '/', p, q);
    forall k | q + 1 <= k < h ensures url[k] != '#' { assert url[k] == name[k - q - 1]; }
    IndexOfUnique(url, '#', q + 1, h);
    ReadPieces(url, p, q, h, digest);
  }

  lemma ReadPieces(url: string, p: nat, q: nat, h: nat, digest: string)
    requires p == |RELEASE_BASE + "/v"| && p <= q < h <= |url| && url[..p] == RELEASE_BASE + "/v"
    requires IndexOf(url, '/', p) == q && IndexOf(url, '#', q + 1) == h && url[h..] == "#sha256=" + digest
    ensures ReadAddress(url) == Some(Address(url[p..q], url[q + 1..h], digest))
  {
    hide IndexOf;
    assert url[h..][..8] == "#sha256=" && url[h..][8..] == digest && url[h..][8..] == url[h + 8..];
  }

  /** A file name with public version `v`, built for accelerator version `cuda`. */
  ghost predicate NamedFor(name: string, v: string, cuda: string) {
    && '+' !in v && '-' !in cuda
    && exists a, b, c :: Fields(v, a, b, c)
         && name == "sgl_deep_ep" + "-" + (v + "+cu" + cuda) + "-" + a + "-" + b + "-" + (c + ".whl")
  }

  lemma GlueMore(ls: seq<string>, l: string)
    requires ls != []
    ensures Glue(ls + [l], '-') == Glue(ls, '-') + "-" + l
  {
    assert (ls + [l])[..|ls|] == ls;
  }

  lemma GlueFive(p: string, q: string, r: string, s: string, t: string)
    ensures Glue([p, q, r, s, t], '-') == p + "-" + q + "-" + r + "-" + s + "-" + t
  {
    GlueMore([p], q);
    GlueMore([p, q], r);
    GlueMore([p, q, r], s);
    GlueMore([p, q, r, s], t);
    assert Glue([p], '-') == p;
    hide Glue;
    assert [p] + [q] == [p, q] && [p, q] + [r] == [p, q, r];
    assert [p, q, r] + [s] == [p, q, r, s] && [p, q, r, s] + [t] == [p, q, r, s, t];
  }

  lemma NamedVersion(name: string, v: string, cuda: string)
    requires NamedFor(name, v, cuda)
    ensures VersionOf(name) == Some(v + "+cu" + cuda) && '+' !in v
  {
    hide Glue, VersionOf;
    var a, b, c :| Fields(v, a, b, c)
      && name == "sgl_deep_ep" + "-" + (v + "+cu" + cuda) + "-" + a + "-" + b + "-" + (c + ".whl");
    var version := v + "+cu" + cuda;
    assert '-' !in "+cu" && version[0] == v[0];
    GlueFive(PACKAGE, version, a, b, c + ".whl");
    assert Fields(version, a, b, c) && name == WheelName(version, a, b, c);
    VersionIff(name, version);
  }

  lemma PublicPart(v: string, cuda: string)
    requires '+' !in v
    ensures PublicVersion(v + "+cu" + cuda) == v && Contains(v + "+cu" + cuda, "+cu" + cuda)
  {
    var version := v + "+cu" + cuda;
    assert version == v + ("+cu" + cuda);
    assert version[|v|] == '+' && forall k :: 0 <= k < |v| ==> version[k] != '+';
    IndexOfUnique(version, '+', 0, |v|);
    assert At(version, "+cu" + cuda, |v|);
  }

  /** A wheel named for an accelerator version is filed for it, under an address that tells its public version, its name
      and its digest. */
  lemma NamedIsFiled(w: Wheel, v: string, cuda: string)
    requires GoodWheel(w) && '#' !in w.name && '/' !in v && NamedFor(w.name, v, cuda)
    ensures Eligible(cuda, w.name)
    ensures UrlOf(Anchor(ReleaseUrl(w), w.name)).Some?
    ensures ReadAddress(UrlOf(Anchor(ReleaseUrl(w), w.name)).value) == Some(Address(v, w.name, w.digest))
  {
    hide GoodWheel, VersionOf, NamedFor, Contains, PublicVersion, UrlOf, ReadAddress;
    NamedVersion(w.name, v, cuda);
    PublicPart(v, cuda);
    AddressReadsBack(v, w.name, w.digest);
    UrlIsPlain(w);
    UrlInLink(ReleaseUrl(w), w.name);
    hide ReleaseUrl;
    AnchorIsLink(ReleaseUrl(w), w.name);
  }

  lemma AnchorIsLink(url: string, name: string)
    ensures Anchor(url, name) == Link(url, name)
  {
    assert LINK_START + "\"" == ANCHOR_OPEN;
  }

  /** What a release files under a name is the anchor of the last wheel of that name. */
  lemma {:induction false} LastIsFiled(cuda: string, wheels: seq<Wheel>, i: nat)
    requires i < |wheels| && Eligible(cuda, wheels[i].name)
    requires forall j :: i < j < |wheels| ==> wheels[j].name != wheels[i].name
    ensures wheels[i].name in Added(cuda, wheels)
    ensures Added(cuda, wheels)[wheels[i].name] == Anchor(ReleaseUrl(wheels[i]), wheels[i].name)
  {
    hide Eligible, Anchor, ReleaseUrl;
    HasVersion(cuda, wheels[i].name);
    var n := |wheels| - 1;
    if i < n { LastIsFiled(cuda, wheels[..n], i); }
  }

  /** So after a release the page lists it under that address. */
  lemma ReleaseListsNamed(cuda: string, page: Option<string>, wheels: seq<Wheel>, i: nat, v: string)
    requires GoodRelease(wheels) && i < |wheels|
    requires forall j :: i < j < |wheels| ==> wheels[j].name != wheels[i].name
    requires '#' !in wheels[i].name && '/' !in v && NamedFor(wheels[i].name, v, cuda)
    ensures var w, entries := wheels[i], ReadEntries(Updated(cuda, page, wheels));
      && w.name in entries && UrlOf(entries[w.name]).Some?
      && ReadAddress(UrlOf(entries[w.name]).value) == Some(Address(v, w.name, w.digest))
  {
    NamedIsFiled(wheels[i], v, cuda);
    LastIsFiled(cuda, wheels, i);
    ReadIsFiled(page);
    AddedIsFiled(cuda, wheels);
    hide Filed, Added, Read, ReadEntries, Render, Eligible, Anchor, ReleaseUrl, UrlOf, ReadAddress, NamedFor;
    FiledTogether(Read(page), Added(cuda, wheels));
    ReadBack(Read(page) + Added(cuda, wheels));
  }

  // ---- histories of updates -----------------------------------------------------------------------

  /** One update: the page as it was, with the anchors of the new wheels over the old ones. */
  ghost function Updated(cuda: string, page: Option<string>, wheels: seq<Wheel>): string {
    Render(Read(page) + Added(cuda, wheels))
  }

  /** The page after a history of releases, oldest first, from no page or any page at all. */
  ghost function IndexAfter(cuda: string, start: Option<string>, releases: seq<seq<Wheel>>): Option<string> {
    if releases == [] then start else
    var n := |releases| - 1;
    Some(Updated(cuda, IndexAfter(cuda, start, releases[..n]), releases[n]))
  }

  function AddedAll(cuda: string, releases: seq<seq<Wheel>>): map<string, string> {
    if releases == [] then map[] else AddedAll(cuda, releases[..|releases| - 1]) + Added(cuda, releases[|releases| - 1])
  }

  ghost predicate GoodReleases(releases: seq<seq<Wheel>>) {
    forall x :: x in releases ==> GoodRelease(x)
  }

  /** After any history the page lists what was there and everything filed since, the newest anchor of each name, by
      name. */
  lemma {:induction false} IndexIsUnion(cuda: string, start: Option<string>, releases: seq<seq<Wheel>>)
    requires GoodReleases(releases)
    ensures Filed(Read(start) + AddedAll(cuda, releases))
    ensures Read(IndexAfter(cuda, start, releases)) == Read(start) + AddedAll(cuda, releases)
    ensures releases != [] ==> IndexAfter(cuda, start, releases) == Some(Render(Read(start) + AddedAll(cuda, releases)))
  {
    hide Render, ReadEntries, Filed, Added, GoodRelease;
    ReadIsFiled(start);
    if releases == [] {
      assert Read(start) + map[] == Read(start);
    } else {
      var n := |releases| - 1;
      var front, x := releases[..n], releases[n];
      assert x in releases && forall y :: y in front ==> y in releases;
      IndexIsUnion(cuda, start, front);
      AddedIsFiled(cuda, x);
      var sofar := Read(start) + AddedAll(cuda, front);
      FiledTogether(sofar, Added(cuda, x));
      PlusAssociates(Read(start), AddedAll(cuda, front), Added(cuda, x));
      ReadBack(sofar + Added(cuda, x));
    }
  }

  lemma FiledTogether(a: map<string, string>, b: map<string, string>)
    requires Filed(a) && Filed(b)
    ensures Filed(a + b)
  {}

  lemma PlusAssociates(a: map<string, string>, b: map<string, string>, c: map<string, string>)
    ensures (a + b) + c == a + (b + c)
  {}

  lemma RenderIsInjective(a: map<string, string>, b: map<string, string>)
    requires Filed(a) && Filed(b) && Render(a) == Render(b)
    ensures a == b
  {
    ReadBack(a);
    ReadBack(b);
  }

  lemma {:induction false} OverAgain(m: map<string, string>, a: map<string, string>)
    ensures (m + a) + a == m + a
  {}

  /** Repeating the last update changes nothing. */
  lemma RepeatIsIdle(cuda: string, start: Option<string>, releases: seq<seq<Wheel>>)
    requires GoodReleases(releases) && releases != []
    ensures IndexAfter(cuda, start, releases + [releases[|releases| - 1]]) == IndexAfter(cuda, start, releases)
  {
    hide Render, Added, Read, IndexAfter, GoodRelease;
    var x := releases[|releases| - 1];
    assert x in releases && (releases + [x])[..|releases|] == releases;
    IndexIsUnion(cuda, start, releases);
    IndexIsUnion(cuda, start, releases + [x]);
    OverAgain(AddedAll(cuda, releases[..|releases| - 1]), Added(cuda, x));
  }

  // ---- when the order of updates does not matter --------------------------------------------------

  /** Two releases file no name with different anchors. */
  ghost predicate Agree(cuda: string, x: seq<Wheel>, y: seq<Wheel>) {
    forall n :: n in Added(cuda, x) && n in Added(cuda, y) ==> Added(cuda, x)[n] == Added(cuda, y)[n]
  }

  ghost predicate AllAgree(cuda: string, releases: seq<seq<Wheel>>) {
    forall x, y :: x in releases && y in releases ==> Agree(cuda, x, y)
  }

  ghost predicate SourceOf(cuda: string, releases: seq<seq<Wheel>>, n: string, x: seq<Wheel>) {
    x in releases && n in Added(cuda, x)
  }

  lemma {:induction false} AddedAllAt(cuda: string, releases: seq<seq<Wheel>>, n: string)
    ensures forall x :: SourceOf(cuda, releases, n, x) ==> n in AddedAll(cuda, releases)
    ensures n in AddedAll(cuda, releases) ==>
      exists x :: SourceOf(cuda, releases, n, x) && AddedAll(cuda, releases)[n] == Added(cuda, x)[n]
  {
    hide Added;
    if releases != [] {
      var k := |releases| - 1;
      var front, last := releases[..k], releases[k];
      AddedAllAt(cuda, front, n);
      assert last in releases && forall x :: x in releases <==> x in front || x == last;
      if n in Added(cuda, last) {
        assert SourceOf(cuda, releases, n, last);
      } else if n in AddedAll(cuda, front) {
        var x :| SourceOf(cuda, front, n, x) && AddedAll(cuda, front)[n] == Added(cuda, x)[n];
        assert SourceOf(cuda, releases, n, x);
      }
      forall x | SourceOf(cuda, releases, n, x) ensures n in AddedAll(cuda, releases) {
        if x != last { assert SourceOf(cuda, front, n, x); }
      }
    }
  }

  lemma ReorderedFilesNoMore(cuda: string, a: seq<seq<Wheel>>, b: seq<seq<Wheel>>, n: string)
    requires AllAgree(cuda, a) && multiset(a) == multiset(b) && n in AddedAll(cuda, a)
    ensures n in AddedAll(cuda, b) && AddedAll(cuda, b)[n] == AddedAll(cuda, a)[n]
  {
    hide Added, AddedAll;
    AddedAllAt(cuda, a, n);
    AddedAllAt(cuda, b, n);
    var x :| SourceOf(cuda, a, n, x) && AddedAll(cuda, a)[n] == Added(cuda, x)[n];
    assert x in multiset(a);
    assert SourceOf(cuda, b, n, x);
    var y :| SourceOf(cuda, b, n, y) && AddedAll(cuda, b)[n] == Added(cuda, y)[n];
    assert y in multiset(b);
    assert Agree(cuda, x, y);
  }

  lemma ReorderedFilesTheSame(cuda: string, a: seq<seq<Wheel>>, b: seq<seq<Wheel>>)
    requires AllAgree(cuda, a) && AllAgree(cuda, b) && multiset(a) == multiset(b)
    ensures AddedAll(cuda, a) == AddedAll(cuda, b)
  {
    hide AddedAll, AllAgree;
    forall n | n in AddedAll(cuda, a) ensures n in AddedAll(cuda, b) && AddedAll(cuda, b)[n] == AddedAll(cuda, a)[n] {
      ReorderedFilesNoMore(cuda, a, b, n);
    }
    forall n | n in AddedAll(cuda, b) ensures n in AddedAll(cuda, a) { ReorderedFilesNoMore(cuda, b, a, n); }
  }

  lemma OrderDoesNotMatter(cuda: string, start: Option<string>, a: seq<seq<Wheel>>, b: seq<seq<Wheel>>)
    requires GoodReleases(a) && AllAgree(cuda, a) && multiset(a) == multiset(b)
    ensures IndexAfter(cuda, start, a) == IndexAfter(cuda, start, b)
  {
    hide Render, Read, AddedAll, Added, GoodRelease, Agree, Updated;
    SameElements(a, b);
    IndexIsUnion(cuda, start, a);
    IndexIsUnion(cuda, start, b);
    ReorderedFilesTheSame(cuda, a, b);
  }

  lemma SameElements(a: seq<seq<Wheel>>, b: seq<seq<Wheel>>)
    requires multiset(a) == multiset(b)
    ensures |a| == |b| && forall x :: x in a <==> x in b
  {
    assert |multiset(a)| == |a| && |multiset(b)| == |b|;
    forall x ensures x in a <==> x in b { assert x in multiset(a) <==> x in multiset(b); }
  }

  /** The history with one of its updates moved to the end. */
  lemma MovedLast(cuda: string, start: Option<string>, releases: seq<seq<Wheel>>, x: seq<Wheel>, n: string)
    returns (moved: seq<seq<Wheel>>)
    requires GoodReleases(releases) && x in releases && n in Added(cuda, x)
    ensures multiset(moved) == multiset(releases) && GoodReleases(moved) && moved != []
    ensures n in AddedAll(cuda, moved) && AddedAll(cuda, moved)[n] == Added(cuda, x)[n]
  {
    var i :| 0 <= i < |releases| && releases[i] == x;
    moved := RemoveAt(releases, i) + [x];
    assert releases == releases[..i] + [x] + releases[i + 1..];
    assert moved[..|moved| - 1] == RemoveAt(releases, i);
    SameElements(moved, releases);
  }

  /** All orders of the updates give the same page exactly if no two of them file one name with different anchors. */
  lemma OrderDoesNotMatterIff(cuda: string, start: Option<string>, releases: seq<seq<Wheel>>)
    requires GoodReleases(releases)
    ensures (forall other :: multiset(other) == multiset(releases) ==>
               IndexAfter(cuda, start, other) == IndexAfter(cuda, start, releases))
       <==> AllAgree(cuda, releases)
  {
    hide Agree, Added, GoodRelease, GoodReleases, IndexAfter;
    if AllAgree(cuda, releases) {
      forall other | multiset(other) == multiset(releases)
        ensures IndexAfter(cuda, start, other) == IndexAfter(cuda, start, releases)
      {
        OrderDoesNotMatter(cuda, start, releases, other);
      }
    } else {
      var x, y :| x in releases && y in releases && !Agree(cuda, x, y);
      TwoOrdersDiffer(cuda, start, releases, x, y);
    }
  }

  lemma TwoOrdersDiffer(cuda: string, start: Option<string>, releases: seq<seq<Wheel>>, x: seq<Wheel>, y: seq<Wheel>)
    requires GoodReleases(releases) && x in releases && y in releases && !Agree(cuda, x, y)
    ensures exists other ::
      multiset(other) == multiset(releases) && IndexAfter(cuda, start, other) != IndexAfter(cuda, start, releases)
  {
    var n :| n in Added(cuda, x) && n in Added(cuda, y) && Added(cuda, x)[n] != Added(cuda, y)[n];
    hide Added, GoodRelease, AddedAll, Render, Read;
    var a := MovedLast(cuda, start, releases, x, n);
    var b := MovedLast(cuda, start, releases, y, n);
    IndexIsUnion(cuda, start, a);
    IndexIsUnion(cuda, start, b);
    var ma, mb := Read(start) + AddedAll(cuda, a), Read(start) + AddedAll(cuda, b);
    assert ma[n] != mb[n];
    if Render(ma) == Render(mb) { RenderIsInjective(ma, mb); }
  }
}
