/** The two index updates as a whole: the package page and the root page they rewrite, and the inputs they refuse. */
module IndexUpdates {
  import opened Prelude
  import opened WheelLinks
  import NightlyIndex
  import ReleaseIndex
  import RootPage
  import opened SortedTexts

  datatype Result = Written(page: string, root: string) | NoDirectory | NoWheels | UnsupportedCuda

  function WithPrefix(cuda: string): string { if StartsWith(cuda, "cu") then cuda else "cu" + cuda }

  function Title(cuda: string): string { "<h1>SGLang Nightly Wheels (" + WithPrefix(cuda) + ")</h1>" }

  lemma TitleIsGood(cuda: string)
    requires '\n' !in cuda
    ensures NightlyIndex.GoodTitle(Title(cuda))
  {
    assert '\n' !in "<h1>SGLang Nightly Wheels (" && '\n' !in ")</h1>" && '\n' !in "cu";
    assert Title(cuda)[1] == 'h' && LINK_START[1] == 'a';
  }

  /** Under its own title the page lists, after any updates of any page, everything ever published, newest first, each
      name once. */
  lemma NightlyPageIsPublished(cuda: string, start: Option<string>, history: seq<seq<NightlyIndex.Wheel>>)
    requires '\n' !in cuda && NightlyIndex.GoodHistory(history) && history != []
    ensures NightlyIndex.Existing(NightlyIndex.After(Title(cuda), start, history))
         == NightlyIndex.Dedup(NightlyIndex.Published(history, NightlyIndex.Existing(start)))
  {
    TitleIsGood(cuda);
    NightlyIndex.IndexIsPublished(Title(cuda), start, history);
  }

  // ---- where the nightly wheels are downloaded from -----------------------------------------------

  /** A wheel found in the directory: its file name and the digest of its contents. */
  datatype File = File(name: string, digest: string)

  /** What the update is called with: the commit, the build date (empty if not given) and the accelerator version. */
  datatype Build = Build(commit: string, date: string, cuda: string)

  function ReleaseTag(b: Build): string {
    if b.date == "" then "nightly-" + b.commit else "nightly-" + b.date + "-" + b.commit
  }

  function WheelOf(b: Build, f: File): NightlyIndex.Wheel {
    NightlyIndex.Wheel(ReleaseIndex.RELEASE_BASE + "/" + ReleaseTag(b) + "/" + f.name + "#sha256=" + f.digest, f.name)
  }

  function WheelsOf(b: Build, files: seq<File>): (wheels: seq<NightlyIndex.Wheel>)
    ensures |wheels| == |files| && forall i :: 0 <= i < |files| ==> wheels[i] == WheelOf(b, files[i])
  {
    seq(|files|, i requires 0 <= i < |files| => WheelOf(b, files[i]))
  }

  ghost predicate Plain(s: string) { '>' !in s && '\n' !in s && '"' !in s }

  /** No markup in what the update is called with and finds. */
  ghost predicate GoodBuild(b: Build, files: seq<File>) {
    && Plain(b.commit) && Plain(b.date) && '\n' !in b.cuda
    && forall i :: 0 <= i < |files| ==> WellNamed(files[i].name) && Plain(files[i].name) && Plain(files[i].digest)
  }

  lemma PlainConcat(a: string, b: string)
    ensures Plain(a + b) <==> Plain(a) && Plain(b)
  {
    assert forall c :: c in a + b <==> c in a || c in b;
  }

  lemma PiecesArePlain()
    ensures Plain("/") && Plain("-") && Plain("nightly-") && Plain("#sha256=")
  {}

  lemma TagIsPlain(b: Build)
    requires Plain(b.commit) && Plain(b.date)
    ensures Plain(ReleaseTag(b))
  {
    hide Plain;
    PiecesArePlain();
    PlainConcat("nightly-", b.commit);
    PlainConcat("nightly-", b.date);
    PlainConcat("nightly-" + b.date, "-");
    PlainConcat("nightly-" + b.date + "-", b.commit);
  }

  lemma BaseOpensNothing()
    ensures '>' !in ReleaseIndex.RELEASE_BASE
  {
    assert '>' !in "https://github.com/" && '>' !in "sgl-project/whl/" && '>' !in "releases/download";
  }

  lemma BaseIsPlain()
    ensures Plain(ReleaseIndex.RELEASE_BASE)
  {
    ReleaseIndex.BaseIsPlain();
    BaseOpensNothing();
  }

  lemma WheelIsGood(b: Build, f: File)
    requires Plain(b.commit) && Plain(b.date) && Plain(f.name) && Plain(f.digest)
    ensures Plain(WheelOf(b, f).url)
  {
    hide Plain, ReleaseTag;
    TagIsPlain(b);
    BaseIsPlain();
    PiecesArePlain();
    var base, tag := ReleaseIndex.RELEASE_BASE, ReleaseTag(b);
    PlainConcat(base, "/");
    PlainConcat(base + "/", tag);
    PlainConcat(base + "/" + tag, "/");
    PlainConcat(base + "/" + tag + "/", f.name);
    PlainConcat(base + "/" + tag + "/" + f.name, "#sha256=");
    PlainConcat(base + "/" + tag + "/" + f.name + "#sha256=", f.digest);
  }

  /** The address of a file under the tag of the build, whose date may be missing. */
  ghost predicate Downloads(url: string, b: Build, f: File) {
    url == "https://github.com/" + "sgl-project/whl/" + "releases/download" + "/" + "nightly-"
         + (if b.date == "" then b.commit else b.date + "-" + b.commit) + "/" + f.name + "#sha256=" + f.digest
  }

  lemma WheelDownloads(b: Build, f: File)
    ensures Downloads(WheelOf(b, f).url, b, f)
  {
    var base, rest := ReleaseIndex.RELEASE_BASE, if b.date == "" then b.commit else b.date + "-" + b.commit;
    assert ReleaseTag(b) == "nightly-" + rest;
    assert base + "/" + ("nightly-" + rest) == base + "/" + "nightly-" + rest;
  }

  /** The page lists the file once, with the address it is downloaded from. */
  ghost predicate Lists(page: string, b: Build, f: File) {
    var links := NightlyIndex.ReadLinks(page);
    exists j: nat :: NightlyIndex.ListedOnce(links, f.name, j)
      && UrlOf(links[j]).Some? && Downloads(UrlOf(links[j]).value, b, f)
  }

  ghost predicate FirstOfName(files: seq<File>, i: nat) {
    i < |files| && forall j :: 0 <= j < i ==> files[j].name != files[i].name
  }

  lemma FilesAreListed(b: Build, files: seq<File>, page: Option<string>, i: nat)
    requires GoodBuild(b, files) && FirstOfName(files, i)
    ensures var links := NightlyIndex.NewLinks(WheelsOf(b, files)) + NightlyIndex.Existing(page);
      Lists(NightlyIndex.Page(Title(b.cuda), NightlyIndex.Dedup(links)), b, files[i])
  {
    TitleIsGood(b.cuda);
    var wheels, name := WheelsOf(b, files), files[i].name;
    forall k | 0 <= k < |files| ensures Plain(WheelOf(b, files[k]).url) { WheelIsGood(b, files[k]); }
    assert NightlyIndex.GoodHistory([wheels]);
    assert NightlyIndex.Newest([wheels], name, 0, i);
    WheelDownloads(b, files[i]);
    assert wheels[i] == WheelOf(b, files[i]) && Plain(wheels[i].url);
    hide *;
    NightlyIndex.NothingLostNewestWins(Title(b.cuda), page, [wheels], name, 0, i);
    ListedAfterOne(b, wheels, page, i, files[i]);
  }

  lemma ListedAfterOne(b: Build, wheels: seq<NightlyIndex.Wheel>, page: Option<string>, i: nat, f: File)
    requires NightlyIndex.Newest([wheels], f.name, 0, i) && i < |wheels|
    requires '"' !in wheels[i].url && Downloads(wheels[i].url, b, f)
    requires var links := NightlyIndex.Existing(NightlyIndex.After(Title(b.cuda), page, [wheels]));
      exists j: nat :: NightlyIndex.ListedOnce(links, f.name, j)
        && NightlyIndex.LinksNewest([wheels], f.name, links[j])
    ensures var links := NightlyIndex.NewLinks(wheels) + NightlyIndex.Existing(page);
      Lists(NightlyIndex.Page(Title(b.cuda), NightlyIndex.Dedup(links)), b, f)
  {
    hide NightlyIndex.Newest, NightlyIndex.ReadLinks, NightlyIndex.Page, NightlyIndex.Dedup, Downloads, UrlOf, Title;
    assert [wheels][..0] == [];
    var links := NightlyIndex.Existing(NightlyIndex.After(Title(b.cuda), page, [wheels]));
    var j: nat :| NightlyIndex.ListedOnce(links, f.name, j) && NightlyIndex.LinksNewest([wheels], f.name, links[j]);
    assert UrlOf(links[j]) == Some([wheels][0][i].url);
  }

  ghost predicate ListsAll(page: string, b: Build, files: seq<File>) {
    forall i: nat :: FirstOfName(files, i) ==> Lists(page, b, files[i])
  }

  lemma AllFilesAreListed(b: Build, files: seq<File>, page: Option<string>)
    requires GoodBuild(b, files)
    ensures var links := NightlyIndex.NewLinks(WheelsOf(b, files)) + NightlyIndex.Existing(page);
      ListsAll(NightlyIndex.Page(Title(b.cuda), NightlyIndex.Dedup(links)), b, files)
  {
    hide GoodBuild, Lists, NightlyIndex.Page, NightlyIndex.Dedup, NightlyIndex.Existing, WheelOf, Title;
    var links := NightlyIndex.NewLinks(WheelsOf(b, files)) + NightlyIndex.Existing(page);
    forall i: nat | FirstOfName(files, i)
      ensures Lists(NightlyIndex.Page(Title(b.cuda), NightlyIndex.Dedup(links)), b, files[i])
    {
      FilesAreListed(b, files, page, i);
    }
  }

  lemma TitleShowsPrefix(cuda: string)
    ensures Title(cuda) == "<h1>SGLang Nightly Wheels (" + (if "cu" <= cuda then cuda else "cu" + cuda) + ")</h1>"
  {}

  lemma PageInLines(title: string, links: seq<string>)
    requires '\n' !in title && links != [] && NightlyIndex.LinkList(links)
    ensures Lines(NightlyIndex.Page(title, links)) == ["<!DOCTYPE html>", title] + links + [""]
  {
    hide Lines, Join, StartsWith;
    NightlyIndex.BoilerplateIsNoLink();
    JoinSplits(links);
    NightlyIndex.PageLines(DOCTYPE, title, Join(links));
    InOneList(DOCTYPE, title, links);
  }

  lemma InOneList(first: string, second: string, links: seq<string>)
    ensures [first] + ([second] + (links + [""])) == [first, second] + links + [""]
  {}

  /** A nightly page: the document type, the title with the accelerator version, the links, and an empty line. */
  lemma NightlyPageLayout(cuda: string, links: seq<string>)
    requires '\n' !in cuda && links != [] && NightlyIndex.LinkList(links)
    ensures Lines(NightlyIndex.Page(Title(cuda), links)) ==
      ["<!DOCTYPE html>",
       "<h1>SGLang Nightly Wheels (" + (if "cu" <= cuda then cuda else "cu" + cuda) + ")</h1>"] + links + [""]
  {
    TitleIsGood(cuda);
    TitleShowsPrefix(cuda);
    hide Title, StartsWith;
    PageInLines(Title(cuda), links);
  }

  /** The nightly update; without a directory or without wheels it is an error and writes nothing. */
  method UpdateNightly(b: Build, dist: Option<seq<File>>, page: Option<string>, root: Option<string>)
    returns (r: Result)
    ensures r.NoDirectory? <==> dist.None?
    ensures r.NoWheels? <==> dist == Some([])
    ensures r.Written? <==> dist.Some? && dist.value != []
    ensures r.Written? ==>
      && r.root == RootPage.NightlyRoot(RootPage.Content(root))
      && var links := NightlyIndex.NewLinks(WheelsOf(b, dist.value)) + NightlyIndex.Existing(page);
         r.page == NightlyIndex.Page(Title(b.cuda), NightlyIndex.Dedup(links))
    ensures r.Written? && GoodBuild(b, dist.value) ==>
      ListsAll(r.page, b, dist.value)
  {
    hide ListsAll, GoodBuild, NightlyIndex.Page, NightlyIndex.Dedup, Title, NightlyIndex.ReadLinks, WheelOf;
    hide RootPage.NightlyRoot, RootPage.Content;
    if dist.None? {
      return NoDirectory;
    }
    var existingLinks := if page.Some? then NightlyIndex.ReadLinks(page.value) else [];
    var newLinks := NightlyIndex.LinkWheels(WheelsOf(b, dist.value));
    if newLinks == [] {
      return NoWheels;
    }
    var unique := NightlyIndex.DedupLinks(newLinks + existingLinks);
    var rootText := RootPage.WriteNightlyRoot(root);
    r := Written(NightlyIndex.Page(Title(b.cuda), unique), rootText);
    if GoodBuild(b, dist.value) { AllFilesAreListed(b, dist.value, page); }
  }

  /** The release update; an unsupported accelerator version is an error and writes nothing. */
  method UpdateRelease(cuda: string, wheels: seq<ReleaseIndex.Wheel>, page: Option<string>, root: Option<string>)
    returns (r: Result)
    ensures r.UnsupportedCuda? <==> cuda != "129" && cuda != "130"
    ensures r.Written? <==> cuda == "129" || cuda == "130"
    ensures r.Written? ==>
      && r.page == ReleaseIndex.Updated(cuda, page, wheels)
      && r.root == RootPage.ReleaseRoot(RootPage.Content(root))
  {
    hide ReleaseIndex.Read, ReleaseIndex.Added, RootPage.ReleaseRoot, RootPage.Content, SortSet, ReleaseIndex.Page;
    if cuda !in ReleaseIndex.SUPPORTED_CUDA_VERSIONS {
      return UnsupportedCuda;
    }
    var rootText := RootPage.WriteReleaseRoot(root);
    var entries := ReleaseIndex.FileWheels(cuda, ReleaseIndex.Read(page), wheels);
    var names := Sort(entries.Keys);
    var lines := [];
    for i := 0 to |names|
      invariant |lines| == i && forall j :: 0 <= j < i ==> names[j] in entries && lines[j] == entries[names[j]]
    {
      assert names[i] in names;
      lines := lines + [entries[names[i]]];
    }
    assert lines == ReleaseIndex.SortedLines(entries, names);
    r := Written(ReleaseIndex.Page(lines), rootText);
  }
}
