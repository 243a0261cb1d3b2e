/** The nightly wheel index: read, put new links first, drop superseded ones, write. */
module NightlyIndex {
  import opened Prelude
  import opened WheelLinks

  // ---- de-duplication -----------------------------------------------------------------------------

  /** The file names that occur in a list of lines. */
  function Names(lines: seq<string>): (names: set<string>)
    ensures forall i :: 0 <= i < |lines| && FileName(lines[i]).Some? ==> FileName(lines[i]).value in names
  {
    if lines == [] then {} else
    Names(lines[..|lines| - 1]) + match FileName(lines[|lines| - 1]) case Some(n) => {n} case None => {}
  }

  /** Keeps the first line for each file name, in order; lines without one are dropped. */
  function Dedup(lines: seq<string>): seq<string> {
    if lines == [] then [] else
    var front, x := lines[..|lines| - 1], lines[|lines| - 1];
    if FileName(x).Some? && FileName(x).value !in Names(front) then Dedup(front) + [x] else Dedup(front)
  }

  /** The loop with its set of seen names. */
  method DedupLinks(lines: seq<string>) returns (unique: seq<string>)
    ensures unique == Dedup(lines)
  {
    var seen: set<string> := {};
    unique := [];
    for i := 0 to |lines|
      invariant seen == Names(lines[..i]) && unique == Dedup(lines[..i])
    {
      assert lines[..i + 1][..i] == lines[..i];
      var name := FileName(lines[i]);
      if name.Some? {
        if name.value !in seen {
          seen := seen + {name.value};
          unique := unique + [lines[i]];
        }
      }
    }
    assert lines[..|lines|] == lines;
  }

  lemma NamesPush(lines: seq<string>, x: string)
    ensures Names(lines + [x]) == Names(lines) + match FileName(x) case Some(n) => {n} case None => {}
    ensures Dedup(lines + [x]) ==
      if FileName(x).Some? && FileName(x).value !in Names(lines) then Dedup(lines) + [x] else Dedup(lines)
  {
    assert (lines + [x])[..|lines|] == lines;
  }

  lemma {:induction false} NamesConcat(a: seq<string>, b: seq<string>)
    ensures Names(a + b) == Names(a) + Names(b)
  {
    hide FileName;
    if b == [] {
      assert a + b == a;
    } else {
      var n := |b| - 1;
      NamesConcat(a, b[..n]);
      assert b == b[..n] + [b[n]] && a + b == (a + b[..n]) + [b[n]];
      NamesPush(b[..n], b[n]);
      NamesPush(a + b[..n], b[n]);
    }
  }

  /** No file name is lost. */
  lemma {:induction false} DedupKeepsNames(lines: seq<string>)
    ensures Names(Dedup(lines)) == Names(lines)
  {
    hide FileName;
    if lines != [] {
      var n := |lines| - 1;
      DedupKeepsNames(lines[..n]);
      NamesPush(Dedup(lines[..n]), lines[n]);
    }
  }

  lemma LastOfThree(a: seq<string>, b: seq<string>, x: string)
    ensures (a + b) + [x] == a + (b + [x])
  {}

  /** De-duplicating an old list before putting new lines in front of it changes nothing. */
  lemma {:induction false} DedupAbsorbs(a: seq<string>, b: seq<string>)
    ensures Dedup(a + Dedup(b)) == Dedup(a + b)
  {
    if b != [] {
      hide FileName, Dedup, Names;
      var n := |b| - 1;
      var front, x := b[..n], b[n];
      DedupAbsorbs(a, front);
      DedupKeepsNames(front);
      NamesConcat(a, front);
      NamesConcat(a, Dedup(front));
      assert b == front + [x] && a + b == (a + front) + [x];
      NamesPush(front, x);
      NamesPush(a + front, x);
      NamesPush(a + Dedup(front), x);
      LastOfThree(a, Dedup(front), x);
    }
  }

  /** The first line with a file name. */
  function FirstWith(lines: seq<string>, name: string): Option<string> {
    if lines == [] then None
    else if FirstWith(lines[..|lines| - 1], name).Some? then FirstWith(lines[..|lines| - 1], name)
    else if FileName(lines[|lines| - 1]) == Some(name) then Some(lines[|lines| - 1])
    else None
  }

  lemma {:induction false} FirstWithNames(lines: seq<string>, name: string)
    ensures FirstWith(lines, name).Some? <==> name in Names(lines)
    ensures FirstWith(lines, name).Some? ==> FileName(FirstWith(lines, name).value) == Some(name)
  {
    hide FileName;
    if lines != [] { FirstWithNames(lines[..|lines| - 1], name); }
  }

  /** `sub` is what remains of `lines` after leaving some out, in the same order. */
  ghost predicate Subsequence(sub: seq<string>, lines: seq<string>) {
    if sub == [] then true
    else lines != [] && (Subsequence(sub, lines[..|lines| - 1])
         || (sub[|sub| - 1] == lines[|lines| - 1] && Subsequence(sub[..|sub| - 1], lines[..|lines| - 1])))
  }

  /** Each kept line is the first one with its file name, no name is kept twice, and the order is that of the list. */
  lemma {:induction false} DedupSpec(lines: seq<string>)
    ensures Subsequence(Dedup(lines), lines)
    ensures forall i :: 0 <= i < |Dedup(lines)| ==>
      FileName(Dedup(lines)[i]).Some? && FirstWith(lines, FileName(Dedup(lines)[i]).value) == Some(Dedup(lines)[i])
    ensures forall i, j :: 0 <= i < j < |Dedup(lines)| ==> FileName(Dedup(lines)[i]) != FileName(Dedup(lines)[j])
  {
    hide FileName;
    if lines != [] {
      var n := |lines| - 1;
      var front, x := lines[..n], lines[n];
      DedupSpec(front);
      DedupKeepsNames(front);
      if FileName(x).Some? {
        FirstWithNames(front, FileName(x).value);
      }
    }
  }

  // ---- the page -----------------------------------------------------------------------------------

  function Page(title: string, links: seq<string>): string {
    DOCTYPE + "\n" + (title + "\n" + (Join(links) + "\n"))
  }

  function LinkLines(lines: seq<string>): (links: seq<string>)
    ensures forall l :: l in links ==> l in lines && StartsWith(l, LINK_START)
  {
    if lines == [] then [] else
    LinkLines(lines[..|lines| - 1]) + if StartsWith(lines[|lines| - 1], LINK_START) then [lines[|lines| - 1]] else []
  }

  function ReadLinks(page: string): seq<string> { LinkLines(Lines(page)) }

  ghost predicate LinkList(links: seq<string>) {
    forall l :: l in links ==> StartsWith(l, LINK_START) && '\n' !in l
  }

  lemma {:induction false} LinkLinesConcat(a: seq<string>, b: seq<string>)
    ensures LinkLines(a + b) == LinkLines(a) + LinkLines(b)
  {
    hide StartsWith;
    if b == [] {
      assert a + b == a;
    } else {
      var n := |b| - 1;
      assert (a + b)[..|a + b| - 1] == a + b[..n];
      LinkLinesConcat(a, b[..n]);
    }
  }

  lemma {:induction false} LinkLinesAll(links: seq<string>)
    requires LinkList(links)
    ensures LinkLines(links) == links
  {
    hide StartsWith;
    if links != [] {
      var n := |links| - 1;
      var front, last := links[..n], links[n];
      assert last in links;
      LinkLinesAll(front);
      assert LinkLines(links) == LinkLines(front) + [last];
      assert links == front + [last];
    }
  }

  lemma NotALink(s: string)
    requires !StartsWith(s, LINK_START)
    ensures LinkLines([s]) == []
  {
    assert [s][..0] == [];
  }

  lemma BoilerplateIsNoLink()
    ensures '\n' !in DOCTYPE
    ensures LinkLines([DOCTYPE]) == [] && LinkLines([[]]) == []
  {
    assert DOCTYPE[1] == '!' && LINK_START[1] == 'a';
    NotALink(DOCTYPE);
    NotALink([]);
  }

  lemma PageLines(doctype: string, title: string, body: string)
    requires '\n' !in title && '\n' !in doctype
    ensures Lines(doctype + "\n" + (title + "\n" + (body + "\n"))) == [doctype] + ([title] + (Lines(body) + [[]]))
  {
    hide Lines;
    LinesSplit(doctype, title + "\n" + (body + "\n"));
    LinesSplit(title, body + "\n");
    LinesSplit(body, []);
    assert body + "\n" + [] == body + "\n";
    OneLineText(doctype);
    OneLineText(title);
    OneLineText([]);
  }

  /** Reading a written page gives back its links. */
  lemma ReadBack(title: string, links: seq<string>)
    requires LinkList(links) && '\n' !in title && !StartsWith(title, LINK_START)
    ensures ReadLinks(Page(title, links)) == links
  {
    NotALink(title);
    hide Lines, LinkLines, StartsWith, Join;
    BoilerplateIsNoLink();
    PageLines(DOCTYPE, title, Join(links));
    var ls := Lines(Join(links));
    LinkLinesConcat([DOCTYPE], [title] + (ls + [[]]));
    LinkLinesConcat([title], ls + [[]]);
    LinkLinesConcat(ls, [[]]);
    LinkLinesOfJoin(links);
  }

  lemma LinkLinesOfJoin(links: seq<string>)
    requires LinkList(links)
    ensures LinkLines(Lines(Join(links))) == links
  {
    if links == [] {
      NotALink([]);
    } else {
      JoinSplits(links);
      LinkLinesAll(links);
    }
  }

  // ---- updates ------------------------------------------------------------------------------------

  datatype Wheel = Wheel(url: string, name: string)

  ghost predicate GoodWheels(wheels: seq<Wheel>) {
    wheels != [] && forall i :: 0 <= i < |wheels| ==> PlainUrl(wheels[i].url) && WellNamed(wheels[i].name)
  }

  function NewLinks(wheels: seq<Wheel>): (links: seq<string>)
    ensures |links| == |wheels|
    ensures forall i :: 0 <= i < |links| ==> links[i] == Link(wheels[i].url, wheels[i].name)
  {
    seq(|wheels|, i requires 0 <= i < |wheels| => Link(wheels[i].url, wheels[i].name))
  }

  /** The links of one update's wheels. */
  method LinkWheels(wheels: seq<Wheel>) returns (links: seq<string>)
    ensures links == NewLinks(wheels)
  {
    links := [];
    for i := 0 to |wheels|
      invariant links == NewLinks(wheels)[..i]
    {
      links := links + [Link(wheels[i].url, wheels[i].name)];
    }
  }

  function Existing(existing: Option<string>): seq<string> {
    if existing.Some? then ReadLinks(existing.value) else []
  }

  /** The page after a history of updates, oldest first, each of which found wheels, from no page or any page at all. */
  function After(title: string, start: Option<string>, history: seq<seq<Wheel>>): Option<string> {
    if history == [] then start else
    var n := |history| - 1;
    Some(Page(title, Dedup(NewLinks(history[n]) + Existing(After(title, start, history[..n])))))
  }

  /** Every link ever published, newest update first, and then the links from before. */
  function Published(history: seq<seq<Wheel>>, before: seq<string>): seq<string> {
    if history == [] then before else NewLinks(history[|history| - 1]) + Published(history[..|history| - 1], before)
  }

  ghost predicate GoodHistory(history: seq<seq<Wheel>>) {
    forall i :: 0 <= i < |history| ==> GoodWheels(history[i])
  }

  ghost predicate GoodTitle(title: string) { '\n' !in title && !StartsWith(title, LINK_START) }

  /** Whatever a page holds, what is read off it are lines that start like a link. */
  lemma ExistingAreLinks(page: Option<string>)
    ensures LinkList(Existing(page))
  {
    if page.Some? { SplitGlues(page.value, '\n'); }
  }

  lemma {:induction false} PublishedAreLinks(history: seq<seq<Wheel>>, before: seq<string>)
    requires GoodHistory(history) && LinkList(before)
    ensures LinkList(Published(history, before))
  {
    if history != [] {
      var n := |history| - 1;
      PublishedAreLinks(history[..n], before);
      var links := NewLinks(history[n]);
      forall l | l in links ensures StartsWith(l, LINK_START) && '\n' !in l {
        var i :| 0 <= i < |links| && links[i] == l;
        NameInLink(history[n][i].url, history[n][i].name);
      }
    }
  }

  lemma {:induction false} DedupIsLinkList(lines: seq<string>)
    requires LinkList(lines)
    ensures LinkList(Dedup(lines))
  {
    hide FileName, StartsWith;
    if lines != [] {
      assert lines[|lines| - 1] in lines;
      DedupIsLinkList(lines[..|lines| - 1]);
    }
  }

  /** After any updates the page lists exactly the de-duplication of everything ever published, newest first, and of
      what the page held before. */
  lemma {:induction false} IndexIsPublished(title: string, start: Option<string>, history: seq<seq<Wheel>>)
    requires GoodTitle(title) && GoodHistory(history) && history != []
    ensures Existing(After(title, start, history)) == Dedup(Published(history, Existing(start)))
  {
    hide FileName, ReadLinks, Page, StartsWith;
    var n := |history| - 1;
    var front, newest, before := history[..n], NewLinks(history[n]), Existing(start);
    if n > 0 {
      IndexIsPublished(title, start, front);
      DedupAbsorbs(newest, Published(front, before));
    }
    ExistingAreLinks(start);
    PublishedAreLinks(history, before);
    DedupIsLinkList(Published(history, before));
    ReadBack(title, Dedup(Published(history, before)));
  }

  /** Wheel `i` of update `k` has the name, and it is the first of that update and of no later one. */
  ghost predicate Newest(history: seq<seq<Wheel>>, name: string, k: nat, i: nat) {
    && k < |history| && i < |history[k]| && history[k][i].name == name
    && (forall j :: 0 <= j < i ==> history[k][j].name != name)
    && (forall m :: k < m < |history| ==> forall j :: 0 <= j < |history[m]| ==> history[m][j].name != name)
  }

  lemma {:induction false} FirstOfBoth(a: seq<string>, b: seq<string>, name: string)
    ensures FirstWith(a + b, name) == if FirstWith(a, name).Some? then FirstWith(a, name) else FirstWith(b, name)
  {
    hide FileName;
    if b == [] {
      assert a + b == a;
    } else {
      var n := |b| - 1;
      FirstOfBoth(a, b[..n], name);
      assert (a + b)[..|a + b| - 1] == a + b[..n];
    }
  }

  lemma {:induction false} FirstIsAt(lines: seq<string>, name: string, i: nat)
    requires i < |lines| && FileName(lines[i]) == Some(name)
    requires forall j :: 0 <= j < i ==> FileName(lines[j]) != Some(name)
    ensures FirstWith(lines, name) == Some(lines[i])
  {
    hide FileName;
    var n := |lines| - 1;
    if i < n { FirstIsAt(lines[..n], name, i); } else { NoneWith(lines[..n], name); }
  }

  lemma {:induction false} NoneWith(lines: seq<string>, name: string)
    requires forall j :: 0 <= j < |lines| ==> FileName(lines[j]) != Some(name)
    ensures FirstWith(lines, name) == None
  {
    hide FileName;
    if lines != [] { NoneWith(lines[..|lines| - 1], name); }
  }

  /** The first line with a name among everything published is the link of the newest wheel of that name. */
  lemma {:induction false} NewestIsFirst(history: seq<seq<Wheel>>, before: seq<string>, name: string, k: nat, i: nat)
    requires GoodHistory(history) && Newest(history, name, k, i)
    ensures FirstWith(Published(history, before), name) == Some(Link(history[k][i].url, name))
  {
    var n := |history| - 1;
    var links := NewLinks(history[n]);
    forall j | 0 <= j < |links| ensures FileName(links[j]) == Some(history[n][j].name) {
      NameInLink(history[n][j].url, history[n][j].name);
    }
    hide FileName, FirstWith;
    FirstOfBoth(links, Published(history[..n], before), name);
    if k == n {
      FirstIsAt(links, name, i);
    } else {
      NoneWith(links, name);
      NewestIsFirst(history[..n], before, name, k, i);
    }
  }

  /** A name that was published has a newest wheel. */
  lemma {:induction false} SomeNewest(history: seq<seq<Wheel>>, name: string, k: nat, i: nat) returns (k': nat, i': nat)
    requires k < |history| && i < |history[k]| && history[k][i].name == name
    ensures Newest(history, name, k', i')
    decreases |history| - k, i
  {
    if m, j :| k < m < |history| && 0 <= j < |history[m]| && history[m][j].name == name {
      k', i' := SomeNewest(history, name, m, j);
    } else if j :| 0 <= j < i && history[k][j].name == name {
      k', i' := SomeNewest(history, name, k, j);
    } else {
      k', i' := k, i;
    }
  }

  /** The name is listed once, in line `j`. */
  ghost predicate ListedOnce(links: seq<string>, name: string, j: nat) {
    && j < |links| && FileName(links[j]) == Some(name)
    && forall i :: 0 <= i < |links| && FileName(links[i]) == Some(name) ==> i == j
  }

  /** If the name was published, the line is the link of its newest wheel and gives back the address of that. */
  ghost predicate LinksNewest(history: seq<seq<Wheel>>, name: string, line: string) {
    forall k: nat, i: nat :: Newest(history, name, k, i) ==>
      var url := history[k][i].url;
      line == Link(url, name) && ('"' !in url ==> UrlOf(line) == Some(url))
  }

  lemma FirstLinksNewest(history: seq<seq<Wheel>>, before: seq<string>, name: string, line: string)
    requires GoodHistory(history) && FirstWith(Published(history, before), name) == Some(line)
    ensures LinksNewest(history, name, line)
  {
    hide Published, FirstWith, Link, UrlOf, Newest, GoodHistory;
    forall k: nat, i: nat | Newest(history, name, k, i)
      ensures k < |history| && i < |history[k]| && line == Link(history[k][i].url, name)
      ensures '"' !in history[k][i].url ==> UrlOf(line) == Some(history[k][i].url)
    {
      NewestInRange(history, name, k, i);
      NewestIsFirst(history, before, name, k, i);
      UrlInLink(history[k][i].url, name);
    }
    hide LinksNewest;
    LinksNewestBy(history, name, line);
  }

  lemma NewestInRange(history: seq<seq<Wheel>>, name: string, k: nat, i: nat)
    requires Newest(history, name, k, i)
    ensures k < |history| && i < |history[k]|
  {}

  lemma LinksNewestBy(history: seq<seq<Wheel>>, name: string, line: string)
    requires forall k: nat, i: nat :: Newest(history, name, k, i) ==>
      && k < |history| && i < |history[k]| && line == Link(history[k][i].url, name)
      && ('"' !in history[k][i].url ==> UrlOf(line) == Some(history[k][i].url))
    ensures LinksNewest(history, name, line)
  {
    hide Newest, Link, UrlOf;
  }

  lemma KeptOnce(lines: seq<string>, name: string) returns (j: nat)
    requires name in Names(lines)
    ensures ListedOnce(Dedup(lines), name, j) && Some(Dedup(lines)[j]) == FirstWith(lines, name)
  {
    hide FileName;
    DedupKeepsNames(lines);
    DedupSpec(lines);
    j := NameIsSomewhere(Dedup(lines), name);
  }

  /** No wheel is lost or listed twice, neither one of the history nor one the page listed before. A name of the history
      is listed with the address of its newest wheel, any name with the first of the links ever published or listed. */
  lemma NothingLostNewestWins(title: string, start: Option<string>, history: seq<seq<Wheel>>, name: string, k: nat,
                              i: nat)
    requires GoodTitle(title) && GoodHistory(history) && history != []
    requires name in Names(Existing(start)) || (k < |history| && i < |history[k]| && history[k][i].name == name)
    ensures var links := Existing(After(title, start, history));
      exists j: nat :: ListedOnce(links, name, j) && LinksNewest(history, name, links[j])
        && Some(links[j]) == FirstWith(Published(history, Existing(start)), name)
    ensures k < |history| && i < |history[k]| && history[k][i].name == name ==>
      exists m: nat, w: nat :: Newest(history, name, m, w)
  {
    var before := Existing(start);
    var lines := Published(history, before);
    if name in Names(before) { PublishedKeeps(history, before, name); } else { PublishedHas(history, before, k, i); }
    if k < |history| && i < |history[k]| && history[k][i].name == name {
      var m, w := SomeNewest(history, name, k, i);
    }
    IndexIsPublished(title, start, history);
    hide Existing, Published, Newest, FirstWith, ListedOnce, LinksNewest, GoodHistory;
    var j := KeptOnce(lines, name);
    InList(Dedup(lines), name, j);
    FirstLinksNewest(history, before, name, Dedup(lines)[j]);
  }

  lemma InList(links: seq<string>, name: string, j: nat)
    requires ListedOnce(links, name, j)
    ensures j < |links|
  {}

  lemma {:induction false} PublishedKeeps(history: seq<seq<Wheel>>, before: seq<string>, name: string)
    requires name in Names(before)
    ensures name in Names(Published(history, before))
  {
    if history != [] {
      hide Names;
      var n := |history| - 1;
      PublishedKeeps(history[..n], before, name);
      NamesConcat(NewLinks(history[n]), Published(history[..n], before));
    }
  }

  lemma {:induction false} NameIsSomewhere(lines: seq<string>, name: string) returns (j: nat)
    requires name in Names(lines)
    ensures j < |lines| && FileName(lines[j]) == Some(name)
  {
    hide FileName;
    var n := |lines| - 1;
    if FileName(lines[n]) == Some(name) { j := n; } else { j := NameIsSomewhere(lines[..n], name); }
  }

  lemma {:induction false} PublishedHas(history: seq<seq<Wheel>>, before: seq<string>, k: nat, i: nat)
    requires GoodHistory(history) && k < |history| && i < |history[k]|
    ensures history[k][i].name in Names(Published(history, before))
  {
    var n := |history| - 1;
    NamesConcat(NewLinks(history[n]), Published(history[..n], before));
    if k == n {
      NameInLink(history[k][i].url, history[k][i].name);
      assert NewLinks(history[k])[i] == Link(history[k][i].url, history[k][i].name);
    } else {
      PublishedHas(history[..n], before, k, i);
    }
  }

  /** Repeating the last update changes nothing. */
  lemma RepeatIsIdle(title: string, start: Option<string>, history: seq<seq<Wheel>>)
    requires GoodTitle(title) && GoodHistory(history) && history != []
    ensures After(title, start, history + [history[|history| - 1]]) == After(title, start, history)
  {
    hide FileName, Dedup, Page, Existing;
    var n := |history| - 1;
    var last := history[n];
    var again, before := history + [last], Existing(start);
    assert again[..|again| - 1] == history;
    IndexIsPublished(title, start, history);
    var newest, earlier := NewLinks(last), Published(history[..n], before);
    DedupAbsorbs(newest, newest + earlier);
    RepeatedFront(newest, earlier);
    if n > 0 {
      IndexIsPublished(title, start, history[..n]);
      DedupAbsorbs(newest, earlier);
    }
  }

  lemma {:induction false} RepeatedFront(a: seq<string>, b: seq<string>)
    ensures Dedup(a + (a + b)) == Dedup(a + b)
  {
    assert a + (a + b) == (a + a) + b;
    SeenAddsNothing(a, a);
    DropSeen(a, a, b);
  }

  /** Lines whose names all came before add nothing. */
  lemma {:induction false} SeenAddsNothing(a: seq<string>, b: seq<string>)
    requires Names(b) <= Names(a)
    ensures Dedup(a + b) == Dedup(a)
  {
    hide FileName;
    if b == [] {
      assert a + b == a;
    } else {
      var n := |b| - 1;
      assert b == b[..n] + [b[n]] && a + b == (a + b[..n]) + [b[n]];
      NamesPush(b[..n], b[n]);
      SeenAddsNothing(a, b[..n]);
      NamesConcat(a, b[..n]);
      NamesPush(a + b[..n], b[n]);
    }
  }

  lemma {:induction false} DropSeen(a: seq<string>, s: seq<string>, b: seq<string>)
    requires Names(s) <= Names(a)
    ensures Dedup((a + s) + b) == Dedup(a + b)
  {
    hide FileName;
    if b == [] {
      assert (a + s) + b == a + s && a + b == a;
      SeenAddsNothing(a, s);
    } else {
      var n := |b| - 1;
      DropSeen(a, s, b[..n]);
      assert b == b[..n] + [b[n]] && a + b == (a + b[..n]) + [b[n]] && (a + s) + b == ((a + s) + b[..n]) + [b[n]];
      NamesConcat(a, b[..n]);
      NamesConcat(a + s, b[..n]);
      NamesConcat(a, s);
      NamesPush(a + b[..n], b[n]);
      NamesPush((a + s) + b[..n], b[n]);
    }
  }
}
