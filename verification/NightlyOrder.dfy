/** In which order the nightly index lists its wheels, and when that is the order of their commit counts. */
module NightlyOrder {
  import opened Prelude
  import opened WheelLinks
  import opened NightlyIndex

  predicate Has(wheels: seq<Wheel>, name: string) {
    exists i :: 0 <= i < |wheels| && wheels[i].name == name
  }

  /** The newest update of a history that has a wheel of that name, or -1. */
  function Source(history: seq<seq<Wheel>>, name: string): (k: int)
    ensures -1 <= k < |history|
    ensures k >= 0 ==> Has(history[k], name)
    ensures forall i :: k < i < |history| ==> !Has(history[i], name)
  {
    if history == [] then -1
    else if Has(history[|history| - 1], name) then |history| - 1
    else Source(history[..|history| - 1], name)
  }

  /** The lines whose names are not among `names`. */
  function Without(lines: seq<string>, names: set<string>): seq<string> {
    if lines == [] then [] else
    var front, x := lines[..|lines| - 1], lines[|lines| - 1];
    if FileName(x).Some? && FileName(x).value !in names then Without(front, names) + [x] else Without(front, names)
  }

  lemma WithoutPush(lines: seq<string>, x: string, names: set<string>)
    ensures Without(lines + [x], names) ==
      if FileName(x).Some? && FileName(x).value !in names then Without(lines, names) + [x] else Without(lines, names)
  {
    assert (lines + [x])[..|lines|] == lines;
  }

  /** New lines come first, then what they do not supersede. */
  lemma {:induction false} DedupOfBoth(a: seq<string>, b: seq<string>)
    ensures Dedup(a + b) == Dedup(a) + Without(Dedup(b), Names(a))
  {
    if b == [] {
      assert a + b == a && Dedup(b) == [];
    } else {
      hide FileName, Dedup, Without, Names;
      var n := |b| - 1;
      var front, x := b[..n], b[n];
      DedupOfBoth(a, front);
      NamesConcat(a, front);
      assert b == front + [x] && a + b == (a + front) + [x];
      NamesPush(front, x);
      NamesPush(a + front, x);
      WithoutPush(Dedup(front), x, Names(a));
      LastOfThree(Dedup(a), Without(Dedup(front), Names(a)), x);
    }
  }

  /** The newest update with a wheel of the line's name. */
  function Rank(history: seq<seq<Wheel>>, line: string): int {
    if FileName(line).Some? then Source(history, FileName(line).value) else -1
  }

  /** The lines are listed from the newest source to the oldest. */
  ghost predicate NewestFirst(history: seq<seq<Wheel>>, lines: seq<string>) {
    forall i, j :: 0 <= i < j < |lines| ==> Rank(history, lines[i]) >= Rank(history, lines[j])
  }

  lemma {:induction false} WithoutSelects(lines: seq<string>, names: set<string>)
    ensures forall x :: x in Without(lines, names) ==> x in lines && FileName(x).Some? && FileName(x).value !in names
  {
    hide FileName;
    if lines != [] {
      var n := |lines| - 1;
      WithoutSelects(lines[..n], names);
      assert lines[n] in lines && forall x :: x in lines[..n] ==> x in lines;
    }
  }

  lemma NewestFirstPush(history: seq<seq<Wheel>>, lines: seq<string>, x: string)
    requires NewestFirst(history, lines) && forall l :: l in lines ==> Rank(history, l) >= Rank(history, x)
    ensures NewestFirst(history, lines + [x])
  {
    hide Rank;
    assert forall i :: 0 <= i < |lines| ==> lines[i] in lines;
  }

  lemma {:induction false} WithoutKeepsOrder(history: seq<seq<Wheel>>, lines: seq<string>, names: set<string>)
    requires NewestFirst(history, lines)
    ensures NewestFirst(history, Without(lines, names))
  {
    if lines != [] {
      hide FileName, Rank;
      var n := |lines| - 1;
      WithoutKeepsOrder(history, lines[..n], names);
      WithoutSelects(lines[..n], names);
      var front := Without(lines[..n], names);
      forall l | l in front ensures Rank(history, l) >= Rank(history, lines[n]) {
        assert l in lines[..n];
        var k :| 0 <= k < n && lines[k] == l;
      }
      NewestFirstPush(history, front, lines[n]);
    }
  }

  lemma LinksHaveNames(wheels: seq<Wheel>, name: string)
    requires GoodWheels(wheels)
    ensures forall i :: 0 <= i < |wheels| ==> FileName(NewLinks(wheels)[i]) == Some(wheels[i].name)
    ensures name in Names(NewLinks(wheels)) <==> Has(wheels, name)
  {
    var links := NewLinks(wheels);
    forall i | 0 <= i < |wheels| ensures FileName(links[i]) == Some(wheels[i].name) {
      NameInLink(wheels[i].url, wheels[i].name);
    }
    hide FileName;
    if name in Names(links) { var j := NameIsSomewhere(links, name); }
  }

  lemma {:induction false} DedupIsNamed(lines: seq<string>, i: nat)
    requires i < |Dedup(lines)|
    ensures FileName(Dedup(lines)[i]).Some? && FileName(Dedup(lines)[i]).value in Names(lines)
  {
    hide FileName;
    DedupSpec(lines);
    DedupKeepsNames(lines);
  }

  lemma {:induction false} PageIsNewestFirst(history: seq<seq<Wheel>>, before: seq<string>)
    requires GoodHistory(history)
    ensures NewestFirst(history, Dedup(Published(history, before)))
  {
    if history != [] {
      var n := |history| - 1;
      var front, newest := history[..n], NewLinks(history[n]);
      PageIsNewestFirst(front, before);
      var earlier := Dedup(Published(front, before));
      DedupOfBoth(newest, Published(front, before));
      var first, rest := Dedup(newest), Without(earlier, Names(newest));
      WithoutKeepsOrder(front, earlier, Names(newest));
      WithoutSelects(earlier, Names(newest));
      hide FileName, Dedup, Without, Names;
      forall i | 0 <= i < |first| ensures Rank(history, first[i]) == n {
        DedupIsNamed(newest, i);
        LinksHaveNames(history[n], FileName(first[i]).value);
      }
      forall i | 0 <= i < |rest| ensures Rank(history, rest[i]) == Rank(front, rest[i]) < n {
        assert rest[i] in rest;
        LinksHaveNames(history[n], FileName(rest[i]).value);
      }
      hide Rank;
    }
  }

  // ---- commit counts --------------------------------------------------------------------------------

  /** The page lists its wheels by descending commit count of the update each listed link comes from; links from before
      the first update have no count and rank last. */
  ghost predicate ByCommitCount(history: seq<seq<Wheel>>, counts: seq<nat>, links: seq<string>)
    requires |counts| == |history|
  {
    forall i, j :: 0 <= i < j < |links| ==> CountOf(history, counts, links[i]) >= CountOf(history, counts, links[j])
  }

  function CountOf(history: seq<seq<Wheel>>, counts: seq<nat>, link: string): int
    requires |counts| == |history|
  {
    if Rank(history, link) >= 0 then counts[Rank(history, link)] else -1
  }

  /** Some wheel of update `k` is not superseded by a later one. */
  ghost predicate Lasts(history: seq<seq<Wheel>>, k: nat) {
    exists name :: Source(history, name) == k
  }

  lemma ListedSomewhere(history: seq<seq<Wheel>>, before: seq<string>, name: string) returns (i: nat)
    requires GoodHistory(history) && Source(history, name) >= 0
    ensures var links := Dedup(Published(history, before)); i < |links| && FileName(links[i]) == Some(name)
  {
    var k := Source(history, name);
    var w :| 0 <= w < |history[k]| && history[k][w].name == name;
    PublishedHas(history, before, k, w);
    DedupKeepsNames(Published(history, before));
    i := NameIsSomewhere(Dedup(Published(history, before)), name);
  }

  /** Every two updates with a wheel still listed came in the order of their commit counts. */
  ghost predicate LastingAscend(history: seq<seq<Wheel>>, counts: seq<nat>)
    requires |counts| == |history|
  {
    forall i, j :: 0 <= i < j < |history| && Lasts(history, i) && Lasts(history, j) ==> counts[i] <= counts[j]
  }

  lemma LowerIsOlder(history: seq<seq<Wheel>>, counts: seq<nat>, links: seq<string>, i: nat, j: nat)
    requires |counts| == |history| && LastingAscend(history, counts) && NewestFirst(history, links) && i < j < |links|
    ensures CountOf(history, counts, links[i]) >= CountOf(history, counts, links[j])
  {
    hide FileName;
    var newer, older := Rank(history, links[i]), Rank(history, links[j]);
    if older >= 0 {
      assert Lasts(history, newer) && Lasts(history, older);
    }
  }

  lemma OlderIsLower(history: seq<seq<Wheel>>, before: seq<string>, counts: seq<nat>, i: nat, j: nat)
    requires GoodHistory(history) && |counts| == |history|
    requires i < j < |history| && Lasts(history, i) && Lasts(history, j)
    requires var links := Dedup(Published(history, before));
      NewestFirst(history, links) && ByCommitCount(history, counts, links)
    ensures counts[i] <= counts[j]
  {
    hide FileName, Dedup, Published;
    var older :| Source(history, older) == i;
    var newer :| Source(history, newer) == j;
    var p := ListedSomewhere(history, before, older);
    var q := ListedSomewhere(history, before, newer);
    assert q < p;
  }

  lemma NoUpdates(links: seq<string>)
    ensures ByCommitCount([], [], links) && LastingAscend([], [])
  {}

  /** The page is in the order of the commit counts exactly if the updates that still have a wheel listed came in that
      order. */
  lemma CommitOrderIff(title: string, start: Option<string>, history: seq<seq<Wheel>>, counts: seq<nat>)
    requires GoodTitle(title) && GoodHistory(history) && |counts| == |history|
    ensures ByCommitCount(history, counts, Existing(After(title, start, history))) <==> LastingAscend(history, counts)
  {
    hide Dedup, Published, After, Existing, NewestFirst, CountOf, Lasts, GoodHistory;
    if history == [] {
      NoUpdates(Existing(After(title, start, history)));
    } else {
      var before := Existing(start);
      IndexIsPublished(title, start, history);
      PageIsNewestFirst(history, before);
      var links := Dedup(Published(history, before));
      if LastingAscend(history, counts) {
        forall i, j | 0 <= i < j < |links|
          ensures CountOf(history, counts, links[i]) >= CountOf(history, counts, links[j])
        {
          LowerIsOlder(history, counts, links, i, j);
        }
      }
      if ByCommitCount(history, counts, links) {
        forall i, j | 0 <= i < j < |history| && Lasts(history, i) && Lasts(history, j) ensures counts[i] <= counts[j] {
          OlderIsLower(history, before, counts, i, j);
        }
      }
    }
  }

  /** Updates in ascending order of commit count give the documented order. */
  lemma AscendingUpdates(title: string, start: Option<string>, history: seq<seq<Wheel>>, counts: seq<nat>)
    requires GoodTitle(title) && GoodHistory(history) && |counts| == |history|
    requires forall i, j :: 0 <= i < j < |counts| ==> counts[i] <= counts[j]
    ensures ByCommitCount(history, counts, Existing(After(title, start, history)))
  {
    CommitOrderIff(title, start, history, counts);
  }

  lemma BothLast(history: seq<seq<Wheel>>, a: Wheel, b: Wheel)
    requires |history| == 2 && history[0] == [a] && history[1] == [b] && a.name != b.name
    ensures Lasts(history, 0) && Lasts(history, 1)
  {
    assert history[0][0].name == a.name && history[1][0].name == b.name;
    assert Source(history, a.name) == 0 && Source(history, b.name) == 1;
  }

  /** A late update for an older commit, with a wheel of another name, breaks the documented order. */
  lemma LateUpdateBreaksOrder(title: string, start: Option<string>, a: Wheel, b: Wheel, older: nat, newer: nat)
    requires GoodTitle(title) && GoodWheels([a]) && GoodWheels([b]) && a.name != b.name && older < newer
    ensures !ByCommitCount([[a], [b]], [newer, older], Existing(After(title, start, [[a], [b]])))
  {
    hide After, Existing, ByCommitCount, Lasts, GoodWheels, GoodTitle;
    BothLast([[a], [b]], a, b);
    CommitOrderIff(title, start, [[a], [b]], [newer, older]);
  }
}
