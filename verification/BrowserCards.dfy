/** Package cards: what ListPackages makes of a collection, and that its cards account for exactly
    the packages and versions that GetRepoInfo counts. */
module BrowserCards {
  import opened Text
  import opened Sorting
  import opened VersionOrder
  import opened Stanzas
  import opened BrowserCache
  import opened BrowserViews

  datatype Card = Card(
    name: string, latestVersion: string, architectures: seq<string>, versionCount: nat,
    description: string, maintainer: string, latestSize: int, latestFilename: string, latestSha256: string)

  /** Latest version first. */
  function LatestFirst(a: Stanza, b: Stanza): int {
    CompareVersions(b.control.version, a.control.version)
  }

  lemma LatestFirstIsLegal()
    ensures Legal(LatestFirst)
  {
    forall a: Stanza, b: Stanza ensures LatestFirst(a, b) <= 0 || LatestFirst(b, a) <= 0 {
      CompareSymmetry(a.control.version, b.control.version);
    }
    forall a, b, c | LatestFirst(a, b) <= 0 && LatestFirst(b, c) <= 0 ensures LatestFirst(a, c) <= 0 {
      CompareChain(c.control.version, b.control.version, a.control.version);
    }
  }

  /** The stanzas of one package, in the order collected. */
  function OfPackage(all: seq<Stanza>, name: string): seq<Stanza> {
    if all == [] then []
    else OfPackage(all[..|all| - 1], name) + if all[|all| - 1].control.package == name then [all[|all| - 1]] else []
  }

  ghost predicate Lists(archs: seq<string>, list: seq<Stanza>) {
    && (forall i, j :: 0 <= i < j < |archs| ==> archs[i] != archs[j])
    && (forall a :: a in archs <==> exists s :: s in list && s.control.architecture == a)
  }

  /** The card of a package whose stanzas are list: the latest one first, whichever of equals. */
  ghost predicate IsCard(c: Card, list: seq<Stanza>) {
    exists latest ::
      && latest in list && (forall s :: s in list ==> CompareVersions(s.control.version, latest.control.version) <= 0)
      && c == Card(c.name, latest.control.version, c.architectures, |list|, latest.control.description,
                   latest.control.maintainer, latest.size, latest.filename, latest.sha256)
      && Lists(c.architectures, list)
  }

  predicate Contains(s: string, sub: string) {
    sub <= s || (s != "" && Contains(s[1..], sub))
  }

  predicate Matches(name: string, list: seq<Stanza>, query: string) {
    || query == ""
    || Contains(ToLower(name), query)
    || exists i :: 0 <= i < |list| && Contains(ToLower(list[i].control.description), query)
  }

  predicate StrictlyByName(cards: seq<Card>) {
    forall i, j :: 0 <= i < j < |cards| ==> Compare(cards[i].name, cards[j].name) < 0
  }

  function CardNames(cards: seq<Card>): set<string> {
    set c | c in cards :: c.name
  }

  ghost predicate GoodCard(c: Card, all: seq<Stanza>, query: string) {
    && c.name in PackageNames(all) && IsCard(c, OfPackage(all, c.name))
    && Matches(c.name, OfPackage(all, c.name), query)
  }

  /** What ListPackages returns for a collection. */
  ghost predicate AreCards(cards: seq<Card>, all: seq<Stanza>, query: string) {
    && StrictlyByName(cards)
    && (forall c :: c in cards ==> GoodCard(c, all, query))
    && (forall name :: name in PackageNames(all) && Matches(name, OfPackage(all, name), query) ==>
        name in CardNames(cards))
  }

  // ----- counting -----

  function TotalCount(cards: seq<Card>): nat {
    if cards == [] then 0 else TotalCount(cards[..|cards| - 1]) + cards[|cards| - 1].versionCount
  }

  /** How many stanzas belong to packages of the set. */
  function CountIn(all: seq<Stanza>, names: set<string>): nat {
    if all == [] then 0
    else CountIn(all[..|all| - 1], names) + if all[|all| - 1].control.package in names then 1 else 0
  }

  lemma {:induction false} CountOne(all: seq<Stanza>, names: set<string>, name: string)
    requires name !in names
    ensures CountIn(all, names + {name}) == CountIn(all, names) + |OfPackage(all, name)|
  {
    if all != [] { CountOne(all[..|all| - 1], names, name); }
  }

  lemma {:induction false} CountNone(all: seq<Stanza>)
    ensures CountIn(all, {}) == 0
  {
    if all != [] { CountNone(all[..|all| - 1]); }
  }

  lemma {:induction false} CountAll(all: seq<Stanza>, names: set<string>)
    requires forall s :: s in all ==> s.control.package in names
    ensures CountIn(all, names) == |all|
  {
    if all != [] {
      var front := all[..|all| - 1];
      assert all == front + [all[|all| - 1]];
      CountAll(front, names);
    }
  }

  lemma NamesSnoc(cards: seq<Card>, c: Card)
    requires StrictlyByName(cards + [c])
    ensures StrictlyByName(cards) && CardNames(cards + [c]) == CardNames(cards) + {c.name}
    ensures c.name !in CardNames(cards)
  {
    var all := cards + [c];
    forall i, j | 0 <= i < j < |cards| ensures Compare(cards[i].name, cards[j].name) < 0 {
      assert all[i] == cards[i] && all[j] == cards[j];
    }
    assert c in all;
    forall x | x in cards ensures x.name != c.name {
      var i :| 0 <= i < |cards| && cards[i] == x;
      assert all[i] == x && all[|cards|] == c;
      CompareLaws(x.name, c.name);
    }
  }

  lemma OneMore(names: set<string>, name: string)
    requires name !in names
    ensures |names + {name}| == |names| + 1
  {
  }

  lemma TotalSnoc(cards: seq<Card>, c: Card)
    ensures TotalCount(cards + [c]) == TotalCount(cards) + c.versionCount
  {
    assert (cards + [c])[..|cards|] == cards;
  }

  lemma CountStep(front: seq<Card>, c: Card, all: seq<Stanza>)
    requires StrictlyByName(front + [c]) && c.versionCount == |OfPackage(all, c.name)|
    requires |CardNames(front)| == |front| && TotalCount(front) == CountIn(all, CardNames(front))
    ensures |CardNames(front + [c])| == |front| + 1
    ensures TotalCount(front + [c]) == CountIn(all, CardNames(front + [c]))
  {
    NamesSnoc(front, c);
    CountOne(all, CardNames(front), c.name);
    OneMore(CardNames(front), c.name);
    TotalSnoc(front, c);
  }

  lemma {:induction false} CardsCount(cards: seq<Card>, all: seq<Stanza>)
    requires StrictlyByName(cards) && forall c :: c in cards ==> c.versionCount == |OfPackage(all, c.name)|
    ensures |CardNames(cards)| == |cards| && TotalCount(cards) == CountIn(all, CardNames(cards))
  {
    if cards == [] {
      CountNone(all);
    } else {
      var front, c := cards[..|cards| - 1], cards[|cards| - 1];
      assert front + [c] == cards;
      assert c in cards && forall x :: x in front ==> x in cards;
      CardsCount(front, all);
      CountStep(front, c, all);
    }
  }

  lemma AllPackagesHaveCards(cards: seq<Card>, all: seq<Stanza>)
    requires AreCards(cards, all, "")
    ensures CardNames(cards) == PackageNames(all)
  {
    forall n | n in CardNames(cards) ensures n in PackageNames(all) {
      var c :| c in cards && c.name == n;
      assert GoodCard(c, all, "");
    }
    forall n | n in PackageNames(all) ensures n in CardNames(cards) {
      assert Matches(n, OfPackage(all, n), "");
    }
  }

  /** Without a query there is one card for every package, and the version counts add up. */
  lemma CardsCoverCollection(cards: seq<Card>, all: seq<Stanza>)
    requires AreCards(cards, all, "")
    ensures |cards| == |PackageNames(all)| && TotalCount(cards) == |all|
  {
    forall c | c in cards ensures c.versionCount == |OfPackage(all, c.name)| {
      assert GoodCard(c, all, "");
    }
    CardsCount(cards, all);
    AllPackagesHaveCards(cards, all);
    CountAll(all, PackageNames(all));
  }

  /** The two views of the browser agree, whatever order each of them ranges over the cache in. */
  lemma ViewsAgree(cache: Cache, prefix: string, counted: seq<Stanza>, listed: seq<Stanza>, cards: seq<Card>)
    requires PlainView(cache, prefix, "")
    requires IsCollection(cache, prefix, "", counted) && IsCollection(cache, prefix, "", listed)
    requires AreCards(cards, listed, "")
    ensures |cards| == |PackageNames(counted)| && TotalCount(cards) == |counted|
  {
    CollectionsAgree(cache, prefix, "", counted, listed);
    CardsCoverCollection(cards, listed);
  }
}
