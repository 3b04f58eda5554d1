/** The search box: which links are shown for a query. */
module Search {
  import opened Text
  import opened Links

  /** The query as matched: lower-cased, then trimmed. It has no white space at either end
      and no upper-case letter. */
  function Normalize(raw: string): (q: string)
    ensures IsTrimmed(q)
    ensures forall i :: 0 <= i < |q| ==> !('A' <= q[i] <= 'Z')
    ensures Framed(ToLower(raw), q, TrimOffset(ToLower(raw)))
  {
    var low := ToLower(raw);
    assert forall i :: 0 <= i < |Trim(low)| ==> Trim(low)[i] == low[TrimOffset(low) + i];
    Trim(low)
  }

  /** Some tag, lower-cased, contains `q`. */
  predicate TagMatches(tags: seq<string>, q: string) {
    exists k | 0 <= k < |tags| :: Contains(ToLower(tags[k]), q)
  }

  /** A link matches when its title, one of its tags or its notes, lower-cased, contains `q`. */
  predicate Matches(link: Link, q: string) {
    Contains(ToLower(link.title), q) || TagMatches(link.tags, q) || Contains(ToLower(link.notes), q)
  }

  function MatchesQuery(q: string): Link -> bool {
    (x: Link) => Matches(x, q)
  }

  /** The links shown for what is typed in the search box: all of them when the query is
      blank, otherwise exactly the matching ones, in the list's order. */
  function Shown(links: seq<Link>, raw: string): (shown: seq<Link>)
    ensures Normalize(raw) == [] ==> shown == links
    ensures Normalize(raw) != [] ==> forall x :: x in shown <==> x in links && Matches(x, Normalize(raw))
    ensures IsSubsequence(shown, links)
  {
    var q := Normalize(raw);
    if q == [] then
      SubsequenceOfItself(links);
      links
    else
      KeepIsSubsequence(links, MatchesQuery(q));
      Keep(links, MatchesQuery(q))
  }

  /** A query of white space only shows the whole list. */
  lemma BlankQueryShowsAll(links: seq<Link>, raw: string)
    requires AllSpace(raw)
    ensures Shown(links, raw) == links
  {
    ToLowerKeepsSpace(raw);
    TrimAllSpace(ToLower(raw));
  }

  /** The query's letter case does not matter: a query and its lower-case form show the same links. */
  lemma SearchIgnoresCase(links: seq<Link>, raw: string)
    ensures Shown(links, ToLower(raw)) == Shown(links, raw)
  {
    ToLowerIdempotent(raw);
  }

  /** Searching a concatenation searches each part. */
  lemma SearchAppend(a: seq<Link>, b: seq<Link>, raw: string)
    ensures Shown(a + b, raw) == Shown(a, raw) + Shown(b, raw)
  {
    if Normalize(raw) != [] {
      KeepAppend(a, b, MatchesQuery(Normalize(raw)));
    }
  }

  /** Putting one of a link's tags in the search box, as a tag click does, shows that link. */
  lemma TagClickShowsLink(links: seq<Link>, i: nat, k: nat)
    requires i < |links| && k < |links[i].tags|
    ensures links[i] in Shown(links, links[i].tags[k])
  {
    var t := links[i].tags[k];
    if Normalize(t) != [] {
      ContainsTrim(ToLower(t));
      assert Matches(links[i], Normalize(t));
    }
  }

  /** A link whose lower-cased title is what the search box holds, once lower-cased and
      trimmed, is shown. */
  lemma TitleQueryShowsLink(links: seq<Link>, i: nat, raw: string)
    requires i < |links| && ToLower(links[i].title) == Normalize(raw)
    ensures links[i] in Shown(links, raw)
  {
    ContainsSelf(Normalize(raw));
    assert Matches(links[i], Normalize(raw));
  }

  /** The link of the example below: titled "Go Docs", tagged "go" and "docs", no notes. */
  function GoDocs(): Link {
    Link("1", "Go Docs", "https://go.dev", ["go", "docs"], "", "T0", "T0")
  }

  lemma LowerWord(w: string)
    requires forall i :: 0 <= i < |w| ==> 'a' <= w[i] <= 'z'
    ensures ToLower(w) == w && Normalize(w) == w
  {
    assert ToLower(w) == w;
    if w != [] {
      assert !IsSpace(w[0]) && !IsSpace(w[|w| - 1]);
      TrimTrimmed(w);
    }
  }

  /** Searching "docs" in a list holding only the Go Docs link shows that link. */
  lemma GoDocsFoundByDocs()
    ensures Shown([GoDocs()], "docs") == [GoDocs()]
  {
    LowerWord("docs");
    assert OccursAt(ToLower(GoDocs().tags[1]), "docs", 0);
    assert Matches(GoDocs(), "docs");
    assert Keep([GoDocs()], MatchesQuery("docs")) == [GoDocs()] + Keep([], MatchesQuery("docs"));
  }

  /** Searching "rust" in a list holding only the Go Docs link shows nothing. */
  lemma GoDocsMissedByRust()
    ensures Shown([GoDocs()], "rust") == []
  {
    LowerWord("rust");
    LowerWord("go");
    LowerWord("docs");
    assert ToLower(GoDocs().title) == "go docs";
    FirstCharAbsent("go docs", "rust");
    FirstCharAbsent("go", "rust");
    FirstCharAbsent("docs", "rust");
    FirstCharAbsent("", "rust");
    assert !TagMatches(GoDocs().tags, "rust");
    assert !Matches(GoDocs(), "rust");
    assert Keep([GoDocs()], MatchesQuery("rust")) == Keep([], MatchesQuery("rust"));
  }
}
