/** Selection of the tracked pages of the top-pages reports: each page path
    of the all-time response is reduced to a key, views are summed per key
    with the first raw path seen kept as the key's representative, and the
    representatives of the 20 most viewed keys become the table columns. */
module PagePaths {
  import opened Tables

  /** `s.rstrip('/')`: s without any of its trailing slashes. */
  function RStripSlash(s: string): (r: string)
    ensures |r| <= |s| && r == s[..|r|]
    ensures |r| == 0 || r[|r| - 1] != '/'
  {
    if |s| > 0 && s[|s| - 1] == '/' then RStripSlash(s[..|s| - 1]) else s
  }

  /** A prefix ending in something other than a slash survives stripping. */
  lemma {:induction false} RStripSlashKeeps(s: string, k: nat)
    requires 0 < k <= |s| && s[k - 1] != '/'
    ensures k <= |RStripSlash(s)|
  {
    if |s| > k {
      RStripSlashKeeps(s[..|s| - 1], k);
    }
  }

  /** Only slashes are removed. */
  lemma {:induction false} RStripSlashRemovesOnlySlashes(s: string, i: nat)
    requires |RStripSlash(s)| <= i < |s|
    ensures s[i] == '/'
  {
    if |s| > 0 && s[|s| - 1] == '/' && i < |s| - 1 {
      RStripSlashRemovesOnlySlashes(s[..|s| - 1], i);
    }
  }

  predicate StartsWith(s: string, prefix: string) {
    |prefix| <= |s| && s[..|prefix|] == prefix
  }

  /** The key a page path is consolidated under when the tracked pages are
      chosen: the home aliases become "/", each search tool collapses to its
      root, and any other path loses its trailing slashes. */
  function SelectionKey(path: string): string {
    if path == "/" || path == "/home" || path == "/home/" then "/"
    else if StartsWith(path, "/glycan-search") then "/glycan-search/"
    else if StartsWith(path, "/protein-search") then "/protein-search/"
    else RStripSlash(path)
  }

  lemma RStripSlashIdempotent(s: string)
    ensures RStripSlash(RStripSlash(s)) == RStripSlash(s)
  {
  }

  /** A prefix test survives stripping only if it held before. */
  lemma StartsWithStripped(s: string, prefix: string)
    requires StartsWith(RStripSlash(s), prefix)
    ensures StartsWith(s, prefix)
  {
    var r := RStripSlash(s);
    assert s[..|prefix|] == r[..|prefix|];
  }

  /** The three canonical keys are fixed points of the normaliser. */
  lemma CanonicalKeysAreFixed()
    ensures SelectionKey("/") == "/"
    ensures SelectionKey("/glycan-search/") == "/glycan-search/"
    ensures SelectionKey("/protein-search/") == "/protein-search/"
  {
    assert StartsWith("/glycan-search/", "/glycan-search");
    assert "/protein-search/"[..14][1] != "/glycan-search"[1];
    assert StartsWith("/protein-search/", "/protein-search");
  }

  /** Normalising twice changes the key exactly when the first pass yields
      "/home", which only "/home" followed by two or more slashes does: the
      normaliser is idempotent everywhere else. */
  lemma SelectionKeyIdempotentExceptHome(p: string)
    ensures SelectionKey(SelectionKey(p)) != SelectionKey(p) <==> SelectionKey(p) == "/home"
  {
    var k := SelectionKey(p);
    if k == "/home" {
      assert SelectionKey(k) == "/";
    } else if p == "/" || p == "/home" || p == "/home/" {
      CanonicalKeysAreFixed();
    } else if StartsWith(p, "/glycan-search") || StartsWith(p, "/protein-search") {
      CanonicalKeysAreFixed();
    } else {
      assert k == RStripSlash(p);
      assert k != "/" && k != "/home/" by {
        assert |k| == 0 || k[|k| - 1] != '/';
      }
      if StartsWith(k, "/glycan-search") { StartsWithStripped(p, "/glycan-search"); }
      if StartsWith(k, "/protein-search") { StartsWithStripped(p, "/protein-search"); }
      RStripSlashIdempotent(p);
    }
  }

  /** The witness: "/home//" normalises to "/home", which normalises to "/". */
  lemma SelectionKeyNotIdempotent()
    ensures SelectionKey("/home//") == "/home"
    ensures SelectionKey(SelectionKey("/home//")) == "/"
  {
    assert "/home//"[..6] == "/home/" && "/home/"[..5] == "/home";
    assert RStripSlash("/home//") == RStripSlash("/home/") == RStripSlash("/home");
    assert !StartsWith("/home//", "/glycan-search") && !StartsWith("/home//", "/protein-search");
  }

  /** One row of the all-time response: a page path and its views. */
  datatype PageHit = PageHit(path: string, views: int)

  /** One value of the `path_mapping` dictionary, with its key. */
  datatype PathEntry = PathEntry(key: string, path: string, views: int)

  /** The keys of hits in first-seen order. */
  function KeysSeen(hits: seq<PageHit>): (ks: seq<string>)
    ensures Distinct(ks)
  {
    if |hits| == 0 then []
    else
      var p := KeysSeen(hits[..|hits| - 1]);
      var k := SelectionKey(hits[|hits| - 1].path);
      if k in p then p else p + [k]
  }

  /** A key is seen exactly when some hit has it. */
  lemma {:induction false} KeysSeenMembers(hits: seq<PageHit>, k: string)
    ensures k in KeysSeen(hits) <==> exists i :: 0 <= i < |hits| && SelectionKey(hits[i].path) == k
  {
    if |hits| > 0 {
      var n := |hits| - 1;
      KeysSeenMembers(hits[..n], k);
      assert forall j :: 0 <= j < n ==> hits[..n][j] == hits[j];
    }
  }

  /** The raw path of the first hit whose key is k ("" if there is none). */
  function FirstPath(hits: seq<PageHit>, k: string): string {
    if |hits| == 0 then ""
    else if k in KeysSeen(hits[..|hits| - 1]) then FirstPath(hits[..|hits| - 1], k)
    else if SelectionKey(hits[|hits| - 1].path) == k then hits[|hits| - 1].path
    else ""
  }

  /** The summed views of the hits whose key is k. */
  function KeyViews(hits: seq<PageHit>, k: string): int {
    if |hits| == 0 then 0
    else
      var h := hits[|hits| - 1];
      KeyViews(hits[..|hits| - 1], k) + (if SelectionKey(h.path) == k then h.views else 0)
  }

  lemma {:induction false} KeyViewsUnseen(hits: seq<PageHit>, k: string)
    requires k !in KeysSeen(hits)
    ensures KeyViews(hits, k) == 0
  {
    if |hits| > 0 {
      KeyViewsUnseen(hits[..|hits| - 1], k);
    }
  }

  /** The path_mapping dictionary as a list of its entries, in key order. */
  function Consolidated(hits: seq<PageHit>): (es: seq<PathEntry>)
    ensures |es| == |KeysSeen(hits)|
  {
    var ks := KeysSeen(hits);
    seq(|ks|, i requires 0 <= i < |ks| => PathEntry(ks[i], FirstPath(hits, ks[i]), KeyViews(hits, ks[i])))
  }

  /** FirstPath is the path of the first hit with key k. */
  lemma {:induction false} FirstPathIsFirst(hits: seq<PageHit>, k: string)
    requires k in KeysSeen(hits)
    ensures exists i :: 0 <= i < |hits| && SelectionKey(hits[i].path) == k && hits[i].path == FirstPath(hits, k)
                        && forall j :: 0 <= j < i ==> SelectionKey(hits[j].path) != k
  {
    var n := |hits| - 1;
    var prefix := hits[..n];
    if k in KeysSeen(prefix) {
      FirstPathIsFirst(prefix, k);
      var i :| 0 <= i < n && SelectionKey(prefix[i].path) == k && prefix[i].path == FirstPath(prefix, k)
               && forall j :: 0 <= j < i ==> SelectionKey(prefix[j].path) != k;
      assert hits[i] == prefix[i];
      assert forall j :: 0 <= j < i ==> hits[j] == prefix[j];
    } else {
      KeysSeenMembers(prefix, k);
      assert forall j :: 0 <= j < n ==> hits[j] == prefix[j];
      assert SelectionKey(hits[n].path) == k;
    }
  }

  /** The representative of a key normalises to that key. */
  lemma RepresentativeHasKey(hits: seq<PageHit>, k: string)
    requires k in KeysSeen(hits)
    ensures SelectionKey(FirstPath(hits, k)) == k
  {
    FirstPathIsFirst(hits, k);
  }

  /** The dictionary update performed for one hit. */
  function Absorb(previous: map<string, (string, int)>, h: PageHit): (mapping: map<string, (string, int)>)
    ensures mapping.Keys == previous.Keys + {SelectionKey(h.path)}
  {
    var k := SelectionKey(h.path);
    if k !in previous then previous[k := (h.path, h.views)]
    else previous[k := (previous[k].0, previous[k].1 + h.views)]
  }

  /** The path_mapping dictionary after the hits hs, one update per hit. */
  function PathMapping(hs: seq<PageHit>): map<string, (string, int)>
  {
    if |hs| == 0 then map[] else Absorb(PathMapping(hs[..|hs| - 1]), hs[|hs| - 1])
  }

  /** The dictionary has a key exactly when some hit had it. */
  lemma {:induction false} PathMappingKeys(hs: seq<PageHit>, k: string)
    ensures k in PathMapping(hs) <==> k in KeysSeen(hs)
  {
    if |hs| > 0 {
      PathMappingKeys(hs[..|hs| - 1], k);
    }
  }

  /** The dictionary maps each key to its representative and its summed views. */
  lemma {:induction false} PathMappingValues(hs: seq<PageHit>, k: string)
    requires k in PathMapping(hs)
    ensures PathMapping(hs)[k] == (FirstPath(hs, k), KeyViews(hs, k))
  {
    var n := |hs| - 1;
    var before := hs[..n];
    PathMappingKeys(before, k);
    if k in PathMapping(before) {
      PathMappingValues(before, k);
    } else {
      KeyViewsUnseen(before, k);
    }
  }

  /** Extending the prefix by hit i adds its key if new and absorbs it,
      and the dictionary and the order agree on whether the key is new. */
  lemma PrefixStep(hits: seq<PageHit>, i: nat)
    requires i < |hits|
    ensures var k := SelectionKey(hits[i].path);
            KeysSeen(hits[..i + 1]) == if k in KeysSeen(hits[..i]) then KeysSeen(hits[..i]) else KeysSeen(hits[..i]) + [k]
    ensures PathMapping(hits[..i + 1]) == Absorb(PathMapping(hits[..i]), hits[i])
    ensures SelectionKey(hits[i].path) in PathMapping(hits[..i]) <==> SelectionKey(hits[i].path) in KeysSeen(hits[..i])
  {
    assert hits[..i + 1][..i] == hits[..i];
    PathMappingKeys(hits[..i], SelectionKey(hits[i].path));
  }

  /** One turn of the consolidation loop: a new key is recorded with the
      hit's path and views and appended to the insertion order; a known key
      keeps its path and gains the views. */
  method AbsorbHit(mapping: map<string, (string, int)>, order: seq<string>, h: PageHit)
    returns (mapping': map<string, (string, int)>, order': seq<string>)
    requires SelectionKey(h.path) in mapping <==> SelectionKey(h.path) in order
    ensures mapping' == Absorb(mapping, h)
    ensures order' == if SelectionKey(h.path) in order then order else order + [SelectionKey(h.path)]
  {
    var k := SelectionKey(h.path);
    if k !in mapping {
      mapping' := mapping[k := (h.path, h.views)];
      order' := order + [k];
    } else {
      mapping' := mapping[k := (mapping[k].0, mapping[k].1 + h.views)];
      order' := order;
    }
  }

  /** The consolidation loop over the all-time response: builds the
      path_mapping dictionary and remembers its insertion order. */
  method BuildPathMapping(hits: seq<PageHit>) returns (mapping: map<string, (string, int)>, order: seq<string>)
    ensures mapping == PathMapping(hits)
    ensures order == KeysSeen(hits)
  {
    mapping := map[];
    order := [];
    var i := 0;
    while i < |hits|
      invariant 0 <= i <= |hits|
      invariant mapping == PathMapping(hits[..i])
      invariant order == KeysSeen(hits[..i])
    {
      PrefixStep(hits, i);
      mapping, order := AbsorbHit(mapping, order, hits[i]);
      i := i + 1;
    }
    assert hits[..i] == hits;
  }

  /** The dictionary's values in insertion order: one entry per key, in
      first-seen order, holding the first raw path and the summed views. */
  method ConsolidatePaths(hits: seq<PageHit>) returns (entries: seq<PathEntry>)
    ensures entries == Consolidated(hits)
  {
    var mapping, order := BuildPathMapping(hits);
    entries := [];
    var j := 0;
    while j < |order|
      invariant 0 <= j <= |order|
      invariant entries == Consolidated(hits)[..j]
    {
      var k := order[j];
      PathMappingKeys(hits, k);
      PathMappingValues(hits, k);
      entries := entries + [PathEntry(k, mapping[k].0, mapping[k].1)];
      assert Consolidated(hits)[..j + 1] == Consolidated(hits)[..j] + [Consolidated(hits)[j]];
      j := j + 1;
    }
    assert Consolidated(hits)[..j] == Consolidated(hits);
  }

  /** No entry is out-ranked by a later one. */
  predicate ByViewsDescending(s: seq<PathEntry>) {
    forall i, j :: 0 <= i < j < |s| ==> s[i].views >= s[j].views
  }

  /** Putting the head back in front of a descending list that holds the
      rest of the list and e, all no larger than the head, keeps the order. */
  lemma ConsBelowHead(s: seq<PathEntry>, e: PathEntry, t': seq<PathEntry>)
    requires ByViewsDescending(s) && |s| > 0 && e.views < s[0].views
    requires ByViewsDescending(t') && multiset(t') == multiset(s[1..]) + multiset{e}
    ensures ByViewsDescending([s[0]] + t')
    ensures multiset([s[0]] + t') == multiset(s) + multiset{e}
  {
    forall j | 0 <= j < |t'| ensures t'[j].views <= s[0].views {
      assert t'[j] in multiset(t');
      if t'[j] != e {
        assert t'[j] in multiset(s[1..]);
        var x :| 0 <= x < |s[1..]| && s[1..][x] == t'[j];
        assert s[x + 1] == t'[j];
      }
    }
    var t := [s[0]] + t';
    forall i, j | 0 <= i < j < |t| ensures t[i].views >= t[j].views {
      assert t[j] == t'[j - 1];
      if i > 0 {
        assert t[i] == t'[i - 1];
      }
    }
    assert s == [s[0]] + s[1..];
  }

  /** Insertion below every entry with more views than e. */
  function InsertByViews(e: PathEntry, s: seq<PathEntry>): (t: seq<PathEntry>)
    ensures |t| == |s| + 1
  {
    if |s| == 0 || e.views >= s[0].views then [e] + s
    else [s[0]] + InsertByViews(e, s[1..])
  }

  /** Inserting into a descending list keeps it descending and adds
      exactly e. */
  lemma {:induction false} InsertByViewsSorted(e: PathEntry, s: seq<PathEntry>)
    requires ByViewsDescending(s)
    ensures ByViewsDescending(InsertByViews(e, s))
    ensures multiset(InsertByViews(e, s)) == multiset(s) + multiset{e}
  {
    if |s| > 0 && e.views < s[0].views {
      assert ByViewsDescending(s[1..]) by {
        forall i, j | 0 <= i < j < |s[1..]| ensures s[1..][i].views >= s[1..][j].views {
          assert s[1..][i] == s[i + 1] && s[1..][j] == s[j + 1];
        }
      }
      InsertByViewsSorted(e, s[1..]);
      ConsBelowHead(s, e, InsertByViews(e, s[1..]));
    }
  }

  /** `sorted(..., key=views, reverse=True)` as an insertion sort; the
      properties of the ranking are RankSorted and RankIsStable. */
  function Rank(s: seq<PathEntry>): (t: seq<PathEntry>)
    ensures |t| == |s|
  {
    if |s| == 0 then [] else InsertByViews(s[0], Rank(s[1..]))
  }

  /** The ranking is descending by views and a permutation of its input. */
  lemma {:induction false} RankSorted(s: seq<PathEntry>)
    ensures ByViewsDescending(Rank(s))
    ensures multiset(Rank(s)) == multiset(s)
  {
    if |s| > 0 {
      RankSorted(s[1..]);
      InsertByViewsSorted(s[0], Rank(s[1..]));
      assert s == [s[0]] + s[1..];
    }
  }

  /** The entries with v views, in order. */
  function WithViews(s: seq<PathEntry>, v: int): seq<PathEntry> {
    if |s| == 0 then [] else (if s[0].views == v then [s[0]] else []) + WithViews(s[1..], v)
  }

  lemma {:induction false} InsertByViewsStable(e: PathEntry, s: seq<PathEntry>, v: int)
    ensures WithViews(InsertByViews(e, s), v) == (if e.views == v then [e] else []) + WithViews(s, v)
  {
    var head := if e.views == v then [e] else [];
    if |s| == 0 || e.views >= s[0].views {
      var t := [e] + s;
      assert InsertByViews(e, s) == t;
      assert t[0] == e && t[1..] == s;
      assert WithViews(t, v) == head + WithViews(s, v);
    } else {
      var t' := InsertByViews(e, s[1..]);
      var t := [s[0]] + t';
      assert InsertByViews(e, s) == t;
      assert t[0] == s[0] && t[1..] == t';
      var first := if s[0].views == v then [s[0]] else [];
      assert WithViews(t, v) == first + WithViews(t', v);
      InsertByViewsStable(e, s[1..], v);
      assert WithViews(s, v) == first + WithViews(s[1..], v);
      assert first + (head + WithViews(s[1..], v)) == head + (first + WithViews(s[1..], v)) by {
        assert head == [] || first == [];
      }
    }
  }

  /** Ranking is stable: the entries of any one view count appear in the
      ranking in the order they were first seen. */
  lemma {:induction false} RankIsStable(s: seq<PathEntry>, v: int)
    ensures WithViews(Rank(s), v) == WithViews(s, v)
  {
    if |s| > 0 {
      RankIsStable(s[1..], v);
      InsertByViewsStable(s[0], Rank(s[1..]), v);
    }
  }

  const TopPageCount := 20

  /** `[info['path'] for info in sorted(...)][:20]`: the representative raw
      paths of the (at most) 20 most viewed keys. */
  function TopPaths(entries: seq<PathEntry>): (tracked: seq<string>)
    ensures |tracked| == if |entries| < TopPageCount then |entries| else TopPageCount
  {
    var ranked := Rank(entries);
    var n := if |ranked| < TopPageCount then |ranked| else TopPageCount;
    seq(n, i requires 0 <= i < n => ranked[i].path)
  }

  /** Ranking loses no entry: each one has a position in the ranking. */
  lemma RankedIndex(entries: seq<PathEntry>, e: PathEntry) returns (j: nat)
    requires e in entries
    ensures j < |Rank(entries)| && Rank(entries)[j] == e
  {
    var ranked := Rank(entries);
    RankSorted(entries);
    assert e in multiset(entries);
    assert e in multiset(ranked);
    j :| 0 <= j < |ranked| && ranked[j] == e;
  }

  /** Every key left out of the top 20 has no more views than any selected
      one, and the selected paths are in descending order of views. */
  lemma TopPathsAreTop(entries: seq<PathEntry>, e: PathEntry)
    requires e in entries
    ensures var ranked := Rank(entries);
            var n := |TopPaths(entries)|;
            (forall i :: 0 <= i < n ==> TopPaths(entries)[i] == ranked[i].path)
            && (e !in ranked[..n] ==> forall i :: 0 <= i < n ==> ranked[i].views >= e.views)
  {
    var ranked := Rank(entries);
    var n := |TopPaths(entries)|;
    if e !in ranked[..n] {
      var j := RankedIndex(entries, e);
      assert forall x :: 0 <= x < n ==> ranked[..n][x] == ranked[x];
      assert j >= n;
      RankSorted(entries);
      forall i | 0 <= i < n ensures ranked[i].views >= e.views {
        assert i < j;
      }
    }
  }

  /** Each entry of the consolidation holds its key, and its representative
      normalises to that key. */
  lemma ConsolidatedEntries(hits: seq<PageHit>)
    ensures Distinct(Consolidated(hits))
    ensures forall a :: 0 <= a < |Consolidated(hits)| ==>
              SelectionKey(Consolidated(hits)[a].path) == Consolidated(hits)[a].key
  {
    var es, ks := Consolidated(hits), KeysSeen(hits);
    forall a | 0 <= a < |es| ensures SelectionKey(es[a].path) == es[a].key {
      RepresentativeHasKey(hits, ks[a]);
    }
    forall a, b | 0 <= a < b < |es| ensures es[a] != es[b] {
      assert es[a].key == ks[a] && es[b].key == ks[b];
    }
  }

  /** The tracked list holds raw representative paths, one per key, so no
      path is tracked twice. */
  lemma TrackedPathsDistinct(hits: seq<PageHit>)
    ensures Distinct(TopPaths(Consolidated(hits)))
  {
    var es := Consolidated(hits);
    var ranked := Rank(es);
    var tracked := TopPaths(es);
    ConsolidatedEntries(hits);
    RankSorted(es);
    PermutationOfDistinct(es, ranked);
    forall i, j | 0 <= i < j < |tracked| ensures tracked[i] != tracked[j] {
      assert ranked[i] in multiset(es) && ranked[j] in multiset(es);
      var a :| 0 <= a < |es| && es[a] == ranked[i];
      var b :| 0 <= b < |es| && es[b] == ranked[j];
      assert a != b;
      assert es[a].key != es[b].key by {
        assert es[a].key == KeysSeen(hits)[a] && es[b].key == KeysSeen(hits)[b];
      }
    }
  }

  /** Ranking an example with a tie: the two entries with 10 views keep
      their order, ahead of the one with 5. */
  lemma RankTieExample(a: PathEntry, b: PathEntry, c: PathEntry)
    requires a.views == b.views && b.views > c.views
    ensures Rank([a, b, c]) == [a, b, c]
  {
    assert [c][1..] == [] && [b, c][1..] == [c] && [a, b, c][1..] == [b, c];
    assert Rank([c]) == [c];
    assert Rank([b, c]) == InsertByViews(b, [c]) == [b, c];
  }

  /** The example of a tie: equal views keep first-seen order. */
  lemma TieKeepsFirstSeen()
    ensures TopPaths([PathEntry("/a", "/a", 10), PathEntry("/b", "/b", 10), PathEntry("/c", "/c", 5)]) == ["/a", "/b", "/c"]
  {
    var es := [PathEntry("/a", "/a", 10), PathEntry("/b", "/b", 10), PathEntry("/c", "/c", 5)];
    RankTieExample(es[0], es[1], es[2]);
    var top := TopPaths(es);
    assert |top| == 3;
    assert top[0] == "/a" && top[1] == "/b" && top[2] == "/c";
  }
}
