/** The two collections the traversal grows: the to-do list, which is never
    shortened, and the multimap from a link to the files that refer to it. */
module Frontier {

  predicate Distinct(s: seq<string>) {
    forall i, j :: 0 <= i < j < |s| ==> s[i] != s[j]
  }

  /** Appends each link the list does not already hold, in order. */
  function AppendNew(todo: seq<string>, links: seq<string>): (r: seq<string>)
    ensures |todo| <= |r| <= |todo| + |links|
    decreases |links|
  {
    if links == [] then todo
    else
      var init, last := links[..|links| - 1], links[|links| - 1];
      var t := AppendNew(todo, init);
      if last in t then t else t + [last]
  }

  /** Entries are only ever appended; afterwards the list holds its old
      entries and every link, each new one taken from the links, and no
      entry twice if there was none before. */
  lemma {:induction false} AppendNewGrows(todo: seq<string>, links: seq<string>)
    ensures todo <= AppendNew(todo, links)
    ensures forall x :: x in AppendNew(todo, links) <==> x in todo || x in links
    ensures forall j :: |todo| <= j < |AppendNew(todo, links)| ==> AppendNew(todo, links)[j] in links
    ensures Distinct(todo) ==> Distinct(AppendNew(todo, links))
    decreases |links|
  {
    if links != [] {
      var init, last := links[..|links| - 1], links[|links| - 1];
      assert links == init + [last];
      AppendNewGrows(todo, init);
    }
  }

  /** The files recorded for `link`; a multimap answers the empty set for an
      absent key. */
  function Referrers(m: map<string, set<string>>, link: string): set<string> {
    if link in m then m[link] else {}
  }

  /** Records `source` as a referrer of every link in `links`. */
  function Attribute(m: map<string, set<string>>, links: seq<string>, source: string): (r: map<string, set<string>>)
    ensures m.Keys <= r.Keys
    decreases |links|
  {
    if links == [] then m
    else
      var init, last := links[..|links| - 1], links[|links| - 1];
      var a := Attribute(m, init, source);
      a[last := Referrers(a, last) + {source}]
  }

  /** Recording adds `source` to the referrers of exactly the given links,
      whether or not they were recorded before, and to no other key. */
  lemma {:induction false} AttributeReferrers(m: map<string, set<string>>, links: seq<string>, source: string)
    ensures forall k :: k in Attribute(m, links, source) <==> k in m || k in links
    ensures forall k :: Referrers(Attribute(m, links, source), k)
                        == if k in links then Referrers(m, k) + {source} else Referrers(m, k)
    decreases |links|
  {
    if links != [] {
      var init, last := links[..|links| - 1], links[|links| - 1];
      assert links == init + [last];
      AttributeReferrers(m, init, source);
    }
  }

  /** A list without repetitions has as many entries as it has distinct
      values. */
  lemma {:induction false} DistinctCount(s: seq<string>)
    requires Distinct(s)
    ensures |set x | x in s| == |s|
  {
    if s != [] {
      var init, last := s[..|s| - 1], s[|s| - 1];
      assert s == init + [last];
      assert (set x | x in s) == (set x | x in init) + {last};
      assert last !in init;
      DistinctCount(init);
    }
  }

  /** A list without repetitions drawn from `u` is no longer than `u` is large. */
  lemma {:induction false} DistinctLength(s: seq<string>, u: set<string>)
    requires Distinct(s)
    requires forall x :: x in s ==> x in u
    ensures |s| <= |u|
  {
    if s != [] {
      var init, last := s[..|s| - 1], s[|s| - 1];
      forall x | x in init ensures x in u - {last} {
        var j :| 0 <= j < |init| && init[j] == x;
        assert s[j] == x;
      }
      DistinctLength(init, u - {last});
    }
  }
}
