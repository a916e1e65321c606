/** The link-traversal engine: one run grows the to-do list while walking it
    by index, records a referrer for every extracted link and appends the
    links it judges bad. */
module Checker {
  import opened LinkTypes
  import opened Links
  import opened Frontier
  import opened UrlPolicy
  import opened Walk

  class LinkChecker {
    var todo: seq<string>                       // todoListLinks
    var attribution: map<string, set<string>>   // linksToSourceFiles
    var bad: seq<string>                        // badLinks

    /** A run writes into the caller's multimap and bad-link list. */
    constructor (linksToSourceFiles: map<string, set<string>>, badLinks: seq<string>)
      ensures todo == [] && attribution == linksToSourceFiles && bad == badLinks
    {
      todo := [];
      attribution := linksToSourceFiles;
      bad := badLinks;
    }

    method AddBadUrlIfConfigured(link: string, failOnBadUrls: bool)
      modifies this`bad
      ensures bad == old(bad) + (if failOnBadUrls then [link] else [])
    {
      if failOnBadUrls {
        bad := bad + [link];
      }
    }

    /** Classifies a URL and appends it to the bad links when the policy says
        so; nothing else changes. */
    method ProcessLinkAsUrl(p: Policy, w: World, link: string)
      modifies this`bad
      ensures bad == old(bad) + (if UrlIsBad(p, w, link) then [link] else [])
    {
      match w.parseUrl(link)
      case Malformed =>
        AddBadUrlIfConfigured(link, p.failOnBadUrls);
      case Url(protocol, host) =>
        if "http" <= protocol {
          if host == "localhost" {
            if p.failOnLocalHost {
              bad := bad + [link];
            }
          } else if HostIgnored(p.ignoreHostRegexs, w, host) {
            if p.failOnIgnoredHost {
              bad := bad + [link];
            }
          } else {
            var response := w.probe(link, ConnectTimeout(p.connectionTimeout));
            match response
            case Status(code) =>
              if 300 <= code < 400 {
              } else if code != 200 {
                AddBadUrlIfConfigured(link, p.failOnBadUrls);
              }
            case ConnectFail =>
              AddBadUrlIfConfigured(link, p.failOnBadUrls);
            case IoFail =>
              AddBadUrlIfConfigured(link, p.failOnBadUrls);
          }
        }
    }

    /** The loops over the extracted elements of `file`: each link that is
        not skipped is enqueued unless already present, and `file` is recorded
        as one of its referrers either way. */
    method ProcessLinks(w: World, file: string, raws: seq<string>)
      modifies this`todo, this`attribution
      ensures todo == AppendNew(old(todo), Extracted(w, file, raws))
      ensures attribution == Attribute(old(attribution), Extracted(w, file, raws), file)
    {
      var k := 0;
      while k < |raws|
        invariant 0 <= k <= |raws|
        invariant todo == AppendNew(old(todo), Extracted(w, file, raws[..k]))
        invariant attribution == Attribute(old(attribution), Extracted(w, file, raws[..k]), file)
      {
        var link := raws[k];
        ghost var extracted := Extracted(w, file, raws[..k]);
        ExtractedSnoc(w, file, raws, k);
        if Skipped(link) {
          assert Extracted(w, file, raws[..k + 1]) == extracted;
        } else {
          if !w.isValidUrl(link) {
            link := w.canonical(w.parent(file), StripFragment(link));
          }
          assert Extracted(w, file, raws[..k + 1]) == extracted + [link];
          AppendNewSnoc(old(todo), extracted, link);
          AttributeSnoc(old(attribution), extracted, link, file);
          if link !in todo {
            todo := todo + [link];
          }
          attribution := attribution[link := Referrers(attribution, link) + {file}];
        }
        k := k + 1;
      }
      assert raws[..k] == raws;
    }

    /** Reads a local entry: a missing target makes the entry itself bad, an
        unreadable one aborts, and a parsed file enqueues its new links and
        records itself as a referrer of every link it holds. */
    method ProcessLinkAsFile(w: World, defaultFile: string, fileLink: string) returns (err: Option<Error>)
      modifies this
      ensures ReadFile(w, defaultFile, fileLink).Missing? ==>
        err.None? && todo == old(todo) && attribution == old(attribution) && bad == old(bad) + [fileLink]
      ensures ReadFile(w, defaultFile, fileLink).NotReadable? ==>
        err == Some(CannotRead(ReadFile(w, defaultFile, fileLink).file))
        && todo == old(todo) && attribution == old(attribution) && bad == old(bad)
      ensures ReadFile(w, defaultFile, fileLink).Parsed? ==>
        err.None? && bad == old(bad)
        && todo == AppendNew(old(todo), ReadFile(w, defaultFile, fileLink).links)
        && attribution == Attribute(old(attribution), ReadFile(w, defaultFile, fileLink).links, ReadFile(w, defaultFile, fileLink).file)
    {
      var file := fileLink;
      if fileLink in w.fs && w.fs[fileLink].Dir? {
        file := w.child(fileLink, defaultFile);
      }
      assert file == TargetFile(w, defaultFile, fileLink);
      if file in w.fs {
        var node := w.fs[file];
        if node.Html? {
          assert ReadFile(w, defaultFile, fileLink) == Parsed(file, Extracted(w, file, node.raws));
          ProcessLinks(w, file, node.raws);
          err := None;
        } else {
          err := Some(CannotRead(file));
        }
      } else {
        bad := bad + [fileLink];
        err := None;
      }
    }

    /** Sends one to-do entry to URL or file processing. */
    method Dispatch(p: Policy, w: World, link: string) returns (err: Option<Error>)
      modifies this
      ensures err.Some? <==> Fails(p, w, link)
      ensures err.Some? ==>
        err.value == CannotRead(Referrer(p, w, link))
        && todo == old(todo) && attribution == old(attribution) && bad == old(bad)
      ensures err.None? ==>
        todo == AppendNew(old(todo), OutLinks(p, w, link))
        && attribution == Attribute(old(attribution), OutLinks(p, w, link), Referrer(p, w, link))
        && bad == old(bad) + (if IsBad(p, w, link) then [link] else [])
    {
      if w.isValidUrl(link) {
        ProcessLinkAsUrl(p, w, link);
        err := None;
      } else {
        err := ProcessLinkAsFile(w, DefaultName(p), link);
      }
    }

    /** Walks every identifier reachable from the start file, each once, and
        answers how many there were. */
    method CheckLinks(p: Policy, w: World, startFile: Option<string>) returns (r: Result<nat>)
      modifies this
      ensures startFile.None? ==>
        r == Fail(NullStartFile) && todo == old(todo) && attribution == old(attribution) && bad == old(bad)
      ensures startFile.Some? && w.absolutePath(startFile.value) !in w.fs ==>
        r == Fail(StartNotFound(w.absolutePath(startFile.value)))
        && todo == old(todo) && attribution == old(attribution) && bad == old(bad)
      ensures r.Ok? ==> startFile.Some? && |todo| > 0 && todo[0] == w.absolutePath(startFile.value)
      // the list is built in the source's first-in first-out order
      ensures r.Ok? ==> startFile.Some? && todo == TodoFrom(p, w, [w.absolutePath(startFile.value)], todo)
      ensures r.Ok? ==> r.value == |todo| && Distinct(todo)
      ensures r.Ok? ==> r.value == |set x | x in todo|
      // every link of every processed file was enqueued
      ensures r.Ok? ==> forall e :: e in todo ==> Enqueued(p, w, e, todo)
      // every entry after the first is a link of an earlier entry
      ensures r.Ok? ==> forall j :: 0 < j < |todo| ==> FromEarlier(p, w, todo, j)
      ensures r.Ok? ==> bad == old(bad) + BadFrom(p, w, todo)
      ensures r.Ok? ==> attribution == AttributeFrom(p, w, old(attribution), todo)
      // a run with a valid start file fails only on an unreadable file
      ensures r.Fail? ==> startFile.None? || w.absolutePath(startFile.value) !in w.fs || r.error.CannotRead?
      // a successful run met no unreadable file
      ensures r.Ok? ==> forall e :: e in todo ==> !Fails(p, w, e)
      // an unreadable file aborts the run at the first entry that reaches it; the
      // list, bad links and multimap are what the entries before it produced
      ensures r.Fail? && r.error.CannotRead? ==>
        startFile.Some? && AbortedAt(p, w, w.absolutePath(startFile.value), todo, r.error.file,
                                     old(bad), bad, old(attribution), attribution)
    {
      if startFile.None? {
        return Fail(NullStartFile);
      }
      var start := w.absolutePath(startFile.value);
      if start !in w.fs {
        return Fail(StartNotFound(start));
      }
      var err := Drive(p, w, start);
      if err.Some? {
        return Fail(err.value);
      }
      DistinctCount(todo);
      r := Ok(|todo|);
    }

    /** Processes entry `i` of the list, as one iteration of the drive loop. */
    method Step(p: Policy, w: World, start: string, ghost universe: set<string>, i: nat,
                ghost bad0: seq<string>, ghost attribution0: map<string, set<string>>)
      returns (err: Option<Error>)
      requires Progress(p, w, start, universe, todo, i, bad0, bad, attribution0, attribution)
      requires i < |todo|
      modifies this
      ensures err.None? ==> Progress(p, w, start, universe, todo, i + 1, bad0, bad, attribution0, attribution)
      ensures err.None? ==>
        && todo == AppendNew(old(todo), OutLinks(p, w, old(todo)[i]))
        && bad == old(bad) + (if IsBad(p, w, old(todo)[i]) then [old(todo)[i]] else [])
        && attribution == Attribute(old(attribution), OutLinks(p, w, old(todo)[i]), Referrer(p, w, old(todo)[i]))
      ensures err.Some? ==> todo == old(todo) && bad == old(bad) && attribution == old(attribution)
      ensures err.Some? ==>
        err.value.CannotRead? && AbortedAt(p, w, start, todo, err.value.file, bad0, bad, attribution0, attribution)
    {
      ghost var prev, prevBad, prevAttribution := todo, bad, attribution;
      err := Dispatch(p, w, todo[i]);
      if err.Some? {
        Abort(p, w, start, universe, todo, i, bad0, bad, attribution0, attribution);
      } else {
        Advance(p, w, start, universe, prev, todo, i, bad0, prevBad, bad, attribution0, prevAttribution, attribution);
      }
    }

    /** The growing-list loop of a run from `start`: processes entries by
        index until the list is exhausted or an entry cannot be read. */
    method Drive(p: Policy, w: World, start: string) returns (err: Option<Error>)
      modifies this
      ensures err.None? ==> Completed(p, w, start, todo, old(bad), bad, old(attribution), attribution)
      ensures err.Some? ==>
        err.value.CannotRead? && AbortedAt(p, w, start, todo, err.value.file, old(bad), bad, old(attribution), attribution)
    {
      ghost var universe := Universe(w, start);
      todo := [start];
      var i := 0;
      Begin(p, w, start, universe, bad, attribution);
      while i < |todo|
        invariant i <= |todo| <= |universe|
        invariant Progress(p, w, start, universe, todo, i, old(bad), bad, old(attribution), attribution)
        decreases |universe| - i
      {
        err := Step(p, w, start, universe, i, old(bad), old(attribution));
        if err.Some? {
          return;
        }
        i := i + 1;
      }
      Finish(p, w, start, universe, todo, old(bad), bad, old(attribution), attribution);
      err := None;
    }
  }

  /** The drive loop's invariants hold before the first iteration. */
  lemma Begin(p: Policy, w: World, start: string, universe: set<string>,
              bad: seq<string>, attribution: map<string, set<string>>)
    requires universe == Universe(w, start)
    ensures Progress(p, w, start, universe, [start], 0, bad, bad, attribution, attribution)
  {
    assert [start][..0] == [];
    assert start in universe;
  }

  /** When every entry is processed, the run is complete. */
  lemma Finish(p: Policy, w: World, start: string, universe: set<string>, todo: seq<string>,
               bad0: seq<string>, bad: seq<string>,
               attribution0: map<string, set<string>>, attribution: map<string, set<string>>)
    requires Progress(p, w, start, universe, todo, |todo|, bad0, bad, attribution0, attribution)
    ensures Completed(p, w, start, todo, bad0, bad, attribution0, attribution)
  {
    assert todo[..|todo|] == todo;
  }

  lemma Abort(p: Policy, w: World, start: string, universe: set<string>, todo: seq<string>, i: nat,
              bad0: seq<string>, bad: seq<string>,
              attribution0: map<string, set<string>>, attribution: map<string, set<string>>)
    requires Progress(p, w, start, universe, todo, i, bad0, bad, attribution0, attribution)
    requires i < |todo| && Fails(p, w, todo[i])
    ensures AbortedAt(p, w, start, todo, Referrer(p, w, todo[i]), bad0, bad, attribution0, attribution)
  {
  }

  /** Processing one entry that does not fail keeps the drive loop's
      invariants, with one more entry processed. */
  lemma Advance(p: Policy, w: World, start: string, universe: set<string>, prev: seq<string>, next: seq<string>, i: nat,
                bad0: seq<string>, prevBad: seq<string>, nextBad: seq<string>,
                attribution0: map<string, set<string>>,
                prevAttribution: map<string, set<string>>, nextAttribution: map<string, set<string>>)
    requires Progress(p, w, start, universe, prev, i, bad0, prevBad, attribution0, prevAttribution)
    requires i < |prev| && !Fails(p, w, prev[i])
    requires next == AppendNew(prev, OutLinks(p, w, prev[i]))
    requires nextBad == prevBad + (if IsBad(p, w, prev[i]) then [prev[i]] else [])
    requires nextAttribution == Attribute(prevAttribution, OutLinks(p, w, prev[i]), Referrer(p, w, prev[i]))
    ensures Progress(p, w, start, universe, next, i + 1, bad0, nextBad, attribution0, nextAttribution)
  {
    AppendNewGrows(prev, OutLinks(p, w, prev[i]));
    OutLinksInUniverse(p, w, start, prev[i]);
    DistinctLength(next, universe);
    forall k | 0 <= k < i + 1 ensures Enqueued(p, w, next[k], next) && !Fails(p, w, next[k]) {
      assert next[k] == prev[k];
    }
    forall j | 0 < j < |next| ensures FromEarlier(p, w, next, j) {
      if j >= |prev| {
        assert next[i] == prev[i];
      } else {
        assert FromEarlier(p, w, prev, j);
        var k :| 0 <= k < j && prev[j] in OutLinks(p, w, prev[k]);
        assert next[k] == prev[k];
      }
    }
    StepFolds(p, w, bad0, attribution0, prev, next, i, prevBad, nextBad, prevAttribution, nextAttribution);
    StepTodo(p, w, start, prev, next, i);
  }

  /** One processed entry extends the to-do list by that entry's new links. */
  lemma StepTodo(p: Policy, w: World, start: string, prev: seq<string>, next: seq<string>, i: nat)
    requires i < |prev| && prev <= next
    requires prev == TodoFrom(p, w, [start], prev[..i])
    requires next == AppendNew(prev, OutLinks(p, w, prev[i]))
    ensures next == TodoFrom(p, w, [start], next[..i + 1])
  {
    var es := next[..i + 1];
    assert es[..i] == prev[..i] && es[i] == prev[i];
  }

  /** One processed entry extends the bad links and the multimap by what
      that entry contributes. */
  lemma StepFolds(p: Policy, w: World, bad0: seq<string>, attribution0: map<string, set<string>>,
                  prev: seq<string>, next: seq<string>, i: nat,
                  prevBad: seq<string>, nextBad: seq<string>,
                  prevAttribution: map<string, set<string>>, nextAttribution: map<string, set<string>>)
    requires i < |prev| && prev <= next
    requires prevBad == bad0 + BadFrom(p, w, prev[..i])
    requires prevAttribution == AttributeFrom(p, w, attribution0, prev[..i])
    requires nextBad == prevBad + (if IsBad(p, w, prev[i]) then [prev[i]] else [])
    requires nextAttribution == Attribute(prevAttribution, OutLinks(p, w, prev[i]), Referrer(p, w, prev[i]))
    ensures nextBad == bad0 + BadFrom(p, w, next[..i + 1])
    ensures nextAttribution == AttributeFrom(p, w, attribution0, next[..i + 1])
  {
    var es := next[..i + 1];
    assert es[..i] == prev[..i] && es[i] == prev[i];
    assert nextAttribution == AttributeFrom(p, w, attribution0, es);
  }

  lemma ExtractedSnoc(w: World, file: string, raws: seq<string>, k: nat)
    requires k < |raws|
    ensures Extracted(w, file, raws[..k + 1])
         == Extracted(w, file, raws[..k]) + (if Skipped(raws[k]) then [] else [Resolve(w, file, raws[k])])
  {
    assert raws[..k + 1][..k] == raws[..k];
  }

  lemma AppendNewSnoc(todo: seq<string>, links: seq<string>, x: string)
    ensures AppendNew(todo, links + [x])
         == (var t := AppendNew(todo, links); if x in t then t else t + [x])
  {
    assert (links + [x])[..|links|] == links;
  }

  lemma AttributeSnoc(m: map<string, set<string>>, links: seq<string>, x: string, source: string)
    ensures Attribute(m, links + [x], source)
         == (var a := Attribute(m, links, source); a[x := Referrers(a, x) + {source}])
  {
    assert (links + [x])[..|links|] == links;
  }
}
