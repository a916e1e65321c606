/** What processing one to-do entry contributes, as functions of the entry
    alone, and what a sequence of processed entries adds up to. */
module Walk {
  import opened LinkTypes
  import opened Links
  import opened Frontier
  import opened UrlPolicy

  datatype FileOutcome =
    | Missing                                 // recorded as a bad link
    | NotReadable(file: string)               // fatal for the run
    | Parsed(file: string, links: seq<string>)

  /** The file actually read for `fileLink`: a directory stands for its
      default file. */
  function TargetFile(w: World, defaultFile: string, fileLink: string): string {
    if fileLink in w.fs && w.fs[fileLink].Dir? then w.child(fileLink, defaultFile) else fileLink
  }

  /** What reading a local entry gives. */
  function ReadFile(w: World, defaultFile: string, fileLink: string): (r: FileOutcome)
    ensures r.Missing? <==> TargetFile(w, defaultFile, fileLink) !in w.fs
    ensures !r.Missing? ==> r.file == TargetFile(w, defaultFile, fileLink)
    ensures r.NotReadable? ==> r.file in w.fs && !w.fs[r.file].Html?
    ensures r.Parsed? ==>
      r.file in w.fs && w.fs[r.file].Html? && r.links == Extracted(w, r.file, w.fs[r.file].raws)
  {
    var file := TargetFile(w, defaultFile, fileLink);
    if file !in w.fs then Missing
    else match w.fs[file]
      case Html(raws) => Parsed(file, Extracted(w, file, raws))
      case _ => NotReadable(file)
  }

  /** A local entry naming a directory stands for the directory's default
      file (`index.html` when none is configured): that file is the referrer
      of its links, the entry is bad exactly when that file is absent, and
      the run aborts exactly when that file exists but is not HTML. */
  lemma DirectoryDefault(p: Policy, w: World, d: string)
    requires !w.isValidUrl(d) && d in w.fs && w.fs[d].Dir?
    ensures p.defaultFile.None? ==> Referrer(p, w, d) == w.child(d, "index.html")
    ensures p.defaultFile.Some? ==> Referrer(p, w, d) == w.child(d, p.defaultFile.value)
    ensures IsBad(p, w, d) <==> Referrer(p, w, d) !in w.fs
    ensures Fails(p, w, d) <==> Referrer(p, w, d) in w.fs && !w.fs[Referrer(p, w, d)].Html?
    ensures !IsBad(p, w, d) && !Fails(p, w, d) ==>
      OutLinks(p, w, d) == Extracted(w, Referrer(p, w, d), w.fs[Referrer(p, w, d)].raws)
  {
  }

  /** A local entry that is not a directory is read as itself. */
  lemma PlainFileRead(p: Policy, w: World, f: string)
    requires !w.isValidUrl(f) && !(f in w.fs && w.fs[f].Dir?)
    ensures Referrer(p, w, f) == f
    ensures IsBad(p, w, f) <==> f !in w.fs
    ensures Fails(p, w, f) <==> f in w.fs && w.fs[f].Unreadable?
    ensures f in w.fs && w.fs[f].Html? ==> OutLinks(p, w, f) == Extracted(w, f, w.fs[f].raws)
  {
  }

  /** The identifiers an entry hands to the to-do list: none for a URL. */
  function OutLinks(p: Policy, w: World, entry: string): seq<string> {
    if w.isValidUrl(entry) then []
    else match ReadFile(w, DefaultName(p), entry)
      case Parsed(_, links) => links
      case _ => []
  }

  /** Every link of `entry` is in the list. */
  predicate Enqueued(p: Policy, w: World, entry: string, todo: seq<string>) {
    forall l :: l in OutLinks(p, w, entry) ==> l in todo
  }

  /** Entry `j` of the list is a link of an earlier entry. */
  predicate FromEarlier(p: Policy, w: World, todo: seq<string>, j: nat)
    requires j < |todo|
  {
    exists k :: 0 <= k < j && todo[j] in OutLinks(p, w, todo[k])
  }

  /** The file recorded as the referrer of an entry's links. */
  function Referrer(p: Policy, w: World, entry: string): string {
    TargetFile(w, DefaultName(p), entry)
  }

  /** The entry is recorded in the bad-link list when processed. */
  predicate IsBad(p: Policy, w: World, entry: string) {
    if w.isValidUrl(entry) then UrlIsBad(p, w, entry)
    else ReadFile(w, DefaultName(p), entry).Missing?
  }

  /** Processing the entry aborts the run. */
  predicate Fails(p: Policy, w: World, entry: string) {
    !w.isValidUrl(entry) && ReadFile(w, DefaultName(p), entry).NotReadable?
  }

  /** The bad-link entries that processing `entries` in order appends. */
  function BadFrom(p: Policy, w: World, entries: seq<string>): (r: seq<string>)
    ensures |r| <= |entries|
    decreases |entries|
  {
    if entries == [] then []
    else
      var init, last := entries[..|entries| - 1], entries[|entries| - 1];
      BadFrom(p, w, init) + (if IsBad(p, w, last) then [last] else [])
  }

  /** The appended bad links are the bad entries, each once when the entries
      are distinct. */
  lemma {:induction false} BadFromMembers(p: Policy, w: World, entries: seq<string>)
    ensures forall x :: x in BadFrom(p, w, entries) <==> x in entries && IsBad(p, w, x)
    ensures Distinct(entries) ==> Distinct(BadFrom(p, w, entries))
    decreases |entries|
  {
    if entries != [] {
      var init, last := entries[..|entries| - 1], entries[|entries| - 1];
      assert entries == init + [last];
      BadFromMembers(p, w, init);
    }
  }

  /** The multimap after processing `entries` in order. */
  function AttributeFrom(p: Policy, w: World, m: map<string, set<string>>, entries: seq<string>)
    : (r: map<string, set<string>>)
    ensures m.Keys <= r.Keys
    decreases |entries|
  {
    if entries == [] then m
    else
      var init, last := entries[..|entries| - 1], entries[|entries| - 1];
      Attribute(AttributeFrom(p, w, m, init), OutLinks(p, w, last), Referrer(p, w, last))
  }

  /** The to-do list after processing `entries` in order, starting from the
      list `t`: each entry appends those of its links not yet in the list. */
  function TodoFrom(p: Policy, w: World, t: seq<string>, entries: seq<string>): (r: seq<string>)
    ensures |t| <= |r|
    decreases |entries|
  {
    if entries == [] then t
    else
      var init, last := entries[..|entries| - 1], entries[|entries| - 1];
      AppendNew(TodoFrom(p, w, t, init), OutLinks(p, w, last))
  }

  /** Processing only appends: the starting list is a prefix of the result,
      which holds exactly the starting entries and the links of the processed
      entries. */
  lemma {:induction false} TodoFromMembers(p: Policy, w: World, t: seq<string>, entries: seq<string>)
    ensures t <= TodoFrom(p, w, t, entries)
    ensures forall x :: x in TodoFrom(p, w, t, entries) <==>
      x in t || exists e :: e in entries && x in OutLinks(p, w, e)
    decreases |entries|
  {
    if entries != [] {
      var init, last := entries[..|entries| - 1], entries[|entries| - 1];
      var t0, links := TodoFrom(p, w, t, init), OutLinks(p, w, last);
      TodoFromMembers(p, w, t, init);
      AppendNewGrows(t0, links);
      assert forall e :: e in entries <==> e in init || e == last by {
        assert entries == init + [last];
      }
      forall x
        ensures x in TodoFrom(p, w, t, entries) <==> x in t || exists e :: e in entries && x in OutLinks(p, w, e)
      {
        if x in links {
          assert last in entries;
        }
      }
    }
  }

  /** A link's referrers after processing `entries` are its earlier referrers
      and every processed file that holds it: a link found in N files has
      those N files as referrers. */
  lemma {:induction false} AttributeFromReferrers(p: Policy, w: World, m: map<string, set<string>>, entries: seq<string>)
    ensures forall l :: l in AttributeFrom(p, w, m, entries) <==>
      l in m || exists e :: e in entries && l in OutLinks(p, w, e)
    ensures forall l, src :: src in Referrers(AttributeFrom(p, w, m, entries), l) <==>
      src in Referrers(m, l) || exists e :: e in entries && l in OutLinks(p, w, e) && src == Referrer(p, w, e)
    decreases |entries|
  {
    if entries != [] {
      var init, last := entries[..|entries| - 1], entries[|entries| - 1];
      var a0, links, file := AttributeFrom(p, w, m, init), OutLinks(p, w, last), Referrer(p, w, last);
      var a := AttributeFrom(p, w, m, entries);
      assert a == Attribute(a0, links, file);
      AttributeFromReferrers(p, w, m, init);
      AttributeReferrers(a0, links, file);
      assert forall e :: e in entries <==> e in init || e == last by {
        assert entries == init + [last];
      }
      forall l
        ensures l in a <==> l in m || exists e :: e in entries && l in OutLinks(p, w, e)
      {
        if l in links {
          assert last in entries;
        }
      }
      forall l, src
        ensures src in Referrers(a, l) <==>
          src in Referrers(m, l) || exists e :: e in entries && l in OutLinks(p, w, e) && src == Referrer(p, w, e)
      {
        if l in links && src == file {
          assert last in entries;
        }
      }
    }
  }

  /** Every identifier a run can ever enqueue. */
  ghost function Universe(w: World, start: string): set<string> {
    {start} + set f, l | f in w.fs && w.fs[f].Html? && l in Extracted(w, f, w.fs[f].raws) :: l
  }

  lemma OutLinksInUniverse(p: Policy, w: World, start: string, entry: string)
    ensures forall l :: l in OutLinks(p, w, entry) ==> l in Universe(w, start)
  {
    if !w.isValidUrl(entry) && ReadFile(w, DefaultName(p), entry).Parsed? {
      var f := ReadFile(w, DefaultName(p), entry).file;
      forall l | l in OutLinks(p, w, entry) ensures l in Universe(w, start) {
        assert f in w.fs && w.fs[f].Html? && l in Extracted(w, f, w.fs[f].raws);
      }
    }
  }

  /** What the drive loop keeps after processing the first `i` entries: the
      list starts with the start path, has no repeats, stays inside the finite
      universe, holds the links of every processed entry and only links of
      earlier entries; no processed entry failed; the list, the bad links and
      the multimap are what the processed entries produced, in order. */
  ghost predicate Progress(p: Policy, w: World, start: string, universe: set<string>, todo: seq<string>, i: nat,
                           bad0: seq<string>, bad: seq<string>,
                           attribution0: map<string, set<string>>, attribution: map<string, set<string>>)
  {
    universe == Universe(w, start)
    && i <= |todo| && 0 < |todo| && todo[0] == start && Distinct(todo)
    && (forall x :: x in todo ==> x in universe) && |todo| <= |universe|
    && (forall k :: 0 <= k < i ==> Enqueued(p, w, todo[k], todo) && !Fails(p, w, todo[k]))
    && (forall j :: 0 < j < |todo| ==> FromEarlier(p, w, todo, j))
    && todo == TodoFrom(p, w, [start], todo[..i])
    && bad == bad0 + BadFrom(p, w, todo[..i])
    && attribution == AttributeFrom(p, w, attribution0, todo[..i])
  }

  /** The state of a run that processed every entry: the list starts with the
      start path, has no repeats and holds every link of every entry, each
      later entry is a link of an earlier one, no entry is an unreadable
      file, and the list, the bad links and the multimap are what the entries
      produced, in order: the list is the fixpoint of processing itself. */
  ghost predicate Completed(p: Policy, w: World, start: string, todo: seq<string>,
                            bad0: seq<string>, bad: seq<string>,
                            attribution0: map<string, set<string>>, attribution: map<string, set<string>>)
  {
    0 < |todo| && todo[0] == start && Distinct(todo)
    && (forall k :: 0 <= k < |todo| ==> Enqueued(p, w, todo[k], todo) && !Fails(p, w, todo[k]))
    && (forall j :: 0 < j < |todo| ==> FromEarlier(p, w, todo, j))
    && todo == TodoFrom(p, w, [start], todo)
    && bad == bad0 + BadFrom(p, w, todo)
    && attribution == AttributeFrom(p, w, attribution0, todo)
  }

  /** The state of a run that stopped on an unreadable file: the list starts
      with the start path, has no repeats and holds only links of earlier
      entries; entry `k` is the first whose target cannot be read, and the
      list, the bad links and the multimap are what the entries before it
      produced, in order. */
  ghost predicate AbortedAt(p: Policy, w: World, start: string, todo: seq<string>, file: string,
                            bad0: seq<string>, bad: seq<string>,
                            attribution0: map<string, set<string>>, attribution: map<string, set<string>>)
  {
    0 < |todo| && todo[0] == start && Distinct(todo)
    && (forall j :: 0 < j < |todo| ==> FromEarlier(p, w, todo, j))
    && (exists k :: 0 <= k < |todo| && Fails(p, w, todo[k]) && file == Referrer(p, w, todo[k])
                   && (forall j :: 0 <= j < k ==> !Fails(p, w, todo[j]) && Enqueued(p, w, todo[j], todo))
                   && todo == TodoFrom(p, w, [start], todo[..k])
                   && bad == bad0 + BadFrom(p, w, todo[..k])
                   && attribution == AttributeFrom(p, w, attribution0, todo[..k]))
  }
}
