/** Turning the raw attribute values of one HTML file into link identifiers. */
module Links {
  import opened LinkTypes

  /** The characters Java's regular-expression `.` does not match. */
  predicate IsLineTerminator(c: char) {
    c == '\n' || c == '\r' || c == '\U{85}' || c == '\U{2028}' || c == '\U{2029}'
  }

  predicate NoLineTerminator(s: string) {
    forall i :: 0 <= i < |s| ==> !IsLineTerminator(s[i])
  }

  /** Drops the characters up to, not including, the first line terminator. */
  function DropToLineEnd(s: string): (r: string)
    ensures |r| <= |s|
    ensures NoLineTerminator(s[..|s| - |r|])
    ensures NoLineTerminator(s) ==> r == []
  {
    if s == [] || IsLineTerminator(s[0]) then s else DropToLineEnd(s[1..])
  }

  /** What is kept is the tail of the input from its first line terminator
      on, or nothing when it has none. */
  lemma {:induction false} DropToLineEndSuffix(s: string)
    ensures DropToLineEnd(s) == s[|s| - |DropToLineEnd(s)|..]
    ensures DropToLineEnd(s) == [] || IsLineTerminator(DropToLineEnd(s)[0])
  {
    if s != [] && !IsLineTerminator(s[0]) {
      DropToLineEndSuffix(s[1..]);
    }
  }

  /** `link.replaceFirst("#.*", "")`: removes the first `#` and everything
      after it on the same line. */
  function StripFragment(s: string): (r: string)
    ensures |r| <= |s|
    ensures '#' !in s ==> r == s
    ensures NoLineTerminator(s) ==> r <= s && '#' !in r && (|r| == |s| || s[|r|] == '#')
  {
    if s == [] then []
    else if s[0] == '#' then DropToLineEnd(s[1..])
    else
      assert NoLineTerminator(s) ==> NoLineTerminator(s[1..]) by {
        if NoLineTerminator(s) {
          forall i | 0 <= i < |s[1..]| ensures !IsLineTerminator(s[1..][i]) {
            assert s[1..][i] == s[i + 1];
          }
        }
      }
      [s[0]] + StripFragment(s[1..])
  }

  /** When `s[i]` is the first `#`, the cut runs from it up to, not
      including, the next line terminator; what follows is kept. */
  lemma {:induction false} StripFragmentCut(s: string, i: nat)
    requires i < |s| && s[i] == '#'
    requires forall k :: 0 <= k < i ==> s[k] != '#'
    ensures StripFragment(s) == s[..i] + DropToLineEnd(s[i + 1..])
  {
    if i == 0 {
      assert s[..0] + DropToLineEnd(s[1..]) == DropToLineEnd(s[1..]);
    } else {
      var t := s[1..];
      forall k | 0 <= k < i - 1 ensures t[k] != '#' {
        assert t[k] == s[k + 1];
      }
      StripFragmentCut(t, i - 1);
      StripFragmentConsCut(s, i);
    }
  }

  /** The inductive step of `StripFragmentCut`: a leading character other
      than `#` is kept in front of the cut of the rest. */
  lemma StripFragmentConsCut(s: string, i: nat)
    requires 0 < i < |s| && s[0] != '#'
    requires StripFragment(s[1..]) == s[1..][..i - 1] + DropToLineEnd(s[1..][i..])
    ensures StripFragment(s) == s[..i] + DropToLineEnd(s[i + 1..])
  {
    assert s[1..][i..] == s[i + 1..];
    ConsPrefix(s, i, DropToLineEnd(s[i + 1..]));
  }

  lemma ConsPrefix(s: string, i: nat, d: string)
    requires 0 < i <= |s|
    ensures [s[0]] + (s[1..][..i - 1] + d) == s[..i] + d
  {
    assert s[..i] == [s[0]] + s[1..][..i - 1];
  }

  /** Links that are logged and otherwise ignored. */
  predicate Skipped(raw: string) {
    "javascript:" <= raw || "mailto:" <= raw
  }

  /** The identifier a raw link of `file` stands for: a URL verbatim, anything
      else without its fragment, resolved against the directory of `file`. */
  function Resolve(w: World, file: string, raw: string): string {
    if w.isValidUrl(raw) then raw else w.canonical(w.parent(file), StripFragment(raw))
  }

  /** The identifiers extracted from `file`, in order, skipped links left out. */
  function Extracted(w: World, file: string, raws: seq<string>): (r: seq<string>)
    ensures |r| <= |raws|
    decreases |raws|
  {
    if raws == [] then []
    else
      var init, last := raws[..|raws| - 1], raws[|raws| - 1];
      Extracted(w, file, init) + (if Skipped(last) then [] else [Resolve(w, file, last)])
  }

  /** The extracted identifiers are exactly the resolved forms of the links
      that are not skipped. */
  lemma {:induction false} ExtractedMembers(w: World, file: string, raws: seq<string>)
    ensures forall x :: x in Extracted(w, file, raws) <==>
      exists raw :: raw in raws && !Skipped(raw) && x == Resolve(w, file, raw)
    decreases |raws|
  {
    if raws != [] {
      var init, last := raws[..|raws| - 1], raws[|raws| - 1];
      assert raws == init + [last];
      ExtractedMembers(w, file, init);
    }
  }

  /** `javascript:` and `mailto:` links contribute no identifier. */
  lemma SkippedLinkIgnored(w: World, file: string, raws: seq<string>, raw: string)
    requires Skipped(raw)
    ensures Extracted(w, file, raws + [raw]) == Extracted(w, file, raws)
  {
    assert (raws + [raw])[..|raws|] == raws;
  }

  /** Stripping `#frag` off `page` gives back `page`. */
  lemma {:induction false} StripFragmentOfAnchor(page: string, frag: string)
    requires '#' !in page
    requires NoLineTerminator(frag)
    ensures StripFragment(page + "#" + frag) == page
  {
    var s := page + "#" + frag;
    if page == [] {
      assert s[0] == '#' && s[1..] == frag;
    } else {
      assert s[0] == page[0] && s[1..] == page[1..] + "#" + frag;
      StripFragmentOfAnchor(page[1..], frag);
      assert [page[0]] + page[1..] == page;
    }
  }

  /** A local link `page#frag` and the link `page` name the same identifier. */
  lemma FragmentIgnored(w: World, file: string, page: string, frag: string)
    requires '#' !in page
    requires NoLineTerminator(frag)
    requires !w.isValidUrl(page) && !w.isValidUrl(page + "#" + frag)
    ensures Resolve(w, file, page + "#" + frag) == Resolve(w, file, page)
    ensures Resolve(w, file, page) == w.canonical(w.parent(file), page)
  {
    StripFragmentOfAnchor(page, frag);
  }
}
