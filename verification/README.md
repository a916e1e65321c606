# Link checker traversal engine, modelled in Dafny

This project models the link-traversal engine of the Gradle link checker plugin
(`LinkChecker.java`). A run starts from one local HTML file and walks a growing
to-do list by index. Each entry is either a URL, which is classified and perhaps
probed with one HEAD request, or a local file, whose `a/href`, `frame/src` and
`img/src` links are extracted, resolved and enqueued once each. Along the way the
run records which files refer to each link and which links are bad. It returns
the final length of the to-do list.

Layout, one module per file:

- `Types.dfy` (`LinkTypes`): values, the run's policy, and the `World` of oracles.
  `World` holds everything the engine asks outside code for: the file system as a
  finite map, the URL validator, the `java.io.File` path operations, `java.net.URL`
  parsing, host regular-expression matching and the HEAD probe.
- `Links.dfy` (`Links`): fragment stripping, skipped links, and resolving a raw
  link against the directory of the file that holds it.
- `Frontier.dfy` (`Frontier`): the to-do list that only grows without repeats,
  and the link-to-referrers multimap.
- `UrlPolicy.dfy` (`UrlPolicy`): the decision tree that says when a URL is bad.
- `Walk.dfy` (`Walk`): what one entry contributes (links, referrer file,
  bad-link entry, fatal error), what processing a sequence of entries adds up to,
  and the states of a run in progress, completed or stopped on an unreadable file.
- `Checker.dfy` (`Checker`): the class `LinkChecker` with the fields `todo`,
  `attribution` and `bad`. Its methods follow the source's imperative code: the
  growing-list `while` loop and the loop over extracted links. Each method's
  `ensures` ties the new state to the functions of `Walk` and `Frontier`.

The drive loop terminates because every identifier it can enqueue lies in a
finite ghost set. That set is the start path plus the resolved links of every HTML
file in the file system. The loop's measure is the size of that set minus the index.

Notes on the source's behaviour:

- Only `HEAD` is sent (LinkChecker.java line 148). There is no list of request
  methods to try in turn.
- The fragment is removed with `replaceFirst("#.*", "")`. Java's `.` does not
  match line terminators, so text after the first `#` is removed only up to the
  next line terminator. `StripFragment` models exactly that.
- When a directory's default file is itself a directory or cannot be read, the
  HTML parser fails. The run then aborts with `CannotRead`, like any unreadable file.
- The localhost rule matches only the literal host `localhost`. It does not match
  `127.0.0.1` or other loopback addresses.
- The probe oracle stands for the code `getResponseCode()` returns after the redirects
  `HttpURLConnection` follows by itself (same-protocol redirects, since lines 147-153 never
  turn that off). Any code in [300, 400) that still reaches line 154, such as a redirect
  from http to https, counts as success.

## Model

| member | source | states |
|---|---|---|
| `Links.StripFragment` | src/main/java/org/openrepose/gradle/plugins/linkchecker/LinkChecker.java:216 | a link without `#` is unchanged; on a single line the result is the longest prefix without `#`, cut exactly at the first `#` |
| `Links.DropToLineEnd` | src/main/java/org/openrepose/gradle/plugins/linkchecker/LinkChecker.java:216 | what `.*` consumes: the part dropped holds no line terminator, and an input without one is dropped entirely |
| `Links.DropToLineEndSuffix` | src/main/java/org/openrepose/gradle/plugins/linkchecker/LinkChecker.java:216 | what is kept is a tail of the input that is empty or starts at a line terminator, so the cut ends exactly at the first line terminator |
| `Links.StripFragmentCut` | src/main/java/org/openrepose/gradle/plugins/linkchecker/LinkChecker.java:216 | with a `#` present, the result is the text before the first `#` followed by what comes after it from the next line terminator on |
| `Links.StripFragmentOfAnchor` | src/main/java/org/openrepose/gradle/plugins/linkchecker/LinkChecker.java:216 | stripping `page#frag` (no `#` in `page`, no line break in `frag`) gives `page` |
| `Links.FragmentIgnored` | src/main/java/org/openrepose/gradle/plugins/linkchecker/LinkChecker.java:215-218 | `Resolve`: a non-URL link `page#frag` and `page` resolve to the same identifier: `page` canonicalised against the directory of the current file |
| `Links.ExtractedMembers` | src/main/java/org/openrepose/gradle/plugins/linkchecker/LinkChecker.java:208-218 | `Extracted` and `Resolve`: the identifiers taken from a file are exactly the resolved forms of its links that do not start with `javascript:` or `mailto:`; a URL is kept verbatim |
| `Links.SkippedLinkIgnored` | src/main/java/org/openrepose/gradle/plugins/linkchecker/LinkChecker.java:210-211 | a `javascript:` or `mailto:` link adds nothing to the extracted identifiers, so it is neither enqueued nor attributed |
| `Frontier.AppendNewGrows` | src/main/java/org/openrepose/gradle/plugins/linkchecker/LinkChecker.java:219-223 | `AppendNew`: enqueueing only appends; afterwards the list holds its old entries and every link, each new entry is one of the links, and a list without repeats stays without repeats |
| `Frontier.AttributeReferrers` | src/main/java/org/openrepose/gradle/plugins/linkchecker/LinkChecker.java:224 | `Attribute`: the current file is added to the referrers of every extracted link, whether or not it was already enqueued; no other key changes |
| `Frontier.DistinctCount` | src/main/java/org/openrepose/gradle/plugins/linkchecker/LinkChecker.java:115 | a list without repeats has as many entries as distinct values, so the returned size counts distinct identifiers |
| `Frontier.DistinctLength` | src/main/java/org/openrepose/gradle/plugins/linkchecker/LinkChecker.java:107 | a list without repeats drawn from a finite set is no longer than the set; this bounds the growing list and ends the loop |
| `UrlPolicy.NegativeTimeoutsAgree` | src/main/java/org/openrepose/gradle/plugins/linkchecker/LinkChecker.java:149-151 | a negative timeout setting sets no connect timeout, so all negative settings give the same verdict for every URL |
| `UrlPolicy.UrlIsBad` | src/main/java/org/openrepose/gradle/plugins/linkchecker/LinkChecker.java:129-183 | nothing is bad with every flag off; a malformed URL is bad iff failOnBadUrls; a non-http protocol is never bad; host `localhost` is bad iff failOnLocalHost, before the ignore patterns are looked at; another ignored host (`HostIgnored`: some pattern matches the whole host) is bad iff failOnIgnoredHost; otherwise bad iff failOnBadUrls and the HEAD response fails `ProbeOk` (neither 200 nor in [300,400)) |
| `UrlPolicy.NoProbeWhenExcluded` | src/main/java/org/openrepose/gradle/plugins/linkchecker/LinkChecker.java:132-145 | for a malformed, non-http, localhost or ignored URL the verdict is the same whatever the network would answer: no probe is made |
| `Walk.DirectoryDefault` | src/main/java/org/openrepose/gradle/plugins/linkchecker/LinkChecker.java:196-198 | `ReadFile`: a local entry naming a directory is read as its default file (`index.html` when none is configured, lines 88-90): that file is the referrer of its links, the entry is bad iff the file is absent, the run aborts iff the file exists but is not HTML, and otherwise its links are those extracted from the file |
| `Walk.PlainFileRead` | src/main/java/org/openrepose/gradle/plugins/linkchecker/LinkChecker.java:194-203 | `ReadFile`: a local entry that is not a directory is read as itself: bad iff absent, fatal iff unreadable, and an HTML file gives its extracted links |
| `Walk.BadFromMembers` | src/main/java/org/openrepose/gradle/plugins/linkchecker/LinkChecker.java:107-114 | `BadFrom`: the bad links a run appends are exactly the processed entries judged bad, in processing order, each once when the entries are distinct |
| `Walk.TodoFromMembers` | src/main/java/org/openrepose/gradle/plugins/linkchecker/LinkChecker.java:106-114 | `TodoFrom`, the list that processing entries in order builds: the starting list stays a prefix, and the result holds exactly the starting entries and the links of the processed entries |
| `Walk.AttributeFromReferrers` | src/main/java/org/openrepose/gradle/plugins/linkchecker/LinkChecker.java:197-224 | after a run, a link's referrers are its earlier referrers plus every processed file that holds it, so a link found in N files has those N files |
| `Walk.OutLinksInUniverse` | src/main/java/org/openrepose/gradle/plugins/linkchecker/LinkChecker.java:215-222 | every identifier an entry can enqueue is a resolved link of some HTML file in the file system |
| `Checker.LinkChecker.constructor` | src/main/java/org/openrepose/gradle/plugins/linkchecker/LinkChecker.java:82-83 | a run starts with an empty to-do list and the caller's multimap and bad-link list |
| `Checker.LinkChecker.AddBadUrlIfConfigured` | src/main/java/org/openrepose/gradle/plugins/linkchecker/LinkChecker.java:179-183 | appends the link iff failOnBadUrls |
| `Checker.LinkChecker.ProcessLinkAsUrl` | src/main/java/org/openrepose/gradle/plugins/linkchecker/LinkChecker.java:118-177 | only the bad-link list changes, and it gains the link iff `UrlIsBad` holds |
| `Checker.LinkChecker.ProcessLinks` | src/main/java/org/openrepose/gradle/plugins/linkchecker/LinkChecker.java:204-227 | the to-do list gains the file's new identifiers in order, and the file becomes a referrer of every identifier it holds |
| `Checker.LinkChecker.ProcessLinkAsFile` | src/main/java/org/openrepose/gradle/plugins/linkchecker/LinkChecker.java:185-235 | a missing target appends the original entry, not the defaulted path, to the bad links and changes nothing else; an unreadable target is a fatal error naming the target and changes nothing; a parsed target updates the to-do list and multimap as above |
| `Checker.LinkChecker.Dispatch` | src/main/java/org/openrepose/gradle/plugins/linkchecker/LinkChecker.java:108-113 | a validated URL goes to URL processing and anything else to file processing; fails exactly for an unreadable local target |
| `Checker.LinkChecker.CheckLinks` | src/main/java/org/openrepose/gradle/plugins/linkchecker/LinkChecker.java:73-116 | a null or absent start file fails before anything changes; on success the list is exactly the one the first-in first-out walk builds (`TodoFrom` of its own entries from the start file's absolute path), so its order is fixed; it has no repeats and holds every link of every entry; each later entry is a link of an earlier one; the count is the list's length and its number of distinct identifiers; bad links and multimap are exactly what the entries contribute; no entry is an unreadable local file. A run fails only for a null or absent start file or an unreadable file; on `CannotRead` the list is what the entries before the failing one built, in order, the named file is the target of the first entry that fails, every earlier entry was processed with its links enqueued, and the bad links and multimap hold exactly what those earlier entries contribute |
| `Checker.LinkChecker.Step` | src/main/java/org/openrepose/gradle/plugins/linkchecker/LinkChecker.java:107-113 | one iteration processes entry `i`: without error the list becomes `AppendNew` of its links, the bad links gain the entry iff it is bad and the multimap gains its referrer, keeping the loop's invariants with one more entry processed; with `CannotRead` nothing changes and the run is in the aborted state described below |
| `Checker.LinkChecker.Drive` | src/main/java/org/openrepose/gradle/plugins/linkchecker/LinkChecker.java:104-114 | the loop from the start path either completes or stops with `CannotRead`. On completion the list is the one processing its own entries in order builds from the start path; it has no repeats, holds every link of every entry, has each later entry a link of an earlier one and no unreadable entry, and the bad links and multimap hold exactly the entries' contributions. On `CannotRead` the named file is the target of the first entry that fails in that order, and the list, bad links and multimap are what the earlier entries produced |
| `Checker.Advance` | src/main/java/org/openrepose/gradle/plugins/linkchecker/LinkChecker.java:107-114 | processing an entry that does not fail keeps the loop's invariants with one more entry processed: the list has no repeats, stays inside the finite universe and stays closed under the links of processed entries; each later entry is a link of an earlier one; the bad links and multimap grow by that entry's contribution |

## Left out

- HTML parsing with Jsoup (LinkChecker.java lines 203-209) is not modelled. A readable file is the sequence of raw attribute values its parser yields. The order of the element kinds comes from a `HashMap` and is unspecified, so the model fixes none: it uses whatever order the sequence has.
- `UrlValidator.isValid`, `new URL(...)`, `File.getAbsolutePath`, `new File(dir, name)`, `File.getParent`, `File.getCanonicalPath` and `String.matches` are oracles in `World`. So are symbolic-link resolution and the normalisation of path strings.
- An `IOException` from `getCanonicalPath` is not modelled. It would surface through the same fatal catch as an unreadable file.
- The HEAD request (lines 146-168) is an oracle that returns the status code seen after any redirects the connection follows by itself, a connection failure or another I/O failure. Redirect following (`instanceFollowRedirects`, on by default) is part of the oracle. Both kinds of failure are treated the same, as in the source. The probe answers as a function of the URL and the connect timeout. The engine probes each URL at most once, because entries are never repeated.
- Logging through `logMsg`, the logger and the `PrintWriter` is a side channel and is not modelled.
- Null-defaulting of the multimap and bad-link list (lines 91-96) is not modelled. The constructor takes both collections as values.
- `String.matches` is a total oracle. In the source, an ignore pattern that is not a valid regular expression makes `host::matches` (line 140) throw `PatternSyntaxException`, and a null `ignoreHostRegexs` throws `NullPointerException` on the same line. Neither is caught, so either one aborts the run. The model has no such abort.
- The count is an unbounded `nat`; Java's `int` list size is not modelled, since a list of 2^31 entries is out of reach.
- The Gradle task, extension, plugin registration and exception type (`LinkCheckerPluginTask.java`, `LinkCheckerPluginExtension.java`, `LinkCheckerPlugin.java`, `LinkCheckerPluginException.java`) are build-tool glue around the engine and are not part of this model.
