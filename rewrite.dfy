/** The rewrite pass of page_loader/engine.py: parse_url, the TAGS table and
    parse_page, which points every local image of the page at its copy in
    the resources directory and lists the resources to fetch.

    urllib's urlparse and urljoin are library code and stay uninterpreted:
    they are fields of UrlLib, and every statement here holds for any
    functions put there. */
module Rewrite {
  import opened Wrappers
  import opened Paths
  import opened Files

  /** The six fields of urllib.parse.urlparse's result. */
  datatype UrlParts = UrlParts(
    scheme: string, netloc: string, path: string,
    params: string, query: string, fragment: string)

  /** parse_url's namedtuple Url. */
  datatype ParsedUrl = ParsedUrl(scheme: string, netloc: string, path: string)

  datatype UrlLib = UrlLib(
    urlparse: string -> UrlParts,
    urljoin: (string, string) -> string)

  /** parse_url(url): the scheme, netloc and path of urlparse(url). */
  function ParseUrl(lib: UrlLib, url: string): ParsedUrl
  {
    var u := lib.urlparse(url);
    ParsedUrl(u.scheme, u.netloc, u.path)
  }

  function Netloc(lib: UrlLib, url: string): string
  {
    ParseUrl(lib, url).netloc
  }

  /** An element of the parsed page: its tag name and its attributes. */
  datatype Tag = Tag(name: string, attrs: map<string, string>)

  /** One entry of parse_page's resource list: the tag name, the link to
      fetch and the name of the file to save it under. */
  datatype Resource = Resource(tag: string, link: string, filename: string)

  /** TAGS = {'img': 'src'}: the tags visited and the attribute read. */
  function TagAttribute(name: string): Option<string>
  {
    if name == "img" then Some("src") else None
  }

  /** How an attribute value is classified against the page URL: without
      a netloc it is joined onto the page URL, with the page's own netloc
      it is kept as written, and with another netloc it is skipped. */
  function Resolve(lib: UrlLib, url: string, value: string): (r: Option<string>)
    ensures r.None? <==> Netloc(lib, value) != "" && Netloc(lib, value) != Netloc(lib, url)
    ensures Netloc(lib, value) == "" ==> r == Some(lib.urljoin(url, value))
    ensures Netloc(lib, value) != "" && r.Some? ==> r.value == value
  {
    var source := ParseUrl(lib, value);
    if source.netloc == "" then Some(lib.urljoin(url, value))
    else if ParseUrl(lib, url).netloc == source.netloc then Some(value)
    else None
  }

  /** The link a tag stands for when parse_page rewrites it: the tag is
      visited, has the attribute, and the value is local. */
  function LocalLink(lib: UrlLib, url: string, t: Tag): Option<string>
  {
    match TagAttribute(t.name)
    case None => None
    case Some(a) => if a in t.attrs then Resolve(lib, url, t.attrs[a]) else None
  }

  /** join(resources_dir_name, convert_name(link, True)). */
  function LocalPath(dirName: string, link: string): string
  {
    Join(dirName, ConvertName(link, true))
  }

  /** The tag after parse_page: a local tag's attribute now names the copy. */
  function RewriteTag(lib: UrlLib, url: string, dirName: string, t: Tag): (r: Tag)
    ensures r.name == t.name && r.attrs.Keys == t.attrs.Keys
    ensures forall a :: a in t.attrs && a != "src" ==> r.attrs[a] == t.attrs[a]
    ensures LocalLink(lib, url, t).None? ==> r == t
    ensures LocalLink(lib, url, t).Some? ==>
      r.attrs["src"] == LocalPath(dirName, LocalLink(lib, url, t).value)
  {
    match LocalLink(lib, url, t)
    case None => t
    case Some(link) => t.(attrs := t.attrs["src" := LocalPath(dirName, link)])
  }

  /** The document after parse_page. */
  function Rewritten(lib: UrlLib, url: string, dirName: string, tags: seq<Tag>): seq<Tag>
  {
    seq(|tags|, i requires 0 <= i < |tags| => RewriteTag(lib, url, dirName, tags[i]))
  }

  /** The links of the visited local tags, in document order, repeats included. */
  function Locals(lib: UrlLib, url: string, tags: seq<Tag>): (r: seq<string>)
    ensures |r| <= |tags|
  {
    if tags == [] then []
    else
      var before := Locals(lib, url, tags[..|tags| - 1]);
      match LocalLink(lib, url, tags[|tags| - 1])
      case None => before
      case Some(l) => before + [l]
  }

  /** The links of the resources, in list order. */
  function Links(rs: seq<Resource>): seq<string>
  {
    seq(|rs|, k requires 0 <= k < |rs| => rs[k].link)
  }

  /** The resource list that parse_page returns for the tags, one tag at a
      time: a local link not seen before is appended. */
  function Collected(lib: UrlLib, url: string, tags: seq<Tag>): seq<Resource>
  {
    if tags == [] then []
    else
      var before := Collected(lib, url, tags[..|tags| - 1]);
      var t := tags[|tags| - 1];
      match LocalLink(lib, url, t)
      case None => before
      case Some(l) =>
        if l in Links(before) then before
        else before + [Resource(t.name, l, ConvertName(l, true))]
  }

  /** The body of parse_page's loop for one tag: find the link it points
      to, skip it when it has none or points to another host, otherwise
      point its attribute at the local copy. */
  method RelinkTag(lib: UrlLib, rootParsed: ParsedUrl, url: string, dirName: string, tag: Tag)
    returns (newTag: Tag, link: Option<string>, changedName: string)
    requires rootParsed == ParseUrl(lib, url)
    ensures link == LocalLink(lib, url, tag)
    ensures link.Some? ==> changedName == ConvertName(link.value, true)
    ensures newTag == RewriteTag(lib, url, dirName, tag)
  {
    newTag, link, changedName := tag, None, "";
    var attr := TagAttribute(tag.name);
    if attr.None? || attr.value !in tag.attrs {
      return;
    }
    var value := tag.attrs[attr.value];
    var sourceParsed := ParseUrl(lib, value);
    var sourceLink: string;
    if sourceParsed.netloc == "" {
      sourceLink := lib.urljoin(url, value);
    } else if rootParsed.netloc == sourceParsed.netloc {
      sourceLink := value;
    } else {
      return;
    }
    changedName := ConvertName(sourceLink, true);
    var changedLink := Join(dirName, changedName);
    newTag := tag.(attrs := tag.attrs[attr.value := changedLink]);
    link := Some(sourceLink);
  }

  /** parse_page(page, url, resources_dir_name), on the tags of the parsed page:
      rewrites the tags in place and returns the resource list. */
  method ParsePage(lib: UrlLib, doc: array<Tag>, url: string, dirName: string)
    returns (resources: seq<Resource>)
    modifies doc
    ensures doc[..] == Rewritten(lib, url, dirName, old(doc[..]))
    ensures resources == Collected(lib, url, old(doc[..]))
  {
    ghost var tags := doc[..];
    var rootParsed := ParseUrl(lib, url);
    resources := [];
    var seen: set<string> := {};
    for i := 0 to doc.Length
      invariant doc[..] == Rewritten(lib, url, dirName, tags[..i]) + tags[i..]
      invariant resources == Collected(lib, url, tags[..i])
      invariant forall l :: l in seen <==> l in Links(resources)
    {
      var tag := doc[i];
      RewrittenStep(lib, url, dirName, tags, i);
      var newTag, link, changedName := RelinkTag(lib, rootParsed, url, dirName, tag);
      CollectedNext(lib, url, tags, i, link);
      doc[i] := newTag;
      assert doc[..] == Rewritten(lib, url, dirName, tags[..i + 1]) + tags[i + 1..];
      if link.None? || link.value in seen {
        continue;
      }
      seen := seen + {link.value};
      resources := resources + [Resource(tag.name, link.value, changedName)];
      assert resources == Collected(lib, url, tags[..i + 1]);
    }
    assert tags[..doc.Length] == tags;
  }

  /** Collecting one more tag of the page. */
  lemma CollectedNext(lib: UrlLib, url: string, tags: seq<Tag>, i: nat, link: Option<string>)
    requires i < |tags| && link == LocalLink(lib, url, tags[i])
    ensures var before := Collected(lib, url, tags[..i]);
      if link.None? || link.value in Links(before) then Collected(lib, url, tags[..i + 1]) == before
      else
        Collected(lib, url, tags[..i + 1]) == before + [Resource(tags[i].name, link.value, ConvertName(link.value, true))] &&
        Links(before + [Resource(tags[i].name, link.value, ConvertName(link.value, true))]) == Links(before) + [link.value]
  {
    assert tags[..i + 1][..i] == tags[..i];
    CollectedStep(lib, url, tags[..i + 1]);
  }

  /** Rewriting one more tag of a partly rewritten page. */
  lemma RewrittenStep(lib: UrlLib, url: string, dirName: string, tags: seq<Tag>, i: nat)
    requires i < |tags|
    ensures (Rewritten(lib, url, dirName, tags[..i]) + tags[i..])[i] == tags[i]
    ensures (Rewritten(lib, url, dirName, tags[..i]) + tags[i..])[i := RewriteTag(lib, url, dirName, tags[i])]
      == Rewritten(lib, url, dirName, tags[..i + 1]) + tags[i + 1..]
  {
    RewrittenSnoc(lib, url, dirName, tags, i);
    assert tags[i..][1..] == tags[i + 1..];
    Splice(Rewritten(lib, url, dirName, tags[..i]), tags[i..], RewriteTag(lib, url, dirName, tags[i]));
  }

  /** The rewritten prefix grows by the rewritten next tag. */
  lemma RewrittenSnoc(lib: UrlLib, url: string, dirName: string, tags: seq<Tag>, i: nat)
    requires i < |tags|
    ensures Rewritten(lib, url, dirName, tags[..i + 1])
      == Rewritten(lib, url, dirName, tags[..i]) + [RewriteTag(lib, url, dirName, tags[i])]
  {
    var next := Rewritten(lib, url, dirName, tags[..i + 1]);
    var grown := Rewritten(lib, url, dirName, tags[..i]) + [RewriteTag(lib, url, dirName, tags[i])];
    forall j | 0 <= j <= i ensures next[j] == grown[j] {
      if j < i {
        assert tags[..i + 1][j] == tags[..i][j];
      }
    }
  }

  /** Replacing the first element after a prefix moves it into the prefix. */
  lemma Splice(done: seq<Tag>, rest: seq<Tag>, x: Tag)
    requires rest != []
    ensures (done + rest)[|done|] == rest[0]
    ensures (done + rest)[|done| := x] == (done + [x]) + rest[1..]
  {
    var a, b := (done + rest)[|done| := x], (done + [x]) + rest[1..];
    forall j | 0 <= j < |a| ensures a[j] == b[j] {
      if j < |done| {
        assert a[j] == done[j];
      } else if j > |done| {
        assert a[j] == rest[j - |done|];
      }
    }
  }

  // ---------------------------------------------------------------------
  // What the resource list is
  // ---------------------------------------------------------------------

  /** Index of the first occurrence of x in s. */
  function IndexOf(s: seq<string>, x: string): (r: nat)
    requires x in s
    ensures r < |s| && s[r] == x
    ensures forall j :: 0 <= j < r ==> s[j] != x
  {
    if s[0] == x then 0 else 1 + IndexOf(s[1..], x)
  }

  /** The links of the local tags are exactly the links of the tags that
      resolve locally somewhere in the document. */
  lemma {:induction false} LocalsMembers(lib: UrlLib, url: string, tags: seq<Tag>, l: string)
    ensures l in Locals(lib, url, tags) <==>
      exists i :: 0 <= i < |tags| && LocalLink(lib, url, tags[i]) == Some(l)
    decreases |tags|
  {
    if tags != [] {
      var n := |tags| - 1;
      var front := tags[..n];
      LocalsMembers(lib, url, front, l);
      assert forall i :: 0 <= i < n ==> front[i] == tags[i];
      if l in Locals(lib, url, tags) && l !in Locals(lib, url, front) {
        assert LocalLink(lib, url, tags[n]) == Some(l);
      }
    }
  }

  /** Every resource comes from an image, and the list is no longer than
      the number of local tags. */
  lemma {:induction false} CollectedEntries(lib: UrlLib, url: string, tags: seq<Tag>)
    ensures var rs := Collected(lib, url, tags);
      |rs| <= |Locals(lib, url, tags)| &&
      forall k :: 0 <= k < |rs| ==> rs[k].tag == "img" && rs[k].filename == ConvertName(rs[k].link, true)
    decreases |tags|
  {
    if tags != [] {
      var front := tags[..|tags| - 1];
      CollectedEntries(lib, url, front);
      CollectedStep(lib, url, tags);
      var before, rs := Collected(lib, url, front), Collected(lib, url, tags);
      forall k | 0 <= k < |rs| ensures rs[k].tag == "img" && rs[k].filename == ConvertName(rs[k].link, true) {
        if k < |before| {
          assert rs[k] == before[k];
        } else {
          var t := tags[|tags| - 1];
          assert TagAttribute(t.name).Some?;
        }
      }
    }
  }

  /** The list holds a link exactly when some earlier local tag resolved to it. */
  lemma {:induction false} CollectedCovers(lib: UrlLib, url: string, tags: seq<Tag>)
    ensures forall l :: l in Links(Collected(lib, url, tags)) <==> l in Locals(lib, url, tags)
    decreases |tags|
  {
    if tags != [] {
      var front := tags[..|tags| - 1];
      CollectedCovers(lib, url, front);
      CollectedStep(lib, url, tags);
    }
  }

  /** One step of Collected and Locals, spelled out. */
  lemma CollectedStep(lib: UrlLib, url: string, tags: seq<Tag>)
    requires tags != []
    ensures var front, t := tags[..|tags| - 1], tags[|tags| - 1];
      var before, ls0 := Collected(lib, url, front), Locals(lib, url, front);
      match LocalLink(lib, url, t)
      case None =>
        Collected(lib, url, tags) == before && Locals(lib, url, tags) == ls0
      case Some(l) =>
        Locals(lib, url, tags) == ls0 + [l] &&
        (l in Links(before) ==> Collected(lib, url, tags) == before) &&
        (l !in Links(before) ==>
          Collected(lib, url, tags) == before + [Resource(t.name, l, ConvertName(l, true))] &&
          Links(Collected(lib, url, tags)) == Links(before) + [l])
  {
    var front, t := tags[..|tags| - 1], tags[|tags| - 1];
    var before := Collected(lib, url, front);
    match LocalLink(lib, url, t)
    case None =>
    case Some(l) =>
      if l !in Links(before) {
        var r := Resource(t.name, l, ConvertName(l, true));
        assert Links(before + [r]) == Links(before) + [l];
      }
  }

  lemma IndexOfAppend(s: seq<string>, y: string, x: string)
    requires x in s
    ensures IndexOf(s + [y], x) == IndexOf(s, x)
  {
    var i, j := IndexOf(s + [y], x), IndexOf(s, x);
    assert (s + [y])[j] == x;
    assert i <= j;
  }

  /** Each link of rs occurs in ls, and an earlier entry's link occurs
      first in ls before a later entry's link does. */
  predicate FirstSeenOrder(rs: seq<Resource>, ls: seq<string>)
  {
    forall a, b :: 0 <= a < b < |rs| ==>
      rs[a].link in ls && rs[b].link in ls &&
      IndexOf(ls, rs[a].link) < IndexOf(ls, rs[b].link)
  }

  /** Another local link after the ones seen keeps the order of the list. */
  lemma FirstSeenExtend(rs: seq<Resource>, ls: seq<string>, l: string)
    requires FirstSeenOrder(rs, ls)
    requires forall k :: 0 <= k < |rs| ==> rs[k].link in ls
    ensures FirstSeenOrder(rs, ls + [l])
    ensures forall k :: 0 <= k < |rs| ==> IndexOf(ls + [l], rs[k].link) == IndexOf(ls, rs[k].link)
  {
    forall k | 0 <= k < |rs|
      ensures IndexOf(ls + [l], rs[k].link) == IndexOf(ls, rs[k].link)
    {
      IndexOfAppend(ls, l, rs[k].link);
    }
  }

  /** A new link appended to both lists comes last in the order. */
  lemma FirstSeenAppend(rs: seq<Resource>, ls: seq<string>, r: Resource)
    requires FirstSeenOrder(rs, ls)
    requires forall k :: 0 <= k < |rs| ==> rs[k].link in ls
    requires r.link !in ls
    ensures FirstSeenOrder(rs + [r], ls + [r.link])
  {
    var ls1 := ls + [r.link];
    FirstSeenExtend(rs, ls, r.link);
    assert IndexOf(ls1, r.link) == |ls| by {
      assert ls1[|ls|] == r.link;
    }
    var rs1 := rs + [r];
    forall a, b | 0 <= a < b < |rs1|
      ensures rs1[a].link in ls1 && rs1[b].link in ls1 &&
              IndexOf(ls1, rs1[a].link) < IndexOf(ls1, rs1[b].link)
    {
      assert rs1[a] == rs[a];
      if b < |rs| {
        assert rs1[b] == rs[b];
      }
    }
  }

  /** The list follows first occurrences: an earlier entry's link first
      appears among the local links before a later entry's link does.
      In particular no link is listed twice. */
  lemma {:induction false} CollectedOrder(lib: UrlLib, url: string, tags: seq<Tag>)
    ensures FirstSeenOrder(Collected(lib, url, tags), Locals(lib, url, tags))
    decreases |tags|
  {
    if tags != [] {
      var front := tags[..|tags| - 1];
      CollectedOrder(lib, url, front);
      CollectedCovers(lib, url, front);
      CollectedStep(lib, url, tags);
      var before, ls0 := Collected(lib, url, front), Locals(lib, url, front);
      assert forall k :: 0 <= k < |before| ==> before[k].link in ls0 by {
        forall k | 0 <= k < |before| ensures before[k].link in Links(before) {
          assert Links(before)[k] == before[k].link;
        }
      }
      match LocalLink(lib, url, tags[|tags| - 1])
      case None =>
      case Some(l) =>
        if l in Links(before) {
          FirstSeenExtend(before, ls0, l);
        } else {
          FirstSeenAppend(before, ls0, Resource(tags[|tags| - 1].name, l, ConvertName(l, true)));
        }
    }
  }

  /** No two entries of rs have the same link. */
  predicate DistinctLinks(rs: seq<Resource>)
  {
    forall a, b :: 0 <= a < b < |rs| ==> rs[a].link != rs[b].link
  }

  /** No link is listed twice. */
  lemma CollectedDistinct(lib: UrlLib, url: string, tags: seq<Tag>)
    ensures DistinctLinks(Collected(lib, url, tags))
  {
    var rs := Collected(lib, url, tags);
    CollectedOrder(lib, url, tags);
    forall a, b | 0 <= a < b < |rs| ensures rs[a].link != rs[b].link {
      var ls := Locals(lib, url, tags);
      assert rs[a].link in ls && rs[b].link in ls && IndexOf(ls, rs[a].link) < IndexOf(ls, rs[b].link);
    }
  }

  /** parse_page touches only the tags TAGS names: any other tag is left as
      it was, and every listed resource is the link of an img tag. */
  lemma ImagesOnly(lib: UrlLib, url: string, dirName: string, tags: seq<Tag>)
    ensures var out := Rewritten(lib, url, dirName, tags);
      forall i :: 0 <= i < |tags| && tags[i].name != "img" ==> out[i] == tags[i]
    ensures var rs := Collected(lib, url, tags);
      forall k :: 0 <= k < |rs| ==> (rs[k].tag == "img" &&
        exists i :: 0 <= i < |tags| && tags[i].name == "img" && LocalLink(lib, url, tags[i]) == Some(rs[k].link))
  {
    var out := Rewritten(lib, url, dirName, tags);
    forall i | 0 <= i < |tags| && tags[i].name != "img" ensures out[i] == tags[i] {
      assert out[i] == RewriteTag(lib, url, dirName, tags[i]);
      assert LocalLink(lib, url, tags[i]).None?;
    }
    var rs := Collected(lib, url, tags);
    CollectedEntries(lib, url, tags);
    forall k | 0 <= k < |rs|
      ensures exists i :: 0 <= i < |tags| && tags[i].name == "img" && LocalLink(lib, url, tags[i]) == Some(rs[k].link)
    {
      var l := rs[k].link;
      assert Links(rs)[k] == l;
      CollectedLinks(lib, url, tags, l);
      var i :| 0 <= i < |tags| && LocalLink(lib, url, tags[i]) == Some(l);
      assert TagAttribute(tags[i].name).Some?;
    }
  }

  /** A link is listed iff some tag of the document resolves to it locally. */
  lemma CollectedLinks(lib: UrlLib, url: string, tags: seq<Tag>, l: string)
    ensures l in Links(Collected(lib, url, tags)) <==>
      exists i :: 0 <= i < |tags| && LocalLink(lib, url, tags[i]) == Some(l)
  {
    CollectedCovers(lib, url, tags);
    LocalsMembers(lib, url, tags, l);
  }

  /** The rewritten attribute is a path relative to the page's directory:
      the resources directory name, '/', and the converted name. */
  lemma LocalPathRelative(dirName: string, link: string)
    requires dirName != "" && !EndsWithSlash(dirName)
    ensures LocalPath(dirName, link) == dirName + "/" + ConvertName(link, true)
  {
    var name := ConvertName(link, true);
    assert !StartsWithSlash(name) by {
      if |name| > 0 { assert name[0] in name; }
    }
  }

  /** Every rewritten tag points at the file that the resource list records
      for its link, also when the link was already seen earlier. */
  lemma RewriteMatchesResources(lib: UrlLib, url: string, dirName: string, tags: seq<Tag>)
    ensures var rs, out := Collected(lib, url, tags), Rewritten(lib, url, dirName, tags);
      forall i :: 0 <= i < |tags| && LocalLink(lib, url, tags[i]).Some? ==>
        exists k :: 0 <= k < |rs| && rs[k].link == LocalLink(lib, url, tags[i]).value &&
          out[i].attrs["src"] == Join(dirName, rs[k].filename)
  {
    var rs := Collected(lib, url, tags);
    CollectedEntries(lib, url, tags);
    forall i | 0 <= i < |tags| && LocalLink(lib, url, tags[i]).Some?
      ensures exists k :: 0 <= k < |rs| && rs[k].link == LocalLink(lib, url, tags[i]).value &&
                          Rewritten(lib, url, dirName, tags)[i].attrs["src"] == Join(dirName, rs[k].filename)
    {
      var l := LocalLink(lib, url, tags[i]).value;
      CollectedLinks(lib, url, tags, l);
      var k :| 0 <= k < |rs| && Links(rs)[k] == l;
      assert rs[k].link == l;
    }
  }
}
