# page_loader in Dafny

A model of the core of page_loader.

page_loader downloads one web page into a directory. It saves the page as
`<name>.html`, where `<name>` is the URL without its scheme and with every
run of characters other than letters and digits replaced by `-`. It creates
a sibling directory `<name>_files`. Each `<img src>` of the page that points
to the page's own host, or has no host, is rewritten to
`<name>_files/<converted link>`, and the image is downloaded into that
directory. A failure while fetching the page, creating the directory or
writing the page aborts the run. A failure while fetching or writing an
image is ignored when it is a `RequestException` or an `OSError` (see
"Left out" on the `TypeError` a resource write can raise).

The model has six modules, one file each:

- `wrappers.dfy` (`Wrappers`): `Option` and `Result`.
- `paths.dfy` (`Paths`): the parts of posixpath the program relies on. This is `join`, `split` and `splitext`, plus `str.rfind` and `str.rstrip('/')`.
- `effects.dfy` (`Effects`): the outside world.
  - `World` is a set of oracles. They give the outcome of `requests.get`, of `os.mkdir`, and of write_file's `isdir` check together with its `open`/`write`. Each oracle is asked with the effects performed so far, so the same request can get different answers at different moments.
  - `Host` is a class. It performs these effects one at a time, records each in its `log`, and keeps the file system's contents in `files`.
- `files.dfy` (`Files`): `page_loader/file.py`. This is `convert_name` with its two regular-expression substitutions and `splitext`, plus `create_directory` and `write_file` over a `Host`.
- `rewrite.dfy` (`Rewrite`): the markup side of `page_loader/engine.py`. This is `parse_url`, the `TAGS` table, and `parse_page`, which rewrites the parsed document in place (an `array<Tag>`) and returns the resource list.
- `engine.dfy` (`Engine`): `send_request`, `download_page` and `download`.

Each state-changing method is proved against a function. `ParsePage` is proved against `Rewritten` and `Collected`. `DownloadPage`, `FetchResources` and `FetchResource` are proved against `PageRun`, `ResourceEffects` and `ResourceStep`. Those functions state the whole effect log and the final files as a function of the world. The lemmas then state what the program promises about them.

## Model

| member | source | states |
|---|---|---|
| Paths.RFind | page_loader/file.py:77 | str.rfind: the index lies in -1 .. len-1 |
| Paths.RFindLast | page_loader/file.py:77 | the index found holds the character, and no later index does |
| Paths.RStripSlashes | page_loader/file.py:51 | rstrip('/') leaves a prefix with no trailing '/', and only slashes were removed |
| Paths.SplitextRule | page_loader/file.py:77 | splitext: root + ext is the path; ext is empty or is a dot followed by no dot and no slash; ext is non-empty exactly when the last segment has a non-dot character before a dot |
| Paths.ExtensionTestSound | page_loader/file.py:77 | when splitext's test succeeds, the path has an extension starting at the last dot |
| Paths.ExtensionTestComplete | page_loader/file.py:77 | every extension in the last segment makes splitext's test succeed |
| Paths.SplitJoin | page_loader/file.py:51-54 | the head of split(join(d, f)) is d, for a plain directory d and a slash-free name f |
| Paths.JoinNested | page_loader/engine.py:62 | join(join(a, d), f) is join(a, join(d, f)) for a plain relative d and a relative f |
| Effects.FilesAfterAppend | page_loader/engine.py:56-65 | files after two series of effects, run one after the other, are the files after the joined series |
| Effects.FilesAfterElsewhere | page_loader/engine.py:56-65 | writes to other paths leave a path's content unchanged |
| Effects.FilesAfterUnstored | page_loader/engine.py:49-54 | fetching and mkdir leave the files as they are |
| Effects.Host.Get | page_loader/engine.py:151 | requests.get asks the network oracle, records the fetch, and changes no file |
| Effects.Host.MakeDir | page_loader/file.py:29 | os.mkdir asks the oracle, records the outcome, and changes no file |
| Effects.Host.Store | page_loader/file.py:53-59 | the isdir check and write: the outcome is recorded, and the path is set to the data on success, otherwise unchanged |
| Files.LastSchemeEnd | page_loader/file.py:75 | the largest end of a match of ^.+:// not beyond k, or none when there is no match |
| Files.StripScheme | page_loader/file.py:75 | removes the longest prefix that ^.+:// matches, and nothing when there is none (the result is a suffix) |
| Files.SkipRun | page_loader/file.py:79 | drops exactly the leading run of characters outside [a-zA-Z0-9] |
| Files.Hyphenate | page_loader/file.py:79 | the substitution's output holds only letters, digits and '-', has no "--", is empty iff the input is, starts with '-' iff the input starts outside the class, and is no longer than the input |
| Files.HyphenateIsSqueeze | page_loader/file.py:79 | the substitution equals an independent reading: every character outside the class becomes '-', then runs of '-' are squeezed |
| Files.HyphenateKeepsAlnum | page_loader/file.py:79 | deleting the hyphens from the output gives the input's letters and digits in order |
| Files.HyphenateClean | page_loader/file.py:79 | a clean string is left unchanged |
| Files.HyphenateIdempotent | page_loader/file.py:79 | substituting twice is substituting once |
| Files.HyphenateFixpoints | page_loader/file.py:79 | the strings the substitution leaves unchanged are exactly the clean ones |
| Files.ConvertNameNoSlash | page_loader/file.py:64-84 | a converted name has no '/' |
| Files.ConvertNameShape | page_loader/file.py:64-84 | the name is the hyphenated URL without scheme, except for the extension found by splitext, which is kept verbatim and only when parse_extension is set |
| Files.ConvertNameParts | page_loader/file.py:75-84 | without parse_extension the name is the hyphenated URL without scheme; with it, the name is the hyphenated root followed by splitext's extension, and root + ext is the URL without scheme |
| Files.ConvertNamePlain | page_loader/file.py:82-84 | without parse_extension the name is clean, keeps the letters and digits in order, and is no longer than the URL without scheme |
| Files.DirectoryResult | page_loader/file.py:27-35 | the joined path when mkdir succeeds; otherwise an OSError for that path, which is a PermissionError exactly when mkdir was denied |
| Files.WriteError | page_loader/file.py:51-61 | no error exactly when the write succeeded; a missing parent directory is an OSError on the head of split(path); a denied write is a PermissionError on path, and it is the only PermissionError; every other error names path; every error is an OSError |
| Files.CreateDirectory | page_loader/file.py:12-35 | one mkdir of join(path, name) is recorded, and the result is DirectoryResult of its outcome |
| Files.WriteFile | page_loader/file.py:38-61 | one write of path is recorded, the files are updated as that write says, and the error is WriteError of its outcome |
| Rewrite.Resolve | page_loader/engine.py:91-97 | skipped iff the value has a netloc other than the page's; without a netloc it is joined to the page URL; with the page's netloc it is kept |
| Rewrite.RewriteTag | page_loader/engine.py:99-104 | a non-local tag is unchanged; a local tag keeps name and attributes and gets src = join(dir name, convert_name(link, True)) |
| Rewrite.RelinkTag | page_loader/engine.py:86-104 | one loop turn: the link found is LocalLink, the changed name is convert_name(link, True), and the tag becomes RewriteTag |
| Rewrite.ParsePage | page_loader/engine.py:69-116 | the document is rewritten tag by tag into Rewritten, and the list returned is Collected |
| Rewrite.ImagesOnly | page_loader/engine.py:15-17 | only tags that TAGS names are touched: every non-img tag is left as it was, and every listed resource is an img's local link |
| Rewrite.LocalsMembers | page_loader/engine.py:86-97 | a link is among the local links iff some tag resolves to it |
| Rewrite.CollectedEntries | page_loader/engine.py:106-114 | each entry is an img with filename convert_name(link, True), and there are no more entries than local tags |
| Rewrite.CollectedCovers | page_loader/engine.py:106-114 | the listed links are exactly the local links |
| Rewrite.CollectedOrder | page_loader/engine.py:106-114 | entries come in the order of the links' first appearance in the document |
| Rewrite.CollectedDistinct | page_loader/engine.py:106-108 | no link is listed twice |
| Rewrite.CollectedLinks | page_loader/engine.py:86-114 | a link is listed iff some tag resolves to it locally |
| Rewrite.LocalPathRelative | page_loader/engine.py:100-103 | the new src is dir name + "/" + converted name |
| Rewrite.RewriteMatchesResources | page_loader/engine.py:99-114 | every rewritten tag names the file that the list records for its link, also for repeated links |
| Engine.Respond | page_loader/engine.py:150-168 | failure iff the request fails or the status is 4xx/5xx; a RequestException for the URL on transport failure; HTTPError with the status for 4xx/5xx; 200 always succeeds |
| Engine.RespondFields | page_loader/engine.py:158-168 | binary is False iff the encoding is truthy; the data is then the content, and otherwise the text; url is the response's URL |
| Engine.SendRequest | page_loader/engine.py:137-168 | one fetch is recorded and the result is Respond of its outcome |
| Engine.FetchResource | page_loader/engine.py:58-65 | one resource under suppress: the log and the files grow by exactly ResourceStep |
| Engine.FetchResources | page_loader/engine.py:57-65 | the loop: the log and the files grow by exactly ResourceEffects over the list |
| Engine.DownloadPage | page_loader/engine.py:37-66 | the result, the effect log and the final files are those of PageRun: fetch, mkdir, then SavePage |
| Engine.SavePage | page_loader/engine.py:55-66 | once the resources directory exists: the result, the effect log and the final files are those of SaveRun (rewrite the page in place, write it, then run the resource loop) |
| Engine.Download | page_loader/engine.py:20-34 | same run as download_page; on success returns join(output_dir, page name) |
| Engine.PageRunResult | page_loader/engine.py:37-66 | success iff the fetch, the mkdir and the page write succeed; the value is convert_name(url) + ".html" |
| Engine.PageRunOrder | page_loader/engine.py:48-56 | the page is fetched first, then <name>_files is created in root_dir, then <name>.html is written in root_dir |
| Engine.SaveRunWritesPage | page_loader/engine.py:55-56 | the first effect after the mkdir is the write of <name>.html in root_dir; if it fails, nothing follows it and the run fails with that write's OSError |
| Engine.PageRunSucceeded | page_loader/engine.py:48-65 | a successful run is exactly: the fetch of the page, the mkdir, the write of the rendered, rewritten page, then the resource loop over what parse_page listed |
| Engine.PageRunFatal | page_loader/engine.py:49-56 | a failure stops the run at the failing step, with that step's error; it is a RequestException iff the fetch failed; no resource is fetched |
| Engine.ResourceFetchOrder | page_loader/engine.py:57-59 | the loop fetches exactly the listed links, in list order |
| Engine.ResourceLoopShaped | page_loader/engine.py:57-65 | the loop makes no directory; each write directly follows its fetch and saves that response; a fetch is followed by a write iff its response succeeded |
| Engine.ResourceWritesInside | page_loader/engine.py:61-65 | the loop writes only to the resources' destinations |
| Engine.LoopWritesOwnFiles | page_loader/engine.py:57-65 | each write of the loop directly follows the fetch of some resource's link and goes to join(resources_dir, that resource's filename) |
| Engine.NamesRelative | page_loader/engine.py:48-54 | both names are relative and slash-free; the directory name is non-empty; both join to root_dir the same way |
| Engine.PageIsNoResource | page_loader/engine.py:48-62 | no resource file in <name>_files is the page <name>.html |
| Engine.CollectedSlashFree | page_loader/engine.py:99-113 | every listed filename is slash-free |
| Engine.ResourcesAvoidPage | page_loader/engine.py:56-65 | no write to a resource destination touches the page path |
| Engine.PageRunResources | page_loader/engine.py:37-66 | after success, the URLs fetched are the page, then the listed links in order; the rest of the run is loop-shaped, writes only to the destinations, and writes each fetched resource to its own file |
| Engine.PageRunKeepsPage | page_loader/engine.py:55-65 | after success, the page file holds the rendered, rewritten document |
| Engine.RewrittenPointsToSaved | page_loader/engine.py:55-65 | each rewritten src, read from root_dir, is the destination of the resource of its link |
| Engine.WriteChecksParent | page_loader/file.py:51-54 | the directory write_file checks is the resources directory for a resource, and root_dir for the page when root_dir is a plain path |

## Left out

- Network and disk I/O are not performed. `requests.get`, `os.mkdir`, `os.path.isdir` and `open(...).write` are oracles of `World`. An oracle answers from the effects so far and the URL or path. Timing, concurrency with other processes and partial writes are not modelled.
- BeautifulSoup is not modelled. `Bs(page, 'html5lib')` is a function from the body to the list of elements, and `str(soup)` is a function from elements to text, both fields of `Html`. `soup.find_all(TAGS)` is modelled as visiting every element and skipping those `TAGS` does not name. The HTML grammar, the serialiser and multi-valued attributes are out of scope.
- `urllib.parse.urlparse` and `urljoin` are arbitrary total functions (fields of `UrlLib`). Every property holds for any choice of them. RFC 3986 parsing and joining are not modelled.
- Engine.PageRunResult, Engine.PageRunFatal: `urlparse`/`urljoin` can raise `ValueError` on a malformed host (an `<img src="http://[bad">` gives "Invalid IPv6 URL"). That happens at engine.py:91/93 inside `parse_page`, and nothing catches it. `download_page` then fails after `create_directory` and before the page is written. The model has no such fourth fatal step, because it treats both functions as total.
- Exceptions are not modelled as exceptions. They become `Error` values carrying the URL, status or path. The message strings (`ERROR_REQUEST`, `DIR_EXIST_ERROR`, `PATH_ERROR`, `PERMISSION_ERROR`) are not modelled.
- Write mode and data type: `write_file` opens text mode when `binary` is False and binary mode otherwise. `send_request` gives bytes with `binary=False` and text with `binary=True` (`Engine.RespondFields` states this pairing). Python would raise TypeError for such a resource write. The model records the data and the flag in the `Stored` effect and takes the write's outcome from the oracle. The TypeError itself, which `suppress` would not catch, is not modelled.
- Engine.PageRunResult, Engine.PageRunFatal: the page write at engine.py:56 passes the `str` from `str(soup)` with the response's `binary` flag. When the reply's encoding is not truthy, `binary` is True, so the file is opened with 'wb' and writing the `str` raises TypeError. That is a fatal outcome of `download_page` which neither lemma has, because the model takes the page write's outcome from the oracle.
- `raise_for_status` is modelled only by its status rule (400 to 599 raises). The oracle's reply is the response after `requests` has followed any redirects, and `Response.url` is that reply's final URL.
- The model follows `engine.py` and `file.py` as written, not the behaviour the repository's tests expect (tests/test_page_loader.py:39-77, tests/test_file.py:9-15):
  - no 255-character limit and no truncation;
  - no `.html` default extension;
  - no collision suffixes;
  - only `img`/`src` is rewritten (`TAGS`);
  - `download(output_dir, url)` takes its arguments in the order `engine.py` declares.
  The tests in the repository describe functions (`build_filename`, `add_version`) that the modelled code does not have.
- `page_loader/cli.py`, `page_loader/log.py`, `page_loader/logging.py`, `page_loader/request.py` and `page_loader/scripts/page_loader.py` are not part of this model: command-line parsing, logging configuration and the entry point.
- Paths.RFind: its own contract states only the range of the index; where the character lies is stated separately by `Paths.RFindLast`.
- Paths.Split: carries no contract of its own; what it yields on the paths the program builds is `Paths.SplitJoin`.
- Paths.Join: carries no contract of its own; `Paths.SplitJoin` and `Paths.JoinNested` state what it does on the paths the program builds.
- Rewrite.ParseUrl: carries no contract of its own; it only projects the scheme, netloc and path of `urlparse`, which is itself a parameter.
- Rewrite.TagAttribute: carries no contract of its own; which tags are touched is `Rewrite.ImagesOnly`.
- Engine.Destinations: carries no contract of its own; which file each resource goes to is `Engine.LoopWritesOwnFiles`.
- Rewrite.Links: carries no contract of its own; it is the list of the resources' links.
- Files.ConvertName: carries no contract of its own; `Files.ConvertNameParts`, `Files.ConvertNameShape`, `Files.ConvertNamePlain` and `Files.ConvertNameNoSlash` state what it computes.
- Paths.Splitext: carries no contract of its own; `Paths.SplitextRule`, `Paths.ExtensionTestSound` and `Paths.ExtensionTestComplete` state what it computes.
- Engine.PageName, Engine.ResourcesDirName: carry no contract of their own; `Engine.NamesRelative`, `Engine.PageIsNoResource` and `Engine.PageRunOrder` state what they give.
- Engine.RaisesForStatus, Engine.Truthy: carry no contract of their own; `Engine.Respond` and `Engine.RespondFields` state how the status and the encoding decide the response.
- Rewrite.LocalLink, Rewrite.LocalPath: carry no contract of their own; `Rewrite.Resolve`, `Rewrite.RewriteTag`, `Rewrite.RelinkTag`, `Rewrite.ImagesOnly`, `Rewrite.CollectedLinks` and `Rewrite.LocalPathRelative` state what they give.
- Engine.PageRun: carries no contract of its own; it is the specification `Engine.DownloadPage` and `Engine.Download` are proved against, and `Engine.PageRunResult`, `Engine.PageRunOrder`, `Engine.PageRunFatal`, `Engine.PageRunSucceeded`, `Engine.PageRunResources` and `Engine.PageRunKeepsPage` state what it computes.
- Engine.SaveRun: carries no contract of its own; `Engine.SavePage` is proved against it, and `Engine.SaveRunWritesPage` and `Engine.PageRunSucceeded` state what it computes.
- Engine.ResourceStep, Engine.ResourceEffects: carry no contract of their own; `Engine.FetchResource` and `Engine.FetchResources` are proved against them, and `Engine.ResourceFetchOrder`, `Engine.ResourceLoopShaped`, `Engine.ResourceWritesInside` and `Engine.LoopWritesOwnFiles` state what they compute.
- Rewrite.Rewritten, Rewrite.Collected, Rewrite.Locals: carry no contract of their own; `Rewrite.ParsePage` is proved against the first two, and `Rewrite.RewriteTag`, `Rewrite.ImagesOnly`, `Rewrite.RewriteMatchesResources`, `Rewrite.LocalsMembers`, `Rewrite.CollectedEntries`, `Rewrite.CollectedCovers`, `Rewrite.CollectedOrder`, `Rewrite.CollectedDistinct` and `Rewrite.CollectedLinks` state what they compute.
- Effects.FilesAfter: carries no contract of its own; `Effects.FilesAfterAppend`, `Effects.FilesAfterElsewhere` and `Effects.FilesAfterUnstored` state what it computes.
