/** The pipeline of page_loader/engine.py: send_request's status rule,
    download_page's fixed order of effects (fetch the page, create the
    resources directory, rewrite the page, write it, then fetch and write
    every resource with its failures suppressed) and download.

    BeautifulSoup's parser and serialiser are library code and stay
    uninterpreted: they are the fields of Html. */
module Engine {
  import opened Wrappers
  import opened Paths
  import opened Effects
  import opened Files
  import opened Rewrite

  const SuccessfulStatusCode := 200

  /** send_request's namedtuple Response. */
  datatype Response = Response(data: Body, binary: bool, url: string)

  /** Bs(page, 'html5lib') seen as the list of its elements, and str(soup). */
  datatype Html = Html(parse: Body -> seq<Tag>, render: seq<Tag> -> string)

  /** What a run of download_page returns or raises, and the effects it performs. */
  datatype Run = Run(result: Result<string, Error>, effects: seq<Effect>)

  /** raise_for_status raises HTTPError for client and server errors. */
  predicate RaisesForStatus(status: int)
  {
    400 <= status < 600
  }

  /** The truth value of response.encoding (None or a string). */
  predicate Truthy(encoding: Option<string>)
  {
    encoding.Some? && encoding.value != ""
  }

  // ---------------------------------------------------------------------
  // send_request
  // ---------------------------------------------------------------------

  /** What send_request makes of the outcome of requests.get(url). */
  function Respond(url: string, got: GetOutcome): (r: Result<Response, Error>)
    ensures r.Failure? <==> got.Unreachable? || RaisesForStatus(got.reply.status)
    ensures r.Failure? ==> IsRequestException(r.error)
    ensures got.Unreachable? ==> r.error == RequestFailed(url)
    ensures got.Answered? && got.reply.status == SuccessfulStatusCode ==> r.Success?
    ensures got.Answered? && RaisesForStatus(got.reply.status) ==>
      r.error == HttpFailed(got.reply.status)
  {
    match got
    case Unreachable => Failure(RequestFailed(url))
    case Answered(reply) =>
      if reply.status != SuccessfulStatusCode && RaisesForStatus(reply.status) then
        Failure(HttpFailed(reply.status))
      else if Truthy(reply.encoding) then
        Success(Response(Bytes(reply.content), false, reply.finalUrl))
      else
        Success(Response(Text(reply.text), true, reply.finalUrl))
  }

  /** The response's fields: binary is False exactly when the server named
      an encoding, and then the data are the raw content, otherwise the
      decoded text; url is where the request ended up. */
  lemma RespondFields(url: string, got: GetOutcome)
    requires Respond(url, got).Success?
    ensures var resp := Respond(url, got).value;
      got.Answered? && resp.url == got.reply.finalUrl &&
      (resp.binary <==> !Truthy(got.reply.encoding)) &&
      (resp.binary ==> resp.data == Text(got.reply.text)) &&
      (!resp.binary ==> resp.data == Bytes(got.reply.content))
  {
  }

  /** send_request(url). */
  method SendRequest(host: Host, url: string) returns (r: Result<Response, Error>)
    modifies host
    ensures var got := host.world.net(old(host.log), url);
      host.log == old(host.log) + [Fetched(url, got)] && r == Respond(url, got)
    ensures host.files == old(host.files)
  {
    var got := host.Get(url);
    r := Respond(url, got);
  }

  // ---------------------------------------------------------------------
  // What download_page does, as a function of the world
  // ---------------------------------------------------------------------

  /** '{name}.html'.format(name=convert_name(url)). */
  function PageName(url: string): string
  {
    ConvertName(url, false) + ".html"
  }

  /** '{name}_files'.format(name=convert_name(url)). */
  function ResourcesDirName(url: string): string
  {
    ConvertName(url, false) + "_files"
  }

  /** One turn of the resource loop, after the effects h: fetch the
      link and, when that succeeds, write the data to the resource's file. */
  function ResourceStep(w: World, h: seq<Effect>, dir: string, r: Resource): seq<Effect>
  {
    var got := w.net(h, r.link);
    match Respond(r.link, got)
    case Failure(_) => [Fetched(r.link, got)]
    case Success(resp) =>
      var path := Join(dir, r.filename);
      [Fetched(r.link, got), Stored(path, resp.data, resp.binary, w.store(h + [Fetched(r.link, got)], path))]
  }

  /** The effects of the resource loop over rs, after the effects h. */
  function ResourceEffects(w: World, h: seq<Effect>, dir: string, rs: seq<Resource>): seq<Effect>
  {
    if rs == [] then []
    else
      var before := ResourceEffects(w, h, dir, rs[..|rs| - 1]);
      before + ResourceStep(w, h + before, dir, rs[|rs| - 1])
  }

  /** The loop over one more resource performs one more step. */
  lemma ResourceEffectsNext(w: World, h: seq<Effect>, dir: string, rs: seq<Resource>, k: nat)
    requires k < |rs|
    ensures var done := ResourceEffects(w, h, dir, rs[..k]);
      ResourceEffects(w, h, dir, rs[..k + 1]) == done + ResourceStep(w, h + done, dir, rs[k])
  {
    assert rs[..k + 1][..k] == rs[..k];
  }

  /** The rest of download_page once the resources directory dir exists,
      after the effects h: rewrite the page, write it to root_dir, then
      run the resource loop. */
  function SaveRun(w: World, html: Html, lib: UrlLib, h: seq<Effect>, rootDir: string, url: string,
                   response: Response, dir: string): Run
  {
    var tags := html.parse(response.data);
    var page := html.render(Rewritten(lib, url, ResourcesDirName(url), tags));
    var indexPath := Join(rootDir, PageName(url));
    var stored := Stored(indexPath, Text(page), response.binary, w.store(h, indexPath));
    match WriteError(indexPath, stored.wrote)
    case Some(err) => Run(Failure(err), [stored])
    case None =>
      Run(Success(PageName(url)), [stored] + ResourceEffects(w, h + [stored], dir, Collected(lib, url, tags)))
  }

  /** download_page(root_dir, url) run after the effects h: the three
      steps whose failure propagates, then the resource loop. */
  function PageRun(w: World, html: Html, lib: UrlLib, h: seq<Effect>, rootDir: string, url: string): Run
  {
    var got := w.net(h, url);
    var fetched := Fetched(url, got);
    match Respond(url, got)
    case Failure(err) => Run(Failure(err), [fetched])
    case Success(response) =>
      var dirPath := Join(rootDir, ResourcesDirName(url));
      var made := w.mkdir(h + [fetched], dirPath);
      var created := MadeDir(dirPath, made);
      match DirectoryResult(dirPath, made)
      case Failure(err) => Run(Failure(err), [fetched, created])
      case Success(resourcesDir) =>
        var saved := SaveRun(w, html, lib, h + [fetched, created], rootDir, url, response, resourcesDir);
        Run(saved.result, [fetched, created] + saved.effects)
  }

  // ---------------------------------------------------------------------
  // download_page and download
  // ---------------------------------------------------------------------

  /** The body of the resource loop under suppress(RequestException,
      HTTPError, OSError): every failure is dropped. */
  method FetchResource(host: Host, resourcesDir: string, resource: Resource)
    modifies host
    ensures var step := ResourceStep(host.world, old(host.log), resourcesDir, resource);
      host.log == old(host.log) + step && host.files == FilesAfter(old(host.files), step)
  {
    ghost var log0, files0 := host.log, host.files;
    ghost var got := host.world.net(log0, resource.link);
    var resourceResponse := SendRequest(host, resource.link);
    if resourceResponse.Failure? {
      FilesAfterUnstored(files0, [Fetched(resource.link, got)]);
      return;
    }
    ghost var log1 := host.log;
    var path := Join(resourcesDir, resource.filename);
    var _ := WriteFile(host, path, resourceResponse.value.data, resourceResponse.value.binary);
    ghost var e := Stored(path, resourceResponse.value.data, resourceResponse.value.binary,
      host.world.store(log1, path));
    assert host.log == log0 + [Fetched(resource.link, got), e];
    FilesAfterAppend(files0, [Fetched(resource.link, got)], [e]);
    FilesAfterUnstored(files0, [Fetched(resource.link, got)]);
    assert [Fetched(resource.link, got)] + [e] == [Fetched(resource.link, got), e];
  }

  /** download_page's loop over the resource list. */
  method FetchResources(host: Host, resourcesDir: string, resources: seq<Resource>)
    modifies host
    ensures var run := ResourceEffects(host.world, old(host.log), resourcesDir, resources);
      host.log == old(host.log) + run && host.files == FilesAfter(old(host.files), run)
  {
    ghost var log1, files1 := host.log, host.files;
    ghost var done: seq<Effect> := [];
    for k := 0 to |resources|
      invariant done == ResourceEffects(host.world, log1, resourcesDir, resources[..k])
      invariant host.log == log1 + done
      invariant host.files == FilesAfter(files1, done)
    {
      ghost var step := ResourceStep(host.world, log1 + done, resourcesDir, resources[k]);
      assert done + step == ResourceEffects(host.world, log1, resourcesDir, resources[..k + 1]) by {
        ResourceEffectsNext(host.world, log1, resourcesDir, resources, k);
      }
      FetchResource(host, resourcesDir, resources[k]);
      FilesAfterAppend(files1, done, step);
      SeqAssoc(log1, done, step);
      done := done + step;
    }
    assert resources[..|resources|] == resources;
  }

  /** download_page(root_dir, url). */
  method DownloadPage(host: Host, html: Html, lib: UrlLib, rootDir: string, url: string)
    returns (r: Result<string, Error>)
    modifies host
    ensures var run := PageRun(host.world, html, lib, old(host.log), rootDir, url);
      r == run.result && host.log == old(host.log) + run.effects &&
      host.files == FilesAfter(old(host.files), run.effects)
  {
    ghost var log0, files0 := host.log, host.files;
    var response := SendRequest(host, url);
    ghost var fetched := Fetched(url, host.world.net(log0, url));
    if response.Failure? {
      FilesAfterUnstored(files0, [fetched]);
      return Failure(response.error);
    }
    var resourcesDirName := ResourcesDirName(url);
    var resourcesDir := CreateDirectory(host, rootDir, resourcesDirName);
    ghost var dirPath := Join(rootDir, resourcesDirName);
    ghost var created := MadeDir(dirPath, host.world.mkdir(log0 + [fetched], dirPath));
    ghost var head := [fetched, created];
    SeqAssoc(log0, [fetched], [created]);
    assert [fetched] + [created] == head;
    FilesAfterUnstored(files0, head);
    if resourcesDir.Failure? {
      return Failure(resourcesDir.error);
    }
    r := SavePage(host, html, lib, rootDir, url, response.value, resourcesDir.value);
    ghost var saved := SaveRun(host.world, html, lib, log0 + head, rootDir, url, response.value, dirPath);
    SeqAssoc(log0, head, saved.effects);
    FilesAfterAppend(files0, head, saved.effects);
  }

  /** The end of download_page, once the resources directory exists:
      parse the page and point its images at their copies, write it as
      <name>.html in root_dir, then fetch and save every resource. */
  method SavePage(host: Host, html: Html, lib: UrlLib, rootDir: string, url: string,
                  response: Response, resourcesDir: string)
    returns (r: Result<string, Error>)
    modifies host
    ensures var run := SaveRun(host.world, html, lib, old(host.log), rootDir, url, response, resourcesDir);
      r == run.result && host.log == old(host.log) + run.effects &&
      host.files == FilesAfter(old(host.files), run.effects)
  {
    ghost var log0, files0 := host.log, host.files;
    var pageName := PageName(url);
    var tags := html.parse(response.data);
    var soup := new Tag[|tags|](j requires 0 <= j < |tags| => tags[j]);
    assert soup[..] == tags;
    var resourcesPage := ParsePage(lib, soup, url, ResourcesDirName(url));
    var page := html.render(soup[..]);
    var indexPath := Join(rootDir, pageName);
    var err := WriteFile(host, indexPath, Text(page), response.binary);
    ghost var stored := Stored(indexPath, Text(page), response.binary, host.world.store(log0, indexPath));
    if err.Some? {
      return Failure(err.value);
    }
    FetchResources(host, resourcesDir, resourcesPage);
    ghost var rest := ResourceEffects(host.world, log0 + [stored], resourcesDir, resourcesPage);
    SeqAssoc(log0, [stored], rest);
    FilesAfterAppend(files0, [stored], rest);
    r := Success(pageName);
  }

  /** download(output_dir, url): the full path of the saved page. */
  method Download(host: Host, html: Html, lib: UrlLib, outputDir: string, url: string)
    returns (r: Result<string, Error>)
    modifies host
    ensures var run := PageRun(host.world, html, lib, old(host.log), outputDir, url);
      host.log == old(host.log) + run.effects &&
      host.files == FilesAfter(old(host.files), run.effects) &&
      (r.Success? <==> run.result.Success?) &&
      (r.Success? ==> r.value == Join(outputDir, run.result.value)) &&
      (r.Failure? ==> r.error == run.result.error)
  {
    var pageName := DownloadPage(host, html, lib, outputDir, url);
    if pageName.Failure? {
      return Failure(pageName.error);
    }
    r := Success(Join(outputDir, pageName.value));
  }

  // ---------------------------------------------------------------------
  // What a run of download_page does
  // ---------------------------------------------------------------------

  /** download_page returns the page name exactly when fetching the page,
      creating the resources directory and writing the page all succeed;
      whatever happens to the resources afterwards does not change that. */
  lemma PageRunResult(w: World, html: Html, lib: UrlLib, h: seq<Effect>, rootDir: string, url: string)
    ensures var run := PageRun(w, html, lib, h, rootDir, url);
      var fetched := Fetched(url, w.net(h, url));
      var dirPath := Join(rootDir, ResourcesDirName(url));
      var created := MadeDir(dirPath, w.mkdir(h + [fetched], dirPath));
      var indexPath := Join(rootDir, PageName(url));
      (run.result.Success? <==>
        Respond(url, fetched.got).Success? && created.made.Made? &&
        w.store(h + [fetched, created], indexPath).Written?) &&
      (run.result.Success? ==> run.result.value == PageName(url))
  {
  }

  /** The steps come in a fixed order: the page is fetched first, then the
      resources directory is created, then the page is written. */
  lemma PageRunOrder(w: World, html: Html, lib: UrlLib, h: seq<Effect>, rootDir: string, url: string)
    ensures var es := PageRun(w, html, lib, h, rootDir, url).effects;
      |es| >= 1 && es[0] == Fetched(url, w.net(h, url)) &&
      (|es| >= 2 ==> es[1].MadeDir? && es[1].path == Join(rootDir, ResourcesDirName(url))) &&
      (|es| >= 3 ==> es[2].Stored? && es[2].path == Join(rootDir, PageName(url)))
  {
    var got := w.net(h, url);
    var fetched := Fetched(url, got);
    PageRunSteps(w, html, lib, h, rootDir, url);
    if Respond(url, got).Success? {
      var dirPath := Join(rootDir, ResourcesDirName(url));
      var created := MadeDir(dirPath, w.mkdir(h + [fetched], dirPath));
      if created.made.Made? {
        var saved := SaveRun(w, html, lib, h + [fetched, created], rootDir, url, Respond(url, got).value, dirPath);
        SaveRunWritesPage(w, html, lib, h + [fetched, created], rootDir, url, Respond(url, got).value, dirPath);
        Leading(fetched, created, saved.effects);
      }
    }
  }

  /** The rest of the run starts by writing the page to root_dir, and
      stops right there when that write fails. */
  lemma SaveRunWritesPage(w: World, html: Html, lib: UrlLib, h: seq<Effect>, rootDir: string, url: string,
                          response: Response, dir: string)
    ensures var run := SaveRun(w, html, lib, h, rootDir, url, response, dir);
      |run.effects| >= 1 && run.effects[0].Stored? && run.effects[0].path == Join(rootDir, PageName(url)) &&
      (run.result.Failure? ==>
        run.effects == [run.effects[0]] &&
        WriteError(run.effects[0].path, run.effects[0].wrote) == Some(run.result.error))
  {
  }

  /** The effects of a successful run: the fetch of the page, the mkdir of
      the resources directory, the write of the page, then the resource loop
      over the list that parse_page returned. */
  lemma PageRunSucceeded(w: World, html: Html, lib: UrlLib, h: seq<Effect>, rootDir: string, url: string)
    requires PageRun(w, html, lib, h, rootDir, url).result.Success?
    ensures var got := w.net(h, url);
      var response := Respond(url, got).value;
      var fetched := Fetched(url, got);
      var dirPath := Join(rootDir, ResourcesDirName(url));
      var created := MadeDir(dirPath, w.mkdir(h + [fetched], dirPath));
      var tags := html.parse(response.data);
      var page := html.render(Rewritten(lib, url, ResourcesDirName(url), tags));
      var indexPath := Join(rootDir, PageName(url));
      var stored := Stored(indexPath, Text(page), response.binary, w.store(h + [fetched, created], indexPath));
      var head := [fetched, created, stored];
      Respond(url, got).Success? && created.made.Made? && stored.wrote.Written? &&
      PageRun(w, html, lib, h, rootDir, url).effects ==
        head + ResourceEffects(w, h + head, dirPath, Collected(lib, url, tags))
  {
    var got := w.net(h, url);
    var response := Respond(url, got).value;
    var fetched := Fetched(url, got);
    var dirPath := Join(rootDir, ResourcesDirName(url));
    var created := MadeDir(dirPath, w.mkdir(h + [fetched], dirPath));
    var h2 := h + [fetched, created];
    PageRunSteps(w, html, lib, h, rootDir, url);
    SaveRunSucceeded(w, html, lib, h2, rootDir, url, response, dirPath);
    var tags := html.parse(response.data);
    var page := html.render(Rewritten(lib, url, ResourcesDirName(url), tags));
    var indexPath := Join(rootDir, PageName(url));
    var stored := Stored(indexPath, Text(page), response.binary, w.store(h2, indexPath));
    var rest := ResourceEffects(w, h2 + [stored], dirPath, Collected(lib, url, tags));
    Regroup(h, fetched, created, stored, rest);
  }

  /** The effect logs of the three steps, grouped two ways. */
  lemma Regroup(h: seq<Effect>, a: Effect, b: Effect, c: Effect, rest: seq<Effect>)
    ensures (h + [a, b]) + [c] == h + [a, b, c]
    ensures [a, b] + ([c] + rest) == [a, b, c] + rest
  {
  }

  /** The run in each of its three cases: the fetch fails, the mkdir
      fails, or the run goes on as SaveRun says. */
  lemma PageRunSteps(w: World, html: Html, lib: UrlLib, h: seq<Effect>, rootDir: string, url: string)
    ensures var got := w.net(h, url);
      var fetched := Fetched(url, got);
      var dirPath := Join(rootDir, ResourcesDirName(url));
      var created := MadeDir(dirPath, w.mkdir(h + [fetched], dirPath));
      var run := PageRun(w, html, lib, h, rootDir, url);
      (Respond(url, got).Failure? ==> run == Run(Failure(Respond(url, got).error), [fetched])) &&
      (Respond(url, got).Success? && !created.made.Made? ==>
        run == Run(Failure(DirectoryResult(dirPath, created.made).error), [fetched, created])) &&
      (Respond(url, got).Success? && created.made.Made? ==>
        var saved := SaveRun(w, html, lib, h + [fetched, created], rootDir, url, Respond(url, got).value, dirPath);
        run == Run(saved.result, [fetched, created] + saved.effects))
  {
  }

  /** The first effects of a log that starts with two given ones. */
  lemma Leading(a: Effect, b: Effect, rest: seq<Effect>)
    ensures |[a, b] + rest| == 2 + |rest|
    ensures ([a, b] + rest)[0] == a && ([a, b] + rest)[1] == b
    ensures |rest| > 0 ==> ([a, b] + rest)[2] == rest[0]
    ensures |rest| == 1 ==> [a, b] + rest == [a, b, rest[0]]
  {
  }

  /** A successful SaveRun writes the page and then runs the resource loop. */
  lemma SaveRunSucceeded(w: World, html: Html, lib: UrlLib, h: seq<Effect>, rootDir: string, url: string,
                         response: Response, dir: string)
    requires SaveRun(w, html, lib, h, rootDir, url, response, dir).result.Success?
    ensures var tags := html.parse(response.data);
      var page := html.render(Rewritten(lib, url, ResourcesDirName(url), tags));
      var indexPath := Join(rootDir, PageName(url));
      var stored := Stored(indexPath, Text(page), response.binary, w.store(h, indexPath));
      stored.wrote.Written? &&
      SaveRun(w, html, lib, h, rootDir, url, response, dir).effects ==
        [stored] + ResourceEffects(w, h + [stored], dir, Collected(lib, url, tags))
  {
  }

  /** A failure of one of the three steps ends the run there with that
      step's error (a RequestException exactly when it was the fetch, an
      OSError otherwise): no resource is fetched and nothing else is written. */
  lemma PageRunFatal(w: World, html: Html, lib: UrlLib, h: seq<Effect>, rootDir: string, url: string)
    requires PageRun(w, html, lib, h, rootDir, url).result.Failure?
    ensures var run := PageRun(w, html, lib, h, rootDir, url);
      var es := run.effects;
      1 <= |es| <= 3 &&
      (|es| == 1 <==> IsRequestException(run.result.error)) &&
      (|es| == 1 ==> Respond(url, es[0].got) == Failure(run.result.error)) &&
      (|es| == 2 ==> es[1].MadeDir? && DirectoryResult(es[1].path, es[1].made) == Failure(run.result.error)) &&
      (|es| == 3 ==> es[2].Stored? && WriteError(es[2].path, es[2].wrote) == Some(run.result.error))
  {
    var got := w.net(h, url);
    var fetched := Fetched(url, got);
    var run := PageRun(w, html, lib, h, rootDir, url);
    PageRunSteps(w, html, lib, h, rootDir, url);
    if Respond(url, got).Failure? {
      assert run.effects == [fetched];
      assert IsRequestException(run.result.error);
    } else {
      var dirPath := Join(rootDir, ResourcesDirName(url));
      var created := MadeDir(dirPath, w.mkdir(h + [fetched], dirPath));
      if !created.made.Made? {
        assert run.effects == [fetched, created];
        assert IsOSError(run.result.error);
      } else {
        var saved := SaveRun(w, html, lib, h + [fetched, created], rootDir, url, Respond(url, got).value, dirPath);
        SaveRunWritesPage(w, html, lib, h + [fetched, created], rootDir, url, Respond(url, got).value, dirPath);
        Leading(fetched, created, saved.effects);
        assert run.effects == [fetched, created, saved.effects[0]];
        assert IsOSError(run.result.error);
      }
    }
  }

  // ---------------------------------------------------------------------
  // The resource loop
  // ---------------------------------------------------------------------

  /** The URLs requested by a series of effects, in order. */
  function FetchedUrls(es: seq<Effect>): seq<string>
  {
    if es == [] then []
    else
      var last := es[|es| - 1];
      FetchedUrls(es[..|es| - 1]) + if last.Fetched? then [last.url] else []
  }

  lemma {:induction false} FetchedUrlsAppend(a: seq<Effect>, b: seq<Effect>)
    ensures FetchedUrls(a + b) == FetchedUrls(a) + FetchedUrls(b)
    decreases |b|
  {
    if b == [] {
      assert a + b == a;
    } else {
      assert (a + b)[..|a + b| - 1] == a + b[..|b| - 1];
      FetchedUrlsAppend(a, b[..|b| - 1]);
    }
  }

  /** The loop requests the resources' links one after another, in the
      order of the list, each exactly once, whatever the answers. */
  lemma {:induction false} ResourceFetchOrder(w: World, h: seq<Effect>, dir: string, rs: seq<Resource>)
    ensures FetchedUrls(ResourceEffects(w, h, dir, rs)) == Links(rs)
    decreases |rs|
  {
    if rs != [] {
      var front, last := rs[..|rs| - 1], rs[|rs| - 1];
      var before := ResourceEffects(w, h, dir, front);
      var step := ResourceStep(w, h + before, dir, last);
      ResourceFetchOrder(w, h, dir, front);
      StepFetches(w, h + before, dir, last);
      FetchedUrlsAppend(before, step);
      LinksLast(rs);
    }
  }

  /** The links of a non-empty list end with the link of its last entry. */
  lemma LinksLast(rs: seq<Resource>)
    requires rs != []
    ensures Links(rs) == Links(rs[..|rs| - 1]) + [rs[|rs| - 1].link]
  {
  }

  /** One turn of the loop requests the resource's link once. */
  lemma StepFetches(w: World, h: seq<Effect>, dir: string, r: Resource)
    ensures FetchedUrls(ResourceStep(w, h, dir, r)) == [r.link]
  {
    var step := ResourceStep(w, h, dir, r);
    var fetched := Fetched(r.link, w.net(h, r.link));
    assert [fetched][..0] == [];
    assert FetchedUrls([fetched]) == [r.link];
    if |step| == 2 {
      assert step[..1] == [fetched];
    } else {
      assert step == [fetched];
    }
  }

  /** s stores what send_request made of the fetch f. */
  predicate SavesResponse(f: Effect, s: Effect)
    requires f.Fetched? && s.Stored?
  {
    var resp := Respond(f.url, f.got);
    resp.Success? && s.body == resp.value.data && s.binary == resp.value.binary
  }

  /** How the effects of the resource loop hang together: no directory is
      made, every write directly follows a fetch and saves its response,
      and a fetch is followed by a write exactly when it succeeded. */
  predicate LoopShaped(es: seq<Effect>)
  {
    forall k {:trigger es[k]} :: 0 <= k < |es| ==>
      !es[k].MadeDir? &&
      (es[k].Stored? ==> 0 < k && es[k - 1].Fetched? && SavesResponse(es[k - 1], es[k])) &&
      (es[k].Fetched? ==> (Respond(es[k].url, es[k].got).Success? <==> k + 1 < |es| && es[k + 1].Stored?))
  }

  lemma StepShaped(w: World, h: seq<Effect>, dir: string, r: Resource)
    ensures var step := ResourceStep(w, h, dir, r);
      LoopShaped(step) && |step| > 0 && step[0].Fetched?
  {
  }

  lemma LoopShapedAppend(a: seq<Effect>, b: seq<Effect>)
    requires LoopShaped(a) && LoopShaped(b)
    requires b != [] ==> b[0].Fetched?
    ensures LoopShaped(a + b)
  {
    var ab := a + b;
    forall k | 0 <= k < |ab|
      ensures !ab[k].MadeDir? &&
        (ab[k].Stored? ==> 0 < k && ab[k - 1].Fetched? && SavesResponse(ab[k - 1], ab[k])) &&
        (ab[k].Fetched? ==> (Respond(ab[k].url, ab[k].got).Success? <==> k + 1 < |ab| && ab[k + 1].Stored?))
    {
      if k < |a| {
        ShapedAt(a, k);
        assert ab[k] == a[k];
        if k > 0 {
          assert ab[k - 1] == a[k - 1];
        }
        if k + 1 < |a| {
          assert ab[k + 1] == a[k + 1];
        } else if k + 1 < |ab| {
          assert ab[k + 1] == b[0];
        }
      } else {
        var i := k - |a|;
        ShapedAt(b, i);
        assert ab[k] == b[i];
        if i > 0 {
          assert ab[k - 1] == b[i - 1];
        }
        if i + 1 < |b| {
          assert ab[k + 1] == b[i + 1];
        }
      }
    }
  }

  lemma ShapedAt(es: seq<Effect>, k: int)
    requires LoopShaped(es) && 0 <= k < |es|
    ensures !es[k].MadeDir?
    ensures es[k].Stored? ==> 0 < k && es[k - 1].Fetched? && SavesResponse(es[k - 1], es[k])
    ensures es[k].Fetched? ==> (Respond(es[k].url, es[k].got).Success? <==> k + 1 < |es| && es[k + 1].Stored?)
  {
  }

  /** The effects of the whole loop hang together in that way: failures
      are dropped and only successful responses are saved. */
  lemma {:induction false} ResourceLoopShaped(w: World, h: seq<Effect>, dir: string, rs: seq<Resource>)
    ensures LoopShaped(ResourceEffects(w, h, dir, rs))
    decreases |rs|
  {
    if rs != [] {
      var front := rs[..|rs| - 1];
      var before := ResourceEffects(w, h, dir, front);
      var step := ResourceStep(w, h + before, dir, rs[|rs| - 1]);
      assert ResourceEffects(w, h, dir, rs) == before + step;
      ResourceLoopShaped(w, h, dir, front);
      StepShaped(w, h + before, dir, rs[|rs| - 1]);
      LoopShapedAppend(before, step);
    }
  }

  /** The files of the resources, inside dir. */
  function Destinations(dir: string, rs: seq<Resource>): seq<string>
  {
    seq(|rs|, j requires 0 <= j < |rs| => Join(dir, rs[j].filename))
  }

  /** Every write among es goes to one of the paths. */
  predicate StoresOnlyTo(es: seq<Effect>, paths: seq<string>)
  {
    forall k :: 0 <= k < |es| && es[k].Stored? ==> es[k].path in paths
  }

  /** Every file the loop writes is the file of one of the resources,
      inside the resources directory. */
  lemma {:induction false} ResourceWritesInside(w: World, h: seq<Effect>, dir: string, rs: seq<Resource>)
    ensures StoresOnlyTo(ResourceEffects(w, h, dir, rs), Destinations(dir, rs))
    decreases |rs|
  {
    if rs != [] {
      var front, last := rs[..|rs| - 1], rs[|rs| - 1];
      var before := ResourceEffects(w, h, dir, front);
      var step := ResourceStep(w, h + before, dir, last);
      ResourceEffectsNext(w, h, dir, rs, |rs| - 1);
      assert rs[..|rs| - 1 + 1] == rs;
      DestinationsLast(dir, rs);
      ResourceWritesInside(w, h, dir, front);
      StepWritesOne(w, h + before, dir, last);
      StoresOnlyToAppend(before, step, Destinations(dir, front), [Join(dir, last.filename)]);
    }
  }

  /** The files of a non-empty list end with the file of its last entry. */
  lemma DestinationsLast(dir: string, rs: seq<Resource>)
    requires rs != []
    ensures Destinations(dir, rs) == Destinations(dir, rs[..|rs| - 1]) + [Join(dir, rs[|rs| - 1].filename)]
  {
  }

  /** One turn of the loop writes at most the resource's own file. */
  lemma StepWritesOne(w: World, h: seq<Effect>, dir: string, r: Resource)
    ensures StoresOnlyTo(ResourceStep(w, h, dir, r), [Join(dir, r.filename)])
  {
  }

  /** Writes of two series of effects go to the paths of either. */
  lemma StoresOnlyToAppend(a: seq<Effect>, b: seq<Effect>, pa: seq<string>, pb: seq<string>)
    requires StoresOnlyTo(a, pa) && StoresOnlyTo(b, pb)
    ensures StoresOnlyTo(a + b, pa + pb)
  {
    forall k | 0 <= k < |a + b| && (a + b)[k].Stored?
      ensures (a + b)[k].path in pa + pb
    {
      if k < |a| {
        assert (a + b)[k] == a[k];
      } else {
        assert (a + b)[k] == b[k - |a|];
      }
    }
  }

  /** Every write among es directly follows the fetch of a resource of rs
      and goes to that resource's own file in dir. */
  predicate WritesOwnFiles(es: seq<Effect>, dir: string, rs: seq<Resource>)
  {
    forall k {:trigger es[k]} :: 0 < k < |es| && es[k].Stored? ==>
      exists j :: 0 <= j < |rs| && es[k - 1].Fetched? && es[k - 1].url == rs[j].link &&
        es[k].path == Join(dir, rs[j].filename)
  }

  /** The loop saves the response for rs[j].link to join(dir, rs[j].filename):
      each write follows the fetch of one resource and goes to its file. */
  lemma {:induction false} LoopWritesOwnFiles(w: World, h: seq<Effect>, dir: string, rs: seq<Resource>)
    ensures WritesOwnFiles(ResourceEffects(w, h, dir, rs), dir, rs)
    decreases |rs|
  {
    if rs != [] {
      var n := |rs| - 1;
      var front := rs[..n];
      var before := ResourceEffects(w, h, dir, front);
      var step := ResourceStep(w, h + before, dir, rs[n]);
      ResourceEffectsNext(w, h, dir, rs, n);
      assert rs[..n + 1] == rs;
      LoopWritesOwnFiles(w, h, dir, front);
      WritesOwnFilesWiden(before, dir, front, rs);
      StepWritesOwnFile(w, h + before, dir, rs, n);
      WritesOwnFilesAppend(before, step, dir, rs);
    }
  }

  /** A property stated against a prefix of the list holds against the list. */
  lemma WritesOwnFilesWiden(es: seq<Effect>, dir: string, front: seq<Resource>, rs: seq<Resource>)
    requires |front| <= |rs| && front == rs[..|front|]
    requires WritesOwnFiles(es, dir, front)
    ensures WritesOwnFiles(es, dir, rs)
  {
    forall k | 0 < k < |es| && es[k].Stored?
      ensures exists j :: (0 <= j < |rs| && es[k - 1].Fetched? && es[k - 1].url == rs[j].link &&
        es[k].path == Join(dir, rs[j].filename))
    {
      var j :| 0 <= j < |front| && es[k - 1].Fetched? && es[k - 1].url == front[j].link &&
        es[k].path == Join(dir, front[j].filename);
      assert front[j] == rs[j];
    }
  }

  /** The turn for rs[n] writes, if at all, to rs[n]'s file right after fetching it. */
  lemma StepWritesOwnFile(w: World, h: seq<Effect>, dir: string, rs: seq<Resource>, n: nat)
    requires n < |rs|
    ensures var step := ResourceStep(w, h, dir, rs[n]);
      WritesOwnFiles(step, dir, rs) && |step| > 0 && !step[0].Stored?
  {
    var step := ResourceStep(w, h, dir, rs[n]);
    if |step| == 2 {
      assert step[0].Fetched? && step[0].url == rs[n].link && step[1].path == Join(dir, rs[n].filename);
    }
  }

  /** Two series of effects, the second not starting with a write. */
  lemma WritesOwnFilesAppend(a: seq<Effect>, b: seq<Effect>, dir: string, rs: seq<Resource>)
    requires WritesOwnFiles(a, dir, rs) && WritesOwnFiles(b, dir, rs)
    requires b != [] ==> !b[0].Stored?
    ensures WritesOwnFiles(a + b, dir, rs)
  {
    var ab := a + b;
    forall k | 0 < k < |ab| && ab[k].Stored?
      ensures exists j :: (0 <= j < |rs| && ab[k - 1].Fetched? && ab[k - 1].url == rs[j].link &&
        ab[k].path == Join(dir, rs[j].filename))
    {
      if k < |a| {
        assert ab[k] == a[k] && ab[k - 1] == a[k - 1];
      } else {
        var i := k - |a|;
        assert ab[k] == b[i];
        assert i > 0;
        assert ab[k - 1] == b[i - 1];
      }
    }
  }

  // ---------------------------------------------------------------------
  // Where the files go
  // ---------------------------------------------------------------------

  /** The resources directory and the page are siblings in root_dir, and
      the resources directory is a plain name ending in "_files". */
  lemma NamesRelative(rootDir: string, url: string)
    ensures var dirName, pageName := ResourcesDirName(url), PageName(url);
      dirName != "" && !StartsWithSlash(dirName) && !EndsWithSlash(dirName) && '/' !in dirName &&
      !StartsWithSlash(pageName) && '/' !in pageName &&
      Join(rootDir, dirName) == JoinPrefix(rootDir) + dirName &&
      Join(rootDir, pageName) == JoinPrefix(rootDir) + pageName
  {
    var x := ConvertName(url, false);
    ConvertNameNoSlash(url, false);
    assert !StartsWithSlash(x + "_files") by {
      if |x| > 0 { assert (x + "_files")[0] == x[0]; }
    }
    assert !StartsWithSlash(x + ".html") by {
      if |x| > 0 { assert (x + ".html")[0] == x[0]; }
    }
  }

  /** No resource file, whatever its slash-free name, is the page file:
      the two paths part where "_files" and ".html" begin. */
  lemma PageIsNoResource(rootDir: string, url: string, f: string)
    requires '/' !in f
    ensures Join(Join(rootDir, ResourcesDirName(url)), f) != Join(rootDir, PageName(url))
  {
    NamesRelative(rootDir, url);
    var stem := JoinPrefix(rootDir) + ConvertName(url, false);
    var dir := stem + "_files";
    var page := stem + ".html";
    assert !StartsWithSlash(f) by {
      if |f| > 0 { assert f[0] in f; }
    }
    assert dir[|dir| - 1] == 's';
    var path := dir + "/" + f;
    assert Join(dir, f) == path;
    assert path[|stem|] == dir[|stem|] == '_';
    assert page[|stem|] == '.';
  }

  // ---------------------------------------------------------------------
  // A successful run
  // ---------------------------------------------------------------------

  /** After a successful run, the page was fetched first and then every
      resource of the rewritten page once, in list order; the resource
      effects hang together as LoopShaped says and write only into the
      resources directory, each to the file of its resource. */
  lemma PageRunResources(w: World, html: Html, lib: UrlLib, h: seq<Effect>, rootDir: string, url: string)
    requires PageRun(w, html, lib, h, rootDir, url).result.Success?
    ensures var es := PageRun(w, html, lib, h, rootDir, url).effects;
      var response := Respond(url, w.net(h, url)).value;
      var rs := Collected(lib, url, html.parse(response.data));
      var resourcesDir := Join(rootDir, ResourcesDirName(url));
      |es| >= 3 &&
      FetchedUrls(es) == [url] + Links(rs) &&
      LoopShaped(es[3..]) &&
      StoresOnlyTo(es[3..], Destinations(resourcesDir, rs)) &&
      WritesOwnFiles(es[3..], resourcesDir, rs)
  {
    var got := w.net(h, url);
    var fetched := Fetched(url, got);
    var response := Respond(url, got).value;
    var dirName := ResourcesDirName(url);
    var resourcesDir := Join(rootDir, dirName);
    var created := MadeDir(resourcesDir, w.mkdir(h + [fetched], resourcesDir));
    var tags := html.parse(response.data);
    var page := html.render(Rewritten(lib, url, dirName, tags));
    var indexPath := Join(rootDir, PageName(url));
    var stored := Stored(indexPath, Text(page), response.binary, w.store(h + [fetched, created], indexPath));
    var head := [fetched, created, stored];
    var rs := Collected(lib, url, tags);
    var rest := ResourceEffects(w, h + head, resourcesDir, rs);
    PageRunSucceeded(w, html, lib, h, rootDir, url);
    LoopFacts(w, h + head, resourcesDir, rs);
    HeadFetches(head, [url] + Links(rs), rest);
  }

  /** What the resource loop does, in one statement: it fetches the links
      in list order, its effects are LoopShaped, and it writes only to the
      resources' files. */
  lemma LoopFacts(w: World, h: seq<Effect>, dir: string, rs: seq<Resource>)
    ensures var rest := ResourceEffects(w, h, dir, rs);
      FetchedUrls(rest) == Links(rs) && LoopShaped(rest) && StoresOnlyTo(rest, Destinations(dir, rs)) &&
      WritesOwnFiles(rest, dir, rs)
  {
    ResourceFetchOrder(w, h, dir, rs);
    ResourceLoopShaped(w, h, dir, rs);
    ResourceWritesInside(w, h, dir, rs);
    LoopWritesOwnFiles(w, h, dir, rs);
  }

  /** A fetch, a mkdir and a write, followed by the rest. */
  lemma HeadFetches(head: seq<Effect>, urls: seq<string>, rest: seq<Effect>)
    requires |head| == 3 && head[0].Fetched? && !head[1].Fetched? && !head[2].Fetched?
    requires urls == [head[0].url] + FetchedUrls(rest)
    ensures FetchedUrls(head + rest) == urls && (head + rest)[3..] == rest
  {
    FetchedUrlsAppend(head, rest);
    assert head[..1][..0] == [];
    assert FetchedUrls(head[..1]) == [head[0].url];
    assert head[..2][..1] == head[..1];
    assert FetchedUrls(head[..2]) == [head[0].url];
    assert head[..3][..2] == head[..2];
    assert head[..3] == head;
  }

  /** No resource file name holds a '/'. */
  predicate SlashFreeNames(rs: seq<Resource>)
  {
    forall k :: 0 <= k < |rs| ==> '/' !in rs[k].filename
  }

  /** The resource files have slash-free names, so none of them is the page. */
  lemma ResourcesAvoidPage(rootDir: string, url: string, rs: seq<Resource>, es: seq<Effect>)
    requires SlashFreeNames(rs)
    requires StoresOnlyTo(es, Destinations(Join(rootDir, ResourcesDirName(url)), rs))
    ensures forall k :: 0 <= k < |es| && es[k].Stored? ==> es[k].path != Join(rootDir, PageName(url))
  {
    var dests := Destinations(Join(rootDir, ResourcesDirName(url)), rs);
    forall k | 0 <= k < |es| && es[k].Stored?
      ensures es[k].path != Join(rootDir, PageName(url))
    {
      var j :| 0 <= j < |dests| && dests[j] == es[k].path;
      PageIsNoResource(rootDir, url, rs[j].filename);
    }
  }

  /** The files of collected resources have slash-free names. */
  lemma CollectedSlashFree(lib: UrlLib, url: string, tags: seq<Tag>)
    ensures SlashFreeNames(Collected(lib, url, tags))
  {
    var rs := Collected(lib, url, tags);
    CollectedEntries(lib, url, tags);
    forall k | 0 <= k < |rs| ensures '/' !in rs[k].filename {
      ConvertNameNoSlash(rs[k].link, true);
    }
  }

  /** After a successful run the page file holds the rewritten page: no
      resource download overwrites it. */
  lemma PageRunKeepsPage(w: World, html: Html, lib: UrlLib, h: seq<Effect>, rootDir: string, url: string,
                         files: map<string, Body>)
    requires PageRun(w, html, lib, h, rootDir, url).result.Success?
    ensures var response := Respond(url, w.net(h, url)).value;
      var page := html.render(Rewritten(lib, url, ResourcesDirName(url), html.parse(response.data)));
      var final := FilesAfter(files, PageRun(w, html, lib, h, rootDir, url).effects);
      Join(rootDir, PageName(url)) in final && final[Join(rootDir, PageName(url))] == Text(page)
  {
    var got := w.net(h, url);
    var fetched := Fetched(url, got);
    var response := Respond(url, got).value;
    var dirName := ResourcesDirName(url);
    var resourcesDir := Join(rootDir, dirName);
    var created := MadeDir(resourcesDir, w.mkdir(h + [fetched], resourcesDir));
    var tags := html.parse(response.data);
    var page := html.render(Rewritten(lib, url, dirName, tags));
    var indexPath := Join(rootDir, PageName(url));
    var stored := Stored(indexPath, Text(page), response.binary, w.store(h + [fetched, created], indexPath));
    var head := [fetched, created, stored];
    var rs := Collected(lib, url, tags);
    var rest := ResourceEffects(w, h + head, resourcesDir, rs);
    PageRunSucceeded(w, html, lib, h, rootDir, url);
    CollectedSlashFree(lib, url, tags);
    ResourceWritesInside(w, h + head, resourcesDir, rs);
    ResourcesAvoidPage(rootDir, url, rs, rest);
    LastWriteStays(files, head, rest);
  }

  /** A fetch and a mkdir, then a successful write, then effects that
      write elsewhere: the written file keeps what was written. */
  lemma LastWriteStays(files: map<string, Body>, head: seq<Effect>, rest: seq<Effect>)
    requires |head| == 3 && !head[0].Stored? && !head[1].Stored?
    requires head[2].Stored? && head[2].wrote.Written?
    requires forall k :: 0 <= k < |rest| && rest[k].Stored? ==> rest[k].path != head[2].path
    ensures var final := FilesAfter(files, head + rest);
      head[2].path in final && final[head[2].path] == head[2].body
  {
    var stored := head[2];
    FilesAfterAppend(files, head, rest);
    FilesAfterAppend(files, head[..2], [stored]);
    assert head == head[..2] + [stored];
    FilesAfterUnstored(files, head[..2]);
    assert [stored][..0] == [];
    var written := FilesAfter(files, head);
    assert stored.path in written && written[stored.path] == stored.body;
    FilesAfterElsewhere(written, rest, stored.path);
  }

  /** Each rewritten tag, read relative to root_dir, names the file the
      resource of its link is saved to. */
  lemma RewrittenPointsToSaved(lib: UrlLib, rootDir: string, url: string, tags: seq<Tag>)
    ensures var rs, out := Collected(lib, url, tags), Rewritten(lib, url, ResourcesDirName(url), tags);
      var dests := Destinations(Join(rootDir, ResourcesDirName(url)), rs);
      forall i :: 0 <= i < |tags| && LocalLink(lib, url, tags[i]).Some? ==>
        exists k :: 0 <= k < |rs| && rs[k].link == LocalLink(lib, url, tags[i]).value &&
          Join(rootDir, out[i].attrs["src"]) == dests[k]
  {
    var dirName := ResourcesDirName(url);
    var rs, out := Collected(lib, url, tags), Rewritten(lib, url, dirName, tags);
    var dests := Destinations(Join(rootDir, dirName), rs);
    RewriteMatchesResources(lib, url, dirName, tags);
    CollectedEntries(lib, url, tags);
    NamesRelative(rootDir, url);
    forall i | 0 <= i < |tags| && LocalLink(lib, url, tags[i]).Some?
      ensures exists k :: 0 <= k < |rs| && rs[k].link == LocalLink(lib, url, tags[i]).value &&
                          Join(rootDir, out[i].attrs["src"]) == dests[k]
    {
      var k :| 0 <= k < |rs| && rs[k].link == LocalLink(lib, url, tags[i]).value &&
               out[i].attrs["src"] == Join(dirName, rs[k].filename);
      var f := rs[k].filename;
      ConvertNameNoSlash(rs[k].link, true);
      assert !StartsWithSlash(f) by {
        if |f| > 0 { assert f[0] in f; }
      }
      JoinNested(rootDir, dirName, f);
    }
  }

  /** The directory write_file checks with isdir is the directory the file
      was meant for: the resources directory for every resource, and
      root_dir for the page when root_dir is a plain directory path. */
  lemma WriteChecksParent(rootDir: string, url: string, f: string)
    requires '/' !in f
    ensures Split(Join(Join(rootDir, ResourcesDirName(url)), f)) == (Join(rootDir, ResourcesDirName(url)), f)
    ensures rootDir != "" && !EndsWithSlash(rootDir) ==>
      Split(Join(rootDir, PageName(url))) == (rootDir, PageName(url))
  {
    NamesRelative(rootDir, url);
    var d := Join(rootDir, ResourcesDirName(url));
    var x := ResourcesDirName(url);
    assert d != "" && d[|d| - 1] == x[|x| - 1];
    SplitJoin(d, f);
    if rootDir != "" && !EndsWithSlash(rootDir) {
      SplitJoin(rootDir, PageName(url));
    }
  }
}
