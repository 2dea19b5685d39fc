/**
 * The Cloudflare-worker server (src/lib.rs).  The D1 table `urls` is a class
 * whose one field maps each slug to its URL; the handlers are methods that
 * query and insert into it.  Routing, JSON and response building are reduced
 * to the `Reply` values a handler can produce.
 */
module Worker {
  import opened Fingerprint
  import opened SlugResolution

  /** A row of the table and the JSON body of a successful registration. */
  datatype ShortenUrl = ShortenUrl(url: string, slug: string)

  /** The JSON body of `POST /api/shorten`. */
  datatype PostRequest = PostRequest(url: string, slug: Option<string>)

  /** What a handler answers: a JSON body, a redirect, an error status, an
      `Err` propagated out of the handler, or a panic. */
  datatype Reply = Json(body: ShortenUrl) | Redirect(location: string) | Error(status: nat) | Failed | Panic

  /** The D1 table `urls (slug, url)`, keyed by slug. */
  class UrlTable {
    var urls: map<string, string>

    constructor (rows: map<string, string>)
      ensures urls == rows
    {
      urls := rows;
    }

    /** `retrieve_slug_from_db`: the row stored under `slug`, if any. */
    function RetrieveSlug(slug: string): (r: Option<ShortenUrl>)
      reads this
      ensures r.Some? <==> slug in urls
      ensures r.Some? ==> r.value.slug == slug && r.value.url == urls[slug]
    {
      if slug in urls then Some(ShortenUrl(urls[slug], slug)) else None
    }

    /** `add_to_db`: insert a row.  The insert fails when the slug is already a
        key, and may fail for reasons outside the model (the database's own
        I/O), which is left as an arbitrary outcome. */
    method AddToDb(entry: ShortenUrl) returns (ok: bool)
      modifies this
      ensures ok ==> entry.slug !in old(urls) && urls == old(urls)[entry.slug := entry.url]
      ensures !ok ==> urls == old(urls)
    {
      var written: bool :| true;
      ok := entry.slug !in urls && written;
      if ok {
        urls := urls[entry.slug := entry.url];
      }
    }
  }

  /** `generate_slug`: walk the 8-character windows of the URL's digest until
      one is free or already holds this URL.  The store is only read.  The
      panic on exhaustion is the `Exhausted` outcome. */
  method GenerateSlug(db: UrlTable, md5: Md5, url: string) returns (r: Resolution)
    ensures r == AutoSlug(db.urls, url, Shorten(md5, url))
  {
    var found := false;
    var existed := false;
    var digest := Shorten(md5, url);
    var count := 0;
    var slug := Window(digest, count);
    while !found && count < |digest| - SlugLen
      invariant 0 <= count <= Tries(digest)
      invariant forall j | 0 <= j < count :: Collides(db.urls, url, Window(digest, j))
      invariant found ==> count < Tries(digest) && slug == Window(digest, count)
      invariant found ==> !Collides(db.urls, url, slug) && existed == (slug in db.urls)
      invariant !found ==> !existed
      decreases Tries(digest) - count, !found
    {
      slug := Window(digest, count);
      var response := db.RetrieveSlug(slug);
      match response {
        case Some(shorten) =>
          if shorten.url == url {
            existed := true;
            found := true;
          } else {
            count := count + 1;
          }
        case None =>
          found := true;
      }
    }
    if !found {
      return Exhausted;
    }
    AutoSlugAfterCollisions(db.urls, url, digest, count);
    return Chosen(Choice(slug, existed));
  }

  /** `handle_post_url`: resolve the slug (auto-generated when absent or
      empty, checked when given), then insert it when it was not yet stored.
      A caller slug held by another URL answers 500 and writes nothing. */
  method HandlePostUrl(db: UrlTable, md5: Md5, req: PostRequest) returns (reply: Reply)
    modifies db
    ensures var r := Resolve(old(db.urls), Shorten(md5, req.url), req.url, req.slug);
      && (reply.Json? ==> r.Chosen? && reply.body == ShortenUrl(req.url, r.choice.slug)
                          && db.urls == Commit(old(db.urls), req.url, r))
      && (!reply.Json? ==> db.urls == old(db.urls))
      && (reply.Panic? <==> r.Exhausted?)
      && (r.Chosen? && r.choice.existed ==> reply.Json?)
      && (reply.Error? ==> reply.status == 500 && (r.Conflict? || (r.Chosen? && !r.choice.existed)))
      && (r.Conflict? ==> reply == Error(500))
      && !reply.Redirect? && !reply.Failed?
  {
    var url := req.url;
    var slug: string;
    var inDb: bool;
    match req.slug {
      case Some(s) =>
        if |s| == 0 {
          var g := GenerateSlug(db, md5, url);
          if !g.Chosen? {
            return Panic;
          }
          slug, inDb := g.choice.slug, g.choice.existed;
        } else {
          var response := db.RetrieveSlug(s);
          match response {
            case Some(item) =>
              if item.url == url {
                inDb := true;
              } else {
                return Error(500);
              }
            case None =>
              inDb := false;
          }
          slug := s;
        }
      case None =>
        var g := GenerateSlug(db, md5, url);
        if !g.Chosen? {
          return Panic;
        }
        slug, inDb := g.choice.slug, g.choice.existed;
    }
    var shorten := ShortenUrl(url, slug);
    if !inDb {
      var ok := db.AddToDb(shorten);
      if !ok {
        return Error(500);
      }
    }
    return Json(shorten);
  }

  /** `handle_get_url`: redirect to the URL stored under the slug.  A missing
      route parameter or an unknown slug answers 400; a stored URL that
      `Url::parse` (given as `isUrl`) rejects makes the handler fail. */
  function HandleGetUrl(db: UrlTable, slug: Option<string>, isUrl: string -> bool): (r: Reply)
    reads db
    ensures r.Redirect? <==> slug.Some? && slug.value in db.urls && isUrl(db.urls[slug.value])
    ensures r.Redirect? ==> r.location == db.urls[slug.value]
    ensures r == Error(400) <==> slug.None? || slug.value !in db.urls
    ensures r.Failed? <==> slug.Some? && slug.value in db.urls && !isUrl(db.urls[slug.value])
  {
    match slug
    case None => Error(400)
    case Some(s) =>
      match db.RetrieveSlug(s)
      case Some(item) => if isUrl(item.url) then Redirect(item.url) else Failed
      case None => Error(400)
  }

  /** Registering a URL and then following its slug leads back to the URL. */
  method PostThenGet(db: UrlTable, md5: Md5, req: PostRequest, isUrl: string -> bool)
    returns (posted: Reply, fetched: Reply)
    modifies db
    ensures posted.Json? ==> posted.body.url == req.url && posted.body.slug in db.urls
                             && db.urls[posted.body.slug] == req.url
    ensures posted.Json? ==> fetched == (if isUrl(req.url) then Redirect(req.url) else Failed)
  {
    posted := HandlePostUrl(db, md5, req);
    if posted.Json? {
      CommitKeepsRecords(old(db.urls), Shorten(md5, req.url), req.url, req.slug);
      fetched := HandleGetUrl(db, Some(posted.body.slug), isUrl);
    } else {
      fetched := HandleGetUrl(db, None, isUrl);
    }
  }

  /** Posting the same request twice: the second answer repeats the first and
      the second call writes nothing. */
  method PostTwice(db: UrlTable, md5: Md5, req: PostRequest) returns (first: Reply, second: Reply)
    modifies db
    ensures first.Json? ==> second == first
    ensures first.Json? ==> db.urls == old(db.urls)[first.body.slug := req.url]
  {
    first := HandlePostUrl(db, md5, req);
    if first.Json? {
      ResolveIdempotent(old(db.urls), Shorten(md5, req.url), req.url, req.slug);
      CommitKeepsRecords(old(db.urls), Shorten(md5, req.url), req.url, req.slug);
    }
    second := HandlePostUrl(db, md5, req);
  }

  /** The MIME types `handle_assets` serves. */
  datatype ContentType = CSS | HTML | PNG | TXT

  /** `ContentType::from_ext`: three known extensions, plain text for the rest. */
  function FromExt(ext: string): (c: ContentType)
    ensures c == CSS <==> ext == "css"
    ensures c == HTML <==> ext == "html"
    ensures c == PNG <==> ext == "png"
  {
    match ext
    case "css" => CSS
    case "html" => HTML
    case "png" => PNG
    case _ => TXT
  }

  /** `ContentType::to_str`: the header value for each type. */
  function ToStr(c: ContentType): (s: string)
    ensures s == "text/plain" <==> c == TXT
    ensures |s| > 0
  {
    match c
    case CSS => "text/css"
    case HTML => "text/html"
    case PNG => "image/png"
    case TXT => "text/plain"
  }

  /** Different content types never share a header value, and an unknown
      extension is served as plain text. */
  lemma ContentTypeHeaders(a: ContentType, b: ContentType, ext: string)
    ensures ToStr(a) == ToStr(b) ==> a == b
    ensures ToStr(FromExt(ext)) == "text/plain" <==> ext != "css" && ext != "html" && ext != "png"
    ensures ToStr(FromExt("css")) == "text/css"
  {
    if a != b {
      assert ToStr(a)[..6] != ToStr(b)[..6] || ToStr(a)[5] != ToStr(b)[5] || |ToStr(a)| != |ToStr(b)|;
    }
  }
}
