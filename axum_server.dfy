/**
 * The axum/MySQL server (src/main.rs).  The MySQL table `urls (short, url)`
 * is a class holding its rows in order; a query returns every matching row,
 * and `retrieve_hash_from_db` turns 0, 1 or more matches into "absent",
 * "found" or a panic.  The table's invariant is that `short` is a key, which
 * is what makes the third case unreachable; under it the rows read as the
 * same slug-to-URL map the resolution engine works on.
 */
module AxumServer {
  import opened Fingerprint
  import opened SlugResolution

  /** A row of the table, and the `data` of a successful answer. */
  datatype ShortenUrl = ShortenUrl(url: string, short: string)

  /** What `retrieve_hash_from_db` makes of a query's rows. */
  datatype Lookup = NoMatch | Match(item: ShortenUrl) | ManyMatches

  /** What a handler answers: CREATED with the entry, a redirect, NOT_FOUND, or a panic. */
  datatype Reply = Created(data: ShortenUrl) | Redirect(location: string) | NotFound | Panic

  /** The rows of the result of `SELECT short, url FROM urls WHERE short = hash`, in table order. */
  function Matching(rows: seq<ShortenUrl>, hash: string): (m: seq<ShortenUrl>)
    ensures |m| <= |rows|
    ensures forall row :: row in m <==> row in rows && row.short == hash
    ensures forall row :: multiset(m)[row] == (if row.short == hash then multiset(rows)[row] else 0)
  {
    if rows == [] then []
    else
      assert rows == [rows[0]] + rows[1..];
      if rows[0].short == hash then [rows[0]] + Matching(rows[1..], hash)
    else Matching(rows[1..], hash)
  }

  /** No two rows share a hash. */
  ghost predicate UniqueKeys(rows: seq<ShortenUrl>) {
    forall i, j | 0 <= i < j < |rows| :: rows[i].short != rows[j].short
  }

  /** The rows read as a map from hash to URL (a later row would win, but a
      table with unique keys has no later row for the same hash). */
  function TableMap(rows: seq<ShortenUrl>): (m: map<string, string>)
    ensures m.Keys == set row | row in rows :: row.short
  {
    if rows == [] then map[]
    else
      var last := rows[|rows| - 1];
      var before := rows[..|rows| - 1];
      assert rows == before + [last];
      TableMap(before)[last.short := last.url]
  }

  /** With unique keys, the map holds each row's URL under its hash. */
  lemma {:induction false} TableMapHoldsRows(rows: seq<ShortenUrl>)
    ensures UniqueKeys(rows) ==> forall row | row in rows :: TableMap(rows)[row.short] == row.url
  {
    if rows != [] && UniqueKeys(rows) {
      var last := rows[|rows| - 1];
      var before := rows[..|rows| - 1];
      assert UniqueKeys(before) by {
        forall i, j | 0 <= i < j < |before| ensures before[i].short != before[j].short {
          assert before[i] == rows[i] && before[j] == rows[j];
        }
      }
      TableMapHoldsRows(before);
      forall row | row in rows ensures TableMap(rows)[row.short] == row.url {
        var i :| 0 <= i < |rows| && rows[i] == row;
        if i < |rows| - 1 {
          assert before[i] == row;
          assert row.short != last.short;
        }
      }
    }
  }

  /** With unique keys a hash matches at most one row. */
  lemma {:induction false} UniqueMatch(rows: seq<ShortenUrl>, hash: string)
    ensures UniqueKeys(rows) ==> |Matching(rows, hash)| <= 1
  {
    if rows != [] && UniqueKeys(rows) {
      var rest := rows[1..];
      assert UniqueKeys(rest) by {
        forall i, j | 0 <= i < j < |rest| ensures rest[i].short != rest[j].short {
          assert rest[i] == rows[i + 1] && rest[j] == rows[j + 1];
        }
      }
      UniqueMatch(rest, hash);
      if rows[0].short == hash {
        forall row | row in rest ensures row.short != hash {
          var k :| 0 <= k < |rest| && rest[k] == row;
          assert rows[k + 1] == row;
        }
        var m := Matching(rest, hash);
        assert |m| == 0 || m[0] in m;
      }
    }
  }

  /** The table `urls`, whose `short` column holds each hash at most once. */
  class UrlsTable {
    var rows: seq<ShortenUrl>

    ghost predicate Valid()
      reads this
    {
      UniqueKeys(rows)
    }

    /** The table read as a map from hash to URL. */
    function View(): map<string, string>
      reads this
    {
      TableMap(rows)
    }

    constructor ()
      ensures Valid() && rows == []
    {
      rows := [];
    }

    /** `retrieve_hash_from_db`: no row is "absent", one row is that row, more
        than one is the `unreachable!` panic, which a valid table never reaches. */
    function RetrieveHash(hash: string): (r: Lookup)
      reads this
      ensures r.NoMatch? <==> hash !in View()
      ensures r.Match? ==> r.item in rows && r.item.short == hash
      ensures Valid() ==> !r.ManyMatches?
      ensures Valid() && r.Match? ==> r.item.url == View()[hash]
    {
      var found := Matching(rows, hash);
      UniqueMatch(rows, hash);
      TableMapHoldsRows(rows);
      if |found| == 0 then NoMatch
      else if |found| == 1 then
        assert found[0] in found;
        Match(found[0])
      else
        assert found[0] in found;
        ManyMatches
    }

    /** `add_to_db`: append a row.  The key constraint refuses a second row for
        a hash, and the database may fail for reasons outside the model (its
        own I/O), which is left as an arbitrary outcome. */
    method AddToDb(entry: ShortenUrl) returns (ok: bool)
      requires Valid()
      modifies this
      ensures Valid()
      ensures ok ==> entry.short !in old(View()) && rows == old(rows) + [entry]
      ensures ok ==> View() == old(View())[entry.short := entry.url]
      ensures !ok ==> rows == old(rows)
    {
      var written: bool :| true;
      ok := RetrieveHash(entry.short).NoMatch? && written;
      if ok {
        var before := rows;
        rows := rows + [entry];
        assert rows[..|rows| - 1] == before;
        forall i, j | 0 <= i < j < |rows| ensures rows[i].short != rows[j].short {
          if j == |before| {
            assert rows[i] in before;
          } else {
            assert rows[i] == before[i] && rows[j] == before[j];
          }
        }
      }
    }
  }

  /** `select_hash`: walk the 8-character windows of the URL's digest until one
      is free or already holds this URL.  The table is only read.  The panic
      on exhaustion is the `Exhausted` outcome. */
  method SelectHash(db: UrlsTable, md5: Md5, url: string) returns (r: Resolution)
    requires db.Valid()
    ensures r == AutoSlug(db.View(), url, Shorten(md5, url))
  {
    var found := false;
    var existed := false;
    var digest := Shorten(md5, url);
    var count := 0;
    var hash := Window(digest, count);
    while !found && count < |digest| - SlugLen
      invariant 0 <= count <= Tries(digest)
      invariant forall j | 0 <= j < count :: Collides(db.View(), url, Window(digest, j))
      invariant found ==> count < Tries(digest) && hash == Window(digest, count)
      invariant found ==> !Collides(db.View(), url, hash) && existed == (hash in db.View())
      invariant !found ==> !existed
      decreases Tries(digest) - count, !found
    {
      hash := Window(digest, count);
      var response := db.RetrieveHash(hash);
      if response.Match? {
        if response.item.url == url {
          existed := true;
          found := true;
        } else {
          count := count + 1;
        }
      } else {
        found := true;
      }
    }
    if !found {
      return Exhausted;
    }
    AutoSlugAfterCollisions(db.View(), url, digest, count);
    return Chosen(Choice(hash, existed));
  }

  /** `url_post_handler`: select a hash, insert it when it was not yet stored,
      and answer CREATED whether or not a row was written.  A failed insert
      panics (`expect`). */
  method UrlPostHandler(db: UrlsTable, md5: Md5, url: string) returns (reply: Reply)
    requires db.Valid()
    modifies db
    ensures db.Valid()
    ensures var r := AutoSlug(old(db.View()), url, Shorten(md5, url));
      && (reply.Created? ==> r.Chosen? && reply.data == ShortenUrl(url, r.choice.slug)
                             && db.View() == Commit(old(db.View()), url, r))
      && (reply.Created? && r.choice.existed ==> db.rows == old(db.rows))
      && (reply.Created? && !r.choice.existed ==> db.rows == old(db.rows) + [reply.data])
      && (!reply.Created? ==> reply.Panic? && db.rows == old(db.rows))
      && (r.Exhausted? ==> reply.Panic?)
      && (r.Chosen? && r.choice.existed ==> reply.Created?)
  {
    var selection := SelectHash(db, md5, url);
    if !selection.Chosen? {
      return Panic;
    }
    var shorten := ShortenUrl(url, selection.choice.slug);
    if !selection.choice.existed {
      var ok := db.AddToDb(shorten);
      if !ok {
        return Panic;
      }
    }
    return Created(shorten);
  }

  /** `short_url_get_handler`: redirect to the URL stored under the hash, or NOT_FOUND. */
  function ShortUrlGetHandler(db: UrlsTable, hash: string): (r: Reply)
    reads db
    ensures db.Valid() ==> r == (if hash in db.View() then Redirect(db.View()[hash]) else NotFound)
    ensures r.Panic? ==> !db.Valid()
  {
    match db.RetrieveHash(hash)
    case Match(item) => Redirect(item.url)
    case NoMatch => NotFound
    case ManyMatches => Panic
  }

  /** Posting a URL and then following its hash leads back to the URL. */
  method PostThenGet(db: UrlsTable, md5: Md5, url: string) returns (posted: Reply, fetched: Reply)
    requires db.Valid()
    modifies db
    ensures db.Valid()
    ensures posted.Created? ==> posted.data.url == url && fetched == Redirect(url)
  {
    posted := UrlPostHandler(db, md5, url);
    if posted.Created? {
      CommitKeepsRecords(old(db.View()), Shorten(md5, url), url, None);
      fetched := ShortUrlGetHandler(db, posted.data.short);
    } else {
      fetched := NotFound;
    }
  }

  /** Posting the same URL twice: the same hash both times, and only the first call may add a row. */
  method PostTwice(db: UrlsTable, md5: Md5, url: string) returns (first: Reply, second: Reply)
    requires db.Valid()
    modifies db
    ensures db.Valid()
    ensures first.Created? ==> second == first
    ensures first.Created? ==> db.rows == old(db.rows) || db.rows == old(db.rows) + [first.data]
    ensures first.Created? ==> db.View() == old(db.View())[first.data.short := url]
  {
    ghost var start := db.View();
    first := UrlPostHandler(db, md5, url);
    ghost var between := db.rows;
    ghost var middle := db.View();
    if first.Created? {
      ghost var d := Shorten(md5, url);
      ghost var r := AutoSlug(start, url, d);
      assert Resolve(start, d, url, None) == r;
      ResolveIdempotent(start, d, url, None);
      CommitKeepsRecords(start, d, url, None);
      assert middle == Commit(start, url, r);
      assert middle == start[first.data.short := url];
      assert AutoSlug(middle, url, d) == Chosen(Choice(first.data.short, true));
    }
    second := UrlPostHandler(db, md5, url);
    assert first.Created? ==> db.rows == between;
  }
}
